# Verified model of Atenea's durable state and evidence

Atenea keeps snapshots of its state directory, certifies Codex installations, records runs,
and translates schemas and settings. This project models the code behind that in Dafny and
proves what it is there to guarantee. `dafny verify dfyconfig.toml` checks everything.

**Snapshot store** (`FileSystem`, `TreeCopy`, `Extras`, `Snapshots`, `Rhythm`, `RhythmRuns`, `Restores`,
`StoreRuns`, `Capture`).
The file system is a map from places to trees whose files are names for inodes, so that sharing
by hard link, and what a write through one name does to the others, is part of the model. Every
file-system call is one atomic step that may fail; the class `Disk` records each state a step
leaves behind, so "stopped between any two calls" is "any recorded state". Where a symbolic link
leads is a parameter of the machine, and a machine may be faultless: then no call fails without a
reason. `StoreRuns` puts calls of snapshot, restore, promote and discard, and edits of the live
trees, into histories of any length; `Capture` says when a run shares a file with a live tree.

**Mach-O canonicaliser** (`InPlace`, `MachO`, `MachONormal`, `MachOBytes`, `MachOImage`, `MachOOverlap`). The loop over a
byte array that it is rewriting; what follows when the bytes it clears do not decide what is
cleared; and an image for which they do.

**Payload merge** (`Json`, `JsonMerge`). The merge on a heap of mutable maps that come to share
subtrees, and the order theory of the values it computes.

**Certification** (`Markers`, `Grants`, `Text`, `Counting`, `Observations`, `CliTrace`, `CliReconnect`,
`CliTraceReconnect`, `CliExamples`, `Certificates`, `Artifact`). Marker files as a state machine over any number of
processes, and exactly when cursor 1 can be granted in it; the verdicts over an event stream; the
lifecycle of certificates with every write allowed to fail or to be the last; the receipts of a
release artifact.

**Receipt store** (`Receipts`, `Races`). Save, recover, load and prune over a directory with any
contents, one call after the other; and one receipt under overlapping calls of any number of
processes.

**Interaction schemas** (`Schemas`, `AgentDevice`). An interpreter for the schema vocabulary, the
decorated schema offered to clients, and the validator.

**Smaller pieces** (`Clock`, `Jsonc`, `Toml`). The single maintenance lane under every
interleaving, comment removal, and the TOML string writer.

What a small function is for is said twice: once as the code computes it, and once in a lemma that
tells it from the bytes, characters, fields or names alone (`MachOBytes`, the evidence predicates of
`CliTrace` and `CliTraceReconnect`, `Schemas.Refused`, `AgentDevice.Proper`, the tokens of `Jsonc`,
and the lemmas named `...Is`), with worked examples beside it. On a faultless machine the calls of the
two stores do not only keep what they promise when they succeed: they succeed whenever nothing is in
their way.

## Results that hold only under a condition

- A run leaves the store apart from the live trees exactly when none of its lookups in the newest
  snapshot leads, through a symbolic link, to a live file of the size and time the run has for that
  path: `Capture.RunSeparateIff` over every state a run may leave, and `Capture.SnapshotCaptures` for
  the code itself on a faultless machine. Apart is exactly what keeps snapshots from changing
  (`Capture.SeparateIffEditsHarmless`). `Capture.LinkedRunCaptures` runs the code where the condition
  fails: the live file is shared, and the next edit of it rewrites the snapshot.
- A new snapshot always gets a new name exactly when the interval is at least a second
  (`Rhythm.NewNameIffWholeSecond`).
- The Mach-O form is normal when the mask misses every byte that decides it, in particular when the
  signatures lie behind the load commands and do not overlap (`MachONormal.ApartIsOrderly`).
  `MachOOverlap.NotIdempotent` is an accepted image whose canonical form is refused.
- Cursor 1 is granted only after a cursor-0 call of the same challenge has written its whole line,
  not necessarily after one has succeeded: `Markers.CursorOneWithoutCursorZero`. A waiting call can
  be granted exactly when the file at the path holds its whole line and no reconnect marker exists
  (`Grants.GrantIff`), and before any cursor-0 success exactly when, besides, the writer of that file
  has not succeeded: it is past its last byte, or has failed and left the file (`Grants.GrantPrecedesIff`).
- What `Prune` removes is a closed run older than its cutoff exactly when the last run saved between
  its judgement and the removal, if there is one, is such a run too (`Races.RemovedIff`): the receipt
  is judged before its lock is taken. `Races.OpenReceiptGoes` is a run in which an open receipt goes;
  when closing a run is the last that is saved of it, none does (`Races.OpenNeverGoes`).
- Comment removal keeps every newline exactly when the text does not end with a newline inside an
  unterminated block comment (`Jsonc.LinesKept`). The source's comment promises it always;
  `Jsonc.NewlineLost` is a text for which it fails.

## Model

| member | source | states |
|---|---|---|
| FileSystem.Disk.OpenTruncated | internal/backup/backup.go:1019-1045 | opening for writing truncates the inode the name already has, and with it every other name of that inode; a free name gets a new inode |
| FileSystem.Disk.HardLink | internal/backup/backup.go:998-1017 | a link adds a name for the same inode and nothing else |
| TreeCopy.TryLink | internal/backup/backup.go:998-1017 | a file is shared only when size and time are equal, and then it is the very file that the lookup in the base finds; failing changes nothing |
| TreeCopy.CopyFile | internal/backup/backup.go:1019-1077 | the copy is a new inode with the source's bytes and time; at every step no older inode changes and the tree adopts none |
| TreeCopy.CopyEntry | internal/backup/backup.go:760-848 | each entry of the walk becomes a faithful one, counted once as linked or copied, and counted linked exactly when its inode is older than the run |
| TreeCopy.CopyTree | internal/backup/backup.go:740-848 | the finished tree has exactly the source's data paths, each file fresh or shared, and the counters add up to its files and links |
| Extras.PrepareParent | internal/backup/backup.go:917-949 | the parents that are missing are made and nothing else; success means the way down meets no link |
| Extras.MakeRoom | internal/backup/backup.go:876-899 | the destination's name is freed without touching the inode it named |
| Extras.CopyExtra | internal/backup/backup.go:854-912 | an extra is laid over the tree with its parents, only over a place that is free or not a directory; a missing one changes nothing |
| Extras.OverlayCopies | internal/backup/backup.go:630-655 | a complete tree with one extra laid over it is the complete tree of the overlaid data |
| Extras.OverlayCounts | internal/backup/backup.go:101-105 | the counters still match the tree when an extra replaces a linked file, a copied file, a link or an earlier extra |
| Extras.ExpectedAt | internal/backup/backup.go:630-655 | at each path the full copy holds the last extra for it, or else what the source has there, or else a directory that an extra needs |
| Snapshots.List | internal/backup/backup.go:189-217 | exactly the published snapshots, newest first |
| Snapshots.Sweep | internal/backup/backup.go:707-731 | only staging trees go, whatever fails on the way, and on success none is left |
| Snapshots.PartialNames | internal/backup/backup.go:60-66 | a name is swept when it starts with a dot and ends in `.partial` |
| Snapshots.Build | internal/backup/backup.go:606-660 | the staging tree equals the full copy, shared with the newest snapshot, with matching counters; no published tree is touched at any step |
| Snapshots.Finish | internal/backup/backup.go:656-681 | publication by rename: at every step each snapshot is as it was or the complete new one |
| Snapshots.Snapshot | internal/backup/backup.go:555-681 | in every state a run may leave behind, no older inode has changed, each name is an old tree or the complete new one, and a lost one was a namesake or beyond the newest `keep`; a finished run has files equal to linked plus copied equal to the entries of its tree |
| Snapshots.Rotate | internal/backup/backup.go:689-704 | after a full rotation exactly the newest `keep` names remain; no step drops a name with fewer than `keep` above it |
| Snapshots.TopIsPrefix | internal/backup/backup.go:689-704 | cutting the newest-first list is taking the `keep` greatest names |
| Rhythm.SnapshotIfDue | internal/backup/backup.go:517-544 | a copy is taken when the interval is positive, the source is there and ready, no existing one is too young and nothing fails, and only then; without one, failure is reported exactly for a bad interval, a source that is not ready and a call that went wrong; with whole seconds its name is newer than all, it survives, and exactly the newest min(n + 1, keep) remain, unchanged |
| Rhythm.NewNameIffWholeSecond | internal/backup/backup.go:517-544 | for any clock, the new name is strictly newer exactly when the interval is at least a second |
| Rhythm.RotateOnce | internal/backup/backup.go:689-704 | rotating after each copy keeps what one rotation of all of them keeps |
| Rhythm.FolderIsTop | internal/backup/backup.go:689-704 | after any number of copies exactly the newest min(n, keep) of everything ever held remain |
| RhythmRuns.NewestStay | internal/backup/backup.go:517-544 | over any run of calls, finished, failed or killed, with a rhythm of at least a second and any clock, the newest `keep` of all names ever published are in the folder at every moment |
| RhythmRuns.NamesIncrease | internal/backup/backup.go:517-544 | over such a run, a name that appears is newer than every name there ever was |
| RhythmRuns.NeverReplaced | internal/backup/backup.go:598-704 | over such a run, a name stands for one tree for good: it is never replaced, and once gone it does not come back |
| RhythmRuns.TakenLeavesNewest | internal/backup/backup.go:517-544 | when a call of such a run reports a copy, exactly the newest min(n, keep) of all names ever published are there, its own among them |
| RhythmRuns.DueBeatPublishes | internal/backup/backup.go:517-544 | a call that finds every copy old enough, with nothing in its way, leaves one under its own second, newer than all there ever were |
| RhythmRuns.Beating | internal/backup/backup.go:517-544 | every call of SnapshotIfDue is a step of such a run |
| StoreRuns.SeparateStep | internal/backup/backup.go:606-681 | no step lets a live tree and a snapshot share a file, unless it publishes a run one of whose lookups finds a matching live file |
| StoreRuns.SnapshotsFrozen | internal/backup/backup.go:606-681 | over every history without such a run, a published snapshot keeps its paths, bytes, links and times for as long as it exists and is not retaken |
| StoreRuns.IncrementalIsFull | internal/backup/backup.go:555-681 | a tree built on an honest base reads as the full copy |
| StoreRuns.EverySnapshotIsFull | internal/backup/backup.go:555-912 | over every history from an empty store in which no run looks through a link, each snapshot equals the plain full copy of its source overlaid with its extras |
| StoreRuns.RestoreIsFull | internal/backup/backup.go:226-294 | restoring any snapshot of such a history gives that full copy back |
| Capture.RunSeparateIff | internal/backup/backup.go:998-1017 | from a store that shares no file with the live trees, all states a run may leave share none, exactly when no lookup of the run finds a live file of the same size and time; a run without a directory at its root publishes nothing |
| Capture.PublishedSeparateIff | internal/backup/backup.go:998-1017 | on a machine where nothing fails without a reason, the published tree shares a live file exactly when such a lookup exists |
| Capture.SnapshotCaptures | internal/backup/backup.go:555-681 | the snapshot call itself, on such a machine: it publishes, and whether it shares a live file could be read off before the call |
| Capture.SeparateIffEditsHarmless | internal/backup/backup.go:998-1017 | sharing no file is exactly what keeps every edit of live files from changing what a snapshot reads as |
| Capture.LinkedParentCapturesLiveFile | internal/backup/backup.go:998-1017 | a state and a run in which a lookup follows a link inside the newest snapshot to a live file |
| Capture.LinkedRunCaptures | internal/backup/backup.go:555-681 | the snapshot call run on that state publishes the live file, and one more byte in it changes the snapshot |
| Restores.Restore | internal/backup/backup.go:226-294 | the restored tree reads as the snapshot and shares no file with it, and the target is never there in part; an existing target or an unknown name changes nothing; with a free target and nothing failing it succeeds |
| Restores.RestoreInPlace | internal/backup/backup.go:300-367 | success swaps, and comes when the sidecar names are free and nothing fails; in every state left behind, every tree of the target's three names is whole under one of them |
| Restores.SwapIn | internal/backup/backup.go:330-367 | the two renames with their rollback conserve every tree at every step |
| Restores.PromotePrevious | internal/backup/backup.go:373-424 | success puts the sidecar back and keeps what was there, and comes when both trees are there and nothing fails; every state left behind conserves all trees |
| Restores.DiscardPrevious | internal/backup/backup.go:430-465 | the only call that gives a tree up, and only the sidecar |
| Restores.ConservedRun | internal/backup/backup.go:226-465 | over any number of calls, finished or not, each exchanging its own names, every tree is still whole, under its name or one of those exchanged |
| Restores.MixedRun | internal/backup/backup.go:226-465 | over any number of calls on any targets, each inside a family of names or disjoint from it, every tree of the family is still whole under a name of the family |
| Restores.PromoteUndoesRestore | internal/backup/backup.go:300-424 | promoting after an in-place restore puts the original bytes back and keeps the restored ones |
| Restores.RestoreThenPromote | internal/backup/backup.go:300-424 | the two calls in a row, when nothing is in their way, succeed and end with the original bytes in place |
| MachO.CanonicalizeMachO | internal/codexcert/reproducible.go:42-93 | for every byte buffer it stays in bounds, keeps the length, and computes the step-by-step pass over half-rewritten bytes |
| MachO.CanonicalizeSignature | internal/codexcert/reproducible.go:95-122 | exactly the code slots of a plain ad-hoc signature are cleared, or nothing |
| MachOBytes.StepBytes | internal/codexcert/reproducible.go:52-122 | one round on any bytes, told by byte positions: when it refuses, how far it goes, and that it clears bytes 32 to 40 of a `__LINKEDIT` segment, bytes 8 to 24 of a UUID command, or the code slots of the signature that it places, and nothing else |
| MachOBytes.PassBytes | internal/codexcert/reproducible.go:42-53 | the pass is as many rounds as the word at 16 says, from byte 32, in the bytes that the word at 20 says |
| MachOBytes.CanonicalBytes | internal/codexcert/reproducible.go:42-122 | an orderly file is refused exactly when a signature is no plain ad-hoc one, and comes out as itself with exactly those bytes cleared |
| MachOBytes.NormalBytes | internal/codexcert/reproducible.go:42-122 | two orderly files come out equal exactly when they agree in every other byte |
| MachOBytes.HashedBytes | internal/codexcert/reproducible.go:33-37 | files that do not start with the magic number are hashed as they are |
| MachOImage.ImageBytes | internal/codexcert/reproducible.go:28-122 | an image of 220 bytes with all three commands, and its canonical bytes, one by one |
| InPlace.PassIsMask | internal/codexcert/reproducible.go:42-93 | rewriting in place does what reading everything first would, when no step reads what another clears |
| MachONormal.ApartIsOrderly | internal/codexcert/reproducible.go:71-90 | signatures behind the load commands and apart from each other leave every deciding byte unmasked |
| MachONormal.MaskDecided | internal/codexcert/reproducible.go:42-122 | files that agree outside the mask have the same commands and the same mask |
| MachONormal.CanonicalForm | internal/codexcert/reproducible.go:42-122 | an orderly file is refused exactly when a signature is not plain ad-hoc, and comes out as itself with the mask cleared |
| MachONormal.Idempotent | internal/codexcert/reproducible.go:42-122 | canonicalising twice changes nothing more |
| MachONormal.NormalForm | internal/codexcert/reproducible.go:42-122 | two files come out equal exactly when they agree outside the UUID payload, the link-edit size and the code slots |
| MachONormal.DigestsAgree | internal/codexcert/reproducible.go:28-40 | under an injective hash, equal digests mean equal files or Mach-O files that agree outside the mask, and conversely |
| MachOOverlap.NotIdempotent | internal/codexcert/reproducible.go:71-90 | a 116-byte image with its signature inside the load commands is accepted and its canonical form refused |
| JsonMerge.MergeObjects | cmd/atenea/headroom_wrap.go:240-266 | in place, for any order of keys: the destination becomes the join, or a path is reported at which the two really differ; the source is untouched although its subtrees are shared |
| JsonMerge.JsonObject.Put | cmd/atenea/headroom_wrap.go:247-250 | a missing key takes the source's subtree over as it is, and the destination remains a tree |
| JsonMerge.JsonObject.Descend | cmd/atenea/headroom_wrap.go:251-258 | merging under one key leaves every other key as it was |
| Json.LeastUpperBound | cmd/atenea/headroom_wrap.go:199-266 | the merge is the least value that contains both payloads |
| Json.CollisionIffUnbounded | cmd/atenea/headroom_wrap.go:240-266 | a collision means that no value contains both |
| Json.CollisionIffIncompatible | cmd/atenea/headroom_wrap.go:259-263 | it fails exactly when some path holds two values that are neither equal nor both objects |
| Json.JoinCommutes | cmd/atenea/headroom_wrap.go:199-215 | which payload is the destination does not matter, failures included |
| Json.JoinAssociates | cmd/atenea/headroom_wrap.go:240-266 | grouping does not matter, failures included |
| Json.JoinIdempotent | cmd/atenea/headroom_wrap.go:240-266 | merging a payload with itself changes nothing |
| Json.JoinAbsorbs | cmd/atenea/headroom_wrap.go:240-266 | the destination is unchanged exactly when it already contained the source |
| Json.JoinPaths | cmd/atenea/headroom_wrap.go:195-198 | at every path the merge holds what either payload holds there: nothing is lost, nothing is added |
| Markers.EstablishKeeps | internal/codexcert/mcp.go:87-115 | every step of every call, failures and the removal included, keeps the marker with the one that created it |
| Markers.CursorZeroOnce | internal/codexcert/mcp.go:87-115 | in every interleaving at most one cursor-0 call succeeds |
| Markers.CursorOneOnce | internal/codexcert/mcp.go:117-126 | at most one cursor-1 call succeeds |
| Markers.ConsumedOnce | internal/codexcert/certificate.go:306-337 | at most one consumption succeeds, and it leaves the challenge marked as used |
| Markers.AllCanSucceed | internal/codexcert/mcp.go:83-126 | nothing keeps cursor 0, cursor 1 and the consumption from succeeding one after the other |
| Markers.AnotherCanTry | internal/codexcert/mcp.go:90-98 | a cursor-0 call that fails after the exclusive create takes its marker away, and another can then succeed |
| Markers.CursorOneAfterWrite | internal/codexcert/mcp.go:117-126 | cursor 1 is granted only after a marker with this challenge's own line was written in full, by a named call |
| Markers.CursorOneWithoutCursorZero | internal/codexcert/mcp.go:94-115 | a run in which cursor 1 is granted and no cursor-0 call ever succeeds |
| Grants.GrantIff | internal/codexcert/mcp.go:115-126 | at any point of a cursor-1 call, its own steps can lead to the grant exactly when its gate is open: for a waiting call, the file at the path holds its whole line and no reconnect marker exists |
| Grants.GrantPrecedesIff | internal/codexcert/mcp.go:83-126 | a run can go on to grant a waiting call before any cursor-0 success exactly when none has succeeded, no reconnect marker exists, and the writer of the whole line at the path is on its way or has failed and left it |
| Observations.Judge | internal/codexcert/verify.go:31-111 | the counters, sequence numbers and tool id of the scan accept exactly the streams with one notice, then one call, then its last and rendering answer, then the end of the turn |
| Observations.VerdictIsAcceptance | internal/codexcert/verify.go:90-110 | the checks after the scan hold exactly when such an order exists |
| CliTrace.Verify | internal/codexcert/verify.go:31-111 | the same for the decoded events of one challenge, told from the fields of the events alone |
| CliTrace.SoundIsEvidence | internal/codexcert/verify.go:53-110 | accepted are exactly the streams with that order, where each event is recognised by its types, server, tool, five arguments, status, error flag and texts |
| CliExamples.Example | internal/codexcert/verify.go:31-111 | a stream that is accepted, and refused for another nonce |
| CliExamples.OtherProof | internal/codexcert/verify.go:81 | the same stream is refused for a challenge whose proof it does not hold |
| CliTrace.OnlyRelevantCounts | internal/codexcert/verify.go:31-111 | inserting or deleting any other events never changes the verdict, although every later sequence number shifts |
| CliReconnect.Judge | internal/codexcert/verify.go:143-216 | the reconnect scan accepts exactly the streams with one notice, then one call, then its only answer, no quotation of the proof before it, nothing repeated, then the end of the turn |
| CliTraceReconnect.Verify | internal/codexcert/verify.go:143-216 | the same for the decoded events of one challenge; an answer without a call is one with an empty identifier |
| CliTraceReconnect.ResumedIsEvidence | internal/codexcert/verify.go:159-216 | accepted are exactly the streams with the reconnect order, each event recognised by its own fields |
| CliTraceReconnect.OnlyMatteringCounts | internal/codexcert/verify.go:143-216 | events other than turn endings, finished agent messages and tool calls never change that verdict |
| Text.ProgressBarIsFirstRun | internal/codexcert/verify.go:282-300 | the bar read is the first unbroken run of bar characters |
| Certificates.FailureIsFinal | cmd/atenea/codex_certify.go:58-393 | over every run of commands a stored failure is never left |
| Certificates.PassIsEarned | internal/codexcert/certificate.go:172-181 | a stored pass has three passed gates, every profile, a verified cleanup and a consumed challenge |
| Certificates.LawfulRun | cmd/atenea/codex_certify.go:58-393 | a pass can only be canceled, and nothing that start established is ever rewritten |
| Certificates.EffectiveIs | internal/codexcert/certificate.go:151-166 | a failure before expiry, expiry before staleness, and a pass only for the same installation with every gate |
| Certificates.Lifecycle | cmd/atenea/codex_certify.go:58-365 | started, shown to one Desktop process and completed, a certificate passes |
| Certificates.Certifier.Start | cmd/atenea/codex_certify.go:58-189 | succeeds exactly for a lifetime of up to thirty days with every gate passed and everything written; stores pending exactly when identity, CLI and cleanup passed, failed otherwise, under a fresh identifier only, and every field of what it stores |
| Certificates.Certifier.ConsumeChallenge | internal/codexcert/certificate.go:306-337 | succeeds only for a challenge never consumed before, and stores the use |
| Certificates.Certifier.Show | cmd/atenea/codex_certify.go:245-282 | the proof is printed exactly for a pending, unexpired certificate that is ready for Desktop, with the matching nonce, an unused challenge and a process digest, and once |
| Certificates.Certifier.Finish | cmd/atenea/codex_certify.go:300-365 | passes exactly what was pending for this installation, unexpired, with its challenge used and the desktop evidence seen; otherwise stores exactly what it became, or nothing |
| Certificates.Certifier.Cancel | cmd/atenea/codex_certify.go:367-393 | a stored certificate becomes failed, from any state |
| Artifact.ValidReceipts | internal/codexcert/certificate.go:384-413 | accepted exactly when there is one genuine receipt, for the right model and effort, per required role, and nothing else, each field of a receipt named |
| Artifact.NoRoleTwice | internal/codexcert/certificate.go:384-413 | as many receipts as roles, none foreign, none missing: no role occurs twice |
| Artifact.Example | internal/codexcert/identity.go:16-21 | receipts for the four required profiles are accepted, and refused when one is for another model |
| Receipts.Store.Save | internal/checkpoint/checkpoint.go:309-364 | success puts the whole run in place with each text redacted and all else kept; failure leaves the receipt as it was or whole, and at most a temporary file behind; under a proper identifier with nothing failing it succeeds |
| Receipts.SanitizedIs | internal/checkpoint/checkpoint.go:369-385 | the durable copy has each text redacted and everything else as it was |
| Receipts.ValidIDIs | internal/checkpoint/checkpoint.go:257 | an identifier is letters, digits, dots, underscores and hyphens, and at least one |
| Receipts.Store.Load | internal/checkpoint/checkpoint.go:405-445 | returns, whole, the last run that Save put in place under this identifier, or if there is none what the directory held from the start; no text that redaction would not give comes back from a saved one |
| Receipts.Store.Recover | internal/checkpoint/recover.go:36-95 | from any contents: temporary files go, unreadable receipts are set aside, all else stays, and the counts are exact, also when it stops early; it stops only at a failure |
| Receipts.SettledTrusted | internal/checkpoint/recover.go:17-35 | a recovered directory has no temporary file, every receipt reads, those that read before are byte-identical, and the bytes of the others are kept |
| Receipts.UnreadableIs | internal/checkpoint/recover.go:62-95 | set aside are the files ending in `.json` that decode to nothing, or to a run without an identifier |
| Receipts.Store.RecoverTwice | internal/checkpoint/recover.go:27-35 | a second pass reports nothing |
| Receipts.Store.Prune | internal/checkpoint/checkpoint.go:460-492 | exactly the readable, closed receipts older than the cutoff go, but for those that cannot be locked or removed, and they are counted |
| Receipts.DueIs | internal/checkpoint/checkpoint.go:470-486 | exactly the receipts under a proper identifier whose run is closed and was last updated before the cutoff |
| Receipts.Store.PruneIfDue | internal/checkpoint/retention.go:29-65 | nothing happens before the interval has passed since a readable mark; otherwise a pass runs and the mark is replaced, or on a failure at any point is what it was |
| Receipts.PassDueIs | internal/checkpoint/retention.go:46-51 | a pass is due when the mark is missing or cannot be read, or is at least the interval old |
| Receipts.GoneOnlyIfOutlived | internal/checkpoint/checkpoint.go:447-492 | over every run, with stops at any step, a receipt goes only as a closed run older than some pass's cutoff, or unreadable and set aside |
| Receipts.SavedGoesOnlyIfOutlived | internal/checkpoint/checkpoint.go:447-492 | what Save last put in place is never set aside, and an open run never goes |
| Races.RemovedIff | internal/checkpoint/checkpoint.go:470-486 | however calls overlap, the receipt that Prune removes is a closed one older than the cutoff exactly when no run that is not was the last to be saved between its judgement and its removal |
| Races.SetAsideIff | internal/checkpoint/recover.go:63-85 | what Recover sets aside does not read exactly when nothing was saved between its reading and the renaming |
| Races.OpenNeverGoes | internal/checkpoint/checkpoint.go:447-492 | when nothing is saved under a name that has held a closed run, Prune removes only closed runs older than the cutoff, however calls overlap |
| Races.OpenReceiptGoes | internal/checkpoint/checkpoint.go:470-486 | a run in which a save between judgement and lock makes Prune remove an open receipt |
| Races.WholeReceiptSetAside | internal/checkpoint/recover.go:63-85 | a run in which a save between the reading and the renaming has Recover set a whole receipt aside |
| Schemas.Validate | internal/agentdevice/schema_validation.go:13-131 | the interpreter's loops compute the meaning of the schema vocabulary |
| Schemas.AcceptedUnlessRefused | internal/agentdevice/schema_validation.go:13-131 | a value is accepted unless it is refused for one of the reasons of the vocabulary, each told on its own |
| AgentDevice.Advertise | internal/agentdevice/advertised.go:11-78 | the edits of the decoded schema, one by one, give the decorated schema |
| AgentDevice.StrengthenedAccepts | internal/agentdevice/advertised.go:59-75 | a strengthened variant accepts exactly what the variant did and the validator asks of its kind |
| AgentDevice.TargetAccepts | internal/agentdevice/advertised.go:56-76 | strengthening variants of which exactly one must accept admits no new target |
| AgentDevice.AdvertisedIsValidated | internal/agentdevice/advertised.go:11-78 | the offered schema accepts exactly the calls that the validator lets through, wire arguments included |
| AgentDevice.Validate | internal/agentdevice/validation.go:70-185 | the validator's steps refuse nothing that the offered schema accepts, and nothing else gets through |
| AgentDevice.ProperIs | internal/agentdevice/validation.go:88-185 | what gets through is what the pinned schema accepts, with a session, an absolute directory, and a device or a target, each told by its fields |
| AgentDevice.Example | internal/agentdevice/validation.go:166-185 | a call that names its device gets through, and one that does not is refused |
| Clock.StepKeeps | internal/clock/clock.go:127-210 | every step of the ticker, of any caller, of Start and of Stop keeps the lane's bookkeeping |
| Clock.OneAtATime | internal/clock/clock.go:161-191 | no two executions overlap, in any interleaving |
| Clock.RunsAreEnds | internal/clock/clock.go:194-208 | with the lane free, Runs is the number of finished executions |
| Clock.RhythmKept | internal/clock/clock.go:146-173 | a job nobody asks for directly starts no earlier than its rhythm after any of its ends |
| Clock.StaysDue | internal/clock/clock.go:143-165 | only finishing an execution moves a job's next turn: one that is skipped stays due |
| Clock.NextTurn | internal/clock/clock.go:146-210 | once an end is booked the next turn is exactly the rhythm after it, and before the first one it is the start |
| Clock.PassedOver | internal/clock/clock.go:146-173 | a sweep goes past a job only when it is not due at the beat, or has run |
| Clock.FoundDueStarts | internal/clock/clock.go:146-173 | a job found due with the lane free starts |
| Clock.DueJobCanStart | internal/clock/clock.go:127-173 | from an idle ticker with the lane free, the first due job can start by steps of the ticker alone |
| Clock.StoppedMeansQuiet | internal/clock/clock.go:210-231 | when Stop returns, the ticker has ended and no job is running |
| Clock.StopHolds | internal/clock/clock.go:97-231 | after Stop has returned and until the next Start, every execution that begins was asked for by a direct call |
| Jsonc.StripComments | internal/clientconfig/clientconfig.go:368-406 | the loop and its switches compute the token-by-token reference |
| Jsonc.LiteralToken | internal/clientconfig/clientconfig.go:372-380 | a literal goes to the first quote that is not escaped, and stays |
| Jsonc.LineToken | internal/clientconfig/clientconfig.go:381-388 | a line comment goes up to its newline, and vanishes |
| Jsonc.BlockToken | internal/clientconfig/clientconfig.go:389-402 | a block comment goes to the first star and slash behind its opening, and leaves its newlines |
| Jsonc.Example | internal/clientconfig/clientconfig.go:368-406 | a text with both kinds of comment and an escaped quote, and what is left of it |
| Jsonc.StripIdempotent | internal/clientconfig/clientconfig.go:368-406 | stripping twice changes nothing, for any text |
| Jsonc.LinesKept | internal/clientconfig/clientconfig.go:365-367 | every newline survives exactly when the text does not end with a newline inside an unterminated block comment |
| Jsonc.NewlineLost | internal/clientconfig/clientconfig.go:365-367 | a text whose last newline is lost |
| Toml.TomlString | internal/config/config.go:856-894 | writes the escaped body between quotes, or refuses what is not UTF-8 |
| Toml.EscapesAre | internal/config/config.go:868-888 | what stands for each character that is escaped |
| Toml.NothingRaw | internal/config/config.go:881-888 | no control character is written raw |
| Toml.PlainStays | internal/config/config.go:882-890 | a text that needs no escape is written as it is |
| Toml.RoundTrip | internal/config/config.go:845-855 | read back by section "String" of TOML v1.0.0, what is written is the input |

## Left out

- Database files: the copies that internal/backup/database.go makes; the source is taken to hold none.
- Modes, owners, fsync and what a power cut does below a completed call; `RemoveAll` is one atomic step.
- The byte counter of a snapshot, and cancellation through a context other than as a failing call.
- Snapshot names are whole seconds; a name with a fraction, which the parser accepts, is not modelled.
- Where a link leads does not change during a run, and a link into a tree that is not published, inside the snapshot folder, counts as dangling.
- Targets of a restore are unrelated trees; parents made on the way, and a target inside another tree, are not part of the model.
- TreeCopy.TryLink: a linked file keeps the mode of the base, which the model does not carry.
- MachO.CanonicalizeMachO: integers are 64 bits wide in the source; the model's are unbounded, and no sum of 32-bit fields reaches the difference.
- JsonMerge.MergeObjects: decoding and encoding of the payloads are not part of the model; equal encodings are taken to mean equal values.
- CliTrace.Verify: lines are decoded already, a line that is no JSON or too long is not modelled, and a result's text is one of the orders its map may be flattened in.
- VerifyDesktopText: one text is searched for fixed pieces in a fixed order.
- CliReconnect.Judge: the place of a notice or a request is that of the first one, the source keeps the last; with one of each, which acceptance needs, they are the same.
- ServeMCP's other methods and the check of the call's arguments; the marker protocol starts behind them.
- Markers: removal of a challenge's files while calls are under way is not a step.
- Certificates.Certifier.Start: the login, the identity gate and the CLI gate are outcomes, and an identifier drawn at random is taken to be new.
- Certificates: evidence identifiers, reasons and the signature; digests stand for what they are made from.
- Artifact.ValidReceipts: the remaining fields of the artifact are compared one by one and add no relation between them.
- Receipts.Store.Recover: a read that fails for a file that is whole is not modelled; the source would set that file aside.
- Receipts.Store.Prune: calls of this class follow one another; a Save by another process between the judgement of a receipt and its removal is a step of `Races` instead.
- Races: the temporary files, a read that fails for a file that is whole, and the mutex that keeps Save and Recover of one process apart; there every call may be another process's.
- Receipts: the encoding of runs is any pair of functions that invert each other; redaction is any function on texts.
- AgentDevice: the tool `wait`, the fingerprint that recognises a pinned schema, and the help texts. What the pinned schemas must look like is the predicate `AgentDevice.Shaped`.
- Clock.RhythmKept: overlapping calls of Start and Stop, which the source does not promise.
