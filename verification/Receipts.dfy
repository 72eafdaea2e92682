/** The directory of run receipts: saved, recovered and pruned, with a stop possible
    between any two file operations. */
module Receipts {
  import opened Options

  /** The parts of a run the store looks at, and the texts it redacts. */
  datatype Run = Run(id: string, updated: int, closed: bool, texts: seq<string>)

  datatype Entry = Folder | File(content: string)

  type Directory = map<string, Entry>

  /** The text from the last dot on. */
  function Ext(name: string): string
    decreases |name|
  {
    if |name| == 0 then "" else if name[|name| - 1] == '.' then "." else
      var front := Ext(name[..|name| - 1]);
      if front == "" then "" else front + [name[|name| - 1]]
  }

  const JSON := ".json"
  const TMP := ".tmp"
  const TORN := ".torn"
  const MARK := "retention.mark"

  lemma {:induction false} ExtOf(front: string, tail: string)
    requires '.' !in tail
    ensures Ext(front + "." + tail) == "." + tail
    decreases |tail|
  {
    var name := front + "." + tail;
    if |tail| == 0 {
      assert name[|name| - 1] == '.';
    } else {
      var n := |tail| - 1;
      assert name[..|name| - 1] == front + "." + tail[..n];
      ExtOf(front, tail[..n]);
      assert name[|name| - 1] == tail[n] && tail[n] in tail;
      assert "." + tail == "." + tail[..n] + [tail[n]];
    }
  }

  function Named(id: string): string { id + JSON }

  lemma ExtNamed(id: string)
    ensures Ext(Named(id)) == JSON && Ext(id + TMP) == TMP && Ext(id + TORN) == TORN
  {
    ExtOf(id, "json");
    ExtOf(id, "tmp");
    ExtOf(id, "torn");
    assert id + JSON == id + "." + "json" && id + TMP == id + "." + "tmp" && id + TORN == id + "." + "torn";
  }

  lemma SameFront(a: string, b: string, tail: string)
    ensures a + tail == b + tail ==> a == b
  {
    if a + tail == b + tail { assert a == (a + tail)[..|a|] && b == (b + tail)[..|b|]; }
  }

  lemma {:induction false} ExtIsSuffix(name: string)
    ensures |Ext(name)| <= |name| && name[|name| - |Ext(name)|..] == Ext(name)
    decreases |name|
  {
    if |name| > 0 && name[|name| - 1] != '.' {
      var front := name[..|name| - 1];
      ExtIsSuffix(front);
      SuffixNext(front, Ext(front), name[|name| - 1]);
      assert name == front + [name[|name| - 1]];
    }
  }

  lemma SuffixNext(front: string, ext: string, last: char)
    requires |ext| <= |front| && front[|front| - |ext|..] == ext
    ensures (front + [last])[|front| - |ext|..] == ext + [last]
    ensures (front + [last])[|front| + 1..] == ""
  {
  }

  /** No directory stands at the name. */
  predicate Free(d: Directory, name: string) {
    name in d ==> d[name].File?
  }

  /** The receipt files, by name. */
  predicate IsReceipt(d: Directory, name: string) {
    name in d && d[name].File? && Ext(name) == JSON
  }

  predicate IsTemp(d: Directory, name: string) {
    name in d && d[name].File? && Ext(name) == TMP
  }

  predicate IsSafe(c: char) {
    '0' <= c <= '9' || 'a' <= c <= 'z' || 'A' <= c <= 'Z' || c in {'.', '_', '-'}
  }

  predicate ValidID(id: string) {
    |id| > 0 && forall i | 0 <= i < |id| :: IsSafe(id[i])
  }

  /** The directory, the runs handed to Save in their redacted form, the one that was last
      put in place under each name, and the cutoffs of the pruning passes begun. */
  datatype Moment = Moment(files: Directory, saved: set<Run>, placed: map<string, Run>, cutoffs: set<int>)

  /** How runs become text and back, how texts are redacted, how the mark is written. */
  datatype Codec = Codec(encode: Run -> string, decode: string -> Option<Run>, redact: string -> string,
                         stamp: int -> string, unstamp: string -> Option<int>)

  ghost predicate RoundTrips(c: Codec) {
    forall r: Run :: c.decode(c.encode(r)) == Some(r)
  }

  function Sanitized(c: Codec, r: Run): Run {
    r.(texts := seq(|r.texts|, i requires 0 <= i < |r.texts| => c.redact(r.texts[i])))
  }

  /** Each text of the run is one that redaction gives. */
  ghost predicate Clean(c: Codec, r: Run) {
    forall i | 0 <= i < |r.texts| :: IsRedacted(c, r.texts[i])
  }

  ghost predicate IsRedacted(c: Codec, text: string) {
    exists raw :: c.redact(raw) == text
  }

  /** The durable copy: every text redacted, and nothing else changed. */
  lemma SanitizedIs(c: Codec, r: Run)
    ensures var t := Sanitized(c, r);
            && t.id == r.id && t.updated == r.updated && t.closed == r.closed && |t.texts| == |r.texts|
            && (forall i | 0 <= i < |r.texts| :: t.texts[i] == c.redact(r.texts[i]))
            && Clean(c, t)
  {
  }

  /** A file that the loader trusts: it comes back as a run that has an identifier. */
  predicate Reads(c: Codec, content: string) {
    c.decode(content).Some? && c.decode(content).value.id != ""
  }

  /** A receipt that the loader does not trust. */
  predicate Unreadable(c: Codec, d: Directory, name: string) {
    IsReceipt(d, name) && !Reads(c, d[name].content)
  }

  /** A receipt is, whole, the run last put in place under this name, or if there is none
      the file that was there when the store was opened. */
  ghost predicate Genuine(c: Codec, origin: Directory, m: Moment, name: string)
    requires IsReceipt(m.files, name)
  {
    if name in m.placed then SavedAs(c, m.saved, name, m.placed[name], m.files[name].content)
    else name in origin && origin[name] == m.files[name]
  }

  predicate SavedAs(c: Codec, saved: set<Run>, name: string, r: Run, content: string) {
    r in saved && name == Named(r.id) && content == c.encode(r)
  }

  ghost predicate Whole(c: Codec, origin: Directory, m: Moment) {
    && (forall r | r in m.saved :: ValidID(r.id) && Clean(c, r))
    && forall name | IsReceipt(m.files, name) :: Genuine(c, origin, m, name)
  }

  predicate Closed(c: Codec, content: string, cutoff: int) {
    var r := c.decode(content);
    r.Some? && r.value.closed && r.value.updated < cutoff
  }

  /** The run in a receipt was closed, and last updated before some pass's cutoff. */
  ghost predicate Outlived(c: Codec, m: Moment, name: string, cutoffs: set<int>)
    requires IsReceipt(m.files, name)
  {
    exists cutoff | cutoff in cutoffs :: Closed(c, m.files[name].content, cutoff)
  }

  /** It does not read, and its bytes are kept under another name. */
  ghost predicate Torn(c: Codec, m: Moment, name: string, n: Moment)
    requires IsReceipt(m.files, name)
  {
    !Reads(c, m.files[name].content) && name + TORN in n.files && n.files[name + TORN] == m.files[name]
  }

  ghost predicate Lasts(c: Codec, m: Moment, n: Moment) {
    && m.saved <= n.saved && m.cutoffs <= n.cutoffs && m.placed.Keys <= n.placed.Keys
    && forall name | IsReceipt(m.files, name) ::
         IsReceipt(n.files, name) || Outlived(c, m, name, n.cutoffs) || Torn(c, m, name, n)
  }

  ghost predicate History(c: Codec, origin: Directory, past: seq<Moment>) {
    && (forall i | 0 <= i < |past| :: Whole(c, origin, past[i]))
    && (forall i | 0 < i < |past| :: LastsAt(c, past, i))
  }

  ghost predicate LastsAt(c: Codec, past: seq<Moment>, i: nat)
    requires 0 < i < |past|
  {
    Lasts(c, past[i - 1], past[i])
  }

  lemma HistoryNext(c: Codec, origin: Directory, past: seq<Moment>, m: Moment)
    requires |past| > 0 && History(c, origin, past) && Whole(c, origin, m) && Lasts(c, past[|past| - 1], m)
    ensures History(c, origin, past + [m])
  {
    var now := past + [m];
    forall i | 0 < i < |now| ensures LastsAt(c, now, i) {
      if i < |past| { assert LastsAt(c, past, i); }
    }
  }

  /** A receipt that is there at one time and gone at another went, in between, as a
      closed run that had not been updated since some pass's cutoff, or unreadable, with
      its bytes set aside. */
  lemma {:induction false} GoneOnlyIfOutlived(c: Codec, origin: Directory, past: seq<Moment>, i: nat, j: nat,
                                              name: string)
    returns (k: nat)
    requires History(c, origin, past) && i <= j < |past|
    requires IsReceipt(past[i].files, name) && !IsReceipt(past[j].files, name)
    ensures i < k <= j && IsReceipt(past[k - 1].files, name) && !IsReceipt(past[k].files, name)
    ensures Outlived(c, past[k - 1], name, past[k].cutoffs) || Torn(c, past[k - 1], name, past[k])
    decreases j
  {
    if IsReceipt(past[j - 1].files, name) {
      k := j;
      assert LastsAt(c, past, j);
    } else {
      k := GoneOnlyIfOutlived(c, origin, past, i, j - 1, name);
    }
  }

  lemma SavedReads(c: Codec, saved: set<Run>, name: string, r: Run, content: string)
    requires RoundTrips(c) && SavedAs(c, saved, name, r, content) && forall q | q in saved :: ValidID(q.id)
    ensures Reads(c, content) && c.decode(content) == Some(r)
  {
    assert c.decode(c.encode(r)) == Some(r);
  }

  /** What Save has put in place is never set aside, and goes only as an old closed run:
      an open one never goes. */
  lemma SavedGoesOnlyIfOutlived(c: Codec, origin: Directory, past: seq<Moment>, k: nat, name: string)
    requires RoundTrips(c) && History(c, origin, past) && 0 < k < |past|
    requires IsReceipt(past[k - 1].files, name) && !IsReceipt(past[k].files, name)
    requires name in past[k - 1].placed || (name in origin ==> origin[name] != past[k - 1].files[name])
    ensures name in past[k - 1].placed
    ensures var r := past[k - 1].placed[name];
            && r in past[k - 1].saved && Named(r.id) == name && past[k - 1].files[name] == File(c.encode(r))
            && r.closed && exists cutoff | cutoff in past[k].cutoffs :: r.updated < cutoff
  {
    var m := past[k - 1];
    assert Whole(c, origin, m) && Genuine(c, origin, m, name);
    SavedReads(c, m.saved, name, m.placed[name], m.files[name].content);
    assert LastsAt(c, past, k);
  }

  /** Neither a receipt nor a temporary file, by its name. */
  predicate Plain(name: string) { Ext(name) != JSON && Ext(name) != TMP }

  lemma SameBesides(a: Directory, b: Directory, name: string, temp: string)
    requires a - {temp} == b - {temp} && name != temp
    ensures a - {name, temp} == b - {name, temp}
    ensures (name in a <==> name in b) && (name in a ==> a[name] == b[name])
  {
    assert a - {name, temp} == a - {temp} - {name} && b - {name, temp} == b - {temp} - {name};
    assert (name in a <==> name in a - {temp}) && (name in b <==> name in b - {temp});
    if name in a { assert (a - {temp})[name] == (b - {temp})[name]; }
  }

  lemma MarkIsPlain()
    ensures Plain(MARK) && Ext(MARK + TMP) == TMP && MARK + TMP != MARK
  {
    ExtNamed(MARK);
    ExtOf("retention", "mark");
    assert MARK == "retention" + "." + "mark";
  }

  /** What recovery leaves alone. */
  predicate Trusted(c: Codec, d: Directory, name: string) {
    !IsTemp(d, name) && !Unreadable(c, d, name)
  }

  /** The file that some unreadable receipt was renamed to. */
  ghost predicate Aside(c: Codec, was: Directory, name: string, entry: Entry) {
    exists x | x in was :: Unreadable(c, was, x) && name == x + TORN && entry == was[x]
  }

  /** The directory after recovery has been through all names but those in `todo`:
      temporary files are gone, unreadable receipts are under their new names, all else is
      as it was. */
  ghost predicate Settled(c: Codec, was: Directory, now: Directory, todo: set<string>) {
    && todo <= was.Keys
    && (forall name | name in was && !Plain(name) && (name in todo || Trusted(c, was, name)) ::
        name in now && now[name] == was[name])
    && (forall name | name in now && !Plain(name) :: name in was && (name in todo || Trusted(c, was, name)))
    && (forall name | name in was && Unreadable(c, was, name) && name !in todo ::
        name + TORN in now && now[name + TORN] == was[name])
    && (forall name | name in was && Plain(name) :: name in now)
    && (forall name | name in now && Plain(name) ::
        (name in was && now[name] == was[name]) || Aside(c, was, name, now[name]))
  }

  lemma SettledSwept(c: Codec, was: Directory, now: Directory, todo: set<string>, name: string)
    requires Settled(c, was, now, todo) && name in todo && IsTemp(was, name)
    ensures Settled(c, was, now - {name}, todo - {name})
  {
    forall x | x in was && Unreadable(c, was, x) ensures x + TORN != name { ExtNamed(x); }
  }

  /** What renaming an unreadable receipt does to the names that are neither receipts nor
      temporary files, */
  lemma TornPlain(c: Codec, was: Directory, now: Directory, todo: set<string>, name: string, next: Directory, x: string)
    requires Settled(c, was, now, todo) && name in todo && Unreadable(c, was, name)
    requires next == (now - {name})[name + TORN := was[name]] && Plain(x)
    ensures x in next ==> (x in was && next[x] == was[x]) || Aside(c, was, x, next[x])
    ensures x in was ==> x in next
  {
    if x == name + TORN { assert name in was; }
  }

  /** to the others, */
  lemma TornRest(c: Codec, was: Directory, now: Directory, todo: set<string>, name: string, next: Directory, x: string)
    requires Settled(c, was, now, todo) && name in todo && Unreadable(c, was, name)
    requires next == (now - {name})[name + TORN := was[name]] && !Plain(x)
    ensures x in next ==> x in was && (x in todo - {name} || Trusted(c, was, x))
    ensures x in was && (x in todo - {name} || Trusted(c, was, x)) ==> x in next && next[x] == was[x]
  {
    ExtNamed(name);
  }

  /** and to the receipts that were set aside before. */
  lemma TornKept(c: Codec, was: Directory, now: Directory, todo: set<string>, name: string, next: Directory, x: string)
    requires Settled(c, was, now, todo) && name in todo && Unreadable(c, was, name)
    requires next == (now - {name})[name + TORN := was[name]]
    requires x in was && Unreadable(c, was, x) && x !in todo - {name}
    ensures x + TORN in next && next[x + TORN] == was[x]
  {
    ExtNamed(x);
    SameFront(x, name, TORN);
  }

  lemma SettledTorn(c: Codec, was: Directory, now: Directory, todo: set<string>, name: string, next: Directory)
    requires Settled(c, was, now, todo) && name in todo && Unreadable(c, was, name)
    requires next == (now - {name})[name + TORN := was[name]]
    ensures Settled(c, was, next, todo - {name})
  {
    forall x | Plain(x)
      ensures x in next ==> (x in was && next[x] == was[x]) || Aside(c, was, x, next[x])
      ensures x in was ==> x in next
    {
      TornPlain(c, was, now, todo, name, next, x);
    }
    forall x | !Plain(x)
      ensures x in next ==> x in was && (x in todo - {name} || Trusted(c, was, x))
      ensures x in was && (x in todo - {name} || Trusted(c, was, x)) ==> x in next && next[x] == was[x]
    {
      TornRest(c, was, now, todo, name, next, x);
    }
    forall x | x in was && Unreadable(c, was, x) && x !in todo - {name}
      ensures x + TORN in next && next[x + TORN] == was[x]
    {
      TornKept(c, was, now, todo, name, next, x);
    }
  }

  lemma SettledKept(c: Codec, was: Directory, now: Directory, todo: set<string>, name: string)
    requires Settled(c, was, now, todo) && name in todo && Trusted(c, was, name)
    ensures Settled(c, was, now, todo - {name})
  {
  }

  /** What one round of the pass makes of the directory. */
  function Next(c: Codec, now: Directory, name: string): Directory
    requires name in now
  {
    if IsTemp(now, name) then now - {name}
    else if Unreadable(c, now, name) then (now - {name})[name + TORN := now[name]]
    else now
  }

  lemma SettledName(c: Codec, was: Directory, now: Directory, todo: set<string>, name: string)
    requires Settled(c, was, now, todo) && name in todo
    ensures name in now && (IsTemp(now, name) <==> IsTemp(was, name))
        && (Unreadable(c, now, name) <==> Unreadable(c, was, name))
    ensures IsTemp(was, name) || Unreadable(c, was, name) ==> now[name] == was[name]
  {
  }

  /** No directory has the name that an unreadable receipt is to be renamed to. */
  ghost predicate NothingInTheWay(c: Codec, d: Directory) {
    forall name | name in d && Unreadable(c, d, name) :: Free(d, name + TORN)
  }

  lemma SettledClear(c: Codec, was: Directory, now: Directory, todo: set<string>, name: string)
    requires Settled(c, was, now, todo) && name in todo && NothingInTheWay(c, was)
    ensures name in now && (Unreadable(c, now, name) ==> Free(now, name + TORN))
  {
    SettledName(c, was, now, todo, name);
    ExtNamed(name);
  }

  lemma SettledNext(c: Codec, was: Directory, now: Directory, todo: set<string>, name: string)
    requires Settled(c, was, now, todo) && name in todo && name in now
    ensures Settled(c, was, Next(c, now, name), todo - {name})
  {
    SettledName(c, was, now, todo, name);
    if IsTemp(was, name) { SettledSwept(c, was, now, todo, name); }
    else if Unreadable(c, was, name) { SettledTorn(c, was, now, todo, name, Next(c, now, name)); }
    else { SettledKept(c, was, now, todo, name); }
  }

  lemma OneLess(s: set<string>, todo: set<string>, name: string)
    requires name in todo
    ensures |s * todo| == |s * (todo - {name})| + if name in s then 1 else 0
  {
    if name in s { assert s * todo == s * (todo - {name}) + {name}; } else { assert s * todo == s * (todo - {name}); }
  }

  function Temps(d: Directory): set<string> {
    set name | name in d && IsTemp(d, name)
  }

  function Unreadables(c: Codec, d: Directory): set<string> {
    set name | name in d && Unreadable(c, d, name)
  }

  /** A recovered directory: no temporary file is left, every receipt reads, every one
      that read before has the very same bytes, and the bytes of the others are kept. */
  lemma SettledTrusted(c: Codec, was: Directory, now: Directory)
    requires Settled(c, was, now, {})
    ensures Temps(now) == {} && Unreadables(c, now) == {}
    ensures forall name | IsReceipt(was, name) && Reads(c, was[name].content) :: name in now && now[name] == was[name]
    ensures forall name | Unreadable(c, was, name) ::
      name !in now && name + ".torn" in now && now[name + ".torn"] == was[name]
    ensures forall name | name in was && was[name].Folder? && !Plain(name) :: name in now && now[name] == Folder
    ensures forall name | name in now && name !in was :: Aside(c, was, name, now[name])
    ensures forall name | name in was && Plain(name) ::
        name in now && (now[name] == was[name] || Aside(c, was, name, now[name]))
  {
    forall name ensures !IsTemp(now, name) && !Unreadable(c, now, name) {
      if name in now && !Plain(name) { assert Trusted(c, was, name) && name in was && now[name] == was[name]; }
    }
  }

  /** A closed run under a proper identifier, not updated since the cutoff. */
  predicate Prunable(c: Codec, d: Directory, name: string, cutoff: int) {
    && IsReceipt(d, name) && |name| >= |JSON| && ValidID(name[..|name| - |JSON|])
    && Closed(c, d[name].content, cutoff)
  }

  /** The receipts a pass removes, when it can lock and remove all but `busy`. */
  function Due(c: Codec, d: Directory, cutoff: int, busy: set<string>): set<string> {
    set name | name in d && name !in busy && Prunable(c, d, name, cutoff)
  }

  function Receipts(d: Directory): set<string> {
    set name | name in d && IsReceipt(d, name)
  }

  /** A pass is due: there is no mark that can be read, or it is old enough. */
  predicate PassDue(c: Codec, d: Directory, now: int, every: int) {
    var last := ReadMark(c, d);
    last.None? || now - last.value >= every
  }

  /** No directory is in the way of the mark. */
  predicate Stampable(d: Directory) {
    Free(d, MARK) && Free(d, MARK + TMP)
  }

  /** A pass removes receipts, and the mark is none. */
  lemma DueSparesMark(c: Codec, d: Directory, cutoff: int, busy: set<string>)
    ensures ReadMark(c, d - Due(c, d, cutoff, busy)) == ReadMark(c, d)
    ensures Stampable(d) ==> Stampable(d - Due(c, d, cutoff, busy))
  {
    MarkIsPlain();
  }

  /** The mark of the last pass, if it can be read. */
  function ReadMark(c: Codec, d: Directory): Option<int> {
    if MARK in d && d[MARK].File? then c.unstamp(d[MARK].content) else None
  }

  /** All of `gone` but what is still in `todo` has been removed, and counted. */
  ghost predicate Pruning(was: Directory, now: Directory, gone: set<string>, todo: set<string>, removed: int) {
    && gone <= Receipts(was) && todo <= Receipts(was)
    && now == was - (gone - todo) && removed + |gone * todo| == |gone|
  }

  lemma PruningStarts(was: Directory, gone: set<string>)
    requires gone <= Receipts(was)
    ensures Pruning(was, was, gone, Receipts(was), 0)
  {
    var todo := Receipts(was);
    assert gone * todo == gone && gone - todo == {};
    assert was - {} == was;
  }

  lemma PruningNext(was: Directory, now: Directory, gone: set<string>, todo: set<string>, removed: int, name: string)
    requires Pruning(was, now, gone, todo, removed) && name in todo
    ensures IsReceipt(now, name) && now[name] == was[name]
    ensures if name in gone then Pruning(was, now - {name}, gone, todo - {name}, removed + 1)
            else Pruning(was, now, gone, todo - {name}, removed)
  {
    OneLess(gone, todo, name);
    if name in gone { assert now - {name} == was - (gone - (todo - {name})); }
        else { assert gone - todo == gone - (todo - {name}); }
  }

  lemma PruningEnds(was: Directory, now: Directory, gone: set<string>, removed: int)
    requires Pruning(was, now, gone, {}, removed)
    ensures now == was - gone && removed == |gone|
  {
    assert gone - {} == gone && gone * {} == {};
  }

  // The names, spelled out.

  lemma ExtIs(name: string, tail: string)
    requires '.' !in tail
    ensures Ext(name) == "." + tail <==> exists front :: name == front + ("." + tail)
  {
    if Ext(name) == "." + tail {
      ExtIsSuffix(name);
      assert name == name[..|name| - |tail| - 1] + ("." + tail);
    }
    forall front | name == front + ("." + tail) ensures Ext(name) == "." + tail {
      assert name == front + "." + tail;
      ExtOf(front, tail);
    }
  }

  /** A receipt ends in `.json`, a temporary file in `.tmp`. */
  lemma ReceiptIs(d: Directory, name: string)
    ensures IsReceipt(d, name) <==> name in d && d[name].File? && exists id :: name == id + ".json"
    ensures IsTemp(d, name) <==> name in d && d[name].File? && exists front :: name == front + ".tmp"
  {
    ExtIs(name, "json");
    ExtIs(name, "tmp");
    assert "." + "json" == ".json" && "." + "tmp" == ".tmp";
  }

  /** It does not read when it decodes to nothing, or to a run without an identifier. */
  lemma UnreadableIs(c: Codec, d: Directory, name: string)
    ensures Unreadable(c, d, name) <==>
            && name in d && d[name].File? && (exists id :: name == id + ".json")
            && (c.decode(d[name].content).None? || c.decode(d[name].content).value.id == "")
  {
    ReceiptIs(d, name);
  }

  const DIGITS := "0123456789"
  const LOWER := "abcdefghijklmnopqrstuvwxyz"
  const UPPER := "ABCDEFGHIJKLMNOPQRSTUVWXYZ"

  /** Characters in a row. */
  lemma InRow(row: string, c: char)
    requires row != [] && forall i | 0 <= i < |row| :: row[i] as int == row[0] as int + i
    ensures c in row <==> row[0] as int <= c as int < row[0] as int + |row|
  {
    if row[0] as int <= c as int < row[0] as int + |row| { assert row[c as int - row[0] as int] == c; }
  }

  lemma SafeIs(c: char)
    ensures IsSafe(c) <==> c in DIGITS || c in LOWER || c in UPPER || c in "._-"
  {
    InRow(DIGITS, c);
    InRow(LOWER, c);
    InRow(UPPER, c);
    assert c in "._-" <==> c == '.' || c == '_' || c == '-';
  }

  /** An identifier: not empty, letters, digits, dots, underscores and hyphens. */
  lemma ValidIDIs(id: string)
    ensures ValidID(id) <==>
            id != "" && forall c | c in id :: c in DIGITS || c in LOWER || c in UPPER || c in "._-"
  {
    forall c ensures IsSafe(c) <==> c in DIGITS || c in LOWER || c in UPPER || c in "._-" { SafeIs(c); }
  }

  /** What a pass removes: receipts under a proper identifier whose run is closed and was
      last updated before the cutoff, unless busy. */
  lemma DueIs(c: Codec, d: Directory, cutoff: int, busy: set<string>, name: string)
    ensures name in Due(c, d, cutoff, busy) <==>
            && name in d && d[name].File? && name !in busy
            && (exists id :: name == id + ".json" && ValidID(id))
            && var r := c.decode(d[name].content); r.Some? && r.value.closed && r.value.updated < cutoff
  {
    ReceiptIs(d, name);
    if name in Due(c, d, cutoff, busy) {
      ExtIsSuffix(name);
      assert name == name[..|name| - 5] + ".json";
    }
    forall id | name == id + ".json" && ValidID(id) ensures ValidID(name[..|name| - |JSON|]) {
      assert name[..|name| - 5] == id;
    }
  }

  /** A pass is due exactly when the mark is missing, is no file, cannot be read, or is at
      least the interval old. */
  lemma PassDueIs(c: Codec, d: Directory, now: int, every: int)
    ensures PassDue(c, d, now, every) <==>
            || "retention.mark" !in d || d["retention.mark"].Folder?
            || c.unstamp(d["retention.mark"].content).None?
            || c.unstamp(d["retention.mark"].content).value + every <= now
  {
  }

  class Store {
    const codec: Codec
    /** On a faultless machine no call fails that has no reason to. */
    const faultless: bool
    ghost const origin: Directory
    var files: Directory
    ghost var saved: set<Run>
    ghost var placed: map<string, Run>
    ghost var cutoffs: set<int>
    ghost var past: seq<Moment>

    ghost function Now(): Moment
      reads this
    {
      Moment(files, saved, placed, cutoffs)
    }

    ghost predicate Valid()
      reads this
    {
      |past| > 0 && past[|past| - 1] == Now() && RoundTrips(codec) && History(codec, origin, past)
    }

    /** A store over a directory with any contents at all. */
    constructor (codec: Codec, files: Directory, faultless: bool)
      requires RoundTrips(codec)
      ensures Valid() && this.codec == codec && this.faultless == faultless && this.origin == this.files == files
          && saved == {} && placed == map[]
    {
      this.codec, this.faultless, this.origin, this.files, saved, placed, cutoffs := codec, faultless, files, files,
          {}, map[], {};
      past := [Moment(files, {}, map[], {})];
    }

    /** Whether a call fails. */
    method Fails() returns (r: bool)
      ensures faultless ==> !r
    {
      r := *;
      r := r && !faultless;
    }

    /** A file-system step that leaves every receipt alone. */
    ghost method Beside(was: Directory)
      requires |past| > 0 && past[|past| - 1] == Moment(was, saved, placed, cutoffs) && RoundTrips(codec)
          && History(codec, origin, past)
      requires forall name :: IsReceipt(was, name) <==> IsReceipt(files, name)
      requires forall name | IsReceipt(was, name) :: name in files && files[name] == was[name]
      modifies `past
      ensures Valid() && past == old(past) + [Now()]
    {
      assert Whole(codec, origin, past[|past| - 1]);
      forall name | IsReceipt(files, name) ensures Genuine(codec, origin, Now(), name) {
        assert Genuine(codec, origin, past[|past| - 1], name);
      }
      HistoryNext(codec, origin, past, Now());
      past := past + [Now()];
    }

    /** Announces a run before any of it reaches the directory. */
    ghost method Announce(r: Run)
      requires Valid() && ValidID(r.id) && Clean(codec, r)
      modifies `saved, `past
      ensures Valid() && saved == old(saved) + {r} && past == old(past) + [Now()]
    {
      assert Whole(codec, origin, past[|past| - 1]);
      saved := saved + {r};
      forall name | IsReceipt(files, name) ensures Genuine(codec, origin, Now(), name) {
        assert Genuine(codec, origin, past[|past| - 1], name);
      }
      HistoryNext(codec, origin, past, Now());
      past := past + [Now()];
    }

    /** Records that `name` has become the receipt of `r`. */
    ghost method Publish(was: Directory, before: map<string, Run>, name: string, r: Run)
      requires |past| > 0 && past[|past| - 1] == Moment(was, saved, before, cutoffs) && placed == before[name := r]
          && RoundTrips(codec) && History(codec, origin, past)
      requires r in saved && name == Named(r.id) && name in files && files[name] == File(codec.encode(r))
      requires forall other | other != name :: IsReceipt(was, other) <==> IsReceipt(files, other)
      requires forall other | other != name && IsReceipt(was, other) :: other in files && files[other] == was[other]
      modifies `past
      ensures Valid() && past == old(past) + [Now()]
    {
      assert Whole(codec, origin, past[|past| - 1]);
      ExtNamed(r.id);
      forall other | IsReceipt(files, other) ensures Genuine(codec, origin, Now(), other) {
        if other != name { assert Genuine(codec, origin, past[|past| - 1], other); }
      }
      HistoryNext(codec, origin, past, Now());
      past := past + [Now()];
    }

    /** One step on a file that is not a receipt: written, or removed. */
    method Put(name: string, content: string)
      requires Valid() && Ext(name) != JSON
      modifies `files, `past
      ensures Valid() && files == old(files)[name := File(content)] && past == old(past) + [Now()]
    {
      files := files[name := File(content)];
      Beside(old(files));
    }

    method Remove(name: string) returns (ok: bool)
      requires Valid() && Ext(name) != JSON
      modifies `files, `past
      ensures Valid() && old(past) <= past
      ensures files == if ok then old(files) - {name} else old(files)
      ensures faultless ==> ok
    {
      var fails := Fails();
      if fails { return false; }
      files := files - {name};
      Beside(old(files));
      return true;
    }

    /** A file created or emptied, and written in pieces. A failure may leave any part. */
    method WriteFile(name: string, body: string) returns (ok: bool)
      requires Valid() && Ext(name) != JSON
      modifies `files, `past
      ensures Valid() && old(past) <= past
      ensures if ok then files == old(files)[name := File(body)] else files - {name} == old(files) - {name}
      ensures faultless && Free(old(files), name) ==> ok
    {
      if name in files && files[name].Folder? { return false; }
      var fails := Fails();
      if fails { return false; }
      Put(name, "");
      var n :| 0 <= n <= |body|;
      Put(name, body[..n]);
      fails := Fails();
      if fails { return false; }
      Put(name, body);
      return true;
    }

    /** The temporary file: created, written, synced. On failure it is removed, unless that
        fails too. */
    method WriteTemp(temp: string, body: string) returns (ok: bool)
      requires Valid() && Ext(temp) != JSON && temp !in files
      modifies `files, `past
      ensures Valid() && old(past) <= past
      ensures if ok then files == old(files)[temp := File(body)] else files - {temp} == old(files)
      ensures faultless ==> ok
    {
      ok := WriteFile(temp, body);
      if ok {
        var fails := Fails();
        ok := !fails;
      }
      if !ok && temp in files { var _ := Remove(temp); }
    }

    /** The rename that makes the run durable. */
    method Place(temp: string, name: string, r: Run) returns (ok: bool)
      requires Valid() && Ext(temp) != JSON && r in saved && name == Named(r.id)
      requires temp in files && files[temp] == File(codec.encode(r))
      modifies `files, `past, `placed
      ensures Valid() && old(past) <= past
      ensures placed == if ok then old(placed)[name := r] else old(placed)
      ensures files == if ok then (old(files) - {temp})[name := File(codec.encode(r))] else old(files)
      ensures faultless && Free(old(files), name) ==> ok
    {
      ExtNamed(r.id);
      if name in files && files[name].Folder? { return false; }
      var fails := Fails();
      if fails { return false; }
      ghost var was, before := files, placed;
      files := (files - {temp})[name := files[temp]];
      placed := placed[name := r];
      Publish(was, before, name, r);
      return true;
    }

    /** A run that Save was given is in place under its name, and nothing else differs. */
    ghost predicate InPlace(was: Directory, r: Run)
      reads this
    {
      && Named(r.id) in placed && placed[Named(r.id)] == r
      && files == was[Named(r.id) := File(codec.encode(r))]
    }

    /** Save. `suffix` is what CreateTemp comes up with. Any call may fail; the run may be
        in place even though the sync of the directory reports an error. */
    method Save(run: Run, suffix: string) returns (ok: bool)
      requires Valid() && run.id + "." + suffix + TMP !in files
      modifies this
      ensures Valid() && old(past) <= past && cutoffs == old(cutoffs)
      ensures saved == if ValidID(run.id) then old(saved) + {Sanitized(codec, run)} else old(saved)
      ensures ok ==> ValidID(run.id) && InPlace(old(files), Sanitized(codec, run))
      ensures !ok ==>
        || (ValidID(run.id) && InPlace(old(files), Sanitized(codec, run)))
        || (placed == old(placed) && files - {run.id + "." + suffix + TMP} == old(files))
      ensures placed - {Named(run.id)} == old(placed) - {Named(run.id)}
      ensures ok || placed != old(placed) ==> Redacts(run)
      ensures (exists i | 0 <= i < |run.id| :: !IsSafe(run.id[i])) || run.id == "" ==> !ok && files == old(files)
      ensures faultless && ValidID(run.id) && Free(old(files), run.id + ".json") ==> ok
    {
      if !ValidID(run.id) { return false; }
      var r := Sanitized(codec, run);
      SanitizedIs(codec, run);
      ExtNamed(run.id + "." + suffix);
      Announce(r);
      ok := WriteAndPlace(r, run.id + "." + suffix + TMP);
      if ok {
        var fails := Fails();
        ok := !fails;
      }
    }

    /** The receipt of the run holds all of it, every text redacted. */
    ghost predicate Redacts(run: Run)
      reads this
    {
      var name := run.id + ".json";
      && name in placed && name in files && files[name] == File(codec.encode(placed[name]))
      && placed[name].id == run.id && placed[name].updated == run.updated && placed[name].closed == run.closed
      && |placed[name].texts| == |run.texts|
      && forall i | 0 <= i < |run.texts| :: placed[name].texts[i] == codec.redact(run.texts[i])
    }

    /** The two steps of Save: beside the receipt, then in its place. */
    method WriteAndPlace(r: Run, temp: string) returns (ok: bool)
      requires Valid() && r in saved && Ext(temp) == TMP && temp !in files
      modifies `files, `past, `placed
      ensures Valid() && old(past) <= past
      ensures if ok then InPlace(old(files), r) && placed == old(placed)[Named(r.id) := r]
              else placed == old(placed) && files - {temp} == old(files)
      ensures faultless && Free(old(files), Named(r.id)) ==> ok
    {
      ExtNamed(r.id);
      ok := WriteTemp(temp, codec.encode(r));
      if !ok { return; }
      ghost var was := old(files);
      ok := Place(temp, Named(r.id), r);
      if !ok {
        var _ := Remove(temp);
        return;
      }
      assert files == was[Named(r.id) := File(codec.encode(r))];
    }

    /** The rename that takes an unreadable receipt out of the loader's way. */
    method SetAside(name: string) returns (ok: bool)
      requires Valid() && IsReceipt(files, name) && !Reads(codec, files[name].content)
      modifies `files, `past
      ensures Valid() && old(past) <= past
      ensures files == if ok then (old(files) - {name})[name + TORN := old(files)[name]] else old(files)
      ensures faultless && Free(old(files), name + TORN) ==> ok
    {
      if name + TORN in files && files[name + TORN].Folder? { return false; }
      var fails := Fails();
      if fails { return false; }
      ExtNamed(name);
      ghost var was := Now();
      files := (files - {name})[name + TORN := files[name]];
      assert Torn(codec, was, name, Now());
      Leave(was, name);
      return true;
    }

    /** The removal of a receipt that a pass has found old enough. */
    method Delete(name: string, cutoff: int)
      requires Valid() && IsReceipt(files, name) && Closed(codec, files[name].content, cutoff) && cutoff in cutoffs
      modifies `files, `past
      ensures Valid() && old(past) <= past && files == old(files) - {name}
    {
      ghost var was := Now();
      files := files - {name};
      assert Outlived(codec, was, name, cutoffs);
      Leave(was, name);
    }

    /** Records that one receipt is gone, for a reason. */
    ghost method Leave(was: Moment, name: string)
      requires |past| > 0 && past[|past| - 1] == was && RoundTrips(codec) && History(codec, origin, past)
      requires was.saved == saved && was.placed == placed && was.cutoffs == cutoffs && IsReceipt(was.files, name)
          && name !in files
      requires Outlived(codec, was, name, cutoffs) || Torn(codec, was, name, Now())
      requires forall other | other != name :: IsReceipt(was.files, other) <==> IsReceipt(files, other)
      requires forall other | other != name && IsReceipt(was.files, other) ::
          other in files && files[other] == was.files[other]
      modifies `past
      ensures Valid() && past == old(past) + [Now()]
    {
      assert Whole(codec, origin, was);
      forall other | IsReceipt(files, other) ensures Genuine(codec, origin, Now(), other) {
        assert Genuine(codec, origin, was, other);
      }
      HistoryNext(codec, origin, past, Now());
      past := past + [Now()];
    }

    /** One entry of the recovery pass; `counts` tells what was done to it. */
    method RecoverEntry(name: string) returns (ok: bool, swept: bool, torn: bool)
      requires Valid() && name in files
      modifies `files, `past
      ensures Valid() && old(past) <= past
      ensures swept == (ok && IsTemp(old(files), name))
      ensures torn == (ok && Unreadable(codec, old(files), name))
      ensures files == if ok then Next(codec, old(files), name) else old(files)
      ensures faultless && (Unreadable(codec, old(files), name) ==> Free(old(files), name + TORN)) ==> ok
    {
      ok, swept, torn := true, false, false;
      if files[name].Folder? { return; }
      if Ext(name) == TMP {
        ok := Remove(name);
        swept := ok;
      } else if Ext(name) == JSON && !Reads(codec, files[name].content) {
        ok := SetAside(name);
        torn := ok;
      }
    }

    /** Recover. It stops at the first failure; `left` is what it has not been through, and
        the counts are of what it has. */
    method Recover() returns (ok: bool, swept: nat, torn: nat, ghost left: set<string>)
      requires Valid()
      modifies `files, `past
      ensures Valid() && old(past) <= past
      ensures Settled(codec, old(files), files, left) && (ok ==> left == {})
      ensures swept + |Temps(old(files)) * left| == |Temps(old(files))|
      ensures torn + |Unreadables(codec, old(files)) * left| == |Unreadables(codec, old(files))|
      ensures ok ==> swept == |Temps(old(files))| && torn == |Unreadables(codec, old(files))|
      ensures faultless && NothingInTheWay(codec, old(files)) ==> ok
    {
      var todo := files.Keys;
      ghost var was := files;
      swept, torn := 0, 0;
      assert Temps(was) * todo == Temps(was) && Unreadables(codec, was) * todo == Unreadables(codec, was);
      while todo != {}
        invariant Valid() && old(past) <= past && Settled(codec, was, files, todo)
        invariant swept + |Temps(was) * todo| == |Temps(was)|
            && torn + |Unreadables(codec, was) * todo| == |Unreadables(codec, was)|
        decreases todo
      {
        var name :| name in todo;
        ghost var now := files;
        SettledName(codec, was, now, todo, name);
        if NothingInTheWay(codec, was) { SettledClear(codec, was, now, todo, name); }
        var fine, sweeps, tears := RecoverEntry(name);
        if !fine { return false, swept, torn, todo; }
        SettledNext(codec, was, now, todo, name);
        OneLess(Temps(was), todo, name);
        OneLess(Unreadables(codec, was), todo, name);
        if sweeps { swept := swept + 1; }
        if tears { torn := torn + 1; }
        todo := todo - {name};
      }
      assert Temps(was) * {} == {} && Unreadables(codec, was) * {} == {};
      return true, swept, torn, {};
    }

    /** Running it again finds nothing. */
    method RecoverTwice() returns (ok: bool, swept: nat, torn: nat)
      requires Valid()
      modifies `files, `past
      ensures Valid()
      ensures ok ==> swept == 0 && torn == 0
      ensures faultless && NothingInTheWay(codec, old(files)) ==> ok
    {
      ghost var was, left := files, {};
      ok, swept, torn, left := Recover();
      if !ok { return; }
      assert Temps(files) == {} && Unreadables(codec, files) == {} by { SettledTrusted(codec, was, files); }
      assert NothingInTheWay(codec, files) by {
        forall name | IsReceipt(files, name) ensures Reads(codec, files[name].content) {
          assert name !in Unreadables(codec, files);
        }
      }
      ok, swept, torn, left := Recover();
    }

    /** One receipt of a pruning pass: loaded, judged, locked, removed. */
    method PruneOne(name: string, cutoff: int, busy: bool) returns (removed: bool)
      requires Valid() && cutoff in cutoffs && IsReceipt(files, name)
      modifies `files, `past
      ensures Valid() && old(past) <= past
      ensures removed == (Prunable(codec, old(files), name, cutoff) && !busy)
      ensures files == if removed then old(files) - {name} else old(files)
    {
      ExtIsSuffix(name);
      var id := name[..|name| - |JSON|];
      assert Named(id) == name;
      var run := Load(id);
      if run.None? || !run.value.closed || run.value.updated >= cutoff || busy { return false; }
      Delete(name, cutoff);
      return true;
    }

    /** Prune, under the names of `busy` the lock or the removal fails. */
    method Prune(cutoff: int, busy: set<string>) returns (removed: nat)
      requires Valid()
      modifies `files, `past, `cutoffs
      ensures Valid() && old(past) <= past
      ensures files == old(files) - Due(codec, old(files), cutoff, busy)
      ensures removed == |Due(codec, old(files), cutoff, busy)|
    {
      Begin(cutoff);
      ghost var was, gone := files, Due(codec, files, cutoff, busy);
      var todo := Receipts(files);
      removed := 0;
      PruningStarts(was, gone);
      while todo != {}
        invariant Valid() && old(past) <= past && cutoff in cutoffs && Pruning(was, files, gone, todo, removed)
        decreases todo
      {
        var name :| name in todo;
        PruningNext(was, files, gone, todo, removed, name);
        var dropped := PruneOne(name, cutoff, name in busy);
        todo := todo - {name};
        if dropped { removed := removed + 1; }
      }
      PruningEnds(was, files, gone, removed);
    }

    /** Announces the cutoff of a pass. */
    ghost method Begin(cutoff: int)
      requires Valid()
      modifies `cutoffs, `past
      ensures Valid() && cutoffs == old(cutoffs) + {cutoff} && old(past) <= past
    {
      assert Whole(codec, origin, past[|past| - 1]);
      cutoffs := cutoffs + {cutoff};
      forall name | IsReceipt(files, name) ensures Genuine(codec, origin, Now(), name) {
        assert Genuine(codec, origin, past[|past| - 1], name);
      }
      HistoryNext(codec, origin, past, Now());
      past := past + [Now()];
    }

    function LastPass(): Option<int>
      reads this
    {
      ReadMark(codec, files)
    }

    /** Nothing but the mark differs from `d`. */
    ghost predicate SameButMark(d: Directory)
      reads this
    {
      files - {MARK, MARK + TMP} == d - {MARK, MARK + TMP}
    }

    /** A pass: the receipts that are due go, then the mark is replaced. */
    method Pass(now: int, keep: int, busy: set<string>) returns (ok: bool, removed: nat)
      requires Valid()
      modifies `files, `past, `cutoffs
      ensures Valid() && old(past) <= past
      ensures removed == |Due(codec, old(files), now - keep, busy)|
      ensures SameButMark(old(files) - Due(codec, old(files), now - keep, busy))
      ensures LastPass() == if ok then codec.unstamp(codec.stamp(now)) else old(LastPass())
      ensures faultless && old(Stampable(files)) ==> ok
    {
      ghost var was, gone := files, Due(codec, files, now - keep, busy);
      removed := PruneOnly(now - keep, busy, gone);
      ok := StampMark(now);
      assert SameButMark(was - gone);
    }

    /** The first half of a pass, given what is due. */
    method PruneOnly(cutoff: int, busy: set<string>, ghost gone: set<string>) returns (removed: nat)
      requires Valid() && gone == Due(codec, files, cutoff, busy)
      modifies `files, `past, `cutoffs
      ensures Valid() && old(past) <= past
      ensures removed == |gone|
      ensures files == old(files) - gone && LastPass() == old(LastPass())
      ensures old(Stampable(files)) ==> Stampable(files)
    {
      DueSparesMark(codec, files, cutoff, busy);
      removed := Prune(cutoff, busy);
    }

    /** PruneIfDue for a directory that is there; `claimed` tells whether the pass could be
        locked. */
    method PruneIfDue(now: int, keep: int, every: int, claimed: bool, busy: set<string>)
        returns (ok: bool, removed: nat)
      requires Valid()
      modifies `files, `past, `cutoffs
      ensures Valid() && old(past) <= past
      ensures keep <= 0 || every <= 0 || !claimed || !PassDue(codec, old(files), now, every) ==>
        files == old(files) && removed == 0 && ok == !(keep > 0 && every <= 0)
      ensures keep > 0 && every > 0 && claimed && PassDue(codec, old(files), now, every) ==>
        && removed == |Due(codec, old(files), now - keep, busy)|
        && SameButMark(old(files) - Due(codec, old(files), now - keep, busy))
        && LastPass() == (if ok then codec.unstamp(codec.stamp(now)) else old(LastPass()))
        && (faultless && old(Stampable(files)) ==> ok)
    {
      if keep <= 0 { return true, 0; }
      if every <= 0 { return false, 0; }
      if !claimed || !PassDue(codec, files, now, every) { return true, 0; }
      ok, removed := Pass(now, keep, busy);
    }

    /** The mark is replaced by rename; a failure before that leaves at most a temporary
        file, whole or in part, for recovery to sweep. */
    method StampMark(now: int) returns (ok: bool)
      requires Valid()
      modifies `files, `past
      ensures Valid() && old(past) <= past && SameButMark(old(files))
      ensures LastPass() == if ok then codec.unstamp(codec.stamp(now)) else old(LastPass())
      ensures faultless && old(Stampable(files)) ==> ok
    {
      MarkIsPlain();
      var temp := MARK + TMP;
      ghost var was := files;
      ok := WriteFile(temp, codec.stamp(now));
      assert files - {temp} == was - {temp};
      SameBesides(was, files, MARK, temp);
      if !ok { return; }
      ok := RenameMark(temp);
      if !ok {
        var _ := Remove(temp);
        assert files - {temp} == was - {temp};
        SameBesides(was, files, MARK, temp);
      }
    }

    method RenameMark(temp: string) returns (ok: bool)
      requires Valid() && temp in files && files[temp].File? && Ext(temp) == TMP && Plain(MARK) && temp != MARK
      modifies `files, `past
      ensures Valid() && old(past) <= past
      ensures files == if ok then (old(files) - {temp})[MARK := old(files)[temp]] else old(files)
      ensures faultless && Free(old(files), MARK) ==> ok
    {
      if MARK in files && files[MARK].Folder? { return false; }
      var fails := Fails();
      if fails { return false; }
      ghost var was := files;
      files := (files - {temp})[MARK := files[temp]];
      Beside(was);
      return true;
    }

    /** Load. What comes back is, whole, the last run that Save put in place under this
        identifier, or if there is none what the directory held from the start. */
    method Load(id: string) returns (r: Option<Run>)
      requires Valid()
      ensures r == if ValidID(id) && IsReceipt(files, id + ".json") then codec.decode(files[id + ".json"].content)
          else None
      ensures ValidID(id) && IsReceipt(files, Named(id)) && Named(id) in placed ==>
          r == Some(placed[Named(id)]) && r.value in saved && r.value.id == id && Clean(codec, r.value)
      ensures r.Some? && Named(id) !in placed ==> Named(id) in origin && origin[Named(id)] == files[Named(id)]
    {
      if !ValidID(id) { return None; }
      ExtNamed(id);
      if Named(id) !in files || files[Named(id)].Folder? { return None; }
      r := codec.decode(files[Named(id)].content);
      assert Whole(codec, origin, past[|past| - 1]) && Genuine(codec, origin, Now(), Named(id));
      if Named(id) in placed {
        SavedReads(codec, saved, Named(id), placed[Named(id)], files[Named(id)].content);
        SameFront(id, placed[Named(id)].id, JSON);
      }
    }
  }
}
