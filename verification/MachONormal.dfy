/** Why clearing in place yields a normal form: the bytes that decide what is cleared
    are never cleared themselves, provided the signatures lie where they should. */
module MachONormal {
  import opened Options
  import opened InPlace
  import opened MachO

  /** The load commands as the untouched file spells them out. */
  function Commands(s: seq<Byte>, n: nat, offset: nat, limit: nat): Option<seq<Command>>
    requires limit <= |s|
    decreases n
  {
    if n == 0 then Some([])
    else
      var c := ReadCommand(s, offset, limit);
      if c.None? then None
      else
        var rest := Commands(s, n - 1, offset + c.value.size, limit);
        if rest.None? then None else Some([c.value] + rest.value)
  }

  function End(c: Command): nat { c.offset + c.size }

  /** How many bytes of a command are looked at before it is acted upon. */
  function ReadLength(c: Command): nat {
    match c
    case Other(_, _) => 8
    case Uuid(_, _) => 8
    case Segment(_, _, _) => 24
    case Signature(_, _, _, _) => 16
  }

  /** Read back to back from `offset`, each inside the command area. */
  ghost predicate Chained(s: seq<Byte>, cs: seq<Command>, offset: nat, limit: nat) {
    && limit <= |s|
    && (forall k {:trigger At(cs, offset, k)} | 0 <= k < |cs| ::
        ReadCommand(s, At(cs, offset, k), limit) == Some(cs[k]))
  }

  /** Where the `k`-th command starts. */
  function At(cs: seq<Command>, offset: nat, k: nat): nat
    requires k <= |cs|
  {
    if k == 0 then offset else End(cs[k - 1])
  }

  lemma {:induction false} CommandsChained(s: seq<Byte>, n: nat, offset: nat, limit: nat)
    requires limit <= |s| && Commands(s, n, offset, limit).Some?
    ensures |Commands(s, n, offset, limit).value| == n
    ensures Chained(s, Commands(s, n, offset, limit).value, offset, limit)
    decreases n
  {
    if n > 0 {
      var cs, c := Commands(s, n, offset, limit).value, ReadCommand(s, offset, limit).value;
      var rest := Commands(s, n - 1, End(c), limit).value;
      CommandsChained(s, n - 1, End(c), limit);
      forall k | 0 <= k < |cs| ensures ReadCommand(s, At(cs, offset, k), limit) == Some(cs[k]) {
        if k > 0 { assert At(cs, offset, k) == At(rest, End(c), k - 1); }
      }
    }
  }

  lemma ChainedRest(s: seq<Byte>, cs: seq<Command>, offset: nat, limit: nat)
    requires Chained(s, cs, offset, limit) && |cs| > 0
    ensures ReadCommand(s, offset, limit) == Some(cs[0]) && Chained(s, cs[1..], End(cs[0]), limit)
  {
    assert At(cs, offset, 0) == offset;
    var rest := cs[1..];
    forall k | 0 <= k < |rest| ensures ReadCommand(s, At(rest, End(cs[0]), k), limit) == Some(rest[k]) {
      assert At(rest, End(cs[0]), k) == At(cs, offset, k + 1);
    }
  }

  lemma {:induction false} ChainedCommands(s: seq<Byte>, cs: seq<Command>, offset: nat, limit: nat)
    requires Chained(s, cs, offset, limit)
    ensures Commands(s, |cs|, offset, limit) == Some(cs)
    decreases |cs|
  {
    if |cs| > 0 {
      ChainedRest(s, cs, offset, limit);
      ChainedCommands(s, cs[1..], End(cs[0]), limit);
      assert cs == [cs[0]] + cs[1..];
    }
  }

  /** Commands lie one after the other. */
  ghost predicate Spread(cs: seq<Command>, offset: nat, limit: nat, length: nat) {
    && (forall k | 0 <= k < |cs| :: offset <= cs[k].offset && End(cs[k]) <= limit && Fits(cs[k], length))
    && (forall k, l | 0 <= k < l < |cs| :: End(cs[k]) <= cs[l].offset)
  }

  /** Each command starts where the one before it ends. */
  ghost predicate BackToBack(cs: seq<Command>, offset: nat) {
    forall k {:trigger At(cs, offset, k)} | 0 <= k < |cs| :: cs[k].offset == At(cs, offset, k)
  }

  lemma ChainedAt(s: seq<Byte>, cs: seq<Command>, offset: nat, limit: nat, k: nat)
    requires Chained(s, cs, offset, limit) && k < |cs|
    ensures cs[k].offset == At(cs, offset, k) && End(cs[k]) <= limit && Fits(cs[k], |s|)
  {
    assert ReadCommand(s, At(cs, offset, k), limit) == Some(cs[k]);
  }

  lemma {:induction false} Later(cs: seq<Command>, offset: nat, k: nat, l: nat)
    requires BackToBack(cs, offset) && k <= l <= |cs|
    ensures At(cs, offset, k) <= At(cs, offset, l)
    decreases l
  {
    if k < l { Later(cs, offset, k, l - 1); }
  }

  lemma ChainedSpread(s: seq<Byte>, cs: seq<Command>, offset: nat, limit: nat)
    requires Chained(s, cs, offset, limit)
    ensures Spread(cs, offset, limit, |s|)
  {
    forall k | 0 <= k < |cs| ensures cs[k].offset == At(cs, offset, k) && End(cs[k]) <= limit && Fits(cs[k], |s|) {
      ChainedAt(s, cs, offset, limit, k);
    }
    BackToBackSpread(cs, offset, limit, |s|);
  }

  lemma BackToBackSpread(cs: seq<Command>, offset: nat, limit: nat, length: nat)
    requires BackToBack(cs, offset)
    requires forall k | 0 <= k < |cs| :: End(cs[k]) <= limit && Fits(cs[k], length)
    ensures Spread(cs, offset, limit, length)
  {
    forall k | 0 <= k < |cs| ensures offset <= cs[k].offset { Later(cs, offset, 0, k); }
    forall k, l | 0 <= k < l < |cs| ensures End(cs[k]) <= cs[l].offset { Later(cs, offset, k + 1, l); }
  }

  /** What each command of `s` clears. */
  ghost function RangesOf(s: seq<Byte>, cs: seq<Command>): Ranges
    requires forall k | 0 <= k < |cs| :: Fits(cs[k], |s|)
  {
    seq(|cs|, k requires 0 <= k < |cs| => Range(s, cs[k]))
  }

  /** Every signature lies after the load commands and no two of them overlap. */
  ghost predicate Apart(cs: seq<Command>, limit: nat) {
    && (forall k | 0 <= k < |cs| && cs[k].Signature? :: limit <= cs[k].start)
    && (forall k, l | 0 <= k < l < |cs| && cs[k].Signature? && cs[l].Signature? ::
          cs[k].end <= cs[l].start || cs[l].end <= cs[k].start)
  }

  ghost predicate SameOn(s: seq<Byte>, t: seq<Byte>, lo: nat, hi: nat)
    requires |s| == |t| && hi <= |s|
  {
    forall i | lo <= i < hi :: s[i] == t[i]
  }

  lemma {:induction false} LittleEndianSame(s: seq<Byte>, t: seq<Byte>, i: nat, k: nat)
    requires |s| == |t| && i + k <= |s| && SameOn(s, t, i, i + k)
    ensures LittleEndian(s, i, k) == LittleEndian(t, i, k)
    decreases k
  {
    if k > 0 { LittleEndianSame(s, t, i + 1, k - 1); }
  }

  lemma {:induction false} BigEndianSame(s: seq<Byte>, t: seq<Byte>, i: nat, k: nat)
    requires |s| == |t| && i + k <= |s| && SameOn(s, t, i, i + k)
    ensures BigEndian(s, i, k) == BigEndian(t, i, k)
    decreases k
  {
    if k > 0 { BigEndianSame(s, t, i, k - 1); }
  }

  /** A command is decided by the bytes it looks at. */
  lemma ReadCommandSame(s: seq<Byte>, t: seq<Byte>, offset: nat, limit: nat, c: Command)
    requires |s| == |t| && limit <= |s| && ReadCommand(s, offset, limit) == Some(c)
    requires SameOn(s, t, offset, offset + ReadLength(c))
    ensures ReadCommand(t, offset, limit) == Some(c)
  {
    LittleEndianSame(s, t, offset, 4);
    LittleEndianSame(s, t, offset + 4, 4);
    match c
    case Segment(_, _, _) => SliceSame(s, t, offset + 8, offset + 24);
    case Signature(_, _, _, _) => LittleEndianSame(s, t, offset + 8, 4); LittleEndianSame(s, t, offset + 12, 4);
    case Uuid(_, _) =>
    case Other(_, _) =>
  }

  lemma SliceSame(s: seq<Byte>, t: seq<Byte>, lo: nat, hi: nat)
    requires |s| == |t| && lo <= hi <= |s| && SameOn(s, t, lo, hi)
    ensures s[lo..hi] == t[lo..hi]
  {
  }

  /** The bytes a signature's verdict depends on. */
  ghost predicate SignatureSame(g: seq<Byte>, h: seq<Byte>) {
    && |g| == |h|
    && (|g| >= 20 ==> SameOn(g, h, 0, 20))
    && (|g| >= 20 && 20 <= Big(g, 16) && Big(g, 16) + 40 <= |g| ==> SameOn(g, h, Big(g, 16), Big(g, 16) + 40))
  }

  lemma ReadSlotsSame(g: seq<Byte>, h: seq<Byte>)
    requires SignatureSame(g, h)
    ensures ReadSlots(g) == ReadSlots(h)
  {
    if |g| >= 20 {
      BigEndianSame(g, h, 0, 4);
      BigEndianSame(g, h, 4, 4);
      BigEndianSame(g, h, 8, 4);
      BigEndianSame(g, h, 12, 4);
      BigEndianSame(g, h, 16, 4);
      var o := Big(g, 16);
      if 20 <= o && o + 40 <= |g| {
        BigEndianSame(g, h, o, 4);
        DirectorySame(g, h, o);
      }
    }
  }

  lemma DirectorySame(g: seq<Byte>, h: seq<Byte>, o: nat)
    requires |g| == |h| && o + 40 <= |g| && SameOn(g, h, o, o + 40)
    ensures ReadDirectory(g, o) == ReadDirectory(h, o)
  {
    BigEndianSame(g, h, o + 4, 4);
    BigEndianSame(g, h, o + 12, 4);
    BigEndianSame(g, h, o + 16, 4);
    BigEndianSame(g, h, o + 24, 4);
    BigEndianSame(g, h, o + 28, 4);
  }

  /** Where a command clears: inside itself past the bytes it was read from, or, for a
      signature, inside its range past the header of its directory. */
  lemma ClearedWhere(s: seq<Byte>, c: Command, i: int)
    requires Fits(c, |s|)
    ensures Covers(Range(s, c), i) ==>
              if c.Signature? then
                var g := s[c.start..c.end];
                |g| >= 20 && 20 <= Big(g, 16) && c.start + Big(g, 16) + 40 <= i < c.end
              else c.offset + ReadLength(c) <= i < End(c)
  {
  }

  /** A byte of the file from which command `c` is read, or on which the verdict about
      its signature depends. */
  ghost predicate DecidedBy(s: seq<Byte>, c: Command, i: int)
    requires Fits(c, |s|)
  {
    c.offset <= i < c.offset + ReadLength(c) || (c.Signature? && InVerdict(s[c.start..c.end], i - c.start))
  }

  /** The container's header, and the header of the directory it points to. */
  ghost predicate InVerdict(g: seq<Byte>, i: int) {
    && |g| >= 20
    && (0 <= i < 20 || (20 <= Big(g, 16) && Big(g, 16) + 40 <= |g| && Big(g, 16) <= i < Big(g, 16) + 40))
  }

  /** The mask misses every byte that decides it. */
  ghost predicate Misses(s: seq<Byte>, cs: seq<Command>)
    requires forall k | 0 <= k < |cs| :: Fits(cs[k], |s|)
  {
    forall k, i | 0 <= k < |cs| && DecidedBy(s, cs[k], i) :: !Masked(RangesOf(s, cs), i)
  }

  /** The commands of `s`, laid out so that clearing cannot change how they read. */
  ghost predicate Sound(s: seq<Byte>, cs: seq<Command>, offset: nat, limit: nat) {
    Chained(s, cs, offset, limit) && Spread(cs, offset, limit, |s|) && Misses(s, cs)
  }

  lemma MissesOne(s: seq<Byte>, cs: seq<Command>, limit: nat, offset: nat, k: nat, l: nat, i: int)
    requires Spread(cs, offset, limit, |s|) && Apart(cs, limit) && k < |cs| && l < |cs| && DecidedBy(s, cs[k], i)
    ensures !Covers(Range(s, cs[l]), i)
  {
    ClearedWhere(s, cs[l], i);
  }

  lemma ApartMisses(s: seq<Byte>, cs: seq<Command>, offset: nat, limit: nat)
    requires Spread(cs, offset, limit, |s|) && Apart(cs, limit)
    ensures Misses(s, cs)
  {
    forall k, i | 0 <= k < |cs| && DecidedBy(s, cs[k], i) ensures !Masked(RangesOf(s, cs), i) {
      forall l | 0 <= l < |cs| ensures !Covers(RangesOf(s, cs)[l], i) { MissesOne(s, cs, limit, offset, k, l, i); }
    }
  }

  lemma SignatureKept(s: seq<Byte>, t: seq<Byte>, cs: seq<Command>, offset: nat, limit: nat, k: nat)
    requires Sound(s, cs, offset, limit) && k < |cs| && cs[k].Signature?
    requires SameUnmasked(s, t, RangesOf(s, cs))
    ensures SignatureSame(s[cs[k].start..cs[k].end], t[cs[k].start..cs[k].end])
  {
    var c := cs[k];
    var g, h := s[c.start..c.end], t[c.start..c.end];
    forall i | 0 <= i < |g| && InVerdict(g, i) ensures g[i] == h[i] {
      assert DecidedBy(s, c, c.start + i);
      assert s[c.start + i] == t[c.start + i];
    }
  }

  lemma RangeKept(s: seq<Byte>, t: seq<Byte>, c: Command)
    requires |s| == |t| && Fits(c, |s|)
    requires c.Signature? ==> SignatureSame(s[c.start..c.end], t[c.start..c.end])
    ensures Range(t, c) == Range(s, c)
  {
    if c.Signature? { ReadSlotsSame(s[c.start..c.end], t[c.start..c.end]); }
    SlotsDecide(s, t, c);
  }

  lemma SlotsDecide(s: seq<Byte>, t: seq<Byte>, c: Command)
    requires |s| == |t| && Fits(c, |s|)
    requires c.Signature? ==> ReadSlots(s[c.start..c.end]) == ReadSlots(t[c.start..c.end])
    ensures Range(t, c) == Range(s, c)
  {
  }

  lemma RangeSame(s: seq<Byte>, t: seq<Byte>, cs: seq<Command>, offset: nat, limit: nat, k: nat)
    requires Sound(s, cs, offset, limit) && k < |cs|
    requires SameUnmasked(s, t, RangesOf(s, cs))
    ensures Fits(cs[k], |t|) && Range(t, cs[k]) == RangesOf(s, cs)[k]
  {
    if cs[k].Signature? { SignatureKept(s, t, cs, offset, limit, k); }
    RangeKept(s, t, cs[k]);
  }

  lemma CommandSame(s: seq<Byte>, t: seq<Byte>, cs: seq<Command>, offset: nat, limit: nat, k: nat)
    requires Sound(s, cs, offset, limit) && k < |cs|
    requires SameUnmasked(s, t, RangesOf(s, cs))
    ensures cs[k].offset == At(cs, offset, k) && ReadCommand(t, cs[k].offset, limit) == Some(cs[k])
  {
    ChainedAt(s, cs, offset, limit, k);
    forall i | cs[k].offset <= i < cs[k].offset + ReadLength(cs[k]) ensures s[i] == t[i] {
      assert DecidedBy(s, cs[k], i);
    }
    ReadCommandSame(s, t, cs[k].offset, limit, cs[k]);
  }

  /** Any file that differs only under the mask has the same commands and clears the
      same bytes. */
  lemma LayoutSame(s: seq<Byte>, t: seq<Byte>, cs: seq<Command>, offset: nat, limit: nat)
    requires Sound(s, cs, offset, limit) && SameUnmasked(s, t, RangesOf(s, cs))
    ensures Chained(t, cs, offset, limit) && RangesOf(t, cs) == RangesOf(s, cs)
  {
    forall k | 0 <= k < |cs| ensures ReadCommand(t, At(cs, offset, k), limit) == Some(cs[k]) {
      CommandSame(s, t, cs, offset, limit, k);
    }
    forall k | 0 <= k < |cs| ensures Range(t, cs[k]) == RangesOf(s, cs)[k] { RangeSame(s, t, cs, offset, limit, k); }
  }

  /** The deciding bytes are decided by themselves. */
  lemma MissesSame(s: seq<Byte>, t: seq<Byte>, cs: seq<Command>, offset: nat, limit: nat)
    requires Sound(s, cs, offset, limit) && SameUnmasked(s, t, RangesOf(s, cs)) && RangesOf(t, cs) == RangesOf(s, cs)
    ensures Misses(t, cs)
  {
    forall k, i | 0 <= k < |cs| && DecidedBy(t, cs[k], i) ensures !Masked(RangesOf(t, cs), i) {
      if cs[k].Signature? {
        SignatureKept(s, t, cs, offset, limit, k);
        InVerdictSame(s[cs[k].start..cs[k].end], t[cs[k].start..cs[k].end], i - cs[k].start);
      }
      assert DecidedBy(s, cs[k], i);
    }
  }

  lemma InVerdictSame(g: seq<Byte>, h: seq<Byte>, i: int)
    requires SignatureSame(g, h)
    ensures InVerdict(h, i) <==> InVerdict(g, i)
  {
    if |g| >= 20 { BigEndianSame(g, h, 16, 4); }
  }

  function Offsets(cs: seq<Command>, offset: nat): seq<nat> {
    seq(|cs| + 1, k requires 0 <= k <= |cs| => At(cs, offset, k))
  }

  lemma RangesInBounds(s: seq<Byte>, cs: seq<Command>, offset: nat, limit: nat)
    requires Sound(s, cs, offset, limit)
    ensures InBounds(RangesOf(s, cs), |s|)
  {
  }

  lemma StepReads(t: seq<Byte>, limit: nat, c: Command, range: Option<(nat, nat)>)
    requires limit <= |t| && ReadCommand(t, c.offset, limit) == Some(c) && Fits(c, |t|) && Range(t, c) == range
    ensures range.Some? ==> range.value.0 <= range.value.1 <= |t|
    ensures Steps(limit)(t, c.offset) == Cleared(t, range, c.size)
  {
  }

  lemma StepSame(s: seq<Byte>, t: seq<Byte>, cs: seq<Command>, offset: nat, limit: nat, k: nat)
    requires Sound(s, cs, offset, limit) && k < |cs| && SameUnmasked(s, t, RangesOf(s, cs))
    ensures var range := RangesOf(s, cs)[k];
            && (range.Some? ==> range.value.0 <= range.value.1 <= |t|)
            && Steps(limit)(t, At(cs, offset, k)) == Cleared(t, range, cs[k].size)
  {
    CommandSame(s, t, cs, offset, limit, k);
    RangeSame(s, t, cs, offset, limit, k);
    StepReads(t, limit, cs[k], RangesOf(s, cs)[k]);
  }

  lemma OffsetsAt(s: seq<Byte>, cs: seq<Command>, offset: nat, limit: nat, k: nat)
    requires Chained(s, cs, offset, limit) && k < |cs|
    ensures Offsets(cs, offset)[k] == At(cs, offset, k) && Offsets(cs, offset)[k + 1] == At(cs, offset, k) + cs[k].size
  {
    ChainedAt(s, cs, offset, limit, k);
  }

  lemma StepIs(step: (seq<Byte>, nat) -> Option<Stepped>, t: seq<Byte>, at: seq<nat>, ranges: Ranges, k: nat,
               here: nat, size: nat)
    requires |at| == |ranges| + 1 && k < |ranges| && InBounds(ranges, |t|)
    requires at[k] == here && at[k + 1] == here + size && step(t, here) == Cleared(t, ranges[k], size)
    ensures StepAs(step, t, at, ranges, k)
  {
  }

  lemma StepStable(s: seq<Byte>, t: seq<Byte>, cs: seq<Command>, offset: nat, limit: nat, k: nat)
    requires Sound(s, cs, offset, limit) && k < |cs| && SameUnmasked(s, t, RangesOf(s, cs))
    requires InBounds(RangesOf(s, cs), |s|)
    ensures StepAs(Steps(limit), t, Offsets(cs, offset), RangesOf(s, cs), k)
  {
    StepSame(s, t, cs, offset, limit, k);
    OffsetsAt(s, cs, offset, limit, k);
    StepIs(Steps(limit), t, Offsets(cs, offset), RangesOf(s, cs), k, At(cs, offset, k), cs[k].size);
  }

  lemma PassStable(s: seq<Byte>, cs: seq<Command>, offset: nat, limit: nat)
    requires Sound(s, cs, offset, limit)
    ensures Stable(Steps(limit), s, Offsets(cs, offset), RangesOf(s, cs))
  {
    RangesInBounds(s, cs, offset, limit);
    forall k, t | 0 <= k < |cs| && SameUnmasked(s, t, RangesOf(s, cs))
      ensures StepAs(Steps(limit), t, Offsets(cs, offset), RangesOf(s, cs), k)
    {
      StepStable(s, t, cs, offset, limit, k);
    }
  }

  /** The command list of a whole file; `None` when the header does not hold up. */
  function Layout(s: seq<Byte>): Option<seq<Command>> {
    if |s| < HEADER_LEN || Limit(s) > |s| then None
    else Commands(s, Little(s, 16), HEADER_LEN, Limit(s))
  }

  lemma LayoutSpread(s: seq<Byte>)
    requires Layout(s).Some?
    ensures var cs := Layout(s).value;
            |cs| == Little(s, 16) && Chained(s, cs, HEADER_LEN, Limit(s)) && Spread(cs, HEADER_LEN, Limit(s), |s|)
  {
    CommandsChained(s, Little(s, 16), HEADER_LEN, Limit(s));
    ChainedSpread(s, Layout(s).value, HEADER_LEN, Limit(s));
  }

  /** The positions the canonical form of `s` clears. */
  ghost function MaskOf(s: seq<Byte>): Ranges
    requires Layout(s).Some?
  {
    LayoutSpread(s);
    RangesOf(s, Layout(s).value)
  }

  /** The load commands can be read, and the mask misses every byte that decides it: the
      magic, the number and the length of the commands, and what each command reads. */
  ghost predicate Orderly(s: seq<Byte>) {
    && Layout(s).Some?
    && Misses(s, Decided(s))
    && forall i | 0 <= i < 4 || 16 <= i < 24 :: !Masked(MaskOf(s), i)
  }

  /** The commands, each of which fits the file. */
  ghost function Decided(s: seq<Byte>): (cs: seq<Command>)
    requires Layout(s).Some?
    ensures cs == Layout(s).value && forall k | 0 <= k < |cs| :: Fits(cs[k], |s|)
  {
    LayoutSpread(s);
    Layout(s).value
  }

  /** In particular when every signature lies after the load commands and no two
      signatures overlap. */
  lemma ApartIsOrderly(s: seq<Byte>)
    requires Layout(s).Some? && Apart(Layout(s).value, Limit(s))
    ensures Orderly(s)
  {
    LayoutSpread(s);
    var cs := Layout(s).value;
    ApartMisses(s, cs, HEADER_LEN, Limit(s));
    forall i | 0 <= i < HEADER_LEN ensures !Masked(MaskOf(s), i) {
      forall l | 0 <= l < |cs| ensures !Covers(MaskOf(s)[l], i) { ClearedWhere(s, cs[l], i); }
    }
  }

  /** The canonical form of an orderly file is the file with its mask cleared; it is
      refused exactly when one of its signatures is not a plain ad-hoc one. */
  lemma CanonicalForm(s: seq<Byte>)
    requires Orderly(s)
    ensures Pass(s).Some? <==> AllGood(MaskOf(s), 0)
    ensures Pass(s).Some? ==>
      |Pass(s).value| == |s| && forall i | 0 <= i < |s| :: Pass(s).value[i] == if Masked(MaskOf(s), i) then 0 else s[i]
  {
    LayoutSpread(s);
    var cs := Layout(s).value;
    PassStable(s, cs, HEADER_LEN, Limit(s));
    assert Offsets(cs, HEADER_LEN)[0] == HEADER_LEN;
    PassIsMask(Steps(Limit(s)), s, Offsets(cs, HEADER_LEN), RangesOf(s, cs));
  }

  /** The mask never touches the bytes that decide it: a file that differs only under
      the mask of `s` has the same layout and the same mask. */
  lemma MaskDecided(s: seq<Byte>, t: seq<Byte>)
    requires Orderly(s) && SameUnmasked(s, t, MaskOf(s))
    ensures Orderly(t) && Layout(t) == Layout(s) && MaskOf(t) == MaskOf(s)
  {
    LayoutSpread(s);
    var cs, limit := Layout(s).value, Limit(s);
    LittleEndianSame(s, t, 16, 4);
    LittleEndianSame(s, t, 20, 4);
    LayoutSame(s, t, cs, HEADER_LEN, limit);
    ChainedCommands(t, cs, HEADER_LEN, limit);
    MissesSame(s, t, cs, HEADER_LEN, limit);
  }

  /** Canonicalising twice changes nothing more. */
  lemma Idempotent(s: seq<Byte>)
    requires Orderly(s) && Pass(s).Some?
    ensures Orderly(Pass(s).value) && Pass(Pass(s).value) == Pass(s)
  {
    CanonicalForm(s);
    var t := Pass(s).value;
    MaskDecided(s, t);
    CanonicalForm(t);
    assert Pass(t).value == t;
  }

  /** The normal form: two files come out equal exactly when they agree everywhere
      outside the mask. Agreement there is enough for the second file to be accepted. */
  lemma NormalForm(s: seq<Byte>, t: seq<Byte>)
    requires Orderly(s) && Pass(s).Some? && (Pass(t).Some? ==> Orderly(t))
    ensures Pass(t) == Pass(s) <==> SameUnmasked(s, t, MaskOf(s))
  {
    CanonicalForm(s);
    if SameUnmasked(s, t, MaskOf(s)) {
      MaskDecided(s, t);
      CanonicalForm(t);
      assert Pass(t).value == Pass(s).value;
    } else if Pass(t) == Pass(s) {
      CanonicalForm(t);
      var u := Pass(s).value;
      MaskDecided(s, u);
      MaskDecided(t, u);
    }
  }

  /** What is hashed: only files with the Mach-O magic are canonicalised. */
  function Hashed(s: seq<Byte>): Option<seq<Byte>> {
    if |s| >= 4 && Little(s, 0) == MAGIC then Pass(s) else Some(s)
  }

  /** With an injective hash, two files get the same digest exactly when they are the
      same, or are Mach-O files that agree outside the mask. */
  lemma DigestsAgree(s: seq<Byte>, t: seq<Byte>)
    requires Hashed(s).Some? && Hashed(t).Some?
    requires Pass(s).Some? ==> Orderly(s)
    requires Pass(t).Some? ==> Orderly(t)
    ensures Hashed(s) == Hashed(t) <==>
            s == t || (|s| >= 4 && Little(s, 0) == MAGIC && Pass(s).Some? && SameUnmasked(s, t, MaskOf(s)))
  {
    MagicKept(s);
    MagicKept(t);
    if |s| >= 4 && Little(s, 0) == MAGIC {
      NormalForm(s, t);
      if SameUnmasked(s, t, MaskOf(s)) {
        MaskDecided(s, t);
        CanonicalForm(t);
        MagicOutside(s, t);
      }
    }
  }

  lemma MagicOutside(s: seq<Byte>, t: seq<Byte>)
    requires Orderly(s) && SameUnmasked(s, t, MaskOf(s))
    ensures |t| >= 4 && Little(t, 0) == Little(s, 0)
  {
    forall i | 0 <= i < 4 ensures s[i] == t[i] { assert !Masked(MaskOf(s), i); }
    LittleEndianSame(s, t, 0, 4);
  }

  lemma MagicKept(s: seq<Byte>)
    requires Pass(s).Some? ==> Orderly(s)
    ensures Pass(s).Some? ==> |Pass(s).value| >= 4 && Little(Pass(s).value, 0) == Little(s, 0)
  {
    if Pass(s).Some? {
      CanonicalForm(s);
      MagicOutside(s, Pass(s).value);
    }
  }
}
