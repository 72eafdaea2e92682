/** What is cleared and what is refused, byte by byte and without the reader's own
    functions: the fields are given by their positions in the file. */
module MachOBytes {
  import opened Options
  import opened InPlace
  import opened MachO
  import opened MachONormal

  /** The four bytes at `o`, least significant first; zero beyond the end. */
  function Word(s: seq<Byte>, o: nat): nat {
    if o + 4 > |s| then 0
    else s[o] as int + 0x100 * s[o + 1] as int + 0x1_0000 * s[o + 2] as int + 0x100_0000 * s[o + 3] as int
  }

  /** The four bytes at `o`, most significant first. */
  function BigWord(s: seq<Byte>, o: nat): nat {
    if o + 4 > |s| then 0
    else 0x100_0000 * s[o] as int + 0x1_0000 * s[o + 1] as int + 0x100 * s[o + 2] as int + s[o + 3] as int
  }

  lemma LittleIs(s: seq<Byte>, o: nat)
    requires o + 4 <= |s|
    ensures Little(s, o) == Word(s, o)
  {
    assert LittleEndian(s, o + 2, 2) == s[o + 2] as int + 0x100 * s[o + 3] as int;
  }

  lemma BigIs(s: seq<Byte>, o: nat)
    requires o + 4 <= |s|
    ensures Big(s, o) == BigWord(s, o)
  {
    assert BigEndian(s, o, 2) == 0x100 * s[o] as int + s[o + 1] as int;
  }

  /** The name, padded with zeros to the 16 bytes of its field. */
  const LINKEDIT_FIELD: seq<Byte> :=
    ['_' as int, '_' as int, 'L' as int, 'I' as int, 'N' as int, 'K' as int, 'E' as int, 'D' as int, 'I' as int,
     'T' as int, 0, 0, 0, 0, 0, 0]

  predicate IsLinkEdit(s: seq<Byte>, o: nat) {
    o + 16 <= |s| && s[o..o + 16] == LINKEDIT_FIELD
  }

  lemma {:induction false} TrimIs(b: seq<Byte>, name: seq<Byte>)
    requires name != [] && name[|name| - 1] != 0
    ensures MachO.TrimRight(b) == name <==>
            |name| <= |b| && b[..|name|] == name && forall i | |name| <= i < |b| :: b[i] == 0
    decreases |b|
  {
    if b != [] && b[|b| - 1] == 0 {
      var front := b[..|b| - 1];
      TrimIs(front, name);
      if |name| <= |front| { assert b[..|name|] == front[..|name|]; }
      if |name| == |b| { assert b[..|name|] == b; }
    } else {
      if |name| == |b| { assert b[..|name|] == b; }
    }
  }

  lemma LinkEditIs(s: seq<Byte>, o: nat)
    requires o + 16 <= |s|
    ensures MachO.TrimRight(s[o..o + 16]) == LINKEDIT <==> IsLinkEdit(s, o)
  {
    var b := s[o..o + 16];
    TrimIs(b, LINKEDIT);
    assert LINKEDIT_FIELD[..10] == LINKEDIT;
    if b[..10] == LINKEDIT && forall i | 10 <= i < |b| :: b[i] == 0 {
      assert b == b[..10] + [0, 0, 0, 0, 0, 0];
    }
  }

  /** Where the only code directory of the signature at `a` starts. */
  function DirectoryAt(s: seq<Byte>, a: nat): nat {
    a + BigWord(s, a + 16)
  }

  /** The bytes from `a` to `b` are an embedded signature with one code directory. */
  predicate IsContainer(s: seq<Byte>, a: nat, b: nat) {
    && a + 20 <= b <= |s|
    && BigWord(s, a) == 0xfade0cc0 && BigWord(s, a + 4) == b - a && BigWord(s, a + 8) == 1 && BigWord(s, a + 12) == 0
    && a + 20 <= DirectoryAt(s, a) && DirectoryAt(s, a) + 40 <= b && BigWord(s, DirectoryAt(s, a)) == 0xfade0c02
  }

  /** The directory at `d` is a plain ad-hoc one: its length at byte 4, its flags at 12,
      the place of the hashes at 16, no special slots at 24, the number of code slots at
      28, and the size of a hash at 36. */
  predicate IsPlain(s: seq<Byte>, d: nat, b: nat) {
    && d + 40 <= b <= |s|
    && 40 <= BigWord(s, d + 4) <= b - d
    && BigWord(s, d + 12) / 2 % 2 == 1
    && 40 <= BigWord(s, d + 16) <= BigWord(s, d + 4)
    && BigWord(s, d + 24) == 0
    && s[d + 36] > 0
    && BigWord(s, d + 28) * s[d + 36] as int <= BigWord(s, d + 4) - BigWord(s, d + 16)
  }

  /** `i` is in one of the code slots of that directory. */
  predicate InSlots(s: seq<Byte>, d: nat, i: int) {
    && d + 40 <= |s|
    && d + BigWord(s, d + 16) <= i < d + BigWord(s, d + 16) + BigWord(s, d + 28) * s[d + 36] as int
  }

  predicate IsAdHoc(s: seq<Byte>, a: nat, b: nat) {
    IsContainer(s, a, b) && IsPlain(s, DirectoryAt(s, a), b)
  }

  lemma BigInside(s: seq<Byte>, a: nat, b: nat, o: nat)
    requires a <= b <= |s| && o + 4 <= b - a
    ensures Big(s[a..b], o) == BigWord(s, a + o)
  {
    BigIs(s[a..b], o);
  }

  lemma ContainerIs(s: seq<Byte>, a: nat, b: nat)
    requires a <= b <= |s|
    ensures DirectoryOffset(s[a..b]) == if IsContainer(s, a, b) then Some(DirectoryAt(s, a) - a) else None
  {
    var g := s[a..b];
    if |g| >= 20 {
      BigInside(s, a, b, 0);
      BigInside(s, a, b, 4);
      BigInside(s, a, b, 8);
      BigInside(s, a, b, 12);
      BigInside(s, a, b, 16);
      if Big(g, 16) + 40 <= |g| { BigInside(s, a, b, Big(g, 16)); }
    }
  }

  lemma DirectoryIs(s: seq<Byte>, a: nat, b: nat, o: nat)
    requires a <= b <= |s| && o + 40 <= b - a
    ensures var d := a + o;
            ReadDirectory(s[a..b], o) ==
            Directory(BigWord(s, d + 4), BigWord(s, d + 12), BigWord(s, d + 16), BigWord(s, d + 24), BigWord(s, d + 28),
                      s[d + 36])
  {
    BigInside(s, a, b, o + 4);
    BigInside(s, a, b, o + 12);
    BigInside(s, a, b, o + 16);
    BigInside(s, a, b, o + 24);
    BigInside(s, a, b, o + 28);
  }

  /** Rounding down loses nothing in the comparison. */
  lemma RoomIs(slots: nat, room: nat, size: nat)
    requires size > 0
    ensures slots <= room / size <==> slots * size <= room
  {
    if slots <= room / size { SlotsFit(slots, room, size); }
    if slots > room / size {
      assert room < (room / size + 1) * size;
      MulMono(room / size + 1, slots, size);
    }
  }

  lemma SlotsAre(s: seq<Byte>, a: nat, b: nat)
    requires a <= b <= |s|
    ensures ReadSlots(s[a..b]).Some? <==> IsAdHoc(s, a, b)
    ensures ReadSlots(s[a..b]).Some? ==>
      forall i :: (a + ReadSlots(s[a..b]).value.0 <= i < a + ReadSlots(s[a..b]).value.1) <==>
          InSlots(s, DirectoryAt(s, a), i)
  {
    ContainerIs(s, a, b);
    if IsContainer(s, a, b) { ContainerSlots(s, a, b, DirectoryAt(s, a) - a); }
  }

  lemma ContainerSlots(s: seq<Byte>, a: nat, b: nat, o: nat)
    requires a <= b <= |s| && o + 40 <= b - a && DirectoryOffset(s[a..b]) == Some(o)
    ensures ReadSlots(s[a..b]).Some? <==> IsPlain(s, a + o, b)
    ensures ReadSlots(s[a..b]).Some? ==>
      forall i {:trigger InSlots(s, a + o, i)} ::
        (a + ReadSlots(s[a..b]).value.0 <= i < a + ReadSlots(s[a..b]).value.1) <==> InSlots(s, a + o, i)
  {
    DirectoryIs(s, a, b, o);
    PlainSlots(s, a, b, o, ReadDirectory(s[a..b], o));
  }

  lemma PlainSlots(s: seq<Byte>, a: nat, b: nat, o: nat, r: Directory)
    requires a <= b <= |s| && o + 40 <= b - a
    requires var d := a + o;
             r == Directory(BigWord(s, d + 4), BigWord(s, d + 12), BigWord(s, d + 16), BigWord(s, d + 24),
                            BigWord(s, d + 28), s[d + 36])
    ensures Slots(r, o, b - a).Some? <==> IsPlain(s, a + o, b)
    ensures Slots(r, o, b - a).Some? ==>
      forall i {:trigger InSlots(s, a + o, i)} ::
        (a + Slots(r, o, b - a).value.0 <= i < a + Slots(r, o, b - a).value.1) <==> InSlots(s, a + o, i)
  {
    if r.hashSize > 0 && r.hashOffset <= r.length { RoomIs(r.slots, r.length - r.hashOffset, r.hashSize); }
  }

  /** A load command at `o` can be read, in a command area that ends at `limit`. */
  predicate IsCommand(s: seq<Byte>, o: nat, limit: nat) {
    && o + 8 <= limit && 8 <= Word(s, o + 4) && o + Word(s, o + 4) <= limit
    && (Word(s, o) == 0x19 ==> 72 <= Word(s, o + 4))
    && (Word(s, o) == 0x1b ==> Word(s, o + 4) == 24)
    && (Word(s, o) == 0x1d ==> Word(s, o + 4) == 16 && Word(s, o + 8) + Word(s, o + 12) <= |s|)
  }

  /** And if it places a signature, that is a plain ad-hoc one. */
  predicate IsAccepted(s: seq<Byte>, o: nat, limit: nat) {
    && IsCommand(s, o, limit)
    && (Word(s, o) == 0x1d ==> IsAdHoc(s, Word(s, o + 8), Word(s, o + 8) + Word(s, o + 12)))
  }

  /** The command at `o` has byte `i` cleared: the virtual size of `__LINKEDIT`, the UUID,
      or a code slot. */
  predicate Clears(s: seq<Byte>, o: nat, i: int) {
    || (Word(s, o) == 0x19 && IsLinkEdit(s, o + 8) && o + 32 <= i < o + 40)
    || (Word(s, o) == 0x1b && o + 8 <= i < o + 24)
    || (Word(s, o) == 0x1d && InSlots(s, DirectoryAt(s, Word(s, o + 8)), i))
  }

  lemma CommandIs(s: seq<Byte>, o: nat, limit: nat)
    requires limit <= |s|
    ensures ReadCommand(s, o, limit).Some? <==> IsCommand(s, o, limit)
    ensures ReadCommand(s, o, limit).Some? ==> IsRead(s, o, ReadCommand(s, o, limit).value)
  {
    if o + 8 <= limit {
      LittleIs(s, o);
      LittleIs(s, o + 4);
      if Word(s, o) == 0x1d && Word(s, o + 4) == 16 && o + 16 <= limit {
        LittleIs(s, o + 8);
        LittleIs(s, o + 12);
      }
      if Word(s, o) == 0x19 && 72 <= Word(s, o + 4) && o + Word(s, o + 4) <= limit { LinkEditIs(s, o + 8); }
    }
  }

  ghost predicate IsRead(s: seq<Byte>, o: nat, c: Command) {
    && c.offset == o && c.size == Word(s, o + 4)
    && (c.Segment? <==> Word(s, o) == 0x19) && (c.Segment? ==> c.linkedit == IsLinkEdit(s, o + 8))
    && (c.Uuid? <==> Word(s, o) == 0x1b)
    && (c.Signature? <==> Word(s, o) == 0x1d)
    && (c.Signature? ==> c.start == Word(s, o + 8) && c.end == Word(s, o + 8) + Word(s, o + 12))
  }

  lemma RangeIs(s: seq<Byte>, o: nat, c: Command)
    requires Fits(c, |s|) && IsRead(s, o, c)
    ensures Range(s, c).Some? <==> (c.Signature? ==> IsAdHoc(s, c.start, c.end))
    ensures Range(s, c).Some? ==> forall i :: Covers(Range(s, c), i) <==> Clears(s, o, i)
  {
    if c.Signature? { SlotsAre(s, c.start, c.end); }
  }

  /** One step, on bytes that may have been rewritten before: whether it refuses them, how
      far it goes, and what it leaves. */
  lemma StepBytes(s: seq<Byte>, o: nat, limit: nat)
    requires limit <= |s|
    ensures Step(s, o, limit).Some? <==> IsAccepted(s, o, limit)
    ensures Step(s, o, limit).Some? ==>
      && Step(s, o, limit).value.size == Word(s, o + 4) && |Step(s, o, limit).value.bytes| == |s|
      && forall i | 0 <= i < |s| :: Step(s, o, limit).value.bytes[i] == if Clears(s, o, i) then 0 else s[i]
  {
    CommandIs(s, o, limit);
    if IsCommand(s, o, limit) {
      var c := ReadCommand(s, o, limit).value;
      RangeIs(s, o, c);
      if Range(s, c).Some? { ZeroedAt(s, Range(s, c).value.0, Range(s, c).value.1); }
    }
  }

  /** Where the `k`-th load command of the untouched file starts. */
  function CommandAt(s: seq<Byte>, k: nat): nat {
    if k == 0 then 32 else CommandAt(s, k - 1) + Word(s, CommandAt(s, k - 1) + 4)
  }

  /** Some load command has byte `i` cleared. */
  ghost predicate IsCleared(s: seq<Byte>, i: int) {
    exists k: nat | k < Word(s, 16) :: Clears(s, CommandAt(s, k), i)
  }

  /** Every load command is accepted. */
  ghost predicate IsCanonicalizable(s: seq<Byte>) {
    && 32 <= |s| && 32 + Word(s, 20) <= |s|
    && forall k: nat | k < Word(s, 16) :: IsAccepted(s, CommandAt(s, k), 32 + Word(s, 20))
  }

  lemma HeaderIs(s: seq<Byte>)
    requires |s| >= 32
    ensures Limit(s) == 32 + Word(s, 20) && Little(s, 16) == Word(s, 16) && Little(s, 0) == Word(s, 0)
  {
    LittleIs(s, 0);
    LittleIs(s, 16);
    LittleIs(s, 20);
  }

  lemma {:induction false} ChainedIs(s: seq<Byte>, cs: seq<Command>, k: nat)
    requires |s| >= 32 && Chained(s, cs, 32, Limit(s)) && k < |cs|
    ensures At(cs, 32, k) == CommandAt(s, k) && IsRead(s, CommandAt(s, k), cs[k])
    ensures IsCommand(s, CommandAt(s, k), Limit(s))
  {
    if k > 0 { ChainedIs(s, cs, k - 1); }
    assert ReadCommand(s, At(cs, 32, k), Limit(s)) == Some(cs[k]);
    CommandIs(s, At(cs, 32, k), Limit(s));
  }

  /** The mask of a file whose commands can be read, and whether one of its signatures
      has it refused. */
  lemma MaskBytes(s: seq<Byte>)
    requires Layout(s).Some?
    ensures AllGood(MaskOf(s), 0) <==> IsCanonicalizable(s)
    ensures AllGood(MaskOf(s), 0) ==> forall i :: Masked(MaskOf(s), i) <==> IsCleared(s, i)
  {
    LayoutSpread(s);
    HeaderIs(s);
    forall k: nat | k < Word(s, 16)
      ensures MaskOf(s)[k].Some? <==> IsAccepted(s, CommandAt(s, k), 32 + Word(s, 20))
      ensures MaskOf(s)[k].Some? ==> forall i :: Covers(MaskOf(s)[k], i) <==> Clears(s, CommandAt(s, k), i)
    {
      OneMask(s, k);
    }
    if AllGood(MaskOf(s), 0) {
      forall i ensures Masked(MaskOf(s), i) <==> IsCleared(s, i) { ClearedOnce(s, i); }
    }
  }

  lemma OneMask(s: seq<Byte>, k: nat)
    requires Layout(s).Some? && k < Word(s, 16)
    ensures k < |MaskOf(s)|
    ensures MaskOf(s)[k].Some? <==> IsAccepted(s, CommandAt(s, k), 32 + Word(s, 20))
    ensures MaskOf(s)[k].Some? ==> forall i :: Covers(MaskOf(s)[k], i) <==> Clears(s, CommandAt(s, k), i)
  {
    LayoutSpread(s);
    HeaderIs(s);
    var cs := Layout(s).value;
    ChainedIs(s, cs, k);
    RangeIs(s, CommandAt(s, k), cs[k]);
  }

  lemma ClearedOnce(s: seq<Byte>, i: int)
    requires Layout(s).Some? && |MaskOf(s)| == Word(s, 16)
    requires forall k: nat | k < Word(s, 16) :: Covers(MaskOf(s)[k], i) <==> Clears(s, CommandAt(s, k), i)
    ensures Masked(MaskOf(s), i) <==> IsCleared(s, i)
  {
    if IsCleared(s, i) {
      var k: nat :| k < Word(s, 16) && Clears(s, CommandAt(s, k), i);
      assert Covers(MaskOf(s)[k], i);
    }
  }

  /** Command number `k` can be read. */
  predicate HasCommand(s: seq<Byte>, k: nat, limit: nat) {
    IsCommand(s, CommandAt(s, k), limit)
  }

  /** The next command can be read, and those behind it. */
  lemma LayoutNext(s: seq<Byte>, n: nat, k: nat, limit: nat)
    requires limit <= |s| && n > 0
    ensures Commands(s, n, CommandAt(s, k), limit).Some? <==>
            HasCommand(s, k, limit) && Commands(s, n - 1, CommandAt(s, k + 1), limit).Some?
  {
    CommandIs(s, CommandAt(s, k), limit);
    if HasCommand(s, k, limit) {
      assert CommandAt(s, k + 1) == CommandAt(s, k) + Word(s, CommandAt(s, k) + 4);
    }
  }

  /** The commands of an untouched file can be read. */
  lemma {:induction false} LayoutFrom(s: seq<Byte>, n: nat, k: nat, limit: nat)
    requires limit <= |s|
    ensures Commands(s, n, CommandAt(s, k), limit).Some? <==>
            forall j: nat | k <= j < k + n :: HasCommand(s, j, limit)
    decreases n
  {
    if n > 0 {
      LayoutNext(s, n, k, limit);
      LayoutFrom(s, n - 1, k + 1, limit);
    }
  }

  lemma LayoutBytes(s: seq<Byte>)
    ensures Layout(s).Some? <==>
            && 32 <= |s| && 32 + Word(s, 20) <= |s|
            && var limit := 32 + Word(s, 20); forall k: nat | k < Word(s, 16) :: HasCommand(s, k, limit)
  {
    if |s| >= 32 {
      HeaderIs(s);
      if Limit(s) <= |s| {
        LayoutFrom(s, Word(s, 16), 0, Limit(s));
        assert Layout(s) == Commands(s, Word(s, 16), CommandAt(s, 0), 32 + Word(s, 20));
      }
    }
  }

  /** The canonical form of an orderly file, byte by byte: it is refused exactly when a
      signature is not a plain ad-hoc one, and comes out as itself with the virtual size of
      `__LINKEDIT`, the UUIDs and the code slots cleared. */
  lemma CanonicalBytes(s: seq<Byte>)
    requires Orderly(s)
    ensures Pass(s).Some? <==> IsCanonicalizable(s)
    ensures Pass(s).Some? ==>
      |Pass(s).value| == |s| && forall i | 0 <= i < |s| :: Pass(s).value[i] == if IsCleared(s, i) then 0 else s[i]
  {
    MaskBytes(s);
    CanonicalForm(s);
  }

  /** Two orderly files come out equal exactly when they agree everywhere else. */
  lemma NormalBytes(s: seq<Byte>, t: seq<Byte>)
    requires Orderly(s) && IsCanonicalizable(s) && (Pass(t).Some? ==> Orderly(t))
    ensures Pass(t) == Pass(s) <==> |s| == |t| && forall i | 0 <= i < |s| && !IsCleared(s, i) :: s[i] == t[i]
  {
    CanonicalBytes(s);
    MaskBytes(s);
    NormalForm(s, t);
  }

  /** Files without the magic number are hashed as they are. */
  lemma HashedBytes(s: seq<Byte>)
    ensures Hashed(s) == if |s| >= 4 && Word(s, 0) == 0xfeedfacf then Pass(s) else Some(s)
  {
    if |s| >= 4 { LittleIs(s, 0); }
  }

  /** What the pass makes of any file: as many steps as the header announces, from byte 32,
      on what the steps before have left; `StepBytes` says what each step does. */
  lemma PassBytes(s: seq<Byte>)
    ensures Pass(s) == if |s| < 32 || 32 + Word(s, 20) > |s| then None
                       else PassFrom(Steps(32 + Word(s, 20)), s, Word(s, 16), 32)
  {
    if |s| >= 32 { HeaderIs(s); }
  }
}
