/** Canonical form of a Mach-O image: the fields that a linker or an ad-hoc signature
    regenerates for identical code are cleared in place before hashing. */
module MachO {
  import opened Options
  import opened InPlace

  const MAGIC := 0xfeedfacf
  const LC_UUID := 0x1b
  const LC_CODE_SIGNATURE := 0x1d
  const LC_SEGMENT_64 := 0x19
  const HEADER_LEN := 32
  const CS_EMBEDDED := 0xfade0cc0
  const CS_CODE_DIRECTORY := 0xfade0c02
  /** The characters of `__LINKEDIT`. */
  const LINKEDIT: seq<Byte> := [95, 95, 76, 73, 78, 75, 69, 68, 73, 84]

  /** The little-endian value of `k` bytes. */
  function LittleEndian(s: seq<Byte>, i: nat, k: nat): nat
    requires i + k <= |s|
    decreases k
  {
    if k == 0 then 0 else s[i] as int + 0x100 * LittleEndian(s, i + 1, k - 1)
  }

  /** The big-endian value of `k` bytes. */
  function BigEndian(s: seq<Byte>, i: nat, k: nat): nat
    requires i + k <= |s|
    decreases k
  {
    if k == 0 then 0 else 0x100 * BigEndian(s, i, k - 1) + s[i + k - 1] as int
  }

  function Little(s: seq<Byte>, i: nat): nat
    requires i + 4 <= |s|
  {
    LittleEndian(s, i, 4)
  }

  function Big(s: seq<Byte>, i: nat): nat
    requires i + 4 <= |s|
  {
    BigEndian(s, i, 4)
  }

  function TrimRight(s: seq<Byte>): seq<Byte> {
    if |s| > 0 && s[|s| - 1] == 0 then TrimRight(s[..|s| - 1]) else s
  }

  /** One load command as its header describes it. */
  datatype Command =
    | Other(offset: nat, size: nat)
    | Segment(offset: nat, size: nat, linkedit: bool)
    | Uuid(offset: nat, size: nat)
    | Signature(offset: nat, size: nat, start: nat, end: nat)

  function ReadCommand(s: seq<Byte>, offset: nat, limit: nat): (r: Option<Command>)
    requires limit <= |s|
    ensures r.Some? ==> r.value.offset == offset && offset + r.value.size <= limit && Fits(r.value, |s|)
  {
    if offset + 8 > limit then None
    else
      var command, size := Little(s, offset), Little(s, offset + 4);
      if size < 8 || offset + size > limit then None
      else if command == LC_SEGMENT_64 then
        if size < 72 then None
        else Some(Segment(offset, size, TrimRight(s[offset + 8..offset + 24]) == LINKEDIT))
      else if command == LC_UUID then
        if size != 24 then None else Some(Uuid(offset, size))
      else if command == LC_CODE_SIGNATURE then
        if size != 16 then None
        else
          var start, length := Little(s, offset + 8), Little(s, offset + 12);
          if start > |s| || length > |s| - start then None else Some(Signature(offset, size, start, start + length))
      else Some(Other(offset, size))
  }

  /** The fields of a code directory that decide what may be cleared. */
  datatype Directory = Directory(length: nat, flags: nat, hashOffset: nat, special: nat, slots: nat, hashSize: nat)

  function ReadDirectory(g: seq<Byte>, offset: nat): Directory
    requires offset + 40 <= |g|
  {
    Directory(Big(g, offset + 4), Big(g, offset + 12), Big(g, offset + 16), Big(g, offset + 24), Big(g, offset + 28),
              g[offset + 36])
  }

  /** The slots of a plain ad-hoc directory, relative to the signature. */
  function Slots(d: Directory, offset: nat, total: nat): (r: Option<(nat, nat)>)
    requires offset + 40 <= total
    ensures r.Some? ==> offset + 40 <= r.value.0 <= r.value.1 <= total
  {
    if d.length < 40 || offset + d.length > total then None
    else if d.flags / 2 % 2 == 0 || d.special != 0 || d.hashSize == 0 || d.hashOffset < 40 || d.hashOffset > d.length
            || d.slots > (d.length - d.hashOffset) / d.hashSize then None
    else
      SlotsFit(d.slots, d.length - d.hashOffset, d.hashSize);
      Some((offset + d.hashOffset, offset + d.hashOffset + d.slots * d.hashSize))
  }

  /** The offset of the only code directory of an embedded signature. */
  function DirectoryOffset(g: seq<Byte>): (r: Option<nat>)
    ensures r.Some? ==> |g| >= 20 && r.value == Big(g, 16) && 20 <= r.value && r.value + 40 <= |g|
  {
    if |g| < 20 || Big(g, 0) != CS_EMBEDDED then None
    else if Big(g, 4) != |g| || Big(g, 8) != 1 || Big(g, 12) != 0 then None
    else if Big(g, 16) < 20 || Big(g, 16) + 40 > |g| || Big(g, Big(g, 16)) != CS_CODE_DIRECTORY then None
    else Some(Big(g, 16))
  }

  /** The code-slot hashes of an ad-hoc signature, as a range of the signature. */
  function ReadSlots(g: seq<Byte>): (r: Option<(nat, nat)>)
    ensures r.Some? ==> r.value.0 <= r.value.1 <= |g|
    ensures r.Some? ==> |g| >= 20 && 20 <= Big(g, 16) && Big(g, 16) + 40 <= r.value.0
  {
    var offset := DirectoryOffset(g);
    if offset.None? then None else Slots(ReadDirectory(g, offset.value), offset.value, |g|)
  }

  lemma SlotsFit(slots: nat, room: nat, size: nat)
    requires size > 0 && slots <= room / size
    ensures slots * size <= room
  {
    assert slots * size <= room / size * size by { MulMono(slots, room / size, size); }
  }

  lemma MulMono(a: nat, b: nat, c: nat)
    requires a <= b
    ensures a * c <= b * c
  {
  }

  /** The command lies inside a file of this length, as reading it established. */
  predicate Fits(c: Command, length: nat) {
    && c.offset + c.size <= length && 8 <= c.size
    && (c.Segment? ==> 72 <= c.size)
    && (c.Uuid? ==> c.size == 24)
    && (c.Signature? ==> c.size == 16 && c.start <= c.end <= length)
  }

  /** What a command clears, given the bytes it was read from; `None` rejects the file. */
  function Range(s: seq<Byte>, c: Command): (r: Option<(nat, nat)>)
    requires Fits(c, |s|)
    ensures r.Some? ==> r.value.0 <= r.value.1 <= |s|
  {
    match c
    case Other(offset, _) => Some((offset, offset))
    case Segment(offset, _, linkedit) => Some(if linkedit then (offset + 32, offset + 40) else (offset, offset))
    case Uuid(offset, _) => Some((offset + 8, offset + 24))
    case Signature(_, _, start, end) =>
      var slots := ReadSlots(s[start..end]);
      if slots.None? then None else Some((start + slots.value.0, start + slots.value.1))
  }

  /** One command: read it, and clear what it says. */
  function Step(s: seq<Byte>, offset: nat, limit: nat): (r: Option<Stepped>)
    ensures r.Some? ==> |r.value.bytes| == |s|
  {
    if limit > |s| then None
    else
      var c := ReadCommand(s, offset, limit);
      if c.None? then None
      else
        var range := Range(s, c.value);
        if range.None? then None else Some(Stepped(c.value.size, Zeroed(s, range.value.0, range.value.1)))
  }

  function Steps(limit: nat): (seq<Byte>, nat) -> Option<Stepped> {
    (s: seq<Byte>, offset: nat) => Step(s, offset, limit)
  }

  function Limit(s: seq<Byte>): nat
    requires |s| >= HEADER_LEN
  {
    HEADER_LEN + Little(s, 20)
  }

  function Pass(s: seq<Byte>): (r: Option<seq<Byte>>)
  {
    if |s| < HEADER_LEN || Limit(s) > |s| then None
    else PassFrom(Steps(Limit(s)), s, Little(s, 16), HEADER_LEN)
  }

  /** Go's clear on a subslice. */
  method Clear(data: array<Byte>, lo: nat, hi: nat)
    requires lo <= hi <= data.Length
    modifies data
    ensures data[..] == Zeroed(old(data[..]), lo, hi)
  {
    var i := lo;
    while i < hi
      invariant lo <= i <= hi
      invariant data[..] == Zeroed(old(data[..]), lo, i)
    {
      ghost var was := data[..];
      data[i] := 0;
      i := i + 1;
      assert data[..] == was[i - 1 := 0];
    }
  }

  /** canonicalizeAdHocSignature on the subslice from `start` to `end`. */
  method CanonicalizeSignature(data: array<Byte>, start: nat, end: nat) returns (ok: bool)
    requires start <= end <= data.Length
    modifies data
    ensures var slots := ReadSlots(old(data[start..end]));
            && ok == slots.Some?
            && data[..] == if ok then Zeroed(old(data[..]), start + slots.value.0, start + slots.value.1)
                else old(data[..])
  {
    var slots := ReadSlots(data[start..end]);
    if slots.None? { return false; }
    Clear(data, start + slots.value.0, start + slots.value.1);
    return true;
  }

  lemma NothingZeroed(s: seq<Byte>, i: nat)
    requires i <= |s|
    ensures Zeroed(s, i, i) == s
  {
  }

  /** The switch of the loop body. */
  method ClearCommand(data: array<Byte>, c: Command) returns (ok: bool)
    requires Fits(c, data.Length)
    modifies data
    ensures ok == Range(old(data[..]), c).Some?
    ensures ok ==> data[..] == Zeroed(old(data[..]), Range(old(data[..]), c).value.0, Range(old(data[..]), c).value.1)
  {
    ok := true;
    NothingZeroed(data[..], c.offset);
    match c {
      case Segment(offset, _, linkedit) => if linkedit { Clear(data, offset + 32, offset + 40); }
      case Uuid(offset, _) => Clear(data, offset + 8, offset + 24);
      case Signature(_, _, _, _) => ok := ClearSignature(data, c);
      case Other(_, _) =>
    }
  }

  method ClearSignature(data: array<Byte>, c: Command) returns (ok: bool)
    requires Fits(c, data.Length) && c.Signature?
    modifies data
    ensures ok == Range(old(data[..]), c).Some?
    ensures ok ==> data[..] == Zeroed(old(data[..]), Range(old(data[..]), c).value.0, Range(old(data[..]), c).value.1)
  {
    assert data[..][c.start..c.end] == data[c.start..c.end];
    ok := CanonicalizeSignature(data, c.start, c.end);
  }

  /** `step` is the step function of files whose commands end at `limit`. */
  ghost predicate Follows(step: (seq<Byte>, nat) -> Option<Stepped>, limit: nat) {
    forall s, offset {:trigger Step(s, offset, limit)} :: step(s, offset) == Step(s, offset, limit)
  }

  /** One round of the loop. */
  method CanonicalizeCommand(data: array<Byte>, offset: nat, limit: nat,
                             ghost step: (seq<Byte>, nat) -> Option<Stepped>)
    returns (size: Option<nat>)
    requires limit <= data.Length && Follows(step, limit)
    modifies data
    ensures size.Some? == step(old(data[..]), offset).Some?
    ensures size.Some? ==> step(old(data[..]), offset) == Some(Stepped(size.value, data[..]))
  {
    assert step(data[..], offset) == Step(data[..], offset, limit);
    var c := ReadCommand(data[..], offset, limit);
    if c.None? { return None; }
    var ok := ClearCommand(data, c.value);
    return if ok then Some(c.value.size) else None;
  }

  /** The loop over the load commands. */
  method CanonicalizeCommands(data: array<Byte>, n: nat, limit: nat, ghost step: (seq<Byte>, nat) -> Option<Stepped>)
      returns (ok: bool)
    requires limit <= data.Length && Follows(step, limit)
    modifies data
    ensures ok == PassFrom(step, old(data[..]), n, HEADER_LEN).Some?
    ensures ok ==> PassFrom(step, old(data[..]), n, HEADER_LEN) == Some(data[..])
  {
    ghost var goal := PassFrom(step, data[..], n, HEADER_LEN);
    var offset: nat := HEADER_LEN;
    for i := 0 to n
      invariant PassFrom(step, data[..], n - i, offset) == goal
    {
      var size := CanonicalizeCommand(data, offset, limit, step);
      if size.None? { return false; }
      offset := offset + size.value;
    }
    return true;
  }

  /** canonicalizeMachO. No input is out of bounds for it, and none changes the length. */
  method CanonicalizeMachO(data: array<Byte>) returns (ok: bool)
    modifies data
    ensures ok == Pass(old(data[..])).Some?
    ensures ok ==> data[..] == Pass(old(data[..])).value
  {
    if data.Length < HEADER_LEN { return false; }
    var limit := Limit(data[..]);
    if limit > data.Length { return false; }
    ok := CanonicalizeCommands(data, Little(data[..], 16), limit, Steps(limit));
  }
}
