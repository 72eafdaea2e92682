/** One image with every kind of command that is rewritten, and its canonical bytes. */
module MachOImage {
  import opened Options
  import opened InPlace
  import opened MachO
  import opened MachONormal
  import opened MachOBytes

  /** A header with three load commands in 112 bytes; at 32 a 72-byte segment command for
      `__LINKEDIT`, at 104 a UUID, at 128 the place of a signature; at 144 a signature of
      76 bytes whose directory at 164 has one hash of 16 bytes behind its header. Every byte
      that plays no part is 170. */
  function ByteAt(i: int): Byte {
    if i < 32 then HeaderByte(i)
    else if i < 104 then SegmentByte(i)
    else if i < 144 then TailByte(i)
    else if i < 164 then ContainerByte(i)
    else DirectoryByte(i)
  }

  function HeaderByte(i: int): Byte {
    if i == 0 then 0xcf else if i == 1 then 0xfa else if i == 2 then 0xed else if i == 3 then 0xfe
    else if i == 16 then 3 else if i == 20 then 112 else if 16 <= i < 24 then 0 else 170
  }

  function SegmentByte(i: int): Byte {
    if i == 32 then 0x19 else if i == 36 then 72 else if 32 <= i < 40 then 0
    else if 40 <= i < 56 then LINKEDIT_FIELD[i - 40] else 170
  }

  function TailByte(i: int): Byte {
    if i == 104 then 0x1b else if i == 108 then 24 else if 104 <= i < 112 then 0
    else if i == 128 then 0x1d else if i == 132 then 16 else if i == 136 then 144 else if i == 140 then 76
    else if 128 <= i < 144 then 0 else 170
  }

  function ContainerByte(i: int): Byte {
    if i == 144 then 0xfa else if i == 145 then 0xde else if i == 146 then 0x0c else if i == 147 then 0xc0
    else if i == 151 then 76 else if i == 155 then 1 else if i == 163 then 20 else 0
  }

  function DirectoryByte(i: int): Byte {
    if i == 164 then 0xfa else if i == 165 then 0xde else if i == 166 then 0x0c else if i == 167 then 0x02
    else if i == 171 then 56 else if i == 179 then 2 else if i == 183 then 40 else if i == 195 then 1
    else if i == 200 then 16
    else if 168 <= i < 172 || 176 <= i < 184 || 188 <= i < 196 then 0 else 170
  }

  /** The virtual size of the segment, the UUID and the hash. */
  predicate Volatile(i: int) {
    64 <= i < 72 || 112 <= i < 128 || 204 <= i < 220
  }

  ghost predicate Imaged(s: seq<Byte>) {
    |s| == 220 && forall i | 0 <= i < 220 && !Volatile(i) :: s[i] == ByteAt(i)
  }

  lemma HeaderFields(s: seq<Byte>)
    requires Imaged(s)
    ensures Word(s, 0) == 0xfeedfacf && Word(s, 16) == 3 && Word(s, 20) == 112
  {
  }

  lemma SegmentFields(s: seq<Byte>)
    requires Imaged(s)
    ensures Word(s, 32) == 0x19 && Word(s, 36) == 72 && IsLinkEdit(s, 40)
  {
    assert forall i | 0 <= i < 16 :: s[40..56][i] == s[i + 40] == ByteAt(i + 40) == LINKEDIT_FIELD[i];
  }

  lemma UuidFields(s: seq<Byte>)
    requires Imaged(s)
    ensures Word(s, 104) == 0x1b && Word(s, 108) == 24
  {
  }

  lemma SignatureFields(s: seq<Byte>)
    requires Imaged(s)
    ensures Word(s, 128) == 0x1d && Word(s, 132) == 16 && Word(s, 136) == 144 && Word(s, 140) == 76
  {
  }

  lemma ContainerFields(s: seq<Byte>)
    requires Imaged(s)
    ensures IsContainer(s, 144, 220) && DirectoryAt(s, 144) == 164
  {
    assert BigWord(s, 144) == 0xfade0cc0 && BigWord(s, 148) == 76;
    assert BigWord(s, 152) == 1 && BigWord(s, 156) == 0;
    assert BigWord(s, 160) == 20;
    assert BigWord(s, 164) == 0xfade0c02;
  }

  lemma DirectoryFields(s: seq<Byte>)
    requires Imaged(s)
    ensures IsPlain(s, 164, 220) && forall i :: InSlots(s, 164, i) <==> 204 <= i < 220
  {
    assert BigWord(s, 168) == 56 && BigWord(s, 176) == 2;
    assert BigWord(s, 180) == 40 && BigWord(s, 188) == 0;
    assert BigWord(s, 192) == 1 && s[200] == 16;
  }

  /** The bytes from `lo` to `hi` zero, all others kept. */
  ghost predicate ZeroFrom(s: seq<Byte>, t: seq<Byte>, lo: int, hi: int) {
    |t| == |s| && forall i | 0 <= i < |s| :: t[i] == if lo <= i < hi then 0 else s[i]
  }

  lemma SegmentStep(s: seq<Byte>)
    requires Imaged(s)
    ensures Step(s, 32, 144).Some? && Step(s, 32, 144).value.size == 72
        && ZeroFrom(s, Step(s, 32, 144).value.bytes, 64, 72)
  {
    SegmentFields(s);
    StepBytes(s, 32, 144);
  }

  lemma UuidStep(s: seq<Byte>)
    requires Imaged(s)
    ensures Step(s, 104, 144).Some? && Step(s, 104, 144).value.size == 24
    ensures ZeroFrom(s, Step(s, 104, 144).value.bytes, 112, 128)
  {
    UuidFields(s);
    StepBytes(s, 104, 144);
  }

  lemma SignatureStep(s: seq<Byte>)
    requires Imaged(s)
    ensures Step(s, 128, 144).Some? && Step(s, 128, 144).value.size == 16
    ensures ZeroFrom(s, Step(s, 128, 144).value.bytes, 204, 220)
  {
    SignatureFields(s);
    ContainerFields(s);
    DirectoryFields(s);
    StepBytes(s, 128, 144);
  }

  lemma ThreeSteps(step: (seq<Byte>, nat) -> Option<Stepped>, s: seq<Byte>, a: Stepped, b: Stepped, c: Stepped)
    requires step(s, 32) == Some(a) && a.size == 72 && step(a.bytes, 104) == Some(b) && b.size == 24
    requires step(b.bytes, 128) == Some(c)
    ensures PassFrom(step, s, 3, 32) == Some(c.bytes)
  {
    assert PassFrom(step, b.bytes, 1, 128) == Some(c.bytes);
    assert PassFrom(step, a.bytes, 2, 104) == Some(c.bytes);
  }

  /** Whatever its volatile bytes are, the image is accepted; they come out zero, and every
      other byte is kept. */
  lemma ImageBytes(s: seq<Byte>)
    requires Imaged(s)
    ensures Hashed(s).Some? && |Hashed(s).value| == 220
    ensures forall i | 0 <= i < 220 :: Hashed(s).value[i] == if Volatile(i) then 0 else ByteAt(i)
  {
    HeaderFields(s);
    PassBytes(s);
    HashedBytes(s);
    SegmentStep(s);
    var a := Step(s, 32, 144).value;
    UuidStep(a.bytes);
    var b := Step(a.bytes, 104, 144).value;
    SignatureStep(b.bytes);
    var c := Step(b.bytes, 128, 144).value;
    ThreeSteps(Steps(144), s, a, b, c);
  }

  /** There is such an image. */
  lemma ImageExists() returns (s: seq<Byte>)
    ensures Imaged(s) && forall i | 0 <= i < 220 && Volatile(i) :: s[i] == 170
  {
    s := seq(220, i requires 0 <= i < 220 => if Volatile(i) then 170 else ByteAt(i));
  }
}
