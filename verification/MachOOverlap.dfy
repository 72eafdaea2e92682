/** Why the signatures must lie after the load commands: a file whose only signature
    overlaps its own load command is accepted, and its canonical form is not. */
module MachOOverlap {
  import opened Options
  import opened InPlace
  import opened MachO
  import opened MachOBytes

  /** The bytes that are not zero. A header announces two load commands in 84 bytes. The
      first, at 32, is of an unknown kind and its payload is the head of a signature: one
      ad-hoc directory, 56 bytes long, with one 16-byte hash behind its 40-byte header.
      The second, at 100, places that signature at 40, so that its last 16 bytes, the
      hash, are the command itself. */
  function ByteAt(i: int): Byte {
    if i < 32 then HeaderByte(i) else if i < 60 then ContainerByte(i) else if i < 100 then DirectoryByte(i)
        else CommandByte(i)
  }

  function HeaderByte(i: int): Byte {
    if i == 0 then 0xcf else if i == 1 then 0xfa else if i == 2 then 0xed else if i == 3 then 0xfe
    else if i == 16 then 2 else if i == 20 then 84 else 0
  }

  function ContainerByte(i: int): Byte {
    if i == 32 then 0x99 else if i == 36 then 68
    else if i == 40 then 0xfa else if i == 41 then 0xde else if i == 42 then 0x0c else if i == 43 then 0xc0
    else if i == 47 then 76 else if i == 51 then 1 else if i == 59 then 20 else 0
  }

  function DirectoryByte(i: int): Byte {
    if i == 60 then 0xfa else if i == 61 then 0xde else if i == 62 then 0x0c else if i == 63 then 0x02
    else if i == 67 then 56 else if i == 75 then 2 else if i == 79 then 40
    else if i == 91 then 1 else if i == 96 then 16 else 0
  }

  function CommandByte(i: int): Byte {
    if i == 100 then 0x1d else if i == 104 then 16 else if i == 108 then 40 else if i == 112 then 76 else 0
  }

  ghost predicate Overlapping(s: seq<Byte>, length: nat) {
    |s| == 116 && forall i | 0 <= i < length <= 116 :: s[i] == ByteAt(i)
  }

  lemma HeaderFields(s: seq<Byte>)
    requires Overlapping(s, 100)
    ensures Little(s, 0) == MAGIC && Little(s, 16) == 2 && Little(s, 20) == 84
  {
    LittleIs(s, 0);
    LittleIs(s, 16);
    LittleIs(s, 20);
  }

  lemma FirstCommand(s: seq<Byte>)
    requires Overlapping(s, 100)
    ensures Steps(116)(s, 32) == Some(Stepped(68, s))
  {
    LittleIs(s, 32);
    LittleIs(s, 36);
    assert ReadCommand(s, 32, 116) == Some(Other(32, 68));
  }

  lemma Container(s: seq<Byte>)
    requires Overlapping(s, 116)
    ensures DirectoryOffset(s[40..116]) == Some(20)
  {
    ContainerFields(s);
    assert IsContainer(s, 40, 116) && DirectoryAt(s, 40) == 60;
    ContainerIs(s, 40, 116);
  }

  lemma ContainerFields(s: seq<Byte>)
    requires Overlapping(s, 116)
    ensures BigWord(s, 40) == 0xfade0cc0 && BigWord(s, 44) == 76 && BigWord(s, 48) == 1 && BigWord(s, 52) == 0
    ensures BigWord(s, 56) == 20 && BigWord(s, 60) == 0xfade0c02
  {
  }

  lemma DirectoryFields(s: seq<Byte>)
    requires Overlapping(s, 116)
    ensures ReadDirectory(s[40..116], 20) == Directory(56, 2, 40, 0, 1, 16)
  {
    DirectoryIs(s, 40, 116, 20);
  }

  lemma SecondCommand(s: seq<Byte>)
    requires Overlapping(s, 116)
    ensures Steps(116)(s, 100) == Some(Stepped(16, Zeroed(s, 100, 116)))
  {
    LittleIs(s, 100);
    LittleIs(s, 104);
    LittleIs(s, 108);
    LittleIs(s, 112);
    assert ReadCommand(s, 100, 116) == Some(Signature(100, 16, 40, 116));
    Container(s);
    DirectoryFields(s);
  }

  lemma ClearedCommand(s: seq<Byte>)
    requires Overlapping(s, 100) && forall i | 100 <= i < 116 :: s[i] == 0
    ensures Steps(116)(s, 100).None?
  {
    LittleIs(s, 104);
  }

  /** Two rounds of the loop, if the first one changes nothing. */
  lemma TwoRounds(step: (seq<Byte>, nat) -> Option<Stepped>, s: seq<Byte>)
    requires step(s, 32) == Some(Stepped(68, s))
    ensures PassFrom(step, s, 2, 32) == if step(s, 100).None? then None else Some(step(s, 100).value.bytes)
  {
    assert PassFrom(step, s, 1, 100) == if step(s, 100).None? then None else Some(step(s, 100).value.bytes);
  }

  lemma OnePass(s: seq<Byte>)
    requires Overlapping(s, 100)
    ensures Pass(s) == var last := Steps(116)(s, 100); if last.None? then None else Some(last.value.bytes)
  {
    HeaderFields(s);
    FirstCommand(s);
    TwoRounds(Steps(116), s);
  }

  lemma Image() returns (s: seq<Byte>)
    ensures Overlapping(s, 116)
  {
    s := seq(116, i requires 0 <= i < 116 => ByteAt(i));
  }

  lemma Shorter(s: seq<Byte>)
    requires Overlapping(s, 116)
    ensures Overlapping(s, 100)
  {
  }

  lemma Accepted(s: seq<Byte>)
    requires Overlapping(s, 116)
    ensures Pass(s) == Some(Zeroed(s, 100, 116)) && Little(s, 0) == MAGIC
  {
    Shorter(s);
    HeaderFields(s);
    OnePass(s);
    SecondCommand(s);
  }

  lemma Refused(t: seq<Byte>)
    requires Overlapping(t, 100) && forall i | 100 <= i < 116 :: t[i] == 0
    ensures Pass(t).None?
  {
    OnePass(t);
    ClearedCommand(t);
  }

  /** The file is accepted, and its canonical form is refused. */
  lemma NotIdempotent()
    ensures exists s: seq<Byte> :: |s| == 116 && Little(s, 0) == MAGIC && Pass(s).Some? && Pass(Pass(s).value).None?
  {
    var s := Image();
    Accepted(s);
    ClearedImage(s);
    Refused(Zeroed(s, 100, 116));
  }

  lemma ClearedImage(s: seq<Byte>)
    requires Overlapping(s, 116)
    ensures var t := Zeroed(s, 100, 116); Overlapping(t, 100) && forall i | 100 <= i < 116 :: t[i] == 0
  {
    ZeroedAt(s, 100, 116);
  }
}
