/** The 32-bit CRC that bzip2 keeps over the bytes of a block. */
module BlockCrc {
  import opened Bytes
  import opened Gf2

  /** Eight shift steps with the generator 0x04c11db7. */
  function Shift(r: bv32, k: nat): bv32
    decreases k
  {
    if k == 0 then r
    else Shift(if r & 0x8000_0000 != 0 then (r << 1) ^ 0x04c1_1db7 else r << 1, k - 1)
  }

  function AtTop(i: bv32): bv32 {
    i << 24
  }

  function TableEntry(i: bv32): bv32 {
    Shift(AtTop(i), 8)
  }

  function Up8(crc: bv32): bv32 {
    crc << 8
  }

  function HighByte(crc: bv32): bv32 {
    crc >> 24
  }

  function Byte(ch: byte): bv32 {
    (ch as bv8) as bv32
  }

  /** BZ_UPDATE_CRC. */
  function Update(crc: bv32, ch: byte): bv32 {
    Plus(Up8(crc), TableEntry(Plus(HighByte(crc), Byte(ch))))
  }

  /** BZ_FINALISE_CRC. */
  function Final(crc: bv32): bv32 {
    !crc
  }

  /** The checksum as a 32-bit number. */
  function Word(crc: bv32): (u: nat)
    ensures u < 0x1_0000_0000
  {
    crc as int
  }

  function UpdateAll(crc: bv32, s: seq<byte>): bv32 {
    if s == [] then crc else Update(UpdateAll(crc, s[..|s|-1]), s[|s|-1])
  }

  lemma {:induction false} UpdateAllConcat(crc: bv32, s: seq<byte>, t: seq<byte>)
    ensures UpdateAll(crc, s + t) == UpdateAll(UpdateAll(crc, s), t)
  {
    hide Update;
    if t == [] {
      assert s + t == s;
    } else {
      var u := t[..|t|-1];
      UpdateAllConcat(crc, s, u);
      assert (s + t)[..|s + t|-1] == s + u;
    }
  }
}
