/** Big-endian conversions between Python integers and byte strings, as
 *  `int.to_bytes(n, "big")` and `int.from_bytes(s, "big")` perform them.
 *  A byte is a `bv8`; an integer field of the protocol is an `int`. */
module Bytes {

  /** Converting an int in byte range to a byte and back loses nothing. */
  lemma IntToByte(y: int)
    requires 0 <= y < 256
    ensures (y as bv8) as int == y
  {
  }

  /** Converting a byte to an int and back loses nothing. */
  lemma ByteToInt(b: bv8)
    ensures (b as int) as bv8 == b
  {
  }

  /** `x.to_bytes(1, "big")`: defined (no OverflowError) for 0 <= x < 256. */
  function ToByte(x: int): (r: bv8)
    requires 0 <= x < 0x100
    ensures r as int == x
  {
    IntToByte(x);
    x as bv8
  }

  /** `x.to_bytes(2, "big")`: high byte first; defined for 0 <= x < 65536. */
  function ToBytes2(x: int): (r: seq<bv8>)
    requires 0 <= x < 0x1_0000
    ensures |r| == 2 && FromBytes(r) == x
  {
    var r := [ToByte(x / 256), ToByte(x % 256)];
    FromBytesPair(r[0], r[1]);
    assert r == [r[0], r[1]];
    r
  }

  /** `int.from_bytes(s, "big")`: the first byte is the most significant. */
  function FromBytes(s: seq<bv8>): (r: nat)
    ensures r < Pow256(|s|)
  {
    if s == [] then 0
    else
      var high, low := FromBytes(s[..|s| - 1]), s[|s| - 1] as int;
      ByteAppended(high, Pow256(|s| - 1), low);
      high * 256 + low
  }

  /** One more low byte below a bound multiplies the bound by 256. */
  lemma ByteAppended(high: nat, bound: nat, low: int)
    requires high < bound && 0 <= low < 256
    ensures high * 256 + low < bound * 256
  {
  }

  /** 256 to the power `n`: the number of values `n` bytes can hold. */
  function Pow256(n: nat): nat
  {
    if n == 0 then 1 else 256 * Pow256(n - 1)
  }

  /** A 16-bit word from its high and low bytes, `(hi << 8) | lo`. */
  function Word(hi: bv8, lo: bv8): (w: int)
    ensures 0 <= w < 0x1_0000
    ensures w / 256 == hi as int && w % 256 == lo as int
  {
    hi as int * 256 + lo as int
  }

  /** Two bytes read big-endian give their word. */
  lemma FromBytesPair(hi: bv8, lo: bv8)
    ensures FromBytes([hi, lo]) == Word(hi, lo)
  {
    assert [hi, lo][..1] == [hi];
    assert [hi][..0] == [];
    assert FromBytes([hi]) == hi as int;
  }

  /** Writing a word as two bytes gives back the bytes it was made of. */
  lemma ToBytes2OfWord(hi: bv8, lo: bv8)
    ensures ToBytes2(Word(hi, lo)) == [hi, lo]
  {
    ByteToInt(hi);
    ByteToInt(lo);
  }
}
