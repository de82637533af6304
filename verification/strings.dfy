/** Java's `String.hashCode`, which keys and command names delegate to. */
module JavaStrings {

  const TwoTo16: int := 0x1_0000
  const TwoTo31: int := 0x8000_0000
  const TwoTo32: int := 0x1_0000_0000

  /** A Java `int`. */
  newtype Int32 = x: int | -0x8000_0000 <= x < 0x8000_0000

  /** A UTF-16 code unit. */
  type CodeUnit = x: int | 0 <= x < 0x1_0000

  /** The UTF-16 code units of one Unicode scalar value: one unit below
      U+10000, otherwise a high and a low surrogate. */
  function Utf16(c: char): (r: seq<CodeUnit>)
    ensures 1 <= |r| <= 2
    ensures (c as int) < TwoTo16 <==> |r| == 1
    ensures |r| == 1 ==> r[0] == c as int
    ensures |r| == 2 ==> 0xD800 <= r[0] < 0xDC00 <= r[1] < 0xE000
    ensures |r| == 2 ==> (r[0] - 0xD800) * 0x400 + (r[1] - 0xDC00) + TwoTo16 == c as int
  {
    var v := c as int;
    if v < TwoTo16 then [v]
    else
      var u := v - TwoTo16;
      [0xD800 + u / 0x400, 0xDC00 + u % 0x400]
  }

  /** The UTF-16 encoding of a whole string: the sequence Java's `String` holds. */
  function Utf16String(s: string): (r: seq<CodeUnit>)
    ensures |s| <= |r| <= 2 * |s|
  {
    if s == [] then [] else Utf16(s[0]) + Utf16String(s[1..])
  }

  /** `h = 31 * h + unit` over the code units, with Java's 32-bit wrap-around;
      the result is kept as the unsigned bit pattern. */
  function HashBits(units: seq<CodeUnit>, h: nat): (r: nat)
    requires h < TwoTo32
    ensures r < TwoTo32
  {
    if units == [] then h else HashBits(units[1..], (31 * h + units[0]) % TwoTo32)
  }

  /** Reads a 32-bit pattern as a two's-complement Java `int`. */
  function ToInt32(bits: nat): (r: Int32)
    requires bits < TwoTo32
    ensures (r as int) % TwoTo32 == bits
  {
    if bits < TwoTo31 then bits as Int32 else (bits - TwoTo32) as Int32
  }

  /** `String.hashCode()`. */
  function HashCode(s: string): Int32 {
    ToInt32(HashBits(Utf16String(s), 0))
  }

  /** The empty string hashes to 0, as `String.hashCode` documents. */
  lemma EmptyHashIsZero()
    ensures HashCode("") == 0
  {
  }

  /** A string of one code unit hashes to that unit, for instance "a" to 97. */
  lemma SingleUnitHash(c: char)
    requires (c as int) < TwoTo16
    ensures HashCode([c]) as int == c as int
  {
    assert [c][1..] == [];
    assert Utf16String([c]) == [c as int];
    var units: seq<CodeUnit> := [c as int];
    assert HashBits(units, 0) == HashBits(units[1..], (c as int) % TwoTo32);
    assert units[1..] == [];
  }
}
