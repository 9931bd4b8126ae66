/** Bytes, byte strings and the result type shared by every component. */
module Bytes {
  type byte = b: int | 0 <= b < 256

  type u8 = byte
  type u16 = n: int | 0 <= n < 0x1_0000
  type u24 = n: int | 0 <= n < 0x100_0000
  type u32 = n: int | 0 <= n < 0x1_0000_0000
  type s16 = n: int | -0x8000 <= n < 0x8000
  type s24 = n: int | -0x80_0000 <= n < 0x80_0000
  type s32 = n: int | -0x8000_0000 <= n < 0x8000_0000

  datatype Result<+T> = Ok(value: T) | Err

  /** A byte string of `n` zeros. */
  function Zeros(n: nat): (s: seq<byte>)
    ensures |s| == n
  {
    seq(n, _ => 0)
  }

  /** A half-open range of byte positions. */
  datatype Range = Range(start: nat, end: nat) {
    predicate Has(i: int) { start <= i < end }
  }

  predicate Covered(gaps: seq<Range>, i: int) {
    exists k :: 0 <= k < |gaps| && gaps[k].Has(i)
  }

  /** `data` with every byte inside one of the ranges cleared. */
  function Blank(data: seq<byte>, gaps: seq<Range>): (s: seq<byte>)
    ensures |s| == |data|
  {
    seq(|data|, i requires 0 <= i < |data| => if Covered(gaps, i) then 0 else data[i])
  }


  /** A word from its bytes, most significant first, and back. */
  function Join(b3: int, b2: int, b1: int, b0: int): int {
    b3 * 0x100_0000 + b2 * 0x1_0000 + b1 * 0x100 + b0
  }

  function Digit(v: u32, place: nat): byte
    requires place < 4
  {
    (if place == 0 then v
     else if place == 1 then v / 0x100
     else if place == 2 then v / 0x1_0000
     else v / 0x100_0000) % 0x100
  }

  lemma JoinDigits(v: u32)
    ensures Join(Digit(v, 3), Digit(v, 2), Digit(v, 1), Digit(v, 0)) == v
  {
    var a, b, c := v / 0x100, v / 0x1_0000, v / 0x100_0000;
    assert v == a * 0x100 + v % 0x100;
    assert b == a / 0x100 && a == b * 0x100 + a % 0x100;
    assert c == b / 0x100 && b == c * 0x100 + b % 0x100;
    assert c < 0x100;
  }

  lemma DigitsJoin(b3: byte, b2: byte, b1: byte, b0: byte)
    ensures var v := Join(b3, b2, b1, b0);
            0 <= v < 0x1_0000_0000 && Digit(v, 3) == b3 && Digit(v, 2) == b2 && Digit(v, 1) == b1 && Digit(v, 0) == b0
  {
    var v := Join(b3, b2, b1, b0);
    assert v / 0x100 == b3 * 0x1_0000 + b2 * 0x100 + b1;
    assert v / 0x1_0000 == b3 * 0x100 + b2;
    assert v / 0x100_0000 == b3;
  }

  function PutLE32(v: u32): (s: seq<byte>)
    ensures |s| == 4
  {
    [Digit(v, 0), Digit(v, 1), Digit(v, 2), Digit(v, 3)]
  }

  function GetLE32(s: seq<byte>, pos: nat): u32
    requires pos + 4 <= |s|
  {
    DigitsJoin(s[pos + 3], s[pos + 2], s[pos + 1], s[pos]);
    Join(s[pos + 3], s[pos + 2], s[pos + 1], s[pos])
  }

  lemma LE32RoundTrip(before: seq<byte>, v: u32, after: seq<byte>)
    ensures GetLE32(before + PutLE32(v) + after, |before|) == v
  {
    JoinDigits(v);
  }

  function PutBE16(v: int): (s: seq<byte>)
    requires 0 <= v < 0x1_0000
    ensures |s| == 2
  {
    [Digit(v, 1), Digit(v, 0)]
  }

  function PutBE32(v: u32): (s: seq<byte>)
    ensures |s| == 4
  {
    [Digit(v, 3), Digit(v, 2), Digit(v, 1), Digit(v, 0)]
  }

  function GetBE32(s: seq<byte>, pos: nat): u32
    requires pos + 4 <= |s|
  {
    DigitsJoin(s[pos], s[pos + 1], s[pos + 2], s[pos + 3]);
    Join(s[pos], s[pos + 1], s[pos + 2], s[pos + 3])
  }
}
