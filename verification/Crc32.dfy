/** CRC-32 as in section 8 of RFC 1952: the bit-serial definition, the nibble table, streaming over
    blanked windows, and composition by matrices over GF(2). */
module Crc32 {
  import opened Bytes

  const POLYNOMIAL: bv32 := 0xEDB88320
  const ONES: bv32 := 0xFFFFFFFF

  function Word(b: byte): bv32 { (b as bv8) as bv32 }

  function Xor(a: bv32, b: bv32): bv32 { a ^ b }

  function Half(a: bv32): bv32 { a >> 1 }

  function Double(a: bv32): bv32 { a << 1 }

  function Low(a: bv32): bv32 { a & 1 }

  /** One shift of the register. */
  function Step(c: bv32): bv32 { (c >> 1) ^ (POLYNOMIAL & (0 - (c & 1))) }

  /** `n` shifts of the register. */
  function Steps(c: bv32, n: nat): bv32
    decreases n
  {
    if n == 0 then c else Steps(Step(c), n - 1)
  }

  /** The register after consuming `data`. */
  function Fold(c: bv32, data: seq<byte>): bv32
    decreases |data|
  {
    if data == [] then c else Fold(Steps(Xor(c, Word(data[0])), 8), data[1..])
  }

  /** zlib's `crc32(data, crc)`: resume from the checksum of what came before. */
  function Continue(crc: bv32, data: seq<byte>): bv32 { Xor(Fold(Xor(crc, ONES), data), ONES) }

  function Crc(data: seq<byte>): bv32 { Continue(0, data) }

  // ---- the register is linear ---------------------------------------------------------------

  lemma XorCommutes(a: bv32, b: bv32)
    ensures Xor(a, b) == Xor(b, a)
  {
  }

  lemma XorAssociates(a: bv32, b: bv32, c: bv32)
    ensures Xor(Xor(a, b), c) == Xor(a, Xor(b, c))
  {
  }

  lemma XorCancels(a: bv32, b: bv32)
    ensures Xor(Xor(a, b), b) == a
  {
  }

  lemma XorZero(a: bv32)
    ensures Xor(a, 0) == a && Xor(0, a) == a
  {
  }

  lemma XorLaws(a: bv32, b: bv32, c: bv32)
    ensures Xor(a, b) == Xor(b, a)
    ensures Xor(Xor(a, b), c) == Xor(a, Xor(b, c))
    ensures Xor(a, 0) == a && Xor(0, a) == a
    ensures Xor(Xor(a, b), b) == a
  {
    XorCommutes(a, b);
    XorAssociates(a, b, c);
    XorCancels(a, b);
    XorZero(a);
  }

  lemma XorBits(a: bv32, b: bv32)
    ensures (a ^ b) >> 1 == (a >> 1) ^ (b >> 1)
    ensures (a ^ b) & 1 == (a & 1) ^ (b & 1)
  {
  }

  lemma LowBit(a: bv32)
    ensures a & 1 == 0 || a & 1 == 1
  {
  }

  lemma XorSwap(p: bv32, q: bv32, r: bv32)
    ensures (p ^ q) ^ r == (p ^ r) ^ q
    ensures (p ^ r) ^ (q ^ r) == p ^ q
    ensures (p ^ q) ^ r == p ^ (q ^ r)
  {
  }

  lemma StepXor(a: bv32, b: bv32)
    ensures Step(Xor(a, b)) == Xor(Step(a), Step(b))
  {
    XorBits(a, b);
    LowBit(a);
    LowBit(b);
    XorSwap(a >> 1, b >> 1, POLYNOMIAL);
    if a & 1 == 0 {
    } else {
    }
  }

  lemma {:induction false} StepsXor(a: bv32, b: bv32, n: nat)
    ensures Steps(Xor(a, b), n) == Xor(Steps(a, n), Steps(b, n))
    decreases n
  {
    if n > 0 {
      StepXor(a, b);
      StepsXor(Step(a), Step(b), n - 1);
    }
  }

  lemma {:induction false} StepsAdd(c: bv32, m: nat, n: nat)
    ensures Steps(Steps(c, m), n) == Steps(c, m + n)
    decreases m
  {
    if m > 0 {
      StepsAdd(Step(c), m - 1, n);
    }
  }

  /** A difference in the register passes through any data unchanged by the data. */
  lemma {:induction false} FoldXor(a: bv32, b: bv32, data: seq<byte>)
    ensures Fold(Xor(a, b), data) == Xor(Fold(a, data), Steps(b, 8 * |data|))
    decreases |data|
  {
    if data != [] {
      var w := Word(data[0]);
      XorLaws(a, b, w);
      XorLaws(b, w, a);
      XorLaws(a, w, b);
      StepsXor(Xor(a, w), b, 8);
      FoldXor(Steps(Xor(a, w), 8), Steps(b, 8), data[1..]);
      StepsAdd(b, 8, 8 * |data[1..]|);
    }
  }

  lemma {:induction false} FoldConcat(c: bv32, a: seq<byte>, b: seq<byte>)
    ensures Fold(c, a + b) == Fold(Fold(c, a), b)
    decreases |a|
  {
    if a == [] {
      assert a + b == b;
    } else {
      assert (a + b)[1..] == a[1..] + b;
      FoldConcat(Steps(Xor(c, Word(a[0])), 8), a[1..], b);
    }
  }

  /** Feeding a string in two pieces is the same as feeding it whole. */
  lemma ContinueConcat(crc: bv32, a: seq<byte>, b: seq<byte>)
    ensures Continue(Continue(crc, a), b) == Continue(crc, a + b)
  {
    XorLaws(Fold(Xor(crc, ONES), a), ONES, 0);
    FoldConcat(Xor(crc, ONES), a, b);
  }

  /** The checksum of the empty string is zero. */
  lemma CrcEmpty()
    ensures Crc([]) == 0
  {
  }

  /** The law behind checksum composition: the first part's checksum, shifted past the second
      part, plus the second part's checksum. */
  lemma CrcConcat(a: seq<byte>, b: seq<byte>)
    ensures Crc(a + b) == Xor(Steps(Crc(a), 8 * |b|), Crc(b))
  {
    ContinueConcat(0, a, b);
    var shifted, tail := Steps(Crc(a), 8 * |b|), Fold(ONES, b);
    XorLaws(0, ONES, 0);
    XorLaws(Crc(a), ONES, 0);
    FoldXor(ONES, Crc(a), b);
    XorLaws(tail, shifted, ONES);
    XorLaws(shifted, tail, ONES);
  }

  // ---- matrices over GF(2) ------------------------------------------------------------------

  type Matrix = m: seq<bv32> | |m| == 32 witness seq(32, _ => 0)

  /** `v` has at most `k` significant bits. */
  predicate Fits(v: bv32, k: nat)
    decreases k
  {
    if k == 0 then v == 0 else Fits(Half(v), k - 1)
  }

  function Shl(v: bv32, k: nat): bv32
    decreases k
  {
    if k == 0 then v else Shl(Double(v), k - 1)
  }

  /** The sum of the columns from `i` on that the bits of `v` select. */
  function Select(m: Matrix, v: bv32, i: nat): bv32
    requires i <= 32 && Fits(v, 32 - i)
    decreases 32 - i
  {
    if v == 0 then 0
    else Xor(if Low(v) == 1 then m[i] else 0, Select(m, Half(v), i + 1))
  }

  /** The matrix of `n` shifts of the register: column `i` is where bit `i` goes. */
  ghost predicate ShiftMatrix(m: Matrix, n: nat) {
    forall i :: 0 <= i < 32 ==> m[i] == Steps(Shl(1, i), n)
  }

  function Halves(v: bv32, k: nat): bv32
    decreases k
  {
    if k == 0 then v else Halves(Half(v), k - 1)
  }

  lemma {:induction false} FitsHalves(v: bv32, k: nat)
    ensures Fits(v, k) == (Halves(v, k) == 0)
    decreases k
  {
    if k > 0 {
      FitsHalves(Half(v), k - 1);
    }
  }

  lemma {:induction false} HalvesAdd(v: bv32, j: nat, k: nat)
    ensures Halves(Halves(v, j), k) == Halves(v, j + k)
    decreases j
  {
    if j > 0 {
      HalvesAdd(Half(v), j - 1, k);
    }
  }

  lemma Halves4(v: bv32)
    ensures Halves(v, 4) == v >> 4
  {
    assert Halves(v, 4) == Half(Half(Half(Half(v))));
  }

  lemma Halves8(v: bv32)
    ensures Halves(v, 8) == v >> 8
  {
    HalvesAdd(v, 4, 4);
    Halves4(v);
    Halves4(v >> 4);
  }

  lemma Halves16(v: bv32)
    ensures Halves(v, 16) == v >> 16
  {
    HalvesAdd(v, 8, 8);
    Halves8(v);
    Halves8(v >> 8);
  }

  lemma EveryWordFits(v: bv32)
    ensures Fits(v, 32)
  {
    FitsHalves(v, 32);
    HalvesAdd(v, 16, 16);
    Halves16(v);
    Halves16(v >> 16);
    assert (v >> 16) >> 16 == 0;
  }

  lemma DoubleXor(a: bv32, b: bv32)
    ensures Double(Xor(a, b)) == Xor(Double(a), Double(b))
  {
  }

  lemma {:induction false} ShlXor(a: bv32, b: bv32, k: nat)
    ensures Shl(Xor(a, b), k) == Xor(Shl(a, k), Shl(b, k))
    decreases k
  {
    if k > 0 {
      DoubleXor(a, b);
      ShlXor(Double(a), Double(b), k - 1);
    }
  }

  lemma {:induction false} ZeroIsFixed(n: nat)
    ensures Steps(0, n) == 0 && Shl(0, n) == 0
    decreases n
  {
    if n > 0 {
      ZeroStep();
      ZeroIsFixed(n - 1);
    }
  }

  lemma ZeroStep()
    ensures Step(0) == 0 && Double(0) == 0
  {
  }

  lemma SplitLowBit(v: bv32)
    ensures v == Xor(Low(v), Double(Half(v)))
    ensures Low(v) == 0 || Low(v) == 1
  {
  }

  /** A shift matrix acts on every vector as the shifts themselves. */
  lemma {:induction false} SelectShifts(m: Matrix, n: nat, v: bv32, i: nat)
    requires ShiftMatrix(m, n)
    requires i <= 32 && Fits(v, 32 - i)
    ensures Select(m, v, i) == Steps(Shl(v, i), n)
    decreases 32 - i
  {
    ZeroIsFixed(i);
    ZeroIsFixed(n);
    if v != 0 {
      SplitLowBit(v);
      ShlXor(Low(v), Double(Half(v)), i);
      StepsXor(Shl(Low(v), i), Shl(Double(Half(v)), i), n);
      SelectShifts(m, n, Half(v), i + 1);
    }
  }

  /** Mirrors `matrix_times`. */
  method MatrixTimes(matrix: Matrix, vector: bv32) returns (result: bv32)
    ensures Fits(vector, 32) && result == Select(matrix, vector, 0)
  {
    EveryWordFits(vector);
    var v, index := vector, 0;
    result := 0;
    XorLaws(Select(matrix, vector, 0), 0, 0);
    while v != 0
      invariant index <= 32 && Fits(v, 32 - index)
      invariant Xor(result, Select(matrix, v, index)) == Select(matrix, vector, 0)
      decreases 32 - index
    {
      ghost var rest := Select(matrix, Half(v), index + 1);
      SplitLowBit(v);
      XorLaws(result, matrix[index], rest);
      XorLaws(rest, 0, 0);
      if Low(v) == 1 {
        result := Xor(result, matrix[index]);
      }
      v := Half(v);
      index := index + 1;
    }
    XorLaws(result, 0, 0);
  }

  /** Column by column, the square of a shift matrix doubles its shifts. */
  lemma SquareShifts(matrix: Matrix, square: Matrix, n: nat)
    requires ShiftMatrix(matrix, n)
    requires forall i :: 0 <= i < 32 ==> Fits(matrix[i], 32) && square[i] == Select(matrix, matrix[i], 0)
    ensures ShiftMatrix(square, 2 * n)
  {
    forall i | 0 <= i < 32
      ensures square[i] == Steps(Shl(1, i), 2 * n)
    {
      SelectShifts(matrix, n, matrix[i], 0);
      StepsAdd(Shl(1, i), n, n);
    }
  }

  /** Mirrors `matrix_square`: the square of a shift matrix doubles its shifts. */
  method MatrixSquare(matrix: Matrix) returns (square: Matrix)
    ensures forall n: nat :: ShiftMatrix(matrix, n) ==> ShiftMatrix(square, 2 * n)
  {
    var rows: seq<bv32> := [];
    while |rows| < 32
      invariant |rows| <= 32
      invariant forall i :: 0 <= i < |rows| ==> Fits(matrix[i], 32) && rows[i] == Select(matrix, matrix[i], 0)
    {
      var row := MatrixTimes(matrix, matrix[|rows|]);
      rows := rows + [row];
    }
    square := rows;
    forall n: nat | ShiftMatrix(matrix, n)
      ensures ShiftMatrix(square, 2 * n)
    {
      SquareShifts(matrix, square, n);
    }
  }

  lemma Halves31(v: bv32)
    ensures Halves(v, 31) == v >> 31
  {
    HalvesAdd(v, 16, 15);
    Halves16(v);
    var w := v >> 16;
    HalvesAdd(w, 8, 7);
    Halves8(w);
    var x := w >> 8;
    HalvesAdd(x, 4, 3);
    Halves4(x);
    var y := x >> 4;
    assert Halves(y, 3) == Halves(Half(y), 2) == Halves(Half(Half(y)), 1);
  }

  lemma {:induction false} FitsMore(v: bv32, k: nat, more: nat)
    requires Fits(v, k)
    ensures Fits(v, k + more)
    decreases k + more
  {
    if k > 0 {
      FitsMore(Half(v), k - 1, more);
    } else if more > 0 {
      assert Half(0) == 0;
      FitsMore(Half(v), 0, more - 1);
    }
  }

  /** Doubling loses no bit of a 31-bit value, and one shift of the register undoes it. */
  lemma DoubleThenStep(v: bv32)
    requires Fits(v, 31)
    ensures Half(Double(v)) == v && Step(Double(v)) == v
  {
    FitsHalves(v, 31);
    Halves31(v);
    assert v >> 31 == 0;
    assert Half(Double(v)) == v;
    EvenStep(Double(v));
  }

  lemma EvenStep(v: bv32)
    requires Low(v) == 0
    ensures Step(v) == Half(v)
  {
  }

  lemma {:induction false} ShlTail(v: bv32, k: nat)
    ensures Shl(v, k + 1) == Double(Shl(v, k))
    decreases k
  {
    if k > 0 {
      ShlTail(Double(v), k - 1);
    }
  }

  lemma {:induction false} UnitFits(k: nat)
    requires k <= 31
    ensures Fits(Shl(1, k), k + 1)
  {
    if k == 0 {
      assert Half(1) == 0;
    } else {
      UnitFits(k - 1);
      ShlTail(1, k - 1);
      FitsMore(Shl(1, k - 1), k, 31 - k);
      DoubleThenStep(Shl(1, k - 1));
    }
  }

  lemma UnitStep(k: nat)
    requires k < 31
    ensures Step(Shl(1, k + 1)) == Shl(1, k)
  {
    UnitFits(k);
    FitsMore(Shl(1, k), k + 1, 30 - k);
    ShlTail(1, k);
    DoubleThenStep(Shl(1, k));
  }

  /** Mirrors the opening of `crc32_combine`: the matrix of a single shift. */
  method OneShift() returns (odd: Matrix)
    ensures ShiftMatrix(odd, 1)
  {
    var rows: seq<bv32> := [POLYNOMIAL];
    var row: bv32 := 1;
    assert Step(1) == POLYNOMIAL;
    while |rows| < 32
      invariant 1 <= |rows| <= 32 && row == Shl(1, |rows| - 1)
      invariant forall i :: 0 <= i < |rows| ==> rows[i] == Steps(Shl(1, i), 1)
    {
      UnitStep(|rows| - 1);
      assert Steps(Shl(1, |rows|), 1) == Steps(Step(Shl(1, |rows|)), 0);
      ShlTail(1, |rows| - 1);
      rows := rows + [row];
      row := Double(row);
    }
    odd := rows;
  }

  // ---- composition --------------------------------------------------------------------------

  /** Composition by plain shifting, one bit at a time. */
  function Combine(crc1: bv32, crc2: bv32, length2: int): bv32 {
    if length2 <= 0 then crc1 else Xor(Steps(crc1, 8 * length2), crc2)
  }

  /** Composing the checksums of two strings gives the checksum of their concatenation. */
  lemma CombineCorrect(a: seq<byte>, b: seq<byte>)
    ensures Combine(Crc(a), Crc(b), |b|) == Crc(a + b)
  {
    CrcConcat(a, b);
    if b == [] {
      assert a + b == a;
    }
  }

  lemma HalveShifts(p: nat, n: nat)
    ensures 8 * p * n == (if n % 2 == 1 then 8 * p else 0) + 8 * (2 * p) * (n / 2)
  {
    assert n == 2 * (n / 2) + n % 2;
    assert p * n == 2 * p * (n / 2) + p * (n % 2);
  }

  /** One turn of the squaring loop: apply the matrix if the low bit of the length is set. */
  method ApplyBit(matrix: Matrix, crc: bv32, length: nat) returns (result: bv32)
    ensures Fits(crc, 32) && result == if length % 2 == 1 then Select(matrix, crc, 0) else crc
  {
    EveryWordFits(crc);
    result := crc;
    if length % 2 == 1 {
      result := MatrixTimes(matrix, crc);
    }
  }

  /** A turn with the matrix of `8 * p` shifts takes the low bit off the shifts left to do. */
  lemma BitApplied(matrix: Matrix, crc: bv32, length: nat, p: nat, result: bv32)
    requires ShiftMatrix(matrix, 8 * p) && Fits(crc, 32)
    requires result == if length % 2 == 1 then Select(matrix, crc, 0) else crc
    ensures Steps(result, 8 * (2 * p) * (length / 2)) == Steps(crc, 8 * p * length)
  {
    HalveShifts(p, length);
    if length % 2 == 1 {
      SelectShifts(matrix, 8 * p, crc, 0);
      StepsAdd(crc, 8 * p, 8 * (2 * p) * (length / 2));
    }
  }

  /** Mirrors `crc32_combine`, in time logarithmic in the length. */
  method Crc32Combine(crc1: bv32, crc2: bv32, length2: int) returns (result: bv32)
    ensures result == Combine(crc1, crc2, length2)
  {
    if length2 <= 0 {
      return crc1;
    }
    var odd := OneShift();
    var even := MatrixSquare(odd);
    assert ShiftMatrix(even, 2 * 1);
    odd := MatrixSquare(even);
    assert ShiftMatrix(odd, 2 * 2);
    var crc, length := crc1, length2;
    ghost var p, before := 1, crc;
    while length != 0
      invariant length >= 0 && p >= 1
      invariant ShiftMatrix(odd, 4 * p)
      invariant Steps(crc, 8 * p * length) == Steps(crc1, 8 * length2)
    {
      even := MatrixSquare(odd);
      assert ShiftMatrix(even, 2 * (4 * p));
      before := crc;
      crc := ApplyBit(even, crc, length);
      BitApplied(even, before, length, p, crc);
      length := length / 2;
      p := 2 * p;
      if length == 0 {
        break;
      }
      odd := MatrixSquare(even);
      assert ShiftMatrix(odd, 2 * (4 * p));
      before := crc;
      crc := ApplyBit(odd, crc, length);
      BitApplied(odd, before, length, p, crc);
      length := length / 2;
      p := 2 * p;
    }
    result := Xor(crc, crc2);
  }

  lemma ZerosConcat(m: nat, n: nat)
    ensures Zeros(m) + Zeros(n) == Zeros(m + n)
  {
  }

  lemma HalveRest(size: nat, rest: nat)
    ensures size * rest == (if rest % 2 == 1 then size else 0) + (2 * size) * (rest / 2)
  {
    assert rest == 2 * (rest / 2) + rest % 2;
    assert size * rest == 2 * size * (rest / 2) + size * (rest % 2);
  }

  /** Mirrors `zero_crc`: the checksum of a run of zero bytes, by doubling. */
  method ZeroCrc(length: nat) returns (result: bv32)
    ensures result == Crc(Zeros(length))
  {
    hide Crc, Combine;
    result := 0;
    CrcEmpty();
    assert Zeros(0) == [];
    assert Zeros(1) == [0];
    var block := Crc([0]);
    var blockSize, rest := 1, length;
    ghost var done := 0;
    while rest != 0
      invariant rest >= 0 && blockSize >= 1
      invariant done + blockSize * rest == length
      invariant result == Crc(Zeros(done))
      invariant rest != 0 ==> block == Crc(Zeros(blockSize))
    {
      HalveRest(blockSize, rest);
      if rest % 2 == 1 {
        ZerosConcat(done, blockSize);
        CombineCorrect(Zeros(done), Zeros(blockSize));
        result := Crc32Combine(result, block, blockSize);
        done := done + blockSize;
      }
      rest := rest / 2;
      if rest != 0 {
        ZerosConcat(blockSize, blockSize);
        CombineCorrect(Zeros(blockSize), Zeros(blockSize));
        block := Crc32Combine(block, block, blockSize);
        blockSize := 2 * blockSize;
      }
    }
  }

  // ---- three ways to compute it -------------------------------------------------------------

  lemma {:induction false} FoldSnoc(c: bv32, data: seq<byte>, b: byte)
    ensures Fold(c, data + [b]) == Steps(Xor(Fold(c, data), Word(b)), 8)
  {
    FoldConcat(c, data, [b]);
    assert [b][1..] == [];
  }

  lemma FoldPrefix(c: bv32, data: seq<byte>, i: nat)
    requires i < |data|
    ensures Fold(c, data[..i + 1]) == Steps(Xor(Fold(c, data[..i]), Word(data[i])), 8)
  {
    assert data[..i + 1] == data[..i] + [data[i]];
    FoldSnoc(c, data[..i], data[i]);
  }

  lemma ZeroXorOnes()
    ensures Xor(0, ONES) == ONES
  {
  }

  lemma MaskedStep(c: bv32)
    ensures (c >> 1) ^ (POLYNOMIAL & (0 - (c & 1))) == Step(c)
  {
  }

  /** Mirrors `crc32` of the model loader: eight masked shifts for each byte. */
  method BitwiseCrc(data: seq<byte>) returns (crc: bv32)
    ensures crc == Crc(data)
  {
    crc := ONES;
    ZeroXorOnes();
    for i := 0 to |data|
      invariant crc == Fold(ONES, data[..i])
    {
      FoldPrefix(ONES, data, i);
      crc := Xor(crc, Word(data[i]));
      ghost var entry := crc;
      for bit := 0 to 8
        invariant Steps(crc, 8 - bit) == Steps(entry, 8)
      {
        var mask := 0 - Low(crc);
        MaskedStep(crc);
        crc := Xor(Half(crc), POLYNOMIAL & mask);
      }
    }
    assert data[..|data|] == data;
    crc := Xor(crc, ONES);
  }

  const TABLE: seq<bv32> := [
    0x00000000, 0x1DB71064, 0x3B6E20C8, 0x26D930AC, 0x76DC4190, 0x6B6B51F4, 0x4DB26158, 0x5005713C,
    0xEDB88320, 0xF00F9344, 0xD6D6A3E8, 0xCB61B38C, 0x9B64C2B0, 0x86D3D2D4, 0xA00AE278, 0xBDBDF21C
  ]

  function Nibble(c: bv32): bv32 { c & 0xF }

  function High(c: bv32): bv32 { c >> 4 }

  function Entry(c: bv32): bv32 {
    assert (c & 0xF) as int < 16;
    TABLE[(c & 0xF) as int]
  }

  function Upper(c: bv32): bv32 { c & 0xFFFFFFF0 }

  lemma SplitNibble(c: bv32)
    ensures c == Xor(Upper(c), Nibble(c))
    ensures Nibble(Upper(c)) == 0 && High(Upper(c)) == High(c)
    ensures Nibble(c) < 16 && Entry(Nibble(c)) == Entry(c)
  {
    assert (c & 0xF) & 0xF == c & 0xF;
  }

  lemma FourEvenSteps(c: bv32)
    requires Nibble(c) == 0
    ensures Steps(c, 4) == High(c)
  {
    var c1 := Half(c);
    assert Low(c) == 0 && Low(c1) == 0;
    EvenStep(c);
    EvenStep(c1);
    var c2 := Half(c1);
    assert Low(c2) == 0;
    EvenStep(c2);
    var c3 := Half(c2);
    assert Low(c3) == 0;
    EvenStep(c3);
    assert Half(c3) == High(c);
  }

  lemma TableEntry(n: bv32)
    requires n < 16
    ensures Steps(n, 4) == Entry(n)
  {
    var s := Step(Step(Step(Step(n))));
    assert Steps(n, 4) == s;
    if n < 8 {
      if n == 0 {} else if n == 1 {} else if n == 2 {} else if n == 3 {}
      else if n == 4 {} else if n == 5 {} else if n == 6 {} else { assert n == 7; }
    } else {
      if n == 8 {} else if n == 9 {} else if n == 10 {} else if n == 11 {}
      else if n == 12 {} else if n == 13 {} else if n == 14 {} else { assert n == 15; }
    }
  }

  /** Four shifts at once. */
  lemma NibbleSteps(c: bv32)
    ensures Steps(c, 4) == Xor(High(c), Entry(c))
  {
    hide Xor, Step;
    SplitNibble(c);
    var top := Upper(c);
    StepsXor(top, Nibble(c), 4);
    FourEvenSteps(top);
    TableEntry(Nibble(c));
  }

  lemma HighXor(a: bv32, b: bv32)
    ensures High(Xor(a, b)) == Xor(High(a), High(b))
  {
  }

  lemma ByteHasTwoNibbles(b: byte)
    ensures High(High(Word(b))) == 0
  {
  }

  /** Eight shifts by two table lookups. */
  lemma ByteByNibbles(crc: bv32, b: byte)
    ensures var first := Xor(High(crc), Entry(Xor(crc, Word(b))));
            Xor(High(first), Entry(Xor(first, High(Word(b))))) == Steps(Xor(crc, Word(b)), 8)
  {
    var w := Word(b);
    var first := Xor(High(crc), Entry(Xor(crc, w)));
    var mixed := Xor(first, High(w));
    NibbleSteps(Xor(crc, w));
    HighXor(crc, w);
    XorLaws(High(crc), High(w), Entry(Xor(crc, w)));
    XorLaws(High(w), Entry(Xor(crc, w)), 0);
    XorLaws(High(crc), Entry(Xor(crc, w)), High(w));
    StepsAdd(Xor(crc, w), 4, 4);
    assert Steps(Xor(crc, w), 4) == mixed;
    NibbleSteps(mixed);
    HighXor(first, High(w));
    ByteHasTwoNibbles(b);
    XorZero(High(first));
  }

  /** Mirrors `crc32` of the ghost runtime: sixteen-entry table, one window read as zeros. */
  method NibbleCrc(data: seq<byte>, zeroOffset: nat, zeroSize: nat) returns (crc: bv32)
    ensures crc == Crc(Blank(data, [Range(zeroOffset, zeroOffset + zeroSize)]))
  {
    ghost var gaps := [Range(zeroOffset, zeroOffset + zeroSize)];
    ghost var blanked := Blank(data, gaps);
    crc := ONES;
    ZeroXorOnes();
    for i := 0 to |data|
      invariant crc == Fold(ONES, blanked[..i])
    {
      FoldPrefix(ONES, blanked, i);
      var value: byte := if i >= zeroOffset && i - zeroOffset < zeroSize then 0 else data[i];
      assert gaps[0].Has(i) <==> i >= zeroOffset && i - zeroOffset < zeroSize;
      ByteByNibbles(crc, value);
      crc := Xor(High(crc), Entry(Xor(crc, Word(value))));
      crc := Xor(High(crc), Entry(Xor(crc, High(Word(value)))));
    }
    assert blanked[..|data|] == blanked;
    crc := Xor(crc, ONES);
  }

  predicate InBounds(gaps: seq<Range>, length: nat) {
    forall k :: 0 <= k < |gaps| ==> gaps[k].start <= gaps[k].end <= length
  }

  /** Mirrors `_crc32_zeroed`: clear the windows of a copy, then checksum the copy. */
  method CopiedCrc(data: seq<byte>, gaps: seq<Range>) returns (r: Result<bv32>)
    ensures r == if InBounds(gaps, |data|) then Ok(Crc(Blank(data, gaps))) else Err
  {
    var work := data;
    assert Blank(data, []) == data;
    for k := 0 to |gaps|
      invariant InBounds(gaps[..k], |data|)
      invariant work == Blank(data, gaps[..k])
    {
      var gap := gaps[k];
      assert gaps[..k + 1] == gaps[..k] + [gap];
      if !(gap.start <= gap.end <= |work|) {
        assert !InBounds(gaps, |data|);
        return Err;
      }
      ghost var before := work;
      work := work[..gap.start] + Zeros(gap.end - gap.start) + work[gap.end..];
      forall i | 0 <= i < |data|
        ensures work[i] == Blank(data, gaps[..k + 1])[i]
      {
        assert work[i] == if gap.Has(i) then 0 else before[i];
        CoveredSnoc(gaps[..k], gap, i);
      }
    }
    assert gaps[..|gaps|] == gaps;
    return Ok(Crc(work));
  }

  lemma CoveredSnoc(gaps: seq<Range>, gap: Range, i: int)
    ensures Covered(gaps + [gap], i) == (Covered(gaps, i) || gap.Has(i))
  {
    var all := gaps + [gap];
    assert all[|gaps|] == gap;
    if Covered(gaps, i) {
      var k :| 0 <= k < |gaps| && gaps[k].Has(i);
      assert all[k].Has(i);
    }
    if Covered(all, i) && !gap.Has(i) {
      var k :| 0 <= k < |all| && all[k].Has(i);
      assert gaps[k].Has(i);
    }
  }

  predicate SortedDisjoint(gaps: seq<Range>, length: nat) {
    && InBounds(gaps, length)
    && (forall j, k :: 0 <= j < k < |gaps| ==> gaps[j].end <= gaps[k].start)
  }

  /** Mirrors `crc_zeroed`: stream the kept pieces and fresh zeros for the windows between them. */
  method StreamedCrc(data: seq<byte>, gaps: seq<Range>) returns (crc: bv32)
    requires SortedDisjoint(gaps, |data|)
    ensures crc == Crc(Blank(data, gaps))
  {
    hide Continue, Blank;
    ghost var blanked := Blank(data, gaps);
    crc := 0;
    var offset := 0;
    assert blanked[..0] == [];
    CrcEmpty();
    for k := 0 to |gaps|
      invariant offset == if k == 0 then 0 else gaps[k - 1].end
      invariant offset <= |data|
      invariant crc == Crc(blanked[..offset])
    {
      var start, end := gaps[k].start, gaps[k].end;
      KeptPiece(data, gaps, k, offset, start);
      crc := Continue(crc, data[offset..start]);
      ContinueConcat(0, blanked[..offset], blanked[offset..start]);
      assert blanked[..offset] + blanked[offset..start] == blanked[..start];
      ClearedPiece(data, gaps, k);
      crc := Continue(crc, Zeros(end - start));
      ContinueConcat(0, blanked[..start], blanked[start..end]);
      assert blanked[..start] + blanked[start..end] == blanked[..end];
      offset := end;
    }
    KeptPiece(data, gaps, |gaps|, offset, |data|);
    assert data[offset..] == data[offset..|data|];
    crc := Continue(crc, data[offset..]);
    ContinueConcat(0, blanked[..offset], blanked[offset..]);
    assert blanked[..offset] + blanked[offset..] == blanked;
    assert blanked[offset..|data|] == blanked[offset..];
  }

  lemma ClearedPiece(data: seq<byte>, gaps: seq<Range>, k: nat)
    requires SortedDisjoint(gaps, |data|) && k < |gaps|
    ensures Blank(data, gaps)[gaps[k].start..gaps[k].end] == Zeros(gaps[k].end - gaps[k].start)
  {
    assert forall i :: gaps[k].start <= i < gaps[k].end ==> gaps[k].Has(i);
  }

  lemma KeptPiece(data: seq<byte>, gaps: seq<Range>, k: nat, offset: nat, start: nat)
    requires SortedDisjoint(gaps, |data|) && k <= |gaps| && offset <= start <= |data|
    requires offset == if k == 0 then 0 else gaps[k - 1].end
    requires k < |gaps| ==> start == gaps[k].start
    ensures Blank(data, gaps)[offset..start] == data[offset..start]
  {
    forall i, j | offset <= i < start && 0 <= j < |gaps|
      ensures !gaps[j].Has(i)
    {
      if j + 1 < k {
        assert gaps[j].end <= gaps[k - 1].start;
      } else if k < j {
        assert gaps[k].end <= gaps[j].start;
      }
    }
  }

  // ---- the published check value ------------------------------------------------------------

  function EightSteps(c: bv32): bv32 { Step(Step(Step(Step(Step(Step(Step(Step(c)))))))) }

  lemma EightAreSteps(c: bv32)
    ensures EightSteps(c) == Steps(c, 8)
  {
    hide Step;
    StepsAdd(c, 4, 4);
  }

  lemma Consumes(c: bv32, data: seq<byte>, next: bv32)
    requires data != [] && EightSteps(Xor(c, Word(data[0]))) == next
    ensures Fold(c, data) == Fold(next, data[1..])
  {
    hide Step, Xor, EightSteps;
    EightAreSteps(Xor(c, Word(data[0])));
  }

  const DIGITS: seq<byte> := [0x31, 0x32, 0x33, 0x34, 0x35, 0x36, 0x37, 0x38, 0x39]

  lemma DigitsFrom(c: bv32, i: nat, next: bv32)
    requires i < 9 && EightSteps(Xor(c, Word(DIGITS[i]))) == next
    ensures Fold(c, DIGITS[i..]) == Fold(next, DIGITS[i + 1..])
  {
    hide Fold, Xor, EightSteps, Word;
    assert DIGITS[i..][1..] == DIGITS[i + 1..];
    Consumes(c, DIGITS[i..], next);
  }

  lemma FirstDigits()
    ensures Fold(ONES, DIGITS) == Fold(0x641C1F5C, DIGITS[4..])
  {
    hide Fold, Steps;
    DigitsFrom(0xFFFFFFFF, 0, 0x7C231048);
    DigitsFrom(0x7C231048, 1, 0xB0ACBB32);
    DigitsFrom(0xB0ACBB32, 2, 0x77B79C2D);
    DigitsFrom(0x77B79C2D, 3, 0x641C1F5C);
    assert DIGITS[0..] == DIGITS;
  }

  lemma LastDigits()
    ensures Fold(0x641C1F5C, DIGITS[4..]) == 0x340BC6D9
  {
    hide Fold, Steps;
    DigitsFrom(0x641C1F5C, 4, 0x340AC5E3);
    DigitsFrom(0x340AC5E3, 5, 0xF68D2C9E);
    DigitsFrom(0xF68D2C9E, 6, 0xAFFC9660);
    DigitsFrom(0xAFFC9660, 7, 0x651F2550);
    DigitsFrom(0x651F2550, 8, 0x340BC6D9);
    assert DIGITS[9..] == [];
    FoldNone(0x340BC6D9);
  }

  /** The checksum of the nine digits is the value published for CRC-32. */
  lemma CheckValue()
    ensures Crc(DIGITS) == 0xCBF43926
  {
    hide Fold;
    FirstDigits();
    LastDigits();
  }

  lemma FoldNone(c: bv32)
    ensures Fold(c, []) == c
  {
  }
}
