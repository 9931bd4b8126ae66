/** The state stream around LZ4 blocks: a header, framed blocks, plain or packed, and a final Adler-32
    (RFC 1950, section 2.2). */
module Lml4 {
  import opened Bytes
  import Lz4

  const MAGIC := 0x4C4D_4C34
  const BLOCK := 0x2_0000
  const PLAIN_BIT := 0x8000_0000
  const ADLER_BASE := 65521

  // ---- Adler-32 -------------------------------------------------------------------------------

  /** The two running sums. */
  function Sums(data: seq<byte>): (int, int) {
    if data == [] then (1, 0)
    else
      var (a, b) := Sums(data[..|data| - 1]);
      ((a + data[|data| - 1]) % ADLER_BASE, (b + (a + data[|data| - 1]) % ADLER_BASE) % ADLER_BASE)
  }

  lemma {:induction false} SumsBounded(data: seq<byte>)
    ensures 0 <= Sums(data).0 < ADLER_BASE && 0 <= Sums(data).1 < ADLER_BASE
  {
  }

  function Adler(data: seq<byte>): u32 {
    SumsBounded(data);
    Sums(data).1 * 0x1_0000 + Sums(data).0
  }

  function Total(data: seq<byte>): nat { if data == [] then 0 else Total(data[..|data| - 1]) + data[|data| - 1] }

  /** The sum of the totals of every prefix. */
  function Totals(data: seq<byte>): nat { if data == [] then 0 else Totals(data[..|data| - 1]) + Total(data) }

  lemma ModAdd(x: int, y: int)
    ensures (x % ADLER_BASE + y) % ADLER_BASE == (x + y) % ADLER_BASE
    ensures (y + x % ADLER_BASE) % ADLER_BASE == (x + y) % ADLER_BASE
  {
    var q := x / ADLER_BASE;
    assert x % ADLER_BASE + y == x + y - ADLER_BASE * q;
    ModShift(x + y, q);
  }

  lemma ModShift(x: int, q: int)
    ensures (x - ADLER_BASE * q) % ADLER_BASE == x % ADLER_BASE
  {
    var a, b := (x - ADLER_BASE * q) / ADLER_BASE, x / ADLER_BASE;
    assert x - ADLER_BASE * q == ADLER_BASE * a + (x - ADLER_BASE * q) % ADLER_BASE;
    assert x == ADLER_BASE * b + x % ADLER_BASE;
  }

  /** Reducing at every step is reducing once: one plus the total, and the length plus all the totals. */
  lemma {:induction false} SumsClosed(data: seq<byte>)
    ensures Sums(data) == ((1 + Total(data)) % ADLER_BASE, (|data| + Totals(data)) % ADLER_BASE)
  {
    if data != [] {
      var front, x := data[..|data| - 1], data[|data| - 1] as int;
      SumsClosed(front);
      ModAdd(1 + Total(front), x);
      ModAdd(1 + Total(data), (|front| + Totals(front)) % ADLER_BASE);
      ModAdd(|front| + Totals(front), 1 + Total(data));
    }
  }

  // ---- streams --------------------------------------------------------------------------------

  datatype Piece = Plain(data: seq<byte>) | Packed(block: Lz4.Block)

  predicate PieceOk(p: Piece, raw: nat) {
    match p
    case Plain(data) => |data| == raw
    case Packed(block) => Lz4.Legal([], block, Lz4.NONE, raw) && |Lz4.Spell([], block)| < raw
  }

  function PieceData(p: Piece, raw: nat): (d: seq<byte>)
    requires PieceOk(p, raw)
    ensures |d| == raw
  {
    match p case Plain(data) => data case Packed(block) => Lz4.Data([], block)
  }

  function PieceBytes(p: Piece, raw: nat): seq<byte>
    requires PieceOk(p, raw)
  {
    match p case Plain(data) => data case Packed(block) => Lz4.Spell([], block)
  }

  function Raw(remaining: nat): nat { if remaining < BLOCK then remaining else BLOCK }

  /** Pieces that make up `remaining` bytes, each a full block but the last. */
  predicate PiecesOk(pieces: seq<Piece>, remaining: nat)
    decreases |pieces|
  {
    if remaining == 0 then pieces == []
    else pieces != [] && PieceOk(pieces[0], Raw(remaining)) && PiecesOk(pieces[1..], remaining - Raw(remaining))
  }

  function PiecesData(pieces: seq<Piece>, remaining: nat): (d: seq<byte>)
    requires PiecesOk(pieces, remaining)
    ensures |d| == remaining
    decreases |pieces|
  {
    if remaining == 0 then []
    else PieceData(pieces[0], Raw(remaining)) + PiecesData(pieces[1..], remaining - Raw(remaining))
  }

  lemma PieceShort(p: Piece, remaining: nat)
    requires remaining > 0 && PieceOk(p, Raw(remaining))
    ensures 0 < |PieceBytes(p, Raw(remaining))| <= Raw(remaining) <= BLOCK
  {
  }

  function Frame(p: Piece, remaining: nat): (f: seq<byte>)
    requires remaining > 0 && PieceOk(p, Raw(remaining))
    ensures |f| > 8
  {
    PieceShort(p, remaining);
    var bytes := PieceBytes(p, Raw(remaining));
    PutBE32(Raw(remaining)) + PutBE32(|bytes| + if p.Plain? then PLAIN_BIT else 0) + bytes
  }

  function Frames(pieces: seq<Piece>, remaining: nat): seq<byte>
    requires PiecesOk(pieces, remaining)
    decreases |pieces|
  {
    if remaining == 0 then [] else Frame(pieces[0], remaining) + Frames(pieces[1..], remaining - Raw(remaining))
  }

  function Stream(pieces: seq<Piece>, size: nat): seq<byte>
    requires PiecesOk(pieces, size)
  {
    PutBE32(MAGIC) + PutBE32(BLOCK) + Frames(pieces, size) + PutBE32(Adler(PiecesData(pieces, size)))
  }

  // ---- decoding -------------------------------------------------------------------------------

  /** One framed block: its data and the input after it. */
  function TakeBlock(rest: seq<byte>, remaining: nat): (r: Result<(seq<byte>, seq<byte>)>)
    requires remaining > 0
  {
    if |rest| < 12 then Err
    else
      var raw, flags := GetBE32(rest, 0), GetBE32(rest, 4);
      var size, plain := flags % PLAIN_BIT, flags >= PLAIN_BIT;
      if raw != Raw(remaining) || size == 0 ||
          (if plain then size != raw else size >= raw) || size > |rest| - 12 then Err
      else
        var bytes := rest[8..8 + size];
        var data := if plain then Ok(bytes) else Lz4.Parse(bytes, [], Lz4.NONE, raw);
        if data.Err? then Err else Ok((data.value, rest[8 + size..]))
  }

  function Prepend(data: seq<byte>, r: Result<(seq<byte>, seq<byte>)>): Result<(seq<byte>, seq<byte>)> {
    if r.Err? then Err else Ok((data + r.value.0, r.value.1))
  }

  lemma PrependTwice(a: seq<byte>, b: seq<byte>, r: Result<(seq<byte>, seq<byte>)>)
    ensures Prepend(a, Prepend(b, r)) == Prepend(a + b, r) && Prepend([], r) == r
  {
    if r.Ok? {
      assert a + (b + r.value.0) == a + b + r.value.0;
      assert [] + r.value.0 == r.value.0;
    }
  }

  /** Mirrors the block loop of `decode_fast`, `rest` starting at the next block; the input after the
      last block is returned with the data. */
  function Blocks(rest: seq<byte>, remaining: nat): Result<(seq<byte>, seq<byte>)>
    decreases remaining
  {
    if remaining == 0 then Ok(([], rest))
    else
      var first := TakeBlock(rest, remaining);
      if first.Err? then Err else Prepend(first.value.0, Blocks(first.value.1, remaining - Raw(remaining)))
  }

  function Decode(packed: seq<byte>, size: nat): Result<seq<byte>> {
    if |packed| < 12 || GetBE32(packed, 0) != MAGIC || GetBE32(packed, 4) != BLOCK then Err
    else
      match Blocks(packed[8..], size)
      case Err => Err
      case Ok((data, tail)) => if |tail| != 4 || GetBE32(tail, 0) != Adler(data) then Err else Ok(data)
  }

  lemma WordIn(before: seq<byte>, v: u32, after: seq<byte>)
    ensures GetBE32(before + PutBE32(v) + after, |before|) == v
  {
    JoinDigits(v);
  }

  lemma WordPut(s: seq<byte>, pos: nat)
    requires pos + 4 <= |s|
    ensures s[pos..pos + 4] == PutBE32(GetBE32(s, pos))
  {
    DigitsJoin(s[pos], s[pos + 1], s[pos + 2], s[pos + 3]);
  }

  lemma FrameFields(p: Piece, remaining: nat, rest: seq<byte>)
    requires remaining > 0 && PieceOk(p, Raw(remaining))
    ensures var bytes := PieceBytes(p, Raw(remaining));
            var all := Frame(p, remaining) + rest;
            && 0 < |bytes| <= Raw(remaining) && |all| == 8 + |bytes| + |rest|
            && GetBE32(all, 0) == Raw(remaining) && GetBE32(all, 4) == |bytes| + (if p.Plain? then PLAIN_BIT else 0)
            && all[8..8 + |bytes|] == bytes && all[8 + |bytes|..] == rest
  {
    hide PutBE32, GetBE32, PieceBytes;
    PieceShort(p, remaining);
    var raw, bytes := Raw(remaining), PieceBytes(p, Raw(remaining));
    var flags: u32 := |bytes| + if p.Plain? then PLAIN_BIT else 0;
    var all := Frame(p, remaining) + rest;
    assert all == [] + PutBE32(raw) + (PutBE32(flags) + bytes + rest);
    WordIn([], raw, PutBE32(flags) + bytes + rest);
    assert all == PutBE32(raw) + PutBE32(flags) + (bytes + rest);
    WordIn(PutBE32(raw), flags, bytes + rest);
  }

  /** One framed piece is decoded to its data. */
  lemma FrameDecodes(p: Piece, remaining: nat, rest: seq<byte>)
    requires remaining > 0 && PieceOk(p, Raw(remaining)) && |rest| >= 4
    ensures TakeBlock(Frame(p, remaining) + rest, remaining) == Ok((PieceData(p, Raw(remaining)), rest))
  {
    hide GetBE32, Lz4.Parse, Lz4.Spell, Lz4.Data, Lz4.Legal, Frame;
    FrameFields(p, remaining, rest);
    if p.Packed? {
      Lz4.ParseSpelled([], p.block, Lz4.NONE, Raw(remaining));
    }
  }

  lemma {:induction false} FramesDecode(pieces: seq<Piece>, remaining: nat, rest: seq<byte>)
    requires PiecesOk(pieces, remaining) && |rest| >= 4
    ensures Blocks(Frames(pieces, remaining) + rest, remaining) == Ok((PiecesData(pieces, remaining), rest))
    decreases |pieces|
  {
    hide TakeBlock, Frame, PieceData;
    if remaining == 0 {
      assert Frames(pieces, remaining) + rest == rest;
    } else {
      var more := Frames(pieces[1..], remaining - Raw(remaining)) + rest;
      FramesDecode(pieces[1..], remaining - Raw(remaining), rest);
      FrameDecodes(pieces[0], remaining, more);
      assert Frames(pieces, remaining) + rest == Frame(pieces[0], remaining) + more;
    }
  }

  /** Decoding inverts every legal stream: any data, cut into blocks, each plain or packed any legal way. */
  lemma DecodesStream(pieces: seq<Piece>, size: nat)
    requires PiecesOk(pieces, size)
    ensures Decode(Stream(pieces, size), size) == Ok(PiecesData(pieces, size))
  {
    hide PutBE32, GetBE32, Blocks, Frames, PiecesData;
    var data := PiecesData(pieces, size);
    var sum := PutBE32(Adler(data));
    var all := Stream(pieces, size);
    FramesDecode(pieces, size, sum);
    assert all == [] + PutBE32(MAGIC) + (PutBE32(BLOCK) + Frames(pieces, size) + sum);
    WordIn([], MAGIC, PutBE32(BLOCK) + Frames(pieces, size) + sum);
    assert all == PutBE32(MAGIC) + PutBE32(BLOCK) + (Frames(pieces, size) + sum);
    WordIn(PutBE32(MAGIC), BLOCK, Frames(pieces, size) + sum);
    assert all[8..] == Frames(pieces, size) + sum;
    assert sum == [] + sum + [];
    WordIn([], Adler(data), []);
  }

  /** An accepted block is a legal piece, framed. */
  lemma TakeSound(rest: seq<byte>, remaining: nat) returns (piece: Piece)
    requires remaining > 0 && TakeBlock(rest, remaining).Ok?
    ensures PieceOk(piece, Raw(remaining)) && rest == Frame(piece, remaining) + TakeBlock(rest, remaining).value.1
    ensures TakeBlock(rest, remaining).value.0 == PieceData(piece, Raw(remaining))
  {
    hide PutBE32, GetBE32, Lz4.Parse, Lz4.Spell, Lz4.Data, Lz4.Legal;
    var raw, flags := GetBE32(rest, 0), GetBE32(rest, 4);
    var size, plain := flags % PLAIN_BIT, flags >= PLAIN_BIT;
    var bytes := rest[8..8 + size];
    piece := Plain(bytes);
    if !plain {
      var block := Lz4.ParseSound(bytes, [], Lz4.NONE, raw);
      piece := Packed(block);
    }
    WordPut(rest, 0);
    WordPut(rest, 4);
    assert PieceBytes(piece, raw) == bytes;
    assert rest == rest[0..4] + rest[4..8] + bytes + rest[8 + size..];
  }

  /** An accepted block loop read legal pieces. */
  lemma {:induction false} BlocksSound(rest: seq<byte>, remaining: nat) returns (pieces: seq<Piece>)
    ensures Blocks(rest, remaining).Ok? ==>
              && PiecesOk(pieces, remaining) && rest == Frames(pieces, remaining) + Blocks(rest, remaining).value.1
              && Blocks(rest, remaining).value.0 == PiecesData(pieces, remaining)
    decreases remaining
  {
    hide TakeBlock, Frame, PieceOk, PieceData;
    if Blocks(rest, remaining).Err? {
      pieces := [];
    } else if remaining == 0 {
      pieces := [];
      assert rest == [] + rest;
    } else {
      var piece := TakeSound(rest, remaining);
      var after := TakeBlock(rest, remaining).value.1;
      var more := BlocksSound(after, remaining - Raw(remaining));
      pieces := [piece] + more;
      assert pieces[1..] == more;
      assert rest == Frame(piece, remaining) + Frames(more, remaining - Raw(remaining))
                     + Blocks(rest, remaining).value.1;
    }
  }

  /** Whatever is accepted is a legal stream of the returned data. */
  lemma DecodeSound(packed: seq<byte>, size: nat) returns (pieces: seq<Piece>)
    ensures Decode(packed, size).Ok? ==>
              && PiecesOk(pieces, size) && packed == Stream(pieces, size)
              && Decode(packed, size) == Ok(PiecesData(pieces, size))
  {
    hide PutBE32, GetBE32, Blocks, Frames, PiecesData;
    if Decode(packed, size).Err? {
      return [];
    }
    pieces := BlocksSound(packed[8..], size);
    var tail := Blocks(packed[8..], size).value.1;
    WordPut(packed, 0);
    WordPut(packed, 4);
    WordPut(tail, 0);
    assert tail == tail[0..4];
    assert packed == packed[0..4] + packed[4..8] + packed[8..];
    assert packed == PutBE32(MAGIC) + PutBE32(BLOCK) + (Frames(pieces, size) + tail);
    assert packed == PutBE32(MAGIC) + PutBE32(BLOCK) + Frames(pieces, size) + tail;
  }

  /** Mirrors `decode_fast` for a size that fits a word. */
  method DecodeFast(packed: seq<byte>, size: int) returns (r: Result<seq<byte>>)
    ensures r == if 0 <= size <= 0xFFFF_FFFF then Decode(packed, size) else Err
  {
    hide GetBE32, Lz4.Parse, Adler;
    if !(0 <= size <= 0xFFFF_FFFF) || |packed| < 12 || GetBE32(packed, 0) != MAGIC || GetBE32(packed, 4) != BLOCK {
      return Err;
    }
    var result: seq<byte> := [];
    var pos := 8;
    PrependTwice([], [], Blocks(packed[8..], size));
    while |result| < size
      invariant 8 <= pos <= |packed| && |result| <= size
      invariant Blocks(packed[8..], size) == Prepend(result, Blocks(packed[pos..], size - |result|))
      decreases size - |result|
    {
      if |packed| - pos < 12 {
        return Err;
      }
      var raw, flags := GetBE32(packed, pos), GetBE32(packed, pos + 4);
      Shifted(packed, pos);
      pos := pos + 8;
      var count, plain := flags % PLAIN_BIT, flags >= PLAIN_BIT;
      if raw != Raw(size - |result|) || count == 0 ||
          (if plain then count != raw else count >= raw) || count > |packed| - pos - 4 {
        return Err;
      }
      var bytes := packed[pos..pos + count];
      assert packed[pos - 8..][8..8 + count] == bytes;
      assert packed[pos - 8..][8 + count..] == packed[pos + count..];
      var data := Ok(bytes);
      if !plain {
        data := Lz4.DecodeBlock(bytes, raw);
      }
      if data.Err? {
        return Err;
      }
      DataLength(bytes, plain, raw);
      PrependTwice(result, data.value, Blocks(packed[pos + count..], size - |result| - raw));
      result := result + data.value;
      pos := pos + count;
    }
    assert result + [] == result;
    if |packed| - pos != 4 || GetBE32(packed, pos) != Adler(result) {
      if |packed| - pos == 4 {
        Shifted(packed, pos);
      }
      return Err;
    }
    Shifted(packed, pos);
    return Ok(result);
  }

  lemma Shifted(s: seq<byte>, pos: nat)
    requires pos + 4 <= |s|
    ensures GetBE32(s, pos) == GetBE32(s[pos..], 0)
    ensures pos + 8 <= |s| ==> GetBE32(s, pos + 4) == GetBE32(s[pos..], 4)
  {
  }

  lemma DataLength(bytes: seq<byte>, plain: bool, raw: nat)
    requires plain ==> |bytes| == raw
    ensures var data := if plain then Ok(bytes) else Lz4.Parse(bytes, [], Lz4.NONE, raw);
            data.Ok? ==> |data.value| == raw
  {
    if !plain && Lz4.Parse(bytes, [], Lz4.NONE, raw).Ok? {
      var block := Lz4.ParseSound(bytes, [], Lz4.NONE, raw);
    }
  }
}
