/** LZ4 blocks: what a sequence of copies means, how it is spelled, and the parser that accepts exactly
    the legal spellings. */
module Lz4 {
  import opened Bytes
  import opened Overlap

  const MIN_MATCH := 4
  const LAST_LITERALS := 5
  const LAST_MATCH := 12
  const NONE := -1

  type nibble = n: int | 0 <= n < 16
  type offset = n: int | 0 < n < 0x1_0000 witness 1

  /** Literals, then `length` bytes repeated from `distance` back. */
  datatype Sequence = Sequence(literals: seq<byte>, distance: offset, length: nat)

  /** A block's sequences and its final literals; `low` is the unused half of the final token. */
  datatype Block = Block(sequences: seq<Sequence>, last: seq<byte>, low: nibble)

  // ---- meaning --------------------------------------------------------------------------------

  predicate Fits(out: seq<byte>, s: Sequence) {
    s.distance <= |out| + |s.literals| && s.length >= MIN_MATCH
  }

  /** Append one sequence, copying byte by byte. */
  function Append(out: seq<byte>, s: Sequence): (r: seq<byte>)
    requires Fits(out, s)
    ensures |r| == |out| + |s.literals| + s.length
  {
    CopyForward(out + s.literals, |out| + |s.literals| - s.distance, s.length)
  }

  predicate AllFit(out: seq<byte>, sequences: seq<Sequence>)
    decreases |sequences|
  {
    sequences == [] || (Fits(out, sequences[0]) && AllFit(Append(out, sequences[0]), sequences[1..]))
  }

  function Expand(out: seq<byte>, sequences: seq<Sequence>): (r: seq<byte>)
    requires AllFit(out, sequences)
    ensures |out| <= |r|
    decreases |sequences|
  {
    if sequences == [] then out else Expand(Append(out, sequences[0]), sequences[1..])
  }

  /** Where the last match starts, or `previous` without one. */
  function MatchStart(out: seq<byte>, sequences: seq<Sequence>, previous: int): int
    requires AllFit(out, sequences)
    decreases |sequences|
  {
    if sequences == [] then previous
    else MatchStart(Append(out, sequences[0]), sequences[1..], |out| + |sequences[0].literals|)
  }

  /** The end-of-block conditions: the last five bytes are literals, and no match starts within the
      last twelve. */
  predicate Ends(last: seq<byte>, start: int, expected: nat) {
    start >= 0 ==> |last| >= LAST_LITERALS && start + LAST_MATCH <= expected
  }

  /** A legal continuation of `out` to `expected` bytes. */
  predicate Legal(out: seq<byte>, b: Block, previous: int, expected: nat) {
    && AllFit(out, b.sequences) && |Expand(out, b.sequences)| + |b.last| == expected
    && Ends(b.last, MatchStart(out, b.sequences, previous), expected)
  }

  function Data(out: seq<byte>, b: Block): seq<byte>
    requires AllFit(out, b.sequences)
  {
    Expand(out, b.sequences) + b.last
  }

  // ---- spelling -------------------------------------------------------------------------------

  function Short(v: nat): nibble { if v < 15 then v else 15 }

  function Extension(x: nat): (s: seq<byte>)
    ensures |s| > 0
  {
    if x < 255 then [x] else [255] + Extension(x - 255)
  }

  /** The bytes after a token's nibble. */
  function More(v: nat): seq<byte> { if v < 15 then [] else Extension(v - 15) }

  function Token(high: nibble, low: nibble): byte { high * 16 + low }

  function SpellSequence(s: Sequence): (r: seq<byte>)
    requires s.length >= MIN_MATCH
    ensures |r| > 2
  {
    [Token(Short(|s.literals|), Short(s.length - MIN_MATCH))] + More(|s.literals|) + s.literals
    + [s.distance % 0x100, s.distance / 0x100] + More(s.length - MIN_MATCH)
  }

  function Spell(out: seq<byte>, b: Block): (r: seq<byte>)
    requires AllFit(out, b.sequences)
    ensures |r| > 0
    decreases |b.sequences|
  {
    if b.sequences == [] then [Token(Short(|b.last|), b.low)] + More(|b.last|) + b.last
    else SpellSequence(b.sequences[0]) + Spell(Append(out, b.sequences[0]), b.(sequences := b.sequences[1..]))
  }

  // ---- parsing --------------------------------------------------------------------------------

  /** Length bytes up to one below 255, the sum never above `expected`. */
  function Extend(rest: seq<byte>, value: nat, expected: nat): (r: Result<(nat, seq<byte>)>)
    ensures r.Ok? ==> |r.value.1| <= |rest|
  {
    if rest == [] then Err
    else
      var next: nat := value + rest[0];
      if next > expected then Err
      else if rest[0] != 255 then Ok((next, rest[1..]))
      else Extend(rest[1..], next, expected)
  }

  function Length(rest: seq<byte>, initial: nibble, expected: nat): (r: Result<(nat, seq<byte>)>)
    ensures r.Ok? ==> |r.value.1| <= |rest|
  {
    if initial == 15 then Extend(rest, 15, expected) else Ok((initial, rest))
  }

  /** Mirrors `_block` from a sequence boundary on: `out` so far, `previous` the last match's start. */
  function Parse(rest: seq<byte>, out: seq<byte>, previous: int, expected: nat): Result<seq<byte>>
    decreases |rest|
  {
    if rest == [] then Err
    else
      var literals := Length(rest[1..], rest[0] / 16, expected);
      if literals.Err? || literals.value.0 > |literals.value.1| || |out| + literals.value.0 > expected then Err
      else
        var (n, after) := literals.value;
        var grown, tail := out + after[..n], after[n..];
        if tail == [] then
          if |grown| != expected || (previous >= 0 && (n < LAST_LITERALS || previous > expected - LAST_MATCH)) then Err
          else Ok(grown)
        else if |tail| < 2 then Err
        else
          var distance := tail[0] as int + tail[1] as int * 0x100;
          var length := Length(tail[2..], rest[0] % 16, expected);
          if distance == 0 || distance > |grown| || length.Err? ||
              |grown| + length.value.0 + MIN_MATCH > expected then Err
          else Parse(length.value.1, CopyForward(grown, |grown| - distance, length.value.0 + MIN_MATCH), |grown|,
                     expected)
  }

  // ---- every legal spelling is parsed to its meaning ------------------------------------------

  lemma {:induction false} ExtendSpelled(x: nat, rest: seq<byte>, value: nat, expected: nat)
    requires value + x <= expected
    ensures Extend(Extension(x) + rest, value, expected) == Ok((value + x, rest))
    decreases x
  {
    var all := Extension(x) + rest;
    if x < 255 {
      assert all == [x] + rest;
      assert all[1..] == rest;
    } else {
      ExtendSpelled(x - 255, rest, value + 255, expected);
      assert all == [255] + (Extension(x - 255) + rest);
      assert all[1..] == Extension(x - 255) + rest;
    }
  }

  lemma LengthSpelled(v: nat, rest: seq<byte>, expected: nat)
    requires v <= expected
    ensures Length(More(v) + rest, Short(v), expected) == Ok((v, rest))
  {
    if v < 15 {
      assert More(v) + rest == rest;
    } else {
      ExtendSpelled(v - 15, rest, 15, expected);
    }
  }

  lemma TokenParts(high: nibble, low: nibble)
    ensures Token(high, low) / 16 == high && Token(high, low) % 16 == low
  {
  }

  lemma ParseLast(out: seq<byte>, last: seq<byte>, low: nibble, previous: int, expected: nat)
    requires |out| + |last| == expected && Ends(last, previous, expected)
    ensures Parse([Token(Short(|last|), low)] + More(|last|) + last, out, previous, expected) == Ok(out + last)
  {
    hide Token, More, Length;
    var head := [Token(Short(|last|), low)];
    var rest := head + More(|last|) + last;
    TokenParts(Short(|last|), low);
    LengthSpelled(|last|, last, expected);
    assert rest[1..] == More(|last|) + last;
    assert last[..|last|] == last && last[|last|..] == [];
  }

  lemma DistanceBytes(d: offset)
    ensures d % 0x100 + d / 0x100 * 0x100 == d
  {
  }

  lemma ParseSequence(out: seq<byte>, s: Sequence, rest: seq<byte>, previous: int, expected: nat)
    requires Fits(out, s) && |Append(out, s)| <= expected && rest != []
    ensures Parse(SpellSequence(s) + rest, out, previous, expected)
            == Parse(rest, Append(out, s), |out| + |s.literals|, expected)
  {
    hide Token, More, Length, CopyForward;
    var n, m := |s.literals|, s.length - MIN_MATCH;
    var pair: seq<byte> := [s.distance % 0x100, s.distance / 0x100];
    var third := More(m) + rest;
    var second := s.literals + (pair + third);
    var all := SpellSequence(s) + rest;
    assert all == [Token(Short(n), Short(m))] + (More(n) + second);
    assert all[1..] == More(n) + second;
    TokenParts(Short(n), Short(m));
    LengthSpelled(n, second, expected);
    assert second[..n] == s.literals && second[n..] == pair + third;
    assert (pair + third)[2..] == third && (pair + third)[0] == pair[0] && (pair + third)[1] == pair[1];
    DistanceBytes(s.distance);
    LengthSpelled(m, rest, expected);
  }

  lemma {:induction false} ExpandLength(out: seq<byte>, sequences: seq<Sequence>)
    requires AllFit(out, sequences) && sequences != []
    ensures |Append(out, sequences[0])| <= |Expand(out, sequences)|
  {
  }

  /** Parsing any legal spelling returns what the block means. */
  lemma {:induction false} ParseSpelled(out: seq<byte>, b: Block, previous: int, expected: nat)
    requires Legal(out, b, previous, expected)
    ensures Parse(Spell(out, b), out, previous, expected) == Ok(Data(out, b))
    decreases |b.sequences|
  {
    hide Append, Parse, SpellSequence;
    if b.sequences == [] {
      ParseLast(out, b.last, b.low, previous, expected);
    } else {
      var s, more := b.sequences[0], b.(sequences := b.sequences[1..]);
      ExpandLength(out, b.sequences);
      ParseSequence(out, s, Spell(Append(out, s), more), previous, expected);
      ParseSpelled(Append(out, s), more, |out| + |s.literals|, expected);
    }
  }

  // ---- nothing else is accepted ---------------------------------------------------------------

  lemma {:induction false} ExtendSound(rest: seq<byte>, value: nat, expected: nat)
    requires Extend(rest, value, expected).Ok?
    ensures var (v, after) := Extend(rest, value, expected).value;
            value <= v <= expected && rest == Extension(v - value) + after
    decreases |rest|
  {
    var next: nat := value + rest[0];
    if rest[0] == 255 {
      ExtendSound(rest[1..], next, expected);
      var (v, after) := Extend(rest, value, expected).value;
      assert rest == [rest[0]] + rest[1..];
      assert Extension(v - value) == [255] + Extension(v - next);
      assert [255] + (Extension(v - next) + after) == Extension(v - value) + after;
    } else {
      assert rest == [rest[0]] + rest[1..];
    }
  }

  lemma LengthSound(rest: seq<byte>, initial: nibble, expected: nat)
    requires Length(rest, initial, expected).Ok?
    ensures var (v, after) := Length(rest, initial, expected).value; initial == Short(v) && rest == More(v) + after
  {
    if initial == 15 {
      ExtendSound(rest, 15, expected);
    } else {
      assert rest == [] + rest;
    }
  }

  lemma TokenWhole(t: byte)
    ensures Token(t / 16, t % 16) == t
  {
  }

  /** The literals an accepted input starts with. */
  lemma LiteralsSound(rest: seq<byte>, out: seq<byte>, previous: int, expected: nat)
    returns (literals: seq<byte>, tail: seq<byte>)
    requires Parse(rest, out, previous, expected).Ok?
    ensures rest == [rest[0]] + More(|literals|) + literals + tail && rest[0] / 16 == Short(|literals|)
    ensures Length(rest[1..], rest[0] / 16, expected) == Ok((|literals|, literals + tail))
    ensures |out| + |literals| <= expected
  {
    hide Token, More, Length, CopyForward;
    LengthSound(rest[1..], rest[0] / 16, expected);
    var (n, after) := Length(rest[1..], rest[0] / 16, expected).value;
    literals, tail := after[..n], after[n..];
    assert after == literals + tail;
    assert rest == [rest[0]] + rest[1..];
    assert rest == [rest[0]] + (More(n) + (literals + tail));
    assert [rest[0]] + More(n) + literals + tail == [rest[0]] + (More(n) + (literals + tail));
  }

  lemma FinalSound(rest: seq<byte>, out: seq<byte>, previous: int, expected: nat, literals: seq<byte>)
    returns (b: Block)
    requires Parse(rest, out, previous, expected).Ok?
    requires Length(rest[1..], rest[0] / 16, expected) == Ok((|literals|, literals))
    requires rest[0] / 16 == Short(|literals|)
    requires rest == [rest[0]] + More(|literals|) + literals
    ensures b.sequences == [] && Legal(out, b, previous, expected) && rest == Spell(out, b)
    ensures Parse(rest, out, previous, expected) == Ok(Data(out, b))
  {
    hide Token, More, Length, CopyForward;
    TokenWhole(rest[0]);
    b := Block([], literals, rest[0] % 16);
    assert literals[..|literals|] == literals && literals[|literals|..] == [];
  }

  lemma SequenceSound(rest: seq<byte>, out: seq<byte>, previous: int, expected: nat, literals: seq<byte>,
                      tail: seq<byte>)
      returns (s: Sequence, more: seq<byte>)
    requires Parse(rest, out, previous, expected).Ok? && tail != []
    requires Length(rest[1..], rest[0] / 16, expected) == Ok((|literals|, literals + tail))
    requires rest[0] / 16 == Short(|literals|)
    requires rest == [rest[0]] + More(|literals|) + literals + tail
    ensures s.literals == literals && Fits(out, s) && rest == SpellSequence(s) + more
    ensures Parse(rest, out, previous, expected) == Parse(more, Append(out, s), |out| + |literals|, expected)
  {
    hide Token, More, Length, CopyForward;
    TokenWhole(rest[0]);
    var after := literals + tail;
    assert after[..|literals|] == literals && after[|literals|..] == tail;
    LengthSound(tail[2..], rest[0] % 16, expected);
    var m: nat;
    m, more := Length(tail[2..], rest[0] % 16, expected).value.0, Length(tail[2..], rest[0] % 16, expected).value.1;
    s := Sequence(literals, tail[0] as int + tail[1] as int * 0x100, m + MIN_MATCH);
    var pair: seq<byte> := [s.distance % 0x100, s.distance / 0x100];
    assert pair[0] == tail[0] && pair[1] == tail[1];
    assert tail == pair + (More(m) + more);
    SequenceAssembled(rest[0], literals, pair, m, more);
    assert rest == SpellSequence(s) + more;
  }

  lemma SequenceAssembled(token: byte, literals: seq<byte>, pair: seq<byte>, m: nat, more: seq<byte>)
    ensures [token] + More(|literals|) + literals + (pair + (More(m) + more))
            == [token] + More(|literals|) + literals + pair + More(m) + more
  {
    hide More;
  }

  /** Whatever is accepted is the spelling of a legal block, and the result is its meaning. */
  lemma {:induction false} ParseSound(rest: seq<byte>, out: seq<byte>, previous: int, expected: nat) returns (b: Block)
    requires Parse(rest, out, previous, expected).Ok?
    ensures Legal(out, b, previous, expected) && rest == Spell(out, b)
    ensures Parse(rest, out, previous, expected) == Ok(Data(out, b))
    decreases |rest|
  {
    hide Token, More, Length, Append, Parse, SpellSequence;
    var literals, tail := LiteralsSound(rest, out, previous, expected);
    if tail == [] {
      assert literals + tail == literals;
      b := FinalSound(rest, out, previous, expected, literals);
    } else {
      var s, more := SequenceSound(rest, out, previous, expected, literals, tail);
      var next := ParseSound(more, Append(out, s), |out| + |literals|, expected);
      b := next.(sequences := [s] + next.sequences);
      assert b.sequences[1..] == next.sequences;
      assert b.(sequences := b.sequences[1..]) == next;
    }
  }

  // ---- the decoder's loops --------------------------------------------------------------------

  method ReadLength(data: seq<byte>, start: nat, initial: nibble, expected: nat) returns (r: Result<nat>, pos: nat)
    requires start <= |data|
    ensures start <= pos <= |data|
    ensures r.Ok? <==> Length(data[start..], initial, expected).Ok?
    ensures r.Ok? ==> Length(data[start..], initial, expected).value == (r.value, data[pos..])
  {
    var value: nat := initial;
    pos := start;
    if initial == 15 {
      while true
        invariant start <= pos <= |data|
        invariant Extend(data[pos..], value, expected) == Extend(data[start..], 15, expected)
        decreases |data| - pos
      {
        if pos == |data| {
          return Err, pos;
        }
        var extension := data[pos];
        assert data[pos..][1..] == data[pos + 1..];
        pos := pos + 1;
        value := value + extension;
        if value > expected {
          return Err, pos;
        }
        if extension != 255 {
          break;
        }
      }
    }
    r := Ok(value);
  }

  /** Mirrors `_block`: overlapping copies are made by repeating the last period. */
  method DecodeBlock(data: seq<byte>, expected: nat) returns (r: Result<seq<byte>>)
    ensures r == Parse(data, [], NONE, expected)
  {
    hide Length, CopyForward, Periodic;
    var result: seq<byte> := [];
    var pos, lastMatch := 0, NONE;
    assert data[0..] == data;
    while pos < |data|
      invariant pos <= |data|
      invariant Parse(data[pos..], result, lastMatch, expected) == Parse(data, [], NONE, expected)
      decreases |data| - pos
    {
      ghost var rest := data[pos..];
      var token := data[pos];
      assert rest[1..] == data[pos + 1..];
      var literals, at := ReadLength(data, pos + 1, token / 16, expected);
      if literals.Err? || literals.value > |data| - at || |result| + literals.value > expected {
        return Err;
      }
      var n := literals.value;
      assert data[at..][..n] == data[at..at + n] && data[at..][n..] == data[at + n..];
      result := result + data[at..at + n];
      at := at + n;
      if at == |data| {
        if |result| != expected || (lastMatch >= 0 && (n < LAST_LITERALS || lastMatch > expected - LAST_MATCH)) {
          return Err;
        }
        return Ok(result);
      }
      if |data| - at < 2 {
        return Err;
      }
      var distance := data[at] as int + data[at + 1] as int * 0x100;
      assert data[at..][2..] == data[at + 2..];
      var length, next := ReadLength(data, at + 2, token % 16, expected);
      if distance == 0 || distance > |result| || length.Err? || |result| + length.value + MIN_MATCH > expected {
        return Err;
      }
      var match' := length.value + MIN_MATCH;
      lastMatch := |result|;
      PeriodicIsCopyForward(result, |result| - distance, match');
      result := result + Periodic(result[|result| - distance..], match');
      pos := next;
    }
    return Err;
  }
}
