/** The variable-length numbers of the BPS format. */
module BpsNumber {
  import opened Bytes

  const DIGIT_LIMIT := 10

  /** The canonical encoding: base-128 digits, low first, less one carry, last byte flagged. */
  function Encode(value: nat): (s: seq<byte>)
    ensures |s| > 0
    decreases value
  {
    var low, high := value % 128, value / 128;
    if high == 0 then [128 + low] else [low] + Encode(high - 1)
  }

  /** Exactly the last byte carries the end flag. */
  predicate Terminated(s: seq<byte>) {
    |s| > 0 && s[|s| - 1] >= 128 && forall i :: 0 <= i < |s| - 1 ==> s[i] < 128
  }

  /** The number a terminated string stands for. */
  function Value(s: seq<byte>): nat
    requires Terminated(s)
  {
    if s[0] >= 128 then s[0] - 128 else
      assert forall i :: 0 <= i < |s[1..]| - 1 ==> s[1..][i] == s[i + 1];
      s[0] + 128 * (Value(s[1..]) + 1)
  }

  /** 128 + 128^2 + ... + 128^digits */
  function Bound(digits: nat): nat {
    if digits == 0 then 0 else 128 * (Bound(digits - 1) + 1)
  }

  /** Parse at most `limit` bytes from `pos`: the number and the position after it. */
  function Parse(stream: seq<byte>, pos: nat, limit: nat): (r: Result<(nat, nat)>)
    ensures r.Ok? ==> pos < r.value.1 <= |stream|
    decreases limit
  {
    if limit == 0 || pos >= |stream| then Err
    else if stream[pos] >= 128 then Ok((stream[pos] - 128, pos + 1))
    else match Parse(stream, pos + 1, limit - 1)
      case Err => Err
      case Ok(rest) => Ok((stream[pos] + 128 * (rest.0 + 1), rest.1))
  }

  lemma {:induction false} EncodeThenValue(n: nat)
    ensures Terminated(Encode(n)) && Value(Encode(n)) == n
    decreases n
  {
    if n / 128 > 0 {
      var rest := Encode(n / 128 - 1);
      EncodeThenValue(n / 128 - 1);
      assert Encode(n) == [n % 128] + rest;
      assert ([n % 128] + rest)[1..] == rest;
    }
  }

  /** Every terminated byte string is some number's encoding. */
  lemma {:induction false} ValueThenEncode(s: seq<byte>)
    requires Terminated(s)
    ensures Encode(Value(s)) == s
    decreases |s|
  {
    if s[0] >= 128 {
      assert s == [s[0]];
    } else {
      assert forall i :: 0 <= i < |s[1..]| - 1 ==> s[1..][i] == s[i + 1];
      ValueThenEncode(s[1..]);
      var v := Value(s);
      assert v % 128 == s[0] && v / 128 == Value(s[1..]) + 1;
      assert s == [s[0]] + s[1..];
    }
  }

  /** No two numbers share an encoding, and no encoding is a proper prefix of another. */
  lemma EncodingsAreDistinct(m: nat, n: nat)
    requires Encode(m) <= Encode(n)
    ensures m == n
  {
    EncodeThenValue(m);
    EncodeThenValue(n);
    var k := |Encode(m)| - 1;
    assert Encode(n)[k] == Encode(m)[k] >= 128;
    assert Encode(n)[..|Encode(m)|] == Encode(m);
    assert Encode(n)[..|Encode(n)|] == Encode(n);
  }

  /** Ten digits reach exactly the values below 128 + 128^2 + ... + 128^10, and so on down. */
  lemma {:induction false} DigitsNeeded(n: nat, digits: nat)
    ensures |Encode(n)| <= digits <==> n < Bound(digits)
    decreases digits
  {
    if digits > 0 && n / 128 > 0 {
      DigitsNeeded(n / 128 - 1, digits - 1);
    }
  }

  /** Parsing an encoding in place: the number, exactly its bytes, or a refusal past the limit. */
  lemma {:induction false} ParseEncoding(before: seq<byte>, n: nat, after: seq<byte>, limit: nat)
    ensures Parse(before + Encode(n) + after, |before|, limit)
         == if n < Bound(limit) then Ok((n, |before| + |Encode(n)|)) else Err
    decreases limit
  {
    var stream := before + Encode(n) + after;
    if limit > 0 {
      assert stream[|before|] == Encode(n)[0];
      if n / 128 > 0 {
        var low, rest := n % 128, n / 128 - 1;
        assert Encode(n) == [low] + Encode(rest);
        assert stream == (before + [low]) + Encode(rest) + after;
        ParseEncoding(before + [low], rest, after, limit - 1);
      }
    }
  }

  /** Whatever parses is the encoding of what it parses to. */
  lemma {:induction false} ParsedIsEncoded(stream: seq<byte>, pos: nat, limit: nat)
    requires Parse(stream, pos, limit).Ok?
    ensures var (n, next) := Parse(stream, pos, limit).value;
            stream[pos..next] == Encode(n) && n < Bound(limit)
    decreases limit
  {
    var (n, next) := Parse(stream, pos, limit).value;
    if stream[pos] < 128 {
      ParsedIsEncoded(stream, pos + 1, limit - 1);
      assert stream[pos..next] == [stream[pos]] + stream[pos + 1..next];
      assert n % 128 == stream[pos];
    }
  }

  /** Mirrors `encode_number`. */
  method EncodeNumber(value: nat) returns (encoded: seq<byte>)
    ensures encoded == Encode(value)
  {
    encoded := [];
    var v := value;
    while true
      invariant encoded + Encode(v) == Encode(value)
      decreases v
    {
      var b: byte := v % 128;
      v := v / 128;
      if v == 0 {
        return encoded + [128 + b];
      }
      assert encoded + ([b] + Encode(v - 1)) == encoded + [b] + Encode(v - 1);
      encoded := encoded + [b];
      v := v - 1;
    }
  }

  /** The number still being read contributes its value at the current weight. */
  function Outcome(result: nat, shift: nat, rest: Result<(nat, nat)>): Result<(nat, nat)> {
    match rest
    case Err => Err
    case Ok(r) => Ok((result + shift * r.0, r.1))
  }

  lemma Weigh(result: nat, shift: nat, digit: nat, rest: Result<(nat, nat)>)
    requires rest.Ok?
    ensures Outcome(result, shift, Ok((digit + 128 * (rest.value.0 + 1), rest.value.1)))
         == Outcome(result + digit * shift + shift * 128, shift * 128, rest)
  {
    var n := rest.value.0;
    assert shift * (digit + 128 * (n + 1)) == shift * digit + shift * (128 * (n + 1));
    assert shift * (128 * (n + 1)) == shift * 128 * n + shift * 128;
  }

  /** One turn of the decoder's loop. */
  lemma DigitRead(stream: seq<byte>, pos: nat, limit: nat, result: nat, shift: nat)
    requires limit > 0 && pos < |stream|
    ensures Outcome(result, shift, Parse(stream, pos, limit))
         == if stream[pos] >= 128 then Ok((result + stream[pos] % 128 * shift, pos + 1))
            else Outcome(result + stream[pos] % 128 * shift + shift * 128, shift * 128,
                         Parse(stream, pos + 1, limit - 1))
  {
    hide Outcome;
    var rest, digit := Parse(stream, pos + 1, limit - 1), stream[pos] % 128;
    OutcomeLast(result, shift, digit, pos + 1);
    OutcomeErr(result, shift);
    OutcomeErr(result + digit * shift + shift * 128, shift * 128);
    if stream[pos] < 128 && rest.Ok? {
      assert digit == stream[pos];
      Weigh(result, shift, digit, rest);
    }
  }

  lemma OutcomeErr(result: nat, shift: nat)
    ensures Outcome(result, shift, Err) == Err
  {
  }

  lemma OutcomeLast(result: nat, shift: nat, digit: nat, pos: nat)
    ensures Outcome(result, shift, Ok((digit, pos))) == Ok((result + digit * shift, pos))
  {
  }

  lemma OutcomeOfNothing(stream: seq<byte>, pos: nat, limit: nat, result: nat, shift: nat)
    requires limit == 0 || pos >= |stream|
    ensures Outcome(result, shift, Parse(stream, pos, limit)) == Err
  {
  }

  lemma OutcomeUnit(rest: Result<(nat, nat)>)
    ensures Outcome(0, 1, rest) == rest
  {
  }

  /** Mirrors `decode_number`: weights accumulate instead of nesting. */
  method DecodeNumber(stream: seq<byte>, start: nat) returns (r: Result<(nat, nat)>)
    ensures r == Parse(stream, start, DIGIT_LIMIT)
  {
    hide Outcome, Parse;
    var result: nat, shift: nat, pos: nat := 0, 1, start;
    OutcomeUnit(Parse(stream, start, DIGIT_LIMIT));
    for i := 0 to DIGIT_LIMIT
      invariant pos == start + i
      invariant Parse(stream, start, DIGIT_LIMIT) == Outcome(result, shift, Parse(stream, pos, DIGIT_LIMIT - i))
    {
      if pos >= |stream| {
        OutcomeOfNothing(stream, pos, DIGIT_LIMIT - i, result, shift);
        return Err;
      }
      DigitRead(stream, pos, DIGIT_LIMIT - i, result, shift);
      var value: nat := stream[pos];
      pos := pos + 1;
      result := result + value % 128 * shift;
      if value >= 128 {
        return Ok((result, pos));
      }
      shift := shift * 128;
      result := result + shift;
    }
    OutcomeOfNothing(stream, pos, 0, result, shift);
    return Err;
  }
}
