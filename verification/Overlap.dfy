/** Copies whose source may run into the bytes being produced: the byte-at-a-time meaning, and
    the period replication that the decoders use instead. */
module Overlap {
  import opened Bytes

  /** Append `n` bytes, each read at the next position of the growing output. */
  function CopyForward(out: seq<byte>, from: nat, n: nat): (r: seq<byte>)
    requires from < |out|
    ensures |r| == |out| + n && r[..|out|] == out
    decreases n
  {
    if n == 0 then out else CopyForward(out + [out[from]], from + 1, n - 1)
  }

  /** `data * times` */
  function Repeat(data: seq<byte>, times: nat): (r: seq<byte>)
    ensures |r| == |data| * times
  {
    if times == 0 then [] else data + Repeat(data, times - 1)
  }

  /** `i` reduced into one period. */
  function Wrap(i: nat, period: nat): (w: nat)
    requires period > 0
    ensures w < period
  {
    if i < period then i else Wrap(i - period, period)
  }

  lemma {:induction false} RepeatAt(data: seq<byte>, times: nat, i: nat)
    requires |data| > 0 && i < |Repeat(data, times)|
    ensures Repeat(data, times)[i] == data[Wrap(i, |data|)]
  {
    if |data| <= i {
      RepeatAt(data, times - 1, i - |data|);
    }
  }

  /** A copy in two parts is one copy. */
  lemma {:induction false} CopyForwardSplit(out: seq<byte>, from: nat, k: nat, n: nat)
    requires from < |out|
    ensures CopyForward(out, from, k + n) == CopyForward(CopyForward(out, from, k), from + k, n)
    decreases k
  {
    if k > 0 {
      CopyForwardSplit(out + [out[from]], from + 1, k - 1, n);
    }
  }

  /** Each produced byte repeats the one a period earlier. */
  lemma {:induction false} CopyForwardAt(out: seq<byte>, from: nat, n: nat, i: nat)
    requires from < |out| && i < n
    ensures CopyForward(out, from, n)[|out| + i] == CopyForward(out, from, n)[from + i]
    decreases n
  {
    var next := out + [out[from]];
    var r := CopyForward(next, from + 1, n - 1);
    assert r[..|next|] == next;
    if i == 0 {
      assert r[|out|] == next[|out|] && r[from] == next[from];
    } else {
      CopyForwardAt(next, from + 1, n - 1, i - 1);
    }
  }

  lemma {:induction false} CopyForwardPeriod(out: seq<byte>, from: nat, n: nat, i: nat)
    requires from < |out| && i < n
    ensures CopyForward(out, from, n)[|out| + i] == out[from + Wrap(i, |out| - from)]
    decreases i
  {
    var r, period := CopyForward(out, from, n), |out| - from;
    CopyForwardAt(out, from, n, i);
    assert r[..|out|] == out;
    if i < period {
      assert r[from + i] == out[from + i];
    } else {
      CopyForwardPeriod(out, from, n, i - period);
    }
  }

  /** What the decoders append: enough whole periods, cut to length. */
  function Periodic(period: seq<byte>, n: nat): (r: seq<byte>)
    requires |period| > 0
    ensures |r| == n
  {
    EnoughPeriods(n, |period|);
    Repeat(period, (n + |period| - 1) / |period|)[..n]
  }

  lemma EnoughPeriods(n: nat, m: nat)
    requires m > 0
    ensures m * ((n + m - 1) / m) >= n
  {
    var q := (n + m - 1) / m;
    assert n + m - 1 == m * q + (n + m - 1) % m;
  }

  lemma PeriodicAt(period: seq<byte>, n: nat, i: nat)
    requires |period| > 0 && i < n
    ensures Periodic(period, n)[i] == period[Wrap(i, |period|)]
  {
    EnoughPeriods(n, |period|);
    RepeatAt(period, (n + |period| - 1) / |period|, i);
  }

  /** Replicating the last period equals copying byte by byte, overlapping or not. */
  lemma PeriodicIsCopyForward(out: seq<byte>, from: nat, n: nat)
    requires from < |out|
    ensures out + Periodic(out[from..], n) == CopyForward(out, from, n)
  {
    hide Periodic;
    var r, period := CopyForward(out, from, n), out[from..];
    var p := Periodic(period, n);
    forall j | |out| <= j < |out| + n
      ensures r[j] == p[j - |out|]
    {
      var i := j - |out|;
      PeriodicAt(period, n, i);
      CopyForwardPeriod(out, from, n, i);
    }
    assert r[..|out|] == out;
    assert r == r[..|out|] + r[|out|..];
    assert r[|out|..] == p;
  }

  /** Without overlap the copy is a plain slice. */
  lemma CopyForwardSlice(out: seq<byte>, from: nat, n: nat)
    requires from + n <= |out| && from < |out|
    ensures CopyForward(out, from, n) == out + out[from..from + n]
    decreases n
  {
    if n > 0 {
      var next := out + [out[from]];
      if n > 1 {
        CopyForwardSlice(next, from + 1, n - 1);
        assert next[from + 1..from + n] == out[from + 1..from + n];
      } else {
        assert CopyForward(next, from + 1, 0) == next;
      }
      assert [out[from]] + out[from + 1..from + n] == out[from..from + n];
    }
  }
}
