/** Ending a track at an exact clock value: cut, interpolate one terminal sample, or extend. */
module GhostFinish {
  import opened Bytes
  import opened GhostTrack

  // ---- integer interpolation ------------------------------------------------------------------

  /** Division rounding toward zero. */
  function Truncated(a: int, b: int): int
    requires b > 0
  {
    if a >= 0 then a / b else -(-a / b)
  }

  function Interpolate(a: int, b: int, numerator: nat, denominator: nat): int
    requires denominator > 0
  {
    a + Truncated((b - a) * numerator, denominator)
  }

  lemma Scale(q: int, p: int, denominator: nat)
    ensures p < q ==> (p + 1) * denominator <= q * denominator
  {
    if p < q {
      assert q * denominator == (p + 1) * denominator + (q - p - 1) * denominator;
    }
  }

  lemma PartOf(span: nat, numerator: nat, denominator: nat)
    requires 0 < denominator && numerator <= denominator
    ensures 0 <= span * numerator / denominator <= span
  {
    var n := span * numerator;
    var q := n / denominator;
    assert n == q * denominator + n % denominator;
    assert n <= span * denominator;
    Scale(q, span, denominator);
  }

  lemma WholePart(span: nat, denominator: nat)
    requires 0 < denominator
    ensures span * denominator / denominator == span
  {
    var n := span * denominator;
    var q := n / denominator;
    assert n == q * denominator + n % denominator;
    Scale(q, span, denominator);
    Scale(span, q, denominator);
  }

  lemma TruncatedSpan(span: nat, numerator: nat, denominator: nat)
    requires 0 < denominator && numerator <= denominator
    ensures 0 <= Truncated(span * numerator, denominator) <= span
    ensures 0 - span <= Truncated(0 - span * numerator, denominator) <= 0
    ensures numerator == denominator ==> Truncated(span * numerator, denominator) == span
    ensures numerator == denominator ==> Truncated(0 - span * numerator, denominator) == 0 - span
  {
    PartOf(span, numerator, denominator);
    WholePart(span, denominator);
  }

  lemma Negated(span: int, numerator: int)
    ensures -span * numerator == 0 - span * numerator
  {
  }

  /** An interpolated coordinate lies between its two neighbours. */
  lemma InterpolateBetween(a: int, b: int, numerator: nat, denominator: nat)
    requires 0 < denominator && numerator <= denominator
    ensures if a <= b then a <= Interpolate(a, b, numerator, denominator) <= b
            else b <= Interpolate(a, b, numerator, denominator) <= a
    ensures numerator == 0 ==> Interpolate(a, b, numerator, denominator) == a
    ensures numerator == denominator ==> Interpolate(a, b, numerator, denominator) == b
  {
    hide Truncated;
    if a <= b {
      TruncatedSpan(b - a, numerator, denominator);
    } else {
      TruncatedSpan(a - b, numerator, denominator);
      Negated(a - b, numerator);
      assert b - a == -(a - b);
    }
    TruncatedZero(denominator);
  }

  lemma TruncatedZero(denominator: nat)
    requires 0 < denominator
    ensures Truncated(0, denominator) == 0
  {
  }

  function Wrap16(n: int): s16 { (n + 0x8000) % 0x1_0000 - 0x8000 }

  /** Turn along the shorter arc. */
  function InterpolateYaw(a: s16, b: s16, numerator: nat, denominator: nat): s16
    requires denominator > 0
  {
    Wrap16(a + Truncated(Wrap16(b - a) * numerator, denominator))
  }

  function InterpolatePhase(a: int, b: int, numerator: nat, denominator: nat): (phase: nat)
    requires denominator > 0
    ensures phase <= PHASE_MAX
  {
    var delta := (b - a + 2048) % 4096 - 2048;
    (a + Truncated(delta * numerator, denominator)) % 4096
  }

  // ---- what interpolation means ---------------------------------------------------------------

  /** `part` is `elapsed / span` of `whole`, rounded toward zero. */
  predicate PartOfWhole(part: int, whole: int, elapsed: nat, span: nat) {
    if whole >= 0 then 0 <= part && part * span <= whole * elapsed < (part + 1) * span
    else part <= 0 && (part - 1) * span < whole * elapsed <= part * span
  }

  /** `r` is that far from `a` on the straight way to `b`. */
  predicate OnTheWay(r: int, a: int, b: int, elapsed: nat, span: nat) { PartOfWhole(r - a, b - a, elapsed, span) }

  /** `r` is that far from `a` on the shorter way around a circle to `b`; from opposite ends, the way down. */
  ghost predicate OnTheArc(r: int, a: int, b: int, elapsed: nat, span: nat, circle: int)
    requires circle > 0
  {
    exists arc: int, part: int :: Arc(arc, a, b, circle) && PartOfWhole(part, arc, elapsed, span) &&
        (r - a - part) % circle == 0
  }

  predicate Arc(arc: int, a: int, b: int, circle: int)
    requires circle > 0
  {
    -circle <= 2 * arc < circle && (b - a - arc) % circle == 0
  }

  lemma TruncatedPart(whole: int, elapsed: nat, span: nat)
    requires 0 < span
    ensures PartOfWhole(Truncated(whole * elapsed, span), whole, elapsed, span)
  {
    var n := whole * elapsed;
    if whole >= 0 {
      ProductSign(whole, elapsed);
      Quotient(n, span);
    } else {
      ProductSign(-whole, elapsed);
      Negated(-whole, elapsed);
      Quotient(-n, span);
      var q := -n / span;
      NegatedPart(q, span);
    }
  }

  lemma ProductSign(a: int, b: nat)
    ensures a >= 0 ==> a * b >= 0
  {
  }

  lemma Quotient(n: nat, span: nat)
    requires 0 < span
    ensures n / span >= 0 && n / span * span <= n < (n / span + 1) * span
  {
  }

  lemma NegatedPart(q: int, span: int)
    ensures -q * span == -(q * span) && (-q - 1) * span == -((q + 1) * span)
  {
  }

  lemma InterpolateProportion(a: int, b: int, elapsed: nat, span: nat)
    requires 0 < span
    ensures OnTheWay(Interpolate(a, b, elapsed, span), a, b, elapsed, span)
  {
    hide Truncated, PartOfWhole;
    TruncatedPart(b - a, elapsed, span);
  }

  lemma YawTurns(a: s16, b: s16, elapsed: nat, span: nat)
    requires 0 < span
    ensures OnTheArc(InterpolateYaw(a, b, elapsed, span), a, b, elapsed, span, 0x1_0000)
  {
    hide Truncated, PartOfWhole;
    var arc := Wrap16(b - a);
    var part := Truncated(arc * elapsed, span);
    TruncatedPart(arc, elapsed, span);
    assert Arc(arc, a, b, 0x1_0000);
    assert (Wrap16(a + part) - a - part) % 0x1_0000 == 0;
  }

  lemma PhaseTurns(a: int, b: int, elapsed: nat, span: nat)
    requires 0 < span
    ensures OnTheArc(InterpolatePhase(a, b, elapsed, span), a, b, elapsed, span, PHASE_MAX + 1)
  {
    hide Truncated, PartOfWhole;
    var arc := (b - a + 2048) % 4096 - 2048;
    var part := Truncated(arc * elapsed, span);
    TruncatedPart(arc, elapsed, span);
    assert Arc(arc, a, b, 4096);
    assert ((a + part) % 4096 - a - part) % 4096 == 0;
  }

  lemma PhaseBound(s: Sample, version: u16)
    ensures Phase(s, version) <= PHASE_MAX
  {
  }

  /** The sample put in place of `after` when the track ends between `before` and `after`. */
  function Terminal(before: Sample, after: Sample, numerator: nat, denominator: nat, version: u16): Sample
    requires 0 < numerator < denominator <= MAX_DELTA
  {
    InterpolateBetween(before.x, after.x, numerator, denominator);
    InterpolateBetween(before.y, after.y, numerator, denominator);
    InterpolateBetween(before.z, after.z, numerator, denominator);
    PhaseBound(before, version);
    var phase := if AnimationId(before) == AnimationId(after)
                 then InterpolatePhase(Phase(before, version), Phase(after, version), numerator, denominator)
                 else Phase(before, version);
    WithAnimation(after, AnimationId(before), phase).(
      x := Interpolate(before.x, after.x, numerator, denominator),
      y := Interpolate(before.y, after.y, numerator, denominator),
      z := Interpolate(before.z, after.z, numerator, denominator),
      yaw := InterpolateYaw(before.yaw, after.yaw, numerator, denominator),
      deltaQf := numerator)
  }

  // ---- finding the end ------------------------------------------------------------------------

  /** Where the walk along a segment stops: on the sample after `i`, strictly between `i` and the
      next, or at the segment's last sample `i`. `at` is the time of sample `i`. */
  datatype Stop = Exact(i: nat) | Between(i: nat, at: int) | RanOut(i: nat, at: int)

  function Walk(samples: seq<Sample>, i: nat, end: nat, at: int, qf: int): Stop
    requires i < end <= |samples|
    decreases end - i
  {
    if i + 1 >= end then RanOut(i, at)
    else
      var next := at + samples[i + 1].deltaQf;
      if next == qf then Exact(i)
      else if next > qf then Between(i, at)
      else Walk(samples, i + 1, end, next, qf)
  }

  /** The track cut to its first `count` samples and ending at `qf`. */
  function Cut(t: Track, samples: seq<Sample>, qf: u32): Track
    requires t.segments != [] && Last(t.segments).firstSample <= |samples| < 0x1_0000_0000
  {
    var seg := Last(t.segments);
    t.(samples := samples, endQf := qf,
       segments := t.segments[..|t.segments| - 1] + [seg.(sampleCount := |samples| - seg.firstSample, endQf := qf)])
  }

  /** Mirrors `finishTrackAt`. */
  function FinishAt(t: Track, qf: int): Result<Track>
    requires t.segments != [] ==> Last(t.segments).EndSample() == |t.samples| <= MAX_SAMPLES
    requires -0x8000_0000 <= qf < 0x8000_0000
  {
    if t.segments == [] || Last(t.segments).sampleCount == 0 || qf < Last(t.segments).startQf ||
       qf - t.startQf > MAX_DURATION_QF then Err
    else
      var seg := Last(t.segments);
      match Walk(t.samples, seg.firstSample, seg.EndSample(), seg.startQf, qf)
      case Exact(i) =>
        WalkBounds(t.samples, seg.firstSample, seg.EndSample(), seg.startQf, qf);
        Ok(Cut(t, t.samples[..i + 2], qf))
      case Between(i, at) =>
        WalkBounds(t.samples, seg.firstSample, seg.EndSample(), seg.startQf, qf);
        if qf == at then Ok(Cut(t, t.samples[..i + 1], qf))
        else Ok(Cut(t, t.samples[..i + 1]
                       + [Terminal(t.samples[i], t.samples[i + 1], qf - at, t.samples[i + 1].deltaQf, t.version)], qf))
      case RanOut(i, at) =>
        WalkBounds(t.samples, seg.firstSample, seg.EndSample(), seg.startQf, qf);
        if qf == at then Ok(Cut(t, t.samples[..i + 1], qf))
        else if qf - at <= 0 || qf - at > MAX_DELTA || |t.samples| >= MAX_SAMPLES then Err
        else Ok(Cut(t, t.samples + [Last(t.samples).(deltaQf := qf - at)], qf))
  }

  lemma {:induction false} WalkBounds(samples: seq<Sample>, i: nat, end: nat, at: int, qf: int)
    requires i < end <= |samples| && at <= qf
    ensures match Walk(samples, i, end, at, qf)
            case Exact(j) => i <= j && j + 1 < end
            case Between(j, t) => i <= j && j + 1 < end && t <= qf < t + samples[j + 1].deltaQf
            case RanOut(j, t) => i <= j && j + 1 == end && t <= qf
    decreases end - i
  {
    if i + 1 < end && at + samples[i + 1].deltaQf < qf {
      WalkBounds(samples, i + 1, end, at + samples[i + 1].deltaQf, qf);
    }
  }

  // ---- what finishing guarantees --------------------------------------------------------------

  lemma {:induction false} WalkTimes(samples: seq<Sample>, seg: Segment, i: nat, end: nat, qf: int)
    requires seg.firstSample <= i < end <= |samples| && TimeOf(samples, seg, i) <= qf
    ensures match Walk(samples, i, end, TimeOf(samples, seg, i), qf)
            case Exact(j) => i <= j && j + 1 < end && TimeOf(samples, seg, j + 1) == qf
            case Between(j, t) => i <= j && j + 1 < end &&
                t == TimeOf(samples, seg, j) <= qf < TimeOf(samples, seg, j + 1)
            case RanOut(j, t) => i <= j && j + 1 == end && t == TimeOf(samples, seg, j) <= qf
    decreases end - i
  {
    if i + 1 < end && TimeOf(samples, seg, i + 1) < qf {
      WalkTimes(samples, seg, i + 1, end, qf);
    }
  }

  /** When the last segment can be ended at `qf`: not before it starts, within the duration cap,
      and past its end only by one delta with room for one more sample. */
  predicate CanFinish(t: Track, qf: int)
    requires t.segments != []
  {
    Last(t.segments).startQf <= qf && qf - t.startQf <= MAX_DURATION_QF &&
    (qf <= t.endQf || (qf - t.endQf <= MAX_DELTA && |t.samples| < MAX_SAMPLES))
  }

  /** What replacing the last segment's samples must keep. */
  ghost predicate Replaces(t: Track, samples: seq<Sample>, qf: int) {
    && WellFormed(t) && Last(t.segments).firstSample < |samples| <= MAX_SAMPLES
    && Last(t.segments).startQf <= qf <= t.startQf + MAX_DURATION_QF && 0 <= qf < 0x8000_0000
    && |samples| <= |t.samples| + 1
    && (forall k :: 0 <= k < |samples| - 1 ==> samples[k] == t.samples[k])
    && samples[Last(t.segments).firstSample].deltaQf == 0
    && Spaced(samples, Last(t.segments).firstSample, |samples|)
    && qf == TimeOf(samples, Last(t.segments), |samples| - 1)
  }

  lemma CutTiles(t: Track, samples: seq<Sample>, qf: int)
    requires Replaces(t, samples, qf)
    ensures Tiles(Cut(t, samples, qf).segments, |samples|) && Ordered(Cut(t, samples, qf).segments)
  {
    hide SegmentOk, Spaced;
    var n, seg, r := |t.segments|, Last(t.segments), Cut(t, samples, qf).segments;
    assert seg.firstSample == EndBefore(t.segments, n - 1);
    forall i | 0 <= i < n
      ensures EndBefore(r, i) == EndBefore(t.segments, i)
      ensures Follows(r, i)
    {
      assert Follows(t.segments, i);
    }
  }

  lemma CutSegments(t: Track, samples: seq<Sample>, qf: int)
    requires Replaces(t, samples, qf)
    ensures SegmentsOk(samples, Cut(t, samples, qf).segments)
  {
    hide Spaced, Ordered, TimeOf;
    var n, r := |t.segments|, Cut(t, samples, qf);
    forall i | 0 <= i < n
      ensures SegmentOk(r.samples, r.segments[i])
    {
      if i < n - 1 {
        TilesApart(t.segments, |t.samples|, i, n - 1);
        SegmentFrame(t.samples, r.samples, t.segments[i]);
      } else {
        TimeIsElapsed(samples, Last(t.segments), |samples| - 1);
      }
    }
  }

  lemma TimeIsElapsed(samples: seq<Sample>, seg: Segment, i: nat)
    requires seg.firstSample <= i < |samples|
    ensures TimeOf(samples, seg, i) == seg.startQf + Elapsed(samples, seg.firstSample, i)
  {
  }

  lemma CutWellFormed(t: Track, samples: seq<Sample>, qf: int)
    requires Replaces(t, samples, qf)
    ensures WellFormed(Cut(t, samples, qf))
  {
    hide SegmentsOk, Ordered, Tiles, Spaced;
    CutTiles(t, samples, qf);
    CutSegments(t, samples, qf);
  }

  lemma LastEnds(t: Track)
    requires WellFormed(t)
    ensures var seg := Last(t.segments);
            seg.sampleCount > 0 && seg.EndSample() == |t.samples| && t.endQf == TimeOf(t.samples, seg, |t.samples| - 1)
  {
    assert SegmentOk(t.samples, Last(t.segments));
  }

  lemma TimeGrows(t: Track, i: nat)
    requires WellFormed(t) && Last(t.segments).firstSample <= i < |t.samples|
    ensures TimeOf(t.samples, Last(t.segments), i) <= t.endQf
  {
    LastEnds(t);
    ElapsedGrows(t.samples, Last(t.segments).firstSample, i, |t.samples| - 1);
  }

  /** Finishing either fails, exactly when the end is out of reach, or yields a well-formed track
      ending at `qf`. */
  lemma FinishWellFormed(t: Track, qf: int)
    requires WellFormed(t) && -0x8000_0000 <= qf < 0x8000_0000
    ensures Last(t.segments).EndSample() == |t.samples|
    ensures FinishAt(t, qf).Ok? <==> CanFinish(t, qf)
    ensures FinishAt(t, qf).Ok? ==> FinishAt(t, qf).value.endQf == qf
    ensures FinishAt(t, qf).Ok? ==> t.samples != [] && (WellFormed(FinishAt(t, qf).value) <==> qf <= t.endQf || Open(t))
  {
    hide WellFormed, Terminal, TimeOf, Cut, Walk, Open;
    LastEnds(t);
    LastStart(t);
    var seg := Last(t.segments);
    if seg.startQf <= qf && qf - t.startQf <= MAX_DURATION_QF {
      WalkTimes(t.samples, seg, seg.firstSample, seg.EndSample(), qf);
      match Walk(t.samples, seg.firstSample, seg.EndSample(), seg.startQf, qf)
      case Exact(i) =>
        TimeGrows(t, i + 1);
        CutShort(t, i + 2, qf);
      case Between(i, at) =>
        TimeGrows(t, i + 1);
        if qf == at {
          CutShort(t, i + 1, qf);
        } else {
          CutBetween(t, i, qf);
        }
      case RanOut(i, at) =>
        if qf == at {
          CutShort(t, i + 1, qf);
        } else if qf - at <= MAX_DELTA && |t.samples| < MAX_SAMPLES {
          Extend(t, qf);
        }
    }
  }

  lemma LastStart(t: Track)
    requires WellFormed(t)
    ensures t.segments != [] && |t.samples| <= MAX_SAMPLES && t.startQf <= Last(t.segments).startQf
    ensures TimeOf(t.samples, Last(t.segments), Last(t.segments).firstSample) == Last(t.segments).startQf
  {
    LastEnds(t);
    OrderedSpan(t, |t.segments| - 1);
  }

  /** Ending on a sample keeps everything up to it. */
  lemma CutShort(t: Track, count: nat, qf: int)
    requires WellFormed(t) && Last(t.segments).firstSample < count <= |t.samples|
    requires qf == TimeOf(t.samples, Last(t.segments), count - 1) <= t.startQf + MAX_DURATION_QF && qf < 0x8000_0000
    ensures WellFormed(Cut(t, t.samples[..count], qf)) && Cut(t, t.samples[..count], qf).endQf == qf
  {
    var seg := Last(t.segments);
    assert SegmentOk(t.samples, seg);
    ElapsedFrame(t.samples, t.samples[..count], seg.firstSample, count - 1);
    CutWellFormed(t, t.samples[..count], qf);
  }

  lemma Appended(samples: seq<Sample>, last: Sample, seg: Segment)
    requires seg.firstSample < |samples|
    ensures TimeOf(samples + [last], seg, |samples|) == TimeOf(samples, seg, |samples| - 1) + last.deltaQf
  {
    ElapsedFrame(samples, samples + [last], seg.firstSample, |samples| - 1);
  }

  /** Ending between two samples keeps the first and puts a short terminal sample after it. */
  lemma CutBetween(t: Track, i: nat, qf: int)
    requires WellFormed(t) && Last(t.segments).firstSample <= i && i + 1 < |t.samples| && qf < 0x8000_0000
    requires TimeOf(t.samples, Last(t.segments), i) < qf < TimeOf(t.samples, Last(t.segments), i + 1)
    requires qf <= t.startQf + MAX_DURATION_QF
    ensures var at := TimeOf(t.samples, Last(t.segments), i);
            && qf - at < t.samples[i + 1].deltaQf
            && var r := Cut(t, t.samples[..i + 1]
                            + [Terminal(t.samples[i], t.samples[i + 1], qf - at, t.samples[i + 1].deltaQf, t.version)],
                            qf);
            WellFormed(r) && r.endQf == qf
  {
    hide Terminal;
    var seg := Last(t.segments);
    assert SegmentOk(t.samples, seg);
    var at := TimeOf(t.samples, seg, i);
    var last := Terminal(t.samples[i], t.samples[i + 1], qf - at, t.samples[i + 1].deltaQf, t.version);
    TerminalDelta(t.samples[i], t.samples[i + 1], qf - at, t.samples[i + 1].deltaQf, t.version);
    ElapsedFrame(t.samples, t.samples[..i + 1], seg.firstSample, i);
    Appended(t.samples[..i + 1], last, seg);
    CutWellFormed(t, t.samples[..i + 1] + [last], qf);
  }

  lemma TerminalDelta(before: Sample, after: Sample, numerator: nat, denominator: nat, version: u16)
    requires 0 < numerator < denominator <= MAX_DELTA
    ensures Terminal(before, after, numerator, denominator, version).deltaQf == numerator
  {
  }

  /** The last delta is a whole interval, as in a track still being recorded. */
  predicate Open(t: Track)
    requires t.segments != [] && t.samples != []
  {
    |t.samples| - 1 == Last(t.segments).firstSample || Last(t.samples).deltaQf >= INTERVAL_QF
  }

  /** Ending past the last sample holds its pose for one more, possibly short, delta. A track whose
      last delta was already short cannot be extended and stay well formed. */
  lemma Extend(t: Track, qf: int)
    requires WellFormed(t) && t.endQf < qf < 0x8000_0000 && qf - t.endQf <= MAX_DELTA && |t.samples| < MAX_SAMPLES
    requires qf <= t.startQf + MAX_DURATION_QF
    ensures |t.samples| > 0 && Last(t.segments).firstSample <= |t.samples| + 1
    ensures var r := Cut(t, t.samples + [Last(t.samples).(deltaQf := qf - t.endQf)], qf);
            r.endQf == qf && (WellFormed(r) <==> Open(t))
  {
    hide Open;
    LastEnds(t);
    var seg, n := Last(t.segments), |t.samples|;
    var samples := t.samples + [Last(t.samples).(deltaQf := qf - t.endQf)];
    if Open(t) {
      OrderedSpan(t, |t.segments| - 1);
      ExtendReplaces(t, qf);
      CutWellFormed(t, samples, qf);
    } else {
      NotOpen(t);
      var r := Cut(t, samples, qf);
      assert samples[n - 1] == t.samples[n - 1];
      assert !Spaced(samples, seg.firstSample, n + 1);
      assert !SegmentOk(r.samples, r.segments[|r.segments| - 1]);
      assert !SegmentsOk(r.samples, r.segments);
    }
  }

  lemma NotOpen(t: Track)
    requires WellFormed(t) && t.samples != [] && !Open(t)
    ensures Last(t.segments).firstSample < |t.samples| - 1 && t.samples[|t.samples| - 1].deltaQf < INTERVAL_QF
  {
    LastEnds(t);
  }

  /** Two samples a single tick apart: well formed, its last delta short. */
  const STILL := Sample(0, 0, 0, 0, 0, 0)
  const NOWHERE := Route(0, 0, 0, 0, 0)
  const SHORT_TRACK := Track([STILL, STILL.(deltaQf := 1)], [Segment(0, 2, 0, 1, NOWHERE)], 0, 1, 0, 0, NOWHERE,
                             VERSION_4, 0, [], true, false)

  /** Ending it one tick later succeeds, and leaves a short delta in the middle. */
  lemma ShortTrackSpoils()
    ensures WellFormed(SHORT_TRACK) && CanFinish(SHORT_TRACK, 2) && !Open(SHORT_TRACK)
    ensures Last(SHORT_TRACK.segments).EndSample() == |SHORT_TRACK.samples| && FinishAt(SHORT_TRACK, 2).Ok?
    ensures !WellFormed(FinishAt(SHORT_TRACK, 2).value)
  {
    var t := SHORT_TRACK;
    assert Elapsed(t.samples, 0, 1) == Elapsed(t.samples, 0, 0) + 1;
    assert SegmentOk(t.samples, t.segments[0]);
    assert EndBefore(t.segments, 0) == 0 && EndBefore(t.segments, 1) == 2;
    assert Follows(t.segments, 0);
    FinishWellFormed(t, 2);
  }

  lemma ExtendReplaces(t: Track, qf: int)
    requires WellFormed(t) && t.samples != [] && Open(t)
    requires t.endQf < qf < 0x8000_0000 && qf - t.endQf <= MAX_DELTA && |t.samples| < MAX_SAMPLES
    requires qf <= t.startQf + MAX_DURATION_QF
    ensures Replaces(t, t.samples + [Last(t.samples).(deltaQf := qf - t.endQf)], qf)
  {
    LastEnds(t);
    OrderedSpan(t, |t.segments| - 1);
    var seg := Last(t.segments);
    assert SegmentOk(t.samples, seg);
    Appended(t.samples, Last(t.samples).(deltaQf := qf - t.endQf), seg);
  }

  /** The phase stored in a sample is the nearest step to `phase`. */
  predicate StoresPhase(s: Sample, phase: int) {
    var step := s.animation / 0x80 % 0x100;
    && 2 * (step * PHASE_MAX - phase * V4_PHASE_MAX) < PHASE_MAX
    && 2 * (phase * V4_PHASE_MAX - step * PHASE_MAX) < PHASE_MAX
  }

  /** A terminal sample `elapsed` of the `span` from `a` to `b`: every coordinate on the way, the yaw and, within
      one animation, the phase on the shorter arc; the animation of `a`, mount and held object of `b`. */
  ghost predicate Ends(p: Sample, a: Sample, b: Sample, elapsed: nat, span: nat, version: u16) {
    && p.deltaQf == elapsed
    && OnTheWay(p.x, a.x, b.x, elapsed, span) && OnTheWay(p.y, a.y, b.y, elapsed, span)
    && OnTheWay(p.z, a.z, b.z, elapsed, span) && OnTheArc(p.yaw, a.yaw, b.yaw, elapsed, span, 0x1_0000)
    && AnimationId(p) == AnimationId(a) && Yoshi(p) == Yoshi(b) && Held(p) == Held(b)
    && exists phase: nat :: StoresPhase(p, phase) && PhaseBetween(phase, a, b, elapsed, span, version)
  }

  ghost predicate PhaseBetween(phase: nat, a: Sample, b: Sample, elapsed: nat, span: nat, version: u16) {
    && phase <= PHASE_MAX
    && if AnimationId(a) == AnimationId(b)
       then OnTheArc(phase, Phase(a, version), Phase(b, version), elapsed, span, PHASE_MAX + 1)
       else phase == Phase(a, version)
  }

  lemma AnimationStored(s: Sample, id: nat, phase: nat)
    requires id < 512 && phase <= PHASE_MAX
    ensures var r := WithAnimation(s, id, phase);
            AnimationId(r) == id && StoresPhase(r, phase) && Yoshi(r) == Yoshi(s) && Held(r) == Held(s)
  {
    var step, low := (phase * V4_PHASE_MAX + PHASE_MAX / 2) / PHASE_MAX, s.animation % 0x80;
    NearestStep(phase);
    PackedParts(id, step, low / 0x10, low % 0x10);
    PackedParts(s.animation / 0x8000, s.animation / 0x80 % 0x100, low / 0x10, low % 0x10);
    SplitBits(s.animation);
  }

  lemma NearestStep(phase: nat)
    requires phase <= PHASE_MAX
    ensures var step := (phase * V4_PHASE_MAX + PHASE_MAX / 2) / PHASE_MAX;
            && step <= V4_PHASE_MAX && 2 * (step * PHASE_MAX - phase * V4_PHASE_MAX) < PHASE_MAX
            && 2 * (phase * V4_PHASE_MAX - step * PHASE_MAX) < PHASE_MAX
  {
  }

  lemma PackedParts(id: nat, step: nat, mount: nat, held: nat)
    requires step < 0x100 && mount < 8 && held < 0x10
    ensures var r := id * 0x8000 + step * 0x80 + (mount * 0x10 + held);
            r / 0x8000 == id && r / 0x80 % 0x100 == step && r / 0x10 % 8 == mount && r % 0x10 == held
  {
    var r := id * 0x8000 + step * 0x80 + (mount * 0x10 + held);
    assert r / 0x80 == id * 0x100 + step;
    assert r / 0x10 == (id * 0x100 + step) * 8 + mount;
  }

  lemma SplitBits(n: nat)
    ensures n == n / 0x8000 * 0x8000 + n / 0x80 % 0x100 * 0x80 + (n % 0x80 / 0x10 * 0x10 + n % 0x80 % 0x10)
  {
    assert n == n / 0x80 * 0x80 + n % 0x80;
    assert n / 0x80 / 0x100 == n / 0x8000;
  }

  lemma TerminalEnds(before: Sample, after: Sample, elapsed: nat, span: nat, version: u16)
    requires 0 < elapsed < span <= MAX_DELTA
    ensures Ends(Terminal(before, after, elapsed, span, version), before, after, elapsed, span, version)
  {
    hide Interpolate, InterpolateYaw, InterpolatePhase, WithAnimation, Phase, OnTheWay, OnTheArc, StoresPhase, Yoshi,
        Held, AnimationId;
    InterpolateProportion(before.x, after.x, elapsed, span);
    InterpolateProportion(before.y, after.y, elapsed, span);
    InterpolateProportion(before.z, after.z, elapsed, span);
    YawTurns(before.yaw, after.yaw, elapsed, span);
    PhaseTurns(Phase(before, version), Phase(after, version), elapsed, span);
    PhaseBound(before, version);
    var phase := if AnimationId(before) == AnimationId(after)
                 then InterpolatePhase(Phase(before, version), Phase(after, version), elapsed, span)
                 else Phase(before, version);
    AnimationBound(before);
    AnimationStored(after, AnimationId(before), phase);
    SameAnimation(WithAnimation(after, AnimationId(before), phase), Terminal(before, after, elapsed, span, version),
                  phase);
    assert PhaseBetween(phase, before, after, elapsed, span, version);
  }

  lemma AnimationBound(s: Sample)
    ensures AnimationId(s) < 512
  {
  }

  lemma SameAnimation(a: Sample, b: Sample, phase: nat)
    requires a.animation == b.animation
    ensures AnimationId(a) == AnimationId(b) && Yoshi(a) == Yoshi(b) && Held(a) == Held(b)
    ensures StoresPhase(a, phase) <==> StoresPhase(b, phase)
  {
  }

  /** Exactly what finishing does: every sample up to `j`, the last at or before `qf`, is kept; if time is left,
      one terminal sample on the way to the next, or holding the last pose; only the last segment changes. */
  ghost predicate FinishedAt(t: Track, r: Track, j: nat, qf: int) {
    && t.segments != [] && IsLastAt(t.samples, Last(t.segments), j, qf)
    && j + 1 <= |r.samples| <= j + 2 && r.samples[..j + 1] == t.samples[..j + 1]
    && (|r.samples| == j + 1 <==> TimeOf(t.samples, Last(t.segments), j) == qf)
    && (|r.samples| == j + 2 ==> TerminalOf(t, j, qf, r.samples[j + 1]))
    && CutTo(t, r, qf)
  }

  ghost predicate TerminalOf(t: Track, j: nat, qf: int, p: Sample)
    requires t.segments != [] && IsLastAt(t.samples, Last(t.segments), j, qf)
  {
    var at := TimeOf(t.samples, Last(t.segments), j);
    if j + 1 < Last(t.segments).EndSample()
    then Ends(p, t.samples[j], t.samples[j + 1], qf - at, TimeOf(t.samples, Last(t.segments), j + 1) - at, t.version)
    else p == t.samples[j].(deltaQf := p.deltaQf) && p.deltaQf == qf - at
  }

  /** The last segment is cut or grown to the samples given, and nothing else changes. */
  ghost predicate CutTo(t: Track, r: Track, qf: int)
    requires t.segments != []
  {
    && r == t.(samples := r.samples, segments := r.segments, endQf := r.endQf) && r.endQf == qf
    && |r.segments| == |t.segments| && r.segments[..|t.segments| - 1] == t.segments[..|t.segments| - 1]
    && var was, now := Last(t.segments), Last(r.segments);
       now == was.(sampleCount := now.sampleCount, endQf := now.endQf) && now.endQf == qf &&
       now.EndSample() == |r.samples|
  }

  lemma CutIsCut(t: Track, samples: seq<Sample>, qf: u32)
    requires t.segments != [] && Last(t.segments).firstSample <= |samples| < 0x1_0000_0000
    ensures CutTo(t, Cut(t, samples, qf), qf) && Cut(t, samples, qf).samples == samples
  {
  }

  lemma FinishKeeps(t: Track, qf: int) returns (j: nat)
    requires WellFormed(t) && -0x8000_0000 <= qf < 0x8000_0000
    requires Last(t.segments).EndSample() == |t.samples| && FinishAt(t, qf).Ok?
    ensures FinishedAt(t, FinishAt(t, qf).value, j, qf)
  {
    hide WellFormed, Terminal, Walk, Ends, Cut, CutTo;
    LastEnds(t);
    LastStart(t);
    var seg, end := Last(t.segments), |t.samples|;
    WalkTimes(t.samples, seg, seg.firstSample, end, qf);
    WalkBounds(t.samples, seg.firstSample, end, seg.startQf, qf);
    match Walk(t.samples, seg.firstSample, end, seg.startQf, qf)
    case Exact(i) =>
      j := i + 1;
      CutIsCut(t, t.samples[..i + 2], qf);
      if j + 1 < end {
        NextLater(t, j);
      }
    case Between(i, at) =>
      j := i;
      if qf != at {
        var last := Terminal(t.samples[i], t.samples[i + 1], qf - at, t.samples[i + 1].deltaQf, t.version);
        CutIsCut(t, t.samples[..i + 1] + [last], qf);
        TerminalEnds(t.samples[i], t.samples[i + 1], qf - at, t.samples[i + 1].deltaQf, t.version);
      } else {
        CutIsCut(t, t.samples[..i + 1], qf);
      }
    case RanOut(i, at) =>
      j := i;
      if qf != at {
        CutIsCut(t, t.samples + [Last(t.samples).(deltaQf := qf - at)], qf);
      } else {
        CutIsCut(t, t.samples[..i + 1], qf);
      }
  }

  lemma NextLater(t: Track, j: nat)
    requires WellFormed(t) && Last(t.segments).firstSample <= j && j + 1 < |t.samples|
    ensures TimeOf(t.samples, Last(t.segments), j) < TimeOf(t.samples, Last(t.segments), j + 1)
  {
    LastEnds(t);
    assert SegmentOk(t.samples, Last(t.segments));
  }
}
