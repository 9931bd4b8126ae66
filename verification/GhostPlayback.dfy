/** Replaying a track: the incremental cursor, and the pose it selects for a clock value. */
module GhostPlayback {
  import opened Bytes
  import opened GhostTrack
  import opened GhostFinish

  const NO_SEGMENT := 0xFFFF

  type pos = n: nat | n > 0 witness 1

  /** What is shown: nothing, a sample held, or the way from one sample to the next. */
  datatype Visual = Hidden | Holding(at: Sample) | Moving(from: Sample, to: Sample, elapsed: nat, span: pos)

  /** The selected segment (or none), its current sample, and that sample's time. */
  datatype Cursor = Cursor(segment: nat, sample: nat, qf: int)

  const REWOUND := Cursor(NO_SEGMENT, 0, 0)

  predicate CursorOk(t: Track, c: Cursor) {
    c.segment != NO_SEGMENT ==>
      && c.segment < |t.segments| && t.segments[c.segment].EndSample() <= |t.samples|
      && t.segments[c.segment].firstSample <= c.sample < t.segments[c.segment].EndSample()
      && c.qf == TimeOf(t.samples, t.segments[c.segment], c.sample)
  }

  predicate Owns(seg: Segment, route: Route, qf: int) {
    seg.route == route && seg.startQf <= qf <= seg.endQf
  }

  /** Mirrors `playbackSegmentAt`: the last of the first `n` segments on the route around `qf`, or -1. */
  function SegmentAt(segments: seq<Segment>, route: Route, qf: int, n: nat): (i: int)
    requires n <= |segments|
    ensures -1 <= i < n
    ensures i >= 0 ==> Owns(segments[i], route, qf)
    ensures forall j :: 0 <= j < n && i < j ==> !Owns(segments[j], route, qf)
  {
    if n == 0 then -1
    else if Owns(segments[n - 1], route, qf) then n - 1
    else SegmentAt(segments, route, qf, n - 1)
  }

  function Start(t: Track, i: nat): Cursor
    requires i < |t.segments|
  {
    Cursor(i, t.segments[i].firstSample, t.segments[i].startQf)
  }

  /** Mirrors the catch-up loop: move on while the next sample is due. */
  function CatchUp(samples: seq<Sample>, end: nat, c: Cursor, qf: int): (r: Cursor)
    requires c.sample < end <= |samples|
    ensures r.segment == c.segment && c.sample <= r.sample < end
    decreases end - c.sample
  {
    if c.sample + 1 < end && c.qf + samples[c.sample + 1].deltaQf <= qf
    then CatchUp(samples, end, Cursor(c.segment, c.sample + 1, c.qf + samples[c.sample + 1].deltaQf), qf)
    else c
  }

  lemma {:induction false} CatchUpFinds(t: Track, c: Cursor, qf: int)
    requires CursorOk(t, c) && c.segment != NO_SEGMENT && c.qf <= qf
    ensures var r := CatchUp(t.samples, t.segments[c.segment].EndSample(), c, qf);
            CursorOk(t, r) && r.qf <= qf && IsLastAt(t.samples, t.segments[c.segment], r.sample, qf)
    decreases t.segments[c.segment].EndSample() - c.sample
  {
    var seg := t.segments[c.segment];
    if c.sample + 1 < seg.EndSample() && c.qf + t.samples[c.sample + 1].deltaQf <= qf {
      CatchUpFinds(t, Cursor(c.segment, c.sample + 1, c.qf + t.samples[c.sample + 1].deltaQf), qf);
    }
  }

  /** The pose at a caught-up cursor. */
  function PoseAt(t: Track, c: Cursor, qf: int): Visual
    requires WellFormed(t) && CursorOk(t, c) && c.segment != NO_SEGMENT && c.qf <= qf
  {
    var seg := t.segments[c.segment];
    assert SegmentOk(t.samples, seg);
    if c.sample + 1 >= seg.EndSample() then Holding(t.samples[c.sample])
    else Moving(t.samples[c.sample], t.samples[c.sample + 1], qf - c.qf, t.samples[c.sample + 1].deltaQf)
  }

  /** Where the cursor resumes for segment `i`: where it was, unless it is elsewhere or too late. */
  function Resume(t: Track, c: Cursor, i: nat, qf: int): Cursor
    requires i < |t.segments|
  {
    if c.segment == i && c.qf <= qf then c else Start(t, i)
  }

  lemma ResumeOk(t: Track, c: Cursor, i: nat, qf: int)
    requires WellFormed(t) && CursorOk(t, c) && i < |t.segments| && t.segments[i].startQf <= qf
    ensures var r := Resume(t, c, i, qf); CursorOk(t, r) && r.segment == i && r.qf <= qf && i != NO_SEGMENT
  {
    assert SegmentOk(t.samples, t.segments[i]);
  }

  /** Mirrors `updatePlayback`: the moved cursor and what is shown. */
  function Update(t: Track, route: Route, c: Cursor, qf: int): (r: (Cursor, Visual))
    requires WellFormed(t) && CursorOk(t, c)
    ensures CursorOk(t, r.0)
  {
    var i := SegmentAt(t.segments, route, qf, |t.segments|);
    if i < 0 then (c, Hidden)
    else
      ResumeOk(t, c, i, qf);
      CatchUpFinds(t, Resume(t, c, i, qf), qf);
      var moved := CatchUp(t.samples, t.segments[i].EndSample(), Resume(t, c, i, qf), qf);
      (moved, PoseAt(t, moved, qf))
  }

  /** A search that remembers nothing. */
  function Fresh(t: Track, route: Route, qf: int): Visual
    requires WellFormed(t)
  {
    Update(t, route, REWOUND, qf).1
  }

  // ---- what should be shown -------------------------------------------------------------------

  /** At the last due sample `j` of its segment: that sample if it is the segment's last, else the way to the
      next, as far along as the clock is between their times. */
  predicate Shows(samples: seq<Sample>, seg: Segment, j: nat, qf: int, shown: Visual) {
    && IsLastAt(samples, seg, j, qf)
    && (if j + 1 == seg.EndSample() then shown.Holding? && shown.at == samples[j]
        else
          && shown.Moving? && shown.from == samples[j] && shown.to == samples[j + 1]
          && TimeOf(samples, seg, j) + shown.elapsed == qf
          && TimeOf(samples, seg, j) + shown.span == TimeOf(samples, seg, j + 1))
  }

  /** The last segment on the route around `qf`. */
  predicate LastOwner(t: Track, route: Route, qf: int, i: nat) {
    && i < |t.segments| && Owns(t.segments[i], route, qf)
    && forall j :: i < j < |t.segments| ==> !Owns(t.segments[j], route, qf)
  }

  /** What a viewer of `route` should see at `qf`: the last owning segment at its last due sample, or nothing
      if no segment owns the clock value. */
  ghost predicate Due(t: Track, route: Route, qf: int, shown: Visual) {
    if forall i :: 0 <= i < |t.segments| ==> !Owns(t.segments[i], route, qf) then shown.Hidden?
    else exists i: nat, j: nat :: LastOwner(t, route, qf, i) && Shows(t.samples, t.segments[i], j, qf, shown)
  }

  lemma ShowsUnique(samples: seq<Sample>, seg: Segment, j: nat, k: nat, qf: int, a: Visual, b: Visual)
    requires Shows(samples, seg, j, qf, a) && Shows(samples, seg, k, qf, b)
    ensures j == k && a == b
  {
    LastAtUnique(samples, seg, j, k, qf);
  }

  /** There is only one such view. */
  lemma DueUnique(t: Track, route: Route, qf: int, a: Visual, b: Visual)
    requires Due(t, route, qf, a) && Due(t, route, qf, b)
    ensures a == b
  {
    hide Shows;
    if exists i :: 0 <= i < |t.segments| && Owns(t.segments[i], route, qf) {
      var i: nat, j: nat :| LastOwner(t, route, qf, i) && Shows(t.samples, t.segments[i], j, qf, a);
      var k: nat, l: nat :| LastOwner(t, route, qf, k) && Shows(t.samples, t.segments[k], l, qf, b);
      assert i == k;
      ShowsUnique(t.samples, t.segments[i], j, l, qf, a, b);
    }
  }

  lemma PoseShows(t: Track, c: Cursor, qf: int)
    requires WellFormed(t) && CursorOk(t, c) && c.segment != NO_SEGMENT && c.qf <= qf
    requires IsLastAt(t.samples, t.segments[c.segment], c.sample, qf)
    ensures Shows(t.samples, t.segments[c.segment], c.sample, qf, PoseAt(t, c, qf))
  {
    assert SegmentOk(t.samples, t.segments[c.segment]);
  }

  /** The cursor ends on the last due sample of the last segment that owns the clock value, whatever
      it did before; what is shown is what is due there, as a fresh search would find it. */
  lemma UpdateIsFresh(t: Track, route: Route, c: Cursor, qf: int)
    requires WellFormed(t) && CursorOk(t, c)
    ensures var (moved, shown) := Update(t, route, c, qf);
            && shown == Fresh(t, route, qf) && Due(t, route, qf, shown)
            && (shown.Hidden? <==> forall j :: 0 <= j < |t.segments| ==> !Owns(t.segments[j], route, qf))
            && (!shown.Hidden? ==>
                  && moved.segment < |t.segments| && Owns(t.segments[moved.segment], route, qf)
                  && (forall j :: moved.segment < j < |t.segments| ==> !Owns(t.segments[j], route, qf))
                  && Shows(t.samples, t.segments[moved.segment], moved.sample, qf, shown)
                  && moved.qf == TimeOf(t.samples, t.segments[moved.segment], moved.sample))
  {
    var i := SegmentAt(t.segments, route, qf, |t.segments|);
    if i >= 0 {
      ResumeOk(t, c, i, qf);
      ResumeOk(t, REWOUND, i, qf);
      CatchUpFinds(t, Resume(t, c, i, qf), qf);
      CatchUpFinds(t, Resume(t, REWOUND, i, qf), qf);
      PoseShows(t, Update(t, route, c, qf).0, qf);
      PoseShows(t, Update(t, route, REWOUND, qf).0, qf);
      assert LastOwner(t, route, qf, i);
      DueUnique(t, route, qf, Update(t, route, c, qf).1, Fresh(t, route, qf));
    } else {
      assert forall j :: 0 <= j < |t.segments| ==> !Owns(t.segments[j], route, qf);
    }
  }

  /** Everything shown over a sequence of routes and clock values, in any order. */
  function Replay(t: Track, c: Cursor, ticks: seq<(Route, int)>): seq<Visual>
    requires WellFormed(t) && CursorOk(t, c)
    decreases |ticks|
  {
    if ticks == [] then []
    else
      var r := Update(t, ticks[0].0, c, ticks[0].1);
      [r.1] + Replay(t, r.0, ticks[1..])
  }

  /** Over every run of clock values, forward or backward, across segments, each tick shows what is due,
      as a fresh search would find it. */
  lemma {:induction false} ReplayIsFresh(t: Track, c: Cursor, ticks: seq<(Route, int)>)
    requires WellFormed(t) && CursorOk(t, c)
    ensures |Replay(t, c, ticks)| == |ticks|
    ensures forall k :: 0 <= k < |ticks| ==>
              && Due(t, ticks[k].0, ticks[k].1, Replay(t, c, ticks)[k])
              && Replay(t, c, ticks)[k] == Fresh(t, ticks[k].0, ticks[k].1)
    decreases |ticks|
  {
    hide Update, Fresh, WellFormed, CursorOk, Due, Shows;
    if ticks != [] {
      UpdateIsFresh(t, ticks[0].0, c, ticks[0].1);
      ReplayIsFresh(t, Update(t, ticks[0].0, c, ticks[0].1).0, ticks[1..]);
    }
  }

  // ---- the observer's own cursor --------------------------------------------------------------

  /** The observer's cursor for segment `i`: inside it, its time is true; outside, it is reset before use. */
  predicate ObserverOk(t: Track, i: nat, sample: nat, at: int)
    requires i < |t.segments|
  {
    var seg := t.segments[i];
    seg.firstSample <= sample < seg.EndSample() ==>
      seg.EndSample() <= |t.samples| && at == TimeOf(t.samples, seg, sample)
  }

  /** Mirrors `sampleObserverTrack`: a cursor for one given segment, reset when it strays. */
  function Observe(t: Track, i: nat, sample: nat, at: int, qf: int): (r: (nat, int, Visual))
    requires WellFormed(t) && i < |t.segments|
    requires ObserverOk(t, i, sample, at)
  {
    var seg := t.segments[i];
    if qf < seg.startQf || qf > seg.endQf then (sample, at, Hidden)
    else
      assert SegmentOk(t.samples, seg);
      var c := if sample < seg.firstSample || sample >= seg.EndSample() || qf < at
               then Start(t, i) else Cursor(i, sample, at);
      CatchUpFinds(t, c, qf);
      var moved := CatchUp(t.samples, seg.EndSample(), c, qf);
      (moved.sample, moved.qf, PoseAt(t, moved, qf))
  }

  /** What an observer of segment `i` should see: its last due sample, or nothing outside its span. */
  ghost predicate DueIn(t: Track, i: nat, qf: int, shown: Visual)
    requires i < |t.segments|
  {
    var seg := t.segments[i];
    if qf < seg.startQf || qf > seg.endQf then shown.Hidden?
    else exists j: nat :: Shows(t.samples, seg, j, qf, shown)
  }

  lemma ObserveShows(t: Track, i: nat, sample: nat, at: int, qf: int)
    requires WellFormed(t) && i < |t.segments| && ObserverOk(t, i, sample, at)
    ensures var (sample', at', shown) := Observe(t, i, sample, at, qf);
            && ObserverOk(t, i, sample', at') && DueIn(t, i, qf, shown)
            && (t.segments[i].startQf <= qf <= t.segments[i].endQf ==>
                  && Shows(t.samples, t.segments[i], sample', qf, shown)
                  && at' == TimeOf(t.samples, t.segments[i], sample'))
  {
    hide Shows;
    var seg := t.segments[i];
    assert SegmentOk(t.samples, seg);
    if seg.startQf <= qf <= seg.endQf {
      var c := if sample < seg.firstSample || sample >= seg.EndSample() || qf < at
               then Start(t, i) else Cursor(i, sample, at);
      CatchUpFinds(t, c, qf);
      PoseShows(t, CatchUp(t.samples, seg.EndSample(), c, qf), qf);
    }
  }

  /** A cursor made for this observation alone. */
  function FreshObservation(t: Track, i: nat, qf: int): Visual
    requires WellFormed(t) && i < |t.segments|
  {
    Observe(t, i, t.segments[i].EndSample(), 0, qf).2
  }

  /** Whatever the cursor was, the observer shows what is due in its segment, as a fresh search would find it. */
  lemma ObserveIsFresh(t: Track, i: nat, sample: nat, at: int, qf: int)
    requires WellFormed(t) && i < |t.segments| && ObserverOk(t, i, sample, at)
    ensures var (sample', at', shown) := Observe(t, i, sample, at, qf);
            ObserverOk(t, i, sample', at') && shown == FreshObservation(t, i, qf) && DueIn(t, i, qf, shown)
  {
    hide Shows, Observe, WellFormed;
    ObserveShows(t, i, sample, at, qf);
    ObserveShows(t, i, t.segments[i].EndSample(), 0, qf);
    DueInUnique(t, i, qf, Observe(t, i, sample, at, qf).2, FreshObservation(t, i, qf));
  }

  lemma DueInUnique(t: Track, i: nat, qf: int, a: Visual, b: Visual)
    requires i < |t.segments| && DueIn(t, i, qf, a) && DueIn(t, i, qf, b)
    ensures a == b
  {
    hide Shows;
    var seg := t.segments[i];
    if seg.startQf <= qf <= seg.endQf {
      var j: nat :| Shows(t.samples, seg, j, qf, a);
      var k: nat :| Shows(t.samples, seg, k, qf, b);
      ShowsUnique(t.samples, seg, j, k, qf, a, b);
    }
  }

  /** On the segment playback would choose, the observer shows the same pose, from the same sample. */
  lemma ObserveAgrees(t: Track, route: Route, c: Cursor, i: nat, sample: nat, at: int, qf: int)
    requires WellFormed(t) && CursorOk(t, c) && SegmentAt(t.segments, route, qf, |t.segments|) == i
    requires ObserverOk(t, i, sample, at)
    ensures var (sample', at', shown) := Observe(t, i, sample, at, qf);
            && shown == Update(t, route, c, qf).1 && !shown.Hidden?
            && sample' == Update(t, route, c, qf).0.sample && at' == Update(t, route, c, qf).0.qf
  {
    hide Observe, Update, WellFormed;
    ObserveShows(t, i, sample, at, qf);
    UpdateIsFresh(t, route, c, qf);
    var (moved, shown) := Update(t, route, c, qf);
    assert Owns(t.segments[i], route, qf);
    assert LastOwner(t, route, qf, i);
    ShowsUnique(t.samples, t.segments[i], Observe(t, i, sample, at, qf).0, moved.sample, qf,
                Observe(t, i, sample, at, qf).2, shown);
  }

  /** Everything an observer of segment `i` shows over a sequence of clock values, in any order. */
  function Watch(t: Track, i: nat, sample: nat, at: int, ticks: seq<int>): seq<Visual>
    requires WellFormed(t) && i < |t.segments| && ObserverOk(t, i, sample, at)
    decreases |ticks|
  {
    if ticks == [] then []
    else
      ObserveIsFresh(t, i, sample, at, ticks[0]);
      var (sample', at', shown) := Observe(t, i, sample, at, ticks[0]);
      [shown] + Watch(t, i, sample', at', ticks[1..])
  }

  /** Over every run of clock values, forward or backward, the observer shows at each what is due in its
      segment, and what playback shows there whenever it plays that segment. */
  lemma {:induction false} WatchIsFresh(t: Track, i: nat, sample: nat, at: int, ticks: seq<int>, route: Route)
    requires WellFormed(t) && i < |t.segments| && ObserverOk(t, i, sample, at)
    ensures |Watch(t, i, sample, at, ticks)| == |ticks|
    ensures forall k :: 0 <= k < |ticks| ==>
              && DueIn(t, i, ticks[k], Watch(t, i, sample, at, ticks)[k])
              && Watch(t, i, sample, at, ticks)[k] == FreshObservation(t, i, ticks[k])
              && (SegmentAt(t.segments, route, ticks[k], |t.segments|) == i ==>
                    Watch(t, i, sample, at, ticks)[k] == Fresh(t, route, ticks[k]))
    decreases |ticks|
  {
    hide Observe, Fresh, WellFormed, ObserverOk, FreshObservation, SegmentAt, DueIn;
    if ticks != [] {
      ObserveIsFresh(t, i, sample, at, ticks[0]);
      var (sample', at', shown) := Observe(t, i, sample, at, ticks[0]);
      ObservedAsPlayed(t, route, i, sample, at, ticks[0]);
      WatchIsFresh(t, i, sample', at', ticks[1..], route);
    }
  }

  lemma ObservedAsPlayed(t: Track, route: Route, i: nat, sample: nat, at: int, qf: int)
    requires WellFormed(t) && i < |t.segments| && ObserverOk(t, i, sample, at)
    ensures SegmentAt(t.segments, route, qf, |t.segments|) == i ==>
            Observe(t, i, sample, at, qf).2 == Fresh(t, route, qf)
  {
    hide Observe, Update, SegmentAt;
    if SegmentAt(t.segments, route, qf, |t.segments|) == i {
      ObserveAgrees(t, route, REWOUND, i, sample, at, qf);
    }
  }
}
