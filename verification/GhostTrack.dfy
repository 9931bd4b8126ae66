/** Recorded tracks: samples delta-coded in time, cut into route segments. */
module GhostTrack {
  import opened Bytes

  // ---- limits and codes -----------------------------------------------------------------------

  const MAX_DURATION_QF := 107892
  const MAX_SAMPLES := 26974
  const MAX_SEGMENTS := 64
  const INTERVAL_QF := 4
  const MAX_DELTA := 0xFFFF
  const QF_MAX := 0x7FFF_FFFF
  const RESULT_NONE := 0xFFFF_FFFF
  const RUN_INCOMPLETE := 0x8
  const MAX_POSITION := 8_000_000
  const ANIMATION_ID_MAX := 335
  const PHASE_MAX := 4095
  const V4_PHASE_MAX := 255
  const YOSHI_UNKNOWN := 5
  const HELD_UNKNOWN := 15
  const MAX_ATTACHMENTS := 7
  const PARENT_NONE := 0xFF
  const AREA_MAX := 0x3C
  const EPISODE_MAX := 9
  const VARIANT_NONE := -1
  const VARIANT_MAX := 255
  const VERSION_3 := 3
  const VERSION_4 := 4

  // ---- samples --------------------------------------------------------------------------------

  /** One stored pose. `animation` packs id, phase, mount and held-object index. */
  datatype Sample = Sample(yaw: s16, deltaQf: u16, x: s24, y: s24, z: s24, animation: u24)

  function AnimationId(s: Sample): nat { s.animation / 0x8000 }

  /** The stored V4 phase, widened to the V3 range. */
  function PhaseV4(s: Sample): nat { s.animation / 0x80 % 0x100 * PHASE_MAX / V4_PHASE_MAX }

  function PhaseV3(s: Sample): nat { s.animation / 8 % 0x1000 }

  function Phase(s: Sample, version: u16): nat { if version == VERSION_4 then PhaseV4(s) else PhaseV3(s) }

  function Yoshi(s: Sample): nat { s.animation / 0x10 % 8 }

  function Held(s: Sample): nat { s.animation % 0x10 }

  /** Mirrors `setSampleAnimation`: id and phase replaced, the low seven bits kept. */
  function WithAnimation(s: Sample, id: nat, phase: nat): Sample
    requires id < 512 && phase <= PHASE_MAX
  {
    var stored := (phase * V4_PHASE_MAX + PHASE_MAX / 2) / PHASE_MAX;
    assert stored <= 255;
    s.(animation := id * 0x8000 + stored * 0x80 + s.animation % 0x80)
  }

  // ---- segments and tracks --------------------------------------------------------------------

  datatype Route = Route(area: u8, episode: u8, variant: s32, parentArea: u8, flags: u8)

  datatype Segment = Segment(firstSample: u32, sampleCount: u32, startQf: u32, endQf: u32, route: Route) {
    function EndSample(): nat { firstSample + sampleCount }
  }

  datatype Attachment = Attachment(objectId: u32, nameKey: u16)

  datatype Track = Track(samples: seq<Sample>, segments: seq<Segment>, startQf: u32, endQf: u32, resultQf: u32,
                         runFlags: u32, route: Route, version: u16, attachmentFlags: u16,
                         attachments: seq<Attachment>, valid: bool, completed: bool)

  /** Time from the segment's first sample to sample `i`: the deltas after the first. */
  function Elapsed(samples: seq<Sample>, first: nat, i: nat): nat
    requires first <= i < |samples|
    decreases i - first
  {
    if i == first then 0 else Elapsed(samples, first, i - 1) + samples[i].deltaQf
  }

  /** Every delta after the first is a whole interval at least; only the last may be short. */
  predicate Spaced(samples: seq<Sample>, first: nat, end: nat)
    requires end <= |samples|
  {
    forall i :: first < i < end ==> samples[i].deltaQf >= if i + 1 == end then 1 else INTERVAL_QF
  }

  /** A segment whose samples start at its start, end at its end, and are spaced in between. */
  predicate SegmentOk(samples: seq<Sample>, seg: Segment) {
    && seg.sampleCount > 0 && seg.EndSample() <= |samples|
    && samples[seg.firstSample].deltaQf == 0
    && Spaced(samples, seg.firstSample, seg.EndSample())
    && seg.endQf == seg.startQf + Elapsed(samples, seg.firstSample, seg.EndSample() - 1)
  }

  predicate SegmentsOk(samples: seq<Sample>, segments: seq<Segment>) {
    forall i :: 0 <= i < |segments| ==> SegmentOk(samples, segments[i])
  }

  /** Where the `i`th segment's samples should begin. */
  function EndBefore(segments: seq<Segment>, i: nat): nat
    requires i <= |segments|
  {
    if i == 0 then 0 else segments[i - 1].EndSample()
  }

  /** The segments' sample ranges follow each other from zero to `count`. */
  predicate Tiles(segments: seq<Segment>, count: nat) {
    && (forall i {:trigger EndBefore(segments, i)} :: 0 <= i < |segments| ==>
        segments[i].firstSample == EndBefore(segments, i))
    && count == EndBefore(segments, |segments|)
  }

  /** Each segment starts no earlier than the previous one ended. */
  predicate Ordered(segments: seq<Segment>) {
    forall i {:trigger Follows(segments, i)} :: 0 <= i < |segments| ==> Follows(segments, i)
  }

  predicate Follows(segments: seq<Segment>, i: nat)
    requires i < |segments|
  {
    i == 0 || segments[i - 1].endQf <= segments[i].startQf
  }

  /** Tiled and sound, in time order: what every reader of a track relies on. */
  predicate WellFormed(t: Track) {
    && 0 < |t.segments| <= MAX_SEGMENTS && |t.samples| <= MAX_SAMPLES
    && Tiles(t.segments, |t.samples|) && SegmentsOk(t.samples, t.segments) && Ordered(t.segments)
    && t.startQf == t.segments[0].startQf && t.endQf == t.segments[|t.segments| - 1].endQf
    && t.endQf <= t.startQf + MAX_DURATION_QF
    && t.route == t.segments[0].route
  }

  function Last<T>(s: seq<T>): T
    requires s != []
  {
    s[|s| - 1]
  }

  // ---- facts ----------------------------------------------------------------------------------

  /** Elapsed time only looks at the deltas in between. */
  lemma {:induction false} ElapsedFrame(a: seq<Sample>, b: seq<Sample>, first: nat, i: nat)
    requires first <= i < |a| && i < |b|
    requires forall k :: first < k <= i ==> a[k].deltaQf == b[k].deltaQf
    ensures Elapsed(a, first, i) == Elapsed(b, first, i)
    decreases i - first
  {
    if first < i {
      ElapsedFrame(a, b, first, i - 1);
    }
  }

  /** A segment that ends before the samples differ is unaffected. */
  lemma SegmentFrame(a: seq<Sample>, b: seq<Sample>, seg: Segment)
    requires SegmentOk(a, seg) && seg.EndSample() <= |b|
    requires forall k :: seg.firstSample <= k < seg.EndSample() ==> a[k] == b[k]
    ensures SegmentOk(b, seg)
  {
    ElapsedFrame(a, b, seg.firstSample, seg.EndSample() - 1);
  }

  lemma {:induction false} ElapsedGrows(samples: seq<Sample>, first: nat, i: nat, j: nat)
    requires first <= i <= j < |samples|
    ensures Elapsed(samples, first, i) <= Elapsed(samples, first, j)
    decreases j - i
  {
    if i < j {
      ElapsedGrows(samples, first, i, j - 1);
    }
  }

  /** In a tiling, earlier segments end before later ones begin. */
  lemma {:induction false} TilesApart(segments: seq<Segment>, count: nat, i: nat, j: nat)
    requires Tiles(segments, count) && i < j < |segments|
    ensures segments[i].EndSample() <= segments[j].firstSample
    decreases j - i
  {
    assert segments[j].firstSample == EndBefore(segments, j);
    if i + 1 < j {
      TilesApart(segments, count, i, j - 1);
    }
  }

  lemma TilesWithin(segments: seq<Segment>, count: nat, i: nat)
    requires Tiles(segments, count) && i < |segments|
    ensures segments[i].EndSample() <= count
  {
    if i + 1 < |segments| {
      TilesApart(segments, count, i, |segments| - 1);
    }
  }

  /** Every sample belongs to exactly one segment. */
  lemma {:induction false} TilesCover(segments: seq<Segment>, count: nat, k: nat) returns (i: nat)
    requires Tiles(segments, count) && k < count
    ensures i < |segments| && segments[i].firstSample <= k < segments[i].EndSample()
    ensures forall j :: 0 <= j < |segments| && segments[j].firstSample <= k < segments[j].EndSample() ==> j == i
    decreases |segments|
  {
    var last := Last(segments);
    if last.firstSample <= k {
      i := |segments| - 1;
    } else {
      var front := segments[..|segments| - 1];
      assert last.firstSample == EndBefore(segments, |segments| - 1);
      TilesPrefix(segments, count, |segments| - 1);
      i := TilesCover(front, last.firstSample, k);
      assert segments[i] == front[i];
    }
    forall j | 0 <= j < |segments| && segments[j].firstSample <= k < segments[j].EndSample()
      ensures j == i
    {
      if j < i {
        TilesApart(segments, count, j, i);
      } else if i < j {
        TilesApart(segments, count, i, j);
      }
    }
  }

  /** Dropping trailing segments leaves a tiling of the samples before them. */
  lemma TilesPrefix(segments: seq<Segment>, count: nat, n: nat)
    requires Tiles(segments, count) && n <= |segments|
    ensures Tiles(segments[..n], EndBefore(segments, n))
  {
    forall i | 0 <= i <= n
      ensures EndBefore(segments[..n], i) == EndBefore(segments, i)
    {
    }
  }

  lemma SegmentsPrefix(samples: seq<Sample>, segments: seq<Segment>, n: nat)
    requires Tiles(segments, |samples|) && n <= |segments|
    requires forall i :: 0 <= i < n ==> SegmentOk(samples, segments[i])
    ensures var end := EndBefore(segments, n);
            end <= |samples| && SegmentsOk(samples[..end], segments[..n])
  {
    if n > 0 {
      TilesWithin(segments, |samples|, n - 1);
      var end := segments[n - 1].EndSample();
      forall i | 0 <= i < n
        ensures SegmentOk(samples[..end], segments[i])
      {
        if i < n - 1 {
          TilesApart(segments, |samples|, i, n - 1);
        }
        SegmentFrame(samples, samples[..end], segments[i]);
      }
    }
  }

  /** Segments lie in time order throughout, so the whole track spans its end points. */
  lemma {:induction false} OrderedSpan(t: Track, i: nat)
    requires WellFormed(t) && i < |t.segments|
    ensures t.startQf <= t.segments[i].startQf <= t.segments[i].endQf <= t.endQf
    decreases |t.segments| - i
  {
    ElapsedNatural(t, i);
    if i + 1 < |t.segments| {
      OrderedSpan(t, i + 1);
      assert Follows(t.segments, i + 1);
    }
    StartsAfter(t, i);
  }

  lemma {:induction false} StartsAfter(t: Track, i: nat)
    requires WellFormed(t) && i < |t.segments|
    ensures t.startQf <= t.segments[i].startQf
    decreases i
  {
    if i > 0 {
      StartsAfter(t, i - 1);
      ElapsedNatural(t, i - 1);
      assert Follows(t.segments, i);
    }
  }

  lemma ElapsedNatural(t: Track, i: nat)
    requires WellFormed(t) && i < |t.segments|
    ensures t.segments[i].startQf <= t.segments[i].endQf
  {
    assert SegmentOk(t.samples, t.segments[i]);
  }

  // ---- time within a segment ------------------------------------------------------------------

  /** The time of sample `i` of a segment. */
  function TimeOf(samples: seq<Sample>, seg: Segment, i: nat): nat
    requires seg.firstSample <= i < |samples|
  {
    seg.startQf + Elapsed(samples, seg.firstSample, i)
  }

  /** `j` is the segment's last sample at or before `qf`. */
  predicate IsLastAt(samples: seq<Sample>, seg: Segment, j: nat, qf: int) {
    && seg.EndSample() <= |samples| && seg.firstSample <= j < seg.EndSample()
    && TimeOf(samples, seg, j) <= qf
    && (j + 1 < seg.EndSample() ==> qf < TimeOf(samples, seg, j + 1))
  }

  lemma LastAtUnique(samples: seq<Sample>, seg: Segment, j: nat, k: nat, qf: int)
    requires IsLastAt(samples, seg, j, qf) && IsLastAt(samples, seg, k, qf)
    ensures j == k
  {
    if j < k {
      ElapsedGrows(samples, seg.firstSample, j + 1, k);
    } else if k < j {
      ElapsedGrows(samples, seg.firstSample, k + 1, j);
    }
  }
}
