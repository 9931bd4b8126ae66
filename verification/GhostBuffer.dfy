/** A track slot as it is stored: two fixed buffers edited in place. Every method is proved to do to
    its buffers what the track functions do to values. */
module GhostBuffer {
  import opened Bytes
  import opened GhostTrack
  import opened GhostFinish
  import opened GhostCapture
  import opened GhostRecorder

  /** A track's fields besides its buffers. */
  datatype Header = Header(startQf: u32, endQf: u32, resultQf: u32, runFlags: u32, route: Route, version: u16,
                           attachmentFlags: u16, attachments: seq<Attachment>, valid: bool, completed: bool,
                           saved: bool, pb: bool, pbToken: u32)

  const CLEARED_HEADER := Header(0, 0, RESULT_NONE, RUN_INCOMPLETE, NO_ROUTE, VERSION_4, 0, [], false, false, false,
                                 false, 0)

  function TrackOf(samples: seq<Sample>, segments: seq<Segment>, h: Header): Track {
    Track(samples, segments, h.startQf, h.endQf, h.resultQf, h.runFlags, h.route, h.version, h.attachmentFlags,
          h.attachments, h.valid, h.completed)
  }

  class TrackBuffer {
    const samples: array<Sample>
    const segments: array<Segment>
    var count: nat
    var segmentCount: nat
    var header: Header

    ghost predicate Valid()
      reads this
    {
      samples.Length == MAX_SAMPLES && segments.Length == MAX_SEGMENTS && count <= MAX_SAMPLES &&
      segmentCount <= MAX_SEGMENTS
    }

    /** The track the buffers hold. */
    ghost function Contents(): Track
      requires Valid()
      reads this, samples, segments
    {
      TrackOf(samples[..count], segments[..segmentCount], header)
    }

    ghost function Value(): Slot
      requires Valid()
      reads this, samples, segments
    {
      Slot(Contents(), header.saved, header.pb, header.pbToken)
    }

    constructor ()
      ensures Valid() && fresh(samples) && fresh(segments) && Value() == EMPTY
    {
      samples := new Sample[MAX_SAMPLES];
      segments := new Segment[MAX_SEGMENTS];
      count, segmentCount, header := 0, 0, CLEARED_HEADER;
    }

    method Clear()
      requires Valid()
      modifies this
      ensures Valid() && Value() == EMPTY
    {
      count, segmentCount, header := 0, 0, CLEARED_HEADER;
      assert samples[..count] == [] && segments[..segmentCount] == [];
    }

    /** Fill the slot from a track that fits. */
    method Install(t: Track, loaded: Header)
      requires Valid() && |t.samples| <= MAX_SAMPLES && |t.segments| <= MAX_SEGMENTS
      requires t == TrackOf(t.samples, t.segments, loaded)
      modifies this, samples, segments
      ensures Valid() && Value() == Slot(t, loaded.saved, loaded.pb, loaded.pbToken)
    {
      forall i | 0 <= i < |t.samples| {
        samples[i] := t.samples[i];
      }
      forall i | 0 <= i < |t.segments| {
        segments[i] := t.segments[i];
      }
      count, segmentCount, header := |t.samples|, |t.segments|, loaded;
      assert samples[..count] == t.samples && segments[..segmentCount] == t.segments;
    }

    method AddSegment(live: Route)
      requires Valid() && segmentCount < MAX_SEGMENTS
      modifies this, segments
      ensures Valid() && Value() == old(Value()).(track := GhostCapture.AddSegment(old(Contents()), live))
    {
      segments[segmentCount] := Segment(count, 0, 0, 0, live);
      segmentCount := segmentCount + 1;
      if segmentCount == 1 {
        header := header.(route := live);
      } else {
        header := header.(runFlags := SetFlag(header.runFlags, CustomRoute));
      }
    }

    /** Withdraw every segment from `base` on. */
    method Rollback(base: nat)
      requires Valid() && Weak(Contents()) && base < segmentCount
      modifies this
      ensures Valid() && EndBefore(old(Contents()).segments, base) <= |old(Contents()).samples|
      ensures Value() == old(Value()).(track := GhostCapture.Rollback(old(Contents()), base))
    {
      hide ContentOk, Tiles;
      WeakRollback(Contents(), base);
      segmentCount := base;
      if base == 0 {
        count := 0;
        header := header.(startQf := 0, endQf := 0, valid := false,
                          runFlags := ClearFlag(header.runFlags, CustomRoute));
      } else {
        var last := segments[base - 1];
        count := last.EndSample();
        header := header.(endQf := last.endQf);
        if base == 1 {
          header := header.(runFlags := ClearFlag(header.runFlags, CustomRoute));
        }
      }
    }

    method DropEmpty()
      requires Valid() && segmentCount > 0 && segments[segmentCount - 1].sampleCount == 0
      modifies this
      ensures Valid() && Value() == old(Value()).(track := GhostCapture.DropEmpty(old(Contents())))
    {
      segmentCount := segmentCount - 1;
      if segmentCount <= 1 {
        header := header.(runFlags := ClearFlag(header.runFlags, CustomRoute));
      }
    }

    /** Empty the last segment for a new clock. */
    method Restart()
      requires Valid() && Weak(Contents()) && segmentCount > 0
      modifies this, segments
      ensures Valid() && Last(old(Contents()).segments).firstSample <= |old(Contents()).samples|
      ensures Value() == old(Value()).(track := GhostCapture.Restart(old(Contents())))
    {
      hide ContentOk, Tiles;
      RestartWeak(Contents());
      ghost var before := Contents();
      var last := segments[segmentCount - 1];
      count := last.firstSample;
      segments[segmentCount - 1] := last.(sampleCount := 0, startQf := 0, endQf := 0);
      if segmentCount == 1 {
        header := header.(startQf := 0, endQf := 0, valid := false);
      } else {
        header := header.(endQf := segments[segmentCount - 2].endQf);
      }
      header := header.(resultQf := RESULT_NONE, completed := false);
      assert segments[..segmentCount] == SetLast(before.segments, segments[segmentCount - 1]);
    }

    /** The place of a held object's descriptor, stored on first sight. */
    method Capture(held: Hands) returns (place: nat)
      requires Valid() && |header.attachments| <= MAX_ATTACHMENTS && header.attachmentFlags <= OVERFLOW
      modifies this`header
      ensures Valid() && place <= HELD_UNKNOWN
      ensures (Contents(), place) == GhostCapture.Capture(old(Contents()), held)
      ensures header == old(header).(attachments := header.attachments, attachmentFlags := header.attachmentFlags)
    {
      if held.EmptyHanded? {
        return 0;
      }
      var wanted, known := Attachment(held.objectId, held.nameKey), header.attachments;
      if wanted == Attachment(0, 0) {
        header := header.(attachmentFlags := OVERFLOW);
        return HELD_UNKNOWN;
      }
      var i := 0;
      while i < |known|
        invariant i <= |known| && wanted !in known[..i]
      {
        if known[i] == wanted {
          FirstPlace(known, wanted, i);
          return i + 1;
        }
        i := i + 1;
      }
      if |known| < MAX_ATTACHMENTS {
        header := header.(attachments := known + [wanted]);
        return |known| + 1;
      }
      header := header.(attachmentFlags := OVERFLOW);
      return HELD_UNKNOWN;
    }

    method Store(sample: Sample, qf: u32, active: bool)
      requires Valid() && segmentCount > 0 && count < MAX_SAMPLES && segments[segmentCount - 1].sampleCount <= count
      modifies this, samples, segments
      ensures Valid()
      ensures Value() == old(Value()).(track := GhostCapture.Store(old(Contents()), sample, qf, active))
    {
      ghost var before := Contents();
      samples[count] := sample;
      var last := segments[segmentCount - 1];
      if last.sampleCount == 0 {
        last := last.(startQf := qf);
        if count == 0 {
          header := header.(startQf := qf);
        }
      }
      last := last.(sampleCount := last.sampleCount + 1, endQf := qf);
      count := count + 1;
      segments[segmentCount - 1] := last;
      header := header.(endQf := qf, valid := header.valid || (active && count >= MIN_SAMPLES));
      assert samples[..count] == before.samples + [sample];
      assert segments[..segmentCount] == SetLast(before.segments, last);
    }

    method AddSample(pose: Pose, qf: u32, delta: u16, active: bool)
      requires Valid() && segmentCount > 0 && count < MAX_SAMPLES && segments[segmentCount - 1].sampleCount <= count
      requires |header.attachments| <= MAX_ATTACHMENTS && header.attachmentFlags <= OVERFLOW
      modifies this, samples, segments
      ensures Valid()
      ensures Value() == old(Value()).(track := GhostCapture.AddSample(old(Contents()), pose, qf, delta, active))
    {
      hide MakeSample, GhostCapture.Capture, GhostCapture.Store;
      var held := Capture(pose.held);
      Store(MakeSample(pose, delta, held), qf, active);
    }

    /** Where the clock value falls in the last segment. */
    method Seek(qf: s32) returns (stop: Stop)
      requires Valid() && segmentCount > 0
      requires var seg := segments[segmentCount - 1];
               seg.sampleCount > 0 && seg.EndSample() <= count && seg.startQf <= qf
      ensures stop == Walk(samples[..count], segments[segmentCount - 1].firstSample,
                           segments[segmentCount - 1].EndSample(), segments[segmentCount - 1].startQf, qf)
    {
      var seg := segments[segmentCount - 1];
      var index, at, end := seg.firstSample as nat, seg.startQf as int, seg.EndSample();
      while index + 1 < end
        invariant seg.firstSample <= index < end && at <= qf
        invariant Walk(samples[..count], index, end, at, qf)
                  == Walk(samples[..count], seg.firstSample, end, seg.startQf, qf)
      {
        var next: int := at + samples[index + 1].deltaQf;
        if next == qf {
          return Exact(index);
        }
        if next > qf {
          return Between(index, at);
        }
        at, index := next, index + 1;
      }
      return RanOut(index, at);
    }

    /** End the last segment at `qf`: on a stored sample, on one interpolated in place, or by holding
        the last pose. Refusal changes nothing. */
    method FinishAt(qf: s32) returns (ok: bool)
      requires Valid() && Weak(Contents())
      modifies this, samples, segments
      ensures Valid() && ok == FinishedTrack(old(Contents()), qf).Ok?
      ensures Value() == if ok then old(Value()).(track := FinishedTrack(old(Contents()), qf).value) else old(Value())
    {
      hide Weak, Terminal, Walk, Cut;
      if segmentCount == 0 {
        return false;
      }
      ghost var t := Contents();
      FrontWeak(t);
      var seg := segments[segmentCount - 1];
      if seg.sampleCount == 0 || qf < seg.startQf || qf - header.startQf > MAX_DURATION_QF {
        return false;
      }
      var stop := Seek(qf);
      WalkBounds(t.samples, seg.firstSample, seg.EndSample(), seg.startQf, qf);
      ok := true;
      assert t.samples == samples[..count] && seg.EndSample() == count;
      match stop
      case Exact(i) =>
        EndLast(i + 2, qf);
        assert samples[..i + 2] == t.samples[..i + 2];
      case Between(i, at) =>
        assert i + 1 < count;
        if qf == at {
          EndLast(i + 1, qf);
          assert samples[..i + 1] == t.samples[..i + 1];
        } else {
          assert samples[..i + 1] == t.samples[..i + 1];
          EndWith(i + 1, Terminal(samples[i], samples[i + 1], qf - at, samples[i + 1].deltaQf, header.version), qf);
        }
      case RanOut(i, at) =>
        if qf == at {
          EndLast(i + 1, qf);
          assert samples[..i + 1] == t.samples[..i + 1];
        } else if qf - at > MAX_DELTA || count >= MAX_SAMPLES {
          ok := false;
        } else {
          assert t.samples[..i + 1] == t.samples;
          EndWith(count, samples[count - 1].(deltaQf := qf - at), qf);
        }
    }

    /** The last segment cut to end with `sample` at place `n`. */
    method EndWith(n: nat, sample: Sample, qf: u32)
      requires Valid() && segmentCount > 0 && segments[segmentCount - 1].firstSample <= n <= count && n < MAX_SAMPLES
      modifies this, samples, segments
      ensures Valid()
      ensures Value() == old(Value()).(track := Cut(old(Contents()), old(samples[..n]) + [sample], qf))
    {
      ghost var before := Contents();
      samples[n] := sample;
      CutFrame(before, Contents(), samples[..n + 1], qf);
      EndLast(n + 1, qf);
      assert samples[..n + 1] == before.samples[..n] + [sample];
    }

    /** The last segment cut to end with the first `n` samples, at `qf`. */
    method EndLast(n: nat, qf: u32)
      requires Valid() && segmentCount > 0 && segments[segmentCount - 1].firstSample <= n <= MAX_SAMPLES
      modifies this, segments
      ensures Valid() && count == n
      ensures Value() == old(Value()).(track := Cut(old(Contents()), samples[..n], qf))
    {
      ghost var before := Contents();
      var last := segments[segmentCount - 1];
      last := last.(sampleCount := n - last.firstSample, endQf := qf);
      count := n;
      segments[segmentCount - 1] := last;
      header := header.(endQf := qf);
      assert segments[..segmentCount] == before.segments[..segmentCount - 1] + [last];
    }
  }

  /** Cutting replaces the samples, whatever they were. */
  lemma CutFrame(a: Track, b: Track, samples: seq<Sample>, qf: u32)
    requires a.(samples := b.samples) == b && a.segments != []
    requires Last(a.segments).firstSample <= |samples| < 0x1_0000_0000
    ensures Cut(a, samples, qf) == Cut(b, samples, qf)
  {
  }

  lemma FrontWeak(t: Track)
    requires Weak(t) && t.segments != []
    ensures Last(t.segments).EndSample() == |t.samples| <= MAX_SAMPLES
  {
    FrontEnds(t, |t.segments| - 1);
  }

  /** The first match is the place. */
  lemma {:induction false} FirstPlace(attachments: seq<Attachment>, a: Attachment, i: nat)
    requires i < |attachments| && attachments[i] == a && a !in attachments[..i]
    ensures Place(attachments, a) == i + 1
    decreases |attachments|
  {
    var front := attachments[..|attachments| - 1];
    if i < |attachments| - 1 {
      assert front[..i] == attachments[..i];
      FirstPlace(front, a, i);
    } else {
      assert front == attachments[..i];
    }
  }
}
