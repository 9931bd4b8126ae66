/** What a frame comes to: the sample it adds, the ghost it shows, the run it ends, the attempt it starts. */
module GhostOutcomes {
  import opened Bytes
  import opened GhostTrack
  import opened GhostFinish
  import opened GhostCapture
  import opened GhostPlayback
  import opened GhostRecorder

  // ---- one sample offered ---------------------------------------------------------------------

  /** The recorder remembers the time of the last sample of the segment it is filling. */
  predicate Clocked(s: State) {
    var t := s.record.track;
    && Weak(t)
    && (t.segments != [] && Last(t.segments).sampleCount > 0 ==>
          FilledTo(t) && s.lastSampleQf == TimeOf(t.samples, Last(t.segments), |t.samples| - 1))
  }

  predicate FilledTo(t: Track)
    requires t.segments != []
  {
    Last(t.segments).firstSample < |t.samples| == Last(t.segments).EndSample()
  }

  lemma PreparedClocked(s: State)
    requires Prepared(s)
    ensures Clocked(s) && s.record.track.segments != [] && Last(s.record.track.segments).sampleCount > 0
  {
    CapturingFacts(s.record.track);
    assert SegmentOk(s.record.track.samples, Last(s.record.track.segments));
  }

  /** Descriptors are only added, so whatever reads back from `t` reads back the same from `u`. */
  predicate SameReadings(t: Track, u: Track) {
    t.attachments <= u.attachments && (t.attachmentFlags == OVERFLOW ==> u.attachmentFlags == OVERFLOW)
  }

  lemma StillReads(t: Track, u: Track, s: Sample, pose: Pose)
    requires ReadsBack(t, s, pose) && SameReadings(t, u)
    ensures ReadsBack(u, s, pose)
  {
  }

  /** One more sample, which reads back as the pose and stands at `qf`; everything recorded before is as it was. */
  ghost predicate Grown(t: Track, u: Track, pose: Pose, qf: int)
    requires t.segments != []
  {
    var n, m := |t.samples|, |t.segments|;
    && |u.samples| == n + 1 && u.samples[..n] == t.samples && ReadsBack(u, u.samples[n], pose)
    && |u.segments| == m && u.segments[..m - 1] == t.segments[..m - 1] && SameReadings(t, u)
    && var was, now := Last(t.segments), Last(u.segments);
       && now.firstSample == was.firstSample <= n && now.route == was.route && now.sampleCount == was.sampleCount + 1
       && now.startQf == (if was.sampleCount == 0 then qf else was.startQf) && now.endQf == qf
       && TimeOf(u.samples, now, n) == qf
       && u.endQf == qf && u.startQf == (if n == 0 then qf else t.startQf)
       && u.route == t.route && u.runFlags == t.runFlags && u.completed == t.completed && u.resultQf == t.resultQf
  }

  /** Recording ended by a failure: what was recorded is no longer valid. */
  predicate Refused(s: State, r: State) {
    && !r.recording && !r.record.track.valid && r.clock == s.clock
    && r.record.track.samples == s.record.track.samples && r.record.track.segments == s.record.track.segments
  }

  /** Recording ended for want of room or time: what was recorded stays. */
  predicate Stopped(s: State, r: State) {
    && !r.recording && r.clock == s.clock.(phase := Finished) && r.record.track.valid == s.record.track.valid
    && r.record.track.samples == s.record.track.samples && r.record.track.endQf == s.record.track.endQf
    && r.record.track.segments <= s.record.track.segments
  }

  /** Time from the last sample of the segment being filled; none if it is empty. */
  function Since(t: Track, qf: int): int
    requires t.segments != [] && (Last(t.segments).sampleCount > 0 ==> FilledTo(t))
  {
    if Last(t.segments).sampleCount == 0 then 0 else qf - TimeOf(t.samples, Last(t.segments), |t.samples| - 1)
  }

  lemma AddGrows(t: Track, pose: Pose, qf: u32, delta: u16, active: bool)
    requires Weak(t) && t.segments != [] && |t.samples| < MAX_SAMPLES
    requires Last(t.segments).sampleCount > 0 ==> FilledTo(t)
    requires Last(t.segments).sampleCount > 0 ==> Since(t, qf) == delta
    ensures Last(t.segments).sampleCount < MAX_SAMPLES && |t.attachments| <= MAX_ATTACHMENTS
    ensures t.attachmentFlags <= OVERFLOW
    ensures Grown(t, AddSample(t, pose, qf, delta, active), pose, qf)
  {
    hide MakeSample, Capture, ReadsBack, ContentOk, Unnameable;
    ContentFacts(t);
    FrontEnds(t, |t.segments| - 1);
    CapturedPose(t, pose, delta);
    var (t', held) := Capture(t, pose.held);
    var s := MakeSample(pose, delta, held);
    var u, seg := AddSample(t, pose, qf, delta, active), Last(t.segments);
    StillReads(t', u, s, pose);
    if seg.sampleCount > 0 {
      ElapsedFrame(t.samples, u.samples, seg.firstSample, |t.samples| - 1);
    }
  }

  lemma ContentFacts(t: Track)
    requires Weak(t)
    ensures ContentOk(t) && |t.attachments| <= MAX_ATTACHMENTS && t.attachmentFlags <= OVERFLOW
  {
  }

  lemma GrownClocked(t: Track, u: Track, pose: Pose, qf: int)
    requires t.segments != [] && Grown(t, u, pose, qf)
    requires Last(t.segments).EndSample() == |t.samples|
    ensures u.segments != [] && FilledTo(u) && TimeOf(u.samples, Last(u.segments), |u.samples| - 1) == qf
  {
    hide ReadsBack;
  }

  /** The frame brings a sample for a track that has room and time for it. */
  predicate Fits(t: Track, mario: Mario, qf: int)
    requires t.segments != [] && (Last(t.segments).sampleCount > 0 ==> FilledTo(t))
  {
    && mario.Seen? && 0 <= qf && |t.samples| < MAX_SAMPLES && (t.samples != [] ==> qf - t.startQf <= MAX_DURATION_QF)
    && (if Last(t.segments).sampleCount == 0 then Since(t, qf) == 0 else INTERVAL_QF <= Since(t, qf) <= MAX_DELTA)
  }

  /** The sample is stored: the track grows by it, and turns valid once it is long enough under a settled clock. */
  ghost predicate Stored(s: State, r: State, pose: Pose, qf: int)
    requires s.record.track.segments != []
  {
    var t := s.record.track;
    && Grown(t, r.record.track, pose, qf) && r.lastSampleQf == qf && Clocked(r)
    && r.recording == s.recording && r.clock == s.clock && !r.record.saved
    && (r.record.track.valid <==> t.valid || (s.clock.phase.Active? && |t.samples| + 1 >= MIN_SAMPLES))
    && r.tokens.recordChanges == s.tokens.recordChanges + 1
  }

  lemma SampleStored(s: State, mario: Mario, qf: s32)
    requires Clocked(s) && s.record.track.segments != [] && Fits(s.record.track, mario, qf)
    ensures var (r, ok) := AppendSample(s, mario, qf); ok && Stored(s, r, mario.pose, qf)
  {
    hide Bump, ContentOk, ReadsBack, AddSample, Grown, TimeOf, Weak;
    var t, active := s.record.track, s.clock.phase.Active?;
    AppendWeak(s, mario, qf);
    FrontEnds(t, |t.segments| - 1);
    WeakLast(t);
    AddGrows(t, mario.pose, qf, Since(t, qf), active);
    AddKeeps(t, mario.pose, qf, Since(t, qf), active);
    GrownClocked(t, AddSample(t, mario.pose, qf, Since(t, qf), active), mario.pose, qf);
  }

  lemma FailureRefuses(s: State)
    ensures Refused(s, Fail(s))
  {
    hide Bump;
  }

  lemma CapStops(s: State)
    ensures Stopped(s, GhostRecorder.Stop(s))
  {
    hide Bump;
  }

  /** What comes of offering a sample, in the order things are looked at. */
  lemma SampleOffered(s: State, mario: Mario, qf: s32)
    requires Clocked(s)
    ensures var (r, ok) := AppendSample(s, mario, qf);
            var t := s.record.track;
            if mario.Absent? || qf < 0 || t.segments == [] then !ok && Refused(s, r)
            else if (t.samples != [] && qf - t.startQf > MAX_DURATION_QF) || |t.samples| >= MAX_SAMPLES
            then !ok && Stopped(s, r)
            else if Since(t, qf) < 0 || Since(t, qf) > MAX_DELTA then !ok && Refused(s, r)
            else if Last(t.segments).sampleCount > 0 && Since(t, qf) < INTERVAL_QF then ok && r == s
            else if !mario.Seen? then !ok && Refused(s, r)
            else ok && Stored(s, r, mario.pose, qf)
  {
    hide AddSample, Stored, TimeOf, Fail, GhostRecorder.Stop, Refused, Stopped, Weak;
    var t := s.record.track;
    FailureRefuses(s);
    CapStops(s);
    if t.segments != [] {
      FrontEnds(t, |t.segments| - 1);
      if Fits(t, mario, qf) {
        SampleStored(s, mario, qf);
      }
    }
  }

  // ---- what is shown --------------------------------------------------------------------------

  /** The ghost is shown exactly as the playback track has it for the live route and the clock. */
  ghost predicate ShownDue(s: State, qf: int) {
    if !s.liveValid || !s.playback.track.valid then s.shown.Hidden?
    else Due(s.playback.track, s.live, qf, s.shown)
  }

  lemma ShowDue(s: State, qf: int)
    requires Inv(s)
    ensures ShownDue(Show(s, qf), qf)
  {
    hide Settled, Capturing, Publishable, Weak, LastFollows, HasFlag, CursorOk, Update, Due;
    if s.liveValid && s.playback.track.valid {
      PublishableShown(s.playback.track);
      UpdateIsFresh(s.playback.track, s.live, s.cursor, qf);
    }
  }

  /** Recording does not touch what is shown. */
  predicate SameShow(a: State, b: State) {
    && b.shown == a.shown && b.live == a.live && b.liveValid == a.liveValid && b.playback == a.playback
    && b.pinned == a.pinned && b.tokens.origin == a.tokens.origin
  }

  lemma AppendSameShow(s: State, mario: Mario, qf: int)
    requires Weak(s.record.track) && -0x8000_0000 <= qf < 0x8000_0000
    ensures SameShow(s, AppendSample(s, mario, qf).0)
  {
    hide AddSample, DropEmpty, Bump, Weak, ContentOk;
    if s.record.track.segments != [] {
      FrontEnds(s.record.track, |s.record.track.segments| - 1);
    }
  }

  lemma StartEpochSameShow(s: State, mario: Mario, qf: s32)
    requires Weak(s.record.track)
    ensures SameShow(s, StartEpoch(s, mario, qf).0)
  {
    hide AppendSample, Weak, Bump, Restart;
    ClearEpochWeak(s);
    var cleared := ClearEpoch(s);
    var anchor: int := if |s.record.track.segments| == 1 then 0 else qf;
    AppendSameShow(cleared, mario, anchor);
    AppendWeak(cleared, mario, anchor);
    AppendSameShow(AppendSample(cleared, mario, anchor).0, mario, qf);
  }

  lemma AttemptShowsNothing(s: State, f: Frame, qf: s32, boundaryReset: bool)
    requires Weak(s.record.track)
    ensures BeginAttempt(s, f, qf, boundaryReset).shown.Hidden?
  {
    hide StartEpoch, Weak, Bump, Promote, KeepsChallenger, AddSegment;
    var arrived := s.(live := RouteOf(f.scene), liveValid := true);
    var keep := KeepsChallenger(arrived, f.lastSuccess, boundaryReset);
    var promoted := Promote(arrived, f.lastSuccess, boundaryReset);
    ResetWeak(promoted, qf);
    if !keep {
      var ready := Reset(promoted, false, qf);
      AppendSegmentWeak(ready);
      StartEpochSameShow(AppendSegment(ready).0, f.mario, qf);
    }
  }

  lemma EntryShowsNothing(s: State, f: Frame, qf: s32)
    requires Weak(s.record.track)
    ensures EnterStage(s, f, qf).shown.Hidden?
  {
    hide StartEpoch, Weak, Bump, BeginAttempt, AddSegment, Rollback;
    var entered := s.(live := RouteOf(f.scene), liveValid := true,
                      handover := s.handover.(routePending := false, hadLive := false, continuing := false));
    var t, previous := s.record.track, s.handover.previousQf;
    var prior := if s.handover.continuing && t.segments != [] && previous < t.endQf then t.endQf as int else previous;
    var waiting := Rewind(PrepareClock(entered.(boundary := Boundary(true, prior, |t.segments|)), qf));
    AttemptShowsNothing(entered, f, qf, false);
    ResumeShowsNothing(waiting, f.mario, qf);
  }

  lemma ResumeShowsNothing(s: State, mario: Mario, qf: s32)
    requires Weak(s.record.track)
    ensures SameShow(s, GhostRecorder.Resume(s, mario, qf))
  {
    hide StartEpoch, Weak, Bump, AddSegment, Rollback;
    var resumed := s.(recording := true);
    AppendSegmentWeak(resumed);
    var (added, ok) := AppendSegment(resumed);
    StartEpochSameShow(added, mario, qf);
    StartEpochWeak(added, mario, qf);
    RollbackSameShow(StartEpoch(added, mario, qf).0);
    RollbackSameShow(added);
  }

  lemma RollbackSameShow(s: State)
    requires Weak(s.record.track)
    ensures SameShow(s, RollbackBoundary(s))
  {
    hide Weak, Bump, Rollback;
  }

  lemma AdvanceShows(s: State, f: Frame, qf: s32, stopped: bool)
    requires Inv(s) && !s.handover.routePending
    ensures var r := Advance(s, f, qf, stopped); r.shown.Hidden? || ShownDue(r, qf)
    ensures Watched(s, f, qf, stopped) ==> ShownDue(Advance(s, f, qf, stopped), qf)
  {
    hide Inv, SettleBoundary, Follow, Show, ShownDue, Fail, AssistStop, Weak;
    InvWeak(s);
    if f.mario.Absent? || f.fastForward || s.clock.phase.Unavailable? || s.clock.phase.WaitStage? {
    } else if s.boundary.pending {
      SettleBoundaryOk(s, f, qf, stopped);
      ShowDue(SettleBoundary(s, f, qf, stopped), qf);
      if StartsOver(s, qf) {
        BoundaryStartsOver(s, f, qf, stopped);
      }
    } else {
      FollowOk(s, f, qf, stopped);
      ShowDue(Follow(s, f, qf, stopped), qf);
      if !(stopped && (s.clock.phase.Provisional? || s.clock.phase.Active?)) && StartsOver(s, qf) {
        FollowStartsOver(s, f, qf, stopped);
      }
    }
  }

  /** A frame on which the ghost is to be seen: Mario is there, the clock runs, and nothing starts over. */
  predicate Watched(s: State, f: Frame, qf: s32, stopped: bool)
    requires Weak(s.record.track)
  {
    && !f.mario.Absent? && !f.fastForward && !s.clock.phase.Unavailable? && !s.clock.phase.WaitStage?
    && ((!s.boundary.pending && stopped && (s.clock.phase.Provisional? || s.clock.phase.Active?)) ||
        (qf >= s.clock.lastQf && (s.boundary.pending ==> qf >= s.boundary.priorQf)))
  }

  lemma BoundaryStartsOver(s: State, f: Frame, qf: s32, stopped: bool)
    requires Inv(s) && s.boundary.pending && StartsOver(s, qf)
    ensures SettleBoundary(s, f, qf, stopped).shown.Hidden?
  {
    hide Inv, BeginAttempt;
    InvWeak(s);
    AttemptShowsNothing(AfterRollback(s), f, qf, true);
  }

  lemma FollowStartsOver(s: State, f: Frame, qf: s32, stopped: bool)
    requires Inv(s) && !s.boundary.pending && StartsOver(s, qf)
    requires !(stopped && (s.clock.phase.Provisional? || s.clock.phase.Active?))
    ensures Follow(s, f, qf, stopped).shown.Hidden?
  {
    hide Inv, BeginAttempt;
    InvWeak(s);
    AttemptShowsNothing(AfterRollback(s), f, qf, true);
  }

  predicate Seeing(s: State, f: Frame)
    requires Weak(s.record.track)
  {
    && f.reading.Reading? && f.serial == s.serial && !s.handover.routePending
    && Watched(s, f, f.reading.qf, f.reading.stopped)
  }

  /** After any frame the ghost is hidden, or shown exactly where it is due on the live route at the frame's
      clock; on a frame on which it is to be seen, it is. */
  lemma FrameShows(s: State, f: Frame)
    requires Inv(s)
    ensures var r := Tick(s, f); r.shown.Hidden? || (f.reading.Reading? && ShownDue(r, f.reading.qf))
    ensures Weak(s.record.track)
    ensures Seeing(s, f) ==> ShownDue(Tick(s, f), f.reading.qf)
  {
    hide Inv, Advance, EnterStage, Resync, ShownDue, Watched;
    InvWeak(s);
    if f.reading.Reading? {
      var Reading(qf, stopped) := f.reading;
      if f.serial != s.serial {
        ResyncOk(s, f, qf);
        AdvanceShows(Resync(s, f, qf), f, qf, stopped);
      } else if s.handover.routePending {
        EntryShowsNothing(s, f, qf);
      } else {
        AdvanceShows(s, f, qf, stopped);
      }
    }
  }

  // ---- what a frame records -------------------------------------------------------------------

  /** An ordinary frame of a recording: the same attempt and stage, the clock running on, Mario under control. */
  predicate Ordinary(s: State, f: Frame) {
    && s.recording && f.reading.Reading? && !f.reading.stopped && f.serial == s.serial
    && !s.handover.routePending && !s.boundary.pending && !f.mario.Absent? && !f.fastForward
    && !s.clock.phase.Unavailable? && !s.clock.phase.WaitStage? && f.reading.qf >= s.clock.lastQf
  }

  /** This frame makes the clock settled: half a second of observations and eight ticks, at normal speed. */
  predicate Settles(s: State, f: Frame)
    requires f.reading.Reading?
  {
    && s.clock.phase.Provisional? && f.normal && s.clock.observations >= 29 && f.reading.qf - s.clock.epochQf >= 8
  }

  /** On an ordinary frame with a sample due, the record grows by what was seen, at the frame's clock, and is
      valid once it has two samples under a settled clock. */
  lemma FrameRecords(s: State, f: Frame)
    requires Inv(s) && Ordinary(s, f)
    ensures s.record.track.segments != [] && Last(s.record.track.segments).sampleCount > 0 && FilledTo(s.record.track)
    ensures Fits(s.record.track, f.mario, f.reading.qf) ==>
              var t, r := s.record.track, Tick(s, f);
              && Grown(t, r.record.track, f.mario.pose, f.reading.qf) && r.recording && !r.record.saved
              && (r.record.track.valid <==>
                    t.valid || ((s.clock.phase.Active? || Settles(s, f)) && |t.samples| + 1 >= 2))
              && (r.clock.phase.Active? <==> s.clock.phase.Active? || (Settles(s, f) && |t.samples| + 1 >= 2))
  {
    hide Grown, Capturing, Settled, Publishable, HasFlag, CursorOk, AppendSample, Show;
    var t, qf := s.record.track, f.reading.qf;
    PreparedClocked(s);
    if Fits(t, f.mario, qf) {
      var seen := Observed(s, qf);
      SampleStored(seen, f.mario, qf);
      var moved := AppendSample(seen, f.mario, qf).0;
      GrownValid(t, moved.record.track, f.mario.pose, qf);
      GrownCount(t, moved.record.track, f.mario.pose, qf);
      FollowOk(s, f, qf, false);
      SameRecordShown(SettleClock(moved, f.normal, qf), qf);
    }
  }

  lemma GrownValid(t: Track, u: Track, pose: Pose, qf: int)
    requires t.segments != [] && Grown(t, u, pose, qf)
    ensures Grown(t, u.(valid := true), pose, qf)
  {
  }

  lemma GrownCount(t: Track, u: Track, pose: Pose, qf: int)
    requires t.segments != [] && Grown(t, u, pose, qf)
    ensures |u.samples| == |t.samples| + 1
  {
  }

  lemma SameRecordShown(s: State, qf: int)
    requires PlaybackOk(s)
    ensures Show(s, qf).record == s.record && Show(s, qf).recording == s.recording && Show(s, qf).clock == s.clock
  {
    hide Update;
  }

  // ---- what ends a run ------------------------------------------------------------------------

  /** The frame on which a settled run's clock stops. */
  predicate RunStops(s: State, f: Frame) {
    && s.recording && f.reading.Reading? && f.reading.stopped && f.serial == s.serial
    && !s.handover.routePending && !s.boundary.pending && !f.mario.Absent? && !f.fastForward
    && s.clock.phase.Active?
  }

  /** A track as it was before its verdict. */
  function Unsealed(u: Track, t: Track): Track {
    u.(valid := t.valid, completed := t.completed, resultQf := t.resultQf, runFlags := t.runFlags)
  }

  /** When a run stops within reach, its record is ended exactly there, `j` being the last sample kept whole, and
      with two samples it is a complete run with that result; otherwise it is no longer valid. */
  lemma FrameFinishes(s: State, f: Frame) returns (j: nat)
    requires Inv(s) && RunStops(s, f)
    ensures s.record.track.segments != []
    ensures var t, u := s.record.track, Tick(s, f).record.track;
            && !Tick(s, f).recording && Tick(s, f).clock.phase.Finished?
            && (CanFinish(t, f.reading.qf) ==> FinishedAt(t, Unsealed(u, t), j, f.reading.qf))
            && (u.valid <==> CanFinish(t, f.reading.qf) && |u.samples| >= 2)
            && (u.valid ==> u.completed && u.resultQf == f.reading.qf && !HasFlag(u.runFlags, Incomplete))
            && (!u.valid ==> !u.completed && u.resultQf == RESULT_NONE && HasFlag(u.runFlags, Incomplete))
  {
    hide Capturing, Settled, Publishable, HasFlag, CursorOk, FinishAt, FinishedAt, CanFinish, Show, WellFormed;
    var t, qf := s.record.track, f.reading.qf;
    CapturingFacts(t);
    CapturingOrdered(t);
    FinishWellFormed(t, qf);
    FollowOk(s, f, qf, true);
    SameRecordShown(Finish(s, qf), qf);
    if FinishAt(t, qf).Ok? {
      j := FinishKeeps(t, qf);
      FinishedFacts(t, FinishAt(t, qf).value, j, qf);
    } else {
      j := 0;
    }
  }

  // ---- what starts an attempt -----------------------------------------------------------------

  /** A new recording on `route`: its first sample at time zero, the next at the clock once one is due. */
  ghost predicate Started(u: Track, route: Route, pose: Pose, qf: int) {
    && |u.segments| == 1 && u.segments[0].route == route == u.route && u.segments[0].firstSample == 0
    && |u.samples| == u.segments[0].sampleCount == (if qf >= INTERVAL_QF then 2 else 1)
    && u.startQf == 0 && u.endQf == u.segments[0].endQf == (if qf >= INTERVAL_QF then qf else 0)
    && TimeOf(u.samples, u.segments[0], 0) == 0 && ReadsBack(u, u.samples[0], pose)
    && (qf >= INTERVAL_QF ==> TimeOf(u.samples, u.segments[0], 1) == qf && ReadsBack(u, u.samples[1], pose))
  }

  /** The first samples of an attempt. */
  lemma FirstSamples(s: State, pose: Pose, qf: s32)
    requires Weak(s.record.track) && |s.record.track.segments| == 1 && 0 <= qf <= MAX_DELTA
    requires s.record.track.route == s.record.track.segments[0].route
    ensures var (r, ok) := StartEpoch(s, Seen(pose), qf);
            && ok && r.recording == s.recording && Clocked(r)
            && Started(r.record.track, s.record.track.segments[0].route, pose, qf)
  {
    hide Bump, ContentOk, AddSample, ReadsBack, AppendSample, Weak;
    StartEpochWeak(s, Seen(pose), qf);
    ClearEpochWeak(s);
    var cleared := ClearEpoch(s);
    ClearedOne(s);
    SampleStored(cleared, Seen(pose), 0);
    var first := AppendSample(cleared, Seen(pose), 0).0;
    AppendWeak(cleared, Seen(pose), 0);
    var t := first.record.track;
    assert t.samples[0] == t.samples[|t.samples| - 1];
    if qf >= INTERVAL_QF {
      assert Since(t, qf) == qf;
      SampleStored(first, Seen(pose), qf);
      var u := AppendSample(first, Seen(pose), qf).0.record.track;
      assert u.samples[0] == u.samples[..1][0] == t.samples[0];
      StillReads(t, u, u.samples[0], pose);
    }
  }

  lemma ClearedOne(s: State)
    requires Weak(s.record.track) && |s.record.track.segments| == 1
    ensures var c := ClearEpoch(s);
            && c.record.track.samples == [] && |c.record.track.segments| == 1 && c.recording == s.recording
            && c.record.track.segments[0] == s.record.track.segments[0].(sampleCount := 0, startQf := 0, endQf := 0)
            && c.record.track.segments[0].firstSample == 0 && c.record.track.startQf == 0
            && c.record.track.route == s.record.track.route && Clocked(c)
  {
    hide Bump, ContentOk;
    ClearEpochWeak(s);
    var t := s.record.track;
    assert t.segments[0].firstSample == EndBefore(t.segments, 0);
  }

  /** The last record is worth keeping: a completed run, or a usable try broken off on this very route. */
  predicate Worthy(t: Track, f: Frame, boundaryReset: bool) {
    t.valid && (t.completed || (!f.lastSuccess &&
                                (boundaryReset || (t.segments != [] && Last(t.segments).route == RouteOf(f.scene)))))
  }

  predicate OnCourse(segments: seq<Segment>, route: Route) {
    exists i :: 0 <= i < |segments| && Course(segments[i].route) == Course(route)
  }

  /** A pinned target stays pinned on the neutral hub and on a course it was recorded on. */
  predicate Pinned(s: State, f: Frame) {
    && s.pinned
    && (f.scene.area == 1 ||
        (s.playback.track.valid && OnCourse(s.playback.track.segments, RouteOf(f.scene))))
  }

  /** A new attempt: a worthy record becomes the ghost to race, or is kept as it is beside a target that stays
      pinned; otherwise the ghost stays, but for an unfinished one after a success. Unless the record was kept,
      recording starts over on the frame's route. */
  lemma AttemptStarts(s: State, f: Frame, qf: s32, boundaryReset: bool)
    requires Inv(s)
    ensures var r := BeginAttempt(s, f, qf, boundaryReset);
            var worthy := Worthy(s.record.track, f, boundaryReset);
            && r.live == RouteOf(f.scene) && r.liveValid && r.shown.Hidden? && r.pinned == Pinned(s, f)
            && (Pinned(s, f) ==> r.playback == s.playback)
            && (Pinned(s, f) && worthy ==> r.record == s.record && !r.recording)
            && (!Pinned(s, f) && worthy ==> r.playback == s.record && r.tokens.origin == s.tokens.record)
            && (!Pinned(s, f) && !worthy ==>
                  r.playback == if f.lastSuccess && s.playback.track.valid && !s.playback.track.completed then EMPTY
                                else s.playback)
            && (!(Pinned(s, f) && worthy) && f.mario.Seen? && 0 <= qf <= MAX_DELTA ==>
                  r.recording && Started(r.record.track, RouteOf(f.scene), f.mario.pose, qf))
  {
    hide Bump, StartEpoch, Weak, Started, Clocked, Promote, KeepsChallenger, Worthy, Pinned, AddSegment, Inv;
    InvWeak(s);
    var arrived := s.(live := RouteOf(f.scene), liveValid := true);
    var promoted := Promote(arrived, f.lastSuccess, boundaryReset);
    Promoted(s, f, boundaryReset);
    AttemptShowsNothing(s, f, qf, boundaryReset);
    ResetWeak(promoted, qf);
    if !KeepsChallenger(arrived, f.lastSuccess, boundaryReset) {
      var ready := Reset(promoted, false, qf);
      AppendSegmentWeak(ready);
      var begun := AppendSegment(ready).0;
      FirstSegment(ready);
      StartEpochSameShow(begun, f.mario, qf);
      if f.mario.Seen? && 0 <= qf <= MAX_DELTA {
        FirstSamples(begun, f.mario.pose, qf);
      }
    }
  }

  lemma FirstSegment(s: State)
    requires s.record.track == CLEARED && Weak(CLEARED)
    ensures var (r, ok) := AppendSegment(s);
            && ok && SameShow(s, r) && r.recording == s.recording && |r.record.track.segments| == 1
            && r.record.track.segments[0].route == s.live == r.record.track.route
  {
    hide Bump;
  }

  /** What becomes of the two slots. */
  lemma Promoted(s: State, f: Frame, boundaryReset: bool)
    ensures var arrived := s.(live := RouteOf(f.scene), liveValid := true);
            var r := Promote(arrived, f.lastSuccess, boundaryReset);
            var worthy := Worthy(s.record.track, f, boundaryReset);
            && (KeepsChallenger(arrived, f.lastSuccess, boundaryReset) <==> Pinned(s, f) && worthy)
            && r.live == arrived.live && r.liveValid && r.record == s.record && r.pinned == Pinned(s, f)
            && r.playback == (if Pinned(s, f) then s.playback
                              else if worthy then s.record
                              else if f.lastSuccess && s.playback.track.valid && !s.playback.track.completed then EMPTY
                              else s.playback)
            && (!Pinned(s, f) && worthy ==> r.tokens.origin == s.tokens.record)
  {
    hide Bump, Course;
    var arrived := s.(live := RouteOf(f.scene), liveValid := true);
    assert OnCourse(s.playback.track.segments, arrived.live) <==>
           exists i :: 0 <= i < |s.playback.track.segments| &&
               SameCourse(s.playback.track.segments[i].route, arrived.live);
  }

  // ---- a clock that goes back, and calls from outside -----------------------------------------

  /** When the clock of a run on its first stage goes back, its recording starts over at once, and nothing recorded
      under the old clock remains. */
  lemma FrameRestarts(s: State, f: Frame)
    requires Inv(s) && s.recording && f.reading.Reading? && !f.reading.stopped && f.serial == s.serial
    requires !s.handover.routePending && !s.boundary.pending && f.mario.Seen? && !f.fastForward
    requires !s.clock.phase.Unavailable? && !s.clock.phase.WaitStage?
    requires |s.record.track.segments| == 1 && 0 <= f.reading.qf <= MAX_DELTA && f.reading.qf < s.clock.lastQf
    ensures var r := Tick(s, f);
            && r.recording && !r.clock.phase.Active?
            && Started(r.record.track, s.record.track.segments[0].route, f.mario.pose, f.reading.qf)
  {
    hide Started, Capturing, Settled, Publishable, HasFlag, CursorOk, StartEpoch, Show, Clocked, Weak;
    var qf := f.reading.qf;
    OneRoute(s);
    FirstSamples(s, f.mario.pose, qf);
    FollowOk(s, f, qf, false);
    var moved := Rebase(s, f.mario, qf);
    SameRecordShown(SettleClock(moved, f.normal, qf), qf);
  }

  lemma OneRoute(s: State)
    requires Inv(s) && s.recording && |s.record.track.segments| == 1
    ensures Weak(s.record.track) && s.record.track.route == s.record.track.segments[0].route
  {
    CapturingFacts(s.record.track);
  }

  /** Drawing shows what is due at its own clock reading, or nothing, and changes nothing else. */
  lemma LookShows(s: State, f: Frame)
    requires Inv(s)
    ensures var r := GhostRecorder.Look(s, f);
            && (r.shown.Hidden? || (f.reading.Reading? && ShownDue(r, f.reading.qf)))
            && r == s.(shown := r.shown, cursor := r.cursor)
  {
    hide Settled, Capturing, Publishable, HasFlag, CursorOk, Update, ShownDue, Weak;
    var hidden := s.(shown := Hidden);
    HiddenOk(s);
    if f.reading.Reading? {
      ShowDue(hidden, f.reading.qf);
    }
  }

  /** An imported track becomes the pinned target to race, unless that would lose a best run not yet saved; the
      attempt in progress is dropped, a finished one kept. */
  lemma ImportInstalls(s: State, t: Track, serial: u32, scene: Scene, director: bool, reading: Reading)
    ensures var r := Import(s, t, serial, scene, director, reading);
            var unsaved := s.playback.track.valid && s.playback.pb && !s.playback.saved && s.playback.pbToken != 0;
            && (unsaved ==> r == s)
            && (!unsaved ==>
                  && r.playback == Slot(t, true, false, 0) && r.pinned && !r.recording && r.shown.Hidden?
                  && r.tokens.playbackChanges == s.tokens.playbackChanges + 1
                  && r.record == if s.recording || !s.record.track.valid then EMPTY else s.record)
  {
    hide Bump;
  }

  /** A savestate drops the recording; a pinned target stays to be raced, any other ghost goes. */
  lemma SavestateDrops(s: State, serial: u32, scene: Scene, director: bool, reading: Reading)
    ensures var r := LoadSavestate(s, serial, scene, director, reading);
            && r.record == EMPTY && !r.recording && r.shown.Hidden? && !r.boundary.pending && r.pinned == s.pinned
            && r.playback == if s.pinned then s.playback else EMPTY
  {
    hide Bump;
  }

  // ---- what breaks a run off ------------------------------------------------------------------

  /** Fast-forward spoils a recording and marks it; losing Mario spoils it; a run that stops before its clock has
      settled is not a run. What was recorded stays, no longer valid. */
  lemma FrameSpoils(s: State, f: Frame)
    requires Inv(s) && s.recording && f.reading.Reading? && f.serial == s.serial && !s.handover.routePending
    ensures var u, r := Tick(s, f).record.track, Tick(s, f);
            && (f.mario.Absent? || f.fastForward ==>
                  && !r.recording && !u.valid && r.shown.Hidden?
                  && u.samples == s.record.track.samples && u.segments == s.record.track.segments
                  && (f.fastForward && !f.mario.Absent? ==> HasFlag(u.runFlags, FastForward)))
            && (!f.mario.Absent? && !f.fastForward && f.reading.stopped && s.clock.phase.Provisional? &&
                !s.boundary.pending ==>
                  !r.recording && !u.valid && !u.completed && r.clock.phase.Finished?)
  {
    hide Settled, Capturing, Publishable, HasFlag, CursorOk, Bump, Show, FinishAt, SettleBoundary;
    var qf := f.reading.qf;
    CapturingFacts(s.record.track);
    if !f.mario.Absent? && !f.fastForward && f.reading.stopped && s.clock.phase.Provisional? && !s.boundary.pending {
      FollowOk(s, f, qf, true);
      SameRecordShown(Finish(s, qf), qf);
    }
  }

  // ---- while a stage change is unproven -------------------------------------------------------

  /** A frame of a recording whose last stage change is not yet proven, the clock running on. */
  predicate Tentatively(s: State, f: Frame) {
    && s.recording && f.reading.Reading? && !f.reading.stopped && f.serial == s.serial && s.boundary.pending
    && !s.handover.routePending && !f.mario.Absent? && !f.fastForward
    && !s.clock.phase.Unavailable? && !s.clock.phase.WaitStage?
    && f.reading.qf >= s.clock.lastQf && f.reading.qf >= s.boundary.priorQf
  }

  /** Such a frame records as any other, and proves the stage change exactly when the clock is settled and the new
      segment starts no earlier than the last one ended. */
  lemma FrameProves(s: State, f: Frame)
    requires Inv(s) && Tentatively(s, f)
    ensures s.record.track.segments != [] && Last(s.record.track.segments).sampleCount > 0 && FilledTo(s.record.track)
    ensures Fits(s.record.track, f.mario, f.reading.qf) ==>
              var t, r := s.record.track, Tick(s, f);
              var base := s.boundary.base;
              && Grown(t, r.record.track, f.mario.pose, f.reading.qf) && r.recording
              && |t.segments| == base + 1
              && (!r.boundary.pending <==>
                    Settles(s, f) && (base == 0 || Last(t.segments).startQf >= t.segments[base - 1].endQf))
              && (!r.boundary.pending ==> r.clock.phase.Active? && r.record.track.valid)
  {
    hide Grown, Capturing, Settled, Publishable, HasFlag, CursorOk, AppendSample, Show;
    var t, qf := s.record.track, f.reading.qf;
    PreparedClocked(s);
    if Fits(t, f.mario, qf) {
      var seen := Observed(s, qf);
      SampleStored(seen, f.mario, qf);
      var moved := AppendSample(seen, f.mario, qf).0;
      GrownValid(t, moved.record.track, f.mario.pose, qf);
      GrownShape(t, moved.record.track, f.mario.pose, qf);
      BoundaryAppend(s, f.mario, qf);
      SettleBoundaryOk(s, f, qf, false);
      SameRecordShown(SettleBoundary(s, f, qf, false), qf);
      ShowKeepsBoundary(SettleBoundary(s, f, qf, false), qf);
    }
  }

  lemma GrownShape(t: Track, u: Track, pose: Pose, qf: int)
    requires t.segments != [] && Last(t.segments).sampleCount > 0 && Grown(t, u, pose, qf)
    ensures |u.segments| == |t.segments| && |u.samples| == |t.samples| + 1
    ensures Last(u.segments).startQf == Last(t.segments).startQf && Last(u.segments).sampleCount > 0
    ensures forall i :: 0 <= i < |t.segments| - 1 ==> u.segments[i] == t.segments[i]
  {
    assert forall i :: 0 <= i < |t.segments| - 1 ==> u.segments[i] == u.segments[..|t.segments| - 1][i];
  }

  lemma ShowKeepsBoundary(s: State, qf: int)
    requires PlaybackOk(s)
    ensures Show(s, qf).boundary == s.boundary
  {
    hide Update;
  }

  // ---- entering a stage -----------------------------------------------------------------------

  /** The first reading on a new stage of a run that goes on, with room left in the record. */
  predicate GoesOn(s: State, f: Frame) {
    && f.reading.Reading? && f.serial == s.serial && s.handover.routePending && s.handover.continuing
    && s.handover.hadLive && Storable(RouteOf(f.scene)) && f.mario.Seen? && 0 <= f.reading.qf <= MAX_DURATION_QF
    && 0 < |s.record.track.segments| < MAX_SEGMENTS && |s.record.track.samples| < MAX_SAMPLES
  }

  /** One segment on the new route, holding one sample that reads back as the pose at `qf`, after all there was. */
  ghost predicate Extended(t: Track, u: Track, route: Route, pose: Pose, qf: int) {
    var n, m := |t.samples|, |t.segments|;
    && |u.samples| == n + 1 && u.samples[..n] == t.samples && ReadsBack(u, u.samples[n], pose)
    && |u.segments| == m + 1 && u.segments[..m] == t.segments && SameReadings(t, u)
    && u.endQf == qf && u.startQf == t.startQf && u.route == t.route
    && var g := u.segments[m];
       g.firstSample == n && g.sampleCount == 1 && g.startQf == qf && g.endQf == qf && g.route == route
  }

  /** It opens a tentative segment there, to be proven or withdrawn. */
  lemma StageContinues(s: State, f: Frame)
    requires Inv(s) && GoesOn(s, f)
    ensures var r, t := Tick(s, f), s.record.track;
            && r.recording && Extended(t, r.record.track, RouteOf(f.scene), f.mario.pose, f.reading.qf)
            && r.boundary.pending && r.boundary.base == |t.segments| && r.boundary.priorQf >= t.endQf
            && r.boundary.priorQf >= s.handover.previousQf && r.clock.phase.Provisional? && r.shown.Hidden?
  {
    hide Settled, Capturing, Publishable, HasFlag, CursorOk, StartEpoch, BeginAttempt, Weak, Extended, Bump, AddSegment;
    InvWeak(s);
    var t, qf := s.record.track, f.reading.qf;
    var previous := s.handover.previousQf;
    var entered := s.(live := RouteOf(f.scene), liveValid := true,
                      handover := s.handover.(routePending := false, hadLive := false, continuing := false));
    var prior := if previous < t.endQf then t.endQf as int else previous;
    var waiting := Rewind(PrepareClock(entered.(boundary := Boundary(true, prior, |t.segments|)), qf));
    var resumed := waiting.(recording := true);
    AppendSegmentWeak(resumed);
    EntryShowsNothing(s, f, qf);
    SettledRecord(s);
    OpenedSample(resumed, f.mario.pose, qf);
  }

  lemma SettledRecord(s: State)
    requires Inv(s) && s.handover.continuing && s.record.track.segments != []
    ensures s.record.track.startQf == 0 && |s.record.track.samples| >= 2
  {
  }

  lemma OpenedSample(s: State, pose: Pose, qf: s32)
    requires Weak(s.record.track) && 0 < |s.record.track.segments| < MAX_SEGMENTS
    requires |s.record.track.samples| < MAX_SAMPLES && s.record.track.startQf == 0 && s.record.track.samples != []
    requires 0 <= qf <= MAX_DURATION_QF
    ensures var (added, ok) := AppendSegment(s);
            && ok && Weak(added.record.track)
            && var (r, stored) := StartEpoch(added, Seen(pose), qf);
               && stored && r.recording == s.recording && r.boundary == s.boundary && r.clock == s.clock
               && Extended(s.record.track, r.record.track, s.live, pose, qf)
  {
    hide Bump, ContentOk, AddSample, ReadsBack, AppendSample, Weak;
    AppendSegmentWeak(s);
    var t, added := s.record.track, AppendSegment(s).0;
    ClearEpochWeak(added);
    var cleared := ClearEpoch(added);
    ClearedOpen(s);
    SampleStored(cleared, Seen(pose), qf);
    AppendRest(cleared, Seen(pose), qf);
    var r := AppendSample(cleared, Seen(pose), qf).0;
    AppendWeak(cleared, Seen(pose), qf);
    var m, u := |t.segments|, r.record.track;
    assert u.segments[..m] == cleared.record.track.segments[..m];
  }

  lemma AppendRest(s: State, mario: Mario, qf: int)
    requires Weak(s.record.track) && -0x8000_0000 <= qf < 0x8000_0000
    ensures AppendSample(s, mario, qf).0.boundary == s.boundary
  {
    hide AddSample, DropEmpty, Bump, Weak, ContentOk;
  }

  lemma ClearedOpen(s: State)
    requires Weak(s.record.track) && 0 < |s.record.track.segments| < MAX_SEGMENTS
    ensures Weak(AppendSegment(s).0.record.track)
    ensures var t, u := s.record.track, ClearEpoch(AppendSegment(s).0).record.track;
            var c := ClearEpoch(AppendSegment(s).0);
            && u.samples == t.samples && u.segments == t.segments + [Segment(|t.samples|, 0, 0, 0, s.live)]
            && u.startQf == t.startQf && u.route == t.route && SameReadings(t, u) && u.attachments == t.attachments
            && Clocked(c) && c.recording == s.recording && c.boundary == s.boundary && c.clock == s.clock
  {
    hide Bump, ContentOk;
    AppendSegmentWeak(s);
    ClearEpochWeak(AppendSegment(s).0);
    WeakLast(s.record.track);
  }
}
