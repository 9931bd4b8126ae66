/** The recorder over its two buffers. Every method is proved to take the abstract state where the
    state machine takes it. */
module GhostDevice {
  import opened Bytes
  import opened GhostTrack
  import opened GhostFinish
  import opened GhostCapture
  import opened GhostPlayback
  import R = GhostRecorder
  import opened GhostBuffer

  /** The recorder's state besides the two slots. */
  datatype Control = Control(tokens: R.Tokens, clock: R.Clock, boundary: R.Boundary, handover: R.Handover,
                             cursor: Cursor, shown: Visual, live: Route, liveValid: bool, pinned: bool, recording: bool,
                             lastSampleQf: int, serial: u32)

  class Recorder {
    var record: TrackBuffer
    var playback: TrackBuffer
    var k: Control

    /** The two slots never share a buffer. */
    ghost predicate Ready()
      reads this, record, playback
    {
      && record != playback && record.samples != playback.samples && record.segments != playback.segments
      && record.Valid() && playback.Valid()
    }

    ghost function Repr(): set<object>
      reads this
    {
      {this, record, playback, record.samples, record.segments, playback.samples, playback.segments}
    }

    /** The abstract state. */
    ghost function View(): R.State
      requires Ready()
      reads this, record, playback, Repr()
    {
      R.State(record.Value(), playback.Value(), k.tokens, k.clock, k.boundary, k.handover, k.cursor, k.shown, k.live,
              k.liveValid, k.pinned, k.recording, k.lastSampleQf, k.serial)
    }

    /** The record buffer's part of the frame. */
    ghost function Taping(): set<object>
      reads this
    {
      {this, record, record.samples, record.segments}
    }

    constructor (attempt: u32)
      ensures Ready() && fresh(Repr()) && View() == R.Initial(attempt)
    {
      record := new TrackBuffer();
      playback := new TrackBuffer();
      k := Control(R.Tokens(1, 1, 1, 0, 0, 1, 1, 0), R.Clock(R.Unavailable, 0, 0, 0), R.Boundary(false, 0, 0),
                   R.NO_HANDOVER, REWOUND, Hidden, NO_ROUTE, false, false, false, 0, attempt);
    }

    // ---- tokens -------------------------------------------------------------------------------

    method BumpRecordToken()
      requires Ready()
      modifies this`k, record`header
      ensures Ready() && View() == R.BumpRecord(old(View()))
    {
      hide R.Bump;
      record.header := record.header.(saved := false);
      k := k.(tokens := k.tokens.(record := R.Bump(k.tokens.record), recordChanges := k.tokens.recordChanges + 1));
    }

    method ClearRecord()
      requires Ready()
      modifies this`k, record
      ensures Ready() && View() == R.ClearRecord(old(View()))
    {
      record.Clear();
      BumpRecordToken();
      k := k.(tokens := k.tokens.(identity := k.tokens.record));
    }

    method ClearPlaybackSlot()
      requires Ready()
      modifies this`k, playback
      ensures Ready() && View() == R.ClearPlaybackSlot(old(View()))
    {
      playback.Clear();
      k := k.(tokens := k.tokens.(origin := 0, playback := R.Bump(k.tokens.playback),
                                  playbackChanges := k.tokens.playbackChanges + 1));
    }

    // ---- recording ------------------------------------------------------------------------------

    method FailRecording()
      requires Ready()
      modifies this`k, record`header
      ensures Ready() && View() == R.Fail(old(View()))
    {
      k := k.(recording := false);
      record.header := record.header.(valid := false);
      BumpRecordToken();
    }

    method AppendSegment() returns (ok: bool)
      requires Ready() && Weak(record.Contents())
      modifies this`k, record, record.segments
      ensures Ready() && (View(), ok) == R.AppendSegment(old(View()))
    {
      hide Weak, GhostCapture.AddSegment;
      WeakCounts();
      if record.segmentCount >= MAX_SEGMENTS {
        k := k.(recording := false);
        return false;
      }
      record.AddSegment(k.live);
      BumpRecordToken();
      return true;
    }

    /** The facts about the buffers the index arithmetic rests on. */
    lemma WeakCounts()
      requires Ready() && Weak(record.Contents())
      ensures |record.Contents().samples| == record.count && |record.Contents().segments| == record.segmentCount
      ensures record.segmentCount > 0 ==>
                record.segments[record.segmentCount - 1].EndSample() == record.count &&
                record.segments[record.segmentCount - 1] == Last(record.Contents().segments)
      ensures |record.header.attachments| <= MAX_ATTACHMENTS && record.header.attachmentFlags <= OVERFLOW
    {
      R.WeakBounds(record.Contents());
    }

    method RollbackBoundarySegment()
      requires Ready() && Weak(record.Contents())
      modifies this`k, record
      ensures Ready() && View() == R.RollbackBoundary(old(View()))
    {
      hide Weak, GhostCapture.Rollback;
      WeakCounts();
      if record.segmentCount <= k.boundary.base {
        return;
      }
      record.Rollback(k.boundary.base);
      k := k.(lastSampleQf := record.header.endQf);
      BumpRecordToken();
    }

    method DropLastEmptySegment()
      requires Ready()
      modifies this`k, record
      ensures Ready() && View() == R.DropEmptySegment(old(View()))
    {
      hide GhostCapture.DropEmpty;
      if record.segmentCount == 0 || record.segments[record.segmentCount - 1].sampleCount != 0 {
        return;
      }
      record.DropEmpty();
      BumpRecordToken();
    }

    method StopAtCapacity()
      requires Ready()
      modifies this`k, record
      ensures Ready() && View() == R.Stop(old(View()))
    {
      hide R.DropEmptySegment;
      DropLastEmptySegment();
      k := k.(recording := false, clock := k.clock.(phase := R.Finished));
    }

    method AppendSample(mario: Mario, qf: int) returns (ok: bool)
      requires Ready() && Weak(record.Contents()) && -0x8000_0000 <= qf < 0x8000_0000
      modifies this`k, record, record.samples, record.segments
      ensures Ready() && (View(), ok) == R.AppendSample(old(View()), mario, qf)
    {
      hide Weak, GhostCapture.AddSample, R.Stop, R.BumpRecord, R.Fail;
      WeakCounts();
      if mario.Absent? || qf < 0 || record.segmentCount == 0 {
        FailRecording();
        return false;
      }
      if (record.count != 0 && qf - record.header.startQf > MAX_DURATION_QF) || record.count >= MAX_SAMPLES {
        StopAtCapacity();
        return false;
      }
      var last := record.segments[record.segmentCount - 1];
      var delta := if last.sampleCount == 0 then 0 else qf - k.lastSampleQf;
      if delta < 0 || delta > MAX_DELTA {
        FailRecording();
        return false;
      }
      if last.sampleCount != 0 && delta < INTERVAL_QF {
        return true;
      }
      if !mario.Seen? {
        FailRecording();
        return false;
      }
      record.AddSample(mario.pose, qf, delta, k.clock.phase.Active?);
      k := k.(lastSampleQf := qf);
      BumpRecordToken();
      return true;
    }

    method ClearEpochSamples()
      requires Ready() && Weak(record.Contents())
      modifies this`k, record, record.segments
      ensures Ready() && View() == R.ClearEpoch(old(View()))
    {
      hide Weak, GhostCapture.Restart;
      WeakCounts();
      if record.segmentCount == 0 {
        return;
      }
      record.Restart();
      k := k.(lastSampleQf := 0);
      BumpRecordToken();
    }

    method StartEpochSamples(mario: Mario, qf: s32) returns (ok: bool)
      requires Ready() && Weak(record.Contents())
      modifies this`k, record, record.samples, record.segments
      ensures Ready() && (View(), ok) == R.StartEpoch(old(View()), mario, qf)
    {
      hide Weak, R.ClearEpoch, R.AppendSample;
      WeakCounts();
      R.ClearEpochWeak(View());
      var anchor: int := if record.segmentCount == 1 then 0 else qf;
      ClearEpochSamples();
      R.AppendWeak(View(), mario, anchor);
      ok := AppendSample(mario, anchor);
      if ok && qf - anchor >= INTERVAL_QF {
        ok := AppendSample(mario, qf);
      }
    }

    method RebaseClock(mario: Mario, qf: s32)
      requires Ready() && Weak(record.Contents())
      modifies this`k, record, record.samples, record.segments
      ensures Ready() && View() == R.Rebase(old(View()), mario, qf)
    {
      hide Weak, R.StartEpoch, R.Fail;
      WeakCounts();
      if k.recording {
        if record.segmentCount > 1 {
          FailRecording();
        } else {
          var _ := StartEpochSamples(mario, qf);
        }
      }
      k := k.(cursor := REWOUND, clock := R.Clock(R.Provisional, 1, qf, qf));
    }

    /** The verdict on the ended record. */
    method Seal(bounded: bool, qf: s32)
      requires Ready() && (bounded ==> 0 <= qf)
      modifies record`header
      ensures Ready() && View() == R.SetTrack(old(View()), R.Sealed(old(View()).record.track, bounded, qf))
    {
      hide SetFlag, ClearFlag;
      if bounded && record.count >= MIN_SAMPLES {
        record.header := record.header.(valid := true, completed := true, resultQf := qf,
                                        runFlags := ClearFlag(record.header.runFlags, Incomplete));
      } else {
        record.header := record.header.(valid := false, completed := false, resultQf := RESULT_NONE,
                                        runFlags := SetFlag(record.header.runFlags, Incomplete));
      }
    }

    method EndTrack(qf: s32) returns (ok: bool)
      requires Ready() && Weak(record.Contents())
      modifies this`k, record, record.samples, record.segments
      ensures Ready() && ok == R.Ended(old(View()), qf).Ok? && (ok ==> 0 <= qf)
      ensures View() == if ok then R.SetTrack(old(View()), R.Ended(old(View()), qf).value).(lastSampleQf := qf)
                        else old(View())
    {
      hide Weak, R.FinishedTrack;
      if !k.clock.phase.Active? {
        return false;
      }
      ok := record.FinishAt(qf);
      if ok {
        k := k.(lastSampleQf := qf);
      }
    }

    method FinishRecording(qf: s32)
      requires Ready() && Weak(record.Contents())
      modifies this`k, record, record.samples, record.segments
      ensures Ready() && View() == R.Finish(old(View()), qf)
    {
      hide Weak, R.Ended, R.BumpRecord, R.Sealed;
      WeakCounts();
      if k.recording && record.count != 0 {
        var bounded := EndTrack(qf);
        Seal(bounded, qf);
        BumpRecordToken();
      }
      k := k.(recording := false, clock := k.clock.(lastQf := qf, phase := R.Finished));
    }

    // ---- playback -----------------------------------------------------------------------------

    /** The last playback segment on the live route around `qf`, or -1. */
    method PlaybackSegmentAt(qf: int) returns (i: int)
      requires Ready()
      ensures i == SegmentAt(playback.Contents().segments, k.live, qf, playback.segmentCount)
    {
      i := playback.segmentCount - 1;
      while i >= 0
        invariant -1 <= i < playback.segmentCount
        invariant SegmentAt(playback.Contents().segments, k.live, qf, playback.segmentCount)
               == SegmentAt(playback.Contents().segments, k.live, qf, i + 1)
      {
        if Owns(playback.segments[i], k.live, qf) {
          return;
        }
        i := i - 1;
      }
    }

    /** Move the cursor up to the last due sample of segment `i` and place the ghost there. */
    method CatchUpTo(i: nat, qf: int)
      requires Ready() && i < playback.segmentCount
      requires WellFormed(playback.Contents()) && CursorOk(playback.Contents(), k.cursor)
      requires k.cursor.segment == i && i != NO_SEGMENT && k.cursor.qf <= qf
      modifies this`k
      ensures k.cursor == CatchUp(playback.Contents().samples, playback.Contents().segments[i].EndSample(),
                                  old(k.cursor), qf)
      ensures CursorOk(playback.Contents(), k.cursor) && k.cursor.segment == i && k.cursor.qf <= qf
      ensures k == old(k).(cursor := k.cursor, shown := PoseAt(playback.Contents(), k.cursor, qf))
    {
      hide WellFormed;
      ghost var t := playback.Contents();
      var end := playback.segments[i].EndSample();
      CatchUpFinds(t, k.cursor, qf);
      while k.cursor.sample + 1 < end && k.cursor.qf + playback.samples[k.cursor.sample + 1].deltaQf <= qf
        invariant k == old(k).(cursor := k.cursor) && k.cursor.segment == i
        invariant old(k.cursor).sample <= k.cursor.sample < end <= playback.count
        invariant CatchUp(t.samples, end, k.cursor, qf) == CatchUp(t.samples, end, old(k.cursor), qf)
        decreases end - k.cursor.sample
      {
        k := k.(cursor := Cursor(i, k.cursor.sample + 1, k.cursor.qf + playback.samples[k.cursor.sample + 1].deltaQf));
      }
      PlaceGhost(i, qf);
    }

    method PlaceGhost(i: nat, qf: int)
      requires Ready() && i < playback.segmentCount
      requires WellFormed(playback.Contents()) && CursorOk(playback.Contents(), k.cursor)
      requires k.cursor.segment == i && i != NO_SEGMENT && k.cursor.qf <= qf
      modifies this`k
      ensures k == old(k).(shown := PoseAt(playback.Contents(), old(k.cursor), qf))
    {
      ghost var t := playback.Contents();
      assert SegmentOk(t.samples, t.segments[i]);
      var a := playback.samples[k.cursor.sample];
      if k.cursor.sample + 1 >= playback.segments[i].EndSample() {
        k := k.(shown := Holding(a));
      } else {
        var b := playback.samples[k.cursor.sample + 1];
        k := k.(shown := Moving(a, b, qf - k.cursor.qf, b.deltaQf));
      }
    }

    method UpdatePlayback(qf: int)
      requires Ready() && R.PlaybackOk(View())
      modifies this`k
      ensures Ready() && View() == R.Show(old(View()), qf)
    {
      hide Publishable, CursorOk, WellFormed, CatchUp, PoseAt;
      k := k.(shown := Hidden);
      if !k.liveValid || !playback.header.valid {
        return;
      }
      ghost var t := playback.Contents();
      R.PublishableShown(t);
      var i := PlaybackSegmentAt(qf);
      if i < 0 {
        return;
      }
      ResumeOk(t, k.cursor, i, qf);
      if k.cursor.segment != i || qf < k.cursor.qf {
        var seg := playback.segments[i];
        k := k.(cursor := Cursor(i, seg.firstSample, seg.startQf));
      }
      CatchUpTo(i, qf);
    }

    // ---- attempts -----------------------------------------------------------------------------

    method PrepareClock(qf: s32)
      requires Ready()
      modifies this`k
      ensures Ready() && View() == R.PrepareClock(old(View()), qf)
    {
      k := k.(shown := Hidden, handover := k.handover.(routePending := false),
              clock := R.Clock(R.Provisional, 1, qf, qf));
    }

    method PlaybackOwnsCourse() returns (owns: bool)
      requires Ready()
      ensures owns == R.OwnsCourse(playback.Contents(), k.live)
    {
      if !playback.header.valid {
        return false;
      }
      var i := 0;
      while i < playback.segmentCount
        invariant i <= playback.segmentCount
        invariant forall j :: 0 <= j < i ==> !R.SameCourse(playback.segments[j].route, k.live)
      {
        if R.SameCourse(playback.segments[i].route, k.live) {
          assert playback.Contents().segments[i].route == playback.segments[i].route;
          return true;
        }
        i := i + 1;
      }
      return false;
    }

    method RecordRouteMatches() returns (matches: bool)
      requires Ready()
      ensures matches == R.RouteMatches(record.Contents(), k.live)
    {
      matches := record.header.valid && record.segmentCount > 0 &&
          record.segments[record.segmentCount - 1].route == k.live;
    }

    /** Mirrors the pin and policy decisions at the start of an attempt. */
    method Police(lastSuccess: bool)
      requires Ready()
      modifies this`k, playback
      ensures Ready() && View() == R.Police(old(View()), lastSuccess)
    {
      hide R.OwnsCourse, R.ClearPlaybackSlot;
      if k.pinned {
        var owns := PlaybackOwnsCourse();
        k := k.(pinned := k.live.area == R.NEUTRAL_HUB || owns);
      }
      if !k.pinned && lastSuccess && playback.header.valid && !playback.header.completed {
        ClearPlaybackSlot();
      }
    }

    /** The record becomes the playback track; its old buffers will record the next attempt. */
    method Swap()
      requires Ready()
      modifies this`record, this`playback, this`k
      ensures Ready() && record == old(playback) && playback == old(record)
      ensures View().(record := old(View()).record) == R.Swap(old(View()))
    {
      hide R.Bump;
      playback, record := record, playback;
      k := k.(tokens := k.tokens.(origin := k.tokens.record, originChange := k.tokens.recordChanges,
                                  playback := R.Bump(k.tokens.playback),
                                  playbackChanges := k.tokens.playbackChanges + 1));
    }

    /** Promotes the finished record, unless a surviving pin keeps it as a challenger; the record slot
        is left to be cleared. */
    method Promote(lastSuccess: bool, boundaryReset: bool) returns (keep: bool)
      requires Ready()
      modifies this`record, this`playback, this`k, playback
      ensures Ready() && Repr() == old(Repr())
      ensures keep == R.KeepsChallenger(old(View()), lastSuccess, boundaryReset)
      ensures View().(record := old(View()).record) == R.Promote(old(View()), lastSuccess, boundaryReset)
      ensures keep ==> View().record == old(View()).record
    {
      hide R.OwnsCourse, R.RouteMatches, R.Bump, R.Swap;
      var matches := RecordRouteMatches();
      var promotable := record.header.valid &&
          (record.header.completed || (!lastSuccess && (matches || boundaryReset)));
      Police(lastSuccess);
      keep := promotable && k.pinned;
      if promotable && !k.pinned {
        Swap();
      }
    }

    method BeginAttempt(f: R.Frame, qf: s32, boundaryReset: bool)
      requires Ready() && Weak(record.Contents())
      modifies Repr()
      ensures Ready() && Repr() == old(Repr()) && View() == R.BeginAttempt(old(View()), f, qf, boundaryReset)
    {
      hide Weak, R.Promote, R.KeepsChallenger, R.Begin, R.Reset;
      k := k.(live := R.RouteOf(f.scene), liveValid := true);
      ghost var arrived := View();
      var keep := Retire(f.lastSuccess, boundaryReset, qf);
      R.ResetWeak(R.Promote(arrived, f.lastSuccess, boundaryReset), qf);
      if !keep {
        Begin(f.mario, qf);
      }
    }

    /** The last attempt promoted, kept or dropped, and everything readied for the next. */
    method Retire(lastSuccess: bool, boundaryReset: bool, qf: s32) returns (keep: bool)
      requires Ready()
      modifies Repr()
      ensures Ready() && Repr() == old(Repr())
      ensures keep == R.KeepsChallenger(old(View()), lastSuccess, boundaryReset)
      ensures View() == R.Reset(R.Promote(old(View()), lastSuccess, boundaryReset), keep, qf)
    {
      hide R.Promote, R.KeepsChallenger, R.Reset;
      ghost var arrived := View();
      keep := Promote(lastSuccess, boundaryReset);
      R.ResetForgets(View(), arrived.record, qf);
      Reset(keep, qf);
    }

    /** Ready the cursor, the record slot and the clock for an attempt. */
    method Reset(keep: bool, qf: s32)
      requires Ready()
      modifies this`k, record
      ensures Ready()
      ensures View() == R.Reset(old(View()), keep, qf)
    {
      hide R.ClearRecord;
      k := k.(cursor := REWOUND);
      if !keep {
        ClearRecord();
      }
      k := k.(lastSampleQf := 0, recording := !keep);
      PrepareClock(qf);
    }

    method Begin(mario: Mario, qf: s32)
      requires Ready() && Weak(record.Contents())
      modifies this`k, record, record.samples, record.segments
      ensures Ready() && View() == R.Begin(old(View()), mario, qf)
    {
      hide Weak, R.StartEpoch, R.AppendSegment;
      R.AppendSegmentWeak(View());
      var ok := AppendSegment();
      if ok {
        var _ := StartEpochSamples(mario, qf);
      }
    }

    // ---- stage changes ------------------------------------------------------------------------

    method OnStageSetup(director: bool)
      requires Ready() && Weak(record.Contents())
      modifies this, record, playback
      ensures Ready() && Repr() == old(Repr()) && View() == R.StageSetup(old(View()), director)
    {
      hide Weak, R.RollbackBoundary, R.ClearRecord, R.ClearPlaybackSlot;
      if !director {
        NoDirector();
        return;
      }
      var unsettled := k.boundary.pending && k.recording && record.header.valid;
      if k.boundary.pending {
        R.RollbackSurroundings(View());
        RollbackBoundarySegment();
        k := k.(boundary := k.boundary.(pending := false), recording := unsettled);
      }
      var continuing := unsettled || (k.recording && record.header.valid && k.clock.phase.Active?);
      k := k.(handover := R.Handover(true, k.liveValid, continuing, k.clock.lastQf), recording := false,
              liveValid := false, shown := Hidden, clock := k.clock.(phase := R.WaitStage));
    }

    method NoDirector()
      requires Ready()
      modifies this, record, playback
      ensures Ready() && Repr() == old(Repr()) && View() == R.NoDirector(old(View()))
    {
      hide R.ClearRecord, R.ClearPlaybackSlot;
      ClearRecord();
      if !k.pinned {
        ClearPlaybackSlot();
      }
      R.ClearsKeep(old(View()));
      k := k.(recording := false, shown := Hidden, liveValid := false,
              handover := k.handover.(routePending := false, hadLive := false, continuing := false),
              clock := k.clock.(phase := R.Unavailable));
    }

    method EnterStage(f: R.Frame, qf: s32)
      requires Ready() && Weak(record.Contents())
      modifies Repr()
      ensures Ready() && Repr() == old(Repr()) && View() == R.EnterStage(old(View()), f, qf)
    {
      hide Weak, R.BeginAttempt, R.Resume, R.Storable;
      var before := k.handover;
      k := k.(live := R.RouteOf(f.scene), liveValid := true,
              handover := k.handover.(routePending := false, hadLive := false, continuing := false));
      if !R.Storable(k.live) {
        k := k.(cursor := REWOUND, shown := Hidden, clock := k.clock.(phase := R.Unavailable));
      } else if !before.hadLive {
        BeginAttempt(f, qf, false);
      } else {
        var prior := before.previousQf;
        if before.continuing && record.segmentCount != 0 && prior < record.header.endQf {
          prior := record.header.endQf;
        }
        k := k.(boundary := R.Boundary(true, prior, record.segmentCount));
        PrepareClock(qf);
        k := k.(cursor := REWOUND);
        if before.continuing {
          Resume(f.mario, qf);
        }
      }
    }

    method Resume(mario: Mario, qf: s32)
      requires Ready() && Weak(record.Contents())
      modifies this`k, record, record.samples, record.segments
      ensures Ready() && View() == R.Resume(old(View()), mario, qf)
    {
      hide Weak, R.AppendSegment, R.StartEpoch, R.CloseBoundary;
      k := k.(recording := true);
      R.AppendSegmentWeak(View());
      var ok := AppendSegment();
      if ok {
        R.StartEpochWeak(View(), mario, qf);
        ok := StartEpochSamples(mario, qf);
      }
      if !ok {
        CloseBoundary();
      }
    }

    /** The boundary abandoned: what was settled stays, and the run is over. */
    method CloseBoundary()
      requires Ready() && Weak(record.Contents())
      modifies this`k, record
      ensures Ready() && View() == R.CloseBoundary(old(View()))
    {
      hide Weak, R.RollbackBoundary;
      R.RollbackSurroundings(View());
      RollbackBoundarySegment();
      k := k.(boundary := k.boundary.(pending := false), clock := k.clock.(phase := R.Finished));
    }

    // ---- frames -------------------------------------------------------------------------------

    /** The tentative segment withdrawn and recording ended. */
    method AfterRollback()
      requires Ready() && Weak(record.Contents())
      modifies this`k, record
      ensures Ready() && View() == R.AfterRollback(old(View())) && Weak(record.Contents())
    {
      hide Weak, R.RollbackBoundary;
      RollbackBoundarySegment();
      k := k.(boundary := k.boundary.(pending := false), recording := false);
    }

    /** A frame while a stage change is unproven. */
    method SettleBoundary(f: R.Frame, qf: s32, stopped: bool)
      requires Ready() && R.Inv(View()) && k.boundary.pending
      modifies Repr()
      ensures Ready() && Repr() == old(Repr()) && View() == R.SettleBoundary(old(View()), f, qf, stopped)
    {
      hide R.Inv, Weak, R.BeginAttempt, R.AppendSample, R.AfterRollback, R.CloseBoundary, R.SettleAppended;
      R.InvWeak(View());
      if qf < k.clock.lastQf || qf < k.boundary.priorQf {
        AfterRollback();
        BeginAttempt(f, qf, true);
        return;
      }
      R.BoundaryAppend(View(), f.mario, qf);
      Observe(qf);
      var ok := true;
      if k.recording {
        ok := AppendSample(f.mario, qf);
      }
      if ok {
        SettleAppended(f.normal, qf, stopped);
      } else {
        CloseBoundary();
      }
    }

    /** What the boundary has come to, once this frame's sample is stored. */
    method SettleAppended(normal: bool, qf: s32, stopped: bool)
      requires Ready() && Weak(record.Contents()) && (k.recording ==> k.boundary.base < record.segmentCount)
      modifies Taping()
      ensures Ready() && record == old(record) && playback == old(playback)
      ensures View() == R.SettleAppended(old(View()), normal, qf, stopped)
    {
      hide Weak, R.AfterRollback, R.Finish, R.BoundaryOrdered;
      var ordered := BoundaryOrdered();
      if stopped && k.recording && !ordered {
        R.AfterRollbackClock(View());
        AfterRollback();
        k := k.(clock := k.clock.(phase := R.Finished));
      } else if stopped {
        k := k.(boundary := k.boundary.(pending := false), clock := k.clock.(phase := R.Active));
        FinishRecording(qf);
      } else if ordered && normal && k.clock.observations >= R.SETTLE_OBSERVATIONS &&
          qf - k.clock.epochQf >= R.SETTLE_QF {
        k := k.(boundary := k.boundary.(pending := false), clock := k.clock.(phase := R.Active));
        if k.recording && record.count >= MIN_SAMPLES {
          record.header := record.header.(valid := true);
        }
      }
    }

    method Observe(qf: int)
      requires Ready()
      modifies this`k
      ensures Ready() && View() == R.Observed(old(View()), qf)
    {
      var count := k.clock.observations;
      k := k.(clock := k.clock.(lastQf := qf, observations := if count == 0xFFFF then count else count + 1));
    }

    method BoundaryOrdered() returns (ordered: bool)
      requires Ready() && (k.recording ==> k.boundary.base < record.segmentCount)
      ensures ordered == R.BoundaryOrdered(View())
    {
      ordered := true;
      if k.recording && k.boundary.base != 0 {
        var last := record.segments[record.segmentCount - 1];
        var prior := record.segments[k.boundary.base - 1];
        ordered := last.sampleCount != 0 && last.startQf >= prior.endQf;
      }
    }

    /** A frame on a settled stage. */
    method Follow(f: R.Frame, qf: s32, stopped: bool)
      requires Ready() && Weak(record.Contents())
      modifies Repr()
      ensures Ready() && Repr() == old(Repr()) && View() == R.Follow(old(View()), f, qf, stopped)
    {
      hide Weak, R.BeginAttempt, R.AppendSample, R.AfterRollback, R.Finish, R.Rebase, R.SettleClock;
      if stopped && (k.clock.phase.Provisional? || k.clock.phase.Active?) {
        FinishRecording(qf);
        return;
      }
      if qf < k.clock.lastQf && k.recording && record.segmentCount > 1 && 0 < k.boundary.base < record.segmentCount {
        AfterRollback();
        BeginAttempt(f, qf, true);
        return;
      }
      if qf < k.clock.lastQf {
        RebaseClock(f.mario, qf);
      } else {
        Observe(qf);
        if k.recording {
          var _ := AppendSample(f.mario, qf);
        }
      }
      SettleClock(f.normal, qf);
    }

    method SettleClock(normal: bool, qf: int)
      requires Ready()
      modifies this`k, record`header
      ensures Ready() && View() == R.SettleClock(old(View()), normal, qf)
    {
      if k.clock.phase.Provisional? && normal && k.clock.observations >= R.SETTLE_OBSERVATIONS &&
         qf - k.clock.epochQf >= R.SETTLE_QF && (!k.recording || record.count >= MIN_SAMPLES) {
        k := k.(clock := k.clock.(phase := R.Active));
        if k.recording {
          record.header := record.header.(valid := true);
        }
      }
    }

    /** One reading applied once the stage and the attempt are known. */
    method Advance(f: R.Frame, qf: s32, stopped: bool)
      requires Ready() && R.Inv(View()) && !k.handover.routePending
      modifies Repr()
      ensures Ready() && Repr() == old(Repr()) && View() == R.Advance(old(View()), f, qf, stopped)
    {
      hide R.RecordOk, Weak, R.SettleBoundary, R.Follow, R.Show, R.AssistStop, R.Fail;
      R.InvWeak(View());
      if f.mario.Absent? {
        if k.recording {
          FailRecording();
        }
        k := k.(shown := Hidden);
      } else if f.fastForward {
        if k.recording {
          AssistStop();
        }
        k := k.(shown := Hidden);
      } else if k.clock.phase.Unavailable? || k.clock.phase.WaitStage? {
        k := k.(shown := Hidden);
      } else if k.boundary.pending {
        var over := qf < k.clock.lastQf || qf < k.boundary.priorQf;
        R.SettleBoundaryOk(View(), f, qf, stopped);
        SettleBoundary(f, qf, stopped);
        if !over {
          UpdatePlayback(qf);
        }
      } else {
        var ends := stopped && (k.clock.phase.Provisional? || k.clock.phase.Active?);
        var over := qf < k.clock.lastQf && k.recording && record.segmentCount > 1 &&
            0 < k.boundary.base < record.segmentCount;
        R.FollowOk(View(), f, qf, stopped);
        Follow(f, qf, stopped);
        if ends || !over {
          UpdatePlayback(qf);
        }
      }
    }

    method AssistStop()
      requires Ready()
      modifies this`k, record`header
      ensures Ready() && View() == R.AssistStop(old(View()))
    {
      hide SetFlag;
      k := k.(recording := false);
      record.header := record.header.(valid := false,
                                      runFlags := SetFlag(SetFlag(record.header.runFlags, Assisted), FastForward));
      BumpRecordToken();
    }

    method Resync(f: R.Frame, qf: s32)
      requires Ready() && Weak(record.Contents())
      modifies Repr()
      ensures Ready() && Repr() == old(Repr()) && View() == R.Resync(old(View()), f, qf)
    {
      hide Weak, R.BeginAttempt, R.RollbackBoundary;
      R.RollbackSurroundings(View());
      if k.boundary.pending {
        R.RollbackWeak(View());
        RollbackBoundarySegment();
      }
      k := k.(boundary := k.boundary.(pending := false), serial := f.serial, recording := false,
              handover := k.handover.(continuing := false));
      BeginAttempt(f, qf, true);
    }

    /** Mirrors `update` outside observation. */
    method Update(f: R.Frame)
      requires Ready() && R.Inv(View())
      modifies Repr()
      ensures Ready() && Repr() == old(Repr()) && View() == R.Tick(old(View()), f) && R.Inv(View())
    {
      hide R.Inv, Weak, R.Advance, R.EnterStage, R.Resync, R.BeginAttempt;
      R.InvWeak(View());
      R.TickOk(View(), f);
      match f.reading
      case NoClock => k := k.(shown := Hidden);
      case Reading(qf, stopped) =>
        if f.serial != k.serial {
          R.ResyncOk(View(), f, qf);
          Resync(f, qf);
          Advance(f, qf, stopped);
        } else if k.handover.routePending {
          EnterStage(f, qf);
        } else {
          Advance(f, qf, stopped);
        }
    }

    // ---- calls from outside -------------------------------------------------------------------

    predicate UnsavedPB(h: Header) { h.valid && h.pb && !h.saved && h.pbToken != 0 }

    method Timed(reading: R.Reading)
      requires Ready()
      modifies this`k
      ensures Ready() && View() == R.Timed(old(View()), reading)
    {
      match reading
      case NoClock => k := k.(clock := k.clock.(phase := R.Unavailable));
      case Reading(qf, stopped) => k := k.(clock := R.Clock(if stopped then R.Finished else R.Provisional, 1, qf, qf));
    }

    /** Mirrors `importPlayback` for a track read from a canonical file. */
    method ImportPlayback(t: Track, attempt: u32, scene: R.Scene, director: bool, reading: R.Reading)
      requires Ready() && |t.samples| <= MAX_SAMPLES && |t.segments| <= MAX_SEGMENTS
      modifies Repr()
      ensures Ready() && Repr() == old(Repr())
      ensures View() == R.Import(old(View()), t, attempt, scene, director, reading)
    {
      hide R.ClearRecord;
      if UnsavedPB(playback.header) {
        return;
      }
      LoadTarget(t);
      if k.recording || !record.header.valid {
        ClearRecord();
      }
      EndAttempt(attempt);
      if director {
        k := k.(live := R.RouteOf(scene), liveValid := true);
      }
      Timed(reading);
    }

    method LoadTarget(t: Track)
      requires Ready() && |t.samples| <= MAX_SAMPLES && |t.segments| <= MAX_SEGMENTS
      modifies this`k, playback, playback.samples, playback.segments
      ensures Ready() && View() == R.LoadTarget(old(View()), t)
    {
      hide R.Bump;
      playback.Install(t, Header(t.startQf, t.endQf, t.resultQf, t.runFlags, t.route, t.version, t.attachmentFlags,
                                 t.attachments, t.valid, t.completed, true, false, 0));
      k := k.(tokens := k.tokens.(origin := 0, playback := R.Bump(k.tokens.playback),
                                  playbackChanges := k.tokens.playbackChanges + 1),
              pinned := true, cursor := REWOUND);
    }

    /** No stage, boundary or recording is carried on. */
    method EndAttempt(attempt: u32)
      requires Ready()
      modifies this`k
      ensures Ready() && View() == R.EndAttempt(old(View()), attempt)
    {
      k := k.(boundary := k.boundary.(pending := false), recording := false, shown := Hidden, serial := attempt,
              handover := R.Handover(false, false, false, k.handover.previousQf));
    }

    method StopAll()
      requires Ready()
      modifies this`k, record, playback
      ensures Ready() && View() == R.StopAll(old(View()))
    {
      hide R.Bump;
      ClearRecord();
      ClearPlaybackSlot();
      k := k.(boundary := k.boundary.(pending := false), pinned := false, recording := false, shown := Hidden,
              liveValid := false, clock := k.clock.(phase := R.Unavailable),
              handover := R.Handover(false, false, false, k.handover.previousQf));
    }

    /** Mirrors `onSavestateLoaded` outside observation. */
    method OnSavestateLoaded(attempt: u32, scene: R.Scene, director: bool, reading: R.Reading)
      requires Ready()
      modifies this`k, record, playback
      ensures Ready() && View() == R.LoadSavestate(old(View()), attempt, scene, director, reading)
    {
      hide R.StopAll, R.Bump;
      ClearRecord();
      EndAttempt(attempt);
      if !k.pinned {
        StopAll();
        k := k.(live := if director then R.RouteOf(scene) else k.live, liveValid := director);
        R.StopAllKeeps(old(View()), attempt);
      } else {
        k := k.(live := R.RouteOf(scene), liveValid := true, cursor := REWOUND);
        Timed(reading);
      }
    }

    /** Mirrors `releaseSavedRecording`. */
    method ReleaseSavedRecording(token: u32)
      requires Ready()
      modifies this`k, record, playback
      ensures Ready() && View() == R.Acknowledge(old(View()), token)
    {
      hide R.ClearRecord;
      if token >= R.PLAYBACK_BIT {
        if token - R.PLAYBACK_BIT == k.tokens.playback && playback.header.valid {
          playback.header := playback.header.(saved := true, pb := false, pbToken := 0);
        }
      } else if token != 0 && token == k.tokens.origin && playback.header.valid {
        playback.header := playback.header.(saved := true, pb := false, pbToken := 0);
      } else if token != 0 && token == k.tokens.record && record.header.valid {
        record.header := record.header.(saved := true, pb := false, pbToken := 0);
        if k.pinned && !k.recording {
          ClearRecord();
        }
      }
    }

    method MarkCurrentRecordingPB(resultQf: s32) returns (ok: bool)
      requires Ready()
      modifies this`k, record`header
      ensures Ready() && View() == R.MarkPB(old(View()), resultQf)
      ensures ok <==> 0 <= resultQf && old(View()).record.track.valid && old(View()).record.track.completed
                        && old(View()).record.track.resultQf == resultQf
    {
      hide R.NextPB;
      if resultQf < 0 || !record.header.valid || !record.header.completed || record.header.resultQf != resultQf {
        return false;
      }
      if !record.header.pb || record.header.pbToken == 0 {
        k := k.(tokens := k.tokens.(pbSerial := R.NextPB(k.tokens.pbSerial)));
        record.header := record.header.(pbToken := k.tokens.pbSerial);
      }
      record.header := record.header.(pb := true, saved := false);
      return true;
    }

    method DiscardUnsavedPB(token: u32)
      requires Ready()
      modifies this`k, record, playback
      ensures Ready() && View() == R.Discard(old(View()), token)
    {
      hide R.Bump;
      if token == 0 {
        return;
      }
      if UnsavedPB(record.header) && record.header.pbToken == token {
        ClearRecord();
        k := k.(boundary := k.boundary.(pending := false), recording := false,
                handover := k.handover.(continuing := false));
      } else if UnsavedPB(playback.header) && playback.header.pbToken == token {
        ClearPlaybackSlot();
        k := k.(cursor := REWOUND, pinned := false, shown := Hidden);
      }
    }
  }
}
