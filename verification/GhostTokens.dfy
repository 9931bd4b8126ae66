/** What an exported token still names: acknowledgements over any run of the recorder. */
module GhostTokens {
  import opened Bytes
  import opened GhostTrack
  import opened GhostCapture
  import opened GhostPlayback
  import opened GhostRecorder

  /** How many token changes pass before a token returns. */
  const CYCLE := 0x7FFF_FFFF

  /** Everything a file holds of a track; validity decides only whether it is offered. */
  function Content(t: Track): Track { t.(valid := true) }

  /** The token of the `n`th content. */
  function Name(n: nat): u32 {
    if n == 0 then 0 else (n - 1) % CYCLE + 1
  }

  lemma BumpNames(n: nat)
    ensures Bump(Name(n)) == Name(n + 1)
  {
    if n > 0 && (n - 1) % CYCLE + 1 == CYCLE {
      NextCycle(n);
    } else if n > 0 {
      NextInCycle(n);
    }
  }

  lemma NextCycle(n: nat)
    requires n > 0 && (n - 1) % CYCLE == CYCLE - 1
    ensures n % CYCLE == 0
  {
    assert n == CYCLE * ((n - 1) / CYCLE + 1);
  }

  lemma NextInCycle(n: nat)
    requires n > 0 && (n - 1) % CYCLE < CYCLE - 1
    ensures n % CYCLE == (n - 1) % CYCLE + 1
  {
    assert n == CYCLE * ((n - 1) / CYCLE) + (n - 1) % CYCLE + 1;
  }

  /** Two changes less than a cycle apart have different tokens. */
  lemma NamesDiffer(m: nat, n: nat)
    requires 0 < m <= n < m + CYCLE && Name(m) == Name(n)
    ensures m == n
  {
    assert m - 1 == CYCLE * ((m - 1) / CYCLE) + (m - 1) % CYCLE;
    assert n - 1 == CYCLE * ((n - 1) / CYCLE) + (n - 1) % CYCLE;
  }

  // ---- how a step may change tokens and contents ----------------------------------------------

  predicate TokensOk(s: State) {
    var k := s.tokens;
    && 0 < k.recordChanges && 0 < k.playbackChanges
    && k.record == Name(k.recordChanges) && k.playback == Name(k.playbackChanges)
    && (k.origin != 0 ==> k.origin == Name(k.originChange) && 0 < k.originChange < k.recordChanges)
  }

  /** The playback slot keeps its content and tokens. */
  predicate PlaybackStays(a: State, b: State) {
    && Content(b.playback.track) == Content(a.playback.track) && b.tokens.playback == a.tokens.playback
    && b.tokens.playbackChanges == a.tokens.playbackChanges && b.tokens.origin == a.tokens.origin
    && b.tokens.originChange == a.tokens.originChange
  }

  /** The record slot keeps its content, or its token moves on. */
  predicate RecordNamed(a: State, b: State) {
    && a.tokens.recordChanges <= b.tokens.recordChanges
    && (a.tokens.recordChanges == b.tokens.recordChanges ==>
          b.tokens.record == a.tokens.record && Content(b.record.track) == Content(a.record.track))
    && (a.tokens.record == Name(a.tokens.recordChanges) ==> b.tokens.record == Name(b.tokens.recordChanges))
  }

  predicate Records(a: State, b: State) { PlaybackStays(a, b) && RecordNamed(a, b) }

  /** No content changes without its token; a promoted content remembers the token it had. */
  predicate Keeps(a: State, b: State) {
    && (TokensOk(a) ==> TokensOk(b)) && RecordNamed(a, b)
    && a.tokens.playbackChanges <= b.tokens.playbackChanges
    && (a.tokens.playbackChanges == b.tokens.playbackChanges ==> PlaybackStays(a, b))
    && (a.tokens.playbackChanges < b.tokens.playbackChanges && b.tokens.origin != 0 ==>
          && a.tokens.recordChanges <= b.tokens.originChange
          && (a.tokens.recordChanges == b.tokens.originChange ==> Content(b.playback.track) == Content(a.record.track)))
  }

  lemma RecordsTransitive(a: State, b: State, c: State)
    requires Records(a, b) && Records(b, c)
    ensures Records(a, c)
  {
    hide Name, Content;
  }

  lemma RecordsKeeps(a: State, b: State)
    requires Records(a, b)
    ensures Keeps(a, b)
  {
    hide Name, Content;
  }

  lemma KeepsTransitive(a: State, b: State, c: State)
    requires Keeps(a, b) && Keeps(b, c)
    ensures Keeps(a, c)
  {
    hide Name, Content, TokensOk;
  }

  lemma BumpKeeps(s: State, t: Track)
    ensures Records(s, BumpRecord(SetTrack(s, t)))
  {
    hide Bump, Name;
    BumpNames(s.tokens.recordChanges);
  }

  // ---- recording ------------------------------------------------------------------------------

  lemma AppendSegmentKeeps(s: State)
    requires Weak(s.record.track)
    ensures Records(s, AppendSegment(s).0)
  {
    hide Name, AddSegment, Bump;
    if |s.record.track.segments| < MAX_SEGMENTS {
      BumpKeeps(s, AddSegment(s.record.track, s.live));
    }
  }

  lemma RollbackKeepsNames(s: State)
    requires Weak(s.record.track)
    ensures Records(s, RollbackBoundary(s))
  {
    hide Name, Rollback, Bump;
    BumpNames(s.tokens.recordChanges);
  }

  lemma AppendSampleKeeps(s: State, mario: Mario, qf: int)
    requires Weak(s.record.track) && -0x8000_0000 <= qf < 0x8000_0000
    ensures Records(s, AppendSample(s, mario, qf).0)
  {
    hide Name, AddSample, DropEmpty, Bump, Weak;
    BumpNames(s.tokens.recordChanges);
  }

  lemma ClearEpochKeeps(s: State)
    requires Weak(s.record.track)
    ensures Records(s, ClearEpoch(s))
  {
    hide Name, Restart, Bump;
    BumpNames(s.tokens.recordChanges);
  }

  lemma StartEpochKeeps(s: State, mario: Mario, qf: s32)
    requires Weak(s.record.track)
    ensures Records(s, StartEpoch(s, mario, qf).0)
  {
    hide Records, Weak, AppendSample, ClearEpoch;
    ClearEpochWeak(s);
    var cleared := ClearEpoch(s);
    var anchor: int := if |s.record.track.segments| == 1 then 0 else qf;
    AppendWeak(cleared, mario, anchor);
    ClearEpochKeeps(s);
    AppendSampleKeeps(cleared, mario, anchor);
    var first := AppendSample(cleared, mario, anchor).0;
    RecordsTransitive(s, cleared, first);
    AppendSampleKeeps(first, mario, qf);
    RecordsTransitive(s, first, AppendSample(first, mario, qf).0);
  }

  lemma RebaseKeeps(s: State, mario: Mario, qf: s32)
    requires Weak(s.record.track)
    ensures Records(s, Rebase(s, mario, qf))
  {
    hide Name, Bump, StartEpoch, Weak;
    BumpNames(s.tokens.recordChanges);
    StartEpochKeeps(s, mario, qf);
  }

  lemma FinishKeepsNames(s: State, qf: s32)
    requires Weak(s.record.track)
    ensures Records(s, Finish(s, qf))
  {
    hide Name, Bump, FinishedTrack, SetFlag, ClearFlag, Weak;
    BumpNames(s.tokens.recordChanges);
  }

  // ---- promotion and attempts -----------------------------------------------------------------

  /** Promotion copies the record's content under its token; the cleared record moves on. */
  lemma PromoteKeeps(s: State, lastSuccess: bool, boundaryReset: bool)
    ensures Keeps(s, ClearRecord(Rewind(Promote(s, lastSuccess, boundaryReset))))
  {
    hide Name, Bump, PinSurvives, Promotable, RouteMatches;
    BumpNames(s.tokens.recordChanges);
    BumpNames(s.tokens.playbackChanges);
    BumpNames(s.tokens.playbackChanges + 1);
  }

  lemma KeepChallengerKeeps(s: State, lastSuccess: bool, boundaryReset: bool)
    requires KeepsChallenger(s, lastSuccess, boundaryReset)
    ensures Keeps(s, Rewind(Promote(s, lastSuccess, boundaryReset)))
  {
    hide Name, Bump, OwnsCourse, Promotable, RouteMatches;
  }

  lemma BeginAttemptKeeps(s: State, f: Frame, qf: s32, boundaryReset: bool)
    requires Weak(s.record.track)
    ensures Keeps(s, BeginAttempt(s, f, qf, boundaryReset))
  {
    hide Keeps, Records, Promote, KeepsChallenger, StartEpoch, AppendSegment, ClearRecord, Weak;
    var arrived := s.(live := RouteOf(f.scene), liveValid := true);
    Unnamed(s, arrived);
    ClearedWeak();
    if KeepsChallenger(arrived, f.lastSuccess, boundaryReset) {
      KeepChallengerKeeps(arrived, f.lastSuccess, boundaryReset);
      var promoted := Rewind(Promote(arrived, f.lastSuccess, boundaryReset));
      KeepsTransitive(s, arrived, promoted);
      Unnamed(promoted, BeginAttempt(s, f, qf, boundaryReset));
      KeepsTransitive(s, promoted, BeginAttempt(s, f, qf, boundaryReset));
    } else {
      PromoteKeeps(arrived, f.lastSuccess, boundaryReset);
      var cleared := ClearRecord(Rewind(Promote(arrived, f.lastSuccess, boundaryReset)));
      KeepsTransitive(s, arrived, cleared);
      var ready := PrepareClock(cleared.(lastSampleQf := 0, recording := true), qf);
      ClearedTrack(Rewind(Promote(arrived, f.lastSuccess, boundaryReset)));
      Unnamed(cleared, ready);
      KeepsTransitive(s, cleared, ready);
      AppendSegmentWeak(ready);
      var begun := AppendSegment(ready).0;
      AppendSegmentKeeps(ready);
      RecordsKeeps(ready, begun);
      KeepsTransitive(s, ready, begun);
      var over := StartEpoch(begun, f.mario, qf).0;
      StartEpochKeeps(begun, f.mario, qf);
      RecordsKeeps(begun, over);
      KeepsTransitive(s, begun, over);
    }
  }

  lemma ClearedTrack(s: State)
    ensures ClearRecord(s).record.track == CLEARED
  {
  }

  /** A step that touches neither slot's content nor the tokens. */
  lemma Unnamed(a: State, b: State)
    requires b.tokens == a.tokens && Content(b.record.track) == Content(a.record.track)
    requires Content(b.playback.track) == Content(a.playback.track)
    ensures Keeps(a, b) && Records(a, b)
  {
    hide Name, Content;
  }

  lemma AfterRollbackKeeps(s: State)
    requires Weak(s.record.track)
    ensures Records(s, AfterRollback(s))
  {
    hide Content, Name, RollbackBoundary, Weak;
    RollbackWeak(s);
    RollbackKeepsNames(s);
  }

  // ---- frames ---------------------------------------------------------------------------------

  lemma StageSetupKeeps(s: State, director: bool)
    requires Weak(s.record.track)
    ensures Keeps(s, StageSetup(s, director))
  {
    hide Content, Name, Bump, RollbackBoundary, Weak;
    BumpNames(s.tokens.recordChanges);
    BumpNames(s.tokens.playbackChanges);
    RollbackKeepsNames(s);
  }

  lemma EnterStageKeeps(s: State, f: Frame, qf: s32)
    requires Weak(s.record.track)
    ensures Keeps(s, EnterStage(s, f, qf))
  {
    hide Keeps, Records, RollbackBoundary, StartEpoch, AppendSegment, BeginAttempt, Weak, Storable;
    var t, previous := s.record.track, s.handover.previousQf;
    var entered := s.(live := RouteOf(f.scene), liveValid := true,
                      handover := s.handover.(routePending := false, hadLive := false, continuing := false));
    Unnamed(s, entered);
    var r := EnterStage(s, f, qf);
    if !Storable(entered.live) {
      Unnamed(s, r);
    } else if !s.handover.hadLive {
      BeginAttemptKeeps(entered, f, qf, false);
      KeepsTransitive(s, entered, r);
    } else {
      var prior := if s.handover.continuing && t.segments != [] && previous < t.endQf then t.endQf as int else previous;
      var waiting := Rewind(PrepareClock(entered.(boundary := Boundary(true, prior, |t.segments|)), qf));
      Unnamed(s, waiting);
      if s.handover.continuing {
        var resumed := waiting.(recording := true);
        Unnamed(s, resumed);
        AppendSegmentWeak(resumed);
        AppendSegmentKeeps(resumed);
        var (added, ok) := AppendSegment(resumed);
        RecordsTransitive(s, resumed, added);
        StartEpochKeeps(added, f.mario, qf);
        StartEpochWeak(added, f.mario, qf);
        var began := StartEpoch(added, f.mario, qf).0;
        RecordsTransitive(s, added, began);
        var stopped := if ok then began else added;
        RollbackKeepsNames(stopped);
        RecordsTransitive(s, stopped, RollbackBoundary(stopped));
        var over := EndBoundary(RollbackBoundary(stopped)).(clock := stopped.clock.(phase := Finished));
        Unnamed(RollbackBoundary(stopped), over);
        RecordsTransitive(s, RollbackBoundary(stopped), over);
        RecordsKeeps(s, over);
        RecordsKeeps(s, began);
      }
    }
  }

  lemma SettleBoundaryKeeps(s: State, f: Frame, qf: s32, stopped: bool)
    requires Inv(s) && s.boundary.pending
    ensures Keeps(s, SettleBoundary(s, f, qf, stopped))
  {
    hide Keeps, Records, Content, RollbackBoundary, AppendSample, BeginAttempt, AfterRollback, Finish, Inv,
        BoundaryOrdered;
    InvWeak(s);
    var r := SettleBoundary(s, f, qf, stopped);
    if qf < s.clock.lastQf || qf < s.boundary.priorQf {
      AfterRollbackKeeps(s);
      BeginAttemptKeeps(AfterRollback(s), f, qf, true);
      RecordsKeeps(s, AfterRollback(s));
      KeepsTransitive(s, AfterRollback(s), r);
    } else {
      var seen := Observed(s, qf);
      var (next, ok) := if s.recording then AppendSample(seen, f.mario, qf) else (seen, true);
      BoundaryAppend(s, f.mario, qf);
      Unnamed(s, seen);
      Unnamed(seen, seen);
      Unnamed(next, next);
      AppendSampleKeeps(seen, f.mario, qf);
      RecordsTransitive(s, seen, next);
      RollbackKeepsNames(next);
      AfterRollbackKeeps(next);
      var active := EndBoundary(next).(clock := next.clock.(phase := Active));
      ContentIgnoresValid(next.record.track, true);
      var middle := if !ok then RollbackBoundary(next)
                    else if stopped && next.recording && !BoundaryOrdered(next) then AfterRollback(next) else next;
      RecordsTransitive(s, next, middle);
      if ok && stopped && middle == next && (!next.recording || BoundaryOrdered(next)) {
        Unnamed(next, active);
        FinishKeepsNames(active, qf);
        RecordsTransitive(s, next, active);
        RecordsTransitive(s, active, r);
      } else {
        Unnamed(middle, r);
        RecordsTransitive(s, middle, r);
      }
      RecordsKeeps(s, r);
    }
  }

  lemma ContentIgnoresValid(t: Track, valid: bool)
    ensures Content(t.(valid := valid)) == Content(t)
  {
  }

  lemma FollowKeeps(s: State, f: Frame, qf: s32, stopped: bool)
    requires Weak(s.record.track)
    ensures Keeps(s, Follow(s, f, qf, stopped))
  {
    hide Keeps, Records, Content, AppendSample, BeginAttempt, AfterRollback, Finish, Rebase, Weak, ResetAfterSettling,
        ClockSettled;
    var r := Follow(s, f, qf, stopped);
    if stopped && (s.clock.phase.Provisional? || s.clock.phase.Active?) {
      FinishKeepsNames(s, qf);
      RecordsKeeps(s, r);
    } else if ResetAfterSettling(s, qf) {
      AfterRollbackKeeps(s);
      BeginAttemptKeeps(AfterRollback(s), f, qf, true);
      RecordsKeeps(s, AfterRollback(s));
      KeepsTransitive(s, AfterRollback(s), r);
    } else {
      var seen := Observed(s, qf);
      Unnamed(s, seen);
      RebaseKeeps(s, f.mario, qf);
      AppendSampleKeeps(seen, f.mario, qf);
      RecordsTransitive(s, seen, AppendSample(seen, f.mario, qf).0);
      var moved := if qf < s.clock.lastQf then Rebase(s, f.mario, qf)
                   else if s.recording then AppendSample(seen, f.mario, qf).0 else seen;
      ContentIgnoresValid(moved.record.track, true);
      Unnamed(moved, r);
      RecordsTransitive(s, moved, r);
      RecordsKeeps(s, r);
    }
  }

  lemma AdvanceKeeps(s: State, f: Frame, qf: s32, stopped: bool)
    requires Inv(s) && !s.handover.routePending
    ensures Keeps(s, Advance(s, f, qf, stopped))
  {
    hide Inv, Keeps, Records, SettleBoundary, Follow, StartsOver, AssistStop, Fail;
    InvWeak(s);
    var r := Advance(s, f, qf, stopped);
    if f.mario.Absent? || f.fastForward {
      var over := if !s.recording then s else if f.mario.Absent? then Fail(s) else AssistStop(s);
      StopsKeep(s);
      RecordsKeeps(s, over);
      Unnamed(over, r);
      KeepsTransitive(s, over, r);
    } else if s.clock.phase.Unavailable? || s.clock.phase.WaitStage? {
      Unnamed(s, r);
    } else {
      var moved;
      if s.boundary.pending {
        SettleBoundaryOk(s, f, qf, stopped);
        SettleBoundaryKeeps(s, f, qf, stopped);
        moved := SettleBoundary(s, f, qf, stopped);
      } else {
        FollowOk(s, f, qf, stopped);
        FollowKeeps(s, f, qf, stopped);
        moved := Follow(s, f, qf, stopped);
      }
      ShowUnnamed(moved, qf);
      Unnamed(moved, r);
      KeepsTransitive(s, moved, r);
    }
  }

  lemma ShowUnnamed(s: State, qf: int)
    requires Inv(s)
    ensures var r := Show(s, qf); r.tokens == s.tokens && r.record == s.record && r.playback == s.playback
  {
    hide Publishable, Update, RecordOk, CursorOk;
    if s.playback.track.valid {
      PublishableShown(s.playback.track);
    }
  }

  lemma StopsKeep(s: State)
    ensures Records(s, Fail(s)) && Records(s, AssistStop(s)) && Records(s, s)
  {
    hide Name, Bump, SetFlag;
    BumpNames(s.tokens.recordChanges);
  }

  lemma TickKeeps(s: State, f: Frame)
    requires Inv(s)
    ensures Keeps(s, Tick(s, f))
  {
    hide Inv, Keeps, Records, Advance, EnterStage, RollbackBoundary, BeginAttempt;
    InvWeak(s);
    if f.reading.NoClock? {
      Unnamed(s, Tick(s, f));
    } else if f.serial != s.serial {
      var qf := f.reading.qf;
      RollbackWeak(s);
      RollbackKeepsNames(s);
      Unnamed(s, s);
      var back := if s.boundary.pending then RollbackBoundary(s) else s;
      var over := EndBoundary(back).(serial := f.serial, recording := false,
                                     handover := s.handover.(continuing := false));
      Unnamed(back, over);
      RecordsTransitive(s, back, over);
      RecordsKeeps(s, over);
      BeginAttemptKeeps(over, f, qf, true);
      KeepsTransitive(s, over, Resync(s, f, qf));
      ResyncOk(s, f, qf);
      AdvanceKeeps(Resync(s, f, qf), f, qf, f.reading.stopped);
      KeepsTransitive(s, Resync(s, f, qf), Tick(s, f));
    } else if s.handover.routePending {
      EnterStageKeeps(s, f, f.reading.qf);
    } else {
      AdvanceKeeps(s, f, f.reading.qf, f.reading.stopped);
    }
  }

  lemma ImportKeeps(s: State, t: Track, serial: u32, scene: Scene, director: bool, reading: Reading)
    ensures Keeps(s, Import(s, t, serial, scene, director, reading))
  {
    hide Name, Bump;
    BumpNames(s.tokens.recordChanges);
    BumpNames(s.tokens.playbackChanges);
  }

  lemma LoadSavestateKeeps(s: State, serial: u32, scene: Scene, director: bool, reading: Reading)
    ensures Keeps(s, LoadSavestate(s, serial, scene, director, reading))
  {
    hide Name, Bump;
    BumpNames(s.tokens.recordChanges);
    BumpNames(s.tokens.recordChanges + 1);
    BumpNames(s.tokens.playbackChanges);
  }

  lemma AcknowledgeKeeps(s: State, token: u32)
    ensures Keeps(s, Acknowledge(s, token))
  {
    hide Name, Bump;
    BumpNames(s.tokens.recordChanges);
  }

  lemma DropKeeps(s: State, token: u32)
    ensures Keeps(s, Discard(s, token)) && Keeps(s, ClearPlayback(s))
  {
    hide Name, Bump;
    BumpNames(s.tokens.recordChanges);
    BumpNames(s.tokens.playbackChanges);
  }

  /** Every step, whatever it is, keeps the naming discipline. */
  lemma StepKeeps(s: State, e: Event)
    requires Inv(s) && Possible(e)
    ensures Keeps(s, Step(s, e))
  {
    hide Inv, Keeps, Tick, StageSetup;
    InvWeak(s);
    match e
    case Framed(f) => TickKeeps(s, f);
    case StageReady(director) => StageSetupKeeps(s, director);
    case Drawn(f) =>
      HiddenOk(s);
      if f.reading.Reading? {
        ShowUnnamed(s.(shown := Hidden), f.reading.qf);
      }
      Unnamed(s, Step(s, e));
    case Imported(t, serial, scene, director, reading) => ImportKeeps(s, t, serial, scene, director, reading);
    case SavestateLoaded(serial, scene, director, reading) => LoadSavestateKeeps(s, serial, scene, director, reading);
    case SaveAcknowledged(token) => AcknowledgeKeeps(s, token);
    case Discarded(token) => DropKeeps(s, token);
    case PlaybackCleared => DropKeeps(s, 0);
    case BestMarked(qf) => MarkKeeps(s, qf);
    case Unprotected(token) => Unnamed(s, Step(s, e));
    case Unpinned => Unnamed(s, Step(s, e));
  }

  /** Accepting a best run numbers it without renaming its content. */
  lemma MarkKeeps(s: State, qf: s32)
    ensures Keeps(s, MarkPB(s, qf))
  {
    hide Name, NextPB;
  }

  lemma {:induction false} RunKeeps(s: State, events: seq<Event>)
    requires Inv(s) && AllPossible(events)
    ensures Keeps(s, Run(s, events))
    decreases |events|
  {
    hide Inv, Keeps, Step, Possible;
    if events == [] {
      Unnamed(s, s);
    } else {
      FirstPossible(events);
      StepOk(s, events[0]);
      StepKeeps(s, events[0]);
      RunKeeps(Step(s, events[0]), events[1..]);
      KeepsTransitive(s, Step(s, events[0]), Run(s, events));
    }
  }

  // ---- acknowledgements -----------------------------------------------------------------------

  /** `token` was exported at state `e`; at state `a` fewer than a cycle of changes are outstanding. */
  predicate Recent(e: State, a: State) {
    && a.tokens.recordChanges < e.tokens.recordChanges + CYCLE
    && a.tokens.playbackChanges < e.tokens.playbackChanges + CYCLE
    && (a.tokens.origin != 0 ==> a.tokens.recordChanges < a.tokens.originChange + CYCLE)
  }

  /** Acknowledging what was exported at the start of a run marks a slot saved only if that slot still
      holds exactly the exported content, whatever happened meanwhile. */
  lemma AcknowledgeExact(e: State, events: seq<Event>)
    requires Inv(e) && TokensOk(e) && AllPossible(events) && !LatestSaveable(e).Nothing?
    requires Recent(e, Run(e, events))
    ensures var chosen := LatestSaveable(e);
            var a := Run(e, events);
            var r := Acknowledge(a, chosen.token);
            && (r.playback != a.playback ==> Content(a.playback.track) == Content(chosen.track))
            && (r.record != a.record ==> Content(a.record.track) == Content(chosen.track))
            && TokensOk(a)
  {
    hide Inv, Content, Name, Run, Possible, UnsavedPB;
    RunKeeps(e, events);
    var a, chosen := Run(e, events), LatestSaveable(e);
    NameRange(e.tokens.recordChanges);
    NameRange(e.tokens.playbackChanges);
    if chosen.FromRecord? {
      SameName(e.tokens.recordChanges, a.tokens.recordChanges);
      if a.tokens.origin == chosen.token {
        if e.tokens.recordChanges <= a.tokens.originChange {
          SameName(e.tokens.recordChanges, a.tokens.originChange);
        } else {
          SameName(a.tokens.originChange, e.tokens.recordChanges);
        }
      }
    } else {
      SameName(e.tokens.playbackChanges, a.tokens.playbackChanges);
    }
  }

  lemma NameRange(n: nat)
    requires n > 0
    ensures 0 < Name(n) < PLAYBACK_BIT
  {
  }

  lemma SameName(m: nat, n: nat)
    requires 0 < m <= n < m + CYCLE
    ensures Name(m) == Name(n) ==> m == n
  {
    if Name(m) == Name(n) {
      NamesDiffer(m, n);
    }
  }

  /** Conversely, a valid slot whose content was not touched since the export is marked saved, in place
      or after its promotion, unless the acknowledgement already freed the challenger's slot. */
  lemma AcknowledgeReaches(e: State, events: seq<Event>)
    requires Inv(e) && TokensOk(e) && AllPossible(events) && !LatestSaveable(e).Nothing?
    requires Recent(e, Run(e, events))
    ensures var chosen := LatestSaveable(e);
            var a := Run(e, events);
            var r := Acknowledge(a, chosen.token);
            && (chosen.FromPlayback? && a.playback.track.valid ==>
                  a.tokens.playbackChanges == e.tokens.playbackChanges ==> r.playback.saved)
            && (chosen.FromRecord? && a.tokens.origin == chosen.token && a.playback.track.valid ==> r.playback.saved)
            && (chosen.FromRecord? && a.tokens.recordChanges == e.tokens.recordChanges && a.record.track.valid ==>
                  r.record.saved || (a.pinned && !a.recording && r.record == EMPTY))
  {
    hide Inv, Content, Run, Possible, UnsavedPB;
    RunKeeps(e, events);
    AcknowledgeExact(e, events);
    var a := Run(e, events);
    NameRange(e.tokens.recordChanges);
    NameRange(e.tokens.playbackChanges);
    if a.tokens.origin != 0 && a.tokens.recordChanges == e.tokens.recordChanges {
      SameName(a.tokens.originChange, a.tokens.recordChanges);
    }
  }

  lemma InitialNamed(serial: u32)
    ensures Inv(Initial(serial)) && TokensOk(Initial(serial))
  {
    InitialOk(serial);
  }

  /** So in every run from the start: whatever was offered for saving after `before`, its acknowledgement
      after the further events `since` marks a slot saved only if the slot still holds that content. */
  lemma AcknowledgedIsExported(serial: u32, before: seq<Event>, since: seq<Event>)
    requires AllPossible(before) && AllPossible(since)
    ensures Inv(Initial(serial))
    ensures var e := Run(Initial(serial), before);
            var a, chosen := Run(e, since), LatestSaveable(e);
            !chosen.Nothing? && Recent(e, a) ==>
              && var r := Acknowledge(a, chosen.token);
                 && (r.playback != a.playback ==> Content(a.playback.track) == Content(chosen.track))
                 && (r.record != a.record ==> Content(a.record.track) == Content(chosen.track))
  {
    hide Inv, Content, Run, Possible, LatestSaveable, Acknowledge, TokensOk, Keeps;
    InitialNamed(serial);
    RunKeeps(Initial(serial), before);
    NamedAfter(Initial(serial), Run(Initial(serial), before));
    var e := Run(Initial(serial), before);
    if !LatestSaveable(e).Nothing? && Recent(e, Run(e, since)) {
      AcknowledgeExact(e, since);
    }
  }

  lemma NamedAfter(a: State, b: State)
    requires TokensOk(a) && Keeps(a, b)
    ensures TokensOk(b)
  {
  }

  // ---- the limit of a token -------------------------------------------------------------------

  /** Two changes have the same token exactly when a whole number of cycles lies between them. */
  lemma NamesAgree(m: nat, n: nat)
    requires 0 < m <= n
    ensures Name(m) == Name(n) <==> (n - m) % CYCLE == 0
  {
    var i, j := m - 1, n - 1;
    assert i == CYCLE * (i / CYCLE) + i % CYCLE;
    assert j == CYCLE * (j / CYCLE) + j % CYCLE;
    Remainder(j / CYCLE - i / CYCLE, j % CYCLE - i % CYCLE);
  }

  lemma Remainder(q: int, r: int)
    requires -CYCLE < r < CYCLE
    ensures (CYCLE * q + r) % CYCLE == 0 <==> r == 0
  {
    if r < 0 {
      assert CYCLE * q + r == CYCLE * (q - 1) + (CYCLE + r);
    }
  }

  /** The age bound on a promoted track is needed, and is exact. A record exported and acknowledged at once
      is marked saved, unless the promoted track's origin is a whole number of cycles old: then that other
      track is marked in its place. */
  lemma OldOriginMisleads(s: State)
    requires Inv(s) && TokensOk(s) && LatestSaveable(s).FromRecord? && s.playback.track.valid && s.tokens.origin != 0
    ensures var r := Acknowledge(s, LatestSaveable(s).token);
            if (s.tokens.recordChanges - s.tokens.originChange) % CYCLE == 0
            then r == s.(playback := Acknowledged(s.playback))
            else r.playback == s.playback && (r.record == Acknowledged(s.record) || r.record == EMPTY)
  {
    hide Inv, Name;
    NameRange(s.tokens.recordChanges);
    NamesAgree(s.tokens.originChange, s.tokens.recordChanges);
  }

  /** The same state with its record a cycle of changes later: nothing but the count tells the two apart. */
  function Aged(s: State): State {
    s.(tokens := s.tokens.(record := s.tokens.origin, recordChanges := s.tokens.originChange + CYCLE))
  }

  /** Aging keeps the invariant, the token discipline and what is offered for saving, and the offer's
      acknowledgement then marks the promoted track, leaving the record unsaved. */
  lemma AgedMisleads(s: State)
    requires Inv(s) && TokensOk(s) && LatestSaveable(s).FromRecord? && s.playback.track.valid && s.tokens.origin != 0
    ensures var a := Aged(s);
            && Inv(a) && TokensOk(a) && LatestSaveable(a).FromRecord?
            && LatestSaveable(a).track == LatestSaveable(s).track
            && var r := Acknowledge(a, LatestSaveable(a).token);
               r.playback == Acknowledged(s.playback) && r.record == s.record
  {
    hide Name;
    NameRange(s.tokens.originChange);
    NamesAgree(s.tokens.originChange, s.tokens.originChange + CYCLE);
    OldOriginMisleads(Aged(s));
  }
}
