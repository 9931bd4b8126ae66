/** The recorder as a state machine: clock phases, tentative boundary segments, promotion to the
    playback slot, and the tokens that name what was exported. */
module GhostRecorder {
  import opened Bytes
  import opened GhostTrack
  import opened GhostFinish
  import opened GhostCapture
  import opened GhostPlayback

  const SETTLE_OBSERVATIONS := 30
  const SETTLE_QF := 8
  const NEUTRAL_HUB := 1
  const PLAYBACK_BIT := 0x8000_0000

  // ---- state ----------------------------------------------------------------------------------

  datatype Slot = Slot(track: Track, saved: bool, pb: bool, pbToken: u32)

  const EMPTY := Slot(CLEARED, false, false, 0)

  /** Tokens name slot contents. The change counts are history: how often each token moved on, and
      at which record count the playback slot was promoted. */
  datatype Tokens = Tokens(record: u32, identity: u32, playback: u32, origin: u32, pbSerial: u32,
                           recordChanges: nat, playbackChanges: nat, originChange: nat)

  datatype ClockPhase = Unavailable | Provisional | Active | Finished | WaitStage

  datatype Clock = Clock(phase: ClockPhase, observations: u16, lastQf: int, epochQf: int)

  /** A stage change not yet proven to continue the run. */
  datatype Boundary = Boundary(pending: bool, priorQf: int, base: nat)

  /** What the previous stage leaves for the next one's first reading. */
  datatype Handover = Handover(routePending: bool, hadLive: bool, continuing: bool, previousQf: int)

  datatype State = State(record: Slot, playback: Slot, tokens: Tokens, clock: Clock, boundary: Boundary,
                         handover: Handover, cursor: Cursor, shown: Visual, live: Route, liveValid: bool,
                         pinned: bool, recording: bool, lastSampleQf: int, serial: u32)

  // ---- inputs ---------------------------------------------------------------------------------

  datatype Scene = Scene(area: u8, episode: u8, parentEpisode: s32, parentArea: u8)

  datatype Reading = NoClock | Reading(qf: s32, stopped: bool)

  /** Everything one frame lets the recorder see. */
  datatype Frame = Frame(reading: Reading, serial: u32, scene: Scene, mario: Mario, fastForward: bool,
                         normal: bool, lastSuccess: bool)

  // ---- routes ---------------------------------------------------------------------------------

  /** Mirrors `captureLiveRoute`. */
  function RouteOf(scene: Scene): Route {
    Route(scene.area, scene.episode, scene.parentEpisode, scene.parentArea,
          if scene.parentArea == PARENT_NONE then 0 else 1)
  }

  /** The logical course of a route: an inner scene counts as its parent. */
  function Course(r: Route): (int, int) {
    if r.parentArea != PARENT_NONE then (r.parentArea, r.variant) else (r.area, r.episode)
  }

  predicate SameCourse(a: Route, b: Route) { Course(a) == Course(b) }

  predicate OwnsCourse(playback: Track, route: Route) {
    playback.valid && exists i :: 0 <= i < |playback.segments| && SameCourse(playback.segments[i].route, route)
  }

  predicate RouteMatches(record: Track, route: Route) {
    record.valid && record.segments != [] && Last(record.segments).route == route
  }

  predicate PinSurvives(s: State, route: Route) {
    s.pinned && (route.area == NEUTRAL_HUB || OwnsCourse(s.playback.track, route))
  }

  predicate Promotable(record: Track, lastSuccess: bool, routeMatches: bool, boundaryReset: bool) {
    record.valid && (record.completed || (!lastSuccess && (routeMatches || boundaryReset)))
  }

  /** Mirrors `liveRouteStorable` on a captured route. */
  predicate Storable(r: Route) {
    && r.area <= AREA_MAX && r.episode <= EPISODE_MAX && VARIANT_NONE <= r.variant <= VARIANT_MAX
    && (r.parentArea == PARENT_NONE || r.parentArea <= AREA_MAX)
    && (r.flags % 2 == 0 <==> r.parentArea == PARENT_NONE)
  }

  // ---- tokens ---------------------------------------------------------------------------------

  /** The next token: 31 bits, never zero. */
  function Bump(token: u32): (t: u32)
    ensures 0 < t < PLAYBACK_BIT
  {
    var next := (token + 1) % PLAYBACK_BIT;
    if next == 0 then 1 else next
  }

  function NextPB(serial: u32): (t: u32)
    ensures t != 0
  {
    if serial == 0xFFFF_FFFF then 1 else serial + 1
  }

  function BumpRecord(s: State): State {
    s.(record := s.record.(saved := false),
       tokens := s.tokens.(record := Bump(s.tokens.record), recordChanges := s.tokens.recordChanges + 1))
  }

  function BumpPlayback(s: State): State {
    s.(tokens := s.tokens.(origin := 0, playback := Bump(s.tokens.playback),
                           playbackChanges := s.tokens.playbackChanges + 1))
  }

  function ClearRecord(s: State): State {
    var c := BumpRecord(s.(record := EMPTY));
    c.(tokens := c.tokens.(identity := c.tokens.record))
  }

  function ClearPlaybackSlot(s: State): State {
    BumpPlayback(s.(playback := EMPTY))
  }

  // ---- recording ------------------------------------------------------------------------------

  function SetTrack(s: State, t: Track): State {
    s.(record := s.record.(track := t))
  }

  function Fail(s: State): State {
    BumpRecord(SetTrack(s, s.record.track.(valid := false)).(recording := false))
  }

  function AppendSegment(s: State): (State, bool)
    requires Weak(s.record.track)
  {
    if |s.record.track.segments| >= MAX_SEGMENTS then (s.(recording := false), false)
    else (BumpRecord(SetTrack(s, AddSegment(s.record.track, s.live))), true)
  }

  function RollbackBoundary(s: State): State
    requires Weak(s.record.track)
  {
    if |s.record.track.segments| <= s.boundary.base then s
    else
      WeakRollback(s.record.track, s.boundary.base);
      var t := Rollback(s.record.track, s.boundary.base);
      BumpRecord(SetTrack(s, t).(lastSampleQf := t.endQf))
  }

  function DropEmptySegment(s: State): State {
    if s.record.track.segments == [] || Last(s.record.track.segments).sampleCount != 0 then s
    else BumpRecord(SetTrack(s, DropEmpty(s.record.track)))
  }

  /** A capacity stop: what was recorded stays. */
  function Stop(s: State): State {
    var d := DropEmptySegment(s);
    d.(recording := false, clock := d.clock.(phase := Finished))
  }

  function AppendSample(s: State, mario: Mario, qf: int): (State, bool)
    requires Weak(s.record.track) && -0x8000_0000 <= qf < 0x8000_0000
  {
    var t := s.record.track;
    if mario.Absent? || qf < 0 || t.segments == [] then (Fail(s), false)
    else if t.samples != [] && qf - t.startQf > MAX_DURATION_QF then (Stop(s), false)
    else if |t.samples| >= MAX_SAMPLES then (Stop(s), false)
    else
      var seg := Last(t.segments);
      FrontEnds(t, |t.segments| - 1);
      var delta := if seg.sampleCount == 0 then 0 else qf - s.lastSampleQf;
      if delta < 0 || delta > MAX_DELTA then (Fail(s), false)
      else if seg.sampleCount != 0 && delta < INTERVAL_QF then (s, true)
      else if !mario.Seen? then (Fail(s), false)
      else
        ContentBounds(t);
        (BumpRecord(SetTrack(s, AddSample(t, mario.pose, qf, delta, s.clock.phase.Active?)).(lastSampleQf := qf)), true)
  }

  function ClearEpoch(s: State): State
    requires Weak(s.record.track)
  {
    if s.record.track.segments == [] then s
    else
      RestartWeak(s.record.track);
      BumpRecord(SetTrack(s, Restart(s.record.track)).(lastSampleQf := 0))
  }

  function StartEpoch(s: State, mario: Mario, qf: s32): (State, bool)
    requires Weak(s.record.track)
  {
    ClearEpochWeak(s);
    var cleared := ClearEpoch(s);
    var anchor: int := if |s.record.track.segments| == 1 then 0 else qf;
    var first := AppendSample(cleared, mario, anchor);
    AppendWeak(cleared, mario, anchor);
    if first.1 && qf - anchor >= INTERVAL_QF then AppendSample(first.0, mario, qf) else first
  }

  function Rewind(s: State): State { s.(cursor := REWOUND) }

  function Rebase(s: State, mario: Mario, qf: s32): State
    requires Weak(s.record.track)
  {
    var r := if !s.recording then s
             else if |s.record.track.segments| > 1 then Fail(s)
             else StartEpoch(s, mario, qf).0;
    Rewind(r).(clock := Clock(Provisional, 1, qf, qf))
  }

  /** The verdict on an ended track: complete when it could be ended and is long enough. */
  function Sealed(ended: Track, bounded: bool, qf: s32): Track
    requires bounded ==> 0 <= qf
  {
    if bounded && |ended.samples| >= MIN_SAMPLES
    then ended.(valid := true, completed := true, resultQf := qf as int,
                runFlags := ClearFlag(ended.runFlags, Incomplete))
    else ended.(valid := false, completed := false, resultQf := RESULT_NONE,
                runFlags := SetFlag(ended.runFlags, Incomplete))
  }

  /** Only a settled clock may end the track. */
  function Ended(s: State, qf: s32): Result<Track>
    requires Weak(s.record.track)
  {
    if s.clock.phase.Active? then FinishedTrack(s.record.track, qf) else Err
  }

  /** Mirrors `finishRecording`; every caller reports a completed run. */
  function Finish(s: State, qf: s32): State
    requires Weak(s.record.track)
  {
    var kept :=
      if s.recording && s.record.track.samples != [] then
        var f := Ended(s, qf);
        BumpRecord(SetTrack(s, Sealed(if f.Ok? then f.value else s.record.track, f.Ok?, qf))
                   .(lastSampleQf := if f.Ok? then qf else s.lastSampleQf))
      else s;
    kept.(recording := false, clock := kept.clock.(lastQf := qf, phase := Finished))
  }

  /** `finishTrackAt` on the record buffer, whose last segment ends its samples. */
  function FinishedTrack(t: Track, qf: s32): (r: Result<Track>)
    requires Weak(t)
    ensures r.Ok? ==> 0 <= qf
  {
    if t.segments == [] then Err else FinishAt(t, qf)
  }

  function PrepareClock(s: State, qf: s32): State {
    s.(shown := Hidden, handover := s.handover.(routePending := false), clock := Clock(Provisional, 1, qf, qf))
  }

  lemma ClearEpochWeak(s: State)
    requires Weak(s.record.track)
    ensures Weak(ClearEpoch(s).record.track)
  {
    if s.record.track.segments != [] {
      RestartWeak(s.record.track);
    }
  }

  lemma AppendWeak(s: State, mario: Mario, qf: int)
    requires Weak(s.record.track) && -0x8000_0000 <= qf < 0x8000_0000
    ensures Weak(AppendSample(s, mario, qf).0.record.track)
  {
    hide AddSample, DropEmpty, Weak, Bump;
    var t := s.record.track;
    WeakBounds(t);
    SameContentWeak(t, t.(valid := false));
    DropEmptyWeak(t);
    if t.segments != [] && |t.samples| < MAX_SAMPLES && mario.Seen? && 0 <= qf {
      var delta := if Last(t.segments).sampleCount == 0 then 0 else qf - s.lastSampleQf;
      if 0 <= delta <= MAX_DELTA {
        Stored(t, mario.pose, qf, delta, s.clock.phase.Active?);
      }
    }
  }

  lemma WeakBounds(t: Track)
    requires Weak(t)
    ensures |t.attachments| <= MAX_ATTACHMENTS && t.attachmentFlags <= OVERFLOW && |t.segments| <= MAX_SEGMENTS
    ensures |t.samples| <= MAX_SAMPLES && (t.segments != [] ==> Last(t.segments).EndSample() == |t.samples|)
  {
    ContentBounds(t);
  }

  lemma SameContentWeak(a: Track, b: Track)
    requires Weak(a) && a.samples == b.samples && a.segments == b.segments && a.version == b.version
    requires a.attachments == b.attachments && a.attachmentFlags == b.attachmentFlags
    ensures Weak(b)
  {
    SameContent(a, b);
  }

  // ---- what storing a sample does -------------------------------------------------------------

  /** The rest of the state, which recording operations leave alone. */
  predicate SameSurroundings(a: State, b: State) {
    && b.playback == a.playback && b.boundary == a.boundary && b.handover == a.handover && b.cursor == a.cursor
    && b.shown == a.shown && b.live == a.live && b.liveValid == a.liveValid && b.pinned == a.pinned
    && b.serial == a.serial
  }

  /** A hard failure: the recording is over and no longer valid. */
  predicate Failed(a: State, b: State) {
    !b.recording && Weak(b.record.track) && !b.record.track.valid && b.record.pb == a.record.pb
    && !b.record.track.completed && b.record.track.resultQf == RESULT_NONE
    && b.record.track.segments == a.record.track.segments
  }

  lemma FailFails(s: State)
    requires Weak(s.record.track) && !s.record.track.completed && s.record.track.resultQf == RESULT_NONE
    ensures Failed(s, Fail(s)) && SameSurroundings(s, Fail(s))
  {
    hide Weak;
    SameContentWeak(s.record.track, s.record.track.(valid := false));
  }

  predicate LastFollows(t: Track) {
    t.segments != [] && Follows(t.segments, |t.segments| - 1)
  }

  predicate Prepared(s: State) {
    Capturing(s.record.track) && s.lastSampleQf == s.record.track.endQf
  }

  /** Offering a sample to a track being captured: it goes on, fails, or stops as it stands. */
  lemma AppendToCapturing(s: State, mario: Mario, qf: int)
    requires Prepared(s) && s.recording && -0x8000_0000 <= qf < 0x8000_0000
    ensures var (r, ok) := AppendSample(s, mario, qf);
            && SameSurroundings(s, r)
            && (ok ==>
                  && r.recording && Prepared(r) && r.clock == s.clock && r.record.pb == s.record.pb
                  && |r.record.track.segments| == |s.record.track.segments|
                  && LastFollows(r.record.track) == LastFollows(s.record.track)
                  && |r.record.track.samples| >= |s.record.track.samples|
                  && (s.record.track.valid ==> r.record.track.valid)
                  && (r.record.track.valid && !s.record.track.valid ==>
                      s.clock.phase.Active? && |r.record.track.samples| >= 2))
            && (!ok ==>
                  Failed(s, r) || (r.record == s.record && !r.recording && r.clock == s.clock.(phase := Finished)))
  {
    hide Weak, Capturing, AddSample, DropEmpty, LastFollows, Bump;
    var t := s.record.track;
    CapturingFacts(t);
    FailFails(s);
    if !mario.Absent? && 0 <= qf && qf <= MAX_DURATION_QF && |t.samples| < MAX_SAMPLES && mario.Seen? &&
       INTERVAL_QF <= qf - t.endQf <= MAX_DELTA {
      AddNext(t, mario.pose, qf, s.clock.phase.Active?);
      AddKeeps(t, mario.pose, qf, qf - t.endQf, s.clock.phase.Active?);
    }
  }

  lemma CapturingFacts(t: Track)
    requires Capturing(t)
    ensures Weak(t) && t.segments != [] && Last(t.segments).sampleCount > 0 && t.samples != [] && t.startQf == 0
    ensures |t.samples| <= MAX_SAMPLES && Last(t.segments).EndSample() == |t.samples|
    ensures t.endQf == Last(t.segments).endQf
    ensures |t.attachments| <= MAX_ATTACHMENTS && t.attachmentFlags <= OVERFLOW
    ensures !t.completed && t.resultQf == RESULT_NONE
  {
    FrontEnds(t, |t.segments| - 1);
  }

  /** What a stored sample changes besides the buffers. */
  lemma AddKeeps(t: Track, pose: Pose, qf: u32, delta: u16, active: bool)
    requires t.segments != [] && Last(t.segments).sampleCount < MAX_SAMPLES
    requires |t.attachments| <= MAX_ATTACHMENTS && t.attachmentFlags <= OVERFLOW
    ensures var r := AddSample(t, pose, qf, delta, active);
            && |r.segments| == |t.segments| && |r.samples| == |t.samples| + 1
            && r.endQf == qf && r.valid == (t.valid || (active && |r.samples| >= 2))
            && (forall i :: 0 <= i < |t.segments| - 1 ==> r.segments[i] == t.segments[i])
            && (Last(t.segments).sampleCount > 0 ==> LastFollows(r) == LastFollows(t))
            && r.runFlags == t.runFlags && r.completed == t.completed && r.resultQf == t.resultQf
  {
    hide Capture, MakeSample;
  }

  /** A track whose last segment was just emptied or opened. */
  predicate Blank(t: Track) {
    && Growing(t) && Last(t.segments).sampleCount == 0
    && (|t.segments| >= 2 ==> t.endQf == t.segments[|t.segments| - 2].endQf)
    && (|t.segments| == 1 ==> !t.valid)
  }

  /** A capacity stop that left only settled segments. */
  predicate StoppedShort(a: State, b: State) {
    && b.clock.phase.Finished? && Settled(b.record.track)
    && |b.record.track.segments| < |a.record.track.segments|
  }

  /** Offering a segment's first sample. */
  lemma AppendToBlank(s: State, mario: Mario, qf: int)
    requires Blank(s.record.track) && s.recording && -0x8000_0000 <= qf < 0x8000_0000
    requires |s.record.track.segments| == 1 ==> qf == 0
    ensures var (r, ok) := AppendSample(s, mario, qf);
            && SameSurroundings(s, r) && r.record.pb == s.record.pb
            && (if ok then BlankFilled(s, r) else BlankRefused(s, r))
  {
    hide Weak, AddSample, Growing, DropEmpty, Bump, BlankFilled, BlankRefused;
    var t := s.record.track;
    GrowingFacts(t);
    WeakBounds(t);
    FirstStart(t);
    FailRefuses(s);
    if t.samples != [] {
      StopRefuses(s);
    }
    if 0 <= qf <= MAX_DURATION_QF && |t.samples| < MAX_SAMPLES && mario.Seen? {
      FirstFills(s, mario.pose, qf);
    }
  }

  predicate BlankFilled(s: State, r: State) {
    && r.recording && Prepared(r) && r.clock == s.clock
    && |r.record.track.segments| == |s.record.track.segments|
    && (r.record.track.valid ==> |s.record.track.segments| >= 2)
    && (|s.record.track.segments| >= 2 ==> |r.record.track.samples| >= 2)
  }

  predicate BlankRefused(s: State, r: State) {
    && !r.recording && Weak(r.record.track) && !r.record.track.completed && r.record.track.resultQf == RESULT_NONE
    && |r.record.track.segments| <= |s.record.track.segments|
    && (r.record.track.valid ==> StoppedShort(s, r))
  }

  lemma FailRefuses(s: State)
    requires Blank(s.record.track)
    ensures BlankRefused(s, Fail(s))
  {
    hide Growing, Weak, Bump;
    GrowingFacts(s.record.track);
    FailFails(s);
  }

  lemma StopRefuses(s: State)
    requires Blank(s.record.track) && s.record.track.samples != []
    ensures BlankRefused(s, Stop(s)) && SameSurroundings(s, Stop(s))
  {
    hide Growing, Weak, Bump, DropEmpty, Settled;
    var t := s.record.track;
    GrowingFacts(t);
    FirstStart(t);
    DropEmptySettled(t);
    DropEmptyWeak(t);
    DropsOne(t);
  }

  lemma FirstFills(s: State, pose: Pose, qf: nat)
    requires Blank(s.record.track) && s.recording && qf <= MAX_DURATION_QF && |s.record.track.samples| < MAX_SAMPLES
    requires |s.record.track.segments| == 1 ==> qf == 0
    requires |s.record.track.attachments| <= MAX_ATTACHMENTS && s.record.track.attachmentFlags <= OVERFLOW
    ensures var filled := AddSample(s.record.track, pose, qf, 0, s.clock.phase.Active?);
            BlankFilled(s, BumpRecord(SetTrack(s, filled).(lastSampleQf := qf)))
  {
    hide Growing, Capturing, AddSample, Bump;
    var t := s.record.track;
    GrowingFacts(t);
    FirstStart(t);
    AddFirst(t, pose, qf, s.clock.phase.Active?);
    AddKeeps(t, pose, qf, 0, s.clock.phase.Active?);
  }

  lemma GrowingFacts(t: Track)
    requires Growing(t)
    ensures Weak(t) && t.segments != [] && !t.completed && t.resultQf == RESULT_NONE
    ensures |t.segments| >= 2 ==> t.startQf == 0
  {
  }

  lemma DropsOne(t: Track)
    requires t.segments != [] && Last(t.segments).sampleCount == 0
    ensures |DropEmpty(t).segments| == |t.segments| - 1 && DropEmpty(t).completed == t.completed
    ensures DropEmpty(t).resultQf == t.resultQf && DropEmpty(t).valid == t.valid
  {
  }

  /** After a restart the track holds a first sample, or recording is over with only what was settled. */
  lemma StartEpochOutcome(s: State, mario: Mario, qf: s32)
    requires Growing(s.record.track) && s.recording
    ensures var (r, ok) := StartEpoch(s, mario, qf);
            && SameSurroundings(s, r)
            && Weak(r.record.track) && !r.record.track.completed && r.record.track.resultQf == RESULT_NONE
            && r.record.pb == s.record.pb
            && (ok ==>
                  && r.recording && Prepared(r) && r.clock == s.clock
                  && |r.record.track.segments| == |s.record.track.segments|
                  && (|s.record.track.segments| == 1 && !s.clock.phase.Active? ==> !r.record.track.valid)
                  && (r.record.track.valid ==> |r.record.track.samples| >= 2))
            && (!ok ==>
                  && !r.recording && |r.record.track.segments| <= |s.record.track.segments|
                  && (r.record.track.valid ==> StoppedShort(s, r)))
  {
    hide Growing, Capturing, Weak, Settled, AppendSample, Restart, Open;
    var t := s.record.track;
    RestartBlank(t);
    var cleared := ClearEpoch(s);
    var anchor: int := if |t.segments| == 1 then 0 else qf;
    AppendToBlank(cleared, mario, anchor);
    var first := AppendSample(cleared, mario, anchor);
    if first.1 {
      CapturingFacts(first.0.record.track);
      if qf - anchor >= INTERVAL_QF {
        AppendToCapturing(first.0, mario, qf);
        var second := AppendSample(first.0, mario, qf);
        if second.1 {
          CapturingFacts(second.0.record.track);
        }
      }
    }
  }

  lemma RestartBlank(t: Track)
    requires Growing(t)
    ensures Weak(t) && t.segments != [] && Last(t.segments).firstSample <= |t.samples|
    ensures Blank(Restart(t)) && |Restart(t).segments| == |t.segments| && Weak(Restart(t))
  {
    RestartGrowing(t);
  }

  // ---- the invariant --------------------------------------------------------------------------

  predicate RecordOk(s: State) {
    var t := s.record.track;
    && Weak(t)
    && (s.recording ==> RecordingOk(s))
    && (!s.recording && t.valid ==> Settled(t) && (s.boundary.pending ==> |t.segments| <= s.boundary.base))
    && (t.completed ==> t.valid && !s.recording && t.resultQf == t.endQf && !HasFlag(t.runFlags, Incomplete))
    && (!t.completed ==> t.resultQf == RESULT_NONE)
    && (s.record.pb ==> t.completed)
    && (s.handover.continuing ==> s.handover.routePending && !t.completed && (t.valid || t == CLEARED))
    && (s.handover.routePending ==> !s.recording && !s.boundary.pending)
  }

  /** While recording: only a pending boundary's segment may be out of order. */
  predicate RecordingOk(s: State) {
    var t := s.record.track;
    && Prepared(s)
    && (|t.segments| >= 2 || s.boundary.pending ==> |t.segments| == s.boundary.base + 1)
    && (if s.boundary.pending then s.clock.phase.Provisional? else LastFollows(t))
    && (t.valid ==> |t.samples| >= MIN_SAMPLES && (s.boundary.pending ==> |t.segments| >= 2))
  }

  predicate PlaybackOk(s: State) {
    s.playback.track.valid ==> Publishable(s.playback.track) && CursorOk(s.playback.track, s.cursor)
  }

  predicate Inv(s: State) { RecordOk(s) && PlaybackOk(s) }

  lemma SettledPublishable(t: Track)
    requires Settled(t) && (t.completed ==> t.resultQf == t.endQf && !HasFlag(t.runFlags, Incomplete))
    ensures Publishable(t)
  {
    hide ContentOk, HasFlag;
    OrderedSpan(t, |t.segments| - 1);
    OrderedSpan(t, 0);
    FirstLasts(t);
  }

  lemma FirstLasts(t: Track)
    requires Settled(t)
    ensures t.segments[0].startQf < t.segments[0].endQf
  {
    var seg := t.segments[0];
    assert seg.firstSample == EndBefore(t.segments, 0);
    assert seg.sampleCount >= MIN_SAMPLES;
    assert SegmentOk(t.samples, seg);
    ElapsedGrows(t.samples, 0, 1, seg.EndSample() - 1);
    assert Elapsed(t.samples, 0, 1) == Elapsed(t.samples, 0, 0) + t.samples[1].deltaQf;
  }

  // ---- showing the ghost ----------------------------------------------------------------------

  /** Mirrors `updatePlayback` on the recorder's playback slot. */
  function Show(s: State, qf: int): State
    requires PlaybackOk(s)
  {
    if !s.liveValid || !s.playback.track.valid then s.(shown := Hidden)
    else
      var (cursor, shown) := Update(s.playback.track, s.live, s.cursor, qf);
      s.(cursor := cursor, shown := shown)
  }

  lemma ShowOk(s: State, qf: int)
    requires Inv(s)
    ensures Inv(Show(s, qf))
  {
    hide Settled, Capturing, Publishable, Weak, LastFollows, HasFlag, CursorOk, Update;
    if s.liveValid && s.playback.track.valid {
      PublishableShown(s.playback.track);
    }
  }

  lemma PublishableShown(t: Track)
    requires Publishable(t)
    ensures WellFormed(t)
  {
  }

  // ---- starting an attempt --------------------------------------------------------------------

  /** The pin and policy decisions of `beginAttempt`. */
  function Police(s: State, lastSuccess: bool): State {
    var unpinned := if s.pinned && !PinSurvives(s, s.live) then s.(pinned := false) else s;
    if !unpinned.pinned && lastSuccess && s.playback.track.valid && !s.playback.track.completed
    then ClearPlaybackSlot(unpinned) else unpinned
  }

  /** The record's track becomes the playback track, which remembers the token it had. */
  function Swap(s: State): State {
    var swapped := BumpPlayback(s.(playback := s.record));
    swapped.(tokens := swapped.tokens.(origin := s.tokens.record, originChange := s.tokens.recordChanges))
  }

  function Promote(s: State, lastSuccess: bool, boundaryReset: bool): State {
    var policed := Police(s, lastSuccess);
    if policed.pinned ||
       !Promotable(s.record.track, lastSuccess, RouteMatches(s.record.track, s.live), boundaryReset) then policed
    else Swap(policed)
  }

  /** Whether a finished challenger holds the record slot against a pinned target. */
  predicate KeepsChallenger(s: State, lastSuccess: bool, boundaryReset: bool) {
    && PinSurvives(s, s.live)
    && Promotable(s.record.track, lastSuccess, RouteMatches(s.record.track, s.live), boundaryReset)
  }

  function BeginAttempt(s: State, f: Frame, qf: s32, boundaryReset: bool): State
    requires Weak(s.record.track)
  {
    var arrived := s.(live := RouteOf(f.scene), liveValid := true);
    var keep := KeepsChallenger(arrived, f.lastSuccess, boundaryReset);
    var ready := Reset(Promote(arrived, f.lastSuccess, boundaryReset), keep, qf);
    ResetWeak(Promote(arrived, f.lastSuccess, boundaryReset), qf);
    if keep then ready else Begin(ready, f.mario, qf)
  }

  /** The cursor, the record slot and the clock readied for an attempt. */
  function Reset(s: State, keep: bool, qf: s32): State {
    var cleared := if keep then Rewind(s) else ClearRecord(Rewind(s));
    PrepareClock(cleared.(lastSampleQf := 0, recording := !keep), qf)
  }

  lemma ResetWeak(s: State, qf: s32)
    ensures Reset(s, false, qf).record.track == CLEARED && Weak(CLEARED)
  {
    hide Bump;
    ClearedWeak();
  }

  /** Clearing the record slot does not depend on what it held. */
  lemma ResetForgets(s: State, slot: Slot, qf: s32)
    ensures Reset(s.(record := slot), false, qf) == Reset(s, false, qf)
    ensures Reset(s, false, qf).record.track == CLEARED && Weak(CLEARED)
  {
    hide Bump;
    ClearedWeak();
  }

  /** The first segment and its first samples. */
  function Begin(s: State, mario: Mario, qf: s32): State
    requires Weak(s.record.track)
  {
    AppendSegmentWeak(s);
    var (begun, ok) := AppendSegment(s);
    if ok then StartEpoch(begun, mario, qf).0 else begun
  }

  lemma ClearedWeak()
    ensures Weak(CLEARED)
  {
  }

  lemma AppendSegmentWeak(s: State)
    requires Weak(s.record.track)
    ensures Weak(AppendSegment(s).0.record.track)
  {
    var t := s.record.track;
    if |t.segments| < MAX_SEGMENTS {
      var r := AddSegment(t, s.live);
      TilesExtend(t.segments, |t.samples|, Last(r.segments));
      SameContent(t, r);
    }
  }

  lemma PromoteOk(s: State, lastSuccess: bool, boundaryReset: bool)
    requires Inv(s) && !s.recording
    ensures var r := Rewind(Promote(s, lastSuccess, boundaryReset));
            PlaybackOk(r) && r.record == s.record && r.boundary == s.boundary && r.handover == s.handover
            && r.live == s.live && r.liveValid == s.liveValid && r.serial == s.serial && !r.recording
  {
    hide Weak, Settled, Publishable, HasFlag, OwnsCourse;
    if s.record.track.valid {
      SettledPublishable(s.record.track);
    }
  }

  /** A new attempt starts from a cleared buffer, or keeps a finished challenger. */
  lemma BeginAttemptOk(s: State, f: Frame, qf: s32, boundaryReset: bool)
    requires Inv(s) && !s.recording && !s.boundary.pending && !s.handover.continuing
    ensures var r := BeginAttempt(s, f, qf, boundaryReset);
            Inv(r) && !r.boundary.pending && !r.handover.continuing && !r.handover.routePending && r.serial == s.serial
  {
    hide Promote, Publishable, HasFlag, StartEpoch, Settled, Capturing, KeepsChallenger;
    var arrived := s.(live := RouteOf(f.scene), liveValid := true);
    PromoteOk(arrived, f.lastSuccess, boundaryReset);
    ClearedWeak();
    if !KeepsChallenger(arrived, f.lastSuccess, boundaryReset) {
      var promoted := Rewind(Promote(arrived, f.lastSuccess, boundaryReset));
      var ready := PrepareClock(ClearRecord(promoted).(lastSampleQf := 0, recording := true), qf);
      OpenSegment(CLEARED, ready.live);
      StartEpochOutcome(AppendSegment(ready).0, f.mario, qf);
      OneFollows(StartEpoch(AppendSegment(ready).0, f.mario, qf).0.record.track);
    }
  }

  lemma OneFollows(t: Track)
    ensures |t.segments| == 1 ==> LastFollows(t)
  {
  }

  // ---- stage changes --------------------------------------------------------------------------

  function NoDirector(s: State): State {
    var cleared := ClearRecord(s);
    var emptied := if s.pinned then cleared else ClearPlaybackSlot(cleared);
    emptied.(recording := false, shown := Hidden,
             handover := s.handover.(routePending := false, hadLive := false, continuing := false), liveValid := false,
             clock := s.clock.(phase := Unavailable))
  }

  lemma ClearsKeep(s: State)
    ensures ClearRecord(s).handover == s.handover && ClearPlaybackSlot(ClearRecord(s)).handover == s.handover
    ensures ClearRecord(s).clock == s.clock && ClearPlaybackSlot(ClearRecord(s)).clock == s.clock
    ensures ClearRecord(s).pinned == s.pinned
  {
    hide Bump;
  }

  /** Mirrors `onStageSetup` outside observation. */
  function StageSetup(s: State, director: bool): State
    requires Weak(s.record.track)
  {
    if !director then NoDirector(s)
    else
      var unsettled := s.boundary.pending && s.recording && s.record.track.valid;
      var back := if s.boundary.pending
                  then RollbackBoundary(s).(boundary := s.boundary.(pending := false), recording := unsettled) else s;
      var continuing := unsettled || (back.recording && back.record.track.valid && back.clock.phase.Active?);
      back.(handover := Handover(true, s.liveValid, continuing, s.clock.lastQf), recording := false, liveValid := false,
            shown := Hidden, clock := back.clock.(phase := WaitStage))
  }

  /** Rolling back to the boundary keeps a valid record exactly when a settled prefix remains. */
  lemma RollbackOk(s: State)
    requires RecordOk(s)
    ensures var t := RollbackBoundary(s).record.track;
            && Weak(t) && (t.valid ==> s.record.track.valid)
            && (s.record.track.completed && |s.record.track.segments| <= s.boundary.base ==> t == s.record.track)
            && (!t.completed ==> t.resultQf == RESULT_NONE)
            && (s.boundary.pending ==> (t.valid ==> Settled(t)) && t.completed == s.record.track.completed)
            && (s.boundary.pending && t.completed ==> t == s.record.track)
            && (s.recording && |s.record.track.segments| >= 2 ==>
                  Settled(t) && t.valid == s.record.track.valid && !t.completed)
  {
    hide Settled, Capturing, HasFlag;
    var t, base := s.record.track, s.boundary.base;
    if base < |t.segments| {
      WeakRollback(t, base);
      if s.recording {
        CapturingGrows(t);
        if |t.segments| >= 2 {
          RollbackSettled(t);
        }
      }
    } else if s.recording && s.boundary.pending {
      assert false;
    }
  }

  lemma CapturingGrows(t: Track)
    requires Capturing(t)
    ensures Growing(t)
  {
  }

  lemma RollbackSurroundings(s: State)
    requires Weak(s.record.track)
    ensures SameSurroundings(s, RollbackBoundary(s)) && RollbackBoundary(s).clock == s.clock
    ensures RollbackBoundary(s).recording == s.recording && RollbackBoundary(s).record.pb == s.record.pb
  {
    hide Weak;
  }

  lemma AfterRollbackClock(s: State)
    requires Weak(s.record.track)
    ensures AfterRollback(s).clock == s.clock
  {
    hide Weak, RollbackBoundary;
    RollbackWeak(s);
    RollbackSurroundings(s);
  }

  lemma RecordingSettled(s: State)
    requires RecordOk(s) && s.recording && !s.boundary.pending && s.record.track.valid
    ensures Settled(s.record.track)
  {
    CapturingSettled(s.record.track);
  }

  lemma CapturingSettled(t: Track)
    requires Capturing(t) && LastFollows(t) && |t.samples| >= MIN_SAMPLES
    ensures Settled(t)
  {
    hide ContentOk, SegmentOk, Open;
    CapturingOrdered(t);
  }

  lemma StageSetupOk(s: State, director: bool)
    requires Inv(s)
    ensures Inv(StageSetup(s, director))
  {
    hide Settled, Capturing, Publishable, CursorOk, HasFlag, RollbackBoundary;
    ClearedWeak();
    if s.boundary.pending {
      RollbackOk(s);
      RollbackSurroundings(s);
    } else if s.recording {
      CapturingFacts(s.record.track);
      if s.record.track.valid {
        RecordingSettled(s);
      }
    }
  }

  // ---- one frame ------------------------------------------------------------------------------

  function EndBoundary(s: State): State { s.(boundary := s.boundary.(pending := false)) }

  /** The first reading after a stage change: continue the run tentatively, or start over. */
  function EnterStage(s: State, f: Frame, qf: s32): State
    requires Weak(s.record.track)
  {
    var entered := s.(live := RouteOf(f.scene), liveValid := true,
                      handover := s.handover.(routePending := false, hadLive := false, continuing := false));
    if !Storable(entered.live) then Rewind(entered).(clock := s.clock.(phase := Unavailable), shown := Hidden)
    else if !s.handover.hadLive then BeginAttempt(entered, f, qf, false)
    else
      var t, previous := s.record.track, s.handover.previousQf;
      var prior := if s.handover.continuing && t.segments != [] && previous < t.endQf then t.endQf as int else previous;
      var waiting := Rewind(PrepareClock(entered.(boundary := Boundary(true, prior, |t.segments|)), qf));
      if s.handover.continuing then Resume(waiting, f.mario, qf) else waiting
  }

  /** A tentative segment for the new stage; if none can be started, the settled ones are kept. */
  function Resume(s: State, mario: Mario, qf: s32): State
    requires Weak(s.record.track)
  {
    var resumed := s.(recording := true);
    AppendSegmentWeak(resumed);
    var (added, ok) := AppendSegment(resumed);
    if ok && StartEpoch(added, mario, qf).1 then StartEpoch(added, mario, qf).0
    else
      var stopped := if ok then StartEpoch(added, mario, qf).0 else added;
      StartEpochWeak(added, mario, qf);
      CloseBoundary(stopped)
  }

  /** The boundary abandoned: what was settled stays, and the run is over. */
  function CloseBoundary(s: State): State
    requires Weak(s.record.track)
  {
    EndBoundary(RollbackBoundary(s)).(clock := s.clock.(phase := Finished))
  }

  lemma StartEpochWeak(s: State, mario: Mario, qf: s32)
    requires Weak(s.record.track)
    ensures Weak(StartEpoch(s, mario, qf).0.record.track)
  {
    hide Weak, AppendSample, ClearEpoch;
    ClearEpochWeak(s);
    var cleared := ClearEpoch(s);
    var anchor: int := if |s.record.track.segments| == 1 then 0 else qf;
    AppendWeak(cleared, mario, anchor);
    AppendWeak(AppendSample(cleared, mario, anchor).0, mario, qf);
  }

  function Observed(s: State, qf: int): State {
    s.(clock := s.clock.(lastQf := qf, observations := if s.clock.observations == 0xFFFF then 0xFFFF
                                                       else s.clock.observations + 1))
  }

  predicate ClockSettled(s: State, normal: bool, qf: int) {
    normal && s.clock.observations >= SETTLE_OBSERVATIONS && qf - s.clock.epochQf >= SETTLE_QF
  }

  function Validated(s: State): State { SetTrack(s, s.record.track.(valid := true)) }

  /** Whether the tentative segment starts no earlier than the settled ones end. */
  predicate BoundaryOrdered(s: State)
    requires s.recording ==> s.boundary.base < |s.record.track.segments|
  {
    s.recording && s.boundary.base != 0 ==>
      Last(s.record.track.segments).sampleCount != 0 &&
      Last(s.record.track.segments).startQf >= s.record.track.segments[s.boundary.base - 1].endQf
  }

  /** A frame while a stage change is unproven, before the ghost is shown. */
  function SettleBoundary(s: State, f: Frame, qf: s32, stopped: bool): State
    requires Inv(s) && s.boundary.pending
  {
    if qf < s.clock.lastQf || qf < s.boundary.priorQf then
      BeginAttempt(AfterRollback(s), f, qf, true)
    else
      var seen := Observed(s, qf);
      var (next, ok) := if s.recording then AppendSample(seen, f.mario, qf) else (seen, true);
      BoundaryAppend(s, f.mario, qf);
      if !ok then CloseBoundary(next) else SettleAppended(next, f.normal, qf, stopped)
  }

  /** What the boundary has come to, once this frame's sample is stored. */
  function SettleAppended(s: State, normal: bool, qf: s32, stopped: bool): State
    requires Weak(s.record.track) && (s.recording ==> s.boundary.base < |s.record.track.segments|)
  {
    if stopped && s.recording && !BoundaryOrdered(s) then AfterRollback(s).(clock := s.clock.(phase := Finished))
    else if stopped then Finish(EndBoundary(s).(clock := s.clock.(phase := Active)), qf)
    else if BoundaryOrdered(s) && ClockSettled(s, normal, qf) then
      var active := EndBoundary(s).(clock := s.clock.(phase := Active));
      if s.recording && |s.record.track.samples| >= MIN_SAMPLES then Validated(active) else active
    else s
  }

  /** The tentative segment withdrawn and recording ended. */
  function AfterRollback(s: State): (r: State)
    requires Weak(s.record.track)
    ensures Weak(r.record.track)
  {
    RollbackWeak(s);
    EndBoundary(RollbackBoundary(s)).(recording := false)
  }

  lemma RollbackWeak(s: State)
    requires Weak(s.record.track)
    ensures Weak(RollbackBoundary(s).record.track)
  {
    if s.boundary.base < |s.record.track.segments| {
      WeakRollback(s.record.track, s.boundary.base);
    }
  }

  lemma BoundaryAppend(s: State, mario: Mario, qf: s32)
    requires Inv(s) && s.boundary.pending
    ensures var seen := Observed(s, qf);
            var (next, ok) := if s.recording then AppendSample(seen, mario, qf) else (seen, true);
            && SameSurroundings(s, next) && Weak(next.record.track) && next.record.pb == s.record.pb
            && (ok ==> RecordOk(next) && next.recording == s.recording && next.clock == seen.clock)
            && (!ok ==> RecordOk(EndBoundary(RollbackBoundary(next))))
            && (ok && next.recording ==> |next.record.track.segments| == s.boundary.base + 1)
            && (ok && next.recording ==> (BoundaryOrdered(next) <==> LastFollows(next.record.track)))
  {
    hide Settled, Capturing, HasFlag, AppendSample, RollbackBoundary;
    if s.recording {
      var seen := Observed(s, qf);
      CapturingFacts(s.record.track);
      AppendToCapturing(seen, mario, qf);
      var (next, ok) := AppendSample(seen, mario, qf);
      if ok {
        CapturingFacts(next.record.track);
      } else {
        AppendWeak(seen, mario, qf);
        StoppedRollback(s, next);
      }
    }
  }

  /** Whether the append failed or stopped, what is left after the rollback is settled or invalid. */
  lemma StoppedRollback(s: State, next: State)
    requires RecordOk(s) && s.recording && s.boundary.pending && Weak(next.record.track)
    requires SameSurroundings(s, next) && next.record.pb == s.record.pb
    requires Failed(s, next) || (next.record == s.record && !next.recording)
    ensures RecordOk(EndBoundary(RollbackBoundary(next)))
  {
    hide Settled, Capturing, HasFlag;
    var t, base := next.record.track, s.boundary.base;
    CapturingFacts(s.record.track);
    WeakRollback(t, base);
    if next.record == s.record {
      CapturingGrows(t);
      if |t.segments| >= 2 {
        RollbackSettled(t);
      }
    }
  }

  /** Ending a run leaves a complete settled record, or an invalid one. */
  lemma FinishOk(s: State, qf: s32)
    requires Inv(s) && (s.recording ==> LastFollows(s.record.track)) && !s.handover.routePending && !s.boundary.pending
    ensures Inv(Finish(s, qf)) && SameSurroundings(s, Finish(s, qf))
    ensures s.recording && Finish(s, qf).record.track.valid ==>
              Finish(s, qf).record.track.completed && Finish(s, qf).record.track.endQf == qf
  {
    hide Publishable, CursorOk, HasFlag, FinishAt, Open, ContentOk, SegmentOk;
    var t := s.record.track;
    if s.recording {
      CapturingOrdered(t);
      FinishSettled(t, qf);
      var f := if s.clock.phase.Active? then FinishedTrack(t, qf) else Err;
      var ended := if f.Ok? then f.value else t;
      var r := Finish(s, qf).record.track;
      SameContentWeak(ended, r);
      if r.valid {
        SettledFrame(ended, r);
      }
    }
  }

  lemma SettledFrame(a: Track, b: Track)
    requires Settled(a) && b.samples == a.samples && b.segments == a.segments && b.startQf == a.startQf
    requires b.endQf == a.endQf
    requires b.route == a.route && b.version == a.version && b.attachments == a.attachments
    requires b.attachmentFlags == a.attachmentFlags
    ensures Settled(b)
  {
    SameContentWeak(a, b);
  }

  lemma AfterRollbackOk(s: State)
    requires Inv(s) && (s.boundary.pending || (s.recording && |s.record.track.segments| >= 2))
    requires !s.handover.routePending
    ensures Inv(AfterRollback(s)) && !AfterRollback(s).recording && !AfterRollback(s).boundary.pending
    ensures !AfterRollback(s).handover.continuing && AfterRollback(s).handover == s.handover
  {
    hide Settled, Capturing, Publishable, CursorOk, HasFlag, RollbackBoundary;
    RollbackOk(s);
    RollbackSurroundings(s);
    RollbackWeak(s);
    if s.recording {
      CapturingFacts(s.record.track);
    }
  }

  lemma SettleBoundaryOk(s: State, f: Frame, qf: s32, stopped: bool)
    requires Inv(s) && s.boundary.pending
    ensures Inv(SettleBoundary(s, f, qf, stopped)) && !SettleBoundary(s, f, qf, stopped).handover.routePending
  {
    hide Settled, Capturing, Publishable, CursorOk, HasFlag, RollbackBoundary, BeginAttempt, Finish, AppendSample,
        AfterRollback, BoundaryOrdered;
    AfterRollbackOk(s);
    if qf < s.clock.lastQf || qf < s.boundary.priorQf {
      BeginAttemptOk(AfterRollback(s), f, qf, true);
    } else {
      var seen := Observed(s, qf);
      var (next, ok) := if s.recording then AppendSample(seen, f.mario, qf) else (seen, true);
      BoundaryAppend(s, f.mario, qf);
      RollbackSurroundings(next);
      if ok {
        AfterRollbackOk(next);
        var active := EndBoundary(next).(clock := next.clock.(phase := Active));
        if stopped {
          if !next.recording || BoundaryOrdered(next) {
            FinishOk(active, qf);
          }
        } else if BoundaryOrdered(next) && next.recording && |next.record.track.samples| >= MIN_SAMPLES {
          ValidatedCapturing(next.record.track);
        }
      }
    }
  }

  lemma ValidatedCapturing(t: Track)
    requires Capturing(t)
    ensures Capturing(t.(valid := true)) && Weak(t.(valid := true))
    ensures LastFollows(t.(valid := true)) == LastFollows(t)
  {
    hide SegmentOk, Open;
    SameContentWeak(t, t.(valid := true));
    OpenFrame(t, t.(valid := true));
  }

  lemma OpenFrame(a: Track, b: Track)
    requires a.segments != [] && a.samples != [] && a.segments == b.segments && a.samples == b.samples
    ensures Open(a) == Open(b)
  {
  }

  /** Entering a stage keeps the invariant: the tentative segment starts above a settled prefix. */
  lemma EnterStageOk(s: State, f: Frame, qf: s32)
    requires Inv(s) && s.handover.routePending
    ensures Inv(EnterStage(s, f, qf)) && !EnterStage(s, f, qf).handover.routePending
  {
    hide Settled, Capturing, Publishable, HasFlag, RollbackBoundary, BeginAttempt, StartEpoch, AddSegment, Growing;
    var entered := s.(live := RouteOf(f.scene), liveValid := true,
                      handover := s.handover.(routePending := false, hadLive := false, continuing := false));
    if Storable(entered.live) {
      if !s.handover.hadLive {
        BeginAttemptOk(entered, f, qf, false);
      } else if s.handover.continuing {
        ResumeOk(s, f, qf);
      }
    }
  }

  lemma ResumeOk(s: State, f: Frame, qf: s32)
    requires Inv(s) && s.handover.continuing && s.handover.hadLive && Storable(RouteOf(f.scene))
    ensures Inv(EnterStage(s, f, qf)) && !EnterStage(s, f, qf).handover.routePending
  {
    hide Settled, Capturing, Publishable, HasFlag, RollbackBoundary, BeginAttempt, StartEpoch, AddSegment, Growing;
    var t, previous := s.record.track, s.handover.previousQf;
    var entered := s.(live := RouteOf(f.scene), liveValid := true,
                      handover := s.handover.(routePending := false, hadLive := false, continuing := false));
    var prior := if t.segments != [] && previous < t.endQf then t.endQf as int else previous;
    var waiting := Rewind(PrepareClock(entered.(boundary := Boundary(true, prior, |t.segments|)), qf));
    var resumed := waiting.(recording := true);
    AppendSegmentWeak(resumed);
    var (added, ok) := AppendSegment(resumed);
    if ok {
      SettledSegments(t);
      OpenSegment(t, resumed.live);
      AddedOne(t, resumed.live);
      StartEpochWeak(added, f.mario, qf);
      StartEpochOutcome(added, f.mario, qf);
      RollbackKeeps(StartEpoch(added, f.mario, qf).0);
    } else {
      RollbackKeeps(added);
    }
  }

  lemma SettledSegments(t: Track)
    ensures Settled(t) ==> t.segments != []
  {
  }

  lemma AddedOne(t: Track, route: Route)
    requires |t.samples| <= MAX_SAMPLES
    ensures |AddSegment(t, route).segments| == |t.segments| + 1
  {
  }

  lemma RollbackKeeps(s: State)
    requires Weak(s.record.track)
    ensures var r := RollbackBoundary(s);
            && SameSurroundings(s, r) && Weak(r.record.track) && r.record.pb == s.record.pb
            && r.recording == s.recording
            && (|s.record.track.segments| <= s.boundary.base ==> r == s)
            && (r.record.track.valid ==> s.record.track.valid) && r.record.track.completed == s.record.track.completed
            && r.record.track.resultQf == s.record.track.resultQf
            && |r.record.track.segments| <= |s.record.track.segments|
  {
    hide Weak;
    RollbackWeak(s);
    if s.boundary.base < |s.record.track.segments| {
      WeakTiles(s.record.track, s.boundary.base);
    }
  }

  lemma WeakTiles(t: Track, base: nat)
    requires Weak(t) && base < |t.segments|
    ensures EndBefore(t.segments, base) <= |t.samples|
  {
    WeakRollback(t, base);
  }

  function AssistStop(s: State): State {
    var t := s.record.track;
    BumpRecord(SetTrack(s, t.(valid := false,
                              runFlags := SetFlag(SetFlag(t.runFlags, Assisted), FastForward))).(recording := false))
  }

  predicate ResetAfterSettling(s: State, qf: int) {
    var n := |s.record.track.segments|;
    qf < s.clock.lastQf && s.recording && n > 1 && 0 < s.boundary.base < n
  }

  /** A reading that ends the provisional window makes the recording valid. */
  function SettleClock(s: State, normal: bool, qf: int): State {
    if s.clock.phase.Provisional? && ClockSettled(s, normal, qf) &&
       (!s.recording || |s.record.track.samples| >= MIN_SAMPLES) then
      var active := s.(clock := s.clock.(phase := Active));
      if s.recording then Validated(active) else active
    else s
  }

  /** A frame on a settled stage, before the ghost is shown. */
  function Follow(s: State, f: Frame, qf: s32, stopped: bool): State
    requires Weak(s.record.track)
  {
    if stopped && (s.clock.phase.Provisional? || s.clock.phase.Active?) then Finish(s, qf)
    else if ResetAfterSettling(s, qf) then BeginAttempt(AfterRollback(s), f, qf, true)
    else
      var moved := if qf < s.clock.lastQf then Rebase(s, f.mario, qf)
                   else if s.recording then AppendSample(Observed(s, qf), f.mario, qf).0
                   else Observed(s, qf);
      SettleClock(moved, f.normal, qf)
  }

  /** Whether this frame starts over, in which case nothing is shown yet. */
  predicate StartsOver(s: State, qf: int) {
    if s.boundary.pending then qf < s.clock.lastQf || qf < s.boundary.priorQf
    else ResetAfterSettling(s, qf)
  }

  /** One reading applied once the stage and the attempt are known. */
  function Advance(s: State, f: Frame, qf: s32, stopped: bool): State
    requires Inv(s) && !s.handover.routePending
  {
    if f.mario.Absent? then (if s.recording then Fail(s) else s).(shown := Hidden)
    else if f.fastForward then (if s.recording then AssistStop(s) else s).(shown := Hidden)
    else if s.clock.phase.Unavailable? || s.clock.phase.WaitStage? then s.(shown := Hidden)
    else if s.boundary.pending then
      SettleBoundaryOk(s, f, qf, stopped);
      var r := SettleBoundary(s, f, qf, stopped);
      if StartsOver(s, qf) then r else Show(r, qf)
    else
      FollowOk(s, f, qf, stopped);
      var r := Follow(s, f, qf, stopped);
      if !(stopped && (s.clock.phase.Provisional? || s.clock.phase.Active?)) && StartsOver(s, qf) then r
      else Show(r, qf)
  }

  lemma FollowOk(s: State, f: Frame, qf: s32, stopped: bool)
    requires Inv(s) && !s.handover.routePending && !s.boundary.pending
    ensures Inv(Follow(s, f, qf, stopped)) && !Follow(s, f, qf, stopped).handover.routePending
  {
    hide Settled, Capturing, Publishable, HasFlag, RollbackBoundary, BeginAttempt, Finish, AppendSample, AfterRollback,
        Rebase, SettleClock;
    if stopped && (s.clock.phase.Provisional? || s.clock.phase.Active?) {
      FinishOk(s, qf);
    } else if ResetAfterSettling(s, qf) {
      AfterRollbackOk(s);
      BeginAttemptOk(AfterRollback(s), f, qf, true);
    } else if qf < s.clock.lastQf {
      RebaseOk(s, f.mario, qf);
      SettleClockOk(Rebase(s, f.mario, qf), f.normal, qf);
    } else {
      if s.recording {
        FollowAppend(Observed(s, qf), f.mario, qf);
        SettleClockOk(AppendSample(Observed(s, qf), f.mario, qf).0, f.normal, qf);
      } else {
        SettleClockOk(Observed(s, qf), f.normal, qf);
      }
    }
  }

  lemma FollowAppend(s: State, mario: Mario, qf: s32)
    requires Inv(s) && s.recording && !s.boundary.pending
    ensures Inv(AppendSample(s, mario, qf).0) && SameSurroundings(s, AppendSample(s, mario, qf).0)
  {
    hide Settled, Capturing, Publishable, HasFlag, AppendSample, CursorOk;
    AppendToCapturing(s, mario, qf);
    var (r, ok) := AppendSample(s, mario, qf);
    CapturingFacts(s.record.track);
    if ok {
      CapturingFacts(r.record.track);
    } else if s.record.track.valid {
      RecordingSettled(s);
    }
  }

  lemma RebaseOk(s: State, mario: Mario, qf: s32)
    requires Inv(s) && !s.boundary.pending && !s.handover.routePending
    ensures Inv(Rebase(s, mario, qf)) && !Rebase(s, mario, qf).boundary.pending
    ensures !Rebase(s, mario, qf).handover.routePending
  {
    hide Settled, Capturing, Publishable, HasFlag, StartEpoch;
    if s.recording {
      CapturingFacts(s.record.track);
      if |s.record.track.segments| > 1 {
        FailFails(s);
      } else {
        CapturingGrows(s.record.track);
        StartEpochOutcome(s, mario, qf);
        var r := StartEpoch(s, mario, qf).0;
        OneFollows(r.record.track);
        SettledSegments(r.record.track);
      }
    }
  }

  lemma SettleClockOk(s: State, normal: bool, qf: int)
    requires Inv(s) && !s.boundary.pending
    ensures Inv(SettleClock(s, normal, qf)) && SameSurroundings(s, SettleClock(s, normal, qf))
  {
    hide Settled, Capturing, Publishable, HasFlag, CursorOk, ClockSettled;
    if s.recording {
      ValidatedCapturing(s.record.track);
      CapturingFacts(s.record.track);
    }
  }

  lemma AssistStopOk(s: State)
    requires Inv(s) && s.recording
    ensures Inv(AssistStop(s))
  {
    hide Settled, Publishable, HasFlag, CursorOk, Capturing, SetFlag;
    CapturingFacts(s.record.track);
    var t := s.record.track;
    SameContentWeak(t, AssistStop(s).record.track);
  }

  lemma AdvanceOk(s: State, f: Frame, qf: s32, stopped: bool)
    requires Inv(s) && !s.handover.routePending
    ensures Inv(Advance(s, f, qf, stopped))
  {
    hide Settled, Publishable, HasFlag, Capturing, AssistStop, SettleBoundary, Follow, Show, StartsOver;
    if f.mario.Absent? {
      if s.recording {
        CapturingFacts(s.record.track);
        FailFails(s);
        HiddenOk(Fail(s));
      } else {
        HiddenOk(s);
      }
    } else if f.fastForward {
      if s.recording {
        AssistStopOk(s);
        HiddenOk(AssistStop(s));
      } else {
        HiddenOk(s);
      }
    } else if s.clock.phase.Unavailable? || s.clock.phase.WaitStage? {
      HiddenOk(s);
    } else if s.boundary.pending {
      SettleBoundaryOk(s, f, qf, stopped);
      ShowOk(SettleBoundary(s, f, qf, stopped), qf);
    } else {
      FollowOk(s, f, qf, stopped);
      ShowOk(Follow(s, f, qf, stopped), qf);
    }
  }

  lemma HiddenOk(s: State)
    requires Inv(s)
    ensures Inv(s.(shown := Hidden))
  {
    hide Settled, Publishable, HasFlag, Capturing, CursorOk;
  }

  /** A new attempt serial ends whatever was going on. */
  function Resync(s: State, f: Frame, qf: s32): State
    requires Weak(s.record.track)
  {
    RollbackWeak(s);
    var back := if s.boundary.pending then RollbackBoundary(s) else s;
    BeginAttempt(EndBoundary(back).(serial := f.serial, recording := false,
                                    handover := s.handover.(continuing := false)), f, qf, true)
  }

  lemma ResyncOk(s: State, f: Frame, qf: s32)
    requires Inv(s)
    ensures Inv(Resync(s, f, qf)) && !Resync(s, f, qf).handover.routePending
  {
    hide Settled, Publishable, HasFlag, Capturing, CursorOk, BeginAttempt, RollbackBoundary;
    RollbackWeak(s);
    if s.boundary.pending {
      RollbackOk(s);
      RollbackSurroundings(s);
    } else if s.recording {
      CapturingFacts(s.record.track);
      if s.record.track.valid {
        RecordingSettled(s);
      }
    }
    var back := if s.boundary.pending then RollbackBoundary(s) else s;
    var over := EndBoundary(back).(serial := f.serial, recording := false,
                                   handover := s.handover.(continuing := false));
    BeginAttemptOk(over, f, qf, true);
  }

  /** Mirrors `update` outside observation. */
  function Tick(s: State, f: Frame): State
    requires Inv(s)
  {
    if f.reading.NoClock? then s.(shown := Hidden)
    else
      var Reading(qf, stopped) := f.reading;
      if f.serial != s.serial then
        ResyncOk(s, f, qf);
        Advance(Resync(s, f, qf), f, qf, stopped)
      else if s.handover.routePending then EnterStage(s, f, qf)
      else Advance(s, f, qf, stopped)
  }

  lemma InvWeak(s: State)
    requires Inv(s)
    ensures Weak(s.record.track)
  {
  }

  lemma TickOk(s: State, f: Frame)
    requires Inv(s)
    ensures Inv(Tick(s, f))
  {
    hide Inv, Advance, EnterStage, Resync, BeginAttempt;
    InvWeak(s);
    if f.reading.NoClock? {
      HiddenOk(s);
    } else if f.serial != s.serial {
      ResyncOk(s, f, f.reading.qf);
      AdvanceOk(Resync(s, f, f.reading.qf), f, f.reading.qf, f.reading.stopped);
    } else if s.handover.routePending {
      EnterStageOk(s, f, f.reading.qf);
    } else {
      AdvanceOk(s, f, f.reading.qf, f.reading.stopped);
    }
  }

  // ---- calls from outside ---------------------------------------------------------------------

  function Timed(s: State, reading: Reading): State {
    match reading
    case NoClock => s.(clock := s.clock.(phase := Unavailable))
    case Reading(qf, stopped) => s.(clock := Clock(if stopped then Finished else Provisional, 1, qf, qf))
  }

  predicate UnsavedPB(slot: Slot) {
    slot.track.valid && slot.pb && !slot.saved && slot.pbToken != 0
  }

  const NO_HANDOVER := Handover(false, false, false, 0)

  /** A pinned race target, saved by where it came from. */
  function LoadTarget(s: State, t: Track): State {
    Rewind(BumpPlayback(s.(playback := Slot(t, true, false, 0), pinned := true)))
  }

  /** No stage, boundary or recording is carried on. */
  function EndAttempt(s: State, serial: u32): State {
    EndBoundary(s).(recording := false, shown := Hidden, serial := serial,
                    handover := NO_HANDOVER.(previousQf := s.handover.previousQf))
  }

  /** Mirrors `importPlayback` for a track already read from a canonical file; an accepted best run
      still unsaved refuses it. */
  function Import(s: State, t: Track, serial: u32, scene: Scene, director: bool, reading: Reading): State {
    if UnsavedPB(s.playback) then s
    else
      var loaded := LoadTarget(s, t);
      var cleared := if loaded.recording || !loaded.record.track.valid then ClearRecord(loaded) else loaded;
      var ended := EndAttempt(cleared, serial);
      Timed(if director then ended.(live := RouteOf(scene), liveValid := true) else ended, reading)
  }

  /** Mirrors `stopAll`. */
  function StopAll(s: State): State {
    EndBoundary(ClearPlaybackSlot(ClearRecord(s))).(
      pinned := false, recording := false, shown := Hidden, liveValid := false, clock := s.clock.(phase := Unavailable),
      handover := NO_HANDOVER.(previousQf := s.handover.previousQf))
  }

  /** Mirrors `onSavestateLoaded` outside observation. */
  function LoadSavestate(s: State, serial: u32, scene: Scene, director: bool, reading: Reading): State {
    var ended := EndAttempt(ClearRecord(s), serial);
    if !s.pinned then StopAll(ended).(live := if director then RouteOf(scene) else s.live, liveValid := director)
    else Timed(Rewind(ended.(live := RouteOf(scene), liveValid := true)), reading)
  }

  lemma StopAllKeeps(s: State, serial: u32)
    ensures StopAll(EndAttempt(ClearRecord(s), serial)).live == s.live
  {
    hide Bump;
  }

  function Acknowledged(slot: Slot): Slot { slot.(saved := true, pb := false, pbToken := 0) }

  /** Mirrors `releaseSavedRecording`: storage reports that the content a token named is saved. */
  function Acknowledge(s: State, token: u32): State {
    if token >= PLAYBACK_BIT then
      if token - PLAYBACK_BIT == s.tokens.playback && s.playback.track.valid
      then s.(playback := Acknowledged(s.playback)) else s
    else if token != 0 && token == s.tokens.origin && s.playback.track.valid then
      s.(playback := Acknowledged(s.playback))
    else if token != 0 && token == s.tokens.record && s.record.track.valid then
      var marked := s.(record := Acknowledged(s.record));
      if s.pinned && !s.recording then ClearRecord(marked) else marked
    else s
  }

  function MarkPB(s: State, resultQf: s32): State {
    if resultQf < 0 || !s.record.track.valid || !s.record.track.completed || s.record.track.resultQf != resultQf then s
    else
      var numbered := if !s.record.pb || s.record.pbToken == 0
                      then s.(record := s.record.(pbToken := NextPB(s.tokens.pbSerial)),
                              tokens := s.tokens.(pbSerial := NextPB(s.tokens.pbSerial))) else s;
      numbered.(record := numbered.record.(pb := true, saved := false))
  }

  predicate Holds(slot: Slot, token: u32) {
    slot.track.valid && slot.pb && !slot.saved && slot.pbToken == token
  }

  function Unprotect(s: State, token: u32): State {
    if token == 0 then s
    else if Holds(s.record, token) then s.(record := s.record.(pb := false, pbToken := 0))
    else if Holds(s.playback, token) then s.(playback := s.playback.(pb := false, pbToken := 0))
    else s
  }

  function DropPlayback(s: State): State {
    Rewind(ClearPlaybackSlot(s)).(pinned := false, shown := Hidden)
  }

  function Discard(s: State, token: u32): State {
    if token == 0 then s
    else if Holds(s.record, token) then
      EndBoundary(ClearRecord(s)).(recording := false, handover := s.handover.(continuing := false))
    else if Holds(s.playback, token) then DropPlayback(s)
    else s
  }

  function ClearPlayback(s: State): State {
    if UnsavedPB(s.playback) then s else DropPlayback(s)
  }

  /** Mirrors `prepareVisual` outside observation: the ghost is placed again before drawing. */
  function Look(s: State, f: Frame): State
    requires Inv(s)
  {
    var hidden := s.(shown := Hidden);
    HiddenOk(s);
    if f.mario.Absent? || s.handover.routePending || !s.liveValid || f.fastForward || f.serial != s.serial ||
       s.clock.phase.Unavailable? || s.clock.phase.WaitStage? || f.reading.NoClock? then hidden
    else Show(hidden, f.reading.qf)
  }

  // ---- runs -----------------------------------------------------------------------------------

  datatype Event =
    | Framed(frame: Frame)
    | Drawn(frame: Frame)
    | StageReady(director: bool)
    | Imported(track: Track, serial: u32, scene: Scene, director: bool, reading: Reading)
    | SavestateLoaded(serial: u32, scene: Scene, director: bool, reading: Reading)
    | SaveAcknowledged(token: u32)
    | BestMarked(resultQf: s32)
    | Unprotected(token: u32)
    | Discarded(token: u32)
    | Unpinned
    | PlaybackCleared

  /** An imported track is one a canonical file holds. */
  predicate Possible(e: Event) {
    e.Imported? ==> Publishable(e.track) && e.track.valid
  }

  function Step(s: State, e: Event): State
    requires Inv(s) && Possible(e)
  {
    match e
    case Framed(f) => Tick(s, f)
    case Drawn(f) => Look(s, f)
    case StageReady(director) => StageSetup(s, director)
    case Imported(t, serial, scene, director, reading) => Import(s, t, serial, scene, director, reading)
    case SavestateLoaded(serial, scene, director, reading) => LoadSavestate(s, serial, scene, director, reading)
    case SaveAcknowledged(token) => Acknowledge(s, token)
    case BestMarked(qf) => MarkPB(s, qf)
    case Unprotected(token) => Unprotect(s, token)
    case Discarded(token) => Discard(s, token)
    case Unpinned => s.(pinned := false)
    case PlaybackCleared => ClearPlayback(s)
  }

  lemma ImportOk(s: State, t: Track, serial: u32, scene: Scene, director: bool, reading: Reading)
    requires Inv(s) && Publishable(t) && t.valid
    ensures Inv(Import(s, t, serial, scene, director, reading))
  {
    hide Settled, Publishable, HasFlag, Capturing;
    ClearedWeak();
  }

  lemma LoadSavestateOk(s: State, serial: u32, scene: Scene, director: bool, reading: Reading)
    requires Inv(s)
    ensures Inv(LoadSavestate(s, serial, scene, director, reading))
  {
    hide Settled, Publishable, HasFlag, Capturing;
    ClearedWeak();
  }

  lemma AcknowledgeOk(s: State, token: u32)
    requires Inv(s)
    ensures Inv(Acknowledge(s, token))
  {
    hide Settled, Publishable, HasFlag, Capturing, CursorOk;
    ClearedWeak();
  }

  lemma CallsOk(s: State, e: Event)
    requires Inv(s) && (e.BestMarked? || e.Unprotected? || e.Discarded? || e.Unpinned? || e.PlaybackCleared?)
    ensures Inv(Step(s, e))
  {
    hide Settled, Publishable, HasFlag, Capturing, CursorOk;
    ClearedWeak();
  }

  lemma LookOk(s: State, f: Frame)
    requires Inv(s)
    ensures Inv(Look(s, f))
  {
    hide Inv, Show;
    HiddenOk(s);
    if f.reading.Reading? {
      ShowOk(s.(shown := Hidden), f.reading.qf);
    }
  }

  /** Every step keeps the invariant. */
  lemma StepOk(s: State, e: Event)
    requires Inv(s) && Possible(e)
    ensures Inv(Step(s, e))
  {
    hide Inv, Tick, Look, StageSetup, Import, LoadSavestate, Acknowledge, Publishable;
    InvWeak(s);
    match e
    case Framed(f) => TickOk(s, f);
    case Drawn(f) => LookOk(s, f);
    case StageReady(director) => StageSetupOk(s, director);
    case Imported(t, serial, scene, director, reading) => ImportOk(s, t, serial, scene, director, reading);
    case SavestateLoaded(serial, scene, director, reading) => LoadSavestateOk(s, serial, scene, director, reading);
    case SaveAcknowledged(token) => AcknowledgeOk(s, token);
    case _ => CallsOk(s, e);
  }

  /** Mirrors `init`. */
  function Initial(serial: u32): State {
    State(EMPTY, EMPTY, Tokens(1, 1, 1, 0, 0, 1, 1, 0), Clock(Unavailable, 0, 0, 0), Boundary(false, 0, 0), NO_HANDOVER,
          REWOUND, Hidden, NO_ROUTE, false, false, false, 0, serial)
  }

  predicate AllPossible(events: seq<Event>) {
    forall i :: 0 <= i < |events| ==> Possible(events[i])
  }

  /** The state after a run of events. */
  function Run(s: State, events: seq<Event>): (r: State)
    requires Inv(s) && AllPossible(events)
    ensures Inv(r)
    decreases |events|
  {
    hide *;
    if events == [] then s
    else
      FirstPossible(events);
      StepOk(s, events[0]);
      Run(Step(s, events[0]), events[1..])
  }

  lemma FirstPossible(events: seq<Event>)
    requires AllPossible(events) && events != []
    ensures Possible(events[0]) && AllPossible(events[1..])
  {
    hide Possible;
  }

  lemma InitialOk(serial: u32)
    ensures Inv(Initial(serial))
  {
    ClearedWeak();
  }

  // ---- what may be saved ----------------------------------------------------------------------

  datatype Selection =
    | Nothing
    | FromRecord(track: Track, token: u32, identity: u32)
    | FromPlayback(track: Track, token: u32, identity: u32)

  /** Mirrors `latestSaveableTrack` outside observation. */
  function LatestSaveable(s: State): Selection
  {
    if UnsavedPB(s.record) then FromRecord(s.record.track, s.tokens.record, s.record.pbToken)
    else if UnsavedPB(s.playback) then
      FromPlayback(s.playback.track, (PLAYBACK_BIT + s.tokens.playback) % 0x1_0000_0000, s.playback.pbToken)
    else if s.record.track.valid && (!s.recording || (s.clock.phase.Active? && !s.boundary.pending))
    then FromRecord(s.record.track, s.tokens.record, s.tokens.identity)
    else if s.playback.track.valid then
      var token: u32 := (PLAYBACK_BIT + s.tokens.playback) % 0x1_0000_0000;
      FromPlayback(s.playback.track, token, token)
    else Nothing
  }

  /** What may be saved, and what is known of it. */
  predicate SelectionSound(chosen: Selection) {
    && (!chosen.Nothing? ==> Publishable(chosen.track))
    && (chosen.FromRecord? ==> Settled(chosen.track) && chosen.track.endQf <= MAX_DURATION_QF)
    && (chosen.FromRecord? && chosen.track.completed ==> chosen.track.resultQf == chosen.track.endQf)
  }

  lemma SelectedSound(s: State)
    requires Inv(s)
    ensures SelectionSound(LatestSaveable(s))
  {
    hide Publishable, Settled, HasFlag, Capturing, CursorOk;
    var t := s.record.track;
    if LatestSaveable(s).FromRecord? {
      if s.recording {
        RecordingSettled(s);
      }
      SettledPublishable(t);
      SettledSpan(t);
    }
  }

  /** In every run, whatever may be saved is a well-formed track within every cap; a recorded one also
      starts at zero, and a complete one ends at its result. */
  lemma SaveableIsSound(serial: u32, events: seq<Event>)
    requires AllPossible(events)
    ensures Inv(Initial(serial)) && SelectionSound(LatestSaveable(Run(Initial(serial), events)))
  {
    hide Run, SelectionSound;
    InitialOk(serial);
    SelectedSound(Run(Initial(serial), events));
  }

  lemma SettledSpan(t: Track)
    requires Settled(t)
    ensures t.endQf <= MAX_DURATION_QF
  {
  }
}
