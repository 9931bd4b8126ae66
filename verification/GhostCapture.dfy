/** Building a track sample by sample: poses and attachments, segments, rollback, restart. */
module GhostCapture {
  import opened Bytes
  import opened GhostTrack
  import opened GhostFinish

  const OVERFLOW := 1
  const MIN_SAMPLES := 2
  const NO_ROUTE := Route(0xFF, 0xFF, -1, 0xFF, 0)

  // ---- run flags ------------------------------------------------------------------------------

  datatype Flag = Assisted | FastForward | Incomplete | CustomRoute

  function Bit(flag: Flag): (b: nat)
    ensures b == 0x1 || b == 0x4 || b == 0x8 || b == 0x10
  {
    match flag case Assisted => 0x1 case FastForward => 0x4 case Incomplete => 0x8 case CustomRoute => 0x10
  }

  predicate HasFlag(flags: u32, flag: Flag) {
    match flag
    case Assisted => flags % 2 == 1
    case FastForward => flags / 4 % 2 == 1
    case Incomplete => flags / 8 % 2 == 1
    case CustomRoute => flags / 0x10 % 2 == 1
  }

  function SetFlag(flags: u32, flag: Flag): (r: u32)
    ensures HasFlag(r, flag)
  {
    FlagRoom(flags, flag);
    if HasFlag(flags, flag) then flags else flags + Bit(flag)
  }

  function ClearFlag(flags: u32, flag: Flag): (r: u32)
    ensures !HasFlag(r, flag)
  {
    FlagRoom(flags, flag);
    if HasFlag(flags, flag) then flags - Bit(flag) else flags
  }

  lemma FlagRoom(flags: u32, flag: Flag)
    ensures HasFlag(flags, flag) ==> 0 <= flags - Bit(flag) && !HasFlag(flags - Bit(flag), flag)
    ensures !HasFlag(flags, flag) ==> flags + Bit(flag) < 0x1_0000_0000 && HasFlag(flags + Bit(flag), flag)
  {
    match flag
    case Assisted =>
    case FastForward => Room4(flags);
    case Incomplete => Room8(flags);
    case CustomRoute => Room16(flags);
  }

  lemma Room4(flags: u32)
    ensures flags / 4 % 2 == 0 ==> flags + 4 < 0x1_0000_0000 && (flags + 4) / 4 % 2 == 1
    ensures flags / 4 % 2 == 1 ==> 0 <= flags - 4 && (flags - 4) / 4 % 2 == 0
  {
    assert (flags + 4) / 4 == flags / 4 + 1;
    assert flags >= 4 ==> (flags - 4) / 4 == flags / 4 - 1;
  }

  lemma Room8(flags: u32)
    ensures flags / 8 % 2 == 0 ==> flags + 8 < 0x1_0000_0000 && (flags + 8) / 8 % 2 == 1
    ensures flags / 8 % 2 == 1 ==> 0 <= flags - 8 && (flags - 8) / 8 % 2 == 0
  {
    assert (flags + 8) / 8 == flags / 8 + 1;
    assert flags >= 8 ==> (flags - 8) / 8 == flags / 8 - 1;
  }

  lemma Room16(flags: u32)
    ensures flags / 16 % 2 == 0 ==> flags + 16 < 0x1_0000_0000 && (flags + 16) / 16 % 2 == 1
    ensures flags / 16 % 2 == 1 ==> 0 <= flags - 16 && (flags - 16) / 16 % 2 == 0
  {
    assert (flags + 16) / 16 == flags / 16 + 1;
    assert flags >= 16 ==> (flags - 16) / 16 == flags / 16 - 1;
  }

  // ---- poses and attachments ------------------------------------------------------------------

  type coord = n: int | -MAX_POSITION <= n <= MAX_POSITION
  type animation = n: int | 0 <= n <= ANIMATION_ID_MAX
  type phase = n: int | 0 <= n <= PHASE_MAX
  type yoshi = n: int | 0 <= n <= YOSHI_UNKNOWN

  datatype Hands = EmptyHanded | Carrying(objectId: u32, nameKey: u16)

  datatype Pose = Pose(x: coord, y: coord, z: coord, yaw: s16, id: animation, phase: phase, mount: yoshi, held: Hands)

  /** What a frame shows of Mario; the position is looked at before the animation. */
  datatype Mario = Absent | BadPosition | BadAnimation | Seen(pose: Pose)

  /** The one-based place of a descriptor, or 0. */
  function Place(attachments: seq<Attachment>, a: Attachment): (i: nat)
    ensures i <= |attachments|
    ensures i == 0 <==> a !in attachments
    ensures i > 0 ==> attachments[i - 1] == a
  {
    if attachments == [] then 0
    else
      var i := Place(attachments[..|attachments| - 1], a);
      if i > 0 then i else if Last(attachments) == a then |attachments| else 0
  }

  /** Mirrors `captureHeldObject`: known objects are reused, new ones recorded while there is room. */
  function Capture(t: Track, held: Hands): (r: (Track, nat))
    requires |t.attachments| <= MAX_ATTACHMENTS && t.attachmentFlags <= OVERFLOW
    ensures r.0 == t.(attachments := r.0.attachments, attachmentFlags := r.0.attachmentFlags)
    ensures r.1 <= HELD_UNKNOWN
  {
    if held.EmptyHanded? then (t, 0)
    else
      var a := Attachment(held.objectId, held.nameKey);
      if a == Attachment(0, 0) then (t.(attachmentFlags := OVERFLOW), HELD_UNKNOWN)
      else if Place(t.attachments, a) > 0 then (t, Place(t.attachments, a))
      else if |t.attachments| < MAX_ATTACHMENTS then (t.(attachments := t.attachments + [a]), |t.attachments| + 1)
      else (t.(attachmentFlags := OVERFLOW), HELD_UNKNOWN)
  }

  function StoredPhase(p: phase): (r: byte) {
    (p * V4_PHASE_MAX + PHASE_MAX / 2) / PHASE_MAX
  }

  function MakeSample(pose: Pose, delta: u16, held: nat): Sample
    requires held <= HELD_UNKNOWN
  {
    Sample(pose.yaw, delta, pose.x, pose.y, pose.z,
           pose.id * 0x8000 + StoredPhase(pose.phase) * 0x80 + pose.mount * 0x10 + held)
  }

  predicate PositionOk(s: Sample) {
    && -MAX_POSITION <= s.x <= MAX_POSITION && -MAX_POSITION <= s.y <= MAX_POSITION
    && -MAX_POSITION <= s.z <= MAX_POSITION
  }

  predicate AnimationOk(s: Sample, version: u16, count: nat, flags: u16) {
    && AnimationId(s) <= ANIMATION_ID_MAX
    && (version == VERSION_3 ==> s.animation % 8 == 0)
    && (version == VERSION_4 ==>
          Yoshi(s) <= YOSHI_UNKNOWN && (Held(s) <= count || (Held(s) == HELD_UNKNOWN && flags == OVERFLOW)))
  }

  predicate PoseOk(s: Sample, version: u16, count: nat, flags: u16) {
    PositionOk(s) && AnimationOk(s, version, count, flags)
  }

  predicate AttachmentsOk(attachments: seq<Attachment>) {
    && |attachments| <= MAX_ATTACHMENTS
    && Attachment(0, 0) !in attachments
    && forall i, j :: 0 <= i < j < |attachments| ==> attachments[i] != attachments[j]
  }

  /** Everything the format bounds in a track's samples and descriptors. */
  predicate ContentOk(t: Track) {
    && (t.version == VERSION_3 || t.version == VERSION_4)
    && (t.version == VERSION_3 ==> t.attachments == [] && t.attachmentFlags == 0)
    && AttachmentsOk(t.attachments) && t.attachmentFlags <= OVERFLOW
    && forall i :: 0 <= i < |t.samples| ==> PoseOk(t.samples[i], t.version, |t.attachments|, t.attachmentFlags)
  }

  /** A captured sample and the descriptors it needs stay within the format's bounds. */
  lemma CaptureOk(t: Track, pose: Pose, delta: u16)
    requires ContentOk(t) && t.version == VERSION_4
    ensures var (t', held) := Capture(t, pose.held);
            && t' == t.(attachments := t'.attachments, attachmentFlags := t'.attachmentFlags)
            && ContentOk(t'.(samples := t.samples + [MakeSample(pose, delta, held)]))
  {
    var (t', held) := Capture(t, pose.held);
    var s := MakeSample(pose, delta, held);
    PackedParts(pose.id, StoredPhase(pose.phase), pose.mount, held);
    assert PoseOk(s, VERSION_4, |t'.attachments|, t'.attachmentFlags);
    forall i | 0 <= i < |t.samples|
      ensures PoseOk(t.samples[i], VERSION_4, |t'.attachments|, t'.attachmentFlags)
    {
      assert PoseOk(t.samples[i], VERSION_4, |t.attachments|, t.attachmentFlags);
    }
  }

  /** The object a stored sample names. */
  function Holding(t: Track, s: Sample): Hands {
    var held := Held(s);
    if held == 0 || held > |t.attachments| then EmptyHanded
    else Carrying(t.attachments[held - 1].objectId, t.attachments[held - 1].nameKey)
  }

  /** What is read back from a sample is the pose: place, turn, animation and mount exactly, the phase to the
      nearest step, the held object as the track's descriptors name it, or unknown if they overflowed. */
  predicate ReadsBack(t: Track, s: Sample, pose: Pose) {
    && s.x == pose.x && s.y == pose.y && s.z == pose.z && s.yaw == pose.yaw
    && AnimationId(s) == pose.id && StoresPhase(s, pose.phase) && Yoshi(s) == pose.mount
    && (if Held(s) == HELD_UNKNOWN then t.attachmentFlags == OVERFLOW
        else Held(s) <= |t.attachments| && Holding(t, s) == pose.held)
  }

  /** An object that no descriptor can name: it has no identity, or the table is full of others. */
  predicate Unnameable(t: Track, held: Hands) {
    held.Carrying? &&
    var a := Attachment(held.objectId, held.nameKey);
    a == Attachment(0, 0) || (a !in t.attachments && |t.attachments| >= MAX_ATTACHMENTS)
  }

  /** A captured sample reads back as its pose. Descriptors are only added, one at most, and only an object
      that none can name reads back as unknown. */
  lemma CapturedPose(t: Track, pose: Pose, delta: u16)
    requires ContentOk(t) && t.version == VERSION_4
    ensures var (t', held) := Capture(t, pose.held);
            var s := MakeSample(pose, delta, held);
            && ReadsBack(t', s, pose) && s.deltaQf == delta
            && (Held(s) == HELD_UNKNOWN <==> Unnameable(t, pose.held))
            && t.attachments <= t'.attachments && |t'.attachments| <= |t.attachments| + 1
            && t'.attachmentFlags == if Unnameable(t, pose.held) then OVERFLOW else t.attachmentFlags
  {
    var (t', held) := Capture(t, pose.held);
    PackedParts(pose.id, StoredPhase(pose.phase), pose.mount, held);
    NearestStep(pose.phase);
  }

  // ---- track edits ----------------------------------------------------------------------------

  /** Mirrors `clearTrack`. */
  const CLEARED := Track([], [], 0, 0, RESULT_NONE, RUN_INCOMPLETE, NO_ROUTE, VERSION_4, 0, [], false, false)

  /** Segment `i` replaced. */
  function SetLast(segments: seq<Segment>, seg: Segment): (r: seq<Segment>)
    requires segments != []
    ensures |r| == |segments| && r[|r| - 1] == seg
    ensures forall i :: 0 <= i < |r| - 1 ==> r[i] == segments[i]
  {
    segments[..|segments| - 1] + [seg]
  }

  function AddSegment(t: Track, route: Route): Track
    requires |t.samples| <= MAX_SAMPLES
  {
    var added := t.(segments := t.segments + [Segment(|t.samples|, 0, 0, 0, route)]);
    if t.segments == [] then added.(route := route) else added.(runFlags := SetFlag(t.runFlags, CustomRoute))
  }

  /** Mirrors `rollbackBoundarySegment` on the track. */
  function Rollback(t: Track, base: nat): Track
    requires base < |t.segments| && EndBefore(t.segments, base) <= |t.samples|
  {
    var back := t.(segments := t.segments[..base], samples := t.samples[..EndBefore(t.segments, base)],
                   runFlags := if base <= 1 then ClearFlag(t.runFlags, CustomRoute) else t.runFlags);
    if base == 0 then back.(startQf := 0, endQf := 0, valid := false)
    else back.(endQf := t.segments[base - 1].endQf)
  }

  /** Mirrors `dropLastEmptySegment` on the track. */
  function DropEmpty(t: Track): Track {
    if t.segments == [] || Last(t.segments).sampleCount != 0 then t
    else
      t.(segments := t.segments[..|t.segments| - 1],
         runFlags := if |t.segments| <= 2 then ClearFlag(t.runFlags, CustomRoute) else t.runFlags)
  }

  /** Mirrors `clearEpochSamples` on the track. */
  function Restart(t: Track): Track
    requires t.segments != [] && Last(t.segments).firstSample <= |t.samples|
  {
    var seg := Last(t.segments);
    var emptied := t.(samples := t.samples[..seg.firstSample],
                      segments := SetLast(t.segments, seg.(sampleCount := 0, startQf := 0, endQf := 0)),
                      resultQf := RESULT_NONE, completed := false);
    if |t.segments| == 1 then emptied.(startQf := 0, endQf := 0, valid := false)
    else emptied.(endQf := t.segments[|t.segments| - 2].endQf)
  }

  /** A sample stored at the end of the last segment. */
  function Store(t: Track, sample: Sample, qf: u32, active: bool): Track
    requires t.segments != [] && Last(t.segments).sampleCount < MAX_SAMPLES
  {
    var seg := Last(t.segments);
    var grown := seg.(sampleCount := seg.sampleCount + 1, endQf := qf,
                      startQf := if seg.sampleCount == 0 then qf else seg.startQf);
    t.(samples := t.samples + [sample], segments := SetLast(t.segments, grown), endQf := qf,
       startQf := if t.samples == [] then qf else t.startQf,
       valid := t.valid || (active && |t.samples| + 1 >= MIN_SAMPLES))
  }

  /** The last, storing part of `appendSample`. */
  function AddSample(t: Track, pose: Pose, qf: u32, delta: u16, active: bool): Track
    requires t.segments != [] && Last(t.segments).sampleCount < MAX_SAMPLES
    requires |t.attachments| <= MAX_ATTACHMENTS && t.attachmentFlags <= OVERFLOW
  {
    var (t', held) := Capture(t, pose.held);
    Store(t', MakeSample(pose, delta, held), qf, active)
  }

  // ---- what the edits keep --------------------------------------------------------------------

  /** True of the record buffer at all times. */
  predicate Weak(t: Track) {
    && |t.segments| <= MAX_SEGMENTS && |t.samples| <= MAX_SAMPLES
    && Tiles(t.segments, |t.samples|) && ContentOk(t) && t.version == VERSION_4
  }

  /** A recorded track whose last segment may still be empty, or out of order. */
  predicate Growing(t: Track) {
    var n := |t.segments|;
    && Weak(t) && n > 0 && t.route == t.segments[0].route
    && (forall i :: 0 <= i < n - 1 ==> SegmentOk(t.samples, t.segments[i]))
    && Ordered(t.segments[..n - 1])
    && (n >= 2 ==> t.startQf == t.segments[0].startQf == 0 && t.segments[0].sampleCount >= MIN_SAMPLES
                   && t.segments[n - 2].endQf <= MAX_DURATION_QF)
    && !t.completed && t.resultQf == RESULT_NONE
  }

  /** A growing track whose last segment holds samples. */
  predicate Capturing(t: Track) {
    && Growing(t) && SegmentOk(t.samples, Last(t.segments)) && t.samples != [] && Open(t)
    && t.startQf == t.segments[0].startQf == 0 && t.endQf == Last(t.segments).endQf <= MAX_DURATION_QF
  }

  /** A recorded track that may be saved, promoted or continued. */
  predicate Settled(t: Track) {
    && Weak(t) && WellFormed(t) && t.startQf == 0 && |t.samples| >= MIN_SAMPLES
    && (|t.segments| >= 2 ==> t.segments[0].sampleCount >= MIN_SAMPLES)
  }

  lemma CapturingOrdered(t: Track)
    requires Capturing(t) && Follows(t.segments, |t.segments| - 1)
    ensures WellFormed(t)
  {
    hide ContentOk, Open, SegmentOk;
    var n := |t.segments|;
    forall i | 0 <= i < n
      ensures SegmentOk(t.samples, t.segments[i])
      ensures Follows(t.segments, i)
    {
      if i < n - 1 {
        assert Follows(t.segments[..n - 1], i);
      }
    }
  }

  lemma TilesExtend(segments: seq<Segment>, count: nat, seg: Segment)
    requires Tiles(segments, count) && seg.firstSample == count
    ensures Tiles(segments + [seg], seg.EndSample())
  {
    var r := segments + [seg];
    forall i | 0 <= i <= |segments|
      ensures EndBefore(r, i) == EndBefore(segments, i)
    {
    }
  }

  lemma TilesSetLast(segments: seq<Segment>, count: nat, seg: Segment)
    requires Tiles(segments, count) && segments != [] && seg.firstSample == Last(segments).firstSample
    ensures Tiles(SetLast(segments, seg), seg.EndSample())
  {
    var n := |segments|;
    assert Last(segments).firstSample == EndBefore(segments, n - 1);
    TilesPrefix(segments, count, n - 1);
    TilesExtend(segments[..n - 1], EndBefore(segments, n - 1), seg);
  }

  lemma ContentPrefix(t: Track, n: nat)
    requires ContentOk(t) && n <= |t.samples|
    ensures ContentOk(t.(samples := t.samples[..n]))
  {
    hide AttachmentsOk, PoseOk;
  }

  lemma WeakRollback(t: Track, base: nat)
    requires Weak(t) && base < |t.segments|
    ensures EndBefore(t.segments, base) <= |t.samples| && Weak(Rollback(t, base))
  {
    hide ContentOk;
    if base > 0 {
      TilesWithin(t.segments, |t.samples|, base - 1);
    }
    TilesPrefix(t.segments, |t.samples|, base);
    ContentPrefix(t, EndBefore(t.segments, base));
    SameContent(t.(samples := t.samples[..EndBefore(t.segments, base)]), Rollback(t, base));
  }

  lemma ContentBounds(t: Track)
    requires ContentOk(t)
    ensures |t.attachments| <= MAX_ATTACHMENTS && t.attachmentFlags <= OVERFLOW
  {
  }

  lemma SameContent(a: Track, b: Track)
    requires ContentOk(a) && a.samples == b.samples && a.version == b.version
    requires a.attachments == b.attachments && a.attachmentFlags == b.attachmentFlags
    ensures ContentOk(b)
  {
    hide AttachmentsOk, PoseOk;
  }

  /** Rolling a tentative last segment back leaves the settled prefix. */
  lemma RollbackSettled(t: Track)
    requires Growing(t) && |t.segments| >= 2
    ensures EndBefore(t.segments, |t.segments| - 1) <= |t.samples|
    ensures var r := Rollback(t, |t.segments| - 1); Settled(r) && !r.completed && r.resultQf == RESULT_NONE
  {
    hide ContentOk, SegmentOk, Spaced;
    var n := |t.segments|;
    WeakRollback(t, n - 1);
    SegmentsPrefix(t.samples, t.segments, n - 1);
    var r := Rollback(t, n - 1);
    FirstNotLonger(t, n - 2);
    assert WellFormed(r);
  }

  lemma FirstNotLonger(t: Track, i: nat)
    requires Tiles(t.segments, |t.samples|) && i < |t.segments|
    ensures t.segments[0].sampleCount <= t.segments[i].EndSample()
  {
    assert t.segments[0].firstSample == EndBefore(t.segments, 0);
    if i > 0 {
      TilesApart(t.segments, |t.samples|, 0, i);
    }
  }

  lemma OpenSegment(t: Track, route: Route)
    requires Weak(t) && |t.segments| < MAX_SEGMENTS && !t.completed && t.resultQf == RESULT_NONE
    requires t.segments == [] || Settled(t)
    ensures var r := AddSegment(t, route); Growing(r) && Last(r.segments).sampleCount == 0
  {
    hide ContentOk, SegmentOk;
    var r := AddSegment(t, route);
    TilesExtend(t.segments, |t.samples|, Last(r.segments));
    SameContent(t, r);
    assert r.segments[..|r.segments| - 1] == t.segments;
    if t.segments != [] {
      OrderedSpan(t, |t.segments| - 1);
      AllOk(t);
      forall i | 0 <= i < |r.segments| - 1
        ensures SegmentOk(r.samples, r.segments[i])
      {
        assert r.segments[i] == t.segments[i];
      }
      assert t.segments[0].firstSample == EndBefore(t.segments, 0);
    }
  }

  lemma AllOk(t: Track)
    requires WellFormed(t)
    ensures forall i :: 0 <= i < |t.segments| ==> SegmentOk(t.samples, t.segments[i])
  {
  }

  lemma RestartGrowing(t: Track)
    requires Growing(t)
    ensures Last(t.segments).firstSample <= |t.samples|
    ensures var r := Restart(t); Growing(r) && Last(r.segments).sampleCount == 0 && |r.segments| == |t.segments|
  {
    hide ContentOk, SegmentOk;
    var n, r := |t.segments|, Restart(t);
    RestartWeak(t);
    SegmentsPrefix(t.samples, t.segments, n - 1);
    forall i | 0 <= i < n - 1
      ensures SegmentOk(r.samples, r.segments[i])
    {
      assert SegmentOk(r.samples, t.segments[..n - 1][i]);
    }
    assert r.segments[..n - 1] == t.segments[..n - 1];
  }

  lemma RestartWeak(t: Track)
    requires Weak(t) && t.segments != []
    ensures Last(t.segments).firstSample == EndBefore(t.segments, |t.segments| - 1) <= |t.samples| && Weak(Restart(t))
  {
    hide ContentOk;
    var n := |t.segments|;
    assert Last(t.segments).firstSample == EndBefore(t.segments, n - 1);
    FrontEnds(t, n - 1);
    var r := Restart(t);
    TilesPrefix(t.segments, |t.samples|, n - 1);
    TilesSetLast(t.segments, |t.samples|, Last(r.segments));
    ContentPrefix(t, Last(t.segments).firstSample);
    SameContent(t.(samples := r.samples), r);
  }

  /** Storing a segment's first sample makes the track capturable, whatever the clock did before. */
  lemma AddFirst(t: Track, pose: Pose, qf: nat, active: bool)
    requires Growing(t) && Last(t.segments).sampleCount == 0 && |t.samples| < MAX_SAMPLES
    requires qf <= MAX_DURATION_QF && (|t.segments| == 1 ==> qf == 0)
    ensures var r := AddSample(t, pose, qf, 0, active); Capturing(r) && |r.segments| == |t.segments|
  {
    hide ContentOk, SegmentOk, Capture;
    ContentBounds(t);
    var n, r := |t.segments|, AddSample(t, pose, qf, 0, active);
    Stored(t, pose, qf, 0, active);
    KeepsFront(t, r);
    FirstSegment(r.samples, Last(r.segments));
    FirstStart(t);
  }

  lemma FirstStart(t: Track)
    requires Growing(t) && Last(t.segments).sampleCount == 0
    ensures Last(t.segments).firstSample == |t.samples| && (t.samples == [] <==> |t.segments| == 1)
  {
    assert Last(t.segments).firstSample == EndBefore(t.segments, |t.segments| - 1);
    FirstNotLonger(t, |t.segments| - 1);
  }

  lemma FirstSegment(samples: seq<Sample>, seg: Segment)
    requires seg.sampleCount == 1 && seg.firstSample + 1 == |samples| && samples[seg.firstSample].deltaQf == 0
    requires seg.startQf == seg.endQf
    ensures SegmentOk(samples, seg)
  {
  }

  /** The buffer facts of storing one sample. */
  lemma Stored(t: Track, pose: Pose, qf: u32, delta: u16, active: bool)
    requires Weak(t) && t.segments != [] && |t.samples| < MAX_SAMPLES
    ensures Last(t.segments).sampleCount < MAX_SAMPLES && Weak(AddSample(t, pose, qf, delta, active))
    ensures Last(t.segments).EndSample() == |t.samples|
  {
    hide ContentOk, PoseOk;
    ContentBounds(t);
    FrontEnds(t, |t.segments| - 1);
    var r := AddSample(t, pose, qf, delta, active);
    CaptureOk(t, pose, delta);
    TilesSetLast(t.segments, |t.samples|, Last(r.segments));
    SameContent(Capture(t, pose.held).0.(samples := r.samples), r);
  }

  /** Segments before the last are untouched by a longer sample buffer. */
  lemma KeepsFront(t: Track, r: Track)
    requires Growing(t) && |r.segments| == |t.segments| && t.samples <= r.samples
    requires forall i :: 0 <= i < |t.segments| - 1 ==> r.segments[i] == t.segments[i]
    ensures forall i :: 0 <= i < |r.segments| - 1 ==> SegmentOk(r.samples, r.segments[i])
    ensures Ordered(r.segments[..|r.segments| - 1])
  {
    hide ContentOk, SegmentOk, Tiles;
    forall i | 0 <= i < |r.segments| - 1
      ensures SegmentOk(r.samples, r.segments[i])
    {
      FrontEnds(t, i);
      SegmentFrame(t.samples, r.samples, t.segments[i]);
    }
    assert r.segments[..|r.segments| - 1] == t.segments[..|t.segments| - 1];
  }

  lemma FrontEnds(t: Track, i: nat)
    requires Weak(t) && i < |t.segments|
    ensures t.segments[i].EndSample() <= |t.samples|
  {
    TilesWithin(t.segments, |t.samples|, i);
  }

  /** Storing a further sample at least one interval on keeps the track capturable. */
  lemma AddNext(t: Track, pose: Pose, qf: nat, active: bool)
    requires Capturing(t) && |t.samples| < MAX_SAMPLES
    requires t.endQf + INTERVAL_QF <= qf <= t.endQf + MAX_DELTA && qf <= MAX_DURATION_QF
    ensures var r := AddSample(t, pose, qf, qf - t.endQf, active); Capturing(r) && |r.segments| == |t.segments|
    ensures var r := AddSample(t, pose, qf, qf - t.endQf, active); Last(r.segments).startQf == Last(t.segments).startQf
  {
    hide ContentOk, Capture, Tiles, SegmentOk;
    ContentBounds(t);
    FrontEnds(t, |t.segments| - 1);
    var n, r := |t.segments|, AddSample(t, pose, qf, qf - t.endQf, active);
    Stored(t, pose, qf, qf - t.endQf, active);
    KeepsFront(t, r);
    LastNonEmpty(t);
    NextSegment(t, r.samples, qf);
  }

  lemma LastNonEmpty(t: Track)
    requires Capturing(t)
    ensures Last(t.segments).sampleCount > 0
  {
  }

  lemma NextSegment(t: Track, samples: seq<Sample>, qf: u32)
    requires Capturing(t) && |samples| == |t.samples| + 1 && samples[..|t.samples|] == t.samples
    requires Last(t.segments).EndSample() == |t.samples| < MAX_SAMPLES
    requires samples[|t.samples|].deltaQf == qf - t.endQf && qf >= t.endQf + INTERVAL_QF
    ensures SegmentOk(samples, Last(t.segments).(sampleCount := Last(t.segments).sampleCount + 1, endQf := qf))
  {
    hide ContentOk, Tiles, Ordered;
    var seg, count := Last(t.segments), |t.samples|;
    assert SegmentOk(t.samples, seg);
    ElapsedFrame(t.samples, samples, seg.firstSample, count - 1);
    forall i | seg.firstSample < i < count + 1
      ensures samples[i].deltaQf >= INTERVAL_QF
    {
      if i + 1 == count {
        assert Last(t.samples) == samples[i];
      } else if i < count {
        assert samples[i] == t.samples[i];
      }
    }
  }

  /** Refusing a sample for want of room drops an empty last segment and leaves what was settled. */
  lemma DropEmptySettled(t: Track)
    requires Growing(t) && Last(t.segments).sampleCount == 0 && |t.segments| >= 2
    requires t.endQf == t.segments[|t.segments| - 2].endQf
    ensures var r := DropEmpty(t); Settled(r) && !r.completed && r.resultQf == RESULT_NONE
  {
    hide ContentOk, SegmentOk;
    RollbackSettled(t);
    FirstStart(t);
    assert Last(t.segments).firstSample == EndBefore(t.segments, |t.segments| - 1);
    assert t.samples[..|t.samples|] == t.samples;
    assert DropEmpty(t) == Rollback(t, |t.segments| - 1);
  }

  lemma DropEmptyWeak(t: Track)
    requires Weak(t)
    ensures Weak(DropEmpty(t))
  {
    hide ContentOk;
    if t.segments != [] && Last(t.segments).sampleCount == 0 {
      var n := |t.segments|;
      TilesPrefix(t.segments, |t.samples|, n - 1);
      assert Last(t.segments).firstSample == EndBefore(t.segments, n - 1);
      SameContent(t, DropEmpty(t));
    }
  }

  /** The terminal sample stays within the bounds its two neighbours meet. */
  lemma TerminalOk(before: Sample, after: Sample, numerator: nat, denominator: nat, count: nat, flags: u16)
    requires 0 < numerator < denominator <= MAX_DELTA
    requires PoseOk(before, VERSION_4, count, flags) && PoseOk(after, VERSION_4, count, flags)
    ensures PoseOk(Terminal(before, after, numerator, denominator, VERSION_4), VERSION_4, count, flags)
  {
    hide Interpolate, Terminal, OnTheWay, OnTheArc, PhaseBetween, StoresPhase;
    TerminalEnds(before, after, numerator, denominator, VERSION_4);
    TerminalPlace(before, after, numerator, denominator);
    InterpolateBetween(before.x, after.x, numerator, denominator);
    InterpolateBetween(before.y, after.y, numerator, denominator);
    InterpolateBetween(before.z, after.z, numerator, denominator);
  }

  lemma TerminalPlace(before: Sample, after: Sample, numerator: nat, denominator: nat)
    requires 0 < numerator < denominator <= MAX_DELTA
    ensures var r := Terminal(before, after, numerator, denominator, VERSION_4);
            && r.x == Interpolate(before.x, after.x, numerator, denominator)
            && r.y == Interpolate(before.y, after.y, numerator, denominator)
            && r.z == Interpolate(before.z, after.z, numerator, denominator)
  {
    hide Interpolate, InterpolatePhase, InterpolateYaw, WithAnimation;
  }

  /** The samples a finished track ends up with stay within bounds. */
  lemma FinishContent(t: Track, qf: int)
    requires WellFormed(t) && ContentOk(t) && t.version == VERSION_4 && -0x8000_0000 <= qf < 0x8000_0000
    requires Last(t.segments).EndSample() == |t.samples| && FinishAt(t, qf).Ok?
    ensures ContentOk(FinishAt(t, qf).value)
  {
    hide WellFormed, Terminal, PoseOk, AttachmentsOk;
    LastEnds(t);
    LastStart(t);
    var seg, r := Last(t.segments), FinishAt(t, qf).value;
    WalkBounds(t.samples, seg.firstSample, |t.samples|, seg.startQf, qf);
    match Walk(t.samples, seg.firstSample, |t.samples|, seg.startQf, qf)
    case Exact(i) => ContentCut(t, i + 2, r);
    case Between(i, at) =>
      if qf != at {
        TerminalOk(t.samples[i], t.samples[i + 1], qf - at, t.samples[i + 1].deltaQf, |t.attachments|,
                   t.attachmentFlags);
        ContentExtend(t, i + 1, r);
      } else {
        ContentCut(t, i + 1, r);
      }
    case RanOut(i, at) =>
      if qf != at {
        DeltaOk(t.samples[|t.samples| - 1], qf - at, |t.attachments|, t.attachmentFlags);
        ContentExtend(t, |t.samples|, r);
      } else {
        ContentCut(t, i + 1, r);
      }
  }

  lemma ContentCut(t: Track, n: nat, r: Track)
    requires ContentOk(t) && n <= |t.samples| && r.samples == t.samples[..n]
    requires r.version == t.version && r.attachments == t.attachments && r.attachmentFlags == t.attachmentFlags
    ensures ContentOk(r)
  {
    ContentPrefix(t, n);
    SameContent(t.(samples := t.samples[..n]), r);
  }

  lemma ContentExtend(t: Track, n: nat, r: Track)
    requires ContentOk(t) && n <= |t.samples| && |r.samples| == n + 1 && r.samples[..n] == t.samples[..n]
    requires r.version == t.version && r.attachments == t.attachments && r.attachmentFlags == t.attachmentFlags
    requires PoseOk(r.samples[n], t.version, |t.attachments|, t.attachmentFlags)
    ensures ContentOk(r)
  {
    hide PoseOk, AttachmentsOk;
    forall i | 0 <= i < n
      ensures PoseOk(r.samples[i], t.version, |t.attachments|, t.attachmentFlags)
    {
      assert r.samples[i] == r.samples[..n][i] == t.samples[..n][i];
    }
  }

  lemma DeltaOk(s: Sample, delta: u16, count: nat, flags: u16)
    requires PoseOk(s, VERSION_4, count, flags)
    ensures PoseOk(s.(deltaQf := delta), VERSION_4, count, flags)
  {
  }

  /** Finishing a track being captured, in order, leaves a settled track or one too short to keep. */
  lemma FinishSettled(t: Track, qf: int)
    requires Capturing(t) && WellFormed(t) && -0x8000_0000 <= qf < 0x8000_0000
    ensures Last(t.segments).EndSample() == |t.samples|
    ensures var f := FinishAt(t, qf);
            f.Ok? ==>
              && Weak(f.value) && f.value.endQf == qf && (|f.value.samples| >= MIN_SAMPLES ==> Settled(f.value))
              && f.value.completed == t.completed && f.value.runFlags == t.runFlags && f.value.segments != []
  {
    hide ContentOk, FinishAt, Open, FinishedAt;
    FinishWellFormed(t, qf);
    var f := FinishAt(t, qf);
    if f.Ok? {
      FinishContent(t, qf);
      var j := FinishKeeps(t, qf);
      FinishedFacts(t, f.value, j, qf);
    }
  }

  lemma FinishedFacts(t: Track, r: Track, j: nat, qf: int)
    requires FinishedAt(t, r, j, qf)
    ensures r == t.(samples := r.samples, segments := r.segments, endQf := r.endQf) && r.endQf == qf
    ensures |r.segments| == |t.segments| > 0 && Last(r.segments).firstSample == Last(t.segments).firstSample
    ensures Last(r.segments).EndSample() == |r.samples|
    ensures |r.segments| >= 2 ==> r.segments[0] == t.segments[0]
  {
    assert |r.segments| >= 2 ==> r.segments[0] == r.segments[..|t.segments| - 1][0];
  }

  /** A track that may be shown, exported or promoted. */
  predicate Publishable(t: Track) {
    && WellFormed(t) && ContentOk(t) && |t.samples| >= MIN_SAMPLES && t.startQf < t.endQf <= QF_MAX
    && (t.completed ==> Last(t.segments).startQf <= t.resultQf <= t.endQf && !HasFlag(t.runFlags, Incomplete))
  }

  // ---- a boundary and its undoing -------------------------------------------------------------

  /** `r` is the settled track `t` with one tentative segment recorded after it. */
  predicate Tentative(t: Track, r: Track) {
    && t.segments <= r.segments && |r.segments| == |t.segments| + 1 && t.samples <= r.samples
    && Last(r.segments).firstSample == |t.samples| && r.startQf == t.startQf && r.route == t.route
    && r.valid == t.valid && r.completed == t.completed && r.resultQf == t.resultQf && r.version == t.version
  }

  /** Opening a segment, restarting it on a lower clock and storing samples in it stay tentative. */
  lemma TentativeGrows(t: Track, r: Track, route: Route, pose: Pose, qf: u32, delta: u16)
    requires Settled(t) && Weak(r)
    ensures Tentative(t, AddSegment(t, route))
    ensures Tentative(t, r) && t.resultQf == RESULT_NONE && !t.completed ==>
              Last(r.segments).firstSample <= |r.samples| && Tentative(t, Restart(r))
    ensures Tentative(t, r) && |r.samples| < MAX_SAMPLES ==>
              && Last(r.segments).sampleCount < MAX_SAMPLES && |r.attachments| <= MAX_ATTACHMENTS
              && r.attachmentFlags <= OVERFLOW
              && Tentative(t, AddSample(r, pose, qf, delta, false))
  {
    hide ContentOk, Weak, SegmentOk, Capture, WellFormed, MakeSample;
    SettledNonEmpty(t);
    if Tentative(t, r) {
      WeakLast(r);
      assert r.segments[..|t.segments|] == t.segments;
    }
  }

  lemma SettledNonEmpty(t: Track)
    requires Settled(t)
    ensures t.segments != [] && t.samples != [] && t.endQf == Last(t.segments).endQf && |t.samples| <= MAX_SAMPLES
    ensures Last(t.segments).EndSample() == |t.samples|
  {
  }

  lemma WeakLast(r: Track)
    requires Weak(r) && r.segments != []
    ensures Last(r.segments).EndSample() == |r.samples| <= MAX_SAMPLES
    ensures |r.attachments| <= MAX_ATTACHMENTS && r.attachmentFlags <= OVERFLOW
  {
    FrontEnds(r, |r.segments| - 1);
  }

  /** Rolling the boundary back gives the settled track back: every sample, segment and time as before;
      only descriptors seen meanwhile, and the route flag, may differ. */
  lemma TentativeRollsBack(t: Track, r: Track)
    requires Settled(t) && Tentative(t, r)
    ensures EndBefore(r.segments, |t.segments|) == |t.samples| <= |r.samples|
    ensures var back := Rollback(r, |t.segments|);
            back == t.(runFlags := back.runFlags, attachments := r.attachments, attachmentFlags := r.attachmentFlags)
  {
    SettledNonEmpty(t);
    assert r.segments[..|t.segments|] == t.segments;
    assert r.samples[..|t.samples|] == t.samples;
  }
}
