/** When a byte string is a canonical ghost file, and the two validators that decide it. */
module GhostFile {
  import opened Bytes
  import Crc32
  import opened GhostTrack
  import opened GhostCapture
  import opened GhostLayout

  // ---- routes ---------------------------------------------------------------------------------

  predicate ValidRoute(r: Route) {
    && r.area <= AREA_MAX && r.episode <= EPISODE_MAX && (r.parentArea == PARENT_NONE || r.parentArea <= AREA_MAX)
    && r.flags < 4 && (r.flags % 2 == 1 <==> r.parentArea != PARENT_NONE)
    && (r.flags / 2 == 1 ==> r.parentArea != PARENT_NONE)
    && VARIANT_NONE <= r.variant <= VARIANT_MAX
  }

  /** The parent every region gives an area, or -1 where regions differ. */
  function PortableParent(area: u8): int {
    if area in {0x00, 0x01, 0x02, 0x03, 0x04, 0x05, 0x06, 0x08, 0x09, 0x14, 0x15, 0x16, 0x17, 0x18, 0x1D, 0x34, 0x3C}
        then PARENT_NONE
    else if area in {0x2E, 0x2F, 0x37} then 0x02
    else if area in {0x1E, 0x30, 0x3B} then 0x03
    else if area in {0x20, 0x21} then 0x04
    else if area in {0x0D, 0x29, 0x32, 0x3A} then 0x05
    else if area in {0x07, 0x0E, 0x28, 0x33, 0x38} then 0x06
    else if area == 0x2A then 0x08
    else if area in {0x10, 0x1F, 0x2C, 0x39} then 0x09
    else -1
  }

  predicate Portable(r: Route) {
    var parent := PortableParent(r.area);
    && parent >= 0 && r.parentArea == parent
    && (if parent == PARENT_NONE then r.flags == 0 else r.flags == 1 || r.flags == 3)
  }

  // ---- the parts of a canonical file ----------------------------------------------------------

  function GameOf(region: nat): u32 {
    if region == 0 then 0x474D534A else if region == 1 then 0x474D5345 else 0x474D5350
  }

  predicate Printable(b: byte) { 0x20 <= b <= 0x7E && b != 0x2F && b != 0x5C }

  /** A text field: printable up to its length, zero after. */
  predicate TextOk(d: seq<byte>, at: nat, capacity: nat, length: nat, required: bool)
    requires at + capacity <= |d|
  {
    && length <= capacity && (required ==> length > 0)
    && (forall i :: at <= i < at + length ==> Printable(d[i]))
    && (forall i :: at + length <= i < at + capacity ==> d[i] == 0)
  }

  predicate TextsOk(d: seq<byte>)
    requires |d| >= HEADER_SIZE
  {
    && TextOk(d, AT_AUTHOR, AUTHOR_SIZE, d[AT_AUTHOR_LENGTH], false)
    && TextOk(d, AT_NAME, NAME_SIZE, d[AT_NAME_LENGTH], true)
    && TextOk(d, AT_PROFILE_NAME, PROFILE_NAME_SIZE, d[AT_PROFILE_LENGTH], false)
  }

  predicate VersionOk(d: seq<byte>)
    requires |d| >= HEADER_SIZE
  {
    Half(d, AT_VERSION) == VERSION_3 || Half(d, AT_VERSION) == VERSION_4
  }

  /** The feature word and codec each version prescribes. */
  function Codec(d: seq<byte>): nat
    requires |d| >= HEADER_SIZE
  {
    if Half(d, AT_VERSION) == VERSION_4 then 1 else 0
  }

  predicate Framed(d: seq<byte>) {
    && HEADER_SIZE <= |d| <= MAX_FILE && Word(d, 0) == MAGIC && VersionOk(d)
    && Half(d, AT_HEADER_SIZE) == HEADER_SIZE && Word(d, AT_FILE_SIZE) == |d| && d[AT_CHECKSUM_KIND] == CRC32_KIND
    && Word(d, AT_FEATURES) == Codec(d) && d[AT_CODEC] == Codec(d)
    && d[AT_REGION] < 3 && Word(d, AT_GAME) == GameOf(d[AT_REGION]) && d[AT_REVISION] == 0
    && d[AT_PROFILE] < PROFILES && d[AT_MODE] == POSE_MODE && d[AT_STRIDE] == SAMPLE_SIZE
    && Half(d, AT_INTERVAL) == INTERVAL_QF
    && (Word(d, AT_ID_HIGH) != 0 || Word(d, AT_ID_LOW) != 0) && TextsOk(d)
  }

  predicate Sized(d: seq<byte>)
    requires |d| >= HEADER_SIZE
  {
    && MIN_SAMPLES <= Word(d, AT_COUNT) <= MAX_SAMPLES && |d| == DATA_OFFSET + SAMPLE_SIZE * Word(d, AT_COUNT)
    && Word(d, AT_PAYLOAD) == TABLE_SIZE + SAMPLE_SIZE * Word(d, AT_COUNT)
    && 0 < Half(d, AT_SEGMENTS) <= MAX_SEGMENTS && Half(d, AT_SEGMENT_SIZE) == SEGMENT_SIZE
    && Word(d, AT_TABLE) == TABLE_OFFSET && Word(d, AT_TABLE_SIZE) == TABLE_SIZE
    && Word(d, AT_DATA) == DATA_OFFSET && Word(d, AT_DATA_SIZE) == SAMPLE_SIZE * Word(d, AT_COUNT)
  }

  /** Distinct descriptors followed by empty ones; nothing at all before version 4. */
  predicate Described(d: seq<byte>)
    requires |d| >= HEADER_SIZE
  {
    if Half(d, AT_VERSION) == VERSION_3 then ZeroBytes(d, AT_ATTACHMENTS, HEADER_SIZE)
    else
      && d[AT_ATTACHMENTS] <= MAX_ATTACHMENTS && d[AT_ATTACHMENT_SIZE] == DESCRIPTOR_SIZE
      && Half(d, AT_ATTACHMENT_FLAGS) <= OVERFLOW && Half(d, AT_ATTACHMENT_RESERVED) == 0
      && forall i :: 0 <= i < MAX_ATTACHMENTS ==> DescriptorOk(d, i)
  }

  predicate DescriptorOk(d: seq<byte>, i: nat)
    requires |d| >= HEADER_SIZE && i < MAX_ATTACHMENTS
  {
    if i < d[AT_ATTACHMENTS]
    then DescriptorAt(d, i) != Attachment(0, 0) && forall j :: 0 <= j < i ==> DescriptorAt(d, j) != DescriptorAt(d, i)
    else DescriptorAt(d, i) == Attachment(0, 0)
  }

  function Sum(data: seq<byte>, gap: Range): u32 {
    Crc32.Crc(Blank(data, [gap])) as int
  }

  const NO_GAP := Range(0, 0)

  predicate Summed(d: seq<byte>)
    requires |d| >= DATA_OFFSET
  {
    && Word(d, AT_TABLE_SUM) == Sum(d[TABLE_OFFSET..DATA_OFFSET], NO_GAP)
    && Word(d, AT_HEADER_SUM) == Sum(d[..HEADER_SIZE], Range(AT_FILE_SUM, AT_FILE_SUM + 8))
    && Word(d, AT_FILE_SUM) == Sum(d, Range(AT_FILE_SUM, AT_FILE_SUM + 4))
    && Word(d, AT_PAYLOAD_SUM) == Sum(d[HEADER_SIZE..], NO_GAP)
  }

  predicate ResultOk(t: Track)
    requires t.segments != []
  {
    t.resultQf == RESULT_NONE || Last(t.segments).startQf <= t.resultQf <= t.endQf
  }

  /** Every used entry of the segment table is a route this game may show, every other entry zero. */
  predicate TableOk(d: seq<byte>, running: nat)
    requires |d| >= DATA_OFFSET && Half(d, AT_SEGMENTS) <= MAX_SEGMENTS
  {
    && (forall i :: 0 <= i < Half(d, AT_SEGMENTS) ==> EntryOk(d, i, running))
    && ZeroBytes(d, TABLE_OFFSET + SEGMENT_SIZE * Half(d, AT_SEGMENTS), DATA_OFFSET)
  }

  predicate EntryOk(d: seq<byte>, i: nat, running: nat)
    requires |d| >= DATA_OFFSET && i < MAX_SEGMENTS
  {
    && ReservedZero(d, i) && ValidRoute(SegmentAt(d, i).route)
    && (d[AT_REGION] != running ==> Portable(SegmentAt(d, i).route))
  }

  /** A byte string that frames, describes and checksums a publishable track. */
  predicate Canonical(d: seq<byte>, running: nat) {
    && Framed(d) && Sized(d) && Described(d) && Summed(d) && Holds(d) && TableOk(d, running)
    && var t := Install(d); Publishable(t) && ResultOk(t) && Word(d, AT_DURATION) == t.endQf - t.startQf
  }

  /** What an import installs is a track the recorder may show, export or promote. */
  lemma CanonicalPublishable(d: seq<byte>, running: nat)
    requires Canonical(d, running)
    ensures Holds(d) && Publishable(Install(d)) && Install(d).valid
  {
    hide Framed, Sized, Described, Summed, TableOk, Holds, Publishable, ResultOk, Samples, Segments, Descriptors;
  }

  // ---- checking piece by piece ----------------------------------------------------------------

  predicate TimesOk(d: seq<byte>)
    requires |d| >= HEADER_SIZE
  {
    var start, end, result := Word(d, AT_START), Word(d, AT_END), Word(d, AT_RESULT);
    && start <= QF_MAX && end <= QF_MAX && start < end && Word(d, AT_DURATION) == end - start <= MAX_DURATION_QF
    && (result == RESULT_NONE || start <= result <= end)
  }

  /** A segment's place in the table: where its samples and its times must start. */
  predicate Placed(t: Track, i: nat)
    requires i < |t.segments|
  {
    var seg := t.segments[i];
    && seg.firstSample == EndBefore(t.segments, i) && seg.sampleCount > 0 && seg.EndSample() <= |t.samples|
    && seg.startQf <= seg.endQf && Follows(t.segments, i)
  }

  predicate PosesOk(t: Track, from: nat, to: nat)
    requires to <= |t.samples|
  {
    forall k :: from <= k < to ==> PoseOk(t.samples[k], t.version, |t.attachments|, t.attachmentFlags)
  }

  /** A placed segment's samples: within bounds, and adding up to its duration. */
  predicate Sampled(t: Track, i: nat)
    requires i < |t.segments| && Placed(t, i)
  {
    PosesOk(t, t.segments[i].firstSample, t.segments[i].EndSample()) && SegmentOk(t.samples, t.segments[i])
  }

  /** What remains after the last segment, against the header. */
  predicate Spans(t: Track)
    requires t.segments != []
  {
    && EndBefore(t.segments, |t.segments|) == |t.samples| && Last(t.segments).endQf == t.endQf
    && t.segments[0].route == t.route && t.segments[0].startQf == t.startQf
    && (t.resultQf != RESULT_NONE ==> Last(t.segments).startQf <= t.resultQf)
  }

  predicate AllPlaced(t: Track, n: nat)
    requires n <= |t.segments|
  {
    forall i {:trigger Placed(t, i)} :: 0 <= i < n ==> Placed(t, i)
  }

  predicate AllSampled(t: Track, n: nat)
    requires n <= |t.segments| && AllPlaced(t, n)
  {
    forall i {:trigger Sampled(t, i)} :: 0 <= i < n ==> Sampled(t, i)
  }

  /** The header fields that bound everything else, and its route. */
  predicate HeaderOk(d: seq<byte>, running: nat) {
    && Framed(d) && TimesOk(d) && ValidRoute(RouteIn(d, AT_ROUTE, AT_VARIANT))
    && (d[AT_REGION] != running ==> Portable(RouteIn(d, AT_ROUTE, AT_VARIANT)))
  }

  /** The local checks on table and samples. */
  predicate Chained(d: seq<byte>, running: nat)
    requires Holds(d) && Half(d, AT_SEGMENTS) > 0
  {
    var t := Install(d);
    TableOk(d, running) && AllPlaced(t, |t.segments|) && AllSampled(t, |t.segments|) && Spans(t)
  }

  lemma SizedHolds(d: seq<byte>)
    requires |d| >= HEADER_SIZE && VersionOk(d) && Sized(d) && Described(d)
    ensures Holds(d) && Half(d, AT_SEGMENTS) > 0
  {
  }

  /** Placed, sampled segments that reach the end are a well-formed track of sound samples. */
  lemma ChainWellFormed(t: Track)
    requires 0 < |t.segments| <= MAX_SEGMENTS && |t.samples| <= MAX_SAMPLES
    requires t.endQf <= t.startQf + MAX_DURATION_QF
    requires AllPlaced(t, |t.segments|) && AllSampled(t, |t.segments|) && Spans(t)
    ensures WellFormed(t) && PosesOk(t, 0, |t.samples|)
  {
    hide SegmentOk, PoseOk, Follows;
    forall i | 0 <= i < |t.segments|
      ensures t.segments[i].firstSample == EndBefore(t.segments, i) && SegmentOk(t.samples, t.segments[i])
      ensures Follows(t.segments, i)
    {
      assert Placed(t, i) && Sampled(t, i);
    }
    assert Tiles(t.segments, |t.samples|);
    forall k | 0 <= k < |t.samples|
      ensures PoseOk(t.samples[k], t.version, |t.attachments|, t.attachmentFlags)
    {
      var i := TilesCover(t.segments, |t.samples|, k);
      assert Sampled(t, i);
    }
  }

  lemma WellFormedChain(t: Track)
    requires WellFormed(t) && PosesOk(t, 0, |t.samples|) && ResultOk(t)
    ensures AllPlaced(t, |t.segments|) && AllSampled(t, |t.segments|) && Spans(t)
  {
    hide PoseOk;
    forall i | 0 <= i < |t.segments|
      ensures Placed(t, i) && Sampled(t, i)
    {
      TilesWithin(t.segments, |t.samples|, i);
      assert t.segments[i].firstSample == EndBefore(t.segments, i);
      assert SegmentOk(t.samples, t.segments[i]);
      assert Follows(t.segments, i);
    }
  }

  lemma DescribedAttachments(d: seq<byte>)
    requires |d| >= HEADER_SIZE && VersionOk(d) && Sized(d) && Described(d)
    ensures Holds(d)
    ensures var t := Install(d);
            && AttachmentsOk(t.attachments) && t.attachmentFlags <= OVERFLOW
            && (t.version == VERSION_3 ==> t.attachments == [] && t.attachmentFlags == 0)
  {
    hide Samples, Segments, DescriptorAt;
    if Half(d, AT_VERSION) == VERSION_4 {
      var a := Descriptors(d);
      forall i | 0 <= i < |a|
        ensures a[i] != Attachment(0, 0) && forall j :: 0 <= j < i ==> a[j] != a[i]
      {
        assert DescriptorOk(d, i);
      }
    }
  }

  lemma ContentPoses(t: Track)
    ensures ContentOk(t) <==>
              && (t.version == VERSION_3 || t.version == VERSION_4)
              && (t.version == VERSION_3 ==> t.attachments == [] && t.attachmentFlags == 0)
              && AttachmentsOk(t.attachments) && t.attachmentFlags <= OVERFLOW && PosesOk(t, 0, |t.samples|)
  {
    hide PoseOk, AttachmentsOk;
  }

  /** The header fields of the installed track. */
  lemma Installed(d: seq<byte>)
    requires Holds(d)
    ensures var t := Install(d);
            && t.startQf == Word(d, AT_START) && t.endQf == Word(d, AT_END) && t.resultQf == Word(d, AT_RESULT)
            && t.route == RouteIn(d, AT_ROUTE, AT_VARIANT) && t.version == Half(d, AT_VERSION)
            && |t.samples| == Word(d, AT_COUNT) && |t.segments| == Half(d, AT_SEGMENTS)
            && (t.completed <==> t.resultQf != RESULT_NONE && !HasFlag(t.runFlags, Incomplete))
            && (forall i :: 0 <= i < |t.segments| ==> t.segments[i] == SegmentAt(d, i))
            && (forall i :: 0 <= i < |t.samples| ==> t.samples[i] == SampleAt(d, i))
  {
    hide SegmentAt, SampleAt, HasFlag, Descriptors, Word, Half, RouteIn;
  }

  /** The validators' local checks decide exactly the canonical files. */
  lemma ChecksAreCanonical(d: seq<byte>, running: nat)
    ensures Canonical(d, running) <==>
              HeaderOk(d, running) && Sized(d) && Described(d) && Summed(d) && Holds(d) && Half(d, AT_SEGMENTS) > 0 &&
              Chained(d, running)
  {
    hide Described, Summed, WellFormed, ContentOk, Install, Word, Half, AllPlaced, AllSampled, PosesOk, RouteIn,
        SegmentAt,
         TextsOk, ValidRoute, Portable, AttachmentsOk, Holds, HasFlag;
    if Framed(d) && Sized(d) && Described(d) {
      SizedHolds(d);
      Installed(d);
      DescribedAttachments(d);
      var t := Install(d);
      ContentPoses(t);
      if Canonical(d, running) {
        CanonicalChecks(d, running);
      } else if HeaderOk(d, running) && Chained(d, running) {
        ChainWellFormed(t);
      }
    }
  }

  lemma CanonicalChecks(d: seq<byte>, running: nat)
    requires Canonical(d, running)
    ensures HeaderOk(d, running) && Half(d, AT_SEGMENTS) > 0 && Chained(d, running)
  {
    hide Described, Summed, Install, Word, Half, AllPlaced, AllSampled, PosesOk, RouteIn, SegmentAt,
         TextsOk, ValidRoute, Portable, AttachmentsOk, Holds, HasFlag, Ordered, Tiles, SegmentsOk;
    var t := Install(d);
    Installed(d);
    ContentPoses(t);
    WellFormedChain(t);
    OrderedSpan(t, |t.segments| - 1);
    assert EntryOk(d, 0, running);
  }
}
