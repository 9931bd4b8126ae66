/** The ghost file's byte layout: every integer big endian, samples of 16 bytes, segments of 32. */
module GhostLayout {
  import opened Bytes
  import opened GhostTrack
  import opened GhostCapture

  const HEADER_SIZE := 0x100
  const TABLE_OFFSET := 0x100
  const TABLE_SIZE := 0x800
  const DATA_OFFSET := 0x900
  const SAMPLE_SIZE := 16
  const SEGMENT_SIZE := 32
  const DESCRIPTOR_SIZE := 6
  const MAX_FILE := 0x69EE0
  const MAGIC := 0x53474846
  const CRC32_KIND := 1
  const POSE_MODE := 2
  const PROFILES := 4

  /** Field positions. */
  const AT_VERSION := 4
  const AT_HEADER_SIZE := 6
  const AT_FILE_SIZE := 8
  const AT_FILE_SUM := 12
  const AT_HEADER_SUM := 16
  const AT_PAYLOAD_SUM := 20
  const AT_FEATURES := 24
  const AT_RUN_FLAGS := 28
  const AT_GAME := 32
  const AT_REVISION := 36
  const AT_REGION := 37
  const AT_PROFILE := 38
  const AT_MODE := 39
  const AT_CODEC := 40
  const AT_STRIDE := 41
  const AT_INTERVAL := 42
  const AT_ROUTE := 44
  const AT_VARIANT := 48
  const AT_RESULT := 52
  const AT_START := 56
  const AT_END := 60
  const AT_DURATION := 64
  const AT_COUNT := 68
  const AT_PAYLOAD := 72
  const AT_ID_HIGH := 84
  const AT_ID_LOW := 88
  const AT_AUTHOR_LENGTH := 92
  const AT_NAME_LENGTH := 93
  const AT_PROFILE_LENGTH := 94
  const AT_CHECKSUM_KIND := 95
  const AT_AUTHOR := 96
  const AT_NAME := 120
  const AT_PROFILE_NAME := 168
  const AUTHOR_SIZE := 24
  const NAME_SIZE := 48
  const PROFILE_NAME_SIZE := 16
  const AT_SEGMENTS := 184
  const AT_SEGMENT_SIZE := 186
  const AT_TABLE := 188
  const AT_TABLE_SIZE := 192
  const AT_DATA := 196
  const AT_DATA_SIZE := 200
  const AT_TABLE_SUM := 204
  const AT_ATTACHMENTS := 208
  const AT_ATTACHMENT_SIZE := 209
  const AT_ATTACHMENT_FLAGS := 210
  const AT_ATTACHMENT_RESERVED := 212
  const AT_DESCRIPTORS := 214

  // ---- integers -------------------------------------------------------------------------------

  function Signed16(v: u16): s16 { if v >= 0x8000 then v - 0x1_0000 else v }

  function Signed24(v: u24): s24 { if v >= 0x80_0000 then v - 0x100_0000 else v }

  function Signed32(v: u32): s32 { if v >= 0x8000_0000 then v - 0x1_0000_0000 else v }

  function Unsigned(v: int, modulus: nat): (r: nat)
    requires 0 - modulus <= v < modulus
    ensures v >= 0 ==> r == v
    ensures v < 0 ==> r == v + modulus
  {
    if v < 0 then v + modulus else v
  }

  function Half(d: seq<byte>, pos: nat): u16
    requires pos + 2 <= |d|
  {
    Join(0, 0, d[pos], d[pos + 1])
  }

  function Three(d: seq<byte>, pos: nat): u24
    requires pos + 3 <= |d|
  {
    Join(0, d[pos], d[pos + 1], d[pos + 2])
  }

  function Word(d: seq<byte>, pos: nat): u32
    requires pos + 4 <= |d|
  {
    GetBE32(d, pos)
  }

  // ---- samples --------------------------------------------------------------------------------

  function SampleIn(d: seq<byte>, pos: nat): Sample
    requires pos + SAMPLE_SIZE <= |d|
  {
    Sample(Signed16(Half(d, pos)), Half(d, pos + 2), Signed24(Three(d, pos + 4)), Signed24(Three(d, pos + 7)),
           Signed24(Three(d, pos + 10)), Three(d, pos + 13))
  }

  function SampleAt(d: seq<byte>, i: nat): Sample
    requires DATA_OFFSET + SAMPLE_SIZE * (i + 1) <= |d|
  {
    SampleIn(d, DATA_OFFSET + SAMPLE_SIZE * i)
  }

  function SampleBytes(s: Sample): (b: seq<byte>)
    ensures |b| == SAMPLE_SIZE
  {
    var yaw, x, y, z := Unsigned(s.yaw, 0x1_0000), Unsigned(s.x, 0x100_0000), Unsigned(s.y, 0x100_0000),
        Unsigned(s.z, 0x100_0000);
    [Digit(yaw, 1), Digit(yaw, 0), Digit(s.deltaQf, 1), Digit(s.deltaQf, 0),
     Digit(x, 2), Digit(x, 1), Digit(x, 0), Digit(y, 2), Digit(y, 1), Digit(y, 0), Digit(z, 2), Digit(z, 1),
     Digit(z, 0), Digit(s.animation, 2), Digit(s.animation, 1), Digit(s.animation, 0)]
  }

  lemma HalfDigits(v: u16)
    ensures Join(0, 0, Digit(v, 1), Digit(v, 0)) == v
  {
    JoinDigits(v);
  }

  lemma ThreeDigits(v: u24)
    ensures Join(0, Digit(v, 2), Digit(v, 1), Digit(v, 0)) == v
  {
    JoinDigits(v);
  }

  /** A stored sample reads back unchanged, wherever it stands. */
  lemma SampleRoundTrip(d: seq<byte>, pos: nat, s: Sample)
    requires pos + SAMPLE_SIZE <= |d| && d[pos..pos + SAMPLE_SIZE] == SampleBytes(s)
    ensures SampleIn(d, pos) == s
  {
    hide Digit;
    var b := SampleBytes(s);
    forall i | 0 <= i < SAMPLE_SIZE
      ensures d[pos + i] == b[i]
    {
      assert d[pos + i] == d[pos..pos + SAMPLE_SIZE][i];
    }
    HalfDigits(Unsigned(s.yaw, 0x1_0000));
    HalfDigits(s.deltaQf);
    ThreeDigits(Unsigned(s.x, 0x100_0000));
    ThreeDigits(Unsigned(s.y, 0x100_0000));
    ThreeDigits(Unsigned(s.z, 0x100_0000));
    ThreeDigits(s.animation);
  }

  // ---- segments -------------------------------------------------------------------------------

  function RouteIn(d: seq<byte>, tuple: nat, variant: nat): Route
    requires tuple + 4 <= |d| && variant + 4 <= |d|
  {
    Route(d[tuple], d[tuple + 1], Signed32(Word(d, variant)), d[tuple + 2], d[tuple + 3])
  }

  function SegmentIn(d: seq<byte>, pos: nat): Segment
    requires pos + SEGMENT_SIZE <= |d|
  {
    Segment(Word(d, pos), Word(d, pos + 4), Word(d, pos + 8), Word(d, pos + 12), RouteIn(d, pos + 20, pos + 16))
  }

  function SegmentAt(d: seq<byte>, i: nat): Segment
    requires TABLE_OFFSET + SEGMENT_SIZE * (i + 1) <= |d|
  {
    SegmentIn(d, TABLE_OFFSET + SEGMENT_SIZE * i)
  }

  /** The two words after a segment's fields. */
  predicate ReservedZero(d: seq<byte>, i: nat)
    requires TABLE_OFFSET + SEGMENT_SIZE * (i + 1) <= |d|
  {
    Word(d, TABLE_OFFSET + SEGMENT_SIZE * i + 24) == 0 && Word(d, TABLE_OFFSET + SEGMENT_SIZE * i + 28) == 0
  }

  predicate ZeroBytes(d: seq<byte>, from: nat, to: nat)
    requires to <= |d|
  {
    forall i :: from <= i < to ==> d[i] == 0
  }

  function RouteTuple(r: Route): (b: seq<byte>)
    ensures |b| == 4
  {
    [r.area, r.episode, r.parentArea, r.flags]
  }

  function SegmentBytes(s: Segment): (b: seq<byte>)
    ensures |b| == SEGMENT_SIZE
  {
    PutBE32(s.firstSample) + PutBE32(s.sampleCount) + PutBE32(s.startQf) + PutBE32(s.endQf)
    + PutBE32(Unsigned(s.route.variant, 0x1_0000_0000)) + RouteTuple(s.route) + PutBE32(0) + PutBE32(0)
  }

  /** A word stored at `pos` reads back. */
  lemma WordAt(d: seq<byte>, pos: nat, v: u32)
    requires pos + 4 <= |d| && d[pos..pos + 4] == PutBE32(v)
    ensures Word(d, pos) == v
  {
    hide Digit;
    JoinDigits(v);
    var b := PutBE32(v);
    assert d[pos] == d[pos..pos + 4][0] && d[pos + 1] == d[pos..pos + 4][1];
    assert d[pos + 2] == d[pos..pos + 4][2] && d[pos + 3] == d[pos..pos + 4][3];
  }

  lemma SegmentPieces(d: seq<byte>, pos: nat, s: Segment)
    requires pos + SEGMENT_SIZE <= |d| && d[pos..pos + SEGMENT_SIZE] == SegmentBytes(s)
    ensures d[pos..pos + 4] == PutBE32(s.firstSample) && d[pos + 4..pos + 8] == PutBE32(s.sampleCount)
    ensures d[pos + 8..pos + 12] == PutBE32(s.startQf) && d[pos + 12..pos + 16] == PutBE32(s.endQf)
    ensures d[pos + 16..pos + 20] == PutBE32(Unsigned(s.route.variant, 0x1_0000_0000))
    ensures d[pos + 20..pos + 24] == RouteTuple(s.route)
    ensures d[pos + 24..pos + 28] == PutBE32(0) && d[pos + 28..pos + 32] == PutBE32(0)
  {
    hide PutBE32;
    var b := SegmentBytes(s);
    SubSlice(d, pos, SEGMENT_SIZE, 0, 4);
    SubSlice(d, pos, SEGMENT_SIZE, 4, 8);
    SubSlice(d, pos, SEGMENT_SIZE, 8, 12);
    SubSlice(d, pos, SEGMENT_SIZE, 12, 16);
    SubSlice(d, pos, SEGMENT_SIZE, 16, 20);
    SubSlice(d, pos, SEGMENT_SIZE, 20, 24);
    SubSlice(d, pos, SEGMENT_SIZE, 24, 28);
    SubSlice(d, pos, SEGMENT_SIZE, 28, 32);
    assert b[0..4] == PutBE32(s.firstSample) && b[4..8] == PutBE32(s.sampleCount);
    assert b[8..12] == PutBE32(s.startQf) && b[12..16] == PutBE32(s.endQf);
    assert b[16..20] == PutBE32(Unsigned(s.route.variant, 0x1_0000_0000)) && b[20..24] == RouteTuple(s.route);
    assert b[24..28] == PutBE32(0) && b[28..32] == PutBE32(0);
  }

  lemma SubSlice(d: seq<byte>, pos: nat, n: nat, i: nat, j: nat)
    requires i <= j <= n && pos + n <= |d|
    ensures d[pos + i..pos + j] == d[pos..pos + n][i..j]
  {
    var whole := d[pos..pos + n];
    var a, b := d[pos + i..pos + j], whole[i..j];
    forall k | 0 <= k < |a|
      ensures a[k] == b[k]
    {
      assert b[k] == whole[i + k];
    }
  }

  /** A stored segment reads back unchanged, its reserved words zero. */
  lemma SegmentRoundTrip(d: seq<byte>, pos: nat, s: Segment)
    requires pos + SEGMENT_SIZE <= |d| && d[pos..pos + SEGMENT_SIZE] == SegmentBytes(s)
    ensures SegmentIn(d, pos) == s && Word(d, pos + 24) == 0 && Word(d, pos + 28) == 0
  {
    hide PutBE32, Word, SegmentBytes;
    SegmentPieces(d, pos, s);
    WordAt(d, pos, s.firstSample);
    WordAt(d, pos + 4, s.sampleCount);
    WordAt(d, pos + 8, s.startQf);
    WordAt(d, pos + 12, s.endQf);
    WordAt(d, pos + 16, Unsigned(s.route.variant, 0x1_0000_0000));
    WordAt(d, pos + 24, 0);
    WordAt(d, pos + 28, 0);
    var tuple := d[pos + 20..pos + 24];
    assert d[pos + 20] == tuple[0] && d[pos + 21] == tuple[1] && d[pos + 22] == tuple[2] && d[pos + 23] == tuple[3];
  }

  // ---- attachments ----------------------------------------------------------------------------

  function DescriptorAt(d: seq<byte>, i: nat): Attachment
    requires AT_DESCRIPTORS + DESCRIPTOR_SIZE * (i + 1) <= |d|
  {
    Attachment(Word(d, AT_DESCRIPTORS + DESCRIPTOR_SIZE * i), Half(d, AT_DESCRIPTORS + DESCRIPTOR_SIZE * i + 4))
  }

  // ---- installing -----------------------------------------------------------------------------

  /** Enough bytes for the counts the header gives. */
  predicate Holds(d: seq<byte>) {
    && |d| >= HEADER_SIZE && Half(d, AT_SEGMENTS) <= MAX_SEGMENTS && d[AT_ATTACHMENTS] <= MAX_ATTACHMENTS
    && |d| == DATA_OFFSET + SAMPLE_SIZE * Word(d, AT_COUNT)
  }

  function Samples(d: seq<byte>): (r: seq<Sample>)
    requires Holds(d)
    ensures |r| == Word(d, AT_COUNT)
  {
    seq(Word(d, AT_COUNT), i requires 0 <= i < Word(d, AT_COUNT) => SampleAt(d, i))
  }

  function Segments(d: seq<byte>): (r: seq<Segment>)
    requires Holds(d)
    ensures |r| == Half(d, AT_SEGMENTS)
  {
    seq(Half(d, AT_SEGMENTS), i requires 0 <= i < Half(d, AT_SEGMENTS) => SegmentAt(d, i))
  }

  function Descriptors(d: seq<byte>): (r: seq<Attachment>)
    requires Holds(d)
    ensures |r| == d[AT_ATTACHMENTS]
  {
    seq(d[AT_ATTACHMENTS], i requires 0 <= i < d[AT_ATTACHMENTS] => DescriptorAt(d, i))
  }

  /** Mirrors `installCanonicalTrack`. */
  function Install(d: seq<byte>): Track
    requires Holds(d)
  {
    var v4 := Half(d, AT_VERSION) == VERSION_4;
    var result, flags := Word(d, AT_RESULT), Word(d, AT_RUN_FLAGS);
    Track(Samples(d), Segments(d), Word(d, AT_START), Word(d, AT_END), result, flags, RouteIn(d, AT_ROUTE, AT_VARIANT),
          Half(d, AT_VERSION), if v4 then Half(d, AT_ATTACHMENT_FLAGS) else 0, if v4 then Descriptors(d) else [], true,
          result != RESULT_NONE && !HasFlag(flags, Incomplete))
  }
}
