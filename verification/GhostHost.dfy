/** The host's validator, written independently in unbounded integers, tables first and samples after: it
    too accepts exactly the canonical files. */
module GhostHost {
  import opened Bytes
  import Crc32
  import opened GhostTrack
  import opened GhostCapture
  import opened GhostLayout
  import opened GhostFile
  import opened GhostConsole

  /** Mirrors `_text` for the three fields. */
  method ReadTexts(d: seq<byte>) returns (ok: bool)
    requires |d| >= HEADER_SIZE
    ensures ok == TextsOk(d)
  {
    hide TextOk;
    var author := ReadText(d, AT_AUTHOR, AUTHOR_SIZE, d[AT_AUTHOR_LENGTH], false);
    var name := ReadText(d, AT_NAME, NAME_SIZE, d[AT_NAME_LENGTH], true);
    var profile := ReadText(d, AT_PROFILE_NAME, PROFILE_NAME_SIZE, d[AT_PROFILE_LENGTH], false);
    return author && name && profile;
  }

  method ReadText(d: seq<byte>, at: nat, capacity: nat, length: nat, required: bool) returns (ok: bool)
    requires at + capacity <= |d|
    ensures ok == TextOk(d, at, capacity, length, required)
  {
    if length > capacity {
      return false;
    }
    var tail := AllZero(d, at + length, at + capacity);
    if !tail || (required && length == 0) {
      return false;
    }
    for i := at to at + length
      invariant forall k :: at <= k < i ==> Printable(d[k])
    {
      if !(0x20 <= d[i] <= 0x7E) || d[i] == 0x2F || d[i] == 0x5C {
        return false;
      }
    }
    return true;
  }

  method RangeSum(d: seq<byte>, from: nat, to: nat, gap: Range) returns (sum: u32)
    requires from <= to <= |d| && gap.start <= gap.end <= to - from
    ensures sum == Sum(d[from..to], gap)
  {
    var copied := Crc32.CopiedCrc(d[from..to], [gap]);
    InOneGap(gap, to - from);
    return copied.value as int;
  }

  lemma InOneGap(gap: Range, length: nat)
    requires gap.start <= gap.end <= length
    ensures Crc32.InBounds([gap], length)
  {
  }

  method ReadFrame(d: seq<byte>) returns (ok: bool)
    requires |d| >= HEADER_SIZE && VersionOk(d)
    ensures ok == (Framed(d) && Word(d, AT_HEADER_SUM) == Sum(d[..HEADER_SIZE], Range(AT_FILE_SUM, AT_FILE_SUM + 8))
                   && Word(d, AT_FILE_SUM) == Sum(d, Range(AT_FILE_SUM, AT_FILE_SUM + 4))
                   && ValidRoute(RouteIn(d, AT_ROUTE, AT_VARIANT)))
  {
    hide Word, Half, RouteIn, ValidRoute, Sum, TextsOk;
    var v4 := Half(d, AT_VERSION) == VERSION_4;
    if Word(d, 0) != MAGIC || Half(d, AT_HEADER_SIZE) != HEADER_SIZE || Word(d, AT_FILE_SIZE) != |d| ||
       Word(d, AT_FILE_SIZE) > MAX_FILE || d[AT_CHECKSUM_KIND] != CRC32_KIND {
      return false;
    }
    var header := RangeSum(d, 0, HEADER_SIZE, Range(AT_FILE_SUM, AT_FILE_SUM + 8));
    var whole := RangeSum(d, 0, |d|, Range(AT_FILE_SUM, AT_FILE_SUM + 4));
    assert d[0..HEADER_SIZE] == d[..HEADER_SIZE] && d[0..|d|] == d;
    if Word(d, AT_HEADER_SUM) != header || Word(d, AT_FILE_SUM) != whole {
      return false;
    }
    var supported := if v4 then 1 else 0;
    if Word(d, AT_FEATURES) > supported || (v4 && Word(d, AT_FEATURES) != 1) || d[AT_MODE] != POSE_MODE ||
       d[AT_CODEC] != supported || d[AT_STRIDE] != SAMPLE_SIZE || Half(d, AT_INTERVAL) != INTERVAL_QF ||
       d[AT_PROFILE] >= PROFILES || d[AT_REGION] >= 3 ||
       Word(d, AT_GAME) != GameOf(d[AT_REGION]) || d[AT_REVISION] != 0 ||
       !ValidRoute(RouteIn(d, AT_ROUTE, AT_VARIANT)) || (Word(d, AT_ID_HIGH) == 0 && Word(d, AT_ID_LOW) == 0) {
      return false;
    }
    ok := ReadTexts(d);
  }

  method ReadTimes(d: seq<byte>) returns (ok: bool)
    requires |d| >= HEADER_SIZE
    ensures ok == (TimesOk(d) && MIN_SAMPLES <= Word(d, AT_COUNT) <= MAX_SAMPLES)
  {
    hide Word;
    var start, end, duration, result := Word(d, AT_START), Word(d, AT_END), Word(d, AT_DURATION), Word(d, AT_RESULT);
    return MIN_SAMPLES <= Word(d, AT_COUNT) <= MAX_SAMPLES && 0 < duration <= MAX_DURATION_QF && start <= QF_MAX &&
        end <= QF_MAX &&
           end >= start && duration == end - start && (result == RESULT_NONE || start <= result <= end);
  }

  method ReadAttachments(d: seq<byte>) returns (ok: bool)
    requires |d| >= HEADER_SIZE && VersionOk(d)
    ensures ok == Described(d)
  {
    hide DescriptorAt, Half, Digit;
    if Half(d, AT_VERSION) == VERSION_3 {
      ok := AllZero(d, AT_ATTACHMENTS, HEADER_SIZE);
      return;
    }
    if d[AT_ATTACHMENTS] > MAX_ATTACHMENTS || d[AT_ATTACHMENT_SIZE] != DESCRIPTOR_SIZE ||
       Half(d, AT_ATTACHMENT_FLAGS) > OVERFLOW || Half(d, AT_ATTACHMENT_RESERVED) != 0 {
      return false;
    }
    var seen: seq<Attachment> := [];
    for i := 0 to MAX_ATTACHMENTS
      invariant |seen| == i && forall k :: 0 <= k < i ==> seen[k] == DescriptorAt(d, k) && DescriptorOk(d, k)
    {
      var descriptor := DescriptorAt(d, i);
      if i < d[AT_ATTACHMENTS] {
        if descriptor == Attachment(0, 0) || descriptor in seen {
          assert !DescriptorOk(d, i);
          return false;
        }
      } else if descriptor != Attachment(0, 0) {
        assert !DescriptorOk(d, i);
        return false;
      }
      seen := seen + [descriptor];
    }
    return true;
  }

  const MAX_PAYLOAD := 0x69DE0

  /** The payload maximum is one more test here; the sizes before it already imply it. */
  method ReadSizes(d: seq<byte>) returns (ok: bool)
    requires |d| >= HEADER_SIZE && Word(d, AT_FILE_SIZE) == |d| && MIN_SAMPLES <= Word(d, AT_COUNT) <= MAX_SAMPLES
    requires d[AT_STRIDE] == SAMPLE_SIZE
    ensures ok == Sized(d)
  {
    hide Word, Half;
    return 1 <= Half(d, AT_SEGMENTS) <= MAX_SEGMENTS && Half(d, AT_SEGMENT_SIZE) == SEGMENT_SIZE &&
           Word(d, AT_TABLE) == TABLE_OFFSET && Word(d, AT_TABLE_SIZE) == TABLE_SIZE &&
           Word(d, AT_DATA) == DATA_OFFSET &&
           Word(d, AT_DATA_SIZE) == Word(d, AT_COUNT) * d[AT_STRIDE] &&
           Word(d, AT_PAYLOAD) == Word(d, AT_TABLE_SIZE) + Word(d, AT_DATA_SIZE) &&
           Word(d, AT_PAYLOAD) <= MAX_PAYLOAD &&
           Word(d, AT_FILE_SIZE) == Word(d, AT_DATA) + Word(d, AT_DATA_SIZE);
  }

  /** Segments in order that end at the header's end do not end later. */
  lemma {:induction false} PlacedWithin(t: Track, i: nat)
    requires i < |t.segments| && AllPlaced(t, |t.segments|) && Spans(t)
    ensures t.segments[i].startQf <= t.segments[i].endQf <= t.endQf
    decreases |t.segments| - i
  {
    assert Placed(t, i);
    if i + 1 < |t.segments| {
      assert Placed(t, i + 1);
      PlacedWithin(t, i + 1);
    }
  }

  /** A segment whose times pass the largest clock value has no place in a table that reaches the end. */
  lemma LateEntry(t: Track, i: nat)
    requires i < |t.segments| && t.endQf <= QF_MAX && (t.segments[i].startQf > QF_MAX || t.segments[i].endQf > QF_MAX)
    ensures !(AllPlaced(t, |t.segments|) && Spans(t))
  {
    if AllPlaced(t, |t.segments|) && Spans(t) {
      PlacedWithin(t, i);
    }
  }

  /** First pass: every segment's place, before any sample is read. The bound on each segment's times is one
      more test here; order and the header's own bound already imply it. */
  method ReadTable(d: seq<byte>) returns (ok: bool)
    requires Framed(d) && TimesOk(d) && Sized(d) && Described(d) && Holds(d) && Half(d, AT_SEGMENTS) > 0
    ensures ok == (AllPlaced(Install(d), Half(d, AT_SEGMENTS)) && Spans(Install(d)) && TableOk(d, d[AT_REGION]))
  {
    hide Install, Half, Word, SegmentAt, Described, Framed, TimesOk, Sized, Holds, RouteIn, ValidRoute, Portable,
        ReservedZero;
    ghost var t := Install(d);
    Installed(d);
    FramedSizes(d);
    EndBounded(d);
    var count := Half(d, AT_SEGMENTS);
    var unused := AllZero(d, TABLE_OFFSET + SEGMENT_SIZE * count, DATA_OFFSET);
    if !unused {
      return false;
    }
    var expected, previousEnd, lastStart := 0, 0, 0;
    for i := 0 to count
      invariant AllPlaced(t, i) && expected == EndBefore(t.segments, i) <= |t.samples|
      invariant forall j :: 0 <= j < i ==> EntryOk(d, j, d[AT_REGION])
      invariant i > 0 ==> previousEnd == t.segments[i - 1].endQf && lastStart == t.segments[i - 1].startQf
    {
      var seg := SegmentAt(d, i);
      if seg.firstSample != expected || seg.sampleCount < 1 || expected + seg.sampleCount > Word(d, AT_COUNT) ||
         seg.endQf < seg.startQf || (i > 0 && seg.startQf < previousEnd) {
        assert !Placed(t, i);
        return false;
      }
      if seg.startQf > QF_MAX || seg.endQf > QF_MAX {
        LateEntry(t, i);
        return false;
      }
      if !ValidRoute(seg.route) || !ReservedZero(d, i) {
        assert !EntryOk(d, i, d[AT_REGION]);
        return false;
      }
      expected, previousEnd, lastStart := expected + seg.sampleCount, seg.endQf, seg.startQf;
    }
    var first := SegmentAt(d, 0);
    return expected == Word(d, AT_COUNT) && first.startQf == Word(d, AT_START) && previousEnd == Word(d, AT_END) &&
           first.route == RouteIn(d, AT_ROUTE, AT_VARIANT) &&
           (Word(d, AT_RESULT) == RESULT_NONE || lastStart <= Word(d, AT_RESULT));
  }

  lemma EndBounded(d: seq<byte>)
    requires |d| >= HEADER_SIZE && TimesOk(d)
    ensures Word(d, AT_END) <= QF_MAX
  {
  }

  lemma FramedSizes(d: seq<byte>)
    requires Framed(d) && Sized(d) && Holds(d)
    ensures TABLE_OFFSET + SEGMENT_SIZE * Half(d, AT_SEGMENTS) <= DATA_OFFSET <= |d| && VersionOk(d)
  {
    hide TextsOk;
  }

  method ReadSamples(d: seq<byte>, i: nat) returns (ok: bool)
    requires Holds(d) && VersionOk(d) && Described(d) && i < Half(d, AT_SEGMENTS) && Placed(Install(d), i)
    ensures ok == Sampled(Install(d), i)
  {
    hide Install, Half, Word, SegmentAt, SampleAt, Described, Holds, VersionOk, AnimationId, Yoshi, Held;
    ghost var t := Install(d);
    Installed(d);
    CountsHold(d);
    VersionFacts(d);
    var seg := SegmentAt(d, i);
    var elapsed: int := 0;
    for j := 0 to seg.sampleCount
      invariant PosesOk(t, seg.firstSample, seg.firstSample + j)
      invariant j > 0 ==> t.samples[seg.firstSample].deltaQf == 0
      invariant forall k :: seg.firstSample < k < seg.firstSample + j ==>
                  t.samples[k].deltaQf >= if k + 1 == seg.EndSample() then 1 else INTERVAL_QF
      invariant elapsed == (if j == 0 then 0
                            else Elapsed(t.samples, seg.firstSample, seg.firstSample + j - 1))
                           <= seg.endQf - seg.startQf
    {
      Within(d, seg.firstSample + j);
      var s := SampleAt(d, seg.firstSample + j);
      var pose := ReadPose(d, s);
      if !pose {
        return false;
      }
      if j == 0 {
        if s.deltaQf != 0 {
          return false;
        }
      } else {
        var short := j + 1 == seg.sampleCount && 0 < s.deltaQf < INTERVAL_QF;
        if s.deltaQf < INTERVAL_QF && !short {
          assert !Spaced(t.samples, seg.firstSample, seg.EndSample());
          return false;
        }
        elapsed := elapsed + s.deltaQf;
      }
      if elapsed > seg.endQf - seg.startQf {
        ElapsedGrows(t.samples, seg.firstSample, seg.firstSample + j, seg.EndSample() - 1);
        return false;
      }
    }
    return elapsed == seg.endQf - seg.startQf;
  }

  lemma VersionFacts(d: seq<byte>)
    requires |d| >= HEADER_SIZE && VersionOk(d) && Described(d)
    ensures Half(d, AT_VERSION) == VERSION_3 ||
            (Half(d, AT_VERSION) == VERSION_4 && Half(d, AT_ATTACHMENT_FLAGS) <= OVERFLOW)
  {
    hide DescriptorOk;
  }

  method ReadPose(d: seq<byte>, s: Sample) returns (ok: bool)
    requires Holds(d) && VersionOk(d) && Described(d)
    ensures ok == PoseOk(s, Install(d).version, |Install(d).attachments|, Install(d).attachmentFlags)
  {
    hide Install, Half, Described, Holds, AnimationId, Yoshi, Held;
    Installed(d);
    CountsHold(d);
    VersionFacts(d);
    if Half(d, AT_VERSION) == VERSION_3 {
      if s.animation % 8 != 0 {
        return false;
      }
    } else {
      var held := Held(s);
      if Yoshi(s) > YOSHI_UNKNOWN ||
         !(held == 0 || held <= d[AT_ATTACHMENTS] || (held == HELD_UNKNOWN && Half(d, AT_ATTACHMENT_FLAGS) % 2 == 1)) {
        return false;
      }
    }
    return Magnitude(s.x) <= MAX_POSITION && Magnitude(s.y) <= MAX_POSITION && Magnitude(s.z) <= MAX_POSITION &&
           AnimationId(s) <= ANIMATION_ID_MAX;
  }

  function Magnitude(v: int): nat { if v < 0 then -v else v }

  /** Mirrors `validate_ghost`: the checks that do not depend on the running game. */
  method ValidateGhost(d: seq<byte>) returns (ok: bool)
    ensures ok == Canonical(d, if |d| >= HEADER_SIZE then d[AT_REGION] else 0)
  {
    hide Framed, Sized, Described, Summed, Chained, Holds, Half, Word, TableOk, Install, ValidRoute, RouteIn, Portable,
        TimesOk, Sum, VersionOk,
         AllPlaced, AllSampled, Spans;
    if |d| < HEADER_SIZE {
      Short(d);
      return false;
    }
    ghost var region: nat := d[AT_REGION];
    ChecksAreCanonical(d, region);
    HeaderRanges(d, region);
    if Half(d, AT_VERSION) != VERSION_3 && Half(d, AT_VERSION) != VERSION_4 {
      NoVersion(d);
      return false;
    }
    IsVersion(d);
    var framed := ReadFrame(d);
    if !framed {
      SumsNeeded(d);
      return false;
    }
    FrameFacts(d);
    var times := ReadTimes(d);
    if !times {
      SizedCounts(d);
      return false;
    }
    var payload := RangeSum(d, HEADER_SIZE, |d|, NO_GAP);
    assert d[HEADER_SIZE..|d|] == d[HEADER_SIZE..];
    if Word(d, AT_PAYLOAD_SUM) != payload {
      SumsNeeded(d);
      return false;
    }
    var described := ReadAttachments(d);
    if !described {
      return false;
    }
    var sized := ReadSizes(d);
    if !sized {
      return false;
    }
    SizedHolds(d);
    CountsHold(d);
    var table := RangeSum(d, TABLE_OFFSET, DATA_OFFSET, NO_GAP);
    SumsNeeded(d);
    if Word(d, AT_TABLE_SUM) != table {
      return false;
    }
    ok := ReadSegments(d);
  }

  method ReadSegments(d: seq<byte>) returns (ok: bool)
    requires Framed(d) && TimesOk(d) && Sized(d) && Described(d) && Holds(d) && Half(d, AT_SEGMENTS) > 0
    ensures ok == Chained(d, d[AT_REGION])
  {
    hide Framed, TimesOk, Sized, Described, Holds, Half, Word, TableOk, Install, Placed, Sampled, Spans;
    Installed(d);
    FramedSizes(d);
    var placed := ReadTable(d);
    if !placed {
      return false;
    }
    ghost var t := Install(d);
    for i := 0 to Half(d, AT_SEGMENTS)
      invariant AllSampled(t, i)
    {
      assert Placed(t, i);
      var fine := ReadSamples(d, i);
      if !fine {
        assert !Sampled(t, i);
        return false;
      }
    }
    return true;
  }

  lemma Short(d: seq<byte>)
    requires |d| < HEADER_SIZE
    ensures !Canonical(d, 0)
  {
  }

  lemma NoVersion(d: seq<byte>)
    requires |d| >= HEADER_SIZE && Half(d, AT_VERSION) != VERSION_3 && Half(d, AT_VERSION) != VERSION_4
    ensures !Framed(d) && !HeaderOk(d, d[AT_REGION])
  {
  }

  lemma IsVersion(d: seq<byte>)
    requires |d| >= HEADER_SIZE
    ensures VersionOk(d) <==> Half(d, AT_VERSION) == VERSION_3 || Half(d, AT_VERSION) == VERSION_4
  {
  }

  lemma SumsNeeded(d: seq<byte>)
    requires |d| >= HEADER_SIZE
    ensures Canonical(d, d[AT_REGION]) ==>
              && |d| >= DATA_OFFSET && Framed(d) && ValidRoute(RouteIn(d, AT_ROUTE, AT_VARIANT))
              && Word(d, AT_HEADER_SUM) == Sum(d[..HEADER_SIZE], Range(AT_FILE_SUM, AT_FILE_SUM + 8))
              && Word(d, AT_FILE_SUM) == Sum(d, Range(AT_FILE_SUM, AT_FILE_SUM + 4))
              && Word(d, AT_PAYLOAD_SUM) == Sum(d[HEADER_SIZE..], NO_GAP)
              && Word(d, AT_TABLE_SUM) == Sum(d[TABLE_OFFSET..DATA_OFFSET], NO_GAP)
    ensures |d| >= DATA_OFFSET ==> (Summed(d) <==>
              && Word(d, AT_HEADER_SUM) == Sum(d[..HEADER_SIZE], Range(AT_FILE_SUM, AT_FILE_SUM + 8))
              && Word(d, AT_FILE_SUM) == Sum(d, Range(AT_FILE_SUM, AT_FILE_SUM + 4))
              && Word(d, AT_PAYLOAD_SUM) == Sum(d[HEADER_SIZE..], NO_GAP)
              && Word(d, AT_TABLE_SUM) == Sum(d[TABLE_OFFSET..DATA_OFFSET], NO_GAP))
  {
    hide Framed, Described, Holds, Half, Word, TableOk, Install, Chained, Sum, Portable, TimesOk, Publishable;
    ChecksAreCanonical(d, d[AT_REGION]);
  }

  lemma FrameFacts(d: seq<byte>)
    requires Framed(d)
    ensures Word(d, AT_FILE_SIZE) == |d| && d[AT_STRIDE] == SAMPLE_SIZE && d[AT_REGION] < 3
  {
    hide TextsOk;
  }

  /** Mirrors `validate_imported_ghost`: a file from another region must keep to portable routes. */
  method ValidateImportedGhost(d: seq<byte>, running: nat) returns (ok: bool)
    requires running < 3
    ensures ok == Canonical(d, running)
  {
    hide Canonical, Half, Word, Portable, SegmentAt, Holds;
    var sound := ValidateGhost(d);
    if |d| < HEADER_SIZE {
      RegionOnly(d, running);
      return false;
    }
    RegionOnly(d, running);
    if !sound {
      return false;
    }
    CanonicalSizes(d, d[AT_REGION]);
    if d[AT_REGION] != running {
      for i := 0 to Half(d, AT_SEGMENTS)
        invariant forall j :: 0 <= j < i ==> Portable(SegmentAt(d, j).route)
      {
        if !Portable(SegmentAt(d, i).route) {
          return false;
        }
      }
    }
    return true;
  }

  lemma CanonicalSizes(d: seq<byte>, running: nat)
    requires Canonical(d, running)
    ensures Holds(d) && TABLE_OFFSET + SEGMENT_SIZE * Half(d, AT_SEGMENTS) <= DATA_OFFSET <= |d|
  {
    hide Framed, Sized, Described, Summed, TableOk, Publishable, Install, ResultOk;
  }

  /** The running game matters only to the portability of a foreign file's routes. */
  lemma RegionOnly(d: seq<byte>, running: nat)
    ensures |d| < HEADER_SIZE ==> !Canonical(d, running)
    ensures |d| >= HEADER_SIZE && Canonical(d, running) ==> Canonical(d, d[AT_REGION])
    ensures |d| >= HEADER_SIZE && Canonical(d, d[AT_REGION]) ==>
              && Holds(d) && TABLE_OFFSET + SEGMENT_SIZE * Half(d, AT_SEGMENTS) <= DATA_OFFSET <= |d|
              && (Canonical(d, running) <==>
                    || d[AT_REGION] == running
                    || forall i :: 0 <= i < Half(d, AT_SEGMENTS) ==> Portable(SegmentAt(d, i).route))
  {
    hide Sized, Described, Summed, Publishable, Install, ResultOk, Portable, ValidRoute, ReservedZero, SegmentAt, Half,
        Word, TextsOk, VersionOk;
    if |d| >= HEADER_SIZE && Canonical(d, running) {
      forall i | 0 <= i < Half(d, AT_SEGMENTS)
        ensures EntryOk(d, i, d[AT_REGION])
      {
        assert EntryOk(d, i, running);
      }
    }
    if |d| >= HEADER_SIZE && Canonical(d, d[AT_REGION]) {
      CanonicalSizes(d, d[AT_REGION]);
      forall i | 0 <= i < Half(d, AT_SEGMENTS)
        ensures EntryOk(d, i, running) <==> d[AT_REGION] == running || Portable(SegmentAt(d, i).route)
      {
        assert EntryOk(d, i, d[AT_REGION]);
      }
    }
  }
}
