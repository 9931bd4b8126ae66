/** The console's validator, in wrapping 32-bit arithmetic with subtract-first guards: it accepts exactly
    the canonical files. */
module GhostConsole {
  import opened Bytes
  import Crc32
  import opened GhostTrack
  import opened GhostCapture
  import opened GhostLayout
  import opened GhostFile

  // ---- wrapping arithmetic --------------------------------------------------------------------

  function Wrap(n: int): u32 { n % 0x1_0000_0000 }

  function Add32(a: u32, b: u32): (r: u32)
    ensures a + b < 0x1_0000_0000 ==> r == a + b
  {
    Wrap(a + b)
  }

  function Sub32(a: u32, b: u32): (r: u32)
    ensures b <= a ==> r == a - b
  {
    Wrap(a - b)
  }

  function Mul32(a: u32, b: u32): (r: u32)
    ensures a * b < 0x1_0000_0000 ==> r == a * b
  {
    Wrap(a * b)
  }

  // ---- the checks -----------------------------------------------------------------------------

  method ValidText(d: seq<byte>, at: nat, capacity: nat, length: nat, required: bool) returns (ok: bool)
    requires at + capacity <= |d|
    ensures ok == TextOk(d, at, capacity, length, required)
  {
    if length > capacity || (required && length == 0) {
      return false;
    }
    for i := 0 to capacity
      invariant forall k :: at <= k < at + i ==> if k < at + length then Printable(d[k]) else d[k] == 0
    {
      var c := d[at + i];
      if i < length {
        if c < 0x20 || c > 0x7E || c == 0x2F || c == 0x5C {
          return false;
        }
      } else if c != 0 {
        return false;
      }
    }
    return true;
  }

  method CheckHeader(d: seq<byte>, running: nat) returns (ok: bool)
    requires HEADER_SIZE <= |d| <= MAX_FILE && running < 3
    ensures ok == (HeaderOk(d, running) && MIN_SAMPLES <= Word(d, AT_COUNT) <= MAX_SAMPLES)
  {
    hide Portable, ValidRoute, TextOk, Word, Half, RouteIn;
    var version := Half(d, AT_VERSION);
    var v4 := version == VERSION_4;
    if version != VERSION_3 && !v4 {
      return false;
    }
    var features, start, end, duration := Word(d, AT_FEATURES), Word(d, AT_START), Word(d, AT_END),
        Word(d, AT_DURATION);
    var route, result := RouteIn(d, AT_ROUTE, AT_VARIANT), Word(d, AT_RESULT);
    var foreign := Word(d, AT_GAME) != GameOf(running) || d[AT_REGION] != running;
    if Word(d, 0) != MAGIC || Half(d, AT_HEADER_SIZE) != HEADER_SIZE || Word(d, AT_FILE_SIZE) != |d| ||
       d[AT_CHECKSUM_KIND] != CRC32_KIND || (if v4 then features / 2 != 0 || features != 1 else features != 0) ||
       d[AT_REGION] >= 3 || Word(d, AT_GAME) != GameOf(d[AT_REGION]) || d[AT_REVISION] != 0 ||
       d[AT_PROFILE] >= PROFILES ||
       d[AT_MODE] != POSE_MODE || d[AT_CODEC] != (if v4 then 1 else 0) || d[AT_STRIDE] != SAMPLE_SIZE ||
       Half(d, AT_INTERVAL) != INTERVAL_QF || !ValidRoute(route) || (foreign && !Portable(route)) ||
       Word(d, AT_COUNT) < MIN_SAMPLES || Word(d, AT_COUNT) > MAX_SAMPLES {
      return false;
    }
    if start > QF_MAX || end > QF_MAX || end < start || duration != Sub32(end, start) || duration == 0 ||
       duration > MAX_DURATION_QF || (result != RESULT_NONE && (result < start || result > end)) ||
       (Word(d, AT_ID_HIGH) == 0 && Word(d, AT_ID_LOW) == 0) {
      return false;
    }
    var author := ValidText(d, AT_AUTHOR, AUTHOR_SIZE, d[AT_AUTHOR_LENGTH], false);
    var name := ValidText(d, AT_NAME, NAME_SIZE, d[AT_NAME_LENGTH], true);
    var profile := ValidText(d, AT_PROFILE_NAME, PROFILE_NAME_SIZE, d[AT_PROFILE_LENGTH], false);
    return author && name && profile;
  }

  method CheckSizes(d: seq<byte>) returns (ok: bool)
    requires HEADER_SIZE <= |d| <= MAX_FILE && Word(d, AT_FILE_SIZE) == |d|
    requires MIN_SAMPLES <= Word(d, AT_COUNT) <= MAX_SAMPLES
    ensures ok == Sized(d)
  {
    hide Word, Half;
    var size := Mul32(Word(d, AT_COUNT), SAMPLE_SIZE);
    return !(Half(d, AT_SEGMENTS) == 0 || Half(d, AT_SEGMENTS) > MAX_SEGMENTS ||
             Half(d, AT_SEGMENT_SIZE) != SEGMENT_SIZE ||
             Word(d, AT_TABLE) != TABLE_OFFSET || Word(d, AT_TABLE_SIZE) != TABLE_SIZE ||
             Word(d, AT_DATA) != DATA_OFFSET ||
             Word(d, AT_DATA_SIZE) != size || Word(d, AT_PAYLOAD) != Add32(TABLE_SIZE, size) ||
             Word(d, AT_FILE_SIZE) != Add32(Word(d, AT_DATA), size));
  }

  lemma JoinInjective(a3: byte, a2: byte, a1: byte, a0: byte, b3: byte, b2: byte, b1: byte, b0: byte)
    ensures Join(a3, a2, a1, a0) == Join(b3, b2, b1, b0) <==> a3 == b3 && a2 == b2 && a1 == b1 && a0 == b0
  {
    hide Digit;
    DigitsJoin(a3, a2, a1, a0);
    DigitsJoin(b3, b2, b1, b0);
  }

  /** Equal bytes, equal descriptors: the comparison may be done on either. */
  lemma DescriptorBytes(d: seq<byte>, i: nat, j: nat)
    requires |d| >= HEADER_SIZE && i < MAX_ATTACHMENTS && j < MAX_ATTACHMENTS
    ensures var p, q := AT_DESCRIPTORS + DESCRIPTOR_SIZE * i, AT_DESCRIPTORS + DESCRIPTOR_SIZE * j;
            && (d[p..p + DESCRIPTOR_SIZE] == d[q..q + DESCRIPTOR_SIZE] <==> DescriptorAt(d, i) == DescriptorAt(d, j))
            && (ZeroBytes(d, p, p + DESCRIPTOR_SIZE) <==> DescriptorAt(d, i) == Attachment(0, 0))
  {
    hide Digit, Join;
    var p, q := AT_DESCRIPTORS + DESCRIPTOR_SIZE * i, AT_DESCRIPTORS + DESCRIPTOR_SIZE * j;
    JoinInjective(d[p], d[p + 1], d[p + 2], d[p + 3], d[q], d[q + 1], d[q + 2], d[q + 3]);
    JoinInjective(0, 0, d[p + 4], d[p + 5], 0, 0, d[q + 4], d[q + 5]);
    JoinInjective(d[p], d[p + 1], d[p + 2], d[p + 3], 0, 0, 0, 0);
    JoinInjective(0, 0, d[p + 4], d[p + 5], 0, 0, 0, 0);
    JoinZero();
    SixEqual(d, p, q);
    SixZero(d, p);
  }

  lemma JoinZero()
    ensures Join(0, 0, 0, 0) == 0
  {
  }

  lemma SixZero(d: seq<byte>, p: nat)
    requires p + 6 <= |d|
    ensures ZeroBytes(d, p, p + 6) <==>
              d[p] == 0 && d[p + 1] == 0 && d[p + 2] == 0 && d[p + 3] == 0 && d[p + 4] == 0 && d[p + 5] == 0
  {
    if !ZeroBytes(d, p, p + 6) {
      var k :| p <= k < p + 6 && d[k] != 0;
      assert k == p || k == p + 1 || k == p + 2 || k == p + 3 || k == p + 4 || k == p + 5;
    }
  }

  lemma SixEqual(d: seq<byte>, p: nat, q: nat)
    requires p + 6 <= |d| && q + 6 <= |d|
    ensures d[p..p + 6] == d[q..q + 6] <==>
              d[p] == d[q] && d[p + 1] == d[q + 1] && d[p + 2] == d[q + 2] && d[p + 3] == d[q + 3] &&
              d[p + 4] == d[q + 4] && d[p + 5] == d[q + 5]
  {
    var a, b := d[p..p + 6], d[q..q + 6];
    if a == b {
      assert a[0] == b[0] && a[1] == b[1] && a[2] == b[2] && a[3] == b[3] && a[4] == b[4] && a[5] == b[5];
    }
  }

  method AllZero(d: seq<byte>, from: nat, to: nat) returns (ok: bool)
    requires from <= to <= |d|
    ensures ok == ZeroBytes(d, from, to)
  {
    for i := from to to
      invariant ZeroBytes(d, from, i)
    {
      if d[i] != 0 {
        return false;
      }
    }
    return true;
  }

  method CheckAttachments(d: seq<byte>) returns (ok: bool)
    requires |d| >= HEADER_SIZE && VersionOk(d)
    ensures ok == Described(d)
  {
    hide DescriptorAt, Half, Digit;
    if Half(d, AT_VERSION) == VERSION_3 {
      ok := AllZero(d, AT_ATTACHMENTS, HEADER_SIZE);
      return;
    }
    if d[AT_ATTACHMENTS] > MAX_ATTACHMENTS || d[AT_ATTACHMENT_SIZE] != DESCRIPTOR_SIZE ||
       Half(d, AT_ATTACHMENT_FLAGS) > OVERFLOW || Half(d, AT_ATTACHMENT_RESERVED) != 0 {
      return false;
    }
    for i := 0 to MAX_ATTACHMENTS
      invariant forall k :: 0 <= k < i ==> DescriptorOk(d, k)
    {
      var at := AT_DESCRIPTORS + DESCRIPTOR_SIZE * i;
      var zero := AllZero(d, at, at + DESCRIPTOR_SIZE);
      DescriptorBytes(d, i, i);
      if (i < d[AT_ATTACHMENTS]) == zero {
        assert !DescriptorOk(d, i);
        return false;
      }
      if i < d[AT_ATTACHMENTS] {
        for prior := 0 to i
          invariant forall k :: 0 <= k < prior ==> DescriptorAt(d, k) != DescriptorAt(d, i)
        {
          var other := AT_DESCRIPTORS + DESCRIPTOR_SIZE * prior;
          DescriptorBytes(d, prior, i);
          if d[other..other + DESCRIPTOR_SIZE] == d[at..at + DESCRIPTOR_SIZE] {
            assert !DescriptorOk(d, i);
            return false;
          }
        }
      }
    }
    return true;
  }

  method CheckSums(d: seq<byte>) returns (ok: bool)
    requires |d| >= DATA_OFFSET
    ensures ok == Summed(d)
  {
    hide Word;
    var table := Crc32.NibbleCrc(d[TABLE_OFFSET..DATA_OFFSET], 0, 0);
    if Word(d, AT_TABLE_SUM) != table as int {
      return false;
    }
    var header := Crc32.NibbleCrc(d[..HEADER_SIZE], AT_FILE_SUM, 8);
    var whole := Crc32.NibbleCrc(d, AT_FILE_SUM, 4);
    var payload := Crc32.NibbleCrc(d[HEADER_SIZE..], 0, 0);
    return Word(d, AT_HEADER_SUM) == header as int && Word(d, AT_FILE_SUM) == whole as int &&
        Word(d, AT_PAYLOAD_SUM) == payload as int;
  }

  /** The samples of a placed segment, in one pass that never lets the running sum pass the duration. */
  method CheckSamples(d: seq<byte>, i: nat) returns (ok: bool)
    requires Holds(d) && VersionOk(d) && Described(d) && i < Half(d, AT_SEGMENTS) && Placed(Install(d), i)
    ensures ok == Sampled(Install(d), i)
  {
    hide Install, Half, Word, SegmentAt, SampleAt, PoseOk, Described, VersionOk, Holds, AnimationOk;
    ghost var t := Install(d);
    Installed(d);
    CountsHold(d);
    var version, count, flags := Half(d, AT_VERSION), 0, 0;
    if version == VERSION_4 {
      count, flags := d[AT_ATTACHMENTS] as nat, Half(d, AT_ATTACHMENT_FLAGS);
    }
    var seg := SegmentAt(d, i);
    var duration := Sub32(seg.endQf, seg.startQf);
    var elapsed: u32 := 0;
    for j := 0 to seg.sampleCount
      invariant PosesOk(t, seg.firstSample, seg.firstSample + j)
      invariant j > 0 ==> t.samples[seg.firstSample].deltaQf == 0
      invariant forall k :: seg.firstSample < k < seg.firstSample + j ==>
                  t.samples[k].deltaQf >= if k + 1 == seg.EndSample() then 1 else INTERVAL_QF
      invariant elapsed == (if j == 0 then 0
                            else Elapsed(t.samples, seg.firstSample, seg.firstSample + j - 1)) <= duration
    {
      Within(d, seg.firstSample + j);
      var sample := SampleAt(d, seg.firstSample + j);
      if !PoseOk(sample, version, count, flags) {
        return false;
      }
      if j == 0 {
        if sample.deltaQf != 0 {
          return false;
        }
      } else {
        var terminalShort := j + 1 == seg.sampleCount;
        if sample.deltaQf == 0 || (sample.deltaQf < INTERVAL_QF && !terminalShort) {
          assert !Spaced(t.samples, seg.firstSample, seg.EndSample());
          return false;
        }
        if elapsed > duration || sample.deltaQf > Sub32(duration, elapsed) {
          ElapsedGrows(t.samples, seg.firstSample, seg.firstSample + j, seg.EndSample() - 1);
          return false;
        }
        elapsed := Add32(elapsed, sample.deltaQf);
      }
    }
    return elapsed == Sub32(seg.endQf, seg.startQf);
  }

  lemma Within(d: seq<byte>, k: nat)
    requires Holds(d) && k < Word(d, AT_COUNT)
    ensures DATA_OFFSET + SAMPLE_SIZE * (k + 1) <= |d|
  {
  }

  lemma CountsHold(d: seq<byte>)
    requires Holds(d) && VersionOk(d)
    ensures var t := Install(d);
            && |t.attachments| == (if t.version == VERSION_4 then d[AT_ATTACHMENTS] as nat else 0)
            && t.attachmentFlags == (if t.version == VERSION_4 then Half(d, AT_ATTACHMENT_FLAGS) else 0)
            && TABLE_OFFSET + SEGMENT_SIZE * Half(d, AT_SEGMENTS) <= DATA_OFFSET <= |d|
  {
    hide Samples, Segments, Word, Half;
  }

  /** What the checks on the first `m` entries have established. */
  ghost predicate Checked(d: seq<byte>, running: nat, m: nat)
    requires Holds(d) && m <= Half(d, AT_SEGMENTS)
  {
    var t := Install(d);
    && AllPlaced(t, m) && AllSampled(t, m) && (forall j :: 0 <= j < m ==> EntryOk(d, j, running))
    && (m > 0 ==> t.segments[0].route == t.route && t.segments[0].startQf == t.startQf)
  }

  method CheckEntry(d: seq<byte>, running: nat, i: nat, covered: u32, priorEnd: u32) returns (ok: bool)
    requires HeaderOk(d, running) && Sized(d) && Described(d) && Holds(d) && i < Half(d, AT_SEGMENTS)
    requires covered == EndBefore(Install(d).segments, i) <= |Install(d).samples|
    requires i > 0 ==> priorEnd == Install(d).segments[i - 1].endQf
    ensures ok == (Placed(Install(d), i) && Sampled(Install(d), i) && EntryOk(d, i, running)
                   && (i == 0 ==>
                         && Install(d).segments[0].route == Install(d).route
                         && Install(d).segments[0].startQf == Install(d).startQf))
  {
    hide Install, Half, Word, SegmentAt, Described, ValidRoute, Portable, PosesOk, SegmentOk, RouteIn, TextsOk, TimesOk,
        Holds, ReservedZero;
    ghost var t := Install(d);
    Installed(d);
    CountsHold(d);
    var seg := SegmentAt(d, i);
    if seg.firstSample != covered || seg.sampleCount == 0 || seg.sampleCount > Sub32(Word(d, AT_COUNT), covered) ||
       seg.startQf > seg.endQf || (i != 0 && seg.startQf < priorEnd) || !ReservedZero(d, i) || !ValidRoute(seg.route) ||
       (d[AT_REGION] != running && !Portable(seg.route)) {
      return false;
    }
    if i == 0 && (seg.route != RouteIn(d, AT_ROUTE, AT_VARIANT) || seg.startQf != Word(d, AT_START)) {
      return false;
    }
    ok := CheckSamples(d, i);
  }

  method CheckSegments(d: seq<byte>, running: nat) returns (ok: bool)
    requires HeaderOk(d, running) && Sized(d) && Described(d) && Holds(d) && Half(d, AT_SEGMENTS) > 0
    ensures ok == Chained(d, running)
  {
    hide Install, Half, Word, SegmentAt, Described, Placed, Sampled, RouteIn, EntryOk, HeaderOk, Sized, Holds;
    ghost var t := Install(d);
    HeaderFrames(d, running);
    Installed(d);
    CountsHold(d);
    var count := Half(d, AT_SEGMENTS);
    var covered, priorEnd, finalStart := 0, 0, 0;
    for i := 0 to MAX_SEGMENTS
      invariant Checked(d, running, Least(i, count))
      invariant covered == EndBefore(t.segments, Least(i, count)) <= |t.samples|
      invariant i > 0 ==>
                  && priorEnd == t.segments[Least(i, count) - 1].endQf
                  && finalStart == t.segments[Least(i, count) - 1].startQf
      invariant i > count ==> ZeroBytes(d, TABLE_OFFSET + SEGMENT_SIZE * count, TABLE_OFFSET + SEGMENT_SIZE * i)
    {
      if i >= count {
        var at := TABLE_OFFSET + SEGMENT_SIZE * i;
        var zero := AllZero(d, at, at + SEGMENT_SIZE);
        if !zero {
          UnusedNonZero(d, running, i);
          return false;
        }
      } else {
        var fine := CheckEntry(d, running, i, covered, priorEnd);
        if !fine {
          BrokenEntry(d, running, i);
          return false;
        }
        PlacedEnds(t, i);
        var seg := SegmentAt(d, i);
        covered, priorEnd, finalStart := Add32(covered, seg.sampleCount), seg.endQf, seg.startQf;
      }
    }
    return covered == Word(d, AT_COUNT) && priorEnd == Word(d, AT_END) &&
           (Word(d, AT_RESULT) == RESULT_NONE || Word(d, AT_RESULT) >= finalStart);
  }

  function Least(a: nat, b: nat): nat { if a < b then a else b }

  lemma HeaderFrames(d: seq<byte>, running: nat)
    requires HeaderOk(d, running)
    ensures HEADER_SIZE <= |d| <= MAX_FILE && VersionOk(d)
  {
  }

  lemma PlacedEnds(t: Track, i: nat)
    requires i < |t.segments| && Placed(t, i)
    ensures EndBefore(t.segments, i + 1) == EndBefore(t.segments, i) + t.segments[i].sampleCount <= |t.samples|
  {
  }

  lemma BrokenEntry(d: seq<byte>, running: nat, i: nat)
    requires Holds(d) && i < Half(d, AT_SEGMENTS)
    requires !(Placed(Install(d), i) && Sampled(Install(d), i) && EntryOk(d, i, running)
               && (i == 0 ==>
                     && Install(d).segments[0].route == Install(d).route
                     && Install(d).segments[0].startQf == Install(d).startQf))
    ensures !Chained(d, running)
  {
    hide Install, Placed, Sampled, EntryOk, Half;
    Installed(d);
  }

  lemma UnusedNonZero(d: seq<byte>, running: nat, i: nat)
    requires Holds(d) && 0 < Half(d, AT_SEGMENTS) <= i < MAX_SEGMENTS && |d| >= DATA_OFFSET
    requires !ZeroBytes(d, TABLE_OFFSET + SEGMENT_SIZE * i, TABLE_OFFSET + SEGMENT_SIZE * i + SEGMENT_SIZE)
    ensures !Chained(d, running)
  {
    hide Install, AllPlaced, AllSampled, Spans, EntryOk, Half;
  }

  /** Mirrors `validCanonicalFile` for a file whose size fits a word. */
  method ValidCanonicalFile(d: seq<byte>, running: nat) returns (ok: bool)
    requires |d| < 0x1_0000_0000 && running < 3
    ensures ok == Canonical(d, running)
  {
    hide HeaderOk, Sized, Described, Summed, Chained, Holds, Half, Word, TableOk, Install;
    ChecksAreCanonical(d, running);
    HeaderRanges(d, running);
    if |d| < HEADER_SIZE || |d| > MAX_FILE {
      return false;
    }
    var header := CheckHeader(d, running);
    if !header {
      SizedCounts(d);
      return false;
    }
    var sized := CheckSizes(d);
    if !sized {
      return false;
    }
    var described := CheckAttachments(d);
    if !described {
      return false;
    }
    SizedHolds(d);
    CountsHold(d);
    var summed := CheckSums(d);
    if !summed {
      return false;
    }
    ok := CheckSegments(d, running);
  }

  lemma SizedCounts(d: seq<byte>)
    requires |d| >= HEADER_SIZE
    ensures Sized(d) ==> MIN_SAMPLES <= Word(d, AT_COUNT) <= MAX_SAMPLES
  {
  }

  lemma HeaderRanges(d: seq<byte>, running: nat)
    ensures HeaderOk(d, running) ==> HEADER_SIZE <= |d| <= MAX_FILE && VersionOk(d) && Word(d, AT_FILE_SIZE) == |d|
  {
    hide TimesOk, ValidRoute, Portable, TextsOk, Word, Half;
  }
}
