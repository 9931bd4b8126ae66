/** Exporting a track: the bytes written, why the self-check accepts them, and what an import of them
    gives back. */
module GhostExport {
  import opened Bytes
  import opened GhostTrack
  import opened GhostCapture
  import opened GhostLayout
  import opened GhostFile
  import opened GhostConsole

  // ---- runs of fixed-size pieces --------------------------------------------------------------

  predicate Even(pieces: seq<seq<byte>>, size: nat) {
    forall i :: 0 <= i < |pieces| ==> |pieces[i]| == size
  }

  function Flat(pieces: seq<seq<byte>>): seq<byte> {
    if pieces == [] then [] else Flat(pieces[..|pieces| - 1]) + pieces[|pieces| - 1]
  }

  lemma Times(size: nat, n: nat)
    ensures n > 0 ==> size * n == size * (n - 1) + size
    ensures size * n >= 0
  {
  }

  lemma TimesLeast(size: nat, i: nat, n: nat)
    requires i < n
    ensures size * i + size <= size * n
  {
    assert size * n == size * (i + 1) + size * (n - i - 1);
  }

  /** Piece `i` stands at `size * i`. */
  lemma {:induction false} FlatAt(pieces: seq<seq<byte>>, size: nat)
    requires Even(pieces, size)
    ensures |Flat(pieces)| == size * |pieces|
    ensures forall i :: 0 <= i < |pieces| ==>
              0 <= size * i <= size * i + size <= |Flat(pieces)| && Flat(pieces)[size * i..size * i + size] == pieces[i]
    decreases |pieces|
  {
    var n := |pieces|;
    if n > 0 {
      var front := pieces[..n - 1];
      FlatAt(front, size);
      Times(size, n);
      var all, head := Flat(pieces), Flat(front);
      forall i | 0 <= i < n
        ensures 0 <= size * i <= size * i + size <= |all| && all[size * i..size * i + size] == pieces[i]
      {
        Times(size, i);
        if i < n - 1 {
          TimesLeast(size, i, n - 1);
          assert front[i] == pieces[i];
          assert head[size * i..size * i + size] == pieces[i];
        }
      }
    }
  }

  // ---- the file -------------------------------------------------------------------------------

  /** What is written beside the track. */
  datatype Stamp = Stamp(region: byte, profile: byte, idHigh: u32, idLow: u32, name: seq<byte>, profileName: seq<byte>)

  predicate AllPrintable(text: seq<byte>) {
    forall i :: 0 <= i < |text| ==> Printable(text[i])
  }

  predicate StampOk(s: Stamp) {
    && s.region < 3 && s.profile < PROFILES && (s.idHigh != 0 || s.idLow != 0)
    && 0 < |s.name| <= NAME_SIZE && AllPrintable(s.name) && |s.profileName| <= PROFILE_NAME_SIZE
    && AllPrintable(s.profileName)
  }

  /** What the exporter's own guards establish: enough to write the bytes. */
  predicate Writable(t: Track) {
    && 0 < |t.segments| <= MAX_SEGMENTS && MIN_SAMPLES <= |t.samples| <= MAX_SAMPLES && t.version == VERSION_4
    && |t.attachments| <= MAX_ATTACHMENTS && t.attachmentFlags <= OVERFLOW && t.startQf <= t.endQf
  }

  predicate RoutesValid(t: Track) {
    forall i :: 0 <= i < |t.segments| ==> ValidRoute(t.segments[i].route)
  }

  function Padded(text: seq<byte>, capacity: nat): (b: seq<byte>)
    requires |text| <= capacity
    ensures |b| == capacity
  {
    text + Zeros(capacity - |text|)
  }

  function WordPieces(words: seq<u32>): (p: seq<seq<byte>>)
    ensures |p| == |words| && Even(p, 4)
  {
    seq(|words|, i requires 0 <= i < |words| => PutBE32(words[i]))
  }

  function Spell(words: seq<u32>): seq<byte> { Flat(WordPieces(words)) }

  function SamplePieces(samples: seq<Sample>): (p: seq<seq<byte>>)
    ensures |p| == |samples| && Even(p, SAMPLE_SIZE)
  {
    seq(|samples|, i requires 0 <= i < |samples| => SampleBytes(samples[i]))
  }

  function SampleRun(samples: seq<Sample>): seq<byte> { Flat(SamplePieces(samples)) }

  function SegmentRunPieces(segments: seq<Segment>): (p: seq<seq<byte>>)
    ensures |p| == |segments| && Even(p, SEGMENT_SIZE)
  {
    seq(|segments|, i requires 0 <= i < |segments| => SegmentBytes(segments[i]))
  }

  function SegmentRun(segments: seq<Segment>): seq<byte> { Flat(SegmentRunPieces(segments)) }

  function DescriptorSpelling(a: Attachment): (b: seq<byte>)
    ensures |b| == DESCRIPTOR_SIZE
  {
    PutBE32(a.objectId) + PutBE16(a.nameKey)
  }

  function DescriptorPieces(attachments: seq<Attachment>): (p: seq<seq<byte>>)
    ensures |p| == |attachments| && Even(p, DESCRIPTOR_SIZE)
  {
    seq(|attachments|, i requires 0 <= i < |attachments| => DescriptorSpelling(attachments[i]))
  }

  function DescriptorRun(attachments: seq<Attachment>): seq<byte> { Flat(DescriptorPieces(attachments)) }

  function Table(t: Track): seq<byte>
    requires |t.segments| <= MAX_SEGMENTS
  {
    TableLength(t.segments);
    Padded(SegmentRun(t.segments), TABLE_SIZE)
  }

  lemma TableLength(segments: seq<Segment>)
    ensures |SegmentRun(segments)| == SEGMENT_SIZE * |segments|
  {
    FlatAt(SegmentRunPieces(segments), SEGMENT_SIZE);
  }

  lemma DescriptorLength(attachments: seq<Attachment>)
    ensures |DescriptorRun(attachments)| == DESCRIPTOR_SIZE * |attachments|
  {
    FlatAt(DescriptorPieces(attachments), DESCRIPTOR_SIZE);
  }

  lemma SampleLength(samples: seq<Sample>)
    ensures |SampleRun(samples)| == SAMPLE_SIZE * |samples|
  {
    FlatAt(SamplePieces(samples), SAMPLE_SIZE);
  }

  lemma SpellLength(words: seq<u32>)
    ensures |Spell(words)| == 4 * |words|
  {
    FlatAt(WordPieces(words), 4);
  }

  function Four(a: byte, b: byte, c: byte, d: byte): u32 {
    DigitsJoin(a, b, c, d);
    Join(a, b, c, d)
  }

  function DataSize(t: Track): u32
    requires |t.samples| <= MAX_SAMPLES
  {
    SAMPLE_SIZE * |t.samples|
  }

  /** The first 96 bytes, as words. */
  function FrontWords(t: Track, s: Stamp, fileSum: u32, headerSum: u32, payloadSum: u32): (w: seq<u32>)
    requires Writable(t) && StampOk(s)
    ensures |w| == 24
  {
    [MAGIC, Four(0, VERSION_4, 1, 0), DATA_OFFSET + DataSize(t), fileSum, headerSum, payloadSum, 1, t.runFlags,
     GameOf(s.region), Four(0, s.region, s.profile, POSE_MODE), Four(1, SAMPLE_SIZE, 0, INTERVAL_QF),
     Four(t.route.area, t.route.episode, t.route.parentArea, t.route.flags), Unsigned(t.route.variant, 0x1_0000_0000),
     if t.completed then t.resultQf else RESULT_NONE, t.startQf, t.endQf, t.endQf - t.startQf, |t.samples|,
     TABLE_SIZE + DataSize(t), 0, 0, s.idHigh, s.idLow, Four(0, |s.name|, |s.profileName|, CRC32_KIND)]
  }

  function Texts(s: Stamp): (b: seq<byte>)
    requires StampOk(s)
    ensures |b| == 88
  {
    Padded([], AUTHOR_SIZE) + Padded(s.name, NAME_SIZE) + Padded(s.profileName, PROFILE_NAME_SIZE)
  }

  /** The words of the extension. */
  function ExtensionWords(t: Track, tableSum: u32): (w: seq<u32>)
    requires Writable(t)
    ensures |w| == 7
  {
    [Four(0, |t.segments|, 0, SEGMENT_SIZE), TABLE_OFFSET, TABLE_SIZE, DATA_OFFSET, DataSize(t), tableSum,
     Four(|t.attachments|, DESCRIPTOR_SIZE, 0, t.attachmentFlags)]
  }

  function DescriptorTable(t: Track): (b: seq<byte>)
    requires Writable(t)
    ensures |b| == 44
  {
    DescriptorLength(t.attachments);
    [0, 0] + Padded(DescriptorRun(t.attachments), DESCRIPTOR_SIZE * MAX_ATTACHMENTS)
  }

  function Payload(t: Track): seq<byte>
    requires Writable(t)
  {
    Table(t) + SampleRun(t.samples)
  }

  function Head(t: Track, s: Stamp, fileSum: u32, headerSum: u32): (b: seq<byte>)
    requires Writable(t) && StampOk(s)
    ensures |b| == HEADER_SIZE
  {
    var front := FrontWords(t, s, fileSum, headerSum, Sum(Payload(t), NO_GAP));
    var extension := ExtensionWords(t, Sum(Table(t), NO_GAP));
    SpellLength(front);
    SpellLength(extension);
    Spell(front) + Texts(s) + Spell(extension) + DescriptorTable(t)
  }

  /** Mirrors the byte building of `exportLatest`: each checksum is taken with its own field zero. */
  function Exported(t: Track, s: Stamp): seq<byte>
    requires Writable(t) && StampOk(s)
  {
    var headerSum := Sum(Head(t, s, 0, 0), Range(AT_FILE_SUM, AT_FILE_SUM + 8));
    var fileSum := Sum(Head(t, s, 0, headerSum) + Payload(t), Range(AT_FILE_SUM, AT_FILE_SUM + 4));
    Head(t, s, fileSum, headerSum) + Payload(t)
  }

  // ---- reading back the header ----------------------------------------------------------------

  lemma WritableBounds(t: Track)
    requires Writable(t)
    ensures 0 < |t.segments| <= MAX_SEGMENTS && |t.attachments| <= MAX_ATTACHMENTS && t.attachmentFlags <= OVERFLOW
    ensures MIN_SAMPLES <= |t.samples| <= MAX_SAMPLES && t.version == VERSION_4
  {
  }

  lemma WordOfSpell(d: seq<byte>, at: nat, words: seq<u32>, k: nat)
    requires k < |words| && at + 4 * |words| <= |d| && d[at..at + 4 * |words|] == Spell(words)
    ensures Word(d, at + 4 * k) == words[k]
  {
    hide PutBE32, Word, Flat;
    var pieces := WordPieces(words);
    FlatAt(pieces, 4);
    SubSlice(d, at, 4 * |words|, 4 * k, 4 * k + 4);
    assert Flat(pieces)[4 * k..4 * k + 4] == pieces[k];
    WordAt(d, at + 4 * k, words[k]);
  }

  lemma PackedWord(d: seq<byte>, at: nat, a: byte, b: byte, c: byte, e: byte)
    requires at + 4 <= |d| && Word(d, at) == Four(a, b, c, e)
    ensures d[at] == a && d[at + 1] == b && d[at + 2] == c && d[at + 3] == e
  {
    JoinInjective(d[at], d[at + 1], d[at + 2], d[at + 3], a, b, c, e);
  }

  /** `d` begins with the header of `t`. */
  predicate Headed(d: seq<byte>, t: Track, s: Stamp, fileSum: u32, headerSum: u32)
    requires Writable(t) && StampOk(s)
  {
    HEADER_SIZE <= |d| && d[..HEADER_SIZE] == Head(t, s, fileSum, headerSum)
  }

  lemma HeadPieces(d: seq<byte>, t: Track, s: Stamp, fileSum: u32, headerSum: u32)
    requires Writable(t) && StampOk(s) && |d| >= HEADER_SIZE && Headed(d, t, s, fileSum, headerSum)
    ensures d[0..96] == Spell(FrontWords(t, s, fileSum, headerSum, Sum(Payload(t), NO_GAP)))
    ensures d[96..184] == Texts(s) && d[184..212] == Spell(ExtensionWords(t, Sum(Table(t), NO_GAP)))
    ensures d[212..256] == DescriptorTable(t)
  {
    hide Writable, FrontWords, ExtensionWords, Texts, DescriptorTable, Spell, Sum, Table, Payload;
    WritableBounds(t);
    var front := FrontWords(t, s, fileSum, headerSum, Sum(Payload(t), NO_GAP));
    var extension := ExtensionWords(t, Sum(Table(t), NO_GAP));
    SpellLength(front);
    SpellLength(extension);
    var h := Head(t, s, fileSum, headerSum);
    assert d[0..96] == h[0..96] && d[96..184] == h[96..184] && d[184..212] == h[184..212] && d[212..256] == h[212..256];
    assert h[0..96] == Spell(front) && h[96..184] == Texts(s) && h[184..212] == Spell(extension) &&
           h[212..256] == DescriptorTable(t);
  }

  lemma FrontWord(d: seq<byte>, t: Track, s: Stamp, fileSum: u32, headerSum: u32, k: nat)
    requires Writable(t) && StampOk(s) && |d| >= HEADER_SIZE && Headed(d, t, s, fileSum, headerSum) && k < 24
    ensures Word(d, 4 * k) == FrontWords(t, s, fileSum, headerSum, Sum(Payload(t), NO_GAP))[k]
  {
    hide Writable, FrontWords, Spell, Sum, Word, Payload, Headed;
    HeadPieces(d, t, s, fileSum, headerSum);
    WordOfSpell(d, 0, FrontWords(t, s, fileSum, headerSum, Sum(Payload(t), NO_GAP)), k);
  }

  lemma ExtensionWord(d: seq<byte>, t: Track, s: Stamp, fileSum: u32, headerSum: u32, k: nat)
    requires Writable(t) && StampOk(s) && |d| >= HEADER_SIZE && Headed(d, t, s, fileSum, headerSum) && k < 7
    ensures Word(d, AT_SEGMENTS + 4 * k) == ExtensionWords(t, Sum(Table(t), NO_GAP))[k]
  {
    hide Writable, ExtensionWords, Spell, Sum, Word, Table, Headed;
    WritableBounds(t);
    HeadPieces(d, t, s, fileSum, headerSum);
    WordOfSpell(d, AT_SEGMENTS, ExtensionWords(t, Sum(Table(t), NO_GAP)), k);
  }

  /** The framing fields read back. */
  lemma FramingFields(d: seq<byte>, t: Track, s: Stamp, fileSum: u32, headerSum: u32)
    requires Writable(t) && StampOk(s) && |d| >= HEADER_SIZE && Headed(d, t, s, fileSum, headerSum)
    ensures Word(d, 0) == MAGIC && Half(d, AT_VERSION) == VERSION_4 && Half(d, AT_HEADER_SIZE) == HEADER_SIZE
    ensures Word(d, AT_FILE_SIZE) == DATA_OFFSET + DataSize(t) && Word(d, AT_FILE_SUM) == fileSum
    ensures Word(d, AT_HEADER_SUM) == headerSum
    ensures Word(d, AT_PAYLOAD_SUM) == Sum(Payload(t), NO_GAP) && Word(d, AT_FEATURES) == 1
    ensures Word(d, AT_GAME) == GameOf(s.region)
    ensures d[AT_REVISION] == 0 && d[AT_REGION] == s.region && d[AT_PROFILE] == s.profile && d[AT_MODE] == POSE_MODE
    ensures d[AT_CODEC] == 1 && d[AT_STRIDE] == SAMPLE_SIZE && Half(d, AT_INTERVAL) == INTERVAL_QF
    ensures Word(d, AT_ID_HIGH) == s.idHigh && Word(d, AT_ID_LOW) == s.idLow
    ensures d[AT_AUTHOR_LENGTH] == 0 && d[AT_NAME_LENGTH] == |s.name| && d[AT_PROFILE_LENGTH] == |s.profileName|
    ensures d[AT_CHECKSUM_KIND] == CRC32_KIND
  {
    hide Writable, Sum, Word, Payload, Headed, Four, GameOf;
    FrontWord(d, t, s, fileSum, headerSum, 0);
    FrontWord(d, t, s, fileSum, headerSum, 1);
    PackedWord(d, 4, 0, VERSION_4, 1, 0);
    FrontWord(d, t, s, fileSum, headerSum, 2);
    FrontWord(d, t, s, fileSum, headerSum, 3);
    FrontWord(d, t, s, fileSum, headerSum, 4);
    FrontWord(d, t, s, fileSum, headerSum, 5);
    FrontWord(d, t, s, fileSum, headerSum, 6);
    FrontWord(d, t, s, fileSum, headerSum, 8);
    FrontWord(d, t, s, fileSum, headerSum, 9);
    PackedWord(d, 36, 0, s.region, s.profile, POSE_MODE);
    FrontWord(d, t, s, fileSum, headerSum, 10);
    PackedWord(d, 40, 1, SAMPLE_SIZE, 0, INTERVAL_QF);
    FrontWord(d, t, s, fileSum, headerSum, 21);
    FrontWord(d, t, s, fileSum, headerSum, 22);
    FrontWord(d, t, s, fileSum, headerSum, 23);
    PackedWord(d, 92, 0, |s.name|, |s.profileName|, CRC32_KIND);
  }

  lemma SignedUnsigned(v: s32)
    ensures Signed32(Unsigned(v, 0x1_0000_0000)) == v
  {
  }

  /** The run's fields read back. */
  lemma RunFields(d: seq<byte>, t: Track, s: Stamp, fileSum: u32, headerSum: u32)
    requires Writable(t) && StampOk(s) && |d| >= HEADER_SIZE && Headed(d, t, s, fileSum, headerSum)
    ensures Word(d, AT_RUN_FLAGS) == t.runFlags && RouteIn(d, AT_ROUTE, AT_VARIANT) == t.route
    ensures Word(d, AT_RESULT) == (if t.completed then t.resultQf else RESULT_NONE)
    ensures Word(d, AT_START) == t.startQf && Word(d, AT_END) == t.endQf && Word(d, AT_DURATION) == t.endQf - t.startQf
    ensures Word(d, AT_COUNT) == |t.samples| && Word(d, AT_PAYLOAD) == TABLE_SIZE + DataSize(t)
  {
    hide Writable, Sum, Word, Payload, Headed, Four, GameOf;
    FrontWord(d, t, s, fileSum, headerSum, 7);
    FrontWord(d, t, s, fileSum, headerSum, 11);
    PackedWord(d, 44, t.route.area, t.route.episode, t.route.parentArea, t.route.flags);
    FrontWord(d, t, s, fileSum, headerSum, 12);
    SignedUnsigned(t.route.variant);
    FrontWord(d, t, s, fileSum, headerSum, 13);
    FrontWord(d, t, s, fileSum, headerSum, 14);
    FrontWord(d, t, s, fileSum, headerSum, 15);
    FrontWord(d, t, s, fileSum, headerSum, 16);
    FrontWord(d, t, s, fileSum, headerSum, 17);
    FrontWord(d, t, s, fileSum, headerSum, 18);
  }

  /** The extension's fields read back. */
  lemma ExtensionFields(d: seq<byte>, t: Track, s: Stamp, fileSum: u32, headerSum: u32)
    requires Writable(t) && StampOk(s) && |d| >= HEADER_SIZE && Headed(d, t, s, fileSum, headerSum)
    ensures Half(d, AT_SEGMENTS) == |t.segments| && Half(d, AT_SEGMENT_SIZE) == SEGMENT_SIZE
    ensures Word(d, AT_TABLE) == TABLE_OFFSET && Word(d, AT_TABLE_SIZE) == TABLE_SIZE && Word(d, AT_DATA) == DATA_OFFSET
    ensures Word(d, AT_DATA_SIZE) == DataSize(t) && Word(d, AT_TABLE_SUM) == Sum(Table(t), NO_GAP)
    ensures d[AT_ATTACHMENTS] == |t.attachments| && d[AT_ATTACHMENT_SIZE] == DESCRIPTOR_SIZE
    ensures Half(d, AT_ATTACHMENT_FLAGS) == t.attachmentFlags && Half(d, AT_ATTACHMENT_RESERVED) == 0
  {
    hide Writable, Sum, Word, Table, Headed, Four;
    WritableBounds(t);
    ExtensionWord(d, t, s, fileSum, headerSum, 0);
    PackedWord(d, 184, 0, |t.segments|, 0, SEGMENT_SIZE);
    ExtensionWord(d, t, s, fileSum, headerSum, 1);
    ExtensionWord(d, t, s, fileSum, headerSum, 2);
    ExtensionWord(d, t, s, fileSum, headerSum, 3);
    ExtensionWord(d, t, s, fileSum, headerSum, 4);
    ExtensionWord(d, t, s, fileSum, headerSum, 5);
    ExtensionWord(d, t, s, fileSum, headerSum, 6);
    PackedWord(d, 208, |t.attachments|, DESCRIPTOR_SIZE, 0, t.attachmentFlags);
    HeadPieces(d, t, s, fileSum, headerSum);
    assert d[212] == d[212..256][0] && d[213] == d[212..256][1];
  }

  lemma TextFields(d: seq<byte>, t: Track, s: Stamp, fileSum: u32, headerSum: u32)
    requires Writable(t) && StampOk(s) && |d| >= HEADER_SIZE && Headed(d, t, s, fileSum, headerSum)
    ensures TextOk(d, AT_AUTHOR, AUTHOR_SIZE, 0, false) && TextOk(d, AT_NAME, NAME_SIZE, |s.name|, true)
    ensures TextOk(d, AT_PROFILE_NAME, PROFILE_NAME_SIZE, |s.profileName|, false)
  {
    hide Writable, Headed, Printable;
    HeadPieces(d, t, s, fileSum, headerSum);
    var texts := d[96..184];
    forall i | 96 <= i < 184
      ensures d[i] == Texts(s)[i - 96]
    {
      assert d[i] == texts[i - 96];
    }
  }

  // ---- the whole file -------------------------------------------------------------------------

  function HeaderSum(t: Track, s: Stamp): u32
    requires Writable(t) && StampOk(s)
  {
    Sum(Head(t, s, 0, 0), Range(AT_FILE_SUM, AT_FILE_SUM + 8))
  }

  function FileSum(t: Track, s: Stamp): u32
    requires Writable(t) && StampOk(s)
  {
    Sum(Head(t, s, 0, HeaderSum(t, s)) + Payload(t), Range(AT_FILE_SUM, AT_FILE_SUM + 4))
  }

  lemma FileParts(t: Track, s: Stamp)
    requires Writable(t) && StampOk(s)
    ensures var d := Exported(t, s);
            && 0 < |t.segments| <= MAX_SEGMENTS
            && |d| == DATA_OFFSET + SAMPLE_SIZE * |t.samples| && Headed(d, t, s, FileSum(t, s), HeaderSum(t, s))
            && d[HEADER_SIZE..] == Payload(t) && d[TABLE_OFFSET..DATA_OFFSET] == Table(t)
            && d[DATA_OFFSET..] == SampleRun(t.samples)
  {
    hide Writable, Sum, Head, SampleRun, Padded, SegmentRun;
    WritableBounds(t);
    SampleLength(t.samples);
    var d, h := Exported(t, s), Head(t, s, FileSum(t, s), HeaderSum(t, s));
    assert d == h + (Table(t) + SampleRun(t.samples));
    assert d[HEADER_SIZE..] == Payload(t);
  }

  lemma SpellByte(words: seq<u32>, k: nat, j: nat)
    requires k < |words| && j < 4
    ensures 4 * k + j < |Spell(words)| && Spell(words)[4 * k + j] == PutBE32(words[k])[j]
  {
    hide PutBE32, Flat;
    var pieces := WordPieces(words);
    FlatAt(pieces, 4);
    assert Flat(pieces)[4 * k..4 * k + 4] == pieces[k];
    assert Flat(pieces)[4 * k..4 * k + 4][j] == Flat(pieces)[4 * k + j];
  }

  /** Headers with different checksums differ only in the checksum fields. */
  lemma HeadsDiffer(t: Track, s: Stamp, f: u32, h: u32, f': u32, h': u32, i: nat)
    requires Writable(t) && StampOk(s) && i < HEADER_SIZE
    requires !(AT_FILE_SUM <= i < AT_FILE_SUM + 4) && (h == h' || !(AT_HEADER_SUM <= i < AT_HEADER_SUM + 4))
    ensures Head(t, s, f, h)[i] == Head(t, s, f', h')[i]
  {
    hide Writable, Sum, Texts, Payload, Table, DescriptorTable, PutBE32, ExtensionWords, Spell, Four;
    WritableBounds(t);
    var payload := Sum(Payload(t), NO_GAP);
    var a, b := FrontWords(t, s, f, h, payload), FrontWords(t, s, f', h', payload);
    SpellLength(a);
    SpellLength(b);
    SpellLength(ExtensionWords(t, Sum(Table(t), NO_GAP)));
    if i < 96 {
      var k, j := i / 4, i % 4;
      assert i == 4 * k + j;
      SpellByte(a, k, j);
      SpellByte(b, k, j);
      assert a[k] == b[k];
    }
  }

  lemma SameBlank(a: seq<byte>, b: seq<byte>, gap: Range)
    requires |a| == |b| && forall i :: 0 <= i < |a| && !gap.Has(i) ==> a[i] == b[i]
    ensures Sum(a, gap) == Sum(b, gap)
  {
    forall i | 0 <= i < |a|
      ensures Blank(a, [gap])[i] == Blank(b, [gap])[i]
    {
      assert Covered([gap], i) <==> gap.Has(i) by {
        assert [gap][0] == gap;
      }
    }
    assert Blank(a, [gap]) == Blank(b, [gap]);
  }

  lemma HeaderSumStable(t: Track, s: Stamp, f: u32, h: u32)
    requires Writable(t) && StampOk(s)
    ensures Sum(Head(t, s, f, h), Range(AT_FILE_SUM, AT_FILE_SUM + 8)) == HeaderSum(t, s)
  {
    hide Writable, Sum, Head;
    var gap := Range(AT_FILE_SUM, AT_FILE_SUM + 8);
    forall i | 0 <= i < HEADER_SIZE && !gap.Has(i)
      ensures Head(t, s, f, h)[i] == Head(t, s, 0, 0)[i]
    {
      HeadsDiffer(t, s, f, h, 0, 0, i);
    }
    SameBlank(Head(t, s, f, h), Head(t, s, 0, 0), gap);
  }

  lemma FileSumStable(t: Track, s: Stamp, f: u32)
    requires Writable(t) && StampOk(s)
    ensures Sum(Head(t, s, f, HeaderSum(t, s)) + Payload(t), Range(AT_FILE_SUM, AT_FILE_SUM + 4)) == FileSum(t, s)
  {
    hide Writable, Sum, Head, Payload, HeaderSum;
    var gap, h := Range(AT_FILE_SUM, AT_FILE_SUM + 4), HeaderSum(t, s);
    var a, b := Head(t, s, f, h) + Payload(t), Head(t, s, 0, h) + Payload(t);
    forall i | 0 <= i < |a| && !gap.Has(i)
      ensures a[i] == b[i]
    {
      if i < HEADER_SIZE {
        HeadsDiffer(t, s, f, h, 0, h, i);
      }
    }
    SameBlank(a, b, gap);
  }

  lemma ExportedIs(t: Track, s: Stamp)
    requires Writable(t) && StampOk(s)
    ensures Exported(t, s) == Head(t, s, FileSum(t, s), HeaderSum(t, s)) + Payload(t)
  {
    hide Writable, Sum, Head, Payload;
  }

  /** Every checksum in the file is the one its reader computes. */
  lemma ExportSummed(t: Track, s: Stamp)
    requires Writable(t) && StampOk(s)
    ensures |Exported(t, s)| >= DATA_OFFSET && Summed(Exported(t, s))
  {
    hide Writable, Sum, Head, Table, Payload, Word, Headed, SampleRun, HeaderSum, FileSum, Exported;
    FileParts(t, s);
    WritableBounds(t);
    var d, f, h := Exported(t, s), FileSum(t, s), HeaderSum(t, s);
    HeadedPrefix(d, t, s, f, h);
    FramingFields(d, t, s, f, h);
    ExtensionFields(d, t, s, f, h);
    HeaderSumStable(t, s, f, h);
    FileSumStable(t, s, f);
    ExportedIs(t, s);
  }

  lemma HeadedPrefix(d: seq<byte>, t: Track, s: Stamp, f: u32, h: u32)
    requires Writable(t) && StampOk(s) && Headed(d, t, s, f, h)
    ensures |d| >= HEADER_SIZE && d[..HEADER_SIZE] == Head(t, s, f, h)
  {
  }

  lemma TableAt(t: Track, i: nat)
    requires |t.segments| <= MAX_SEGMENTS && i < |t.segments|
    ensures Table(t)[SEGMENT_SIZE * i..SEGMENT_SIZE * i + SEGMENT_SIZE] == SegmentBytes(t.segments[i])
  {
    hide SegmentBytes, Flat;
    var pieces := SegmentRunPieces(t.segments);
    FlatAt(pieces, SEGMENT_SIZE);
    assert Flat(pieces)[SEGMENT_SIZE * i..SEGMENT_SIZE * i + SEGMENT_SIZE] == pieces[i];
    SliceOfFront(Flat(pieces), Zeros(TABLE_SIZE - |Flat(pieces)|), SEGMENT_SIZE * i, SEGMENT_SIZE * i + SEGMENT_SIZE);
  }

  /** Each segment and each sample stands where its reader looks. */
  lemma ExportedSegment(t: Track, s: Stamp, i: nat)
    requires Writable(t) && StampOk(s) && i < |t.segments|
    ensures |t.segments| <= MAX_SEGMENTS && |Exported(t, s)| >= DATA_OFFSET
    ensures SegmentAt(Exported(t, s), i) == t.segments[i] && ReservedZero(Exported(t, s), i)
  {
    hide Writable, Exported, Headed, Payload, SampleRun, SegmentBytes, SegmentIn, Word, Table, FileSum, HeaderSum;
    FileParts(t, s);
    var d := Exported(t, s);
    TableAt(t, i);
    SubSlice(d, TABLE_OFFSET, TABLE_SIZE, SEGMENT_SIZE * i, SEGMENT_SIZE * i + SEGMENT_SIZE);
    SegmentRoundTrip(d, TABLE_OFFSET + SEGMENT_SIZE * i, t.segments[i]);
  }

  lemma ExportedSample(t: Track, s: Stamp, i: nat)
    requires Writable(t) && StampOk(s) && i < |t.samples|
    ensures |Exported(t, s)| == DATA_OFFSET + SAMPLE_SIZE * |t.samples| && SampleAt(Exported(t, s), i) == t.samples[i]
  {
    hide Writable, Exported, Headed, Payload, SampleBytes, SampleIn, Flat;
    FileParts(t, s);
    var d, n := Exported(t, s), |t.samples|;
    var pieces := SamplePieces(t.samples);
    FlatAt(pieces, SAMPLE_SIZE);
    assert d[DATA_OFFSET..DATA_OFFSET + SAMPLE_SIZE * n] == d[DATA_OFFSET..];
    SubSlice(d, DATA_OFFSET, SAMPLE_SIZE * n, SAMPLE_SIZE * i, SAMPLE_SIZE * i + SAMPLE_SIZE);
    assert Flat(pieces)[SAMPLE_SIZE * i..SAMPLE_SIZE * i + SAMPLE_SIZE] == pieces[i];
    SampleRoundTrip(d, DATA_OFFSET + SAMPLE_SIZE * i, t.samples[i]);
  }

  lemma ExportedUnused(t: Track, s: Stamp)
    requires Writable(t) && StampOk(s)
    ensures |t.segments| <= MAX_SEGMENTS && |Exported(t, s)| >= DATA_OFFSET
    ensures ZeroBytes(Exported(t, s), TABLE_OFFSET + SEGMENT_SIZE * |t.segments|, DATA_OFFSET)
  {
    hide Writable, Exported, Headed, Payload, SampleRun, SegmentRun;
    FileParts(t, s);
    TableLength(t.segments);
    var d := Exported(t, s);
    forall i | TABLE_OFFSET + SEGMENT_SIZE * |t.segments| <= i < DATA_OFFSET
      ensures d[i] == 0
    {
      assert d[i] == d[TABLE_OFFSET..DATA_OFFSET][i - TABLE_OFFSET];
    }
  }

  lemma SliceOfFront(a: seq<byte>, b: seq<byte>, i: nat, j: nat)
    requires i <= j <= |a|
    ensures (a + b)[i..j] == a[i..j]
  {
  }

  lemma SliceOfBack(a: seq<byte>, b: seq<byte>, i: nat, j: nat)
    requires i <= j <= |b|
    ensures (a + b)[|a| + i..|a| + j] == b[i..j]
  {
  }

  /** The six bytes of a descriptor entry. */
  function DescriptorEntry(attachments: seq<Attachment>, i: nat): (b: seq<byte>)
    ensures |b| == DESCRIPTOR_SIZE
  {
    if i < |attachments| then DescriptorSpelling(attachments[i]) else Zeros(DESCRIPTOR_SIZE)
  }

  lemma DescriptorTableAt(t: Track, i: nat)
    requires Writable(t) && i < MAX_ATTACHMENTS
    ensures var from := 2 + DESCRIPTOR_SIZE * i;
            && from + DESCRIPTOR_SIZE <= 44
            && DescriptorTable(t)[from..from + DESCRIPTOR_SIZE] == DescriptorEntry(t.attachments, i)
  {
    hide Writable, Flat, PutBE32, PutBE16, DescriptorSpelling;
    WritableBounds(t);
    var n := |t.attachments|;
    var pieces := DescriptorPieces(t.attachments);
    FlatAt(pieces, DESCRIPTOR_SIZE);
    DescriptorLength(t.attachments);
    var run, from := Flat(pieces), DESCRIPTOR_SIZE * i;
    var padding := Zeros(DESCRIPTOR_SIZE * MAX_ATTACHMENTS - |run|);
    assert DescriptorTable(t) == [0, 0] + (run + padding);
    SliceOfBack([0, 0], run + padding, from, from + DESCRIPTOR_SIZE);
    if i < n {
      SliceOfFront(run, padding, from, from + DESCRIPTOR_SIZE);
      assert run[from..from + DESCRIPTOR_SIZE] == pieces[i];
    } else {
      assert (run + padding)[from..from + DESCRIPTOR_SIZE] == Zeros(DESCRIPTOR_SIZE);
    }
  }

  lemma DescriptorReads(d: seq<byte>, at: nat, a: Attachment)
    requires at + DESCRIPTOR_SIZE <= |d| && d[at..at + DESCRIPTOR_SIZE] == DescriptorSpelling(a)
    ensures Word(d, at) == a.objectId && Half(d, at + 4) == a.nameKey
  {
    hide PutBE32, Word, Digit;
    var six := d[at..at + DESCRIPTOR_SIZE];
    assert d[at..at + 4] == six[..4] && six[..4] == PutBE32(a.objectId);
    WordAt(d, at, a.objectId);
    assert d[at + 4] == six[4] && d[at + 5] == six[5];
    HalfDigits(a.nameKey);
  }

  lemma ZeroReads(d: seq<byte>, at: nat)
    requires at + DESCRIPTOR_SIZE <= |d| && d[at..at + DESCRIPTOR_SIZE] == Zeros(DESCRIPTOR_SIZE)
    ensures Word(d, at) == 0 && Half(d, at + 4) == 0
  {
    var six := d[at..at + DESCRIPTOR_SIZE];
    assert d[at] == six[0] && d[at + 1] == six[1] && d[at + 2] == six[2] && d[at + 3] == six[3] &&
        d[at + 4] == six[4] && d[at + 5] == six[5];
  }

  lemma ExportedDescriptor(t: Track, s: Stamp, i: nat)
    requires Writable(t) && StampOk(s) && i < MAX_ATTACHMENTS
    ensures |Exported(t, s)| >= HEADER_SIZE
    ensures DescriptorAt(Exported(t, s), i) == if i < |t.attachments| then t.attachments[i] else Attachment(0, 0)
  {
    hide Writable, Exported, Payload, SampleRun, Table, Word, Half, DescriptorTable, DescriptorSpelling, FileSum,
        HeaderSum, Headed;
    FileParts(t, s);
    var d, at := Exported(t, s), AT_DESCRIPTORS + DESCRIPTOR_SIZE * i;
    HeadedPrefix(d, t, s, FileSum(t, s), HeaderSum(t, s));
    HeadPieces(d, t, s, FileSum(t, s), HeaderSum(t, s));
    DescriptorTableAt(t, i);
    var from := 2 + DESCRIPTOR_SIZE * i;
    SubSlice(d, 212, 44, from, from + DESCRIPTOR_SIZE);
    if i < |t.attachments| {
      DescriptorReads(d, at, t.attachments[i]);
    } else {
      ZeroReads(d, at);
    }
  }

  // ---- the round trip -------------------------------------------------------------------------

  /** What a file keeps of a track: an incomplete run has no result. */
  function Kept(t: Track): Track {
    t.(valid := true, resultQf := if t.completed then t.resultQf else RESULT_NONE)
  }

  lemma ExportedHolds(t: Track, s: Stamp)
    requires Writable(t) && StampOk(s)
    ensures Holds(Exported(t, s)) && Word(Exported(t, s), AT_COUNT) == |t.samples|
    ensures Half(Exported(t, s), AT_SEGMENTS) == |t.segments|
  {
    hide Writable, Exported, Payload, SampleRun, Table, Word, Half, FileSum, HeaderSum, Headed;
    FileParts(t, s);
    WritableBounds(t);
    var d, f, h := Exported(t, s), FileSum(t, s), HeaderSum(t, s);
    HeadedPrefix(d, t, s, f, h);
    RunFields(d, t, s, f, h);
    ExtensionFields(d, t, s, f, h);
  }

  lemma ExportedBuffers(t: Track, s: Stamp)
    requires Writable(t) && StampOk(s)
    ensures Holds(Exported(t, s))
    ensures var d := Exported(t, s);
            Samples(d) == t.samples && Segments(d) == t.segments && Descriptors(d) == t.attachments
  {
    hide Writable, Exported, Word, Half, SampleAt, SegmentAt, DescriptorAt, Holds, FileSum, HeaderSum, Headed;
    ExportedHolds(t, s);
    WritableBounds(t);
    FileParts(t, s);
    var d, f, h := Exported(t, s), FileSum(t, s), HeaderSum(t, s);
    HeadedPrefix(d, t, s, f, h);
    ExtensionFields(d, t, s, f, h);
    HoldsCounts(d);
    forall i | 0 <= i < |t.samples|
      ensures Samples(d)[i] == t.samples[i]
    {
      ExportedSample(t, s, i);
    }
    forall i | 0 <= i < |t.segments|
      ensures Segments(d)[i] == t.segments[i]
    {
      ExportedSegment(t, s, i);
    }
    forall i | 0 <= i < |t.attachments|
      ensures Descriptors(d)[i] == t.attachments[i]
    {
      ExportedDescriptor(t, s, i);
    }
  }

  lemma HoldsCounts(d: seq<byte>)
    requires Holds(d)
    ensures |Samples(d)| == Word(d, AT_COUNT) && |Segments(d)| == Half(d, AT_SEGMENTS) && |d| >= HEADER_SIZE
    ensures |Descriptors(d)| == d[AT_ATTACHMENTS]
  {
  }

  lemma PublishableWritable(t: Track)
    requires Publishable(t) && t.version == VERSION_4
    ensures Writable(t)
  {
  }

  lemma CompletedRoundTrip(t: Track)
    requires Publishable(t)
    ensures var result := Kept(t).resultQf; t.completed <==> result != RESULT_NONE && !HasFlag(t.runFlags, Incomplete)
  {
  }

  /** Importing an exported file gives the track back: samples, segments, times, route, attachments and
      whether it is complete. */
  lemma ImportOfExport(t: Track, s: Stamp)
    requires Publishable(t) && t.version == VERSION_4 && StampOk(s)
    ensures Writable(t)
    ensures Holds(Exported(t, s)) && Install(Exported(t, s)) == Kept(t)
  {
    hide Writable, Exported, Word, Half, Samples, Segments, Descriptors, Holds, HasFlag, FileSum, HeaderSum, Headed;
    PublishableWritable(t);
    ExportedBuffers(t, s);
    FileParts(t, s);
    WritableBounds(t);
    var d, f, h := Exported(t, s), FileSum(t, s), HeaderSum(t, s);
    HeadedPrefix(d, t, s, f, h);
    RunFields(d, t, s, f, h);
    FramingFields(d, t, s, f, h);
    ExtensionFields(d, t, s, f, h);
    CompletedRoundTrip(t);
    InstallIs(d);
  }

  lemma InstallIs(d: seq<byte>)
    requires Holds(d) && |d| >= HEADER_SIZE && Half(d, AT_VERSION) == VERSION_4
    ensures Install(d) == Track(Samples(d), Segments(d), Word(d, AT_START), Word(d, AT_END), Word(d, AT_RESULT),
                                Word(d, AT_RUN_FLAGS), RouteIn(d, AT_ROUTE, AT_VARIANT), VERSION_4,
                                Half(d, AT_ATTACHMENT_FLAGS), Descriptors(d), true,
                                Word(d, AT_RESULT) != RESULT_NONE && !HasFlag(Word(d, AT_RUN_FLAGS), Incomplete))
  {
    hide Holds, Samples, Segments, Descriptors, HasFlag, RouteIn, Word, Half;
  }

  lemma KeptPublishable(t: Track)
    requires Publishable(t)
    ensures Publishable(Kept(t)) && ResultOk(Kept(t))
  {
    hide HasFlag;
    var k := Kept(t);
    SameContent(t, k);
    assert WellFormed(k);
    assert k.completed ==> Last(k.segments).startQf <= k.resultQf;
  }

  lemma ExportedFramed(t: Track, s: Stamp)
    requires Publishable(t) && t.version == VERSION_4 && StampOk(s)
    ensures Writable(t)
    ensures Framed(Exported(t, s)) && Sized(Exported(t, s)) && Described(Exported(t, s))
  {
    hide Writable, Exported, Word, Half, TextOk, FileSum, HeaderSum, Headed, DescriptorAt, GameOf;
    PublishableWritable(t);
    FileParts(t, s);
    WritableBounds(t);
    var d, f, h := Exported(t, s), FileSum(t, s), HeaderSum(t, s);
    HeadedPrefix(d, t, s, f, h);
    RunFields(d, t, s, f, h);
    FramingFields(d, t, s, f, h);
    ExtensionFields(d, t, s, f, h);
    TextFields(d, t, s, f, h);
    PublishableAttachments(t);
    forall i | 0 <= i < MAX_ATTACHMENTS
      ensures DescriptorOk(d, i)
    {
      ExportedDescriptor(t, s, i);
      forall j | 0 <= j < i && i < |t.attachments|
        ensures DescriptorAt(d, j) != DescriptorAt(d, i)
      {
        ExportedDescriptor(t, s, j);
      }
    }
  }

  lemma PublishableAttachments(t: Track)
    requires Publishable(t)
    ensures forall i :: 0 <= i < |t.attachments| ==> t.attachments[i] != Attachment(0, 0)
    ensures forall i, j :: 0 <= i < j < |t.attachments| ==> t.attachments[i] != t.attachments[j]
  {
  }

  /** The self-check accepts everything the exporter writes for storable routes. */
  lemma ExportIsCanonical(t: Track, s: Stamp)
    requires Publishable(t) && t.version == VERSION_4 && StampOk(s) && RoutesValid(t)
    ensures Writable(t)
    ensures Canonical(Exported(t, s), s.region)
  {
    hide Exported, Word, Half, Framed, Sized, Described, Summed, Install, Holds, Publishable, ResultOk, SegmentAt,
        ReservedZero, ValidRoute,
         ZeroBytes, Kept;
    PublishableWritable(t);
    var d := Exported(t, s);
    ExportedFramed(t, s);
    ExportSummed(t, s);
    ImportOfExport(t, s);
    KeptPublishable(t);
    ExportedHolds(t, s);
    WritableBounds(t);
    ExportedUnused(t, s);
    ExportedRegion(t, s);
    forall i | 0 <= i < |t.segments|
      ensures EntryOk(d, i, s.region)
    {
      ExportedSegment(t, s, i);
    }
    KeptDuration(t, s);
  }

  lemma ExportedRegion(t: Track, s: Stamp)
    requires Writable(t) && StampOk(s)
    ensures |Exported(t, s)| >= DATA_OFFSET && Exported(t, s)[AT_REGION] == s.region
    ensures Word(Exported(t, s), AT_DURATION) == t.endQf - t.startQf
  {
    hide Writable, Exported, Word, Half, FileSum, HeaderSum, Headed;
    FileParts(t, s);
    var d, f, h := Exported(t, s), FileSum(t, s), HeaderSum(t, s);
    HeadedPrefix(d, t, s, f, h);
    FramingFields(d, t, s, f, h);
    RunFields(d, t, s, f, h);
  }

  lemma KeptDuration(t: Track, s: Stamp)
    requires Writable(t) && StampOk(s)
    ensures Kept(t).endQf - Kept(t).startQf == t.endQf - t.startQf
  {
  }

  /** It accepts exactly the tracks whose routes the format can hold. */
  lemma ExportCanonicalExactly(t: Track, s: Stamp)
    requires Publishable(t) && t.version == VERSION_4 && StampOk(s)
    ensures Writable(t) && (Canonical(Exported(t, s), s.region) <==> RoutesValid(t))
  {
    hide Exported, Word, Half, Framed, Sized, Described, Summed, Install, Holds, Publishable, ResultOk, SegmentAt,
        ReservedZero, ValidRoute,
         ZeroBytes, Kept;
    PublishableWritable(t);
    var d := Exported(t, s);
    if Canonical(d, s.region) {
      ExportedHolds(t, s);
      forall i | 0 <= i < |t.segments|
        ensures ValidRoute(t.segments[i].route)
      {
        ExportedSegment(t, s, i);
        assert EntryOk(d, i, s.region);
      }
    } else if RoutesValid(t) {
      ExportIsCanonical(t, s);
    }
  }

  // ---- where everything stands ----------------------------------------------------------------

  /** The region, profile, id, name and profile name a file bears. */
  predicate Stamped(d: seq<byte>, s: Stamp)
    requires |d| >= 0x100
  {
    && d[37] == s.region && d[38] == s.profile && Word(d, 84) == s.idHigh && Word(d, 88) == s.idLow
    && d[92] == 0 && d[93] == |s.name| <= 48 && d[94] == |s.profileName| <= 16
    && d[120..120 + |s.name|] == s.name && d[168..168 + |s.profileName|] == s.profileName
  }

  lemma ExportStamped(t: Track, s: Stamp)
    requires Writable(t) && StampOk(s)
    ensures |Exported(t, s)| >= 0x100 && Stamped(Exported(t, s), s)
  {
    hide Writable, Exported, Headed, Word, Spell, Payload, Table, Sum, SampleRun, FileSum, HeaderSum, Printable;
    var d, f, h := Exported(t, s), FileSum(t, s), HeaderSum(t, s);
    FileParts(t, s);
    FrontWord(d, t, s, f, h, 9);
    FrontWord(d, t, s, f, h, 21);
    FrontWord(d, t, s, f, h, 22);
    FrontWord(d, t, s, f, h, 23);
    PackedWord(d, 36, 0, s.region, s.profile, POSE_MODE);
    PackedWord(d, 92, 0, |s.name|, |s.profileName|, CRC32_KIND);
    HeadPieces(d, t, s, f, h);
    assert d[120..120 + |s.name|] == d[96..184][24..24 + |s.name|] == s.name;
    assert d[168..168 + |s.profileName|] == d[96..184][72..72 + |s.profileName|] == s.profileName;
  }

  /** A stored number and the signed number it stands for, `bits` being the power of two of its width. */
  predicate StoredAs(raw: int, value: int, bits: nat) { 0 <= raw < bits && (raw == value || raw == value + bits) }

  /** Sample `i` of sixteen bytes from 0x900 on: yaw, delta, three coordinates of three bytes, animation. */
  lemma SampleStands(t: Track, s: Stamp, i: nat)
    requires Writable(t) && StampOk(s) && i < |t.samples|
    ensures var d, p, a := Exported(t, s), 0x900 + 16 * i, t.samples[i];
            && p + 16 <= |d|
            && StoredAs(d[p] as int * 0x100 + d[p + 1], a.yaw, 0x1_0000)
            && d[p + 2] as int * 0x100 + d[p + 3] == a.deltaQf
            && StoredAs(d[p + 4] as int * 0x1_0000 + d[p + 5] as int * 0x100 + d[p + 6], a.x, 0x100_0000)
            && StoredAs(d[p + 7] as int * 0x1_0000 + d[p + 8] as int * 0x100 + d[p + 9], a.y, 0x100_0000)
            && StoredAs(d[p + 10] as int * 0x1_0000 + d[p + 11] as int * 0x100 + d[p + 12], a.z, 0x100_0000)
            && d[p + 13] as int * 0x1_0000 + d[p + 14] as int * 0x100 + d[p + 15] == a.animation
  {
    hide Exported;
    ExportedSample(t, s, i);
  }

  /** Segment `i` of thirty-two bytes from 0x100 on: first sample, count, start, end, variant, and the route's four
      bytes. */
  lemma SegmentStands(t: Track, s: Stamp, i: nat)
    requires Writable(t) && StampOk(s) && i < |t.segments|
    ensures var d, p, g := Exported(t, s), 0x100 + 32 * i, t.segments[i];
            && p + 32 <= |d|
            && Word(d, p) == g.firstSample && Word(d, p + 4) == g.sampleCount
            && Word(d, p + 8) == g.startQf && Word(d, p + 12) == g.endQf
            && StoredAs(Word(d, p + 16), g.route.variant, 0x1_0000_0000)
            && d[p + 20] == g.route.area && d[p + 21] == g.route.episode
            && d[p + 22] == g.route.parentArea && d[p + 23] == g.route.flags
  {
    hide Exported, Word;
    ExportedSegment(t, s, i);
  }

  // ---- text -----------------------------------------------------------------------------------

  /** The longest printable prefix that fits. */
  function PrintablePrefix(text: seq<byte>, capacity: nat): (r: seq<byte>)
    ensures |r| <= capacity && AllPrintable(r) && r <= text
    ensures |r| < |text| && |r| < capacity ==> !Printable(text[|r|])
  {
    if capacity == 0 || text == [] || !Printable(text[0]) then []
    else [text[0]] + PrintablePrefix(text[1..], capacity - 1)
  }

  /** Any printable prefix that cannot be extended is the longest one. */
  lemma {:induction false} PrefixUnique(text: seq<byte>, capacity: nat, n: nat)
    requires n <= |text| && n <= capacity && AllPrintable(text[..n])
    requires n < |text| && n < capacity ==> !Printable(text[n])
    ensures text[..n] == PrintablePrefix(text, capacity)
  {
    if n > 0 {
      assert Printable(text[..n][0]);
      var tail := text[1..][..n - 1];
      forall i | 0 <= i < |tail|
        ensures Printable(tail[i])
      {
        assert tail[i] == text[..n][i + 1];
      }
      PrefixUnique(text[1..], capacity - 1, n - 1);
      assert text[..n] == [text[0]] + text[1..][..n - 1];
    }
  }

  /** Mirrors `copyText`. */
  method CopyText(text: seq<byte>, capacity: nat) returns (r: seq<byte>)
    ensures r == PrintablePrefix(text, capacity)
  {
    var length := 0;
    while length < capacity && length < |text| && Printable(text[length])
      invariant length <= capacity && length <= |text| && AllPrintable(text[..length])
    {
      length := length + 1;
    }
    r := text[..length];
    PrefixUnique(text, capacity, length);
  }
}
