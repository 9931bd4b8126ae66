/** From a disc layout and a mod manifest to the ordered, non-overlapping list of target edits. */
module IsoLayout {
  import opened Bytes
  import opened Sorting

  const MOD_BLOB_MAX_SIZE := 0x50000
  const MOD_REGION_SIZE := 0x80000
  const BOOT_FST_OFFSET_FIELD := 0x424
  const BOOT_FIRST_FILE_FIELD := 0x434
  const DOL_TEXT_OFFSET_TABLE := 0x00
  const DOL_TEXT_ADDRESS_TABLE := 0x48
  const DOL_TEXT_SIZE_TABLE := 0x90

  datatype Dol = Dol(isoOffset: int, size: int, newTextSlot: int)
  datatype Fst = Fst(sourceOffset: int, targetOffset: int, size: int)
  datatype Relocated = Relocated(sourceOffset: int, targetOffset: int, size: int, fstWordOffset: int)
  datatype Hook = Hook(address: int, isoOffset: int)
  datatype SourceRange = SourceRange(offset: int, size: int, crc: bv32)
  datatype Layout = Layout(formatVersion: int, gameId: int, baseAddr: int, isoSize: int, sourceCrc: u32,
                           modRegionSize: int, firstFileOffset: int, dol: Dol, fst: Fst,
                           relocated: seq<Relocated>, hooks: seq<Hook>, sourceRanges: seq<SourceRange>)

  /** `value` is the replacement word, the last entry of a manifest write. */
  datatype Write = Write(address: int, value: int)
  datatype Manifest = Manifest(gameId: int, baseAddr: int, size: int, code: seq<byte>, writes: seq<Write>)

  datatype Content = Literal(data: seq<byte>) | Zero(length: nat) | FromSource(offset: int, length: nat)
  datatype Operation = Operation(target: int, content: Content) {
    function Size(): nat { if content.Literal? then |content.data| else content.length }
    function End(): int { target + Size() }
    predicate Covers(p: int) { target <= p < End() }

    /** The edit puts `b` at target position `p`. */
    predicate Shows(source: seq<byte>, p: int, b: byte)
      requires Covers(p)
    {
      match content
      case Literal(data) => b == data[p - target]
      case Zero(_) => b == 0
      case FromSource(offset, _) => 0 <= offset + (p - target) < |source| && b == source[offset + (p - target)]
    }
  }

  // ---- packing and looking up -----------------------------------------------------------------

  /** `struct.pack(">I", value)`, which refuses what does not fit. */
  function PackWord(value: int): Result<seq<byte>> {
    if 0 <= value < 0x1_0000_0000 then Ok(PutBE32(value)) else Err
  }

  function HookOffset(hooks: seq<Hook>, address: int): Result<int> {
    if hooks == [] then Err
    else if hooks[0].address == address then Ok(hooks[0].isoOffset)
    else HookOffset(hooks[1..], address)
  }

  /** An ordered dictionary of words: a repeated offset keeps its place and takes the new value. */
  function PutWord(words: seq<(int, int)>, offset: int, value: int): seq<(int, int)> {
    if words == [] then [(offset, value)]
    else if words[0].0 == offset then [(offset, value)] + words[1..]
    else [words[0]] + PutWord(words[1..], offset, value)
  }

  function PutHooks(words: seq<(int, int)>, hooks: seq<Hook>, writes: seq<Write>): Result<seq<(int, int)>>
    decreases |writes|
  {
    if writes == [] then Ok(words)
    else match HookOffset(hooks, writes[0].address)
      case Err => Err
      case Ok(offset) => PutHooks(PutWord(words, offset, writes[0].value), hooks, writes[1..])
  }

  /** The words of the executable's header that describe the added text section. */
  function DolWords(layout: Layout, manifest: Manifest): seq<(int, int)> {
    var dol := layout.dol;
    PutWord(
      PutWord(
        PutWord([], dol.isoOffset + DOL_TEXT_OFFSET_TABLE + dol.newTextSlot * 4, dol.size),
        dol.isoOffset + DOL_TEXT_ADDRESS_TABLE + dol.newTextSlot * 4, manifest.baseAddr),
      dol.isoOffset + DOL_TEXT_SIZE_TABLE + dol.newTextSlot * 4, layout.modRegionSize)
  }

  /** An edit of no size is not collected. */
  function Keep(op: Operation): seq<Operation> {
    if op.Size() == 0 then [] else [op]
  }

  function Natural(n: int): nat { if n < 0 then 0 else n }

  function SourceEdit(target: int, offset: int, size: int): seq<Operation> {
    Keep(Operation(target, FromSource(offset, Natural(size))))
  }

  function WordEdit(offset: int, value: int): Result<seq<Operation>> {
    match PackWord(value)
    case Err => Err
    case Ok(word) => Ok(Keep(Operation(offset, Literal(word))))
  }

  /** The first failure, or both lists in order. */
  function Then(first: Result<seq<Operation>>, second: Result<seq<Operation>>): Result<seq<Operation>> {
    if first.Err? || second.Err? then Err else Ok(first.value + second.value)
  }

  function WordEdits(words: seq<(int, int)>): Result<seq<Operation>> {
    if words == [] then Ok([])
    else Then(WordEdit(words[0].0, words[0].1), WordEdits(words[1..]))
  }

  /** The file table is copied around the offset words that relocation rewrites. */
  function TableEdits(fst: Fst, files: seq<Relocated>, sourceCursor: int, targetCursor: int): Result<seq<Operation>>
    decreases |files|
  {
    if files == [] then
      Ok(SourceEdit(targetCursor, sourceCursor, fst.sourceOffset + fst.size - sourceCursor))
    else
      var word := fst.sourceOffset + files[0].fstWordOffset;
      var size := word - sourceCursor;
      Then(Then(Ok(SourceEdit(targetCursor, sourceCursor, size)), WordEdit(targetCursor + size, files[0].targetOffset)),
           TableEdits(fst, files[1..], word + 4, targetCursor + size + 4))
  }

  function FileEdits(files: seq<Relocated>): seq<Operation> {
    if files == [] then []
    else SourceEdit(files[0].targetOffset, files[0].sourceOffset, files[0].size) + FileEdits(files[1..])
  }

  predicate CodeFits(layout: Layout, manifest: Manifest) {
    |manifest.code| == manifest.size && |manifest.code| % 4 == 0 &&
    |manifest.code| <= MOD_BLOB_MAX_SIZE && |manifest.code| <= layout.modRegionSize
  }

  function FstWordOffset(): Relocated -> int { (file: Relocated) => file.fstWordOffset }

  function TargetOffset(): Operation -> int { (op: Operation) => op.target }

  /** The new text section: the code and the zeros after it. */
  function CodeEdits(layout: Layout, code: seq<byte>): seq<Operation> {
    var start := layout.dol.isoOffset + layout.dol.size;
    Keep(Operation(start, Literal(code)))
    + Keep(Operation(start + |code|, Zero(Natural(layout.modRegionSize - |code|))))
  }

  function BootEdits(layout: Layout): Result<seq<Operation>> {
    Then(WordEdit(BOOT_FST_OFFSET_FIELD, layout.fst.targetOffset),
         WordEdit(BOOT_FIRST_FILE_FIELD, layout.firstFileOffset))
  }

  function AllWords(layout: Layout, manifest: Manifest): Result<seq<(int, int)>> {
    PutHooks(DolWords(layout, manifest), layout.hooks, manifest.writes)
  }

  /** The edits that depend on the layout alone. */
  function FixedEdits(layout: Layout): Result<seq<Operation>> {
    Then(TableEdits(layout.fst, SortBy(FstWordOffset(), layout.relocated), layout.fst.sourceOffset,
                    layout.fst.targetOffset),
         Ok(FileEdits(layout.relocated)))
  }

  /** Every edit, in the order the builder collects them. */
  function RawOperations(layout: Layout, manifest: Manifest): Result<seq<Operation>> {
    if !CodeFits(layout, manifest) || AllWords(layout, manifest).Err? then Err
    else Then(Then(Then(BootEdits(layout), WordEdits(AllWords(layout, manifest).value)),
                   Ok(CodeEdits(layout, manifest.code))),
              FixedEdits(layout))
  }

  /** In order, without overlap, from `cursor` on, within the image. */
  predicate Laid(ops: seq<Operation>, cursor: int, isoSize: int) {
    if ops == [] then cursor <= isoSize
    else ops[0].target >= cursor && Laid(ops[1..], ops[0].End(), isoSize)
  }

  function Operations(layout: Layout, manifest: Manifest): Result<seq<Operation>> {
    match RawOperations(layout, manifest)
    case Err => Err
    case Ok(raw) =>
      var ordered := SortBy(TargetOffset(), raw);
      if Laid(ordered, 0, layout.isoSize) then Ok(ordered) else Err
  }

  // ---- the builder's loops --------------------------------------------------------------------

  method CollectWords(layout: Layout, manifest: Manifest) returns (r: Result<seq<(int, int)>>)
    ensures r == AllWords(layout, manifest)
  {
    var words := DolWords(layout, manifest);
    for i := 0 to |manifest.writes|
      invariant AllWords(layout, manifest) == PutHooks(words, layout.hooks, manifest.writes[i..])
    {
      var write := manifest.writes[i];
      var offset := HookOffset(layout.hooks, write.address);
      if offset.Err? {
        return Err;
      }
      assert manifest.writes[i..][1..] == manifest.writes[i + 1..];
      words := PutWord(words, offset.value, write.value);
    }
    return Ok(words);
  }

  lemma ThenAssociates(a: Result<seq<Operation>>, b: Result<seq<Operation>>, c: Result<seq<Operation>>)
    ensures Then(Then(a, b), c) == Then(a, Then(b, c))
    ensures Then(Ok([]), a) == a
  {
    if a.Ok? {
      assert [] + a.value == a.value;
      if b.Ok? && c.Ok? {
        assert (a.value + b.value) + c.value == a.value + (b.value + c.value);
      }
    }
  }

  method CollectWordEdits(start: seq<Operation>, words: seq<(int, int)>) returns (r: Result<seq<Operation>>)
    ensures r == Then(Ok(start), WordEdits(words))
  {
    var ops := start;
    for i := 0 to |words|
      invariant Then(Ok(start), WordEdits(words)) == Then(Ok(ops), WordEdits(words[i..]))
    {
      assert words[i..][1..] == words[i + 1..];
      var edit := WordEdit(words[i].0, words[i].1);
      ThenAssociates(Ok(ops), edit, WordEdits(words[i + 1..]));
      if edit.Err? {
        return Err;
      }
      ops := ops + edit.value;
    }
    assert ops + [] == ops;
    return Ok(ops);
  }

  method CollectTable(start: seq<Operation>, fst: Fst, files: seq<Relocated>) returns (r: Result<seq<Operation>>)
    ensures r == Then(Ok(start), TableEdits(fst, files, fst.sourceOffset, fst.targetOffset))
  {
    var ops, sourceCursor, targetCursor := start, fst.sourceOffset, fst.targetOffset;
    for i := 0 to |files|
      invariant Then(Ok(start), TableEdits(fst, files, fst.sourceOffset, fst.targetOffset))
             == Then(Ok(ops), TableEdits(fst, files[i..], sourceCursor, targetCursor))
    {
      assert files[i..][1..] == files[i + 1..];
      var sourceWord := fst.sourceOffset + files[i].fstWordOffset;
      var copySize := sourceWord - sourceCursor;
      var copied := SourceEdit(targetCursor, sourceCursor, copySize);
      var word := WordEdit(targetCursor + copySize, files[i].targetOffset);
      ghost var rest := TableEdits(fst, files[i + 1..], sourceWord + 4, targetCursor + copySize + 4);
      ThenAssociates(Ok(ops), Then(Ok(copied), word), rest);
      ThenAssociates(Ok(ops), Ok(copied), word);
      if word.Err? {
        return Err;
      }
      ops := ops + copied + word.value;
      targetCursor := targetCursor + copySize + 4;
      sourceCursor := sourceWord + 4;
    }
    return Ok(ops + SourceEdit(targetCursor, sourceCursor, fst.sourceOffset + fst.size - sourceCursor));
  }

  method CheckLaid(ordered: seq<Operation>, isoSize: int) returns (ok: bool)
    ensures ok == Laid(ordered, 0, isoSize)
  {
    var cursor := 0;
    for i := 0 to |ordered|
      invariant Laid(ordered, 0, isoSize) == Laid(ordered[i..], cursor, isoSize)
    {
      assert ordered[i..][1..] == ordered[i + 1..];
      if ordered[i].target < cursor {
        return false;
      }
      cursor := ordered[i].End();
    }
    return cursor <= isoSize;
  }

  /** Mirrors `build_operations`. */
  method BuildOperations(layout: Layout, manifest: Manifest) returns (r: Result<seq<Operation>>)
    ensures r == Operations(layout, manifest)
  {
    hide TableEdits, WordEdits, FileEdits, CodeEdits, AllWords, SortBy, BootEdits, Laid, CodeFits;
    if !CodeFits(layout, manifest) {
      return Err;
    }
    var boot := BootEdits(layout);
    if boot.Err? {
      return Err;
    }
    var words := CollectWords(layout, manifest);
    if words.Err? {
      return Err;
    }
    var ops := CollectWordEdits(boot.value, words.value);
    if ops.Err? {
      return Err;
    }
    var coded := ops.value + CodeEdits(layout, manifest.code);
    var table := CollectTable(coded, layout.fst, SortBy(FstWordOffset(), layout.relocated));
    ThenAssociates(Ok(coded), TableEdits(layout.fst, SortBy(FstWordOffset(), layout.relocated), layout.fst.sourceOffset,
                                         layout.fst.targetOffset), Ok(FileEdits(layout.relocated)));
    if table.Err? {
      return Err;
    }
    var ordered := SortBy(TargetOffset(), table.value + FileEdits(layout.relocated));
    var laid := CheckLaid(ordered, layout.isoSize);
    return if laid then Ok(ordered) else Err;
  }

  // ---- facts about the accepted list ----------------------------------------------------------

  predicate AllSized(ops: seq<Operation>) {
    forall op :: op in ops ==> op.Size() > 0
  }

  lemma {:induction false} WordsSized(words: seq<(int, int)>)
    requires WordEdits(words).Ok?
    ensures AllSized(WordEdits(words).value)
    decreases |words|
  {
    if words != [] {
      WordsSized(words[1..]);
    }
  }

  lemma {:induction false} TableSized(fst: Fst, files: seq<Relocated>, s: int, t: int)
    requires TableEdits(fst, files, s, t).Ok?
    ensures AllSized(TableEdits(fst, files, s, t).value)
    decreases |files|
  {
    if files != [] {
      var word := fst.sourceOffset + files[0].fstWordOffset;
      TableSized(fst, files[1..], word + 4, t + (word - s) + 4);
    }
  }

  lemma {:induction false} FilesSized(files: seq<Relocated>)
    ensures AllSized(FileEdits(files))
    decreases |files|
  {
    if files != [] {
      FilesSized(files[1..]);
    }
  }

  lemma RawSized(layout: Layout, manifest: Manifest)
    requires RawOperations(layout, manifest).Ok?
    ensures AllSized(RawOperations(layout, manifest).value)
  {
    hide TableEdits, WordEdits, FileEdits, AllWords, SortBy;
    WordsSized(AllWords(layout, manifest).value);
    TableSized(layout.fst, SortBy(FstWordOffset(), layout.relocated), layout.fst.sourceOffset, layout.fst.targetOffset);
    FilesSized(layout.relocated);
    assert AllSized(CodeEdits(layout, manifest.code));
  }

  /** The accepted edits are exactly the collected ones, each of positive size. */
  lemma OperationsMembers(layout: Layout, manifest: Manifest)
    requires Operations(layout, manifest).Ok?
    ensures RawOperations(layout, manifest).Ok?
    ensures forall op :: op in Operations(layout, manifest).value <==> op in RawOperations(layout, manifest).value
    ensures AllSized(Operations(layout, manifest).value)
    ensures Laid(Operations(layout, manifest).value, 0, layout.isoSize)
  {
    hide RawOperations, SortBy, Laid;
    var raw := RawOperations(layout, manifest).value;
    forall op
      ensures op in SortBy(TargetOffset(), raw) <==> op in raw
    {
      SortMembers(TargetOffset(), raw, op);
    }
    RawSized(layout, manifest);
  }

  /** In a laid-out list every edit starts at or after the cursor, ends within the image, and the
      head is disjoint from the rest. */
  lemma {:induction false} LaidBounds(ops: seq<Operation>, cursor: int, isoSize: int, op: Operation)
    requires Laid(ops, cursor, isoSize) && op in ops
    ensures cursor <= op.target && op.End() <= isoSize
    ensures op == ops[0] || ops[0].End() <= op.target
    decreases |ops|
  {
    LaidEnd(ops[1..], ops[0].End(), isoSize);
    if op != ops[0] {
      assert op in ops[1..];
      LaidBounds(ops[1..], ops[0].End(), isoSize, op);
    }
  }

  lemma {:induction false} LaidEnd(ops: seq<Operation>, cursor: int, isoSize: int)
    requires Laid(ops, cursor, isoSize)
    ensures cursor <= isoSize
    decreases |ops|
  {
    if ops != [] {
      LaidEnd(ops[1..], ops[0].End(), isoSize);
    }
  }

  // ---- which source ranges are needed ---------------------------------------------------------

  /** Mirrors `expected_source_ranges`: the gaps between edits, and the relocated pieces. */
  function Ranges(ops: seq<Operation>, cursor: int, isoSize: int): seq<(int, int)>
    decreases |ops|
  {
    if ops == [] then
      if cursor < isoSize then [(cursor, isoSize - cursor)] else []
    else
      Gap(cursor, ops[0].target) + Piece(ops[0]) + Ranges(ops[1..], ops[0].End(), isoSize)
  }

  function Gap(cursor: int, target: int): seq<(int, int)> {
    if target > cursor then [(cursor, target - cursor)] else []
  }

  function Piece(op: Operation): seq<(int, int)> {
    if op.content.FromSource? then [(op.content.offset, op.content.length)] else []
  }

  predicate CoveredBy(ops: seq<Operation>, p: int) {
    exists op :: op in ops && op.Covers(p)
  }

  /** The same positions edited, and the same pieces moved to the same places. */
  ghost predicate SameShape(a: seq<Operation>, b: seq<Operation>) {
    && (forall p :: CoveredBy(a, p) <==> CoveredBy(b, p))
    && (forall p, offset, length ::
          Operation(p, FromSource(offset, length)) in a <==> Operation(p, FromSource(offset, length)) in b)
  }

  /** What is left of an edit after its first `k` bytes. */
  function Chop(op: Operation, k: nat): Operation
    requires k < op.Size()
  {
    Operation(op.target + k, Zero(op.Size() - k))
  }

  lemma HeadStartsFirst(a: seq<Operation>, b: seq<Operation>, cursor: int, isoSize: int)
    requires Laid(a, cursor, isoSize) && Laid(b, cursor, isoSize) && AllSized(a) && AllSized(b) && SameShape(a, b)
    requires a != []
    ensures b != [] && b[0].target <= a[0].target
  {
    assert a[0] in a && a[0].Covers(a[0].target);
    assert CoveredBy(a, a[0].target);
    var op :| op in b && op.Covers(a[0].target);
    LaidBounds(b, cursor, isoSize, op);
  }

  /** The needed ranges depend on the shape of the edits only: not on how literal data and zero
      fill are cut into pieces, nor on the bytes written. */
  lemma {:induction false} RangesByShape(a: seq<Operation>, b: seq<Operation>, cursor: int, isoSize: int)
    requires Laid(a, cursor, isoSize) && Laid(b, cursor, isoSize) && AllSized(a) && AllSized(b) && SameShape(a, b)
    ensures Ranges(a, cursor, isoSize) == Ranges(b, cursor, isoSize)
    decreases |a| + |b|
  {
    hide SameShape, CoveredBy, Chop, Gap;
    if a == [] && b == [] {
    } else {
      if a != [] {
        HeadStartsFirst(a, b, cursor, isoSize);
      }
      SameShapeSymmetric(a, b);
      HeadStartsFirst(b, a, cursor, isoSize);
      var x, y := a[0], b[0];
      if x.content.FromSource? || y.content.FromSource? {
        HeadPiece(a, b, cursor, isoSize);
        HeadPiece(b, a, cursor, isoSize);
        TailShape(a, b, cursor, isoSize);
        RangesByShape(a[1..], b[1..], x.End(), isoSize);
      } else if x.Size() == y.Size() {
        TailShape(a, b, cursor, isoSize);
        RangesByShape(a[1..], b[1..], x.End(), isoSize);
      } else if x.Size() < y.Size() {
        ChopHead(a, b, cursor, isoSize);
        assert x in a;
        ChopRanges(a, b, cursor, isoSize);
        RangesByShape(a[1..], [Chop(y, x.Size())] + b[1..], x.End(), isoSize);
      } else {
        ChopHead(b, a, cursor, isoSize);
        assert y in b;
        ChopRanges(b, a, cursor, isoSize);
        RangesByShape(b[1..], [Chop(x, y.Size())] + a[1..], y.End(), isoSize);
      }
    }
  }

  lemma ChopRanges(a: seq<Operation>, b: seq<Operation>, cursor: int, isoSize: int)
    requires a != [] && b != [] && a[0].target == b[0].target && 0 < a[0].Size() < b[0].Size()
    requires !a[0].content.FromSource? && !b[0].content.FromSource?
    ensures Ranges(a, cursor, isoSize) == Gap(cursor, a[0].target) + Ranges(a[1..], a[0].End(), isoSize)
    ensures Ranges(b, cursor, isoSize)
         == Gap(cursor, a[0].target) + Ranges([Chop(b[0], a[0].Size())] + b[1..], a[0].End(), isoSize)
  {
    hide Ranges, Gap;
    var cut := [Chop(b[0], a[0].Size())] + b[1..];
    assert cut[1..] == b[1..];
    RangesPastLiteral(a, cursor, isoSize);
    RangesPastLiteral(b, cursor, isoSize);
    RangesPastLiteral(cut, a[0].End(), isoSize);
  }

  lemma RangesPastLiteral(a: seq<Operation>, cursor: int, isoSize: int)
    requires a != [] && !a[0].content.FromSource?
    ensures Ranges(a, cursor, isoSize) == Gap(cursor, a[0].target) + Ranges(a[1..], a[0].End(), isoSize)
    ensures a[0].target <= cursor ==> Ranges(a, cursor, isoSize) == Ranges(a[1..], a[0].End(), isoSize)
  {
    var gap := Gap(cursor, a[0].target);
    assert gap + [] == gap;
    if a[0].target <= cursor {
      assert [] + Ranges(a[1..], a[0].End(), isoSize) == Ranges(a[1..], a[0].End(), isoSize);
    }
  }

  lemma SameShapeSymmetric(a: seq<Operation>, b: seq<Operation>)
    requires SameShape(a, b)
    ensures SameShape(b, a)
  {
  }

  lemma HeadPiece(a: seq<Operation>, b: seq<Operation>, cursor: int, isoSize: int)
    requires Laid(a, cursor, isoSize) && Laid(b, cursor, isoSize) && AllSized(a) && AllSized(b) && SameShape(a, b)
    requires a != [] && b != [] && a[0].target == b[0].target
    ensures a[0].content.FromSource? ==> b[0] == a[0]
  {
    if a[0].content.FromSource? {
      assert a[0] in a;
      assert Operation(a[0].target, FromSource(a[0].content.offset, a[0].content.length)) in b;
      LaidBounds(b, cursor, isoSize, a[0]);
    }
  }

  /** After the heads, which end together, the rest still has the same shape. */
  lemma TailShape(a: seq<Operation>, b: seq<Operation>, cursor: int, isoSize: int)
    requires Laid(a, cursor, isoSize) && Laid(b, cursor, isoSize) && AllSized(a) && AllSized(b) && SameShape(a, b)
    requires a != [] && b != [] && a[0].target == b[0].target && a[0].Size() == b[0].Size()
    requires a[0] == b[0] || (!a[0].content.FromSource? && !b[0].content.FromSource?)
    ensures SameShape(a[1..], b[1..]) && AllSized(a[1..]) && AllSized(b[1..])
  {
    TailCoverage(a, cursor, isoSize);
    TailCoverage(b, cursor, isoSize);
  }

  /** The tail holds exactly the members, and covers exactly the positions, from the head's end on. */
  lemma TailCoverage(a: seq<Operation>, cursor: int, isoSize: int)
    requires Laid(a, cursor, isoSize) && AllSized(a) && a != []
    ensures AllSized(a[1..])
    ensures forall p :: CoveredBy(a[1..], p) <==> CoveredBy(a, p) && p >= a[0].End()
    ensures forall op :: op in a[1..] <==> op in a && op != a[0]
  {
    assert a == [a[0]] + a[1..];
    forall op | op in a[1..]
      ensures op != a[0] && op.target >= a[0].End()
    {
      LaidBounds(a[1..], a[0].End(), isoSize, op);
    }
    forall p
      ensures CoveredBy(a[1..], p) <==> CoveredBy(a, p) && p >= a[0].End()
    {
      if CoveredBy(a[1..], p) {
        var op :| op in a[1..] && op.Covers(p);
        assert op in a;
      }
    }
  }

  /** When one head ends early, cut the other there. */
  lemma ChopHead(a: seq<Operation>, b: seq<Operation>, cursor: int, isoSize: int)
    requires Laid(a, cursor, isoSize) && Laid(b, cursor, isoSize) && AllSized(a) && AllSized(b) && SameShape(a, b)
    requires a != [] && b != [] && a[0].target == b[0].target && a[0].Size() < b[0].Size()
    requires !a[0].content.FromSource? && !b[0].content.FromSource?
    ensures var cut := [Chop(b[0], a[0].Size())] + b[1..];
            SameShape(a[1..], cut) && AllSized(a[1..]) && AllSized(cut) && Laid(cut, a[0].End(), isoSize)
  {
    var rest := Chop(b[0], a[0].Size());
    var cut := [rest] + b[1..];
    TailCoverage(a, cursor, isoSize);
    TailCoverage(b, cursor, isoSize);
    assert cut[1..] == b[1..];
    forall p
      ensures CoveredBy(cut, p) <==> CoveredBy(a[1..], p)
    {
      assert CoveredBy(cut, p) <==> rest.Covers(p) || CoveredBy(b[1..], p) by {
        assert rest in cut;
        if CoveredBy(b[1..], p) {
          var op :| op in b[1..] && op.Covers(p);
          assert op in cut;
        }
      }
      if rest.Covers(p) {
        assert b[0].Covers(p);
      }
    }
  }

  // ---- later manifests need nothing new -------------------------------------------------------

  function Keys(words: seq<(int, int)>): set<int> {
    set i | 0 <= i < |words| :: words[i].0
  }

  function Addresses(writes: seq<Write>): set<int> {
    set i | 0 <= i < |writes| :: writes[i].address
  }

  lemma KeysSplit(words: seq<(int, int)>)
    requires words != []
    ensures Keys(words) == {words[0].0} + Keys(words[1..])
  {
    assert forall i :: 0 < i < |words| ==> words[i] == words[1..][i - 1];
    forall k | k in Keys(words)
      ensures k in {words[0].0} + Keys(words[1..])
    {
      var i :| 0 <= i < |words| && words[i].0 == k;
      if i > 0 {
        assert words[1..][i - 1].0 == k;
      }
    }
    forall k | k in Keys(words[1..])
      ensures k in Keys(words)
    {
      var i :| 0 <= i < |words[1..]| && words[1..][i].0 == k;
      assert words[i + 1].0 == k;
    }
  }

  lemma {:induction false} PutWordKeys(words: seq<(int, int)>, offset: int, value: int)
    ensures Keys(PutWord(words, offset, value)) == Keys(words) + {offset}
    decreases |words|
  {
    var r := PutWord(words, offset, value);
    KeysSplit(r);
    if words == [] {
      assert r[1..] == [];
    } else {
      KeysSplit(words);
      if words[0].0 != offset {
        PutWordKeys(words[1..], offset, value);
        assert r[1..] == PutWord(words[1..], offset, value);
      } else {
        assert r[1..] == words[1..];
      }
    }
  }

  function HookSites(hooks: seq<Hook>, addresses: set<int>): set<int> {
    set a | a in addresses && HookOffset(hooks, a).Ok? :: HookOffset(hooks, a).value
  }

  lemma {:induction false} PutHooksKeys(words: seq<(int, int)>, hooks: seq<Hook>, writes: seq<Write>)
    requires PutHooks(words, hooks, writes).Ok?
    ensures Keys(PutHooks(words, hooks, writes).value) == Keys(words) + HookSites(hooks, Addresses(writes))
    decreases |writes|
  {
    if writes == [] {
      assert HookSites(hooks, {}) == {};
    } else {
      var w, offset := writes[0], HookOffset(hooks, writes[0].address).value;
      PutWordKeys(words, offset, w.value);
      PutHooksKeys(PutWord(words, offset, w.value), hooks, writes[1..]);
      AddressesSplit(writes);
      var rest := Addresses(writes[1..]);
      assert Addresses(writes) == {w.address} + rest;
      assert HookSites(hooks, {w.address} + rest) == {offset} + HookSites(hooks, rest);
    }
  }

  lemma AddressesSplit(writes: seq<Write>)
    requires writes != []
    ensures Addresses(writes) == {writes[0].address} + Addresses(writes[1..])
  {
    forall a | a in Addresses(writes)
      ensures a in {writes[0].address} + Addresses(writes[1..])
    {
      var i :| 0 <= i < |writes| && writes[i].address == a;
      if i > 0 {
        assert writes[1..][i - 1].address == a;
      }
    }
    forall a | a in Addresses(writes[1..])
      ensures a in Addresses(writes)
    {
      var i :| 0 <= i < |writes[1..]| && writes[1..][i].address == a;
      assert writes[i + 1].address == a;
    }
  }

  predicate Sourceless(ops: seq<Operation>) {
    forall op :: op in ops ==> !op.content.FromSource?
  }

  lemma CoveredByConcat(a: seq<Operation>, b: seq<Operation>, p: int)
    ensures CoveredBy(a + b, p) <==> CoveredBy(a, p) || CoveredBy(b, p)
  {
    if CoveredBy(a, p) {
      var op :| op in a && op.Covers(p);
      assert op in a + b;
    }
    if CoveredBy(b, p) {
      var op :| op in b && op.Covers(p);
      assert op in a + b;
    }
  }

  /** Word edits cover the four bytes of each key, whatever the words. */
  lemma {:induction false} WordsCover(words: seq<(int, int)>, p: int)
    requires WordEdits(words).Ok?
    ensures CoveredBy(WordEdits(words).value, p) <==> exists k :: k in Keys(words) && k <= p < k + 4
    ensures Sourceless(WordEdits(words).value)
    decreases |words|
  {
    if words != [] {
      KeysSplit(words);
      var head, tail := WordEdit(words[0].0, words[0].1).value, WordEdits(words[1..]).value;
      WordsCover(words[1..], p);
      CoveredByConcat(head, tail, p);
      assert head[0].Covers(p) <==> words[0].0 <= p < words[0].0 + 4;
      assert CoveredBy(head, p) <==> head[0].Covers(p);
      assert words[0].0 in Keys(words);
    }
  }

  /** The added section covers the region, whatever the code. */
  lemma CodeCovers(layout: Layout, code: seq<byte>, p: int)
    requires |code| <= layout.modRegionSize
    ensures var start := layout.dol.isoOffset + layout.dol.size;
            CoveredBy(CodeEdits(layout, code), p) <==> start <= p < start + layout.modRegionSize
    ensures Sourceless(CodeEdits(layout, code))
  {
    var start := layout.dol.isoOffset + layout.dol.size;
    var a, b := Operation(start, Literal(code)),
        Operation(start + |code|, Zero(Natural(layout.modRegionSize - |code|)));
    if a.Covers(p) {
      assert a in CodeEdits(layout, code);
    } else if b.Covers(p) {
      assert b in CodeEdits(layout, code);
    }
  }

  lemma BootSourceless(layout: Layout)
    requires BootEdits(layout).Ok?
    ensures Sourceless(BootEdits(layout).value)
  {
  }

  /** Two accepted manifests with the same hook addresses edit the same positions. */
  lemma SameRawShape(layout: Layout, m1: Manifest, m2: Manifest)
    requires RawOperations(layout, m1).Ok? && RawOperations(layout, m2).Ok?
    requires Addresses(m1.writes) == Addresses(m2.writes)
    ensures SameShape(RawOperations(layout, m1).value, RawOperations(layout, m2).value)
  {
    hide BootEdits, FixedEdits, WordEdits, CodeEdits, PutHooks, DolWords, Keys, CoveredBy, Sourceless, HookSites,
        Addresses;
    var w1, w2 := AllWords(layout, m1).value, AllWords(layout, m2).value;
    SameKeys(layout, m1, m2);
    var boot, fixed := BootEdits(layout).value, FixedEdits(layout).value;
    var e1, e2 := WordEdits(w1).value, WordEdits(w2).value;
    var c1, c2 := CodeEdits(layout, m1.code), CodeEdits(layout, m2.code);
    assert RawOperations(layout, m1).value == ((boot + e1) + c1) + fixed;
    assert RawOperations(layout, m2).value == ((boot + e2) + c2) + fixed;
    forall p
      ensures CoveredBy(((boot + e1) + c1) + fixed, p) <==> CoveredBy(((boot + e2) + c2) + fixed, p)
    {
      RawCovers(boot, e1, c1, fixed, p);
      RawCovers(boot, e2, c2, fixed, p);
      WordsCover(w1, p);
      WordsCover(w2, p);
      CodeCovers(layout, m1.code, p);
      CodeCovers(layout, m2.code, p);
    }
    BootSourceless(layout);
    WordsCover(w1, 0);
    WordsCover(w2, 0);
    CodeCovers(layout, m1.code, 0);
    CodeCovers(layout, m2.code, 0);
    forall op: Operation | op.content.FromSource?
      ensures op in ((boot + e1) + c1) + fixed <==> op in ((boot + e2) + c2) + fixed
    {
      NotIn(boot, op);
      NotIn(e1, op);
      NotIn(e2, op);
      NotIn(c1, op);
      NotIn(c2, op);
    }
  }

  lemma NotIn(ops: seq<Operation>, op: Operation)
    requires Sourceless(ops) && op.content.FromSource?
    ensures op !in ops
  {
  }

  lemma RawCovers(a: seq<Operation>, b: seq<Operation>, c: seq<Operation>, d: seq<Operation>, p: int)
    ensures CoveredBy(((a + b) + c) + d, p) <==>
              CoveredBy(a, p) || CoveredBy(b, p) || CoveredBy(c, p) || CoveredBy(d, p)
  {
    hide CoveredBy;
    CoveredByConcat((a + b) + c, d, p);
    CoveredByConcat(a + b, c, p);
    CoveredByConcat(a, b, p);
  }

  lemma SameKeys(layout: Layout, m1: Manifest, m2: Manifest)
    requires AllWords(layout, m1).Ok? && AllWords(layout, m2).Ok?
    requires Addresses(m1.writes) == Addresses(m2.writes)
    ensures Keys(AllWords(layout, m1).value) == Keys(AllWords(layout, m2).value)
  {
    hide Keys, PutHooks, Addresses, HookSites;
    PutHooksKeys(DolWords(layout, m1), layout.hooks, m1.writes);
    PutHooksKeys(DolWords(layout, m2), layout.hooks, m2.writes);
    DolWordsKeys(layout, m1, m2);
  }

  lemma DolWordsKeys(layout: Layout, m1: Manifest, m2: Manifest)
    ensures Keys(DolWords(layout, m1)) == Keys(DolWords(layout, m2))
  {
    hide Keys, PutWord;
    var dol := layout.dol;
    var a := dol.isoOffset + DOL_TEXT_OFFSET_TABLE + dol.newTextSlot * 4;
    var b := dol.isoOffset + DOL_TEXT_ADDRESS_TABLE + dol.newTextSlot * 4;
    var c := dol.isoOffset + DOL_TEXT_SIZE_TABLE + dol.newTextSlot * 4;
    var first := PutWord([], a, dol.size);
    PutWordKeys(first, b, m1.baseAddr);
    PutWordKeys(first, b, m2.baseAddr);
    PutWordKeys(PutWord(first, b, m1.baseAddr), c, layout.modRegionSize);
    PutWordKeys(PutWord(first, b, m2.baseAddr), c, layout.modRegionSize);
  }

  /** The source ranges needed do not depend on the code, its length, or the replacement words. */
  lemma RangesStable(layout: Layout, m1: Manifest, m2: Manifest)
    requires Operations(layout, m1).Ok? && Operations(layout, m2).Ok?
    requires Addresses(m1.writes) == Addresses(m2.writes)
    ensures Ranges(Operations(layout, m1).value, 0, layout.isoSize)
            == Ranges(Operations(layout, m2).value, 0, layout.isoSize)
  {
    hide RawOperations, Operations, Addresses, Ranges, Laid, CoveredBy;
    var ops1, ops2 := Operations(layout, m1).value, Operations(layout, m2).value;
    OperationsMembers(layout, m1);
    OperationsMembers(layout, m2);
    var raw1, raw2 := RawOperations(layout, m1).value, RawOperations(layout, m2).value;
    SameRawShape(layout, m1, m2);
    forall p
      ensures CoveredBy(ops1, p) <==> CoveredBy(raw1, p)
      ensures CoveredBy(ops2, p) <==> CoveredBy(raw2, p)
    {
      SameMembersCover(ops1, raw1, p);
      SameMembersCover(ops2, raw2, p);
    }
    RangesByShape(ops1, ops2, 0, layout.isoSize);
  }

  lemma SameMembersCover(a: seq<Operation>, b: seq<Operation>, p: int)
    requires forall op :: op in a <==> op in b
    ensures CoveredBy(a, p) <==> CoveredBy(b, p)
  {
  }
}
