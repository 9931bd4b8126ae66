/** What an applied patch leaves on the disc, in terms of the layout, the manifest and the clean image alone. */
module DiscContents {
  import opened Bytes
  import opened Sorting
  import opened IsoLayout
  import opened LayoutReuse
  import opened DiscPatch
  import BpsNumber
  import opened Bps
  import opened BpsEncoding

  // ---- what the disc holds --------------------------------------------------------------------

  /** The big-endian word at `p` is `value`. */
  predicate WordAt(t: seq<byte>, p: int, value: int) {
    0 <= p && p + 4 <= |t| && Join(t[p], t[p + 1], t[p + 2], t[p + 3]) == value
  }

  predicate SameByte(t: seq<byte>, p: int, source: seq<byte>, from: int) {
    0 <= p < |t| && 0 <= from < |source| && t[p] == source[from]
  }

  /** The mod's code after the executable, and zeros to the end of its region. */
  predicate CodeOnDisc(layout: Layout, manifest: Manifest, t: seq<byte>) {
    var start := layout.dol.isoOffset + layout.dol.size;
    && 0 <= start && start + |manifest.code| <= start + layout.modRegionSize <= |t|
    && t[start..start + |manifest.code|] == manifest.code
    && forall p :: start + |manifest.code| <= p < start + layout.modRegionSize ==> t[p] == 0
  }

  /** Write `i` goes to hook `h`, the first with its address. */
  predicate Lands(layout: Layout, manifest: Manifest, i: int, h: int) {
    && 0 <= i < |manifest.writes| && 0 <= h < |layout.hooks|
    && layout.hooks[h].address == manifest.writes[i].address
    && forall k :: 0 <= k < h ==> layout.hooks[k].address != manifest.writes[i].address
  }

  /** Some write goes to `site`. */
  ghost predicate Hooked(layout: Layout, manifest: Manifest, site: int) {
    exists i, h :: Lands(layout, manifest, i, h) && layout.hooks[h].isoOffset == site
  }

  /** And no later write goes to the same site. */
  ghost predicate LandsLast(layout: Layout, manifest: Manifest, i: int, h: int) {
    && Lands(layout, manifest, i, h)
    && forall j, g :: i < j && Lands(layout, manifest, j, g) ==> layout.hooks[g].isoOffset != layout.hooks[h].isoOffset
  }

  /** Every write stands at its hook's site, unless a later one goes to the same site. */
  ghost predicate HooksOnDisc(layout: Layout, manifest: Manifest, t: seq<byte>) {
    forall i, h :: LandsLast(layout, manifest, i, h) ==>
        WordAt(t, layout.hooks[h].isoOffset, manifest.writes[i].value)
  }

  /** The added section's offset, address and size, in the executable's header. */
  function HeaderWords(layout: Layout, manifest: Manifest): seq<(int, int)> {
    var slot := layout.dol.isoOffset + 4 * layout.dol.newTextSlot;
    [(slot, layout.dol.size), (slot + 0x48, manifest.baseAddr), (slot + 0x90, layout.modRegionSize)]
  }

  /** They stand, but for one that a hook replaces. */
  ghost predicate HeaderOnDisc(layout: Layout, manifest: Manifest, t: seq<byte>) {
    forall w :: w in HeaderWords(layout, manifest) && !Hooked(layout, manifest, w.0) ==> WordAt(t, w.0, w.1)
  }

  predicate BootOnDisc(layout: Layout, t: seq<byte>) {
    WordAt(t, 0x424, layout.fst.targetOffset) && WordAt(t, 0x434, layout.firstFileOffset)
  }

  /** Place `q` of the file table is in some relocated file's offset word. */
  predicate InWord(files: seq<Relocated>, q: int) {
    exists f :: f in files && f.fstWordOffset <= q < f.fstWordOffset + 4
  }

  /** Place `q` is from the table's start, or the first of those words, to its end, or the last of them. */
  predicate InTable(files: seq<Relocated>, from: int, size: int, q: int) {
    && (q >= from || exists f :: f in files && q >= f.fstWordOffset)
    && (q < size || exists f :: f in files && q < f.fstWordOffset + 4)
  }

  /** The file table at its new place: each relocated file's word says where it went, the rest is copied. */
  ghost predicate TableOnDisc(layout: Layout, source: seq<byte>, t: seq<byte>) {
    var fst := layout.fst;
    && (forall f :: f in layout.relocated ==> WordAt(t, fst.targetOffset + f.fstWordOffset, f.targetOffset))
    && (forall q :: InTable(layout.relocated, 0, fst.size, q) && !InWord(layout.relocated, q) ==>
          SameByte(t, fst.targetOffset + q, source, fst.sourceOffset + q))
  }

  predicate Moved(f: Relocated, source: seq<byte>, t: seq<byte>) {
    f.size > 0 ==>
      && 0 <= f.targetOffset && f.targetOffset + f.size <= |t|
      && 0 <= f.sourceOffset && f.sourceOffset + f.size <= |source|
      && t[f.targetOffset..f.targetOffset + f.size] == source[f.sourceOffset..f.sourceOffset + f.size]
  }

  /** Each relocated file's bytes at its new place. */
  predicate FilesOnDisc(layout: Layout, source: seq<byte>, t: seq<byte>) {
    forall f :: f in layout.relocated ==> Moved(f, source, t)
  }

  /** A place one of these parts takes. */
  ghost predicate Edited(layout: Layout, manifest: Manifest, p: int) {
    var start := layout.dol.isoOffset + layout.dol.size;
    || 0x424 <= p < 0x428 || 0x434 <= p < 0x438
    || (exists w :: w in HeaderWords(layout, manifest) && w.0 <= p < w.0 + 4)
    || (exists i, h :: Lands(layout, manifest, i, h) && layout.hooks[h].isoOffset <= p < layout.hooks[h].isoOffset + 4)
    || start <= p < start + layout.modRegionSize
    || InTable(layout.relocated, 0, layout.fst.size, p - layout.fst.targetOffset)
    || (exists f :: f in layout.relocated && f.targetOffset <= p < f.targetOffset + f.size)
  }

  /** The whole image: every part in its place, and the clean image everywhere else. */
  ghost predicate OnDisc(layout: Layout, manifest: Manifest, source: seq<byte>, t: seq<byte>) {
    && |t| == layout.isoSize == |source|
    && CodeOnDisc(layout, manifest, t) && HooksOnDisc(layout, manifest, t) && HeaderOnDisc(layout, manifest, t)
    && BootOnDisc(layout, t) && TableOnDisc(layout, source, t) && FilesOnDisc(layout, source, t)
    && forall p :: 0 <= p < |t| && !Edited(layout, manifest, p) ==> t[p] == source[p]
  }

  // ---- what a list of edits shows -------------------------------------------------------------

  ghost predicate Shown(ops: seq<Operation>, source: seq<byte>, t: seq<byte>) {
    forall op, p :: op in ops && op.Covers(p) ==> 0 <= p < |t| && op.Shows(source, p, t[p])
  }

  // ---- words ----------------------------------------------------------------------------------

  lemma WordShown(ops: seq<Operation>, source: seq<byte>, t: seq<byte>, p: int, value: int)
    requires Shown(ops, source, t) && WordFits(value) && Operation(p, Literal(PutBE32(value))) in ops
    ensures WordAt(t, p, value)
  {
    hide Digit, Join;
    var op := Operation(p, Literal(PutBE32(value)));
    assert op.Covers(p) && op.Covers(p + 1) && op.Covers(p + 2) && op.Covers(p + 3);
    JoinDigits(value);
  }

  lemma {:induction false} WordEdited(words: seq<(int, int)>, w: (int, int))
    requires WordEdits(words).Ok? && w in words
    ensures WordFits(w.1) && Operation(w.0, Literal(PutBE32(w.1))) in WordEdits(words).value
    decreases |words|
  {
    if w != words[0] {
      assert w in words[1..];
      WordEdited(words[1..], w);
    }
  }

  lemma {:induction false} FirstHook(hooks: seq<Hook>, address: int, h: nat)
    requires h < |hooks| && hooks[h].address == address && forall k :: 0 <= k < h ==> hooks[k].address != address
    ensures HookOffset(hooks, address) == Ok(hooks[h].isoOffset)
    decreases |hooks|
  {
    if h > 0 {
      FirstHook(hooks[1..], address, h - 1);
    }
  }

  lemma {:induction false} HookOfOffset(hooks: seq<Hook>, address: int) returns (h: nat)
    requires HookOffset(hooks, address).Ok?
    ensures h < |hooks| && hooks[h].address == address && forall k :: 0 <= k < h ==> hooks[k].address != address
    ensures HookOffset(hooks, address).value == hooks[h].isoOffset
    decreases |hooks|
  {
    if hooks[0].address == address {
      h := 0;
    } else {
      h := HookOfOffset(hooks[1..], address);
      h := h + 1;
    }
  }

  /** The last write to a site is the one the dictionary ends with. */
  lemma {:induction false} LastWriteStands(words: seq<(int, int)>, hooks: seq<Hook>, writes: seq<Write>, i: nat,
                                           site: int)
    requires DistinctKeys(words) && PutHooks(words, hooks, writes).Ok? && i < |writes|
    requires HookOffset(hooks, writes[i].address) == Ok(site)
    requires forall j :: i < j < |writes| ==> HookOffset(hooks, writes[j].address) != Ok(site)
    ensures (site, writes[i].value) in PutHooks(words, hooks, writes).value
    decreases |writes|
  {
    var w := writes[0];
    var offset := HookOffset(hooks, w.address).value;
    var next := PutWord(words, offset, w.value);
    PutWordDistinct(words, offset, w.value);
    if i == 0 {
      PutWordMembers(words, offset, w.value, (site, w.value));
      assert forall j :: 0 <= j < |writes[1..]| ==> writes[1..][j] == writes[j + 1];
      HookedWord(next, hooks, writes[1..], (site, w.value));
    } else {
      LastWriteStands(next, hooks, writes[1..], i - 1, site);
    }
  }

  lemma HeaderMembers(layout: Layout, manifest: Manifest, w: (int, int))
    requires w in HeaderWords(layout, manifest)
    ensures w in DolWords(layout, manifest) && DistinctKeys(DolWords(layout, manifest))
  {
    hide PutWord, DistinctKeys;
    var dol := layout.dol;
    var a, b, c := HeaderWords(layout, manifest)[0], HeaderWords(layout, manifest)[1], HeaderWords(layout, manifest)[2];
    NoKeys();
    PutWordDistinct([], a.0, a.1);
    PutWordMembers([], a.0, a.1, w);
    var one := PutWord([], a.0, a.1);
    PutWordDistinct(one, b.0, b.1);
    PutWordMembers(one, b.0, b.1, w);
    var two := PutWord(one, b.0, b.1);
    PutWordDistinct(two, c.0, c.1);
    PutWordMembers(two, c.0, c.1, w);
  }

  // ---- the parts, one by one ------------------------------------------------------------------

  lemma WordsHold(layout: Layout, manifest: Manifest, source: seq<byte>, t: seq<byte>)
    requires AllWords(layout, manifest).Ok? && WordEdits(AllWords(layout, manifest).value).Ok?
    requires Shown(WordEdits(AllWords(layout, manifest).value).value, source, t)
    ensures HooksOnDisc(layout, manifest, t) && HeaderOnDisc(layout, manifest, t)
  {
    hide WordAt, Shown, PutHooks, DolWords, HeaderWords, WordEdits, Keys, HookSites;
    var words := AllWords(layout, manifest).value;
    DolWordsDistinct(layout, manifest);
    forall i, h | LandsLast(layout, manifest, i, h)
      ensures WordAt(t, layout.hooks[h].isoOffset, manifest.writes[i].value)
    {
      LandedStands(layout, manifest, i, h);
      var w := (layout.hooks[h].isoOffset, manifest.writes[i].value);
      WordEdited(words, w);
      WordShown(WordEdits(words).value, source, t, w.0, w.1);
    }
    forall w | w in HeaderWords(layout, manifest) && !Hooked(layout, manifest, w.0)
      ensures WordAt(t, w.0, w.1)
    {
      HeaderMembers(layout, manifest, w);
      SitesAreHooked(layout, manifest, w.0);
      HookedWord(DolWords(layout, manifest), layout.hooks, manifest.writes, w);
      WordEdited(words, w);
      WordShown(WordEdits(words).value, source, t, w.0, w.1);
    }
  }

  lemma LandedStands(layout: Layout, manifest: Manifest, i: nat, h: nat)
    requires AllWords(layout, manifest).Ok? && LandsLast(layout, manifest, i, h)
    ensures (layout.hooks[h].isoOffset, manifest.writes[i].value) in AllWords(layout, manifest).value
  {
    hide PutHooks, DolWords;
    var site := layout.hooks[h].isoOffset;
    FirstHook(layout.hooks, manifest.writes[i].address, h);
    forall j | i < j < |manifest.writes|
      ensures HookOffset(layout.hooks, manifest.writes[j].address) != Ok(site)
    {
      if HookOffset(layout.hooks, manifest.writes[j].address).Ok? {
        var g := HookOfOffset(layout.hooks, manifest.writes[j].address);
        assert Lands(layout, manifest, j, g);
      }
    }
    DolWordsDistinct(layout, manifest);
    LastWriteStands(DolWords(layout, manifest), layout.hooks, manifest.writes, i, site);
  }

  lemma SitesAreHooked(layout: Layout, manifest: Manifest, site: int)
    ensures site in HookSites(layout.hooks, Addresses(manifest.writes)) <==> Hooked(layout, manifest, site)
  {
    if site in HookSites(layout.hooks, Addresses(manifest.writes)) {
      var a :| a in Addresses(manifest.writes) && HookOffset(layout.hooks, a) == Ok(site);
      var i :| 0 <= i < |manifest.writes| && manifest.writes[i].address == a;
      var h := HookOfOffset(layout.hooks, a);
      assert Lands(layout, manifest, i, h);
    }
    if Hooked(layout, manifest, site) {
      var i, h :| Lands(layout, manifest, i, h) && layout.hooks[h].isoOffset == site;
      FirstHook(layout.hooks, manifest.writes[i].address, h);
      assert manifest.writes[i].address in Addresses(manifest.writes);
    }
  }

  lemma CodeHolds(layout: Layout, manifest: Manifest, source: seq<byte>, t: seq<byte>)
    requires CodeFits(layout, manifest) && layout.modRegionSize > 0
    requires Shown(CodeEdits(layout, manifest.code), source, t)
    ensures CodeOnDisc(layout, manifest, t)
  {
    var start, code, region := layout.dol.isoOffset + layout.dol.size, manifest.code, layout.modRegionSize;
    var a := Operation(start, Literal(code));
    var b := Operation(start + |code|, Zero(Natural(region - |code|)));
    assert |code| > 0 ==> a in CodeEdits(layout, code) && a.Covers(start);
    assert |code| < region ==> b in CodeEdits(layout, code) && b.Covers(start + |code|);
    assert |code| < region ==> b.Covers(start + region - 1);
    assert |code| == region ==> a.Covers(start + region - 1);
    forall p | start <= p < start + |code|
      ensures t[p] == code[p - start]
    {
      assert a.Covers(p);
    }
    forall p | start + |code| <= p < start + region
      ensures t[p] == 0
    {
      assert b.Covers(p);
    }
  }

  lemma BootHolds(layout: Layout, source: seq<byte>, t: seq<byte>)
    requires BootEdits(layout).Ok? && Shown(BootEdits(layout).value, source, t)
    ensures BootOnDisc(layout, t)
  {
    hide WordAt, Shown, PutBE32;
    var ops := BootEdits(layout).value;
    WordShown(ops, source, t, 0x424, layout.fst.targetOffset);
    WordShown(ops, source, t, 0x434, layout.firstFileOffset);
  }

  // ---- the file table -------------------------------------------------------------------------

  /** A copy that keeps the table's displacement, or a relocated file's word. */
  predicate TablePiece(fst: Fst, files: seq<Relocated>, op: Operation) {
    || (op.content.FromSource? && op.target - op.content.offset == fst.targetOffset - fst.sourceOffset)
    || (exists f :: f in files && WordFits(f.targetOffset) &&
           op == Operation(fst.targetOffset + f.fstWordOffset, Literal(PutBE32(f.targetOffset))))
  }

  /** The first copy, the first word, and the rest. */
  lemma TableSplits(fst: Fst, files: seq<Relocated>, from: int)
    requires files != [] && TableEdits(fst, files, fst.sourceOffset + from, fst.targetOffset + from).Ok?
    ensures var f := files[0];
            var tail := TableEdits(fst, files[1..], fst.sourceOffset + (f.fstWordOffset + 4),
                                   fst.targetOffset + (f.fstWordOffset + 4));
            && WordFits(f.targetOffset) && tail.Ok?
            && TableEdits(fst, files, fst.sourceOffset + from, fst.targetOffset + from).value
               == (SourceEdit(fst.targetOffset + from, fst.sourceOffset + from, f.fstWordOffset - from)
                   + [Operation(fst.targetOffset + f.fstWordOffset, Literal(PutBE32(f.targetOffset)))]) + tail.value
  {
    hide Digit;
  }

  lemma TablePieceMore(fst: Fst, files: seq<Relocated>, op: Operation)
    requires files != [] && TablePiece(fst, files[1..], op)
    ensures TablePiece(fst, files, op)
  {
    assert files == [files[0]] + files[1..];
  }

  lemma CopyIsPiece(fst: Fst, files: seq<Relocated>, from: int, size: int)
    ensures forall op :: op in SourceEdit(fst.targetOffset + from, fst.sourceOffset + from, size) ==>
              TablePiece(fst, files, op)
  {
  }

  predicate HasWord(fst: Fst, ops: seq<Operation>, f: Relocated) {
    && WordFits(f.targetOffset)
    && Operation(fst.targetOffset + f.fstWordOffset, Literal(PutBE32(f.targetOffset))) in ops
  }

  lemma {:induction false} TableMembers(fst: Fst, files: seq<Relocated>, from: int)
    requires TableEdits(fst, files, fst.sourceOffset + from, fst.targetOffset + from).Ok?
    ensures var ops := TableEdits(fst, files, fst.sourceOffset + from, fst.targetOffset + from).value;
            && (forall op :: op in ops ==> TablePiece(fst, files, op))
            && (forall f :: f in files ==> HasWord(fst, ops, f))
    decreases |files|
  {
    hide PutBE32, TablePiece, SourceEdit;
    if files == [] {
      CopyIsPiece(fst, files, from, fst.size - from);
    } else {
      hide TableEdits;
      var f := files[0];
      var word := Operation(fst.targetOffset + f.fstWordOffset, Literal(PutBE32(f.targetOffset)));
      TableSplits(fst, files, from);
      TableMembers(fst, files[1..], f.fstWordOffset + 4);
      CopyIsPiece(fst, files, from, f.fstWordOffset - from);
      assert files == [f] + files[1..];
      WordIsPiece(fst, files, f);
      forall op | TablePiece(fst, files[1..], op)
        ensures TablePiece(fst, files, op)
      {
        TablePieceMore(fst, files, op);
      }
    }
  }

  lemma WordIsPiece(fst: Fst, files: seq<Relocated>, f: Relocated)
    requires f in files && WordFits(f.targetOffset)
    ensures TablePiece(fst, files, Operation(fst.targetOffset + f.fstWordOffset, Literal(PutBE32(f.targetOffset))))
  {
  }

  /** The table's edits cover its whole span, whatever the order of cursor and words. */
  lemma {:induction false} TableCovers(fst: Fst, files: seq<Relocated>, from: int, q: int)
    requires TableEdits(fst, files, fst.sourceOffset + from, fst.targetOffset + from).Ok?
    requires InOrder(FstWordOffset(), files)
    ensures CoveredBy(TableEdits(fst, files, fst.sourceOffset + from, fst.targetOffset + from).value,
                      fst.targetOffset + q)
            <==> InTable(files, from, fst.size, q)
    decreases |files|
  {
    hide PutBE32, InOrder, InTable, CoveredBy, SourceEdit;
    var p := fst.targetOffset + q;
    if files == [] {
      CopyCovers(fst, from, fst.size, q);
      InTableAlone(from, fst.size, q);
    } else {
      var f := files[0];
      var copy := SourceEdit(fst.targetOffset + from, fst.sourceOffset + from, f.fstWordOffset - from);
      var word := Operation(fst.targetOffset + f.fstWordOffset, Literal(PutBE32(f.targetOffset)));
      TableSplits(fst, files, from);
      InOrderTail(files);
      TableCovers(fst, files[1..], f.fstWordOffset + 4, q);
      hide TableEdits;
      var tail := TableEdits(fst, files[1..], fst.sourceOffset + (f.fstWordOffset + 4),
                             fst.targetOffset + (f.fstWordOffset + 4)).value;
      CoveredByConcat(copy + [word], tail, p);
      CoveredByConcat(copy, [word], p);
      CopyCovers(fst, from, f.fstWordOffset, q);
      OneCovers(word, p);
      InTableSplits(files, from, fst.size, q);
    }
  }

  lemma InTableAlone(from: int, size: int, q: int)
    ensures InTable([], from, size, q) <==> from <= q < size
  {
  }

  lemma OneCovers(op: Operation, p: int)
    ensures CoveredBy([op], p) <==> op.Covers(p)
  {
    assert op in [op];
  }

  lemma CopyCovers(fst: Fst, from: int, upTo: int, q: int)
    ensures CoveredBy(SourceEdit(fst.targetOffset + from, fst.sourceOffset + from, upTo - from), fst.targetOffset + q)
            <==> from <= q < upTo
  {
    var ops := SourceEdit(fst.targetOffset + from, fst.sourceOffset + from, upTo - from);
    if from < upTo {
      assert ops[0] in ops;
    }
  }

  lemma InTableSplits(files: seq<Relocated>, from: int, size: int, q: int)
    requires files != [] && forall f :: f in files[1..] ==> files[0].fstWordOffset <= f.fstWordOffset
    ensures var first := files[0].fstWordOffset;
            InTable(files, from, size, q) <==>
              from <= q < first || first <= q < first + 4 || InTable(files[1..], first + 4, size, q)
  {
    assert files == [files[0]] + files[1..];
    var first := files[0].fstWordOffset;
    if q < first {
      assert forall f :: f in files ==> q < f.fstWordOffset;
      assert files[0] in files;
    } else if q < first + 4 {
      assert files[0] in files;
    } else {
      assert files[0] in files;
      assert (exists f :: f in files && q < f.fstWordOffset + 4) <==>
             (exists f :: f in files[1..] && q < f.fstWordOffset + 4);
    }
  }

  lemma InOrderTail(files: seq<Relocated>)
    requires files != [] && InOrder(FstWordOffset(), files)
    ensures InOrder(FstWordOffset(), files[1..])
    ensures forall f :: f in files[1..] ==> files[0].fstWordOffset <= f.fstWordOffset
  {
    forall f | f in files[1..]
      ensures files[0].fstWordOffset <= f.fstWordOffset
    {
      var i :| 0 <= i < |files[1..]| && files[1..][i] == f;
      assert FstWordOffset()(files[0]) <= FstWordOffset()(files[i + 1]);
    }
    forall i, j | 0 <= i < j < |files[1..]|
      ensures FstWordOffset()(files[1..][i]) <= FstWordOffset()(files[1..][j])
    {
      assert files[1..][i] == files[i + 1] && files[1..][j] == files[j + 1];
    }
  }

  lemma TableHolds(layout: Layout, ops: seq<Operation>, source: seq<byte>, t: seq<byte>)
    requires var sorted := SortBy(FstWordOffset(), layout.relocated);
             TableEdits(layout.fst, sorted, layout.fst.sourceOffset, layout.fst.targetOffset) == Ok(ops)
    requires Shown(ops, source, t)
    ensures TableOnDisc(layout, source, t)
    ensures forall q :: CoveredBy(ops, layout.fst.targetOffset + q) <==>
                        InTable(layout.relocated, 0, layout.fst.size, q)
  {
    hide WordAt, SortBy, PutBE32, TableEdits, InOrder;
    var fst, files, sorted := layout.fst, layout.relocated, SortBy(FstWordOffset(), layout.relocated);
    forall f
      ensures f in sorted <==> f in files
    {
      SortMembers(FstWordOffset(), files, f);
    }
    SortInOrder(FstWordOffset(), files);
    TableMembers(fst, sorted, 0);
    forall f | f in files
      ensures WordAt(t, fst.targetOffset + f.fstWordOffset, f.targetOffset)
    {
      assert HasWord(fst, ops, f);
      WordShown(ops, source, t, fst.targetOffset + f.fstWordOffset, f.targetOffset);
    }
    forall q
      ensures CoveredBy(ops, fst.targetOffset + q) <==> InTable(files, 0, fst.size, q)
    {
      TableCovers(fst, sorted, 0, q);
    }
    forall q | InTable(files, 0, fst.size, q) && !InWord(files, q)
      ensures SameByte(t, fst.targetOffset + q, source, fst.sourceOffset + q)
    {
      var op :| op in ops && op.Covers(fst.targetOffset + q);
      CopiedPiece(fst, sorted, op, q);
      assert op.Shows(source, fst.targetOffset + q, t[fst.targetOffset + q]);
    }
  }

  lemma CopiedPiece(fst: Fst, files: seq<Relocated>, op: Operation, q: int)
    requires TablePiece(fst, files, op) && op.Covers(fst.targetOffset + q) && !InWord(files, q)
    ensures op.content.FromSource? && op.target - op.content.offset == fst.targetOffset - fst.sourceOffset
  {
  }

  // ---- the moved files ------------------------------------------------------------------------

  lemma {:induction false} FileEdited(files: seq<Relocated>, f: Relocated)
    requires f in files && f.size > 0
    ensures Operation(f.targetOffset, FromSource(f.sourceOffset, f.size)) in FileEdits(files)
    decreases |files|
  {
    if f != files[0] {
      FileEdited(files[1..], f);
    }
  }

  lemma {:induction false} FilesCover(files: seq<Relocated>, p: int)
    requires CoveredBy(FileEdits(files), p)
    ensures exists f :: f in files && f.targetOffset <= p < f.targetOffset + f.size
    decreases |files|
  {
    var head := SourceEdit(files[0].targetOffset, files[0].sourceOffset, files[0].size);
    CoveredByConcat(head, FileEdits(files[1..]), p);
    if CoveredBy(head, p) {
      assert files[0] in files;
    } else {
      FilesCover(files[1..], p);
      var f :| f in files[1..] && f.targetOffset <= p < f.targetOffset + f.size;
      assert f in files;
    }
  }

  lemma FilesHold(layout: Layout, source: seq<byte>, t: seq<byte>)
    requires Shown(FileEdits(layout.relocated), source, t)
    ensures FilesOnDisc(layout, source, t)
  {
    forall f | f in layout.relocated
      ensures Moved(f, source, t)
    {
      if f.size > 0 {
        FileEdited(layout.relocated, f);
        var op := Operation(f.targetOffset, FromSource(f.sourceOffset, f.size));
        assert op.Covers(op.target) && op.Covers(op.End() - 1);
        forall p | op.target <= p < op.End()
          ensures t[p] == source[f.sourceOffset + (p - f.targetOffset)]
        {
          assert op.Covers(p);
        }
      }
    }
  }

  // ---- the whole image ------------------------------------------------------------------------

  lemma PartShown(ops: seq<Operation>, part: seq<Operation>, source: seq<byte>, t: seq<byte>)
    requires Shown(ops, source, t) && forall op :: op in part ==> op in ops
    ensures Shown(part, source, t)
  {
  }

  function TableOf(layout: Layout): Result<seq<Operation>> {
    TableEdits(layout.fst, SortBy(FstWordOffset(), layout.relocated), layout.fst.sourceOffset, layout.fst.targetOffset)
  }

  lemma WordPlaces(layout: Layout, manifest: Manifest, p: int)
    requires AllWords(layout, manifest).Ok? && WordEdits(AllWords(layout, manifest).value).Ok?
    requires CoveredBy(WordEdits(AllWords(layout, manifest).value).value, p)
    ensures Edited(layout, manifest, p)
  {
    hide PutHooks, DolWords, HeaderWords, WordEdits, InTable, HookSites, Lands, CoveredBy, Addresses;
    WordsCover(AllWords(layout, manifest).value, p);
    PutHooksKeys(DolWords(layout, manifest), layout.hooks, manifest.writes);
    var k :| k in Keys(AllWords(layout, manifest).value) && k <= p < k + 4;
    if k in HookSites(layout.hooks, Addresses(manifest.writes)) {
      SitesAreHooked(layout, manifest, k);
    } else {
      HeaderKeys(layout, manifest, k);
    }
  }

  lemma HeaderKeys(layout: Layout, manifest: Manifest, k: int)
    requires k in Keys(DolWords(layout, manifest))
    ensures exists w :: w in HeaderWords(layout, manifest) && w.0 == k
  {
    hide PutWord, Keys;
    var words := HeaderWords(layout, manifest);
    var one := PutWord([], words[0].0, words[0].1);
    var two := PutWord(one, words[1].0, words[1].1);
    PutWordKeys([], words[0].0, words[0].1);
    PutWordKeys(one, words[1].0, words[1].1);
    PutWordKeys(two, words[2].0, words[2].1);
    NoKeysYet();
    assert words[0] in words && words[1] in words && words[2] in words;
  }

  lemma NoKeysYet()
    ensures Keys([]) == {}
  {
  }

  /** Nothing but the parts is edited. */
  lemma EditedOnly(layout: Layout, manifest: Manifest, p: int)
    requires RawOperations(layout, manifest).Ok? && CoveredBy(RawOperations(layout, manifest).value, p)
    requires CoveredBy(TableOf(layout).value, p) ==>
               InTable(layout.relocated, 0, layout.fst.size, p - layout.fst.targetOffset)
    ensures Edited(layout, manifest, p)
  {
    hide WordEdits, AllWords, CodeEdits, FileEdits, TableEdits, SortBy, CoveredBy, Lands, HeaderWords, InTable;
    var boot, words := BootEdits(layout).value, WordEdits(AllWords(layout, manifest).value).value;
    var code, fixed := CodeEdits(layout, manifest.code), FixedEdits(layout).value;
    RawCovers(boot, words, code, fixed, p);
    CoveredByConcat(TableOf(layout).value, FileEdits(layout.relocated), p);
    if CoveredBy(boot, p) {
      BootPlaces(layout, p);
    } else if CoveredBy(words, p) {
      WordPlaces(layout, manifest, p);
    } else if CoveredBy(code, p) {
      CodeCovers(layout, manifest.code, p);
    } else if CoveredBy(FileEdits(layout.relocated), p) {
      FilesCover(layout.relocated, p);
    }
  }

  lemma BootPlaces(layout: Layout, p: int)
    requires BootEdits(layout).Ok? && CoveredBy(BootEdits(layout).value, p)
    ensures 0x424 <= p < 0x428 || 0x434 <= p < 0x438
  {
  }

  lemma SubstitutedOnDisc(layout: Layout, manifest: Manifest, source: seq<byte>, t: seq<byte>)
    requires Operations(layout, manifest).Ok? && layout.modRegionSize > 0
    requires RawOperations(layout, manifest).Ok? && |source| == layout.isoSize
    requires Substituted(RawOperations(layout, manifest).value, source, t)
    ensures OnDisc(layout, manifest, source, t)
  {
    hide WordEdits, AllWords, CodeEdits, FileEdits, TableEdits, BootEdits, SortBy, CoveredBy, Operations, CodeOnDisc,
        HooksOnDisc, HeaderOnDisc, BootOnDisc, TableOnDisc, FilesOnDisc, Edited, InTable, CodeFits;
    var raw := RawOperations(layout, manifest).value;
    assert Shown(raw, source, t);
    hide Shown;
    var table := TableOf(layout).value;
    PartShown(raw, BootEdits(layout).value, source, t);
    PartShown(raw, WordEdits(AllWords(layout, manifest).value).value, source, t);
    PartShown(raw, CodeEdits(layout, manifest.code), source, t);
    PartShown(raw, table, source, t);
    PartShown(raw, FileEdits(layout.relocated), source, t);
    BootHolds(layout, source, t);
    WordsHold(layout, manifest, source, t);
    CodeHolds(layout, manifest, source, t);
    TableHolds(layout, table, source, t);
    FilesHold(layout, source, t);
    forall p | 0 <= p < |t| && !Edited(layout, manifest, p)
      ensures t[p] == source[p]
    {
      if CoveredBy(raw, p) {
        assert p == layout.fst.targetOffset + (p - layout.fst.targetOffset);
        EditedOnly(layout, manifest, p);
      }
    }
  }

  /** What the interpreter makes of a built patch and the clean image: the mod's code and every hook, the
      header and boot words, the file table and the moved files at their places, and the clean image
      elsewhere. It makes something of it whenever the image is within a quarter of the number range. */
  lemma PatchedDisc(layout: Layout, manifest: Manifest, source: seq<byte>)
    requires PatchOf(layout, manifest).Ok? && CleanSource(layout, source)
    ensures var applied := Apply(source, PatchOf(layout, manifest).value);
            && (applied.Ok? ==> OnDisc(layout, manifest, source, applied.value))
            && (4 * layout.isoSize <= NUMBER_LIMIT ==> applied.Ok?)
  {
    hide Apply, Plan, Encoded, RawOperations, Operations, Matches, OnDisc, Substituted, Fits, Checksum;
    PatchApplies(layout, manifest, source);
    if 4 * layout.isoSize <= NUMBER_LIMIT {
      BuiltPatchIsRight(layout, manifest, source);
    }
    var applied := Apply(source, PatchOf(layout, manifest).value);
    if applied.Ok? {
      SubstitutedOnDisc(layout, manifest, source, applied.value);
    }
  }

  // ---- nothing is left open -------------------------------------------------------------------

  lemma WordsAgree(t1: seq<byte>, t2: seq<byte>, at: int, value: int, p: int)
    requires WordAt(t1, at, value) && WordAt(t2, at, value) && at <= p < at + 4
    ensures 0 <= p < |t1| && p < |t2| && t1[p] == t2[p]
  {
    hide Digit, Join;
    DigitsJoin(t1[at], t1[at + 1], t1[at + 2], t1[at + 3]);
    DigitsJoin(t2[at], t2[at + 1], t2[at + 2], t2[at + 3]);
  }

  lemma {:induction false} LastLanding(layout: Layout, manifest: Manifest, i: nat, h: nat) returns (j: nat, g: nat)
    requires Lands(layout, manifest, i, h)
    ensures LandsLast(layout, manifest, j, g) && layout.hooks[g].isoOffset == layout.hooks[h].isoOffset
    decreases |manifest.writes| - i
  {
    if LandsLast(layout, manifest, i, h) {
      j, g := i, h;
    } else {
      var k, f :| i < k && Lands(layout, manifest, k, f) && layout.hooks[f].isoOffset == layout.hooks[h].isoOffset;
      j, g := LastLanding(layout, manifest, k, f);
    }
  }

  lemma HooksAgree(layout: Layout, manifest: Manifest, t1: seq<byte>, t2: seq<byte>, i: nat, h: nat, p: int)
    requires HooksOnDisc(layout, manifest, t1) && HooksOnDisc(layout, manifest, t2)
    requires Lands(layout, manifest, i, h) && layout.hooks[h].isoOffset <= p < layout.hooks[h].isoOffset + 4
    ensures 0 <= p < |t1| && p < |t2| && t1[p] == t2[p]
  {
    hide WordAt;
    var j, g := LastLanding(layout, manifest, i, h);
    WordsAgree(t1, t2, layout.hooks[g].isoOffset, manifest.writes[j].value, p);
  }

  lemma TableAgrees(layout: Layout, source: seq<byte>, t1: seq<byte>, t2: seq<byte>, q: int)
    requires TableOnDisc(layout, source, t1) && TableOnDisc(layout, source, t2)
    requires InTable(layout.relocated, 0, layout.fst.size, q)
    ensures var p := layout.fst.targetOffset + q; 0 <= p < |t1| && p < |t2| && t1[p] == t2[p]
  {
    hide WordAt, InTable;
    if InWord(layout.relocated, q) {
      var f :| f in layout.relocated && f.fstWordOffset <= q < f.fstWordOffset + 4;
      var at := layout.fst.targetOffset + f.fstWordOffset;
      WordsAgree(t1, t2, at, f.targetOffset, layout.fst.targetOffset + q);
    }
  }

  lemma SiteAgrees(layout: Layout, manifest: Manifest, t1: seq<byte>, t2: seq<byte>, site: int, p: int)
    requires HooksOnDisc(layout, manifest, t1) && HooksOnDisc(layout, manifest, t2)
    requires Hooked(layout, manifest, site) && site <= p < site + 4
    ensures 0 <= p < |t1| && p < |t2| && t1[p] == t2[p]
  {
    hide HooksOnDisc;
    var i, h :| Lands(layout, manifest, i, h) && layout.hooks[h].isoOffset == site;
    HooksAgree(layout, manifest, t1, t2, i, h, p);
  }

  lemma HeaderAgrees(layout: Layout, manifest: Manifest, t1: seq<byte>, t2: seq<byte>, w: (int, int), p: int)
    requires HeaderOnDisc(layout, manifest, t1) && HeaderOnDisc(layout, manifest, t2)
    requires HooksOnDisc(layout, manifest, t1) && HooksOnDisc(layout, manifest, t2)
    requires w in HeaderWords(layout, manifest) && w.0 <= p < w.0 + 4
    ensures 0 <= p < |t1| && p < |t2| && t1[p] == t2[p]
  {
    hide WordAt, HeaderWords, HooksOnDisc, Hooked;
    if Hooked(layout, manifest, w.0) {
      SiteAgrees(layout, manifest, t1, t2, w.0, p);
    } else {
      WordsAgree(t1, t2, w.0, w.1, p);
    }
  }

  lemma MovedAgree(f: Relocated, source: seq<byte>, t1: seq<byte>, t2: seq<byte>, p: int)
    requires Moved(f, source, t1) && Moved(f, source, t2) && f.targetOffset <= p < f.targetOffset + f.size
    ensures 0 <= p < |t1| && p < |t2| && t1[p] == t2[p]
  {
    var a, b := f.targetOffset, f.targetOffset + f.size;
    assert t1[a..b][p - a] == t1[p] && t2[a..b][p - a] == t2[p];
  }

  lemma CodeAgrees(layout: Layout, manifest: Manifest, t1: seq<byte>, t2: seq<byte>, p: int)
    requires CodeOnDisc(layout, manifest, t1) && CodeOnDisc(layout, manifest, t2)
    requires var start := layout.dol.isoOffset + layout.dol.size; start <= p < start + layout.modRegionSize
    ensures 0 <= p < |t1| && p < |t2| && t1[p] == t2[p]
  {
    var a, b := layout.dol.isoOffset + layout.dol.size, layout.dol.isoOffset + layout.dol.size + |manifest.code|;
    if p < b {
      assert t1[a..b][p - a] == t1[p] && t2[a..b][p - a] == t2[p];
    }
  }

  lemma EditedAgree(layout: Layout, manifest: Manifest, source: seq<byte>, t1: seq<byte>, t2: seq<byte>, p: int)
    requires OnDisc(layout, manifest, source, t1) && OnDisc(layout, manifest, source, t2)
    requires 0 <= p < |t1| && Edited(layout, manifest, p)
    ensures t1[p] == t2[p]
  {
    hide WordAt, HeaderWords, InTable, HooksOnDisc, HeaderOnDisc, TableOnDisc, CodeOnDisc, Moved;
    var start, q := layout.dol.isoOffset + layout.dol.size, p - layout.fst.targetOffset;
    if 0x424 <= p < 0x428 {
      WordsAgree(t1, t2, 0x424, layout.fst.targetOffset, p);
    } else if 0x434 <= p < 0x438 {
      WordsAgree(t1, t2, 0x434, layout.firstFileOffset, p);
    } else if start <= p < start + layout.modRegionSize {
      CodeAgrees(layout, manifest, t1, t2, p);
    } else if InTable(layout.relocated, 0, layout.fst.size, q) {
      TableAgrees(layout, source, t1, t2, q);
    } else if f :| f in layout.relocated && f.targetOffset <= p < f.targetOffset + f.size {
      MovedAgree(f, source, t1, t2, p);
    } else if w :| w in HeaderWords(layout, manifest) && w.0 <= p < w.0 + 4 {
      HeaderAgrees(layout, manifest, t1, t2, w, p);
    } else {
      var i, h :| Lands(layout, manifest, i, h) && layout.hooks[h].isoOffset <= p < layout.hooks[h].isoOffset + 4;
      HooksAgree(layout, manifest, t1, t2, i, h, p);
    }
  }

  /** These statements settle every byte of the image. */
  lemma OnDiscUnique(layout: Layout, manifest: Manifest, source: seq<byte>, t1: seq<byte>, t2: seq<byte>)
    requires OnDisc(layout, manifest, source, t1) && OnDisc(layout, manifest, source, t2)
    ensures t1 == t2
  {
    hide Edited, CodeOnDisc, HooksOnDisc, HeaderOnDisc, BootOnDisc, TableOnDisc, FilesOnDisc;
    forall p | 0 <= p < |t1|
      ensures t1[p] == t2[p]
    {
      if Edited(layout, manifest, p) {
        EditedAgree(layout, manifest, source, t1, t2, p);
      }
    }
  }
}
