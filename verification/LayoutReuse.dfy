/** Why a layout that once built keeps building: whether edits lie apart within the image depends on the
    positions they cover, and those do not depend on the manifest's code or words. */
module LayoutReuse {
  import opened Bytes
  import opened IsoLayout
  import opened Sorting

  // ---- what the sorted overlap check decides --------------------------------------------------

  predicate Disjoint(a: Operation, b: Operation) { a.End() <= b.target || b.End() <= a.target }

  predicate Apart(ops: seq<Operation>) {
    forall i, j :: 0 <= i < j < |ops| ==> Disjoint(ops[i], ops[j])
  }

  predicate Inside(ops: seq<Operation>, cursor: int, isoSize: int) {
    cursor <= isoSize && forall op :: op in ops ==> cursor <= op.target && op.End() <= isoSize
  }

  /** One more edit keeps a sorted list laid out exactly when it is inside and apart from the others. */
  lemma {:induction false} LaidInsert(x: Operation, s: seq<Operation>, cursor: int, isoSize: int)
    requires AllSized(s) && x.Size() > 0
    ensures Laid(Insert(TargetOffset(), x, s), cursor, isoSize) <==>
              && Laid(s, cursor, isoSize) && cursor <= x.target && x.End() <= isoSize
              && forall op :: op in s ==> Disjoint(op, x)
    decreases |s|
  {
    if s == [] {
      assert [x][1..] == [];
    } else if x.target < s[0].target {
      assert ([x] + s)[1..] == s;
      LaidBefore(x, s, cursor, isoSize);
    } else {
      var rest := Insert(TargetOffset(), x, s[1..]);
      assert ([s[0]] + rest)[1..] == rest;
      assert s == [s[0]] + s[1..];
      LaidInsert(x, s[1..], s[0].End(), isoSize);
      assert s[0] in s && s[0].Size() > 0;
      assert Disjoint(s[0], x) <==> s[0].End() <= x.target;
    }
  }

  lemma LaidBefore(x: Operation, s: seq<Operation>, cursor: int, isoSize: int)
    requires AllSized(s) && x.Size() > 0 && s != [] && x.target < s[0].target
    ensures cursor <= x.target && Laid(s, x.End(), isoSize) <==>
              && Laid(s, cursor, isoSize) && cursor <= x.target && x.End() <= isoSize
              && forall op :: op in s ==> Disjoint(op, x)
  {
    assert s[0] in s && s[0].Size() > 0;
    if Laid(s, x.End(), isoSize) {
      LaidEnd(s, x.End(), isoSize);
      forall op | op in s
        ensures Disjoint(op, x)
      {
        LaidBounds(s, x.End(), isoSize, op);
      }
    } else if Laid(s, cursor, isoSize) {
      assert Disjoint(s[0], x) <==> x.End() <= s[0].target;
    }
  }

  /** The sorted overlap check accepts exactly the edits that lie inside the image and pairwise apart. */
  lemma {:induction false} LaidExactly(s: seq<Operation>, cursor: int, isoSize: int)
    requires AllSized(s)
    ensures Laid(SortBy(TargetOffset(), s), cursor, isoSize) <==> Inside(s, cursor, isoSize) && Apart(s)
    decreases |s|
  {
    hide Laid, Insert, Disjoint;
    if s == [] {
      LaidNone(cursor, isoSize);
    } else {
      var front, x := s[..|s| - 1], s[|s| - 1];
      assert s == front + [x];
      LaidExactly(front, cursor, isoSize);
      forall op
        ensures op in SortBy(TargetOffset(), front) <==> op in front
      {
        SortMembers(TargetOffset(), front, op);
      }
      LaidInsert(x, SortBy(TargetOffset(), front), cursor, isoSize);
      ApartSnoc(front, x);
    }
  }

  lemma LaidNone(cursor: int, isoSize: int)
    ensures Laid([], cursor, isoSize) <==> cursor <= isoSize
  {
  }

  lemma ApartSnoc(front: seq<Operation>, x: Operation)
    ensures Apart(front + [x]) <==> Apart(front) && forall op :: op in front ==> Disjoint(op, x)
  {
    var s := front + [x];
    if Apart(s) {
      forall i, j | 0 <= i < j < |front|
        ensures Disjoint(front[i], front[j])
      {
        assert Disjoint(s[i], s[j]);
      }
      forall op | op in front
        ensures Disjoint(op, x)
      {
        var i :| 0 <= i < |front| && front[i] == op;
        assert Disjoint(s[i], s[|front|]);
      }
    }
  }

  // ---- apart and inside, by the positions covered ---------------------------------------------

  ghost predicate NoneShared(a: seq<Operation>, b: seq<Operation>) {
    forall p :: !(CoveredBy(a, p) && CoveredBy(b, p))
  }

  lemma ApartConcat(a: seq<Operation>, b: seq<Operation>)
    requires AllSized(a) && AllSized(b)
    ensures Apart(a + b) <==> Apart(a) && Apart(b) && NoneShared(a, b)
  {
    var s := a + b;
    if Apart(s) {
      forall i, j | 0 <= i < j < |a|
        ensures Disjoint(a[i], a[j])
      {
        assert Disjoint(s[i], s[j]);
      }
      forall i, j | 0 <= i < j < |b|
        ensures Disjoint(b[i], b[j])
      {
        assert Disjoint(s[|a| + i], s[|a| + j]);
      }
      forall x, y | x in a && y in b
        ensures Disjoint(x, y)
      {
        var i :| 0 <= i < |a| && a[i] == x;
        var j :| 0 <= j < |b| && b[j] == y;
        assert Disjoint(s[i], s[|a| + j]);
      }
    }
    if Apart(a) && Apart(b) && NoneShared(a, b) {
      forall i, j | 0 <= i < j < |s|
        ensures Disjoint(s[i], s[j])
      {
        if j < |a| {
          assert Disjoint(a[i], a[j]);
        } else if i >= |a| {
          assert Disjoint(b[i - |a|], b[j - |a|]);
        } else {
          MeetShared(a, b, a[i], b[j - |a|]);
        }
      }
    }
  }

  lemma MeetShared(a: seq<Operation>, b: seq<Operation>, x: Operation, y: Operation)
    requires x in a && y in b && x.Size() > 0 && y.Size() > 0 && NoneShared(a, b)
    ensures Disjoint(x, y)
  {
    var p := if x.target < y.target then y.target else x.target;
    assert x.Covers(p) && y.Covers(p) ==> CoveredBy(a, p) && CoveredBy(b, p);
  }

  lemma InsideCovered(ops: seq<Operation>, cursor: int, isoSize: int)
    requires AllSized(ops) && cursor <= isoSize
    ensures Inside(ops, cursor, isoSize) <==> forall p :: CoveredBy(ops, p) ==> cursor <= p < isoSize
  {
    if forall p :: CoveredBy(ops, p) ==> cursor <= p < isoSize {
      forall op | op in ops
        ensures cursor <= op.target && op.End() <= isoSize
      {
        assert op.Covers(op.target) && op.Covers(op.End() - 1);
        assert CoveredBy(ops, op.target) && CoveredBy(ops, op.End() - 1);
      }
    }
  }

  // ---- the parts that depend on the manifest --------------------------------------------------

  predicate DistinctKeys(words: seq<(int, int)>) {
    forall i, j :: 0 <= i < j < |words| ==> words[i].0 != words[j].0
  }

  lemma {:induction false} PutWordDistinct(words: seq<(int, int)>, offset: int, value: int)
    requires DistinctKeys(words)
    ensures DistinctKeys(PutWord(words, offset, value))
    decreases |words|
  {
    if words != [] && words[0].0 != offset {
      var rest := PutWord(words[1..], offset, value);
      PutWordDistinct(words[1..], offset, value);
      PutWordKeys(words[1..], offset, value);
      forall j | 0 <= j < |rest|
        ensures words[0].0 != rest[j].0
      {
        assert rest[j].0 in Keys(rest);
        KeyNotAhead(words);
      }
    }
  }

  lemma KeyNotAhead(words: seq<(int, int)>)
    requires DistinctKeys(words) && words != []
    ensures words[0].0 !in Keys(words[1..])
  {
    assert forall i :: 0 <= i < |words[1..]| ==> words[1..][i] == words[i + 1];
  }

  lemma {:induction false} PutHooksDistinct(words: seq<(int, int)>, hooks: seq<Hook>, writes: seq<Write>)
    requires DistinctKeys(words) && PutHooks(words, hooks, writes).Ok?
    ensures DistinctKeys(PutHooks(words, hooks, writes).value)
    decreases |writes|
  {
    if writes != [] {
      var offset := HookOffset(hooks, writes[0].address).value;
      PutWordDistinct(words, offset, writes[0].value);
      PutHooksDistinct(PutWord(words, offset, writes[0].value), hooks, writes[1..]);
    }
  }

  lemma DolWordsDistinct(layout: Layout, manifest: Manifest)
    ensures DistinctKeys(DolWords(layout, manifest))
  {
    hide PutWord, DistinctKeys;
    var dol := layout.dol;
    var a := dol.isoOffset + DOL_TEXT_OFFSET_TABLE + dol.newTextSlot * 4;
    var b := dol.isoOffset + DOL_TEXT_ADDRESS_TABLE + dol.newTextSlot * 4;
    var c := dol.isoOffset + DOL_TEXT_SIZE_TABLE + dol.newTextSlot * 4;
    NoKeys();
    PutWordDistinct([], a, dol.size);
    PutWordDistinct(PutWord([], a, dol.size), b, manifest.baseAddr);
    PutWordDistinct(PutWord(PutWord([], a, dol.size), b, manifest.baseAddr), c, layout.modRegionSize);
  }

  lemma AllWordsDistinct(layout: Layout, manifest: Manifest)
    requires AllWords(layout, manifest).Ok?
    ensures DistinctKeys(AllWords(layout, manifest).value)
  {
    hide DolWords, PutHooks, DistinctKeys;
    DolWordsDistinct(layout, manifest);
    PutHooksDistinct(DolWords(layout, manifest), layout.hooks, manifest.writes);
  }

  lemma NoKeys()
    ensures DistinctKeys([])
  {
  }

  lemma {:induction false} PutWordMembers(words: seq<(int, int)>, offset: int, value: int, word: (int, int))
    requires DistinctKeys(words)
    ensures word in PutWord(words, offset, value) <==> word == (offset, value) || (word in words && word.0 != offset)
    decreases |words|
  {
    if words != [] {
      KeyNotAhead(words);
      assert words == [words[0]] + words[1..];
      assert word in words[1..] ==> word.0 in Keys(words[1..]);
      if words[0].0 != offset {
        PutWordMembers(words[1..], offset, value, word);
      }
    }
  }

  /** A word of the final dictionary is some write's, or a header word no hook replaces; those all stay. */
  lemma {:induction false} HookedWord(words: seq<(int, int)>, hooks: seq<Hook>, writes: seq<Write>, word: (int, int))
    requires DistinctKeys(words) && PutHooks(words, hooks, writes).Ok?
    ensures var kept := word in words && word.0 !in HookSites(hooks, Addresses(writes));
            && (kept ==> word in PutHooks(words, hooks, writes).value)
            && (word in PutHooks(words, hooks, writes).value ==> kept || exists w :: w in writes && w.value == word.1)
    decreases |writes|
  {
    if writes == [] {
    } else {
      var w, offset := writes[0], HookOffset(hooks, writes[0].address).value;
      var next := PutWord(words, offset, w.value);
      PutWordDistinct(words, offset, w.value);
      PutWordMembers(words, offset, w.value, word);
      HookedWord(next, hooks, writes[1..], word);
      SitesSplit(hooks, writes);
      assert writes == [w] + writes[1..];
      if exists v :: v in writes[1..] && v.value == word.1 {
        var v :| v in writes[1..] && v.value == word.1;
        assert v in writes;
      }
      assert w in writes;
    }
  }

  lemma SitesSplit(hooks: seq<Hook>, writes: seq<Write>)
    requires writes != [] && HookOffset(hooks, writes[0].address).Ok?
    ensures HookSites(hooks, Addresses(writes))
            == {HookOffset(hooks, writes[0].address).value} + HookSites(hooks, Addresses(writes[1..]))
  {
    AddressesSplit(writes);
  }

  predicate WordFits(value: int) { 0 <= value < 0x1_0000_0000 }

  predicate WordsFit(words: seq<(int, int)>) { forall i :: 0 <= i < |words| ==> WordFits(words[i].1) }

  lemma {:induction false} WordEditsAt(words: seq<(int, int)>)
    ensures WordEdits(words).Ok? <==> WordsFit(words)
    ensures WordEdits(words).Ok? ==>
              && |WordEdits(words).value| == |words|
              && forall i :: 0 <= i < |words| ==>
                    WordEdits(words).value[i].target == words[i].0 && WordEdits(words).value[i].Size() == 4
    decreases |words|
  {
    if words != [] {
      WordEditsAt(words[1..]);
      assert words == [words[0]] + words[1..];
    }
  }

  /** Word edits lie apart when no two keys are closer than a word. */
  predicate KeysApart(keys: set<int>) {
    forall a, b :: a in keys && b in keys && a < b ==> a + 4 <= b
  }

  lemma WordsApart(words: seq<(int, int)>)
    requires DistinctKeys(words) && WordEdits(words).Ok?
    ensures Apart(WordEdits(words).value) <==> KeysApart(Keys(words))
  {
    WordEditsAt(words);
    var ops := WordEdits(words).value;
    if Apart(ops) {
      forall a, b | a in Keys(words) && b in Keys(words) && a < b
        ensures a + 4 <= b
      {
        var i :| 0 <= i < |words| && words[i].0 == a;
        var j :| 0 <= j < |words| && words[j].0 == b;
        if i < j {
          assert Disjoint(ops[i], ops[j]);
        } else {
          assert Disjoint(ops[j], ops[i]);
        }
      }
    }
    if KeysApart(Keys(words)) {
      forall i, j | 0 <= i < j < |ops|
        ensures Disjoint(ops[i], ops[j])
      {
        assert words[i].0 in Keys(words) && words[j].0 in Keys(words);
      }
    }
  }

  lemma CodeApart(layout: Layout, code: seq<byte>)
    ensures Apart(CodeEdits(layout, code)) && AllSized(CodeEdits(layout, code))
  {
  }

  // ---- the whole list -------------------------------------------------------------------------

  /** The four parts, in the order the builder collects them. */
  datatype Parts = Parts(boot: seq<Operation>, words: seq<Operation>, code: seq<Operation>, fixed: seq<Operation>) {
    function All(): seq<Operation> { ((boot + words) + code) + fixed }
  }

  ghost predicate PartsApart(p: Parts) {
    && Apart(p.boot) && Apart(p.words) && Apart(p.code) && Apart(p.fixed)
    && NoneShared(p.boot, p.words) && NoneShared(p.boot, p.code) && NoneShared(p.words, p.code)
    && NoneShared(p.boot, p.fixed) && NoneShared(p.words, p.fixed) && NoneShared(p.code, p.fixed)
  }

  predicate PartsSized(p: Parts) { AllSized(p.boot) && AllSized(p.words) && AllSized(p.code) && AllSized(p.fixed) }

  lemma NoneSharedConcat(a: seq<Operation>, b: seq<Operation>, c: seq<Operation>)
    ensures NoneShared(a + b, c) <==> NoneShared(a, c) && NoneShared(b, c)
  {
    hide CoveredBy;
    forall p
      ensures CoveredBy(a + b, p) <==> CoveredBy(a, p) || CoveredBy(b, p)
    {
      CoveredByConcat(a, b, p);
    }
  }

  lemma AllApart(p: Parts)
    requires PartsSized(p)
    ensures Apart(p.All()) <==> PartsApart(p)
  {
    hide Apart, NoneShared;
    var two, three := p.boot + p.words, (p.boot + p.words) + p.code;
    ApartConcat(p.boot, p.words);
    ApartConcat(two, p.code);
    ApartConcat(three, p.fixed);
    NoneSharedConcat(p.boot, p.words, p.code);
    NoneSharedConcat(two, p.code, p.fixed);
    NoneSharedConcat(p.boot, p.words, p.fixed);
  }

  ghost predicate SameCover(a: seq<Operation>, b: seq<Operation>) {
    forall p :: CoveredBy(a, p) <==> CoveredBy(b, p)
  }

  lemma NoneSharedBySame(a: seq<Operation>, a': seq<Operation>, b: seq<Operation>, b': seq<Operation>)
    requires SameCover(a, a') && SameCover(b, b')
    ensures NoneShared(a, b) <==> NoneShared(a', b')
  {
    hide CoveredBy;
  }

  /** Parts that cover the same positions are accepted alike. */
  lemma PartsAlike(p: Parts, q: Parts, isoSize: int)
    requires PartsSized(p) && PartsSized(q) && p.boot == q.boot && p.fixed == q.fixed
    requires SameCover(p.words, q.words) && SameCover(p.code, q.code)
    requires (Apart(p.words) <==> Apart(q.words)) && (Apart(p.code) <==> Apart(q.code))
    ensures Laid(SortBy(TargetOffset(), p.All()), 0, isoSize) <==> Laid(SortBy(TargetOffset(), q.All()), 0, isoSize)
  {
    hide Laid, SortBy, NoneShared, CoveredBy, Apart;
    LaidExactly(p.All(), 0, isoSize);
    LaidExactly(q.All(), 0, isoSize);
    AllApart(p);
    AllApart(q);
    NoneSharedBySame(p.boot, q.boot, p.words, q.words);
    NoneSharedBySame(p.boot, q.boot, p.code, q.code);
    NoneSharedBySame(p.words, q.words, p.code, q.code);
    NoneSharedBySame(p.words, q.words, p.fixed, q.fixed);
    NoneSharedBySame(p.code, q.code, p.fixed, q.fixed);
    if 0 <= isoSize {
      forall x
        ensures CoveredBy(p.All(), x) <==> CoveredBy(q.All(), x)
      {
        RawCovers(p.boot, p.words, p.code, p.fixed, x);
        RawCovers(q.boot, q.words, q.code, q.fixed, x);
      }
      InsideCovered(p.All(), 0, isoSize);
      InsideCovered(q.All(), 0, isoSize);
    }
  }

  function PartsOf(layout: Layout, manifest: Manifest): Parts
    requires RawOperations(layout, manifest).Ok?
  {
    Parts(BootEdits(layout).value, WordEdits(AllWords(layout, manifest).value).value, CodeEdits(layout, manifest.code),
          FixedEdits(layout).value)
  }

  lemma PartsOfAll(layout: Layout, manifest: Manifest)
    requires RawOperations(layout, manifest).Ok?
    ensures PartsOf(layout, manifest).All() == RawOperations(layout, manifest).value
    ensures PartsSized(PartsOf(layout, manifest))
  {
    hide BootEdits, FixedEdits, WordEdits, CodeEdits, AllWords, AllSized;
    var p := PartsOf(layout, manifest);
    RawSized(layout, manifest);
    SizedConcat((p.boot + p.words) + p.code, p.fixed);
    SizedConcat(p.boot + p.words, p.code);
    SizedConcat(p.boot, p.words);
  }

  lemma SizedConcat(a: seq<Operation>, b: seq<Operation>)
    ensures AllSized(a + b) <==> AllSized(a) && AllSized(b)
  {
    forall op | op in a || op in b
      ensures op in a + b
    {
    }
  }

  /** Two manifests with the same hook addresses, both of whose edits can be collected, are laid out alike:
      the overlap and bounds checks accept one exactly when they accept the other. */
  lemma LaidAlike(layout: Layout, m1: Manifest, m2: Manifest)
    requires RawOperations(layout, m1).Ok? && RawOperations(layout, m2).Ok?
    requires Addresses(m1.writes) == Addresses(m2.writes)
    ensures Operations(layout, m1).Ok? <==> Operations(layout, m2).Ok?
  {
    hide BootEdits, FixedEdits, WordEdits, CodeEdits, AllWords, Laid, SortBy, Keys, CoveredBy, Sourceless, Apart,
        DistinctKeys,
         KeysApart, Addresses;
    var w1, w2 := AllWords(layout, m1).value, AllWords(layout, m2).value;
    var p, q := PartsOf(layout, m1), PartsOf(layout, m2);
    PartsOfAll(layout, m1);
    PartsOfAll(layout, m2);
    SameKeys(layout, m1, m2);
    AllWordsDistinct(layout, m1);
    AllWordsDistinct(layout, m2);
    WordsApart(w1);
    WordsApart(w2);
    CodeApart(layout, m1.code);
    CodeApart(layout, m2.code);
    forall x
      ensures CoveredBy(p.words, x) <==> CoveredBy(q.words, x)
      ensures CoveredBy(p.code, x) <==> CoveredBy(q.code, x)
    {
      WordsCover(w1, x);
      WordsCover(w2, x);
      CodeCovers(layout, m1.code, x);
      CodeCovers(layout, m2.code, x);
    }
    PartsAlike(p, q, layout.isoSize);
  }
}
