/** The walk over a captured heap's two allocation lists: local checks that add up to an exact tiling. */
module HeapCensus {
  import opened Bytes
  import opened Sorting

  const MAX_BLOCKS := 8192
  const HEADER := 16
  const USED_TAG := 0x484D

  /** A captured heap: where it starts, its bytes, and the anchors of its lists. */
  datatype Heap = Heap(start: nat, data: seq<byte>, usedHead: u32, usedTail: u32, freeHead: u32, freeTail: u32) {
    function End(): nat { start + |data| }
  }

  /** One node: padding before its header, the payload after it, and its links. */
  datatype Block = Block(node: nat, pad: nat, size: nat, back: u32, following: u32) {
    function Start(): int { node - pad }
    function End(): nat { node + HEADER + size }
    predicate Has(address: int) { Start() <= address < End() }
  }

  // ---- the walk -------------------------------------------------------------------------------

  predicate NodeOk(h: Heap, node: nat) {
    node % 4 == 0 && h.start <= node < h.End() && HEADER <= h.End() - node
  }

  function Tag(h: Heap, node: nat): u32
    requires NodeOk(h, node)
  {
    GetBE32(h.data, node - h.start)
  }

  function BlockAt(h: Heap, node: nat, used: bool): Block
    requires NodeOk(h, node)
  {
    var at := node - h.start;
    Block(node, if used then Tag(h, node) / 0x100 % 0x80 else 0, GetBE32(h.data, at + 4), GetBE32(h.data, at + 8),
          GetBE32(h.data, at + 12))
  }

  /** The local checks on one node. */
  predicate BlockOk(h: Heap, b: Block, used: bool, previous: nat, previousEnd: nat)
    requires NodeOk(h, b.node)
  {
    && Tag(h, b.node) / 0x1_0000 == (if used then USED_TAG else 0)
    && b.size % 4 == 0 && b.pad % 4 == 0
    && b.pad <= b.node - h.start && b.size <= h.End() - b.node - HEADER
    && b.back == previous && (used || b.node >= previousEnd)
  }

  /** The rest of a list from `node` on, `count` nodes in. */
  function Walk(h: Heap, node: nat, used: bool, previous: nat, previousEnd: nat, count: nat): Result<seq<Block>>
    requires count <= MAX_BLOCKS
    decreases MAX_BLOCKS - count
  {
    if node == 0 then Ok([])
    else if count == MAX_BLOCKS || !NodeOk(h, node) then Err
    else
      var b := BlockAt(h, node, used);
      if !BlockOk(h, b, used, previous, previousEnd) then Err
      else
        var rest := Walk(h, b.following, used, node, b.End(), count + 1);
        if rest.Err? then Err else Ok([b] + rest.value)
  }

  function LastNode(blocks: seq<Block>, previous: nat): nat {
    if blocks == [] then previous else blocks[|blocks| - 1].node
  }

  function List(h: Heap, used: bool): Result<seq<Block>> {
    var walked := Walk(h, if used then h.usedHead else h.freeHead, used, 0, h.start, 0);
    if walked.Err? || LastNode(walked.value, 0) != (if used then h.usedTail else h.freeTail) then Err else walked
  }

  function Total(blocks: seq<Block>): int {
    if blocks == [] then 0
    else Total(blocks[..|blocks| - 1]) + blocks[|blocks| - 1].End() - blocks[|blocks| - 1].Start()
  }

  /** Sorting the spans as pairs: no end within the heap reaches the weight of a start. */
  function SpanKey(h: Heap): Block -> int { (b: Block) => b.Start() * (h.End() + 1) + b.End() }

  predicate Apart(blocks: seq<Block>) {
    forall i :: 0 <= i < |blocks| - 1 ==> blocks[i].End() <= blocks[i + 1].Start()
  }

  /** What the census accepts: both lists walk, the spans add up to the heap, and none overlap once sorted. */
  predicate Accepts(h: Heap) {
    && List(h, true).Ok? && List(h, false).Ok?
    && var all := List(h, true).value + List(h, false).value;
       Total(all) == |h.data| && Apart(SortBy(SpanKey(h), all))
  }

  // ---- what the walk establishes --------------------------------------------------------------

  /** Forward and backward links agree, from an anchor to an anchor. */
  predicate Linked(blocks: seq<Block>, head: nat, tail: nat, previous: nat) {
    && head == (if blocks == [] then 0 else blocks[0].node) && tail == LastNode(blocks, previous)
    && forall i {:trigger LinkedAt(blocks, i, previous)} :: 0 <= i < |blocks| ==> LinkedAt(blocks, i, previous)
  }

  /** The links of node `i` name its neighbours. */
  predicate LinkedAt(blocks: seq<Block>, i: nat, previous: nat)
    requires i < |blocks|
  {
    && blocks[i].back == (if i == 0 then previous else blocks[i - 1].node)
    && blocks[i].following == (if i + 1 == |blocks| then 0 else blocks[i + 1].node)
  }

  /** Every block lies within the heap and holds at least its header. */
  predicate Within(h: Heap, blocks: seq<Block>) {
    forall i :: 0 <= i < |blocks| ==> h.start <= blocks[i].Start() && blocks[i].End() <= h.End() && blocks[i].node > 0
  }

  lemma {:induction false} WalkLinks(h: Heap, node: nat, used: bool, previous: nat, previousEnd: nat, count: nat)
    requires count <= MAX_BLOCKS && Walk(h, node, used, previous, previousEnd, count).Ok?
    ensures var blocks := Walk(h, node, used, previous, previousEnd, count).value;
            Linked(blocks, node, LastNode(blocks, previous), previous) && Within(h, blocks)
    decreases MAX_BLOCKS - count
  {
    hide BlockAt, Tag, BlockOk;
    if node != 0 {
      var b := BlockAt(h, node, used);
      BlockBounds(h, node, used, previous, previousEnd);
      WalkLinks(h, b.following, used, node, b.End(), count + 1);
      var rest := Walk(h, b.following, used, node, b.End(), count + 1).value;
      var blocks := [b] + rest;
      LinkedPrepend(b, rest, LastNode(rest, node), previous);
      WithinPrepend(h, b, rest);
    }
  }

  lemma WithinPrepend(h: Heap, b: Block, rest: seq<Block>)
    requires Within(h, rest) && h.start <= b.Start() && b.End() <= h.End() && b.node > 0
    ensures Within(h, [b] + rest)
  {
  }

  lemma LinkedPrepend(b: Block, rest: seq<Block>, tail: nat, previous: nat)
    requires Linked(rest, b.following, tail, b.node) && b.back == previous
    ensures Linked([b] + rest, b.node, tail, previous)
  {
    var blocks := [b] + rest;
    forall i | 0 <= i < |blocks|
      ensures LinkedAt(blocks, i, previous)
    {
      if i > 0 {
        assert LinkedAt(rest, i - 1, b.node);
      }
    }
  }

  lemma BlockBounds(h: Heap, node: nat, used: bool, previous: nat, previousEnd: nat)
    requires node > 0 && NodeOk(h, node) && BlockOk(h, BlockAt(h, node, used), used, previous, previousEnd)
    ensures var b := BlockAt(h, node, used);
            b.node == node && b.back == previous && h.start <= b.Start() <= node && node + HEADER <= b.End() <= h.End()
  {
  }

  lemma ListLinked(h: Heap, used: bool)
    requires List(h, used).Ok?
    ensures var blocks := List(h, used).value;
            && Linked(blocks, if used then h.usedHead else h.freeHead, if used then h.usedTail else h.freeTail, 0)
            && Within(h, blocks)
  {
    hide Walk;
    WalkLinks(h, if used then h.usedHead else h.freeHead, used, 0, h.start, 0);
  }

  // ---- sorting keeps the blocks ---------------------------------------------------------------

  lemma {:induction false} InsertKeeps(key: Block -> int, x: Block, s: seq<Block>)
    ensures multiset(Insert(key, x, s)) == multiset{x} + multiset(s)
    ensures Total(Insert(key, x, s)) == Total(s) + x.End() - x.Start()
    decreases |s|
  {
    if s != [] && key(x) >= key(s[0]) {
      InsertKeeps(key, x, s[1..]);
      assert s == [s[0]] + s[1..];
      TotalConcat([s[0]], s[1..]);
      TotalConcat([s[0]], Insert(key, x, s[1..]));
    } else {
      TotalConcat([x], s);
    }
  }

  lemma {:induction false} TotalConcat(a: seq<Block>, b: seq<Block>)
    ensures Total(a + b) == Total(a) + Total(b)
    decreases |b|
  {
    if b == [] {
      assert a + b == a;
    } else {
      var front := b[..|b| - 1];
      TotalConcat(a, front);
      assert (a + b)[..|a + b| - 1] == a + front;
    }
  }

  lemma {:induction false} SortKeeps(key: Block -> int, s: seq<Block>)
    ensures multiset(SortBy(key, s)) == multiset(s) && Total(SortBy(key, s)) == Total(s)
    decreases |s|
  {
    hide Insert;
    if s != [] {
      var front := s[..|s| - 1];
      SortKeeps(key, front);
      InsertKeeps(key, s[|s| - 1], SortBy(key, front));
      assert s == front + [s[|s| - 1]];
    }
  }

  // ---- blocks that stand apart and fill the heap tile it --------------------------------------

  /** Room left over between `from` and the end of a chain of blocks. */
  lemma {:induction false} ChainFits(blocks: seq<Block>, from: int)
    requires Apart(blocks) && (blocks != [] ==> from <= blocks[0].Start())
    requires forall i :: 0 <= i < |blocks| ==> blocks[i].Start() < blocks[i].End()
    ensures blocks != [] ==> Total(blocks) <= blocks[|blocks| - 1].End() - from
    ensures blocks != [] && Total(blocks) == blocks[|blocks| - 1].End() - from ==> Adjoining(blocks, from)
    decreases |blocks|
  {
    if |blocks| > 1 {
      var n := |blocks|;
      var front := blocks[..n - 1];
      ChainFits(front, from);
      assert front[n - 2] == blocks[n - 2];
      assert blocks[n - 2].End() <= blocks[n - 1].Start();
      if Total(blocks) == blocks[n - 1].End() - from {
        assert Adjoining(front, from);
        forall i | 0 <= i < n
          ensures blocks[i].Start() == EndBefore(blocks, i, from)
        {
          if i < n - 1 {
            assert front[i].Start() == EndBefore(front, i, from);
          }
        }
      }
    } else if |blocks| == 1 {
      assert blocks[..0] == [];
    }
  }

  function EndBefore(blocks: seq<Block>, i: nat, from: int): int
    requires i <= |blocks|
  {
    if i == 0 then from else blocks[i - 1].End()
  }

  /** Each block starts where the one before ends. */
  predicate Adjoining(blocks: seq<Block>, from: int) {
    forall i {:trigger EndBefore(blocks, i, from)} :: 0 <= i < |blocks| ==>
        blocks[i].Start() == EndBefore(blocks, i, from)
  }

  lemma {:induction false} AdjoiningCovers(blocks: seq<Block>, from: int, address: int) returns (k: nat)
    requires Adjoining(blocks, from) && blocks != [] && from <= address < blocks[|blocks| - 1].End()
    ensures k < |blocks| && blocks[k].Has(address)
    decreases |blocks|
  {
    var n := |blocks|;
    assert blocks[n - 1].Start() == EndBefore(blocks, n - 1, from);
    if blocks[n - 1].Start() <= address {
      k := n - 1;
    } else {
      var front := blocks[..n - 1];
      forall i | 0 <= i < n - 1
        ensures front[i].Start() == EndBefore(front, i, from)
      {
        assert blocks[i].Start() == EndBefore(blocks, i, from);
      }
      k := AdjoiningCovers(front, from, address);
    }
  }

  lemma {:induction false} ApartOrder(blocks: seq<Block>, i: nat, j: nat)
    requires Apart(blocks) && i < j < |blocks|
    requires forall k :: 0 <= k < |blocks| ==> blocks[k].Start() < blocks[k].End()
    ensures blocks[i].End() <= blocks[j].Start()
    decreases j - i
  {
    if i + 1 < j {
      ApartOrder(blocks, i, j - 1);
      assert blocks[j - 1].End() <= blocks[j].Start();
    }
  }

  predicate Held(blocks: seq<Block>, address: int) {
    exists k :: 0 <= k < |blocks| && blocks[k].Has(address)
  }

  /** Every address of the heap lies in exactly one place of the list of blocks. */
  ghost predicate Tiles(h: Heap, blocks: seq<Block>) {
    && (forall a :: h.start <= a < h.End() ==> Held(blocks, a))
    && (forall i, j, a :: 0 <= i < j < |blocks| && blocks[i].Has(a) ==> !blocks[j].Has(a))
  }

  lemma SortedTiles(h: Heap, sorted: seq<Block>)
    requires Apart(sorted) && Total(sorted) == |h.data| && Solid(h, sorted)
    ensures Tiles(h, sorted)
  {
    if sorted != [] {
      ChainFits(sorted, h.start);
      forall a | h.start <= a < h.End()
        ensures Held(sorted, a)
      {
        var k := AdjoiningCovers(sorted, h.start, a);
      }
      forall i, j, a | 0 <= i < j < |sorted| && sorted[i].Has(a)
        ensures !sorted[j].Has(a)
      {
        ApartOrder(sorted, i, j);
      }
    }
  }

  /** A tiling does not depend on the order the blocks are listed in. */
  lemma TilesPermuted(h: Heap, a: seq<Block>, b: seq<Block>)
    requires multiset(a) == multiset(b) && Tiles(h, a)
    requires forall i :: 0 <= i < |a| ==> a[i].Start() < a[i].End()
    ensures Tiles(h, b)
  {
    forall address | h.start <= address < h.End()
      ensures Held(b, address)
    {
      assert Held(a, address);
      var k :| 0 <= k < |a| && a[k].Has(address);
      assert a[k] in multiset(a);
      assert a[k] in b;
      var m :| 0 <= m < |b| && b[m] == a[k];
    }
    forall i, j, address | 0 <= i < j < |b| && b[i].Has(address)
      ensures !b[j].Has(address)
    {
      if b[j].Has(address) {
        TwoOf(b, i, j);
        assert b[i] in multiset(a) && b[j] in multiset(a);
        var p :| 0 <= p < |a| && a[p] == b[i];
        var q :| 0 <= q < |a| && a[q] == b[j];
        if p == q {
          assert multiset(a)[b[i]] >= 2;
          var r := OtherPlace(a, p);
        }
      }
    }
  }

  lemma TwoOf(s: seq<Block>, i: nat, j: nat)
    requires i < j < |s|
    ensures s[i] == s[j] ==> multiset(s)[s[i]] >= 2
  {
    var a, b := s[..j], s[j..];
    assert s == a + b;
    assert a[i] == s[i] && b[0] == s[j];
    assert s[i] in multiset(a) && s[j] in multiset(b);
  }

  lemma OtherPlace(s: seq<Block>, p: nat) returns (q: nat)
    requires p < |s| && multiset(s)[s[p]] >= 2
    ensures q < |s| && q != p && s[q] == s[p]
  {
    var a, b := s[..p], s[p + 1..];
    assert s == a + [s[p]] + b;
    assert s[p] in multiset(a) || s[p] in multiset(b);
    if s[p] in a {
      q :| 0 <= q < |a| && a[q] == s[p];
    } else {
      var k :| 0 <= k < |b| && b[k] == s[p];
      q := p + 1 + k;
    }
  }

  /** An accepted heap is tiled exactly by its used and free blocks, padding and headers included: every
      byte lies in one block within it, no node appears twice, and both lists are linked both ways from head
      to tail. */
  lemma AcceptedTiles(h: Heap)
    requires Accepts(h)
    ensures var used, free := List(h, true).value, List(h, false).value;
            && Linked(used, h.usedHead, h.usedTail, 0) && Linked(free, h.freeHead, h.freeTail, 0)
            && Within(h, used + free) && Tiles(h, used + free)
            && forall i, j :: 0 <= i < j < |used + free| ==> (used + free)[i].node != (used + free)[j].node
  {
    hide List, Walk, Linked, SortBy, Total, Apart, Tiles;
    var used, free := List(h, true).value, List(h, false).value;
    ListLinked(h, true);
    ListLinked(h, false);
    var all := used + free;
    var sorted := SortBy(SpanKey(h), all);
    SortKeeps(SpanKey(h), all);
    NodesInside(h, all);
    WithinPermuted(h, all, sorted);
    SortedTiles(h, sorted);
    TilesPermuted(h, sorted, all);
    NodesDiffer(h, all);
  }

  lemma WithinPermuted(h: Heap, all: seq<Block>, sorted: seq<Block>)
    requires Within(h, all) && multiset(sorted) == multiset(all)
    ensures Within(h, sorted) && Solid(h, sorted)
  {
    forall i | 0 <= i < |sorted|
      ensures sorted[i] in all
    {
      assert sorted[i] in multiset(sorted);
    }
  }

  lemma NodesDiffer(h: Heap, all: seq<Block>)
    requires Tiles(h, all) && forall i :: 0 <= i < |all| ==> all[i].Has(all[i].node)
    ensures forall i, j :: 0 <= i < j < |all| ==> all[i].node != all[j].node
  {
    forall i, j | 0 <= i < j < |all|
      ensures all[i].node != all[j].node
    {
      assert all[i].Has(all[i].node) && all[j].Has(all[j].node);
    }
  }

  lemma NodesInside(h: Heap, blocks: seq<Block>)
    ensures forall i :: 0 <= i < |blocks| ==> blocks[i].Has(blocks[i].node)
  {
  }

  /** The census accepts exactly the heaps whose two lists walk and together tile the heap. */
  lemma AcceptsExactlyTilings(h: Heap)
    ensures Accepts(h) <==>
              List(h, true).Ok? && List(h, false).Ok? && Tiles(h, List(h, true).value + List(h, false).value)
  {
    hide List, Total, Tiles;
    if Accepts(h) {
      AcceptedTiles(h);
    } else if List(h, true).Ok? && List(h, false).Ok? && Tiles(h, List(h, true).value + List(h, false).value) {
      TiledAccepted(h);
    }
  }

  // ---- the same, from the bytes ---------------------------------------------------------------

  /** The sixteen bytes of `b`'s header in the heap: tag, with the padding in seven of its bits if used, size, and
      the two links; all on word boundaries, the block within the heap. */
  predicate HeaderStands(h: Heap, b: Block, used: bool) {
    var at := b.node - h.start;
    && b.node > 0 && b.node % 4 == 0 && b.size % 4 == 0 && b.pad % 4 == 0
    && 0 <= at - b.pad && at + 16 + b.size <= |h.data|
    && GetBE32(h.data, at) / 0x1_0000 == (if used then 0x484D else 0)
    && b.pad == (if used then GetBE32(h.data, at) / 0x100 % 0x80 else 0)
    && GetBE32(h.data, at + 4) == b.size && GetBE32(h.data, at + 8) == b.back && GetBE32(h.data, at + 12) == b.following
  }

  /** One of the heap's lists: at most 8192 blocks with their headers, linked both ways; free ones in address order. */
  predicate Listed(h: Heap, blocks: seq<Block>, used: bool, head: nat, tail: nat, previous: nat, previousEnd: nat) {
    && Linked(blocks, head, tail, previous) && (forall i :: 0 <= i < |blocks| ==> HeaderStands(h, blocks[i], used))
    && (!used ==> Ascending(blocks, previousEnd))
  }

  predicate Ascending(blocks: seq<Block>, previousEnd: nat)
    decreases |blocks|
  {
    blocks == [] || (previousEnd <= blocks[0].node && Ascending(blocks[1..], blocks[0].End()))
  }

  lemma HeaderChecks(h: Heap, b: Block, used: bool, previous: nat, previousEnd: nat)
    requires NodeOk(h, b.node) && b.node > 0
    ensures HeaderStands(h, b, used) && b.back == previous && (used || previousEnd <= b.node) <==>
              b == BlockAt(h, b.node, used) && BlockOk(h, b, used, previous, previousEnd)
  {
    hide GetBE32;
  }

  lemma HeaderNode(h: Heap, b: Block, used: bool)
    requires HeaderStands(h, b, used)
    ensures NodeOk(h, b.node)
  {
  }

  lemma ListedTail(h: Heap, blocks: seq<Block>, used: bool, head: nat, tail: nat, previous: nat, previousEnd: nat)
    requires blocks != [] && Listed(h, blocks, used, head, tail, previous, previousEnd)
    ensures Listed(h, blocks[1..], used, blocks[0].following, tail, blocks[0].node, blocks[0].End())
    ensures head == blocks[0].node > 0 && HeaderStands(h, blocks[0], used) && blocks[0].back == previous
    ensures used || previousEnd <= blocks[0].node
  {
    hide HeaderStands;
    var rest := blocks[1..];
    assert LinkedAt(blocks, 0, previous);
    assert forall i :: 0 <= i < |rest| ==> rest[i] == blocks[i + 1];
    forall i | 0 <= i < |rest|
      ensures LinkedAt(rest, i, blocks[0].node)
    {
      assert LinkedAt(blocks, i + 1, previous);
    }
    HeaderPositive(h, blocks[0], used);
  }

  lemma HeaderPositive(h: Heap, b: Block, used: bool)
    requires HeaderStands(h, b, used)
    ensures b.node > 0
  {
  }

  /** A walk finds exactly the list that is there. */
  lemma {:induction false} WalkFinds(h: Heap, blocks: seq<Block>, used: bool, head: nat, tail: nat, previous: nat,
                                     previousEnd: nat, count: nat)
    requires Listed(h, blocks, used, head, tail, previous, previousEnd) && count + |blocks| <= MAX_BLOCKS
    ensures Walk(h, head, used, previous, previousEnd, count) == Ok(blocks) && LastNode(blocks, previous) == tail
    decreases |blocks|
  {
    hide HeaderStands, Linked, Ascending, BlockAt, BlockOk, NodeOk;
    if blocks == [] {
      NothingLinked(head, tail, previous);
    } else {
      var b := blocks[0];
      ListedTail(h, blocks, used, head, tail, previous, previousEnd);
      HeaderNode(h, b, used);
      HeaderChecks(h, b, used, previous, previousEnd);
      WalkFinds(h, blocks[1..], used, b.following, tail, b.node, b.End(), count + 1);
      assert blocks == [b] + blocks[1..];
    }
  }

  lemma NothingLinked(head: nat, tail: nat, previous: nat)
    requires Linked([], head, tail, previous)
    ensures head == 0 && tail == previous
  {
  }

  lemma {:induction false} WalkLists(h: Heap, node: nat, used: bool, previous: nat, previousEnd: nat, count: nat)
    requires count <= MAX_BLOCKS && Walk(h, node, used, previous, previousEnd, count).Ok?
    ensures var blocks := Walk(h, node, used, previous, previousEnd, count).value;
            && count + |blocks| <= MAX_BLOCKS
            && (forall i :: 0 <= i < |blocks| ==> HeaderStands(h, blocks[i], used))
            && (!used ==> Ascending(blocks, previousEnd))
    decreases MAX_BLOCKS - count
  {
    hide HeaderStands, BlockOk, NodeOk;
    if node != 0 {
      var b := BlockAt(h, node, used);
      HeaderChecks(h, b, used, previous, previousEnd);
      WalkLists(h, b.following, used, node, b.End(), count + 1);
      var rest := Walk(h, b.following, used, node, b.End(), count + 1).value;
      assert ([b] + rest)[1..] == rest;
    }
  }

  /** The two lists, by the headers in the heap alone. */
  predicate TwoLists(h: Heap, used: seq<Block>, free: seq<Block>) {
    && |used| <= 8192 && |free| <= 8192
    && Listed(h, used, true, h.usedHead, h.usedTail, 0, 0)
    && Listed(h, free, false, h.freeHead, h.freeTail, 0, h.start)
  }

  lemma ListsFound(h: Heap, used: seq<Block>, free: seq<Block>)
    ensures TwoLists(h, used, free) <==> List(h, true) == Ok(used) && List(h, false) == Ok(free)
  {
    hide Walk, HeaderStands, Ascending, Linked;
    if TwoLists(h, used, free) {
      UsedAnywhere(h, used);
      WalkFinds(h, used, true, h.usedHead, h.usedTail, 0, h.start, 0);
      WalkFinds(h, free, false, h.freeHead, h.freeTail, 0, h.start, 0);
    }
    if List(h, true) == Ok(used) && List(h, false) == Ok(free) {
      WalkLists(h, h.usedHead, true, 0, h.start, 0);
      WalkLists(h, h.freeHead, false, 0, h.start, 0);
      WalkLinks(h, h.usedHead, true, 0, h.start, 0);
      WalkLinks(h, h.freeHead, false, 0, h.start, 0);
    }
  }

  /** Used blocks may come in any order. */
  lemma UsedAnywhere(h: Heap, used: seq<Block>)
    requires Listed(h, used, true, h.usedHead, h.usedTail, 0, 0)
    ensures Listed(h, used, true, h.usedHead, h.usedTail, 0, h.start)
  {
    hide HeaderStands, Ascending, Linked;
  }

  /** In terms of the bytes: a heap is accepted exactly when its headers link two lists, of at most 8192 blocks each,
      that together tile it. */
  lemma AcceptsExactly(h: Heap)
    ensures Accepts(h) <==> exists used, free :: TwoLists(h, used, free) && Tiles(h, used + free)
  {
    hide TwoLists, List, Tiles, Accepts;
    AcceptsExactlyTilings(h);
    if Accepts(h) {
      ListsFound(h, List(h, true).value, List(h, false).value);
    }
    if exists used, free :: TwoLists(h, used, free) && Tiles(h, used + free) {
      var used, free :| TwoLists(h, used, free) && Tiles(h, used + free);
      ListsFound(h, used, free);
    }
  }

  lemma TiledAccepted(h: Heap)
    requires List(h, true).Ok? && List(h, false).Ok? && Tiles(h, List(h, true).value + List(h, false).value)
    ensures Accepts(h)
  {
    hide List, Walk, Total;
    var all := List(h, true).value + List(h, false).value;
    ListLinked(h, true);
    ListLinked(h, false);
    var sorted := SortBy(SpanKey(h), all);
    SortKeeps(SpanKey(h), all);
    SortInOrder(SpanKey(h), all);
    NodesInside(h, all);
    TilesPermuted(h, all, sorted);
    WithinPermuted(h, all, sorted);
    forall i | 0 <= i < |sorted| - 1
      ensures sorted[i].End() <= sorted[i + 1].Start()
    {
      NeighboursApart(h, sorted, i);
    }
    TilingTotal(h, sorted);
  }

  lemma NeighboursApart(h: Heap, sorted: seq<Block>, i: nat)
    requires i + 1 < |sorted| && Tiles(h, sorted) && InOrder(SpanKey(h), sorted)
    requires h.start <= sorted[i].Start() < sorted[i].End() <= h.End()
    requires h.start <= sorted[i + 1].Start() < sorted[i + 1].End() <= h.End()
    ensures sorted[i].End() <= sorted[i + 1].Start()
  {
    var a, b := sorted[i], sorted[i + 1];
    assert SpanKey(h)(a) <= SpanKey(h)(b);
    PairOrder(a.Start(), a.End(), b.Start(), b.End(), h.End() + 1);
    if b.Start() < a.End() {
      assert a.Has(b.Start()) && b.Has(b.Start());
    }
  }

  lemma PairOrder(a: int, x: int, b: int, y: int, weight: int)
    requires 0 <= x < weight && 0 <= y < weight && a * weight + x <= b * weight + y
    ensures a <= b
  {
    assert a > b ==> a * weight >= (b + 1) * weight;
  }

  /** Spans that hold something and stay within the heap. */
  predicate Solid(h: Heap, blocks: seq<Block>) {
    forall i :: 0 <= i < |blocks| ==> h.start <= blocks[i].Start() < blocks[i].End() <= h.End()
  }

  /** Spans apart in order that tile the heap add up to its size. */
  lemma TilingTotal(h: Heap, sorted: seq<Block>)
    requires Apart(sorted) && Tiles(h, sorted) && Solid(h, sorted)
    ensures Total(sorted) == |h.data|
  {
    hide Tiles, Apart;
    if h.data != [] {
      TilingEnds(h, sorted);
      forall i | 0 <= i < |sorted|
        ensures sorted[i].Start() == EndBefore(sorted, i, h.start)
      {
        NoGapBefore(h, sorted, i);
      }
      AdjoiningTotal(sorted, h.start);
    }
  }

  lemma TilingEnds(h: Heap, sorted: seq<Block>)
    requires Apart(sorted) && Tiles(h, sorted) && Solid(h, sorted) && h.data != []
    ensures sorted != [] && sorted[|sorted| - 1].End() == h.End()
  {
    hide Apart;
    assert Held(sorted, h.End() - 1);
    var k :| 0 <= k < |sorted| && sorted[k].Has(h.End() - 1);
    if k < |sorted| - 1 {
      ApartOrder(sorted, k, |sorted| - 1);
    }
  }

  lemma NoGapBefore(h: Heap, sorted: seq<Block>, i: nat)
    requires Apart(sorted) && Tiles(h, sorted) && Solid(h, sorted) && i < |sorted|
    ensures sorted[i].Start() == EndBefore(sorted, i, h.start)
  {
    var from := EndBefore(sorted, i, h.start);
    if i > 0 {
      assert sorted[i - 1].End() <= sorted[i].Start();
    }
    if from < sorted[i].Start() {
      assert Held(sorted, from);
      var k :| 0 <= k < |sorted| && sorted[k].Has(from);
      if k > i {
        ApartOrder(sorted, i, k);
      } else if k < i - 1 {
        ApartOrder(sorted, k, i - 1);
      }
    }
  }

  lemma {:induction false} AdjoiningTotal(blocks: seq<Block>, from: int)
    requires Adjoining(blocks, from) && blocks != []
    ensures Total(blocks) == blocks[|blocks| - 1].End() - from
    decreases |blocks|
  {
    var n := |blocks|;
    var front := blocks[..n - 1];
    assert blocks[n - 1].Start() == EndBefore(blocks, n - 1, from);
    if n > 1 {
      forall i | 0 <= i < n - 1
        ensures front[i].Start() == EndBefore(front, i, from)
      {
        assert blocks[i].Start() == EndBefore(blocks, i, from);
      }
      AdjoiningTotal(front, from);
    }
  }

  // ---- the census loops -----------------------------------------------------------------------

  function Prepend(blocks: seq<Block>, r: Result<seq<Block>>): Result<seq<Block>> {
    if r.Err? then Err else Ok(blocks + r.value)
  }

  lemma PrependNext(blocks: seq<Block>, b: Block, r: Result<seq<Block>>)
    ensures Prepend(blocks, Prepend([b], r)) == Prepend(blocks + [b], r)
  {
    if r.Ok? {
      assert blocks + ([b] + r.value) == blocks + [b] + r.value;
    }
  }

  lemma {:induction false} TotalNatural(blocks: seq<Block>)
    requires forall i :: 0 <= i < |blocks| ==> blocks[i].Start() <= blocks[i].End()
    ensures Total(blocks) >= 0
  {
    if blocks != [] {
      TotalNatural(blocks[..|blocks| - 1]);
    }
  }

  /** What is left of a list after an overfull prefix keeps it overfull. */
  lemma Overfull(h: Heap, blocks: seq<Block>, node: nat, used: bool, previous: nat, previousEnd: nat, count: nat)
    requires count <= MAX_BLOCKS
    ensures var rest := Walk(h, node, used, previous, previousEnd, count);
            rest.Ok? ==> Total(blocks + rest.value) >= Total(blocks)
  {
    hide Walk;
    var rest := Walk(h, node, used, previous, previousEnd, count);
    if rest.Ok? {
      WalkLinks(h, node, used, previous, previousEnd, count);
      TotalConcat(blocks, rest.value);
      WalkSpans(h, node, used, previous, previousEnd, count);
      TotalNatural(rest.value);
    }
  }

  lemma {:induction false} WalkSpans(h: Heap, node: nat, used: bool, previous: nat, previousEnd: nat, count: nat)
    requires count <= MAX_BLOCKS && Walk(h, node, used, previous, previousEnd, count).Ok?
    ensures var blocks := Walk(h, node, used, previous, previousEnd, count).value;
            forall i :: 0 <= i < |blocks| ==> blocks[i].Start() <= blocks[i].End()
  {
  }

  /** One node read and checked. */
  method Visit(h: Heap, node: nat, used: bool, previous: nat, previousEnd: nat, count: nat) returns (r: Result<Block>)
    requires node != 0 && count <= MAX_BLOCKS
    ensures r.Err? ==> Walk(h, node, used, previous, previousEnd, count).Err?
    ensures r.Ok? ==> count < MAX_BLOCKS && r.value.node == node
    ensures r.Ok? ==> (Walk(h, node, used, previous, previousEnd, count) ==
                       Prepend([r.value], Walk(h, r.value.following, used, node, r.value.End(), count + 1)))
  {
    hide BlockAt, BlockOk, Tag;
    if count == MAX_BLOCKS || !NodeOk(h, node) {
      return Err;
    }
    var b := BlockAt(h, node, used);
    BlockNode(h, node, used);
    if !BlockOk(h, b, used, previous, previousEnd) {
      return Err;
    }
    return Ok(b);
  }

  /** A total past the heap's size can only be followed by a refused list or a larger total. */
  lemma PastTheEnd(h: Heap, before: seq<Block>, blocks: seq<Block>, node: nat, used: bool, previous: nat,
                   previousEnd: nat)
    requires |blocks| <= MAX_BLOCKS && Total(before + blocks) > |h.data|
    ensures var whole := Prepend(blocks, Walk(h, node, used, previous, previousEnd, |blocks|));
            whole.Err? || Total(before + whole.value) > |h.data|
  {
    hide Walk, Total;
    var rest := Walk(h, node, used, previous, previousEnd, |blocks|);
    if rest.Ok? {
      Overfull(h, before + blocks, node, used, previous, previousEnd, |blocks|);
      assert before + blocks + rest.value == before + (blocks + rest.value);
    }
  }

  /** Walks one list, adding to the running total of both. */
  method WalkList(h: Heap, used: bool, before: seq<Block>) returns (r: Result<seq<Block>>)
    ensures r.Ok? ==> List(h, used) == r && (r.value != [] ==> Total(before + r.value) <= |h.data|)
    ensures r.Err? ==> List(h, used).Err? || Total(before + List(h, used).value) > |h.data|
  {
    hide Walk, Total;
    var head: nat, tail: nat := if used then h.usedHead else h.freeHead, if used then h.usedTail else h.freeTail;
    var node: nat, previous: nat, previousEnd: nat := head, 0, h.start;
    var blocks: seq<Block> := [];
    var total := SumOf(before);
    assert before + [] == before;
    PrependNone(Walk(h, head, used, 0, h.start, 0));
    while node != 0
      invariant |blocks| <= MAX_BLOCKS && total == Total(before + blocks)
      invariant previous == LastNode(blocks, 0)
      invariant blocks != [] ==> total <= |h.data|
      invariant Walk(h, head, used, 0, h.start, 0)
                == Prepend(blocks, Walk(h, node, used, previous, previousEnd, |blocks|))
      decreases MAX_BLOCKS - |blocks|, node
    {
      var visited := Visit(h, node, used, previous, previousEnd, |blocks|);
      if visited.Err? {
        return Err;
      }
      var b := visited.value;
      PrependNext(blocks, b, Walk(h, b.following, used, node, b.End(), |blocks| + 1));
      OneMore(before, blocks, b);
      total := total + b.End() - b.Start();
      blocks := blocks + [b];
      previous, previousEnd, node := node, b.End(), b.following;
      if total > |h.data| {
        PastTheEnd(h, before, blocks, node, used, previous, previousEnd);
        return Err;
      }
    }
    WalkEnd(h, used, previous, previousEnd, |blocks|);
    assert blocks + [] == blocks;
    if previous != tail {
      return Err;
    }
    return Ok(blocks);
  }

  lemma WalkEnd(h: Heap, used: bool, previous: nat, previousEnd: nat, count: nat)
    requires count <= MAX_BLOCKS
    ensures Walk(h, 0, used, previous, previousEnd, count) == Ok([])
  {
  }

  lemma PrependNone(r: Result<seq<Block>>)
    ensures Prepend([], r) == r
  {
    if r.Ok? {
      assert [] + r.value == r.value;
    }
  }

  lemma BlockNode(h: Heap, node: nat, used: bool)
    requires NodeOk(h, node)
    ensures BlockAt(h, node, used).node == node
  {
  }

  lemma OneMore(before: seq<Block>, blocks: seq<Block>, b: Block)
    ensures Total(before + (blocks + [b])) == Total(before + blocks) + b.End() - b.Start()
  {
    assert before + (blocks + [b]) == before + blocks + [b];
    assert (before + blocks + [b])[..|before + blocks|] == before + blocks;
  }

  method SumOf(blocks: seq<Block>) returns (total: int)
    ensures total == Total(blocks)
  {
    total := 0;
    for i := 0 to |blocks|
      invariant total == Total(blocks[..i])
    {
      assert blocks[..i + 1][..i] == blocks[..i];
      total := total + blocks[i].End() - blocks[i].Start();
    }
    assert blocks[..|blocks|] == blocks;
  }

  /** Mirrors the census in `inspect_bytes`. */
  method Census(h: Heap) returns (ok: bool)
    ensures ok == Accepts(h)
  {
    hide List, Total, SortBy;
    var used := WalkList(h, true, []);
    if used.Err? {
      if List(h, true).Ok? && List(h, false).Ok? {
        FreeAdds(h);
      }
      return false;
    }
    var free := WalkList(h, false, used.value);
    if free.Err? {
      return false;
    }
    var all := used.value + free.value;
    var total := SumOf(all);
    if total != |h.data| {
      return false;
    }
    var sorted := SortBy(SpanKey(h), all);
    for i := 0 to if sorted == [] then 0 else |sorted| - 1
      invariant forall k :: 0 <= k < i ==> sorted[k].End() <= sorted[k + 1].Start()
    {
      if sorted[i].End() > sorted[i + 1].Start() {
        return false;
      }
    }
    return true;
  }

  lemma FreeAdds(h: Heap)
    requires List(h, true).Ok? && List(h, false).Ok?
    ensures Total(List(h, true).value + List(h, false).value) >= Total([] + List(h, true).value)
  {
    hide Walk;
    var used, free := List(h, true).value, List(h, false).value;
    assert [] + used == used;
    Overfull(h, used, h.freeHead, false, 0, h.start, 0);
  }
}
