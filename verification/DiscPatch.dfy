/** `BpsBuilder` and `build_patch`: a source-free patch from a layout and a manifest, and the proof
    that applying it yields the edited image. */
module DiscPatch {
  import opened Bytes
  import opened Bps
  import opened BpsEncoding
  import opened IsoLayout
  import opened LayoutReuse
  import Overlap
  import BpsNumber
  import Crc32

  // ---- merging and accounting -----------------------------------------------------------------

  /** A new action joins the previous one when the two read on from each other. */
  function Merge(actions: seq<Action>, a: Action): (r: seq<Action>)
    requires NonEmpty(actions) && a.Length() > 0
    ensures NonEmpty(r)
  {
    if actions == [] then [a]
    else
      var front, last := actions[..|actions| - 1], actions[|actions| - 1];
      if last.SourceRead? && a.SourceRead? then front + [Action.SourceRead(last.size + a.size)]
      else if last.TargetRead? && a.TargetRead? then front + [Action.TargetRead(last.data + a.data)]
      else if last.SourceCopy? && a.SourceCopy? && last.offset + last.size == a.offset
      then front + [Action.SourceCopy(last.offset, last.size + a.size)]
      else actions + [a]
  }

  function Push(d: Draft, a: Action, crc: bv32): (r: Draft)
    requires NonEmpty(d.actions)
    ensures NonEmpty(r.actions) && r.outputOffset == d.outputOffset + a.Length()
  {
    if a.Length() == 0 then d
    else Draft(Merge(d.actions, a), d.outputOffset + a.Length(), Crc32.Combine(d.targetCrc, crc, a.Length()))
  }

  const EMPTY := Draft([], 0, 0)

  /** The draft produces `image` from `source`, and its offset and checksum are the image's. */
  ghost predicate Represents(d: Draft, source: seq<byte>, image: seq<byte>) {
    NonEmpty(d.actions) && Run(d.actions, source, []) == Ok(image) &&
    |image| == d.outputOffset && Crc32.Crc(image) == d.targetCrc
  }

  lemma RunOne(a: Action, source: seq<byte>, out: seq<byte>)
    ensures Run([a], source, out) == Perform(a, source, out)
  {
    assert [a][1..] == [];
  }

  /** Merging changes nothing that running the actions can see. */
  lemma MergeRuns(actions: seq<Action>, a: Action, source: seq<byte>, mid: seq<byte>)
    requires NonEmpty(actions) && a.Length() > 0
    requires Run(actions, source, []) == Ok(mid) && Perform(a, source, mid).Ok?
    ensures Run(Merge(actions, a), source, []) == Perform(a, source, mid)
  {
    hide Run, Overlap.CopyForward;
    RunOne(a, source, mid);
    if actions == [] {
      EmptyRun(source);
      RunOne(a, source, []);
    } else {
      var front, last := actions[..|actions| - 1], actions[|actions| - 1];
      assert actions == front + [last];
      RunConcat(front, [last], source, []);
      var before := Run(front, source, []).value;
      RunOne(last, source, before);
      RunConcat(actions, [a], source, []);
      var joined := Merge(actions, a);
      if joined != actions + [a] {
        var both := joined[|joined| - 1];
        assert joined == front + [both];
        RunConcat(front, [both], source, []);
        RunOne(both, source, before);
        if last.SourceRead? {
          SliceSplit(before, source, |before|, last.size, a.size);
        } else if last.SourceCopy? {
          SliceSplit(before, source, last.offset, last.size, a.size);
        } else {
          assert before + (last.data + a.data) == before + last.data + a.data;
        }
      }
    }
  }

  lemma EmptyRun(source: seq<byte>)
    ensures Run([], source, []) == Ok([])
  {
  }

  lemma EmptyRepresents(source: seq<byte>)
    ensures Represents(EMPTY, source, [])
  {
    Crc32.CrcEmpty();
  }

  /** Appending an action with the checksum of what it adds keeps the account right. */
  lemma PushRepresents(d: Draft, a: Action, crc: bv32, source: seq<byte>, image: seq<byte>)
    requires Represents(d, source, image) && a.Length() > 0
    requires Perform(a, source, image).Ok? && crc == Crc32.Crc(Perform(a, source, image).value[|image|..])
    ensures Represents(Push(d, a, crc), source, Perform(a, source, image).value)
  {
    hide Run, Perform, Merge, Crc32.Combine, Crc32.Crc;
    var next := Perform(a, source, image).value;
    var added := next[|image|..];
    assert next == image + added;
    MergeRuns(d.actions, a, source, image);
    Crc32.CombineCorrect(image, added);
  }

  // ---- planning -------------------------------------------------------------------------------

  type Recorded = map<(int, int), bv32>

  /** `source` has every recorded range, with the recorded checksum. */
  ghost predicate Matches(source: seq<byte>, crcs: Recorded) {
    forall offset, size :: (offset, size) in crcs && size > 0 ==>
      0 <= offset && offset + size <= |source| && Crc32.Crc(source[offset..offset + size]) == crcs[(offset, size)]
  }

  function PlanRead(d: Draft, offset: int, size: int, crcs: Recorded): (r: Result<Draft>)
    requires NonEmpty(d.actions)
    ensures r.Ok? ==> NonEmpty(r.value.actions)
  {
    if size <= 0 then Ok(d)
    else if offset != d.outputOffset || (offset, size) !in crcs then Err
    else Ok(Push(d, Action.SourceRead(size), crcs[(offset, size)]))
  }

  function PlanCopy(d: Draft, offset: int, size: int, crcs: Recorded): (r: Result<Draft>)
    requires NonEmpty(d.actions)
    ensures r.Ok? ==> NonEmpty(r.value.actions)
  {
    if size <= 0 then Ok(d)
    else if (offset, size) !in crcs then Err
    else Ok(Push(d, Action.SourceCopy(offset, size), crcs[(offset, size)]))
  }

  function PlanLiteral(d: Draft, data: seq<byte>): (r: Draft)
    requires NonEmpty(d.actions)
    ensures NonEmpty(r.actions)
  {
    Push(d, Action.TargetRead(data), Crc32.Crc(data))
  }

  function PlanZeros(d: Draft, size: nat): (r: Draft)
    requires NonEmpty(d.actions)
    ensures NonEmpty(r.actions)
  {
    if size == 0 then d
    else
      var one := PlanLiteral(d, [0]);
      if size == 1 then one
      else Push(one, Action.TargetCopy(one.outputOffset - 1, size - 1), Crc32.Crc(Zeros(size - 1)))
  }

  function PlanEdit(d: Draft, op: Operation, crcs: Recorded): (r: Result<Draft>)
    requires NonEmpty(d.actions)
    ensures r.Ok? ==> NonEmpty(r.value.actions)
  {
    match op.content
    case Literal(data) => Ok(PlanLiteral(d, data))
    case Zero(length) => Ok(PlanZeros(d, length))
    case FromSource(offset, length) => PlanCopy(d, offset, length, crcs)
  }

  /** One turn of the loop: the untouched source up to the edit, then the edit. */
  function PlanTurn(d: Draft, cursor: int, op: Operation, crcs: Recorded): (r: Result<Draft>)
    requires NonEmpty(d.actions)
    ensures r.Ok? ==> NonEmpty(r.value.actions)
  {
    match PlanRead(d, cursor, op.target - cursor, crcs)
    case Err => Err
    case Ok(read) => PlanEdit(read, op, crcs)
  }

  function Plan(d: Draft, ops: seq<Operation>, cursor: int, isoSize: int, crcs: Recorded): (r: Result<Draft>)
    requires NonEmpty(d.actions)
    ensures r.Ok? ==> NonEmpty(r.value.actions)
    decreases |ops|
  {
    if ops == [] then PlanRead(d, cursor, isoSize - cursor, crcs)
    else match PlanTurn(d, cursor, ops[0], crcs)
      case Err => Err
      case Ok(edited) => Plan(edited, ops[1..], ops[0].End(), isoSize, crcs)
  }

  // ---- what the plan produces -----------------------------------------------------------------

  lemma ReadRepresents(d: Draft, offset: int, size: int, crcs: Recorded, source: seq<byte>, image: seq<byte>)
    requires Represents(d, source, image) && Matches(source, crcs) && PlanRead(d, offset, size, crcs).Ok?
    requires size >= 0 && offset == |image| && offset + size <= |source|
    ensures Represents(PlanRead(d, offset, size, crcs).value, source, image + source[offset..offset + size])
  {
    hide Run, Push, Crc32.Crc;
    if size == 0 {
      assert image + source[offset..offset] == image;
    } else {
      var a := Action.SourceRead(size);
      var next := Perform(a, source, image).value;
      assert next[|image|..] == source[offset..offset + size];
      PushRepresents(d, a, crcs[(offset, size)], source, image);
    }
  }

  lemma CopyRepresents(d: Draft, offset: int, size: int, crcs: Recorded, source: seq<byte>, image: seq<byte>)
    requires Represents(d, source, image) && Matches(source, crcs) && PlanCopy(d, offset, size, crcs).Ok? && size > 0
    ensures 0 <= offset && offset + size <= |source|
    ensures Represents(PlanCopy(d, offset, size, crcs).value, source, image + source[offset..offset + size])
  {
    hide Run, Push, Crc32.Crc;
    var a := Action.SourceCopy(offset, size);
    var next := Perform(a, source, image).value;
    assert next[|image|..] == source[offset..offset + size];
    PushRepresents(d, a, crcs[(offset, size)], source, image);
  }

  lemma LiteralRepresents(d: Draft, data: seq<byte>, source: seq<byte>, image: seq<byte>)
    requires Represents(d, source, image) && data != []
    ensures Represents(PlanLiteral(d, data), source, image + data)
  {
    hide Run, Push, Crc32.Crc;
    var a := Action.TargetRead(data);
    assert (image + data)[|image|..] == data;
    PushRepresents(d, a, Crc32.Crc(data), source, image);
  }

  /** Copying from the last byte, a zero, writes zeros. */
  lemma {:induction false} CopyZeros(out: seq<byte>, n: nat)
    requires out != [] && out[|out| - 1] == 0
    ensures Overlap.CopyForward(out, |out| - 1, n) == out + Zeros(n)
    decreases n
  {
    if n == 0 {
      assert out + Zeros(0) == out;
    } else {
      CopyZeros(out + [0], n - 1);
      assert out + [0] + Zeros(n - 1) == out + Zeros(n);
    }
  }

  lemma ZerosRepresents(d: Draft, size: nat, source: seq<byte>, image: seq<byte>)
    requires Represents(d, source, image) && size > 0
    ensures Represents(PlanZeros(d, size), source, image + Zeros(size))
  {
    hide Run, Push, Crc32.Crc, Overlap.CopyForward, Represents, PlanLiteral;
    RepresentsSize(d, source, image);
    LiteralRepresents(d, [0], source, image);
    var one, out := PlanLiteral(d, [0]), image + [0];
    RepresentsSize(one, source, out);
    if size == 1 {
      assert Zeros(1) == [0];
    } else {
      var a := Action.TargetCopy(|out| - 1, size - 1);
      CopyZeros(out, size - 1);
      assert (out + Zeros(size - 1))[|out|..] == Zeros(size - 1);
      assert out + Zeros(size - 1) == image + Zeros(size);
      PushRepresents(one, a, Crc32.Crc(Zeros(size - 1)), source, out);
    }
  }

  lemma RepresentsSize(d: Draft, source: seq<byte>, image: seq<byte>)
    requires Represents(d, source, image)
    ensures |image| == d.outputOffset && NonEmpty(d.actions)
  {
  }

  /** An edit adds exactly the bytes it shows. */
  lemma EditRepresents(d: Draft, op: Operation, crcs: Recorded, source: seq<byte>, image: seq<byte>)
    returns (next: seq<byte>)
    requires Represents(d, source, image) && Matches(source, crcs)
    requires op.Size() > 0 && op.target == |image| && PlanEdit(d, op, crcs).Ok?
    ensures Represents(PlanEdit(d, op, crcs).value, source, next)
    ensures |next| == op.End() && next[..|image|] == image
    ensures forall p :: op.Covers(p) ==> op.Shows(source, p, next[p])
  {
    hide Represents, Matches, Push;
    match op.content
    case Literal(data) =>
      LiteralRepresents(d, data, source, image);
      next := image + data;
    case Zero(length) =>
      ZerosRepresents(d, length, source, image);
      next := image + Zeros(length);
    case FromSource(offset, length) =>
      CopyRepresents(d, offset, length, crcs, source, image);
      next := image + source[offset..offset + length];
  }

  /** From `from` on, `target` is the source with the edits substituted. */
  ghost predicate SubstitutedFrom(ops: seq<Operation>, source: seq<byte>, target: seq<byte>, from: int) {
    && |target| == |source|
    && (forall op, p :: op in ops && op.Covers(p) ==> 0 <= p < |target| && op.Shows(source, p, target[p]))
    && (forall p :: 0 <= p < |target| && from <= p && !CoveredBy(ops, p) ==> target[p] == source[p])
  }

  /** The source with each literal, zero fill and relocated piece at its target offset. */
  ghost predicate Substituted(ops: seq<Operation>, source: seq<byte>, target: seq<byte>) {
    SubstitutedFrom(ops, source, target, 0)
  }

  /** The edits determine the target. */
  lemma SubstitutedUnique(ops: seq<Operation>, source: seq<byte>, t1: seq<byte>, t2: seq<byte>)
    requires Substituted(ops, source, t1) && Substituted(ops, source, t2)
    ensures t1 == t2
  {
    forall p | 0 <= p < |t1|
      ensures t1[p] == t2[p]
    {
      if CoveredBy(ops, p) {
        var op :| op in ops && op.Covers(p);
        assert op.Shows(source, p, t1[p]) && op.Shows(source, p, t2[p]);
      }
    }
  }

  lemma {:induction false} PlanRepresents(d: Draft, ops: seq<Operation>, cursor: int, isoSize: int, crcs: Recorded,
                                          source: seq<byte>, image: seq<byte>)
    returns (target: seq<byte>)
    requires Laid(ops, cursor, isoSize) && AllSized(ops) && |source| == isoSize && Matches(source, crcs)
    requires Represents(d, source, image) && |image| == cursor && Plan(d, ops, cursor, isoSize, crcs).Ok?
    ensures Represents(Plan(d, ops, cursor, isoSize, crcs).value, source, target)
    ensures |image| <= |target| && target[..|image|] == image && SubstitutedFrom(ops, source, target, cursor)
    decreases |ops|
  {
    hide Represents, Matches, PlanRead, PlanEdit;
    RepresentsSize(d, source, image);
    LaidEnd(ops, cursor, isoSize);
    if ops == [] {
      ReadRepresents(d, cursor, isoSize - cursor, crcs, source, image);
      target := image + source[cursor..isoSize];
    } else {
      var op := ops[0];
      LaidBounds(ops, cursor, isoSize, op);
      var read := PlanRead(d, cursor, op.target - cursor, crcs).value;
      ReadRepresents(d, cursor, op.target - cursor, crcs, source, image);
      var upTo := image + source[cursor..op.target];
      var next := EditRepresents(read, op, crcs, source, upTo);
      target := PlanRepresents(PlanEdit(read, op, crcs).value, ops[1..], op.End(), isoSize, crcs, source, next);
      PrefixTwice(target, next, upTo, image);
      HeadSubstituted(ops, cursor, isoSize, source, image, next, target);
    }
  }

  lemma PrefixTwice(target: seq<byte>, next: seq<byte>, upTo: seq<byte>, image: seq<byte>)
    requires |image| <= |upTo| <= |next| <= |target|
    requires target[..|next|] == next && next[..|upTo|] == upTo && upTo[..|image|] == image
    ensures target[..|image|] == image
  {
    assert forall p :: 0 <= p < |image| ==> target[p] == target[..|next|][p] == next[..|upTo|][p] == upTo[..|image|][p];
  }

  /** The head edit and the gap before it join what the rest substitutes. */
  lemma HeadSubstituted(ops: seq<Operation>, cursor: int, isoSize: int, source: seq<byte>, image: seq<byte>,
                        next: seq<byte>, target: seq<byte>)
    requires Laid(ops, cursor, isoSize) && AllSized(ops) && ops != [] && |source| == isoSize
    requires |image| == cursor <= ops[0].target <= ops[0].End() <= |source| && |next| == ops[0].End() <= |target|
    requires next[..ops[0].target] == image + source[cursor..ops[0].target]
    requires forall p :: ops[0].Covers(p) ==> ops[0].Shows(source, p, next[p])
    requires target[..|next|] == next && SubstitutedFrom(ops[1..], source, target, ops[0].End())
    ensures SubstitutedFrom(ops, source, target, cursor)
  {
    var op := ops[0];
    TailCoverage(ops, cursor, isoSize);
    forall p | 0 <= p < |next|
      ensures target[p] == next[p]
    {
      assert target[p] == target[..|next|][p];
    }
    forall o, p | o in ops && o.Covers(p)
      ensures 0 <= p < |target| && o.Shows(source, p, target[p])
    {
      if o != op {
        assert o in ops[1..];
      }
    }
    forall p | 0 <= p < |target| && cursor <= p && !CoveredBy(ops, p)
      ensures target[p] == source[p]
    {
      if p < op.target {
        assert next[p] == next[..op.target][p];
      } else if p < op.End() {
        assert op in ops && op.Covers(p);
      }
    }
  }

  /** The plan succeeds exactly when every needed range is recorded, and fills the image. */
  lemma {:induction false} PlanSucceeds(d: Draft, ops: seq<Operation>, cursor: int, isoSize: int, crcs: Recorded)
    requires Laid(ops, cursor, isoSize) && AllSized(ops) && NonEmpty(d.actions) && d.outputOffset == cursor
    ensures Plan(d, ops, cursor, isoSize, crcs).Ok? <==> forall r :: r in Ranges(ops, cursor, isoSize) ==> r in crcs
    ensures Plan(d, ops, cursor, isoSize, crcs).Ok? ==>
            Plan(d, ops, cursor, isoSize, crcs).value.outputOffset == isoSize
    decreases |ops|
  {
    hide Merge, NonEmpty, Crc32.Combine, Crc32.Crc;
    LaidEnd(ops, cursor, isoSize);
    if ops != [] {
      var op := ops[0];
      assert op.Size() > 0;
      var gap, piece, rest := Gap(cursor, op.target), Piece(op), Ranges(ops[1..], op.End(), isoSize);
      assert Ranges(ops, cursor, isoSize) == gap + piece + rest;
      assert (forall r :: r in gap ==> r in crcs) <==> PlanRead(d, cursor, op.target - cursor, crcs).Ok?;
      if PlanRead(d, cursor, op.target - cursor, crcs).Ok? {
        var read := PlanRead(d, cursor, op.target - cursor, crcs).value;
        assert read.outputOffset == op.target;
        assert (forall r :: r in piece ==> r in crcs) <==> PlanEdit(read, op, crcs).Ok?;
        if PlanEdit(read, op, crcs).Ok? {
          assert PlanEdit(read, op, crcs).value.outputOffset == op.End();
          PlanSucceeds(PlanEdit(read, op, crcs).value, ops[1..], op.End(), isoSize, crcs);
        }
      }
    }
  }

  // ---- the builder object ---------------------------------------------------------------------

  class BpsBuilder {
    var actions: seq<Action>
    var outputOffset: nat
    var targetCrc: bv32
    const sourceCrcs: Recorded
    /** The recorded ranges asked for so far. */
    ghost var lookups: seq<(int, int)>

    ghost predicate Valid()
      reads this
    {
      NonEmpty(actions)
    }

    function View(): Draft
      reads this
    {
      Draft(actions, outputOffset, targetCrc)
    }

    constructor (sourceCrcs: Recorded)
      ensures Valid() && View() == EMPTY && this.sourceCrcs == sourceCrcs && lookups == []
    {
      this.sourceCrcs := sourceCrcs;
      actions, outputOffset, targetCrc := [], 0, 0;
      lookups := [];
    }

    /** Mirrors `_append`. */
    method Append(a: Action, crc: bv32)
      requires Valid()
      modifies this`actions, this`outputOffset, this`targetCrc
      ensures Valid() && View() == Push(old(View()), a, crc)
    {
      if a.Length() == 0 {
        return;
      }
      actions := Merge(actions, a);
      targetCrc := Crc32.Crc32Combine(targetCrc, crc, a.Length());
      outputOffset := outputOffset + a.Length();
    }

    /** Mirrors `source_read`. */
    method SourceRead(offset: int, size: int) returns (ok: bool)
      requires Valid()
      modifies this
      ensures Valid() && ok == PlanRead(old(View()), offset, size, sourceCrcs).Ok?
      ensures View() == if ok then PlanRead(old(View()), offset, size, sourceCrcs).value else old(View())
      ensures size > 0 && offset == old(outputOffset) ==> lookups == old(lookups) + [(offset, size)]
      ensures size <= 0 || offset != old(outputOffset) ==> lookups == old(lookups)
    {
      if size <= 0 {
        return true;
      }
      if offset != outputOffset {
        return false;
      }
      lookups := lookups + [(offset, size)];
      if (offset, size) !in sourceCrcs {
        return false;
      }
      Append(Action.SourceRead(size), sourceCrcs[(offset, size)]);
      return true;
    }

    /** Mirrors `target_read`. */
    method TargetRead(data: seq<byte>)
      requires Valid()
      modifies this`actions, this`outputOffset, this`targetCrc
      ensures Valid() && View() == PlanLiteral(old(View()), data)
    {
      Append(Action.TargetRead(data), Crc32.Crc(data));
    }

    /** Mirrors `source_copy`. */
    method SourceCopy(offset: int, size: int) returns (ok: bool)
      requires Valid()
      modifies this
      ensures Valid() && ok == PlanCopy(old(View()), offset, size, sourceCrcs).Ok?
      ensures View() == if ok then PlanCopy(old(View()), offset, size, sourceCrcs).value else old(View())
      ensures lookups == old(lookups) + if size > 0 then [(offset, size)] else []
    {
      if size <= 0 {
        return true;
      }
      lookups := lookups + [(offset, size)];
      if (offset, size) !in sourceCrcs {
        return false;
      }
      Append(Action.SourceCopy(offset, size), sourceCrcs[(offset, size)]);
      return true;
    }

    /** Mirrors `zeros`. */
    method WriteZeros(size: nat)
      requires Valid()
      modifies this`actions, this`outputOffset, this`targetCrc
      ensures Valid() && View() == PlanZeros(old(View()), size)
    {
      if size == 0 {
        return;
      }
      TargetRead([0]);
      if size > 1 {
        var crc := Crc32.ZeroCrc(size - 1);
        Append(Action.TargetCopy(outputOffset - 1, size - 1), crc);
      }
    }

    /** One edit of `build_patch`. */
    method Edit(op: Operation) returns (ok: bool)
      requires Valid() && op.Size() > 0
      modifies this
      ensures Valid() && ok == PlanEdit(old(View()), op, sourceCrcs).Ok?
      ensures View() == if ok then PlanEdit(old(View()), op, sourceCrcs).value else old(View())
      ensures lookups == old(lookups) + Piece(op)
    {
      match op.content
      case Literal(data) =>
        TargetRead(data);
        ok := true;
      case Zero(length) =>
        WriteZeros(length);
        ok := true;
      case FromSource(offset, length) =>
        ok := SourceCopy(offset, length);
    }

    /** Mirrors `encode`. */
    method Encode(sourceSize: nat, sourceCrc: u32) returns (patch: seq<byte>)
      requires Valid()
      ensures patch == Encoded(View(), sourceSize, sourceCrc)
    {
      hide EncodeAction, Advance;
      var body: seq<byte> := [];
      var cursors := (0, 0);
      for i := 0 to |actions|
        invariant EncodeActions(actions, (0, 0)) == body + EncodeActions(actions[i..], cursors)
      {
        assert actions[i..][1..] == actions[i + 1..];
        body := body + EncodeAction(actions[i], cursors);
        cursors := Advance(actions[i], cursors);
      }
      assert body + [] == body;
      patch := Sealed(Head(sourceSize, outputOffset) + body, sourceCrc, targetCrc as int);
    }
  }

  // ---- the whole build ------------------------------------------------------------------------

  /** The recorded ranges as a dictionary; a repeated range takes the later checksum. */
  function RecordedRanges(ranges: seq<SourceRange>): Recorded {
    if ranges == [] then map[]
    else
      var last := ranges[|ranges| - 1];
      RecordedRanges(ranges[..|ranges| - 1])[(last.offset, last.size) := last.crc]
  }

  predicate Distinct(writes: seq<Write>) {
    forall i, j :: 0 <= i < j < |writes| ==> writes[i].address != writes[j].address
  }

  function HookAddresses(hooks: seq<Hook>): set<int> {
    set i | 0 <= i < |hooks| :: hooks[i].address
  }

  /** Mirrors `validate_layout`. */
  predicate Validated(layout: Layout, manifest: Manifest) {
    layout.formatVersion == 2 && layout.gameId == manifest.gameId && layout.baseAddr == manifest.baseAddr &&
    layout.modRegionSize == MOD_REGION_SIZE && Distinct(manifest.writes) &&
    Addresses(manifest.writes) == HookAddresses(layout.hooks)
  }

  function DraftOf(layout: Layout, manifest: Manifest): (r: Result<Draft>)
    ensures r.Ok? ==> NonEmpty(r.value.actions) && r.value.outputOffset == layout.isoSize
  {
    if !Validated(layout, manifest) then Err
    else match Operations(layout, manifest)
      case Err => Err
      case Ok(ops) => match Plan(EMPTY, ops, 0, layout.isoSize, RecordedRanges(layout.sourceRanges))
        case Err => Err
        case Ok(d) => if d.outputOffset == layout.isoSize then Ok(d) else Err
  }

  function PatchOf(layout: Layout, manifest: Manifest): Result<seq<byte>> {
    match DraftOf(layout, manifest)
    case Err => Err
    case Ok(d) => Ok(Encoded(d, layout.isoSize, layout.sourceCrc))
  }

  /** The loop of `build_patch`: drive the builder through the edits, noting every range asked for. */
  method DriveBuilder(builder: BpsBuilder, ops: seq<Operation>, isoSize: int) returns (ok: bool)
    requires builder.Valid() && builder.View() == EMPTY && builder.lookups == []
    requires Laid(ops, 0, isoSize) && AllSized(ops)
    modifies builder
    ensures builder.Valid() && ok == Plan(EMPTY, ops, 0, isoSize, builder.sourceCrcs).Ok?
    ensures ok ==> builder.View() == Plan(EMPTY, ops, 0, isoSize, builder.sourceCrcs).value
    ensures ok ==> builder.lookups == Ranges(ops, 0, isoSize)
    ensures !ok ==> builder.lookups <= Ranges(ops, 0, isoSize)
  {
    hide PlanTurn, PlanRead, Gap, Piece, AllSized;
    var cursor := 0;
    for i := 0 to |ops|
      invariant builder.Valid() && builder.outputOffset == cursor && Laid(ops[i..], cursor, isoSize)
      invariant Plan(EMPTY, ops, 0, isoSize, builder.sourceCrcs)
             == Plan(builder.View(), ops[i..], cursor, isoSize, builder.sourceCrcs)
      invariant builder.lookups + Ranges(ops[i..], cursor, isoSize) == Ranges(ops, 0, isoSize)
    {
      assert ops[i..][1..] == ops[i + 1..];
      SizedMember(ops, i);
      var turned := Turn(builder, cursor, ops[i]);
      if !turned {
        return false;
      }
      cursor := ops[i].End();
    }
    assert ops[|ops|..] == [];
    ok := builder.SourceRead(cursor, isoSize - cursor);
  }

  lemma SizedMember(ops: seq<Operation>, i: nat)
    requires AllSized(ops) && i < |ops|
    ensures ops[i].Size() > 0
  {
    assert ops[i] in ops;
  }

  method Turn(builder: BpsBuilder, cursor: int, op: Operation) returns (ok: bool)
    requires builder.Valid() && builder.outputOffset == cursor <= op.target && op.Size() > 0
    modifies builder
    ensures builder.Valid() && ok == PlanTurn(old(builder.View()), cursor, op, builder.sourceCrcs).Ok?
    ensures ok ==> builder.View() == PlanTurn(old(builder.View()), cursor, op, builder.sourceCrcs).value
    ensures ok ==> builder.outputOffset == op.End()
    ensures ok ==> builder.lookups == old(builder.lookups) + (Gap(cursor, op.target) + Piece(op))
    ensures !ok ==> builder.lookups <= old(builder.lookups) + (Gap(cursor, op.target) + Piece(op))
  {
    hide PlanRead, PlanEdit, Piece;
    PlanOffsets(builder.View(), cursor, op, builder.sourceCrcs);
    ok := builder.SourceRead(cursor, op.target - cursor);
    if ok {
      ok := builder.Edit(op);
    }
  }

  lemma PlanOffsets(d: Draft, cursor: int, op: Operation, crcs: Recorded)
    requires NonEmpty(d.actions) && d.outputOffset == cursor <= op.target
    ensures PlanRead(d, cursor, op.target - cursor, crcs).Ok? ==>
              var read := PlanRead(d, cursor, op.target - cursor, crcs).value;
              && read.outputOffset == op.target
              && (PlanEdit(read, op, crcs).Ok? ==> PlanEdit(read, op, crcs).value.outputOffset == op.End())
  {
    hide Merge, NonEmpty, Crc32.Combine, Crc32.Crc;
  }

  /** Mirrors `build_patch`. */
  method BuildPatch(layout: Layout, manifest: Manifest) returns (r: Result<seq<byte>>)
    ensures r == PatchOf(layout, manifest)
  {
    if !Validated(layout, manifest) {
      return Err;
    }
    var ops := BuildOperations(layout, manifest);
    if ops.Err? {
      return Err;
    }
    OperationsMembers(layout, manifest);
    var builder := new BpsBuilder(RecordedRanges(layout.sourceRanges));
    var ok := DriveBuilder(builder, ops.value, layout.isoSize);
    if !ok || builder.outputOffset != layout.isoSize {
      return Err;
    }
    var patch := builder.Encode(layout.isoSize, layout.sourceCrc);
    return Ok(patch);
  }

  // ---- main results ---------------------------------------------------------------------------

  /** A patch is built exactly when the layout fits the manifest, the edits are in order, and every
      range that `expected_source_ranges` lists is recorded. */
  lemma BuildsExactlyWhen(layout: Layout, manifest: Manifest)
    ensures PatchOf(layout, manifest).Ok? <==>
              && Validated(layout, manifest) && Operations(layout, manifest).Ok?
              && (forall r :: r in Ranges(Operations(layout, manifest).value, 0, layout.isoSize) ==>
                                r in RecordedRanges(layout.sourceRanges))
  {
    hide Validated, Operations, Plan, RecordedRanges, Ranges, Encoded;
    if Operations(layout, manifest).Ok? {
      OperationsMembers(layout, manifest);
      PlanSucceeds(EMPTY, Operations(layout, manifest).value, 0, layout.isoSize, RecordedRanges(layout.sourceRanges));
    }
  }

  /** Hook addresses that validate are all found. */
  lemma {:induction false} HooksFound(words: seq<(int, int)>, hooks: seq<Hook>, writes: seq<Write>)
    requires Addresses(writes) <= HookAddresses(hooks)
    ensures PutHooks(words, hooks, writes).Ok?
    decreases |writes|
  {
    if writes != [] {
      AddressesSplit(writes);
      HookFound(hooks, writes[0].address);
      HooksFound(PutWord(words, HookOffset(hooks, writes[0].address).value, writes[0].value), hooks, writes[1..]);
    }
  }

  lemma {:induction false} HookFound(hooks: seq<Hook>, address: int)
    requires address in HookAddresses(hooks)
    ensures HookOffset(hooks, address).Ok?
    decreases |hooks|
  {
    if hooks[0].address != address {
      var i :| 0 <= i < |hooks| && hooks[i].address == address;
      assert hooks[1..][i - 1].address == address;
      HookFound(hooks[1..], address);
    }
  }

  /** What a later manifest must still bring itself: code that fits, and words of 32 bits. */
  predicate Writable(layout: Layout, manifest: Manifest) {
    CodeFits(layout, manifest) && AllWords(layout, manifest).Ok? && WordsFit(AllWords(layout, manifest).value)
  }

  /** A layout that once built keeps building: a later manifest with the same hook addresses builds exactly
      when its code fits and its words do; its edits then lie apart and inside the image, and need the
      same source ranges, because the first manifest's did. */
  lemma KeepsBuilding(layout: Layout, old': Manifest, new': Manifest)
    requires PatchOf(layout, old').Ok? && Validated(layout, new')
    ensures AllWords(layout, new').Ok?
    ensures PatchOf(layout, new').Ok? <==> Writable(layout, new')
  {
    hide Operations, RecordedRanges, Ranges, PatchOf, AllWords, CodeFits, WordsFit;
    BuildsExactlyWhen(layout, old');
    BuildsExactlyWhen(layout, new');
    ValidatedWords(layout, new');
    Collected(layout, old');
    Collected(layout, new');
    if Writable(layout, new') {
      LaidAlike(layout, old', new');
      RangesStable(layout, old', new');
    }
  }

  lemma ValidatedWords(layout: Layout, manifest: Manifest)
    requires Validated(layout, manifest)
    ensures AllWords(layout, manifest).Ok?
  {
    HooksFound(DolWords(layout, manifest), layout.hooks, manifest.writes);
  }

  /** The edits can be collected exactly when the layout's own can and the manifest is writable. */
  lemma Collected(layout: Layout, manifest: Manifest)
    ensures Operations(layout, manifest).Ok? ==> RawOperations(layout, manifest).Ok?
    ensures RawOperations(layout, manifest).Ok? <==>
              BootEdits(layout).Ok? && FixedEdits(layout).Ok? && Writable(layout, manifest)
  {
    hide BootEdits, FixedEdits, CodeFits, AllWords, WordEdits, WordsFit;
    if AllWords(layout, manifest).Ok? {
      WordEditsAt(AllWords(layout, manifest).value);
    }
  }

  /** In particular code that fits and replacement words of 32 bits are enough. */
  lemma KeepsBuildingForWords(layout: Layout, old': Manifest, new': Manifest)
    requires PatchOf(layout, old').Ok? && Validated(layout, new') && CodeFits(layout, new')
    requires forall i :: 0 <= i < |new'.writes| ==> WordFits(new'.writes[i].value)
    ensures PatchOf(layout, new').Ok?
  {
    hide PatchOf, CodeFits, PutHooks, DolWords, Addresses, HookSites, DistinctKeys, Operations, RawOperations;
    KeepsBuilding(layout, old', new');
    BuildsExactlyWhen(layout, old');
    Collected(layout, old');
    SameHeader(layout, old', new');
    var header := DolWords(layout, old');
    DolWordsDistinct(layout, old');
    var before, after := AllWords(layout, old').value, AllWords(layout, new').value;
    forall i | 0 <= i < |after|
      ensures WordFits(after[i].1)
    {
      assert after[i] in after;
      HookedWord(header, layout.hooks, old'.writes, after[i]);
      HookedWord(header, layout.hooks, new'.writes, after[i]);
      if after[i] in before {
        var j :| 0 <= j < |before| && before[j] == after[i];
        assert WordFits(before[j].1);
      }
    }
  }

  lemma SameHeader(layout: Layout, old': Manifest, new': Manifest)
    requires PatchOf(layout, old').Ok? && Validated(layout, new')
    ensures DolWords(layout, new') == DolWords(layout, old') && Addresses(new'.writes) == Addresses(old'.writes)
  {
    hide Operations, Plan, PutWord;
  }

  /** The source image the layout was made from: the right size, whole checksum and range checksums. */
  ghost predicate CleanSource(layout: Layout, source: seq<byte>) {
    |source| == layout.isoSize && Checksum(source) == layout.sourceCrc &&
    Matches(source, RecordedRanges(layout.sourceRanges))
  }

  /** Building then applying: the patch is accepted, all checksums included, and writes exactly the
      source with the edits substituted, as long as its numbers are within the format's ten digits;
      beyond that the interpreter refuses it. */
  lemma PatchApplies(layout: Layout, manifest: Manifest, source: seq<byte>)
    requires PatchOf(layout, manifest).Ok? && CleanSource(layout, source)
    ensures var applied := Apply(source, PatchOf(layout, manifest).value);
            if Fits(DraftOf(layout, manifest).value, layout.isoSize)
            then applied.Ok? && Substituted(RawOperations(layout, manifest).value, source, applied.value)
            else applied.Err?
    ensures RawOperations(layout, manifest).Ok?
  {
    hide Apply, Plan, Encoded, Represents, RawOperations, Operations, Matches, Substituted;
    var ops := Operations(layout, manifest).value;
    var crcs := RecordedRanges(layout.sourceRanges);
    OperationsMembers(layout, manifest);
    EmptyRepresents(source);
    var target := PlanRepresents(EMPTY, ops, 0, layout.isoSize, crcs, source, []);
    var d := DraftOf(layout, manifest).value;
    DraftApplies(d, source, target);
    SubstitutedMembers(ops, RawOperations(layout, manifest).value, source, target);
  }

  lemma DraftApplies(d: Draft, source: seq<byte>, target: seq<byte>)
    requires Represents(d, source, target)
    ensures Apply(source, Encoded(d, |source|, Checksum(source))) == if Fits(d, |source|) then Ok(target) else Err
  {
    EncodedApplies(d, source, target);
  }

  lemma SubstitutedMembers(a: seq<Operation>, b: seq<Operation>, source: seq<byte>, target: seq<byte>)
    requires SubstitutedFrom(a, source, target, 0) && forall op :: op in a <==> op in b
    ensures Substituted(b, source, target)
  {
    forall p
      ensures CoveredBy(a, p) <==> CoveredBy(b, p)
    {
      SameMembersCover(a, b, p);
    }
  }

  // ---- real discs are within the number format ------------------------------------------------

  const GC_ISO_SIZE := 1459978240

  /** Actions that stay inside an image of at most `n` bytes only need numbers below `4 * n`. */
  lemma {:induction false} RunReadable(actions: seq<Action>, source: seq<byte>, out: seq<byte>, cursors: (int, int),
                                       n: nat)
    requires NonEmpty(actions) && Run(actions, source, out).Ok? && |Run(actions, source, out).value| <= n
    requires |source| <= n && 0 <= cursors.0 <= n && 0 <= cursors.1 <= n && 4 * n <= NUMBER_LIMIT
    ensures Readable(actions, cursors)
    decreases |actions|
  {
    hide BpsNumber.Bound, Overlap.CopyForward;
    if actions != [] {
      var a := actions[0];
      var next := Perform(a, source, out).value;
      RunReadable(actions[1..], source, next, Advance(a, cursors), n);
    }
  }

  lemma SmallFits(d: Draft, source: seq<byte>, image: seq<byte>)
    requires Represents(d, source, image) && |image| == |source| > 0 && 4 * |source| <= NUMBER_LIMIT
    ensures Fits(d, |source|)
  {
    hide BpsNumber.Bound, Readable, Run;
    RunReadable(d.actions, source, [], (0, 0), |source|);
  }

  /** For every disc image of up to a quarter of the number format's range, whatever the layout and
      manifest: a patch that is built is accepted and writes exactly the substituted image. */
  lemma BuiltPatchIsRight(layout: Layout, manifest: Manifest, source: seq<byte>)
    requires PatchOf(layout, manifest).Ok? && CleanSource(layout, source) && 4 * layout.isoSize <= NUMBER_LIMIT
    ensures RawOperations(layout, manifest).Ok?
    ensures Apply(source, PatchOf(layout, manifest).value).Ok?
    ensures Substituted(RawOperations(layout, manifest).value, source,
                        Apply(source, PatchOf(layout, manifest).value).value)
  {
    hide Apply, Plan, Represents, RawOperations, Operations, Matches, Substituted, Fits, PatchOf, RecordedRanges;
    PatchApplies(layout, manifest, source);
    DraftFits(layout, manifest, source);
  }

  lemma DraftFits(layout: Layout, manifest: Manifest, source: seq<byte>)
    requires PatchOf(layout, manifest).Ok? && CleanSource(layout, source) && 4 * layout.isoSize <= NUMBER_LIMIT
    ensures DraftOf(layout, manifest).Ok? && Fits(DraftOf(layout, manifest).value, layout.isoSize)
  {
    hide Plan, Represents, RawOperations, Operations, Matches, Fits, RecordedRanges;
    OperationsMembers(layout, manifest);
    EmptyRepresents(source);
    var ops := Operations(layout, manifest).value;
    var target := PlanRepresents(EMPTY, ops, 0, layout.isoSize, RecordedRanges(layout.sourceRanges), source, []);
    BootWordPresent(layout, manifest);
    SmallFits(DraftOf(layout, manifest).value, source, target);
  }

  /** The boot header words are always edited, so an accepted image is never empty. */
  lemma BootWordPresent(layout: Layout, manifest: Manifest)
    requires Operations(layout, manifest).Ok?
    ensures layout.isoSize > BOOT_FST_OFFSET_FIELD
  {
    hide FixedEdits, WordEdits, CodeEdits, AllWords, Operations, Laid;
    OperationsMembers(layout, manifest);
    var boot := Operation(BOOT_FST_OFFSET_FIELD, Literal(PutBE32(layout.fst.targetOffset)));
    assert boot in BootEdits(layout).value;
    assert boot in RawOperations(layout, manifest).value;
    LaidBounds(Operations(layout, manifest).value, 0, layout.isoSize, boot);
  }

  lemma GameCubeDiscsFit()
    ensures 4 * GC_ISO_SIZE <= NUMBER_LIMIT
  {
    var five := BpsNumber.Bound(5);
    assert BpsNumber.Bound(1) == 128 && BpsNumber.Bound(2) == 16512 && BpsNumber.Bound(3) == 2113664;
    assert BpsNumber.Bound(4) == 270549120 && five == 34630287488;
    BoundGrows(5, 5);
  }

  lemma {:induction false} BoundGrows(digits: nat, more: nat)
    ensures BpsNumber.Bound(digits) <= BpsNumber.Bound(digits + more)
    decreases more
  {
    if more > 0 {
      BoundGrows(digits, more - 1);
    }
  }
}
