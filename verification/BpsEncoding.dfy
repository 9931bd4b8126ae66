/** Building a patch without ever seeing the target: actions are merged as they arrive, the target
    checksum is composed from the checksums of the parts, and the result is laid out in bytes. */
module BpsEncoding {
  import opened Bytes
  import opened Bps
  import Crc32
  import BpsNumber
  import Overlap

  // ---- layout in bytes ------------------------------------------------------------------------

  function Kind(a: Action): nat {
    match a case SourceRead(_) => 0 case TargetRead(_) => 1 case SourceCopy(_, _) => 2 case TargetCopy(_, _) => 3
  }

  function Signed(delta: int): nat {
    if delta < 0 then -delta * 2 + 1 else delta * 2
  }

  /** The relative cursors (source, target) after an action. */
  function Advance(a: Action, cursors: (int, int)): (int, int) {
    if a.SourceCopy? then (a.offset + a.size, cursors.1)
    else if a.TargetCopy? then (cursors.0, a.offset + a.size)
    else cursors
  }

  function CommandNumber(a: Action): nat
    requires a.Length() > 0
  {
    (a.Length() - 1) * 4 + Kind(a)
  }

  function StepNumber(a: Action, cursors: (int, int)): nat {
    if a.SourceCopy? then Signed(a.offset - cursors.0)
    else if a.TargetCopy? then Signed(a.offset - cursors.1)
    else 0
  }

  function EncodeAction(a: Action, cursors: (int, int)): seq<byte>
    requires a.Length() > 0
  {
    BpsNumber.Encode(CommandNumber(a))
    + (match a
       case SourceRead(_) => []
       case TargetRead(data) => data
       case SourceCopy(_, _) => BpsNumber.Encode(StepNumber(a, cursors))
       case TargetCopy(_, _) => BpsNumber.Encode(StepNumber(a, cursors)))
  }

  predicate NonEmpty(actions: seq<Action>) {
    forall i :: 0 <= i < |actions| ==> actions[i].Length() > 0
  }

  function EncodeActions(actions: seq<Action>, cursors: (int, int)): seq<byte>
    requires NonEmpty(actions)
  {
    if actions == [] then []
    else EncodeAction(actions[0], cursors) + EncodeActions(actions[1..], Advance(actions[0], cursors))
  }

  const NUMBER_LIMIT := BpsNumber.Bound(BpsNumber.DIGIT_LIMIT)

  /** Every number written for the actions is within the interpreter's ten digits. */
  predicate Readable(actions: seq<Action>, cursors: (int, int))
    requires NonEmpty(actions)
  {
    actions == [] ||
    (CommandNumber(actions[0]) < NUMBER_LIMIT && StepNumber(actions[0], cursors) < NUMBER_LIMIT &&
     Readable(actions[1..], Advance(actions[0], cursors)))
  }

  /** What the builder holds. */
  datatype Draft = Draft(actions: seq<Action>, outputOffset: nat, targetCrc: bv32)

  function Head(sourceSize: nat, targetSize: nat): (s: seq<byte>)
    ensures |s| >= 7 && s[..4] == MAGIC
  {
    MAGIC + BpsNumber.Encode(sourceSize) + BpsNumber.Encode(targetSize) + BpsNumber.Encode(0)
  }

  function Stream(d: Draft, sourceSize: nat): seq<byte>
    requires NonEmpty(d.actions)
  {
    Head(sourceSize, d.outputOffset) + EncodeActions(d.actions, (0, 0))
  }

  function Encoded(d: Draft, sourceSize: nat, sourceCrc: u32): seq<byte>
    requires NonEmpty(d.actions)
  {
    Sealed(Stream(d, sourceSize), sourceCrc, d.targetCrc as int)
  }

  // ---- the interpreter reads it back ----------------------------------------------------------

  lemma CommandNumberParts(a: Action)
    requires a.Length() > 0
    ensures CommandNumber(a) % 4 == Kind(a) && CommandNumber(a) / 4 + 1 == a.Length()
  {
  }

  /** One encoded action is one command: same bytes out, cursors advanced, or refused alike. */
  lemma CommandOfAction(before: seq<byte>, a: Action, after: seq<byte>, source: seq<byte>, targetSize: nat,
                        out: seq<byte>, cursors: (int, int))
    requires a.Length() > 0 && |out| + a.Length() <= targetSize
    ensures var stream := before + EncodeAction(a, cursors) + after;
            Command(stream, source, targetSize, Machine(|before|, out, cursors.0, cursors.1)) ==
            if CommandNumber(a) >= NUMBER_LIMIT || StepNumber(a, cursors) >= NUMBER_LIMIT then Err
            else match Perform(a, source, out)
              case Err => Err
              case Ok(next) => Ok(Machine(|before| + |EncodeAction(a, cursors)|, next,
                                          Advance(a, cursors).0, Advance(a, cursors).1))
  {
    hide BpsNumber.Encode, BpsNumber.Parse, BpsNumber.Bound, CommandNumber, StepNumber, Overlap.CopyForward;
    var stream := before + EncodeAction(a, cursors) + after;
    var head := BpsNumber.Encode(CommandNumber(a));
    var rest := EncodeAction(a, cursors)[|head|..];
    CommandNumberParts(a);
    assert stream == before + head + (rest + after);
    BpsNumber.ParseEncoding(before, CommandNumber(a), rest + after, BpsNumber.DIGIT_LIMIT);
    if a.SourceCopy? || a.TargetCopy? {
      assert rest == BpsNumber.Encode(StepNumber(a, cursors));
      assert stream == (before + head) + rest + after;
      BpsNumber.ParseEncoding(before + head, StepNumber(a, cursors), after, BpsNumber.DIGIT_LIMIT);
      StepNumberDelta(a, cursors);
    } else {
      StepNumberZero(a, cursors);
      if a.TargetRead? {
        var p := |before| + |head|;
        assert stream[p..p + |a.data|] == a.data;
      }
    }
  }

  lemma StepNumberDelta(a: Action, cursors: (int, int))
    requires a.SourceCopy? || a.TargetCopy?
    ensures Delta(StepNumber(a, cursors)) == a.offset - (if a.SourceCopy? then cursors.0 else cursors.1)
  {
  }

  lemma StepNumberZero(a: Action, cursors: (int, int))
    requires !a.SourceCopy? && !a.TargetCopy?
    ensures StepNumber(a, cursors) == 0 < NUMBER_LIMIT
  {
    assert NUMBER_LIMIT == 128 * (BpsNumber.Bound(9) + 1);
  }

  /** Executing the encoded actions is running the actions. */
  lemma {:induction false} ExecuteActions(before: seq<byte>, actions: seq<Action>, source: seq<byte>,
                                          targetSize: nat, out: seq<byte>, cursors: (int, int))
    requires NonEmpty(actions)
    requires Run(actions, source, out).Ok? && |Run(actions, source, out).value| == targetSize
    ensures var stream := before + EncodeActions(actions, cursors);
            var r := Execute(stream, source, targetSize, Machine(|before|, out, cursors.0, cursors.1));
            if Readable(actions, cursors)
            then r.Ok? && r.value.pos == |stream| && r.value.out == Run(actions, source, out).value
            else r.Err?
    decreases |actions|
  {
    hide Command, EncodeAction, Perform, CommandNumber, StepNumber, Advance;
    var stream := before + EncodeActions(actions, cursors);
    if actions != [] {
      var a := actions[0];
      var here, rest := EncodeAction(a, cursors), EncodeActions(actions[1..], Advance(a, cursors));
      var next := Perform(a, source, out).value;
      assert stream == before + here + rest;
      CommandOfAction(before, a, rest, source, targetSize, out, cursors);
      ExecuteActions(before + here, actions[1..], source, targetSize, next, Advance(a, cursors));
      assert (before + here) + rest == stream;
    }
  }

  predicate Fits(d: Draft, sourceSize: nat)
    requires NonEmpty(d.actions)
  {
    sourceSize < NUMBER_LIMIT && d.outputOffset < NUMBER_LIMIT && Readable(d.actions, (0, 0))
  }

  lemma HeaderParses(sourceSize: nat, targetSize: nat, actions: seq<byte>)
    ensures var head := Head(sourceSize, targetSize);
            ParseHeader(head + actions) ==
            if sourceSize < NUMBER_LIMIT && targetSize < NUMBER_LIMIT then Ok((sourceSize, targetSize, |head|)) else Err
  {
    hide BpsNumber.Encode, BpsNumber.Parse, BpsNumber.Bound;
    var s, t, z := BpsNumber.Encode(sourceSize), BpsNumber.Encode(targetSize), BpsNumber.Encode(0);
    var stream := MAGIC + s + t + z + actions;
    assert stream == MAGIC + s + (t + z + actions);
    BpsNumber.ParseEncoding(MAGIC, sourceSize, t + z + actions, BpsNumber.DIGIT_LIMIT);
    assert stream == (MAGIC + s) + t + (z + actions);
    BpsNumber.ParseEncoding(MAGIC + s, targetSize, z + actions, BpsNumber.DIGIT_LIMIT);
    BpsNumber.ParseEncoding(MAGIC + s + t, 0, actions, BpsNumber.DIGIT_LIMIT);
    StepNumberZero(SourceRead(1), (0, 0));
  }

  /** A stream followed by its three checksums. */
  function Sealed(stream: seq<byte>, sourceCrc: u32, targetCrc: u32): seq<byte> {
    var unsealed := stream + PutLE32(sourceCrc) + PutLE32(targetCrc);
    unsealed + PutLE32(Checksum(unsealed))
  }

  lemma SealedWords(stream: seq<byte>, sourceCrc: u32, targetCrc: u32)
    ensures var patch := Sealed(stream, sourceCrc, targetCrc);
            && |patch| == |stream| + FOOTER
            && patch[..|patch| - FOOTER] == stream
            && Checksum(patch[..|patch| - 4]) == GetLE32(patch, |patch| - 4)
            && GetLE32(patch, |patch| - 8) == targetCrc && GetLE32(patch, |patch| - 12) == sourceCrc
  {
    hide PutLE32, GetLE32, Checksum;
    var a, b := PutLE32(sourceCrc), PutLE32(targetCrc);
    var unsealed := stream + a + b;
    var c := PutLE32(Checksum(unsealed));
    var patch := unsealed + c;
    assert patch[..|patch| - 4] == unsealed;
    assert patch == unsealed + c + [];
    LE32RoundTrip(unsealed, Checksum(unsealed), []);
    LE32RoundTrip(stream + a, targetCrc, c);
    assert patch == stream + a + (b + c);
    LE32RoundTrip(stream, sourceCrc, b + c);
  }

  /** The checksums of a sealed stream always agree; what is left is the stream's own meaning. */
  lemma ApplySealed(stream: seq<byte>, sourceCrc: u32, targetCrc: u32, source: seq<byte>)
    requires |stream| >= 7 && stream[..4] == MAGIC
    ensures Apply(source, Sealed(stream, sourceCrc, targetCrc)) == Interpret(stream, source, sourceCrc, targetCrc)
  {
    hide GetLE32, Checksum, Interpret, Sealed;
    SealedWords(stream, sourceCrc, targetCrc);
    var patch := Sealed(stream, sourceCrc, targetCrc);
    assert patch[..4] == patch[..|patch| - FOOTER][..4];
  }

  lemma InterpretDraft(d: Draft, source: seq<byte>, target: seq<byte>)
    requires NonEmpty(d.actions)
    requires Run(d.actions, source, []) == Ok(target)
    requires |target| == d.outputOffset && Crc32.Crc(target) == d.targetCrc
    ensures Interpret(Stream(d, |source|), source, Checksum(source), d.targetCrc as int)
         == if Fits(d, |source|) then Ok(target) else Err
  {
    hide BpsNumber.Encode, Checksum, Execute, ParseHeader, EncodeActions, Run, BpsNumber.Bound, Readable, Head;
    HeaderParses(|source|, d.outputOffset, EncodeActions(d.actions, (0, 0)));
    ExecuteActions(Head(|source|, d.outputOffset), d.actions, source, |target|, [], (0, 0));
    ChecksumOf(target);
  }

  /** A draft that describes its target exactly is applied exactly, so far as its numbers can be read. */
  lemma EncodedApplies(d: Draft, source: seq<byte>, target: seq<byte>)
    requires NonEmpty(d.actions)
    requires Run(d.actions, source, []) == Ok(target)
    requires |target| == d.outputOffset && Crc32.Crc(target) == d.targetCrc
    ensures Apply(source, Encoded(d, |source|, Checksum(source)))
         == if Fits(d, |source|) then Ok(target) else Err
  {
    hide Checksum, Interpret, Apply, Sealed, Run, Fits, EncodeActions, Head;
    var stream := Stream(d, |source|);
    assert stream[..4] == Head(|source|, d.outputOffset)[..4];
    ApplySealed(stream, Checksum(source), d.targetCrc as int, source);
    InterpretDraft(d, source, target);
  }

  lemma ChecksumOf(target: seq<byte>)
    ensures Checksum(target) == Crc32.Crc(target) as int
  {
  }
}
