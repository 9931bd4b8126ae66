/** BPS patches: what the actions mean, how a patch is laid out in bytes, and the interpreter
    that applies one in bounded chunks. */
module Bps {
  import opened Bytes
  import opened Overlap
  import Crc32
  import BpsNumber

  const MAGIC: seq<byte> := [0x42, 0x50, 0x53, 0x31]
  const CHUNK := 0x80_0000
  const FOOTER := 12

  function Checksum(data: seq<byte>): u32 { Crc32.Crc(data) as int }

  // ---- meaning --------------------------------------------------------------------------------

  datatype Action =
    | SourceRead(size: nat)
    | TargetRead(data: seq<byte>)
    | SourceCopy(offset: int, size: nat)
    | TargetCopy(offset: int, size: nat)
  {
    function Length(): nat { if TargetRead? then |data| else size }
  }

  /** Append what one action produces, a byte at a time where it may read its own output. */
  function Perform(a: Action, source: seq<byte>, out: seq<byte>): (r: Result<seq<byte>>)
    ensures r.Ok? ==> |r.value| == |out| + a.Length() && r.value[..|out|] == out
  {
    match a
    case SourceRead(size) =>
      if |out| + size <= |source| then Ok(out + source[|out|..|out| + size]) else Err
    case TargetRead(data) => Ok(out + data)
    case SourceCopy(offset, size) =>
      if 0 <= offset && offset + size <= |source| then Ok(out + source[offset..offset + size]) else Err
    case TargetCopy(offset, size) =>
      if 0 <= offset < |out| then Ok(CopyForward(out, offset, size)) else Err
  }

  function Run(actions: seq<Action>, source: seq<byte>, out: seq<byte>): (r: Result<seq<byte>>)
    ensures r.Ok? ==> |r.value| >= |out|
  {
    if actions == [] then Ok(out)
    else match Perform(actions[0], source, out)
      case Err => Err
      case Ok(next) => Run(actions[1..], source, next)
  }

  lemma {:induction false} RunConcat(a: seq<Action>, b: seq<Action>, source: seq<byte>, out: seq<byte>)
    ensures Run(a + b, source, out) == match Run(a, source, out) case Err => Err case Ok(mid) => Run(b, source, mid)
  {
    if a == [] {
      assert a + b == b;
    } else {
      assert (a + b)[1..] == a[1..] + b;
      var first := Perform(a[0], source, out);
      if first.Ok? {
        RunConcat(a[1..], b, source, first.value);
      }
    }
  }

  // ---- the command stream ---------------------------------------------------------------------

  /** Where the interpreter is: stream position, bytes written, and the two relative cursors. */
  datatype Machine = Machine(pos: nat, out: seq<byte>, sourceRelative: int, targetRelative: int)

  /** Carry out `size` bytes of action `kind` once its cursor has been adjusted. */
  function Transfer(kind: nat, size: nat, stream: seq<byte>, source: seq<byte>, m: Machine): (r: Result<Machine>)
    requires kind < 4 && m.pos <= |stream|
    ensures r.Ok? ==> |r.value.out| == |m.out| + size && m.pos <= r.value.pos <= |stream|
  {
    if size == 0 then Ok(m)
    else if kind == 0 then
      match Perform(SourceRead(size), source, m.out)
      case Err => Err
      case Ok(out) => Ok(m.(out := out))
    else if kind == 1 then
      if m.pos + size <= |stream| then
        Ok(m.(out := m.out + stream[m.pos..m.pos + size], pos := m.pos + size))
      else Err
    else if kind == 2 then
      match Perform(SourceCopy(m.sourceRelative, size), source, m.out)
      case Err => Err
      case Ok(out) => Ok(m.(out := out, sourceRelative := m.sourceRelative + size))
    else
      match Perform(TargetCopy(m.targetRelative, size), source, m.out)
      case Err => Err
      case Ok(out) => Ok(m.(out := out, targetRelative := m.targetRelative + size))
  }

  /** A relative cursor step: sign in the low bit. */
  function Delta(n: nat): int {
    if n % 2 == 1 then -(n / 2) else n / 2
  }

  /** Read the signed step of the two copying actions. */
  function Seek(kind: nat, stream: seq<byte>, m: Machine): (r: Result<Machine>)
    requires m.pos <= |stream|
    ensures r.Ok? ==> r.value.out == m.out && m.pos <= r.value.pos <= |stream|
  {
    if kind != 2 && kind != 3 then Ok(m)
    else match BpsNumber.Parse(stream, m.pos, BpsNumber.DIGIT_LIMIT)
      case Err => Err
      case Ok(n) =>
        if kind == 2 then Ok(m.(pos := n.1, sourceRelative := m.sourceRelative + Delta(n.0)))
        else Ok(m.(pos := n.1, targetRelative := m.targetRelative + Delta(n.0)))
  }

  /** One command of the stream. */
  function Command(stream: seq<byte>, source: seq<byte>, targetSize: nat, m: Machine): (r: Result<Machine>)
    requires m.pos <= |stream| && |m.out| < targetSize
    ensures r.Ok? ==> |m.out| < |r.value.out| <= targetSize && r.value.pos <= |stream|
  {
    match BpsNumber.Parse(stream, m.pos, BpsNumber.DIGIT_LIMIT)
    case Err => Err
    case Ok(command) =>
      var kind, size := command.0 % 4, command.0 / 4 + 1;
      if size > targetSize - |m.out| then Err
      else match Seek(kind, stream, m.(pos := command.1))
        case Err => Err
        case Ok(ready) => Transfer(kind, size, stream, source, ready)
  }

  function Execute(stream: seq<byte>, source: seq<byte>, targetSize: nat, m: Machine): (r: Result<Machine>)
    requires m.pos <= |stream| && |m.out| <= targetSize
    ensures r.Ok? ==> |r.value.out| == targetSize && r.value.pos <= |stream|
    decreases targetSize - |m.out|
  {
    if |m.out| == targetSize then Ok(m)
    else match Command(stream, source, targetSize, m)
      case Err => Err
      case Ok(next) => Execute(stream, source, targetSize, next)
  }

  /** Sizes and metadata at the head of the stream: source size, target size, first command. */
  function ParseHeader(stream: seq<byte>): (r: Result<(nat, nat, nat)>)
    ensures r.Ok? ==> r.value.2 <= |stream|
  {
    match BpsNumber.Parse(stream, 4, BpsNumber.DIGIT_LIMIT)
    case Err => Err
    case Ok(sourceSize) =>
      match BpsNumber.Parse(stream, sourceSize.1, BpsNumber.DIGIT_LIMIT)
      case Err => Err
      case Ok(targetSize) =>
        match BpsNumber.Parse(stream, targetSize.1, BpsNumber.DIGIT_LIMIT)
        case Err => Err
        case Ok(metadata) =>
          if metadata.1 + metadata.0 <= |stream| then
            Ok((sourceSize.0, targetSize.0, metadata.1 + metadata.0))
          else Err
  }

  /** The target a command stream denotes for one source, given the two checksums it must meet. */
  function Interpret(stream: seq<byte>, source: seq<byte>, sourceCrc: u32, targetCrc: u32): Result<seq<byte>> {
    match ParseHeader(stream)
    case Err => Err
    case Ok(header) =>
      if |source| != header.0 || Checksum(source) != sourceCrc then Err
      else match Execute(stream, source, header.1, Machine(header.2, [], 0, 0))
        case Err => Err
        case Ok(end) =>
          if end.pos != |stream| || Checksum(end.out) != targetCrc then Err else Ok(end.out)
  }

  /** The target a patch denotes, or a refusal: all three checksums, every bound, no spare bytes. */
  function Apply(source: seq<byte>, patch: seq<byte>): Result<seq<byte>> {
    if |patch| < 19 || patch[..4] != MAGIC then Err
    else if Checksum(patch[..|patch| - 4]) != GetLE32(patch, |patch| - 4) then Err
    else Interpret(patch[..|patch| - FOOTER], source, GetLE32(patch, |patch| - 12), GetLE32(patch, |patch| - 8))
  }

  // ---- the chunked interpreter ----------------------------------------------------------------

  lemma SliceSplit(out: seq<byte>, s: seq<byte>, p: nat, k: nat, n: nat)
    requires p + k + n <= |s|
    ensures out + s[p..p + (k + n)] == (out + s[p..p + k]) + s[p + k..p + k + n]
  {
    assert s[p..p + (k + n)] == s[p..p + k] + s[p + k..p + k + n];
  }

  /** Any transfer may be cut in two. */
  lemma TransferSplit(kind: nat, k: nat, n: nat, stream: seq<byte>, source: seq<byte>, m: Machine)
    requires kind < 4 && m.pos <= |stream| && k > 0
    ensures Transfer(kind, k + n, stream, source, m)
         == match Transfer(kind, k, stream, source, m)
            case Err => Err
            case Ok(mid) => Transfer(kind, n, stream, source, mid)
  {
    hide CopyForward;
    if kind == 0 {
      if |m.out| + (k + n) <= |source| {
        SliceSplit(m.out, source, |m.out|, k, n);
      }
    } else if kind == 1 {
      hide Perform;
      if m.pos + (k + n) <= |stream| {
        SliceSplit(m.out, stream, m.pos, k, n);
      }
    } else if kind == 2 {
      if 0 <= m.sourceRelative && m.sourceRelative + (k + n) <= |source| {
        SliceSplit(m.out, source, m.sourceRelative, k, n);
      }
    } else {
      if 0 <= m.targetRelative < |m.out| {
        CopyForwardSplit(m.out, m.targetRelative, k, n);
      }
    }
  }

  /** Mirrors the target-copy arm: read what is there, replicate it to length. */
  method TargetChunk(target: seq<byte>, from: nat, count: nat) returns (data: seq<byte>)
    requires from < |target| && count > 0
    ensures target + data == CopyForward(target, from, count)
  {
    var available := |target| - from;
    data := target[from..from + if count < available then count else available];
    if |data| < count {
      data := Periodic(data, count);
      assert target[from..] == target[from..|target|];
      PeriodicIsCopyForward(target, from, count);
    } else {
      CopyForwardSlice(target, from, count);
    }
  }

  /** Mirrors the body of the inner loop of `apply_patch`: one bounded chunk of the transfer. */
  method TransferChunk(kind: nat, count: nat, stream: seq<byte>, source: seq<byte>, m: Machine)
    returns (r: Result<Machine>)
    requires kind < 4 && m.pos <= |stream| && count > 0
    ensures r == Transfer(kind, count, stream, source, m)
  {
    var data: seq<byte>;
    var next := m;
    if kind == 3 {
      if !(0 <= m.targetRelative < |m.out|) {
        return Err;
      }
      data := TargetChunk(m.out, m.targetRelative, count);
      next := next.(targetRelative := m.targetRelative + count);
    } else if kind == 1 {
      data := stream[m.pos..if m.pos + count <= |stream| then m.pos + count else |stream|];
      if |data| != count {
        return Err;
      }
      next := next.(pos := m.pos + count);
    } else {
      var position := if kind == 0 then |m.out| else m.sourceRelative;
      if position < 0 || position + count > |source| {
        return Err;
      }
      data := source[position..position + count];
      if kind == 2 {
        next := next.(sourceRelative := m.sourceRelative + count);
      }
    }
    return Ok(next.(out := m.out + data));
  }

  /** Mirrors the inner loop of `apply_patch`. */
  method TransferInChunks(kind: nat, size: nat, stream: seq<byte>, source: seq<byte>, start: Machine)
    returns (r: Result<Machine>)
    requires kind < 4 && start.pos <= |stream|
    ensures r == Transfer(kind, size, stream, source, start)
  {
    hide Perform;
    var m, remaining: nat := start, size;
    while remaining != 0
      invariant m.pos <= |stream|
      invariant Transfer(kind, size, stream, source, start) == Transfer(kind, remaining, stream, source, m)
    {
      var count := if remaining < CHUNK then remaining else CHUNK;
      TransferSplit(kind, count, remaining - count, stream, source, m);
      var next := TransferChunk(kind, count, stream, source, m);
      if next.Err? {
        return Err;
      }
      m := next.value;
      remaining := remaining - count;
    }
    return Ok(m);
  }

  /** Mirrors the sign handling of the copying actions. */
  method SeekCursor(kind: nat, stream: seq<byte>, m: Machine) returns (r: Result<Machine>)
    requires m.pos <= |stream|
    ensures r == Seek(kind, stream, m)
  {
    r := Ok(m);
    if kind == 2 || kind == 3 {
      var number := BpsNumber.DecodeNumber(stream, m.pos);
      if number.Err? {
        return Err;
      }
      var n: int, next := number.value.0, number.value.1;
      var delta := if n % 2 == 1 then -(n / 2) else n / 2;
      if kind == 2 {
        r := Ok(m.(pos := next, sourceRelative := m.sourceRelative + delta));
      } else {
        r := Ok(m.(pos := next, targetRelative := m.targetRelative + delta));
      }
    }
  }

  /** Mirrors the outer loop of `apply_patch`. */
  method ExecuteCommands(stream: seq<byte>, source: seq<byte>, targetSize: nat, start: nat) returns (r: Result<Machine>)
    requires start <= |stream|
    ensures r == Execute(stream, source, targetSize, Machine(start, [], 0, 0))
  {
    hide BpsNumber.Parse, Seek, Transfer;
    var m := Machine(start, [], 0, 0);
    while |m.out| < targetSize
      invariant m.pos <= |stream| && |m.out| <= targetSize
      invariant Execute(stream, source, targetSize, m) == Execute(stream, source, targetSize, Machine(start, [], 0, 0))
      decreases targetSize - |m.out|
    {
      var command := BpsNumber.DecodeNumber(stream, m.pos);
      if command.Err? {
        return Err;
      }
      var kind, remaining := command.value.0 % 4, command.value.0 / 4 + 1;
      if remaining > targetSize - |m.out| {
        return Err;
      }
      var ready := SeekCursor(kind, stream, m.(pos := command.value.1));
      if ready.Err? {
        return Err;
      }
      var next := TransferInChunks(kind, remaining, stream, source, ready.value);
      if next.Err? {
        return Err;
      }
      m := next.value;
    }
    return Ok(m);
  }

  /** Mirrors `apply_patch`: the chunked interpreter computes exactly what the patch denotes. */
  method ApplyPatch(source: seq<byte>, patch: seq<byte>) returns (r: Result<seq<byte>>)
    ensures r == Apply(source, patch)
  {
    hide BpsNumber.Parse, Checksum, GetLE32, Execute;
    if |patch| < 19 || patch[..4] != MAGIC {
      return Err;
    }
    var sourceCrc, targetCrc := GetLE32(patch, |patch| - 12), GetLE32(patch, |patch| - 8);
    var patchCrc := GetLE32(patch, |patch| - 4);
    if Checksum(patch[..|patch| - 4]) != patchCrc {
      return Err;
    }
    var stream := patch[..|patch| - FOOTER];
    var sourceSize := BpsNumber.DecodeNumber(stream, 4);
    if sourceSize.Err? {
      return Err;
    }
    var targetSize := BpsNumber.DecodeNumber(stream, sourceSize.value.1);
    if targetSize.Err? {
      return Err;
    }
    var metadata := BpsNumber.DecodeNumber(stream, targetSize.value.1);
    if metadata.Err? || metadata.value.1 + metadata.value.0 > |stream| {
      return Err;
    }
    if |source| != sourceSize.value.0 || Checksum(source) != sourceCrc {
      return Err;
    }
    var end := ExecuteCommands(stream, source, targetSize.value.0, metadata.value.1 + metadata.value.0);
    if end.Err? || end.value.pos != |stream| || Checksum(end.value.out) != targetCrc {
      return Err;
    }
    return Ok(end.value.out);
  }
}
