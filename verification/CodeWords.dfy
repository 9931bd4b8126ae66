/** Words of game code in memory: what a patch makes of one, and where a branch lands. */
module CodeWords {
  import opened Bytes

  type word = u32

  const NOP: word := 0x6000_0000
  const BRANCH: word := 0x4800_0000
  const WRAP := 0x1_0000_0000

  // ---- words ----------------------------------------------------------------------------------

  /** What a row writes: a whole word, or one halfword of it. */
  datatype Fill = Whole(value: word) | High(half: u16) | Low(half: u16)

  /** `(original & ~mask) | value`, for a value within its mask. */
  function Masked(original: word, fill: Fill): (w: word)
  {
    match fill
    case Whole(value) => value
    case High(half) => half * 0x1_0000 + original % 0x1_0000
    case Low(half) => original / 0x1_0000 * 0x1_0000 + half
  }

  /** The word a patched site should hold: a function of its original and the setting alone. */
  function PatchedWord(original: word, fill: Fill, on: bool): word {
    if on then Masked(original, fill) else original
  }

  /** A whole-word patch replaces the word; a halfword patch replaces its half and leaves the other. */
  lemma MaskedHalves(original: word, fill: Fill)
    ensures match fill
            case Whole(value) => Masked(original, fill) == value
            case High(half) =>
              Masked(original, fill) / 0x1_0000 == half && Masked(original, fill) % 0x1_0000 == original % 0x1_0000
            case Low(half) =>
              Masked(original, fill) / 0x1_0000 == original / 0x1_0000 && Masked(original, fill) % 0x1_0000 == half
  {
  }

  /** Writing a patch over itself changes nothing, as an early pass that runs again does. */
  lemma PatchIdempotent(original: word, fill: Fill)
    ensures Masked(Masked(original, fill), fill) == Masked(original, fill)
  {
  }

  /** The 24-bit word offset of a branch, in place. */
  function Field(distance: word): word { distance % 0x0400_0000 / 4 * 4 }

  /** Mirrors `branchWord`. */
  function BranchWord(from: word, to: word): word { BRANCH + Field((to - from) % WRAP) }

  /** Sign extension of the 26-bit offset. */
  function Extended(offset: word): word
    requires offset < 0x0400_0000
  {
    if offset >= 0x0200_0000 then offset + 0xFC00_0000 else offset
  }

  /** Where a branch instruction at `from` lands. */
  function BranchTarget(from: word, instruction: word): word {
    (from + Extended(Field(instruction % 0x0400_0000))) % WRAP
  }

  /** An aligned distance within 32 MiB either way. */
  predicate Near(distance: word) { distance % 4 == 0 && (distance < 0x0200_0000 || distance >= 0xFE00_0000) }

  /** A branch lands on its target exactly when the target is aligned and within reach. */
  lemma BranchLands(from: word, to: word)
    ensures BranchTarget(from, BranchWord(from, to)) == to <==> Near((to - from) % WRAP)
  {
    hide Extended, Field, Near;
    var d: word := (to - from) % WRAP;
    FieldReads(d);
    FieldExtends(d);
    var e: word := Extended(Field(d));
    SumCancels(from, to, e);
  }

  lemma FieldReads(d: word)
    ensures Field(d) < 0x0400_0000 && Field((BRANCH + Field(d)) % 0x0400_0000) == Field(d)
  {
  }

  lemma FieldExtends(d: word)
    ensures Field(d) < 0x0400_0000 && (Extended(Field(d)) == d <==> Near(d))
  {
  }

  lemma SumCancels(from: word, to: word, e: word)
    ensures (from + e) % WRAP == to <==> e == (to - from) % WRAP
  {
  }

  // ---- memory ---------------------------------------------------------------------------------

  function At(words: map<nat, word>, address: nat): word { if address in words then words[address] else 0 }

  class Memory {
    var words: map<nat, word>

    method Write(address: nat, value: word)
      modifies this
      ensures words == old(words)[address := value]
    {
      words := words[address := value];
    }
  }
}
