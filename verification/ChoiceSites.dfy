/** Settings with more than two states, each with its own few sites. */
module ChoiceSites {
  import opened Bytes
  import opened CodeWords

  const CHOICE_SITES := 11

  type nozzleChoice = n: int | 0 <= n < 4
  type fluddChoice = n: int | 0 <= n < 4

  /** Settings with more than two states; the outfit forces the shirt on when it has no mode of its own. */
  datatype Choices = Choices(nozzle: nozzleChoice, fludd: fluddChoice, helmet: nat, cap: nat, shades: nat, shirt: nat,
                             outfit: bool)

  /** What is installed at the choice sites. */
  datatype ChoiceState = ChoiceState(nozzle: nozzleChoice, fludd: fluddChoice, looks: seq<nat>)

  function Look(mode: nat): nat { if mode > 2 then 0 else mode }

  function Wanted(s: Choices): ChoiceState {
    var shirt := if Look(s.shirt) == 0 && s.outfit then 1 else Look(s.shirt);
    ChoiceState(s.nozzle, s.fludd, [Look(s.helmet), Look(s.cap), Look(s.shades), shirt])
  }

  /** First site of each appearance; the last entry ends the list. */
  const LOOK_FIRST: seq<nat> := [3, 6, 7, 10, 11]

  function LookOf(i: nat): nat
    requires 3 <= i < CHOICE_SITES
  {
    if i < 6 then 0 else if i < 7 then 1 else if i < 10 then 2 else 3
  }

  const NOZZLE_IDS: seq<word> := [1, 5, 4]

  /** The word choice site `i` should hold. */
  function ChoiceWord(i: nat, original: word, c: ChoiceState): word
    requires i < CHOICE_SITES && |c.looks| == 4
  {
    if i == 0 then (if c.nozzle == 0 then original else 0x3BE0_0000 + NOZZLE_IDS[c.nozzle - 1])
    else if i < 3 then (if c.fludd == 1 then NOP else if c.fludd == 2 then BRANCH + 0x1C - i * 4 else original)
    else
      var look := c.looks[LookOf(i)];
      if look == 1 then NOP else if look == 2 then BRANCH + original % 0x1_0000 else original
  }

  const NO_CHOICE := ChoiceState(0, 0, [0, 0, 0, 0])

  /** With nothing chosen every choice site keeps its original. */
  lemma NoChoiceIsOriginal(i: nat, original: word)
    requires i < CHOICE_SITES
    ensures ChoiceWord(i, original, NO_CHOICE) == original
  {
  }

  /** Where a conditional branch goes: its displacement is the low halfword, sign extended, less the two flags. */
  function ConditionalTarget(from: word, instruction: word): word {
    var low := instruction % 0x1_0000 / 4 * 4;
    (from + if low < 0x8000 then low else low + 0xFFFF_0000) % WRAP
  }

  /** The mode an appearance is shown in; the outfit shows the shirt when it has no mode of its own. */
  function ModeOf(s: Choices, look: nat): nat
    requires look < 4
  {
    var chosen := [s.helmet, s.cap, s.shades, s.shirt][look];
    if chosen == 1 || chosen == 2 then chosen else if look == 3 && s.outfit then 1 else 0
  }

  /** What the chosen word does at site `i`: the nozzle is loaded as a constant; the gate is skipped, by nothing or
      by a branch past it; an appearance's own branch is never taken, or always taken. */
  lemma ChoiceMeans(i: nat, original: word, s: Choices, site: word)
    requires i < CHOICE_SITES
    ensures var w := ChoiceWord(i, original, Wanted(s));
            && (i == 0 ==> if s.nozzle == 0 then w == original
                           else w / 0x1_0000 == 0x3BE0 && w % 0x1_0000 == [1, 5, 4][s.nozzle - 1])
            && (1 <= i < 3 ==> if s.fludd == 1 then w == 0x6000_0000
                               else if s.fludd == 2 then BranchTarget(site, w) == (site + (0x1C - 4 * i)) % WRAP
                               else w == original)
            && (3 <= i ==> var mode := ModeOf(s, if i < 6 then 0 else if i < 7 then 1 else if i < 10 then 2 else 3);
                           if mode == 1 then w == 0x6000_0000
                           else if mode == 2 then BranchTarget(site, w) == (site + original % 0x1_0000 / 4 * 4) % WRAP
                           else w == original)
  {
  }

  /** The always-taken branch goes where the original one would exactly when that one goes forward. */
  lemma NeverShownLands(original: word, site: word)
    ensures BranchTarget(site, BRANCH + original % 0x1_0000) == ConditionalTarget(site, original)
            <==> original % 0x1_0000 < 0x8000
  {
    var low := original % 0x1_0000;
    assert Field((BRANCH + low) % 0x0400_0000) == low / 4 * 4;
    SumCancels(site, (site + low / 4 * 4) % WRAP, low / 4 * 4);
  }

  class Chooser {
    const sites: seq<nat>
    const memory: Memory
    const original: array<word>
    var captured: bool
    var state: ChoiceState
    ghost const retail: map<nat, word>

    ghost predicate Valid()
      reads this, memory, original
    {
      && |sites| == CHOICE_SITES == original.Length && |state.looks| == 4
      && (forall j, k :: 0 <= j < k < CHOICE_SITES ==> sites[j] != sites[k])
      && (captured ==> forall i :: 0 <= i < CHOICE_SITES ==> original[i] == At(retail, sites[i]))
      && (!captured ==> state == NO_CHOICE)
      && (forall i :: 0 <= i < CHOICE_SITES ==>
          At(memory.words, sites[i]) == ChoiceWord(i, At(retail, sites[i]), state))
    }

    constructor (table: seq<nat>, box: Memory)
      requires |table| == CHOICE_SITES && forall j, k :: 0 <= j < k < CHOICE_SITES ==> table[j] != table[k]
      ensures Valid() && fresh(original) && memory == box && retail == box.words && sites == table
    {
      sites, memory, retail := table, box, box.words;
      original := new word[CHOICE_SITES](_ => 0);
      captured, state := false, NO_CHOICE;
    }

    /** Memory outside the choice sites is untouched. */
    twostate predicate OthersStand()
      reads memory
    {
      forall a: nat :: a !in sites ==> At(memory.words, a) == At(old(memory.words), a)
    }

    /** Write sites `first` to `last` for a new state that differs only there. */
    method Install(first: nat, last: nat, next: ChoiceState)
      requires Valid() && captured && first <= last <= CHOICE_SITES && |next.looks| == 4
      requires forall i, w :: 0 <= i < CHOICE_SITES && !(first <= i < last) ==>
                 ChoiceWord(i, w, next) == ChoiceWord(i, w, state)
      modifies this`state, memory
      ensures Valid() && captured && state == next && OthersStand()
    {
      hide ChoiceWord;
      for i := first to last
        invariant state == old(state) && |state.looks| == 4 && OthersStand()
        invariant forall j :: 0 <= j < CHOICE_SITES && !(first <= j < last) ==>
                    At(memory.words, sites[j]) == ChoiceWord(j, At(retail, sites[j]), state)
        invariant forall j :: first <= j < i ==> At(memory.words, sites[j]) == ChoiceWord(j, At(retail, sites[j]), next)
      {
        memory.Write(sites[i], ChoiceWord(i, original[i], next));
      }
      state := next;
    }

    /** Mirrors `applyChoices`: each option is written only when it changed. */
    method ApplyChoices(s: Choices)
      requires Valid()
      modifies this, memory, original
      ensures Valid() && captured && OthersStand()
      ensures forall i :: 0 <= i < CHOICE_SITES ==>
              At(memory.words, sites[i]) == ChoiceWord(i, At(retail, sites[i]), Wanted(s))
    {
      if !captured {
        Capture();
      }
      var wanted := Wanted(s);
      if wanted.nozzle != state.nozzle {
        Install(0, 1, state.(nozzle := wanted.nozzle));
      }
      if wanted.fludd != state.fludd {
        Install(1, LOOK_FIRST[0], state.(fludd := wanted.fludd));
      }
      for look := 0 to 4
        invariant Valid() && captured && OthersStand() && state.nozzle == wanted.nozzle && state.fludd == wanted.fludd
        invariant forall j :: 0 <= j < look ==> state.looks[j] == wanted.looks[j]
      {
        if wanted.looks[look] != state.looks[look] {
          Install(LOOK_FIRST[look], LOOK_FIRST[look + 1], state.(looks := state.looks[look := wanted.looks[look]]));
        }
      }
      assert state.looks == wanted.looks;
    }

    method Capture()
      requires Valid() && !captured
      modifies this`captured, original
      ensures Valid() && captured
    {
      for i := 0 to CHOICE_SITES
        invariant Valid() && !captured
        invariant forall j :: 0 <= j < i ==> original[j] == At(retail, sites[j])
      {
        NoChoiceIsOriginal(i, At(retail, sites[i]));
        original[i] := At(memory.words, sites[i]);
      }
      captured := true;
    }
  }
}
