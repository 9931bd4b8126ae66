/** Branches into the mod's own code, installed and removed with their settings; the race hook has two
    speeds. */
module AsmHooks {
  import opened Bytes
  import opened CodeWords

  /** A hook is plain, the two-speed race, or the intro skip that a watched ghost forces on. */
  datatype Kind = Plain(setting: nat) | Race | Intro(setting: nat)

  datatype Hook = Hook(site: word, cave: word, kind: Kind)

  datatype HookSettings = HookSettings(enabled: set<nat>, race: nat, watching: bool)

  function RaceMode(s: HookSettings): nat { if s.race > 2 then 0 else s.race }

  predicate HookOn(h: Hook, s: HookSettings) {
    match h.kind
    case Plain(setting) => setting in s.enabled
    case Race => RaceMode(s) != 0
    case Intro(setting) => setting in s.enabled || s.watching
  }

  function Cave(h: Hook, mode: nat, slow: word): word { if h.kind.Race? && mode == 1 then slow else h.cave }

  /** The word a hooked site should hold. */
  function HookedWord(h: Hook, original: word, on: bool, mode: nat, slow: word): word {
    if on then BranchWord(h.site, Cave(h, mode, slow)) else original
  }

  datatype HookCell = HookCell(original: word, on: bool)

  /** No two hooks share a site, and one hook at most is the race. */
  predicate HooksDistinct(hooks: seq<Hook>) {
    forall j, k :: 0 <= j < k < |hooks| ==>
        hooks[j].site != hooks[k].site && !(hooks[j].kind.Race? && hooks[k].kind.Race?)
  }

  function HookSites(hooks: seq<Hook>): set<nat> { set k | 0 <= k < |hooks| :: hooks[k].site }

  /** The cache for hook `k` under race mode `mode`, the first `upto` originals captured. */
  predicate HookOk(hooks: seq<Hook>, cells: seq<HookCell>, words: map<nat, word>, retail: map<nat, word>, slow: word,
                   mode: nat, upto: nat, k: nat)
    requires k < |hooks| == |cells|
  {
    var h, c := hooks[k], cells[k];
    && (k < upto ==> c.original == At(retail, h.site)) && (upto <= k ==> !c.on)
    && (h.kind.Race? ==> (c.on <==> mode != 0))
    && At(words, h.site) == HookedWord(h, At(retail, h.site), c.on, mode, slow)
  }

  /** Every hook's cache is right, the first `upto` of them captured. */
  predicate HooksOk(hooks: seq<Hook>, cells: seq<HookCell>, words: map<nat, word>, retail: map<nat, word>, slow: word,
                    mode: nat, upto: nat)
    requires |hooks| == |cells|
  {
    forall k {:trigger HookOk(hooks, cells, words, retail, slow, mode, upto, k)} ::
      0 <= k < |hooks| ==> HookOk(hooks, cells, words, retail, slow, mode, upto, k)
  }

  lemma HookKnown(hooks: seq<Hook>, cells: seq<HookCell>, words: map<nat, word>, retail: map<nat, word>, slow: word,
                  mode: nat, upto: nat, k: nat)
    requires |hooks| == |cells| && k < |hooks| && HooksOk(hooks, cells, words, retail, slow, mode, upto)
    ensures HookOk(hooks, cells, words, retail, slow, mode, upto, k)
  {
  }

  /** The hook's site holds the word its original and the current settings call for. */
  predicate HookStateless(hooks: seq<Hook>, words: map<nat, word>, retail: map<nat, word>, slow: word, s: HookSettings,
                          k: nat)
    requires k < |hooks|
  {
    var h := hooks[k];
    At(words, h.site) == HookedWord(h, At(retail, h.site), HookOn(h, s), RaceMode(s), slow)
  }

  /** Whether the settings ask for a hook: its own setting; a race speed of 1 or 2; the intro skip also while a
      ghost is watched. */
  predicate Asked(h: Hook, s: HookSettings) {
    match h.kind
    case Plain(setting) => setting in s.enabled
    case Race => s.race == 1 || s.race == 2
    case Intro(setting) => setting in s.enabled || s.watching
  }

  /** At a hooked site the game branches into the hook's cave, the slow one at race speed 1, if the settings ask for
      it and the cave is within reach; otherwise its own instruction is there. */
  lemma HookLands(hooks: seq<Hook>, words: map<nat, word>, retail: map<nat, word>, slow: word, s: HookSettings, k: nat)
    requires k < |hooks| && HookStateless(hooks, words, retail, slow, s, k)
    ensures var h := hooks[k];
            var cave := if h.kind.Race? && s.race == 1 then slow else h.cave;
            if Asked(h, s)
            then Near((cave - h.site) % WRAP) ==> BranchTarget(h.site, At(words, h.site)) == cave
            else At(words, h.site) == At(retail, h.site)
  {
    hide BranchWord, BranchTarget, Near;
    var h := hooks[k];
    BranchLands(h.site, if h.kind.Race? && s.race == 1 then slow else h.cave);
  }

  /** Writing hook `k` leaves the others right: they have other sites, and none of them follows the race mode. */
  lemma HookKeepsOthers(hooks: seq<Hook>, cells: seq<HookCell>, words: map<nat, word>, retail: map<nat, word>,
                        slow: word, mode: nat, upto: nat, k: nat, cell: HookCell, words': map<nat, word>, mode': nat,
                        upto': nat)
    requires |hooks| == |cells| && k < |hooks| && HooksDistinct(hooks)
    requires HooksOk(hooks, cells, words, retail, slow, mode, upto)
    requires forall a: nat :: a != hooks[k].site ==> At(words', a) == At(words, a)
    requires hooks[k].kind.Race? || mode' == mode
    requires upto' == upto || (upto == k && upto' == k + 1)
    requires HookOk(hooks, cells[k := cell], words', retail, slow, mode', upto', k)
    ensures HooksOk(hooks, cells[k := cell], words', retail, slow, mode', upto')
  {
    hide BranchWord;
    var cells' := cells[k := cell];
    forall j | 0 <= j < |hooks|
      ensures HookOk(hooks, cells', words', retail, slow, mode', upto', j)
    {
      assert HookOk(hooks, cells, words, retail, slow, mode, upto, j);
      if j != k {
        assert hooks[j].site != hooks[k].site && !(hooks[j].kind.Race? && hooks[k].kind.Race?);
      }
    }
  }

  class Hooker {
    const hooks: seq<Hook>
    const slow: word
    const memory: Memory
    const cells: array<HookCell>
    var ready: bool
    var mode: nat
    ghost const retail: map<nat, word>

    /** The caches, the first `upto` originals captured. */
    ghost predicate Cached(upto: nat)
      reads this, memory, cells
    {
      && cells.Length == |hooks| && HooksDistinct(hooks)
      && HooksOk(hooks, cells[..], memory.words, retail, slow, mode, upto)
    }

    ghost predicate Valid()
      reads this, memory, cells
    {
      Cached(if ready then |hooks| else 0)
    }

    constructor (table: seq<Hook>, slowCave: word, box: Memory)
      requires HooksDistinct(table)
      ensures Valid() && fresh(cells) && memory == box && retail == box.words && hooks == table && slow == slowCave
    {
      hooks, slow, memory, retail := table, slowCave, box, box.words;
      cells := new HookCell[|table|](_ => HookCell(0, false));
      ready, mode := false, 0;
    }

    /** Memory outside the hooked sites is untouched. */
    twostate predicate OthersStand()
      reads memory
    {
      forall a: nat :: a !in HookSites(hooks) ==> At(memory.words, a) == At(old(memory.words), a)
    }

    /** One hook brought to its setting; a new race speed rewrites a race that is already on. */
    method ApplyHook(k: nat, s: HookSettings, init: bool)
      requires k < |hooks| && Cached(if init then k else |hooks|)
      modifies this`mode, memory, cells
      ensures Cached(if init then k + 1 else |hooks|) && OthersStand()
      ensures cells[..] == old(cells[..])[k := cells[k]] && cells[k].on == HookOn(hooks[k], s)
      ensures mode == if hooks[k].kind.Race? then RaceMode(s) else old(mode)
    {
      hide BranchWord, HooksDistinct, HooksOk;
      ghost var before, words, speed := cells[..], memory.words, mode;
      var h := hooks[k];
      HookKnown(hooks, before, words, retail, slow, speed, if init then k else |hooks|, k);
      var race := if h.kind.Race? then RaceMode(s) else 0;
      var changed := h.kind.Race? && race != mode;
      if init {
        cells[k] := cells[k].(original := At(memory.words, h.site));
      }
      var on := HookOn(h, s);
      if on != cells[k].on || changed {
        var cave := if h.kind.Race? && race == 1 then slow else h.cave;
        memory.Write(h.site, if on then BranchWord(h.site, cave) else cells[k].original);
        cells[k] := cells[k].(on := on);
        if h.kind.Race? {
          mode := race;
        }
      }
      assert cells[..] == before[k := cells[k]];
      HookKeepsOthers(hooks, before, words, retail, slow, speed, if init then k else |hooks|, k, cells[k], memory.words,
                      mode, if init then k + 1 else |hooks|);
    }

    /** Mirrors `applyHooks`: written only on a change of setting or race speed, every site ends up holding
        the word its original and the current settings call for. */
    method ApplyHooks(s: HookSettings)
      requires Valid()
      modifies this, memory, cells
      ensures Valid() && ready && OthersStand()
      ensures forall k :: 0 <= k < |hooks| ==> HookStateless(hooks, memory.words, retail, slow, s, k)
    {
      hide BranchWord, HooksOk, HookOn, RaceMode;
      var init := !ready;
      for k := 0 to |hooks|
        invariant ready == old(ready) && OthersStand() && Cached(if init then k else |hooks|)
        invariant forall j :: 0 <= j < k ==> cells[j].on == HookOn(hooks[j], s)
        invariant forall j :: 0 <= j < k && hooks[j].kind.Race? ==> mode == RaceMode(s)
      {
        ApplyHook(k, s, init);
      }
      ready := true;
      forall k | 0 <= k < |hooks|
        ensures HookStateless(hooks, memory.words, retail, slow, s, k)
      {
        HookKnown(hooks, cells[..], memory.words, retail, slow, mode, |hooks|, k);
      }
    }
  }
}
