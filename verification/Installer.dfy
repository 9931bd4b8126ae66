/** The three installers over one memory: the early pass at boot, then all three every frame, as
    `featuresApplyEarly` and `featuresApply` run them, with the game at work in between. */
module Installer {
  import opened Bytes
  import opened CodeWords
  import opened AsmHooks
  import opened ChoiceSites
  import P = PatchRows

  /** Everything a frame reads: enabled features, hook settings, choices. */
  datatype Settings = Settings(enabled: set<nat>, hooks: HookSettings, choices: Choices)

  /** Nothing enabled, no race speed, nobody watching, every choice at its first entry. */
  predicate AllOff(s: Settings) {
    && s.enabled == {} && s.hooks.enabled == {} && s.hooks.race == 0 && !s.hooks.watching
    && Wanted(s.choices) == NO_CHOICE
  }

  datatype Event =
    | Booted(enabled: set<nat>)
    | Framed(settings: Settings, first: u32, second: u32)
    | Played(address: nat, value: word)

  // ---- histories ------------------------------------------------------------------------------

  datatype Latest = NoFrame | Last(settings: Settings)

  /** The settings of the last frame. */
  function LastFrame(history: seq<Event>): Latest {
    if history == [] then NoFrame
    else
      var e := history[|history| - 1];
      if e.Framed? then Last(e.settings) else LastFrame(history[..|history| - 1])
  }

  /** The features the last frame had enabled; none before the first. */
  function LastEnabled(history: seq<Event>): set<nat> {
    match LastFrame(history) case NoFrame => {} case Last(s) => s.enabled
  }

  /** Whether some boot had row `k` on. */
  predicate EverBooted(rows: seq<P.Row>, history: seq<Event>, k: nat)
    requires k < |rows|
  {
    exists e :: e in history && e.Booted? && P.On(rows, k, e.enabled)
  }

  lemma EverBootedNext(rows: seq<P.Row>, history: seq<Event>, e: Event, k: nat)
    requires k < |rows|
    ensures EverBooted(rows, history + [e], k) <==>
              EverBooted(rows, history, k) || (e.Booted? && P.On(rows, k, e.enabled))
  {
    if EverBooted(rows, history, k) {
      var b :| b in history && b.Booted? && P.On(rows, k, b.enabled);
      assert b in history + [e];
    }
    assert e in history + [e];
  }

  lemma LastFrameNext(history: seq<Event>, e: Event)
    ensures LastFrame(history + [e]) == if e.Framed? then Last(e.settings) else LastFrame(history)
  {
    assert (history + [e])[..|history|] == history;
  }

  // ---- memory elsewhere -----------------------------------------------------------------------

  predicate Agree(words: map<nat, word>, after: map<nat, word>, sites: set<nat>) {
    forall a: nat :: a in sites ==> At(after, a) == At(words, a)
  }

  lemma HooksFramed(hooks: seq<Hook>, cells: seq<HookCell>, words: map<nat, word>, after: map<nat, word>,
                    retail: map<nat, word>, slow: word, mode: nat, upto: nat)
    requires |hooks| == |cells| && HooksOk(hooks, cells, words, retail, slow, mode, upto)
    requires Agree(words, after, HookSites(hooks))
    ensures HooksOk(hooks, cells, after, retail, slow, mode, upto)
  {
    hide HookedWord;
    forall k | 0 <= k < |hooks|
      ensures HookOk(hooks, cells, after, retail, slow, mode, upto, k)
    {
      assert HookOk(hooks, cells, words, retail, slow, mode, upto, k);
      assert hooks[k].site in HookSites(hooks);
    }
  }

  predicate HooksHold(hooks: seq<Hook>, words: map<nat, word>, retail: map<nat, word>, slow: word, s: HookSettings) {
    forall k {:trigger HookStateless(hooks, words, retail, slow, s, k)} ::
      0 <= k < |hooks| ==> HookStateless(hooks, words, retail, slow, s, k)
  }

  lemma HooksHoldFramed(hooks: seq<Hook>, words: map<nat, word>, after: map<nat, word>, retail: map<nat, word>,
                        slow: word, s: HookSettings)
    requires HooksHold(hooks, words, retail, slow, s) && Agree(words, after, HookSites(hooks))
    ensures HooksHold(hooks, after, retail, slow, s)
  {
    forall k | 0 <= k < |hooks|
      ensures HookStateless(hooks, after, retail, slow, s, k)
    {
      assert HookStateless(hooks, words, retail, slow, s, k);
      assert hooks[k].site in HookSites(hooks);
    }
  }

  predicate ChoicesHold(sites: seq<nat>, words: map<nat, word>, retail: map<nat, word>, s: Choices)
    requires |sites| == CHOICE_SITES
  {
    forall i :: 0 <= i < CHOICE_SITES ==> At(words, sites[i]) == ChoiceWord(i, At(retail, sites[i]), Wanted(s))
  }

  function SiteSet(sites: seq<nat>): set<nat> { set i | 0 <= i < |sites| :: sites[i] }

  lemma ChoicesHoldFramed(sites: seq<nat>, words: map<nat, word>, after: map<nat, word>, retail: map<nat, word>,
                          s: Choices)
    requires |sites| == CHOICE_SITES && ChoicesHold(sites, words, retail, s) && Agree(words, after, SiteSet(sites))
    ensures ChoicesHold(sites, after, retail, s)
  {
    hide ChoiceWord;
    assert forall i :: 0 <= i < |sites| ==> sites[i] in SiteSet(sites);
  }

  class Runtime {
    const memory: Memory
    const patcher: P.Patcher
    const hooker: Hooker
    const chooser: Chooser
    ghost const retail: map<nat, word>

    /** Tables of distinct sites over a memory that still holds what was shipped. */
    constructor (table: P.Table, cells: seq<P.Cell>, hooks: seq<Hook>, slow: word, sites: seq<nat>, box: Memory)
      requires |table.rows| == |cells| && P.DistinctSites(cells) && P.MessageOk(table, cells)
      requires forall k :: 0 <= k < |cells| ==> !cells[k].captured && !cells[k].installed
      requires HooksDistinct(hooks) && P.Reach(table, cells) !! HookSites(hooks)
      requires |sites| == CHOICE_SITES && forall j, k :: 0 <= j < k < CHOICE_SITES ==> sites[j] != sites[k]
      requires SiteSet(sites) !! P.Reach(table, cells) + HookSites(hooks)
      ensures Valid() && P.Shipped(patcher.table, patcher.View()) && memory.words == retail
      ensures memory == box && retail == box.words && fresh(patcher) && fresh(patcher.cells) && fresh(patcher.original)
      ensures fresh(hooker) && fresh(hooker.cells) && fresh(chooser) && fresh(chooser.original)
      ensures patcher.table == table && patcher.cells[..] == cells
      ensures hooker.hooks == hooks && hooker.slow == slow && chooser.sites == sites
    {
      hide HooksOk, ChoiceWord, HooksDistinct, P.DistinctSites, P.MessageOk;
      memory, retail := box, box.words;
      patcher := new P.Patcher(table, cells, box);
      hooker := new Hooker(hooks, slow, box);
      chooser := new Chooser(sites, box);
      new;
      P.ShippedOk(table, patcher.View());
    }

    /** Every site a patch row may have. */
    ghost function Rows(): set<nat>
      reads patcher.cells
    {
      P.Reach(patcher.table, patcher.cells[..])
    }

    /** Every site some installer writes. */
    ghost function AllSites(): set<nat>
      reads patcher.cells
    {
      Rows() + HookSites(hooker.hooks) + SiteSet(chooser.sites)
    }

    ghost predicate Separate()
      reads patcher.cells
    {
      && patcher.memory == memory && hooker.memory == memory && chooser.memory == memory
      && hooker.retail == retail && chooser.retail == retail
      && patcher.original != chooser.original && (patcher.cells as object) != chooser.original
      && (patcher.cells as object) != hooker.cells && (patcher.original as object) != hooker.cells
      && (hooker.cells as object) != chooser.original
      && Rows() !! HookSites(hooker.hooks) && SiteSet(chooser.sites) !! Rows() + HookSites(hooker.hooks)
    }

    ghost predicate Valid()
      reads memory, patcher, hooker, chooser, patcher.memory, hooker.memory, chooser.memory
      reads patcher.cells, patcher.original, hooker.cells, chooser.original
    {
      && Separate() && patcher.Valid() && P.Inv(patcher.table, patcher.View()) && hooker.Valid() && chooser.Valid()
    }

    /** Every hooked site and every choice site holds the word its shipped word and the settings call for. */
    ghost predicate Holds(s: Settings)
      requires |chooser.sites| == CHOICE_SITES
      reads memory
    {
      && HooksHold(hooker.hooks, memory.words, retail, hooker.slow, s.hooks)
      && ChoicesHold(chooser.sites, memory.words, retail, s.choices)
    }

    /** Memory outside every installer's sites is untouched. */
    twostate predicate OthersStand()
      reads memory, patcher.cells
    {
      && AllSites() == old(AllSites())
      && forall a: nat :: a !in AllSites() ==> At(memory.words, a) == At(old(memory.words), a)
    }

    /** Hooks and choices stand when memory changed at rows or outside every site only. */
    twostate lemma Undisturbed()
      requires old(Valid()) && Separate()
      requires hooker.ready == old(hooker.ready) && hooker.mode == old(hooker.mode)
      requires hooker.cells[..] == old(hooker.cells[..])
      requires chooser.captured == old(chooser.captured) && chooser.state == old(chooser.state)
      requires chooser.original[..] == old(chooser.original[..])
      requires Agree(old(memory.words), memory.words, HookSites(hooker.hooks) + SiteSet(chooser.sites))
      ensures hooker.Valid() && chooser.Valid()
      ensures forall s :: old(Holds(s)) ==> Holds(s)
    {
      hide HooksOk, ChoiceWord, HooksDistinct, HooksHold, ChoicesHold;
      HooksFramed(hooker.hooks, hooker.cells[..], old(memory.words), memory.words, retail, hooker.slow, hooker.mode,
                  if hooker.ready then |hooker.hooks| else 0);
      assert forall i :: 0 <= i < |chooser.sites| ==> chooser.sites[i] in SiteSet(chooser.sites);
      assert forall i :: 0 <= i < CHOICE_SITES ==> chooser.original[..][i] == old(chooser.original[..])[i];
      forall s | old(Holds(s))
        ensures Holds(s)
      {
        HooksHoldFramed(hooker.hooks, old(memory.words), memory.words, retail, hooker.slow, s.hooks);
        ChoicesHoldFramed(chooser.sites, old(memory.words), memory.words, retail, s.choices);
      }
    }

    /** Mirrors `featuresApplyEarly` for the rows. */
    method Boot(enabled: set<nat>)
      requires Valid()
      modifies memory, patcher, patcher.cells, patcher.original
      ensures Valid() && OthersStand() && forall s :: old(Holds(s)) ==> Holds(s)
      ensures patcher.View() == P.Step(patcher.table, old(patcher.View()), P.EarlyPass(enabled))
    {
      hide P.RowsOk, P.DistinctSites, P.MessageOk, P.Step, P.Reach, HooksOk, HooksHold, ChoicesHold, ChoiceWord;
      ghost var before := patcher.View();
      patcher.ApplyPatches(true, enabled, 0, 0);
      P.BootKeeps(patcher.table, before, enabled, |patcher.table.rows|);
      P.PassReach(patcher.table, before, P.EarlyPass(enabled));
      StepIsBoot(before, enabled);
      Undisturbed();
    }

    lemma StepIsBoot(s: P.State, enabled: set<nat>)
      requires P.Sized(patcher.table, s)
      ensures P.Step(patcher.table, s, P.EarlyPass(enabled)) == P.Boot(patcher.table, s, enabled, |patcher.table.rows|)
    {
    }

    /** Mirrors `featuresApply`: the late rows, then the hooks, then the choices. None disturbs another. */
    method Frame(s: Settings, first: u32, second: u32)
      requires Valid()
      modifies memory, patcher, patcher.cells, patcher.original, hooker, hooker.cells, chooser, chooser.original
      ensures Valid() && OthersStand() && Holds(s)
      ensures patcher.View() == P.Step(patcher.table, old(patcher.View()),
                                       P.LatePass(s.enabled, first, second)).(words := memory.words)
    {
      hide P.RowsOk, P.DistinctSites, P.MessageOk, P.Step, P.Reach, HooksOk, HookStateless, ChoiceWord, HooksDistinct;
      ghost var before := patcher.View();
      patcher.ApplyPatches(false, s.enabled, first, second);
      ghost var passed := patcher.View();
      P.LatePassKeeps(patcher.table, before, s.enabled, first, second);
      P.PassReach(patcher.table, before, P.LatePass(s.enabled, first, second));
      Undisturbed();
      hooker.ApplyHooks(s.hooks);
      ghost var hooked := memory.words;
      KnownInReach(passed.cells);
      assert Agree(passed.words, hooked, SiteSet(chooser.sites));
      assert forall i :: 0 <= i < |chooser.sites| ==> chooser.sites[i] in SiteSet(chooser.sites);
      chooser.ApplyChoices(s.choices);
      assert Agree(hooked, memory.words, HookSites(hooker.hooks));
      assert HooksHold(hooker.hooks, hooked, retail, hooker.slow, s.hooks);
      HooksHoldFramed(hooker.hooks, hooked, memory.words, retail, hooker.slow, s.hooks);
      HooksFramed(hooker.hooks, hooker.cells[..], hooked, memory.words, retail, hooker.slow, hooker.mode,
                  |hooker.hooks|);
      P.Framed(patcher.table, passed, memory.words);
    }

    lemma KnownInReach(cells: seq<P.Cell>)
      ensures P.Sites(cells) <= P.Reach(patcher.table, cells)
    {
    }

    /** The game writes a word no installer has. */
    method Play(address: nat, value: word)
      requires Valid() && address !in AllSites()
      modifies memory
      ensures Valid() && forall s :: old(Holds(s)) ==> Holds(s)
      ensures patcher.View() == P.Step(patcher.table, old(patcher.View()), P.Played(address, value))
    {
      hide P.RowsOk, P.DistinctSites, P.MessageOk, P.Reach, HooksOk, HooksHold, ChoicesHold, ChoiceWord;
      KnownInReach(patcher.cells[..]);
      P.Framed(patcher.table, patcher.View(), memory.words[address := value]);
      memory.Write(address, value);
      Undisturbed();
    }

    // ---- histories ----------------------------------------------------------------------------

    /** What is installed is what `history` calls for, from the rows' state `start` on. */
    ghost predicate Tracks(history: seq<Event>, start: P.State)
      reads memory, patcher, patcher.memory, patcher.cells, patcher.original
    {
      && patcher.Valid() && P.Sized(patcher.table, start) && |chooser.sites| == CHOICE_SITES
      && Rowwise(history, start, patcher.View())
      && match LastFrame(history) case NoFrame => true case Last(settings) => Holds(settings)
    }

    /** The rows' half: late rows as the last frame had them, early rows armed by some boot. */
    ghost predicate Rowwise(history: seq<Event>, start: P.State, now: P.State)
      requires P.Sized(patcher.table, start) && P.Sized(patcher.table, now)
    {
      && P.Stands(start, now) && P.Settled(patcher.table, now, LastEnabled(history))
      && forall k :: 0 <= k < |patcher.table.rows| && P.Early(patcher.table.rows, k) ==>
           && P.SameSite(start.cells[k], now.cells[k])
           && (k in now.armed <==> start.cells[k].address != 0 && EverBooted(patcher.table.rows, history, k))
    }

    lemma RowwiseStarts(start: P.State)
      requires P.Shipped(patcher.table, start)
      ensures P.Sized(patcher.table, start) && Rowwise([], start, start) && LastFrame([]) == NoFrame
    {
      hide P.RowsOk, P.DistinctSites, P.MessageOk;
      P.ShippedOk(patcher.table, start);
    }

    lemma RowwiseNext(history: seq<Event>, start: P.State, now: P.State, e: Event, p: P.Event, next: P.State)
      requires P.Sized(patcher.table, start) && P.Inv(patcher.table, now) && Rowwise(history, start, now)
      requires P.Possible(now, p) && p == AsPass(e) && P.Sized(patcher.table, next)
      requires next == P.Step(patcher.table, now, p).(words := next.words)
      ensures Rowwise(history + [e], start, next)
    {
      hide P.RowsOk, P.DistinctSites, P.MessageOk, P.Settled, P.Stands, P.Early, P.On, EverBooted, P.Step;
      var passed := P.Step(patcher.table, now, p);
      P.StepKeeps(patcher.table, now, p, LastEnabled(history));
      P.StandsTransitive(start, now, passed);
      WordsApart(start, passed, next, if e.Framed? then e.settings.enabled else LastEnabled(history));
      LastFrameNext(history, e);
      forall k | 0 <= k < |patcher.table.rows| && P.Early(patcher.table.rows, k)
        ensures P.SameSite(start.cells[k], next.cells[k])
        ensures k in next.armed <==> start.cells[k].address != 0 && EverBooted(patcher.table.rows, history + [e], k)
      {
        EverBootedNext(patcher.table.rows, history, e, k);
      }
    }

    /** Standing and settled do not look at the words. */
    lemma WordsApart(start: P.State, a: P.State, b: P.State, enabled: set<nat>)
      requires P.Sized(patcher.table, a) && P.Sized(patcher.table, b) && b == a.(words := b.words)
      ensures P.Stands(start, a) ==> P.Stands(start, b)
      ensures P.Settled(patcher.table, a, enabled) ==> P.Settled(patcher.table, b, enabled)
    {
    }

    function AsPass(e: Event): P.Event {
      match e
      case Booted(enabled) => P.EarlyPass(enabled)
      case Framed(settings, first, second) => P.LatePass(settings.enabled, first, second)
      case Played(address, value) => P.Played(address, value)
    }

    /** Row `k`'s site, if it is known, holds what the history calls for: the word it was first seen with,
        patched if the last frame had it on, or if any boot had, for an early row. A site known from the
        start was first seen with its shipped word. */
    ghost predicate RowDecided(history: seq<Event>, start: P.State, k: nat)
      requires k < |patcher.table.rows| == patcher.cells.Length == |start.cells|
      reads memory, patcher, patcher.cells
    {
      var c, rows := patcher.cells[k], patcher.table.rows;
      && (c.address != 0 ==>
            At(memory.words, c.address)
            == PatchedWord(At(patcher.home, c.address), c.fill,
                           if P.Early(rows, k) then EverBooted(rows, history, k)
                           else P.On(rows, k, LastEnabled(history))))
      && (P.Early(rows, k) ==> P.SameSite(start.cells[k], c))
      && (start.cells[k].address != 0 ==>
          P.SameSite(start.cells[k], c) && At(patcher.home, c.address) == At(retail, c.address))
    }

    lemma Decides(history: seq<Event>, start: P.State, k: nat)
      requires Valid() && P.Shipped(patcher.table, start) && start.words == retail && Tracks(history, start)
      requires k < |patcher.table.rows|
      ensures RowDecided(history, start, k)
    {
      hide PatchedWord, P.Early, P.On, EverBooted, LastEnabled, LastFrame, Holds, P.Reach;
      P.ShippedOk(patcher.table, start);
      var now := patcher.View();
      assert P.RowOk(patcher.table, now, k);
      assert now.cells[k] == patcher.cells[k];
    }

    /** Row `k`'s site holds its shipped or first-seen word again; an early row's exactly when no boot had it
        on, or its patch is that word. */
    ghost predicate RowRestored(history: seq<Event>, k: nat)
      requires k < |patcher.table.rows| == patcher.cells.Length
      reads memory, patcher, patcher.cells
    {
      var c := patcher.cells[k];
      var here := At(patcher.home, c.address);
      c.address != 0 ==>
        if P.Early(patcher.table.rows, k)
        then At(memory.words, c.address) == here <==>
            !EverBooted(patcher.table.rows, history, k) || Masked(here, c.fill) == here
        else At(memory.words, c.address) == here
    }

    /** With everything off in the last frame, every late, hooked and choice site is back. */
    lemma OffRestores(history: seq<Event>, start: P.State, s: Settings)
      requires Valid() && P.Shipped(patcher.table, start) && start.words == retail && Tracks(history, start)
      requires LastFrame(history) == Last(s) && AllOff(s)
      ensures forall k :: 0 <= k < |patcher.table.rows| ==> RowRestored(history, k)
      ensures forall k :: 0 <= k < |hooker.hooks| ==>
                At(memory.words, hooker.hooks[k].site) == At(retail, hooker.hooks[k].site)
      ensures forall i :: 0 <= i < CHOICE_SITES ==> At(memory.words, chooser.sites[i]) == At(retail, chooser.sites[i])
    {
      hide P.Early, P.On, EverBooted, LastFrame, ChoiceWord, P.Inv, Separate, Rowwise, P.Shipped;
      forall k | 0 <= k < |patcher.table.rows|
        ensures RowRestored(history, k)
      {
        Decides(history, start, k);
        P.NothingOn(patcher.table.rows, k);
      }
      forall k | 0 <= k < |hooker.hooks|
        ensures At(memory.words, hooker.hooks[k].site) == At(retail, hooker.hooks[k].site)
      {
        assert HookStateless(hooker.hooks, memory.words, retail, hooker.slow, s.hooks, k);
      }
      forall i | 0 <= i < CHOICE_SITES
        ensures At(memory.words, chooser.sites[i]) == At(retail, chooser.sites[i])
      {
        NoChoiceIsOriginal(i, At(retail, chooser.sites[i]));
      }
    }

    /** One event. */
    method Take(e: Event)
      requires Valid() && (e.Played? ==> e.address !in AllSites())
      modifies memory, patcher, patcher.cells, patcher.original, hooker, hooker.cells, chooser, chooser.original
      ensures Valid() && AllSites() == old(AllSites())
      ensures patcher.View() == P.Step(patcher.table, old(patcher.View()), AsPass(e)).(words := memory.words)
      ensures match e case Framed(s, _, _) => Holds(s) case _ => forall s :: old(Holds(s)) ==> Holds(s)
    {
      hide P.Step, P.Inv, HooksHold, ChoicesHold;
      match e
      case Booted(enabled) => Boot(enabled);
      case Framed(s, first, second) => Frame(s, first, second);
      case Played(address, value) =>
        Play(address, value);
    }

    /** Every history from shipped memory is followed: each row is as it calls for, hooks and choices are as
        the last frame calls for, and `OffRestores` tells what everything off restores. */
    method Follow(history: seq<Event>)
      requires Valid() && P.Shipped(patcher.table, patcher.View()) && memory.words == retail
      requires forall e :: e in history && e.Played? ==> e.address !in AllSites()
      modifies memory, patcher, patcher.cells, patcher.original, hooker, hooker.cells, chooser, chooser.original
      ensures Valid() && Tracks(history, old(patcher.View()))
      ensures forall k :: 0 <= k < |patcher.table.rows| ==> RowDecided(history, old(patcher.View()), k)
      ensures match LastFrame(history) case NoFrame => true case Last(settings) => Holds(settings)
    {
      hide P.Inv, P.Shipped, Rowwise, P.Step, HooksHold, ChoicesHold, LastFrame, RowDecided;
      ghost var start := patcher.View();
      RowwiseStarts(start);
      assert history[..0] == [];
      for i := 0 to |history|
        invariant Valid() && AllSites() == old(AllSites()) && Tracks(history[..i], start)
      {
        ghost var now := patcher.View();
        KnownInReach(now.cells);
        Take(history[i]);
        RowwiseNext(history[..i], start, now, history[i], AsPass(history[i]), patcher.View());
        LastFrameNext(history[..i], history[i]);
        assert history[..i + 1] == history[..i] + [history[i]];
      }
      assert history[..|history|] == history;
      forall k | 0 <= k < |patcher.table.rows|
        ensures RowDecided(history, start, k)
      {
        Decides(history, start, k);
      }
    }
  }
}
