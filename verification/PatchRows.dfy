/** The patch rows: what the early and the late pass leave at each row's site, over any history of settings,
    passes, resolutions and the game's own writes elsewhere. */
module PatchRows {
  import opened Bytes
  import opened CodeWords

  // ---- the table ------------------------------------------------------------------------------

  /** A row's fixed part: a tagged row starts a feature, later untagged rows belong to it. */
  datatype Row = Row(tag: nat, early: bool)

  /** The row whose site depends on the game's language, the feature it serves, and a buffer per language. */
  datatype Message = NoMessage | Message(row: nat, feature: nat, buffers: seq<(nat, Fill)>)

  const LANGUAGES := 5

  datatype Table = Table(rows: seq<Row>, message: Message)

  /** Whether row `k`'s feature is written once, early. */
  predicate Early(rows: seq<Row>, k: nat)
    requires k < |rows|
  {
    if rows[k].tag != 0 then rows[k].early else k > 0 && Early(rows, k - 1)
  }

  /** Whether row `k`'s feature is on. */
  predicate On(rows: seq<Row>, k: nat, enabled: set<nat>)
    requires k < |rows|
  {
    if rows[k].tag != 0 then rows[k].tag - 1 in enabled else k > 0 && On(rows, k - 1, enabled)
  }

  /** A row belongs to the feature that starts at or last before it. */
  predicate StartsAt(rows: seq<Row>, j: nat, k: nat) {
    j <= k < |rows| && rows[j].tag != 0 && forall i :: j < i <= k ==> rows[i].tag == 0
  }

  lemma {:induction false} RowBelongs(rows: seq<Row>, j: nat, k: nat, enabled: set<nat>)
    requires StartsAt(rows, j, k)
    ensures (Early(rows, k) <==> rows[j].early) && (On(rows, k, enabled) <==> rows[j].tag - 1 in enabled)
    decreases k
  {
    if j < k {
      RowBelongs(rows, j, k - 1, enabled);
    }
  }

  /** How many late rows come before row `k`: the place of its original. */
  function Slot(rows: seq<Row>, k: nat): (n: nat)
    requires k <= |rows|
    ensures n <= k
  {
    if k == 0 then 0 else Slot(rows, k - 1) + if Early(rows, k - 1) then 0 else 1
  }

  lemma {:induction false} SlotGrows(rows: seq<Row>, j: nat, k: nat)
    requires j < k <= |rows| && !Early(rows, j)
    ensures Slot(rows, j) < Slot(rows, k)
    decreases k - j
  {
    if j + 1 < k {
      SlotGrows(rows, j, k - 1);
    }
  }

  lemma SlotsDiffer(rows: seq<Row>, j: nat, k: nat)
    requires j < |rows| && k < |rows| && j != k && !Early(rows, j) && !Early(rows, k)
    ensures Slot(rows, j) != Slot(rows, k)
  {
    if j < k {
      SlotGrows(rows, j, k);
    } else {
      SlotGrows(rows, k, j);
    }
  }

  lemma {:induction false} NothingOn(rows: seq<Row>, k: nat)
    requires k < |rows|
    ensures !On(rows, k, {})
  {
    if rows[k].tag == 0 && k > 0 {
      NothingOn(rows, k - 1);
    }
  }

  // ---- state and passes -----------------------------------------------------------------------

  /** A row's site and patch, and its runtime state; site 0 is not known yet. */
  datatype Cell = Cell(address: nat, fill: Fill, captured: bool, installed: bool)

  /** `home` and `armed` are history: the word at each site when it was first known, and the early rows some
      pass had on. */
  datatype State = State(cells: seq<Cell>, originals: seq<word>, words: map<nat, word>, home: map<nat, word>,
                         armed: set<nat>)

  predicate Sized(t: Table, s: State) {
    && |s.cells| == |t.rows| == |s.originals|
    && (t.message.Message? ==> t.message.row < |t.rows| && |t.message.buffers| == LANGUAGES)
  }

  /** The language named by the two words it may stand at, or -1. */
  function Language(first: u32, second: u32): int {
    if first < LANGUAGES then first else if second < LANGUAGES then second else -1
  }

  /** Mirrors `resolveFastTextPalMsg`: given a site once, while its feature is on and a language is set. */
  function Resolve(t: Table, s: State, enabled: set<nat>, first: u32, second: u32): (r: State)
    requires Sized(t, s)
    ensures Sized(t, r)
  {
    if t.message.NoMessage? || t.message.feature !in enabled || s.cells[t.message.row].address != 0 ||
        Language(first, second) < 0 then s
    else
      var (site, fill) := t.message.buffers[Language(first, second)];
      s.(cells := s.cells[t.message.row := s.cells[t.message.row].(address := site, fill := fill)],
         home := s.home[site := At(s.words, site)])
  }

  /** One late row brought to its setting: captured on first sight, written only on a change. */
  function Visit(t: Table, s: State, k: nat, on: bool): (r: State)
    requires Sized(t, s) && k < |t.rows| && !Early(t.rows, k)
    ensures Sized(t, r)
  {
    var c, slot := s.cells[k], Slot(t.rows, k);
    if c.address == 0 then s
    else
      var originals := if c.captured then s.originals else s.originals[slot := At(s.words, c.address)];
      var words := if c.installed == on then s.words
                   else s.words[c.address := if on then Masked(originals[slot], c.fill) else originals[slot]];
      s.(cells := s.cells[k := c.(captured := true, installed := on)], originals := originals, words := words)
  }

  /** The late pass over the first `n` rows. */
  function Late(t: Table, s: State, enabled: set<nat>, n: nat): (r: State)
    requires Sized(t, s) && n <= |t.rows|
    ensures Sized(t, r)
  {
    if n == 0 then s
    else
      var before := Late(t, s, enabled, n - 1);
      if Early(t.rows, n - 1) then before else Visit(t, before, n - 1, On(t.rows, n - 1, enabled))
  }

  /** One early row: written when on, whatever is there, and never put back. */
  function Arm(t: Table, s: State, k: nat, on: bool): (r: State)
    requires Sized(t, s) && k < |t.rows|
    ensures Sized(t, r)
  {
    var c := s.cells[k];
    if !on || c.address == 0 then s
    else s.(words := s.words[c.address := Masked(At(s.words, c.address), c.fill)], armed := s.armed + {k})
  }

  /** The early pass over the first `n` rows. */
  function Boot(t: Table, s: State, enabled: set<nat>, n: nat): (r: State)
    requires Sized(t, s) && n <= |t.rows|
    ensures Sized(t, r)
  {
    if n == 0 then s
    else
      var before := Boot(t, s, enabled, n - 1);
      if Early(t.rows, n - 1) then Arm(t, before, n - 1, On(t.rows, n - 1, enabled)) else before
  }

  /** A pass of either kind, or a word the game writes for itself. */
  datatype Event =
    | EarlyPass(enabled: set<nat>)
    | LatePass(enabled: set<nat>, first: u32, second: u32)
    | Played(address: nat, value: word)

  function Step(t: Table, s: State, e: Event): (r: State)
    requires Sized(t, s)
    ensures Sized(t, r)
  {
    match e
    case EarlyPass(enabled) => Boot(t, s, enabled, |t.rows|)
    case LatePass(enabled, first, second) => Late(t, Resolve(t, s, enabled, first, second), enabled, |t.rows|)
    case Played(address, value) => s.(words := s.words[address := value])
  }

  function Sites(cells: seq<Cell>): set<nat> { set k | 0 <= k < |cells| && cells[k].address != 0 :: cells[k].address }

  /** The game leaves every known site alone. */
  predicate Possible(s: State, e: Event) { e.Played? ==> e.address !in Sites(s.cells) }

  // ---- what always holds ----------------------------------------------------------------------

  predicate DistinctSites(cells: seq<Cell>) {
    forall j, k :: 0 <= j < k < |cells| && cells[j].address != 0 ==> cells[j].address != cells[k].address
  }

  /** The language-dependent row is a late one, and its buffers are no other row's sites. */
  predicate MessageOk(t: Table, cells: seq<Cell>)
    requires |cells| == |t.rows|
  {
    t.message.Message? ==>
      && t.message.row < |t.rows| && |t.message.buffers| == LANGUAGES && !Early(t.rows, t.message.row)
      && (forall i :: 0 <= i < LANGUAGES ==> t.message.buffers[i].0 != 0)
      && (forall i, k :: 0 <= i < LANGUAGES && 0 <= k < |cells| && k != t.message.row ==>
          t.message.buffers[i].0 != cells[k].address)
  }

  /** A late row's site holds its word, patched or not as its cached state says; an early row's is patched
      once some early pass had it on. */
  predicate RowOk(t: Table, s: State, k: nat)
    requires Sized(t, s) && k < |t.rows|
  {
    var c := s.cells[k];
    var here := At(s.home, c.address);
    && (!c.captured ==> !c.installed) && (c.address == 0 ==> !c.captured)
    && (c.captured ==> !Early(t.rows, k) && s.originals[Slot(t.rows, k)] == here)
    && (c.address != 0 ==>
          At(s.words, c.address)
          == PatchedWord(here, c.fill, if Early(t.rows, k) then k in s.armed else c.installed))
  }

  predicate RowsOk(t: Table, s: State)
    requires Sized(t, s)
  {
    forall k {:trigger RowOk(t, s, k)} :: 0 <= k < |t.rows| ==> RowOk(t, s, k)
  }

  predicate Inv(t: Table, s: State) { Sized(t, s) && DistinctSites(s.cells) && MessageOk(t, s.cells) && RowsOk(t, s) }

  /** Every known late row is installed as `enabled` says. */
  predicate Settled(t: Table, s: State, enabled: set<nat>)
    requires Sized(t, s)
  {
    forall k :: 0 <= k < |t.rows| && !Early(t.rows, k) && s.cells[k].address != 0 ==>
        s.cells[k].installed == On(t.rows, k, enabled)
  }

  /** A known row keeps its site and patch, and its site the word it was first seen with. */
  predicate Stands(a: State, b: State) {
    && |b.cells| == |a.cells|
    && forall k :: 0 <= k < |a.cells| && a.cells[k].address != 0 ==>
         && b.cells[k].address == a.cells[k].address && b.cells[k].fill == a.cells[k].fill
         && At(b.home, a.cells[k].address) == At(a.home, a.cells[k].address)
  }

  lemma StandsTransitive(a: State, b: State, c: State)
    requires Stands(a, b) && Stands(b, c)
    ensures Stands(a, c)
  {
  }

  // ---- the late pass --------------------------------------------------------------------------

  predicate SameSite(a: Cell, b: Cell) { b.address == a.address && b.fill == a.fill }

  lemma VisitKeeps(t: Table, s: State, k: nat, on: bool)
    requires Inv(t, s) && k < |t.rows| && !Early(t.rows, k)
    ensures var r := Visit(t, s, k, on);
            && Inv(t, r) && r.armed == s.armed && r.home == s.home
            && (forall j :: 0 <= j < |t.rows| ==>
                SameSite(s.cells[j], r.cells[j]) && (j != k ==> r.cells[j] == s.cells[j]))
            && (s.cells[k].address != 0 ==> r.cells[k].installed == on)
  {
    hide Masked, Early;
    var c, r := s.cells[k], Visit(t, s, k, on);
    if c.address != 0 {
      forall j | 0 <= j < |t.rows|
        ensures RowOk(t, r, j)
      {
        assert RowOk(t, s, j) && RowOk(t, s, k);
        if j != k {
          if s.cells[j].captured {
            SlotsDiffer(t.rows, j, k);
          }
          assert s.cells[j].address != 0 ==> s.cells[j].address != c.address;
        }
      }
    }
  }

  lemma {:induction false} LateKeeps(t: Table, s: State, enabled: set<nat>, n: nat)
    requires Inv(t, s) && n <= |t.rows|
    ensures var r := Late(t, s, enabled, n);
            && Inv(t, r) && r.armed == s.armed && r.home == s.home
            && (forall j :: 0 <= j < |t.rows| ==> SameSite(s.cells[j], r.cells[j]))
            && (forall j :: 0 <= j < n && !Early(t.rows, j) && s.cells[j].address != 0 ==>
                r.cells[j].installed == On(t.rows, j, enabled))
    decreases n
  {
    hide RowsOk, DistinctSites, MessageOk, Early, On, Visit;
    if n > 0 {
      LateKeeps(t, s, enabled, n - 1);
      if !Early(t.rows, n - 1) {
        VisitKeeps(t, Late(t, s, enabled, n - 1), n - 1, On(t.rows, n - 1, enabled));
      }
    }
  }

  /** Resolution gives the row a site nobody has, holding just the word it is taken to hold. */
  lemma ResolveKeeps(t: Table, s: State, enabled: set<nat>, first: u32, second: u32)
    requires Inv(t, s)
    ensures var r := Resolve(t, s, enabled, first, second);
            && Inv(t, r) && Stands(s, r) && r.armed == s.armed && r.words == s.words
            && (forall k :: 0 <= k < |t.rows| && Early(t.rows, k) ==> r.cells[k] == s.cells[k])
            && (forall k :: 0 <= k < |t.rows| && s.cells[k].address == 0 && r.cells[k].address != 0 ==>
                  At(r.home, r.cells[k].address) == At(s.words, r.cells[k].address))
  {
    hide Masked, Early;
    var r := Resolve(t, s, enabled, first, second);
    if r != s {
      var m, site := t.message.row, r.cells[t.message.row].address;
      forall k | 0 <= k < |t.rows|
        ensures RowOk(t, r, k)
        ensures k != m ==> s.cells[k].address != site
      {
        assert RowOk(t, s, k);
      }
    }
  }

  lemma LatePassKeeps(t: Table, s: State, enabled: set<nat>, first: u32, second: u32)
    requires Inv(t, s)
    ensures var r := Step(t, s, LatePass(enabled, first, second));
            && Inv(t, r) && Stands(s, r) && r.armed == s.armed && Settled(t, r, enabled)
            && (forall k :: 0 <= k < |t.rows| && Early(t.rows, k) ==> SameSite(s.cells[k], r.cells[k]))
            && (forall k :: 0 <= k < |t.rows| && s.cells[k].address == 0 && r.cells[k].address != 0 ==>
                  At(r.home, r.cells[k].address) == At(s.words, r.cells[k].address))
  {
    hide RowsOk, DistinctSites, MessageOk, Resolve, Late, Early, On;
    ResolveKeeps(t, s, enabled, first, second);
    LateKeeps(t, Resolve(t, s, enabled, first, second), enabled, |t.rows|);
  }

  // ---- the early pass -------------------------------------------------------------------------

  lemma ArmKeeps(t: Table, s: State, k: nat, on: bool)
    requires Inv(t, s) && k < |t.rows| && Early(t.rows, k)
    ensures var r := Arm(t, s, k, on);
            && Inv(t, r) && r.cells == s.cells && r.home == s.home
            && r.armed == s.armed + if on && s.cells[k].address != 0 then {k} else {}
  {
    hide Masked, Early;
    var c, r := s.cells[k], Arm(t, s, k, on);
    if r != s {
      PatchIdempotent(At(s.home, c.address), c.fill);
      forall j | 0 <= j < |t.rows|
        ensures RowOk(t, r, j)
      {
        assert RowOk(t, s, j) && RowOk(t, s, k);
        if j != k {
          assert s.cells[j].address != 0 ==> s.cells[j].address != c.address;
        }
      }
    }
  }

  /** The early rows among the first `n` that a pass with these settings writes. */
  function Armed(t: Table, cells: seq<Cell>, enabled: set<nat>, n: nat): set<nat>
    requires n <= |t.rows| == |cells|
  {
    set k | 0 <= k < n && Early(t.rows, k) && On(t.rows, k, enabled) && cells[k].address != 0
  }

  lemma {:induction false} BootKeeps(t: Table, s: State, enabled: set<nat>, n: nat)
    requires Inv(t, s) && n <= |t.rows|
    ensures var r := Boot(t, s, enabled, n);
            Inv(t, r) && r.cells == s.cells && r.home == s.home && r.armed == s.armed + Armed(t, s.cells, enabled, n)
    decreases n
  {
    hide RowsOk, DistinctSites, MessageOk, Arm, Early, On;
    if n > 0 {
      BootKeeps(t, s, enabled, n - 1);
      if Early(t.rows, n - 1) {
        ArmKeeps(t, Boot(t, s, enabled, n - 1), n - 1, On(t.rows, n - 1, enabled));
      }
    }
  }

  // ---- steps and runs -------------------------------------------------------------------------

  /** Words that agree at the known sites keep every row right. */
  lemma Framed(t: Table, s: State, words: map<nat, word>)
    requires Inv(t, s) && forall a :: a in Sites(s.cells) ==> At(words, a) == At(s.words, a)
    ensures Inv(t, s.(words := words))
  {
    hide PatchedWord, Early;
    forall k | 0 <= k < |t.rows|
      ensures RowOk(t, s.(words := words), k)
    {
      assert RowOk(t, s, k);
      assert s.cells[k].address != 0 ==> s.cells[k].address in Sites(s.cells);
    }
  }

  /** The settings of the last late pass, or `last` if there was none. */
  function LastLate(events: seq<Event>, last: set<nat>): set<nat>
    decreases |events|
  {
    if events == [] then last else LastLate(events[1..], if events[0].LatePass? then events[0].enabled else last)
  }

  /** Whether some early pass had row `k` on. */
  predicate EverOn(rows: seq<Row>, events: seq<Event>, k: nat)
    requires k < |rows|
  {
    exists e :: e in events && e.EarlyPass? && On(rows, k, e.enabled)
  }

  lemma StepKeeps(t: Table, s: State, e: Event, last: set<nat>)
    requires Inv(t, s) && Settled(t, s, last) && Possible(s, e)
    ensures var r := Step(t, s, e);
            && Inv(t, r) && Stands(s, r) && Settled(t, r, if e.LatePass? then e.enabled else last)
            && (forall k :: 0 <= k < |t.rows| && Early(t.rows, k) ==> SameSite(s.cells[k], r.cells[k]))
            && r.armed == s.armed + if e.EarlyPass? then Armed(t, s.cells, e.enabled, |t.rows|) else {}
  {
    hide RowsOk, DistinctSites, MessageOk, Late, Boot, Resolve, Early, On;
    match e
    case EarlyPass(enabled) => BootKeeps(t, s, enabled, |t.rows|);
    case LatePass(enabled, first, second) => LatePassKeeps(t, s, enabled, first, second);
    case Played(address, value) => Framed(t, s, s.words[address := value]);
  }

  predicate RunPossible(t: Table, s: State, events: seq<Event>)
    requires Sized(t, s)
    decreases |events|
  {
    events == [] || (Possible(s, events[0]) && RunPossible(t, Step(t, s, events[0]), events[1..]))
  }

  function Run(t: Table, s: State, events: seq<Event>): (r: State)
    requires Sized(t, s)
    ensures Sized(t, r)
    decreases |events|
  {
    if events == [] then s else Run(t, Step(t, s, events[0]), events[1..])
  }

  lemma {:induction false} RunKeeps(t: Table, s: State, events: seq<Event>, last: set<nat>)
    requires Inv(t, s) && Settled(t, s, last) && RunPossible(t, s, events)
    ensures var r := Run(t, s, events);
            && Inv(t, r) && Stands(s, r) && Settled(t, r, LastLate(events, last))
            && (forall k :: 0 <= k < |t.rows| && Early(t.rows, k) ==> SameSite(s.cells[k], r.cells[k]))
            && (forall k :: 0 <= k < |t.rows| && Early(t.rows, k) ==>
                  (k in r.armed <==> k in s.armed || (s.cells[k].address != 0 && EverOn(t.rows, events, k))))
    decreases |events|
  {
    hide RowsOk, DistinctSites, MessageOk, Step, Early, On, Settled, Stands, EverOn, Possible;
    if events == [] {
      NeverOn(t.rows);
      StandsStill(s);
    } else {
      var e, next := events[0], Step(t, s, events[0]);
      StepKeeps(t, s, e, last);
      RunKeeps(t, next, events[1..], if e.LatePass? then e.enabled else last);
      StandsTransitive(s, next, Run(t, s, events));
      forall k | 0 <= k < |t.rows|
        ensures EverOn(t.rows, events, k) <==>
                  (e.EarlyPass? && On(t.rows, k, e.enabled)) || EverOn(t.rows, events[1..], k)
      {
        EverOnFirst(t.rows, events, k);
      }
    }
  }

  lemma StandsStill(s: State)
    ensures Stands(s, s)
  {
  }

  lemma NeverOn(rows: seq<Row>)
    ensures forall k :: 0 <= k < |rows| ==> !EverOn(rows, [], k)
  {
  }

  lemma EverOnFirst(rows: seq<Row>, events: seq<Event>, k: nat)
    requires k < |rows| && events != []
    ensures EverOn(rows, events, k) <==>
              (events[0].EarlyPass? && On(rows, k, events[0].enabled)) || EverOn(rows, events[1..], k)
  {
    assert events == [events[0]] + events[1..];
    if EverOn(rows, events[1..], k) {
      var e :| e in events[1..] && e.EarlyPass? && On(rows, k, e.enabled);
      assert e in events;
    }
  }

  // ---- what a pass leaves alone ---------------------------------------------------------------

  lemma SitesAlike(a: seq<Cell>, b: seq<Cell>)
    requires |a| == |b| && forall k :: 0 <= k < |a| ==> SameSite(a[k], b[k])
    ensures Sites(a) == Sites(b)
  {
    assert forall x :: x in Sites(a) <==> x in Sites(b);
  }

  lemma {:induction false} LateElsewhere(t: Table, s: State, enabled: set<nat>, n: nat, a: nat)
    requires Inv(t, s) && n <= |t.rows| && a !in Sites(s.cells)
    ensures At(Late(t, s, enabled, n).words, a) == At(s.words, a)
    decreases n
  {
    hide RowsOk, DistinctSites, MessageOk, Early, On, Masked, Slot;
    if n > 0 {
      LateElsewhere(t, s, enabled, n - 1, a);
      LateKeeps(t, s, enabled, n - 1);
      assert s.cells[n - 1].address != 0 ==> s.cells[n - 1].address in Sites(s.cells);
    }
  }

  lemma {:induction false} BootElsewhere(t: Table, s: State, enabled: set<nat>, n: nat, a: nat)
    requires Inv(t, s) && n <= |t.rows| && a !in Sites(s.cells)
    ensures At(Boot(t, s, enabled, n).words, a) == At(s.words, a)
    decreases n
  {
    hide RowsOk, DistinctSites, MessageOk, Early, On, Masked;
    if n > 0 {
      BootElsewhere(t, s, enabled, n - 1, a);
      BootKeeps(t, s, enabled, n - 1);
      assert s.cells[n - 1].address != 0 ==> s.cells[n - 1].address in Sites(s.cells);
    }
  }

  /** Every site a row may ever have. */
  function Reach(t: Table, cells: seq<Cell>): set<nat> {
    Sites(cells) + match t.message
                   case NoMessage => {}
                   case Message(_, _, buffers) => set i | 0 <= i < |buffers| :: buffers[i].0
  }

  /** A pass stays within the rows' reach, which it does not widen. */
  lemma PassReach(t: Table, s: State, e: Event)
    requires Inv(t, s) && !e.Played?
    ensures var r := Step(t, s, e);
            && Sites(s.cells) <= Sites(r.cells) && Reach(t, r.cells) == Reach(t, s.cells)
            && forall a: nat :: a !in Reach(t, s.cells) ==> At(r.words, a) == At(s.words, a)
  {
    hide RowsOk, DistinctSites, MessageOk, Early, On, Late, Boot;
    match e
    case EarlyPass(enabled) =>
      BootKeeps(t, s, enabled, |t.rows|);
      forall a: nat | a !in Reach(t, s.cells)
        ensures At(Step(t, s, e).words, a) == At(s.words, a)
      {
        BootElsewhere(t, s, enabled, |t.rows|, a);
      }
    case LatePass(enabled, first, second) =>
      var known := Resolve(t, s, enabled, first, second);
      ResolveKeeps(t, s, enabled, first, second);
      ResolveReach(t, s, enabled, first, second);
      LateKeeps(t, known, enabled, |t.rows|);
      SitesAlike(known.cells, Step(t, s, e).cells);
      forall a: nat | a !in Reach(t, s.cells)
        ensures At(Step(t, s, e).words, a) == At(s.words, a)
      {
        LateElsewhere(t, known, enabled, |t.rows|, a);
      }
  }

  lemma ResolveReach(t: Table, s: State, enabled: set<nat>, first: u32, second: u32)
    requires Inv(t, s)
    ensures var r := Resolve(t, s, enabled, first, second);
            Sites(s.cells) <= Sites(r.cells) && Reach(t, r.cells) == Reach(t, s.cells)
  {
    hide RowsOk, DistinctSites;
    var r := Resolve(t, s, enabled, first, second);
    if r != s {
      var m, site := t.message.row, r.cells[t.message.row].address;
      var i := Language(first, second);
      assert t.message.buffers[i].0 == site;
      forall a | a in Sites(s.cells)
        ensures a in Sites(r.cells)
      {
        var k :| 0 <= k < |s.cells| && s.cells[k].address != 0 && s.cells[k].address == a;
        assert r.cells[k].address == a;
      }
      forall a | a in Sites(r.cells)
        ensures a in Sites(s.cells) || a == site
      {
        var k :| 0 <= k < |r.cells| && r.cells[k].address != 0 && r.cells[k].address == a;
        assert k != m ==> s.cells[k].address == a;
      }
    }
  }

  // ---- histories from shipped memory ----------------------------------------------------------

  /** Nothing captured, installed or armed, and memory as the game was shipped. */
  predicate Shipped(t: Table, s: State) {
    && Sized(t, s) && DistinctSites(s.cells) && MessageOk(t, s.cells) && s.home == s.words && s.armed == {}
    && forall k :: 0 <= k < |s.cells| ==> !s.cells[k].captured && !s.cells[k].installed
  }

  lemma ShippedOk(t: Table, s: State)
    requires Shipped(t, s)
    ensures Inv(t, s) && Settled(t, s, {})
  {
    hide Early, Masked;
    forall k | 0 <= k < |t.rows|
      ensures RowOk(t, s, k) && !On(t.rows, k, {})
    {
      NothingOn(t.rows, k);
    }
  }

  /** After any history from shipped memory: a known late site is a function of the word it was first seen
      with and the settings of the last late pass; an early site, of its shipped word and whether any early
      pass had it on; and a site known from the start was first seen with its shipped word. */
  lemma HistoryDecides(t: Table, s: State, events: seq<Event>, k: nat)
    requires Shipped(t, s) && RunPossible(t, s, events) && k < |t.rows| && Run(t, s, events).cells[k].address != 0
    ensures var r := Run(t, s, events);
            var c := r.cells[k];
            && At(r.words, c.address) == PatchedWord(At(r.home, c.address), c.fill,
                                                     if Early(t.rows, k) then EverOn(t.rows, events, k)
                                                     else On(t.rows, k, LastLate(events, {})))
            && (s.cells[k].address != 0 || Early(t.rows, k) ==>
                  SameSite(s.cells[k], c) && At(r.home, c.address) == At(s.words, c.address))
  {
    hide PatchedWord, Early, On, EverOn, RunPossible, Run, LastLate;
    ShippedOk(t, s);
    RunKeeps(t, s, events, {});
    assert RowOk(t, Run(t, s, events), k);
  }

  /** An early site holds its shipped word exactly when no early pass had it on, or the patch is that word. */
  lemma EarlyRestoredExactly(t: Table, s: State, events: seq<Event>, k: nat)
    requires Shipped(t, s) && RunPossible(t, s, events) && k < |t.rows| && Early(t.rows, k) && s.cells[k].address != 0
    ensures var c, shipped := s.cells[k], At(s.words, s.cells[k].address);
            At(Run(t, s, events).words, c.address) == shipped <==>
                !EverOn(t.rows, events, k) || Masked(shipped, c.fill) == shipped
  {
    hide Masked, Early, On, EverOn, RunPossible, Run, LastLate;
    ShippedOk(t, s);
    RunKeeps(t, s, events, {});
    HistoryDecides(t, s, events, k);
  }

  /** When the last late pass had everything off, a known late site holds the word it was first seen with. */
  lemma LateRestored(t: Table, s: State, events: seq<Event>, k: nat)
    requires Shipped(t, s) && RunPossible(t, s, events) && k < |t.rows| && !Early(t.rows, k)
    requires LastLate(events, {}) == {} && Run(t, s, events).cells[k].address != 0
    ensures var r := Run(t, s, events); At(r.words, r.cells[k].address) == At(r.home, r.cells[k].address)
  {
    hide Masked, RunPossible, Run, LastLate, Early;
    HistoryDecides(t, s, events, k);
    NothingOn(t.rows, k);
  }

  /** The language-dependent row is first seen with the word its buffer holds when the pass resolves it. */
  lemma ResolvedHome(t: Table, s: State, before: seq<Event>, enabled: set<nat>, first: u32, second: u32, k: nat)
    requires Shipped(t, s) && RunPossible(t, s, before) && k < |t.rows|
    ensures var a := Run(t, s, before);
            var b := Step(t, a, LatePass(enabled, first, second));
            a.cells[k].address == 0 && b.cells[k].address != 0 ==>
              At(b.home, b.cells[k].address) == At(a.words, b.cells[k].address)
  {
    hide RowsOk, DistinctSites, MessageOk, Step, Early, On, RunPossible, Run, Stands, Settled;
    ShippedOk(t, s);
    RunKeeps(t, s, before, {});
    LatePassKeeps(t, Run(t, s, before), enabled, first, second);
  }

  /** An unresolved row is resolved by a late pass exactly when its feature is on and one of the two words names a
      language, the first word counting first; it gets that language's buffer and patch. */
  lemma ResolvesTo(t: Table, s: State, enabled: set<nat>, first: u32, second: u32)
    requires Inv(t, s) && t.message.Message? && s.cells[t.message.row].address == 0
    ensures var c := Step(t, s, LatePass(enabled, first, second)).cells[t.message.row];
            if t.message.feature in enabled && first < 5
            then c.address == t.message.buffers[first].0 && c.fill == t.message.buffers[first].1
            else if t.message.feature in enabled && second < 5
            then c.address == t.message.buffers[second].0 && c.fill == t.message.buffers[second].1
            else c.address == 0
  {
    hide RowsOk, DistinctSites, Early, On, Late;
    ResolveKeeps(t, s, enabled, first, second);
    LateKeeps(t, Resolve(t, s, enabled, first, second), enabled, |t.rows|);
  }

  // ---- booted on, then turned off -------------------------------------------------------------

  /** One early row, on at boot and off in every pass since. */
  const ONE_EARLY := Table([Row(1, true)], NoMessage)
  const AT_BOOT := State([Cell(4, Whole(7), false, false)], [0], map[4 := 9], map[4 := 9], {})
  const ON_THEN_OFF := [EarlyPass({0}), EarlyPass({}), LatePass({}, 0, 0)]

  /** Everything is off, and the site still holds the patch. */
  lemma TurnedOffTooLate()
    ensures Shipped(ONE_EARLY, AT_BOOT) && RunPossible(ONE_EARLY, AT_BOOT, ON_THEN_OFF)
    ensures At(Run(ONE_EARLY, AT_BOOT, ON_THEN_OFF).words, 4) == 7 != At(AT_BOOT.words, 4)
  {
    AlwaysPossible(ONE_EARLY, AT_BOOT, ON_THEN_OFF);
    ShippedOk(ONE_EARLY, AT_BOOT);
    RunKeeps(ONE_EARLY, AT_BOOT, ON_THEN_OFF, {});
    HistoryDecides(ONE_EARLY, AT_BOOT, ON_THEN_OFF, 0);
    assert ON_THEN_OFF[0] in ON_THEN_OFF && On(ONE_EARLY.rows, 0, {0});
  }

  lemma {:induction false} AlwaysPossible(t: Table, s: State, events: seq<Event>)
    requires Sized(t, s) && forall e :: e in events ==> !e.Played?
    ensures RunPossible(t, s, events)
    decreases |events|
  {
    hide Step;
    if events != [] {
      assert events == [events[0]] + events[1..];
      AlwaysPossible(t, Step(t, s, events[0]), events[1..]);
    }
  }

  // ---- in place -------------------------------------------------------------------------------

  /** The rows in place. */
  class Patcher {
    const table: Table
    const memory: Memory
    const cells: array<Cell>
    const original: array<word>
    ghost var home: map<nat, word>
    ghost var armed: set<nat>

    ghost predicate Valid()
      reads this, memory, cells, original
    {
      (cells as object) != original && Sized(table, View())
    }

    ghost function View(): State
      reads this, memory, cells, original
    {
      State(cells[..], original[..], memory.words, home, armed)
    }

    /** Before the first pass: nothing captured, nothing installed, memory as shipped. */
    constructor (t: Table, sites: seq<Cell>, box: Memory)
      requires |t.rows| == |sites| && DistinctSites(sites) && MessageOk(t, sites)
      requires forall k :: 0 <= k < |sites| ==> !sites[k].captured && !sites[k].installed
      ensures Valid() && Shipped(table, View()) && fresh(cells) && fresh(original)
      ensures memory == box && table == t && cells[..] == sites
    {
      table, memory, home, armed := t, box, box.words, {};
      cells := new Cell[|t.rows|](i requires 0 <= i < |sites| => sites[i]);
      original := new word[|t.rows|](_ => 0);
      new;
      assert cells[..] == sites;
    }

    method ResolveMessage(enabled: set<nat>, first: u32, second: u32)
      requires Valid()
      modifies this`home, cells
      ensures Valid() && View() == Resolve(table, old(View()), enabled, first, second)
    {
      if table.message.NoMessage? || table.message.feature !in enabled || cells[table.message.row].address != 0 {
        return;
      }
      var language: int := first;
      if language >= LANGUAGES {
        language := second;
      }
      if language >= LANGUAGES {
        return;
      }
      var (site, fill) := table.message.buffers[language];
      home := home[site := At(memory.words, site)];
      cells[table.message.row] := cells[table.message.row].(address := site, fill := fill);
    }

    /** Mirrors `applyPatches`: the pass over every row, the late one resolving first. */
    method ApplyPatches(early: bool, enabled: set<nat>, first: u32, second: u32)
      requires Valid()
      modifies this`home, this`armed, memory, cells, original
      ensures Valid()
      ensures View() == Step(table, old(View()), if early then EarlyPass(enabled) else LatePass(enabled, first, second))
    {
      hide Masked;
      if !early {
        ResolveMessage(enabled, first, second);
      }
      ghost var start := View();
      var idx, featureEarly, on := 0, false, false;
      for k := 0 to |table.rows|
        invariant Valid() && idx == Slot(table.rows, k)
        invariant View() == if early then Boot(table, start, enabled, k) else Late(table, start, enabled, k)
        invariant if k == 0 then !featureEarly && !on
                  else featureEarly == Early(table.rows, k - 1) && on == On(table.rows, k - 1, enabled)
      {
        if table.rows[k].tag != 0 {
          featureEarly, on := table.rows[k].early, table.rows[k].tag - 1 in enabled;
        }
        if featureEarly == early {
          if early {
            WriteOnce(k, on);
          } else {
            BringTo(k, idx, on);
          }
        }
        if !featureEarly {
          idx := idx + 1;
        }
      }
    }

    method WriteOnce(k: nat, on: bool)
      requires Valid() && k < |table.rows|
      modifies this`armed, memory
      ensures Valid() && View() == Arm(table, old(View()), k, on)
    {
      var c := cells[k];
      if on && c.address != 0 {
        memory.Write(c.address, Masked(At(memory.words, c.address), c.fill));
        armed := armed + {k};
      }
    }

    method BringTo(k: nat, slot: nat, on: bool)
      requires Valid() && k < |table.rows| && !Early(table.rows, k) && slot == Slot(table.rows, k)
      modifies memory, cells, original
      ensures Valid() && View() == Visit(table, old(View()), k, on)
    {
      hide Masked, Early, Slot;
      var c := cells[k];
      if c.address == 0 {
        return;
      }
      if !c.captured {
        original[slot] := At(memory.words, c.address);
      }
      if on != c.installed {
        memory.Write(c.address, if on then Masked(original[slot], c.fill) else original[slot]);
      }
      cells[k] := c.(captured := true, installed := on);
    }
  }
}
