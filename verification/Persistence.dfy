/** Settings kept in two card sectors: saves alternate between them, and a restart keeps the newer valid
    one, whatever happened to the other. */
module Persistence {
  import opened Bytes

  const WRAP := 0x1_0000_0000

  // ---- the card -------------------------------------------------------------------------------

  /** A configuration: its feature flags and everything else. */
  datatype Cfg = Cfg(flags: set<nat>, body: seq<byte>)

  /** QFT display, metadata style, input style, creation, wall-kick style and IL profiles. */
  const REQUIRED: set<nat> := {4, 5, 6, 7, 8, 9}

  function WithRequired(c: Cfg): Cfg { c.(flags := c.flags + REQUIRED) }

  /** Everything but the six flags every load sets is the same. */
  predicate Alike(a: Cfg, b: Cfg) { a.body == b.body && a.flags - REQUIRED == b.flags - REQUIRED }

  /** A sector whose checksum fails, or a record. `level` and `stamp` are history: which save it was,
      counted without wrapping, and which edit it holds. */
  datatype Sector = Torn | Record(generation: u32, cfg: Cfg, current: bool, level: nat, stamp: nat)

  type Pair = s: seq<Sector> | |s| == 2 witness [Torn, Torn]

  datatype Card = NoFile | File(sectors: Pair)

  /** Mirrors `newer`: serial number comparison (RFC 1982, section 3.2). */
  predicate Newer(a: u32, b: u32) { 0 < (a - b) % WRAP < 0x8000_0000 }

  lemma NewerNext(level: nat)
    ensures Newer((level + 1) % WRAP, level % WRAP) && !Newer(level % WRAP, (level + 1) % WRAP)
    ensures !Newer(level % WRAP, level % WRAP)
  {
    var q, r := level / WRAP, level % WRAP;
    assert level == WRAP * q + r;
    if r + 1 < WRAP {
      NextWithin(level);
      assert (-1) % WRAP == WRAP - 1;
    } else {
      NextWraps(level);
      assert (0 - r) % WRAP == 1;
      assert (r - 0) % WRAP == WRAP - 1;
    }
  }

  lemma NextWithin(level: nat)
    requires level % WRAP + 1 < WRAP
    ensures (level + 1) % WRAP == level % WRAP + 1
  {
    assert level + 1 == WRAP * (level / WRAP) + (level % WRAP + 1);
  }

  lemma NextWraps(level: nat)
    requires level % WRAP + 1 == WRAP
    ensures (level + 1) % WRAP == 0
  {
    assert level + 1 == WRAP * (level / WRAP + 1);
  }

  // ---- the running console --------------------------------------------------------------------

  /** `level`, `stamp`, `issued`, `served` and `commits` are history: the unwrapped generation and ticket
      counts, and the edit each ticket committed. */
  datatype Memory = Memory(cfg: Cfg, requested: u32, completed: u32, generation: u32, statusReady: bool, active: int,
                           initialSave: bool, idle: bool, level: nat, stamp: nat, issued: nat, served: nat,
                           commits: seq<nat>)

  datatype Console = Off | Unavailable | Ready(memory: Memory)

  /** `acked` and `edits` are history: the newest edit a poll confirmed, and every edit so far. */
  datatype World = World(card: Card, console: Console, acked: nat, edits: seq<Cfg>)

  // ---- loading --------------------------------------------------------------------------------

  /** What the card calls return while loading. */
  datatype Reads = Reads(mounted: bool, found: bool, first: bool, second: bool, closed: bool)

  /** The chosen sector, or -1: a later one only if newer. */
  function Best(sectors: Pair): (i: int)
    ensures -1 <= i < 2 && (i >= 0 ==> sectors[i].Record?)
    ensures i == -1 ==> sectors[0].Torn? && sectors[1].Torn?
  {
    if sectors[1].Record? && (sectors[0].Torn? || Newer(sectors[1].generation, sectors[0].generation)) then 1
    else if sectors[0].Record? then 0
    else -1
  }

  const DEFAULTS := Cfg({}, [])

  const BLANK := Memory(DEFAULTS, 0, 0, 0, true, -1, false, false, 0, 0, 0, 0, [])

  /** The memory a load leaves behind. */
  function Loaded(card: Card): Memory
  {
    if card.NoFile? || Best(card.sectors) < 0 then BLANK.(initialSave := true)
    else
      var r := card.sectors[Best(card.sectors)];
      BLANK.(cfg := WithRequired(r.cfg), generation := r.generation, active := Best(card.sectors),
             initialSave := !r.current, level := r.level, stamp := r.stamp)
  }

  function Boot(w: World, calls: Reads): World
  {
    if !w.console.Off? then w
    else if !calls.mounted then w.(console := Unavailable)
    else if w.card.NoFile? then w.(console := Ready(Loaded(w.card)))
    else if !calls.found || !calls.first || !calls.second || !calls.closed then w.(console := Unavailable)
    else w.(console := Ready(Loaded(w.card)))
  }

  // ---- saving ---------------------------------------------------------------------------------

  /** What becomes of the target sector. */
  datatype Effect = Untouched | Spoiled | Written

  /** The mount or open fails; or the write ends, perhaps badly; or power goes. */
  datatype Attempt =
    | Refused
    | Ended(effect: Effect, writeReady: bool, closeReady: bool)
    | PowerLost(reached: bool, effect: Effect)

  /** A write reported ready was complete. */
  predicate Honest(a: Attempt) { a.Ended? && a.writeReady ==> a.effect.Written? }

  function Target(m: Memory): nat { if m.active == 0 then 1 else 0 }

  function NewRecord(m: Memory): Sector {
    Record((m.generation + 1) % WRAP, m.cfg, true, m.level + 1, m.stamp)
  }

  /** The card after a write to the target sector; a missing file is created first. */
  function AfterWrite(card: Card, m: Memory, effect: Effect): (c: Card)
    ensures c.File?
  {
    var sectors: Pair := if card.NoFile? then [Torn, Torn] else card.sectors;
    match effect
    case Untouched => File(sectors)
    case Spoiled => File(sectors[Target(m) := Torn])
    case Written => File(sectors[Target(m) := NewRecord(m)])
  }

  /** Mirrors the end of `writeRecordLocked` and of `service`. */
  function Served(m: Memory, ready: bool): Memory {
    var saved := if ready then m.(active := Target(m), generation := (m.generation + 1) % WRAP, initialSave := false,
                                  level := m.level + 1)
                 else m;
    saved.(statusReady := ready, completed := m.requested, served := m.issued)
  }

  /** Mirrors `service`: a pending save waits for the card worker to be idle on two passes. */
  function Pass(w: World, locked: bool, busy: bool, attempt: Attempt): World
  {
    if !w.console.Ready? then w
    else
      var m := w.console.memory;
      if m.requested == m.completed || !locked || busy then w.(console := Ready(m.(idle := false)))
      else if !m.idle then w.(console := Ready(m.(idle := true)))
      else
        var woken := m.(idle := false);
        match attempt
        case Refused => w.(console := Ready(Served(woken, false)))
        case Ended(effect, writeReady, closeReady) =>
          w.(card := AfterWrite(w.card, m, effect), console := Ready(Served(woken, writeReady && closeReady)))
        case PowerLost(reached, effect) =>
          w.(card := if reached then AfterWrite(w.card, m, effect) else w.card, console := Off)
  }

  function Edit(w: World, cfg: Cfg): World {
    if !w.console.Ready? then w
    else w.(edits := w.edits + [cfg], console := Ready(w.console.memory.(cfg := cfg, stamp := |w.edits|)))
  }

  function Commit(w: World): World {
    if !w.console.Ready? then w
    else
      var m := w.console.memory;
      w.(console := Ready(m.(requested := (m.requested + 1) % WRAP, issued := m.issued + 1,
                             commits := m.commits + [m.stamp])))
  }

  datatype Answer = Pending | Saved | Failed

  /** Mirrors `poll`. */
  function Poll(w: World, ticket: u32): Answer {
    if !w.console.Ready? || ticket == 0 then Failed
    else
      var m := w.console.memory;
      if (m.completed - ticket) % WRAP >= 0x8000_0000 then Pending else if m.statusReady then Saved else Failed
  }

  /** A poll of the `n`th ticket; a good answer confirms that ticket's edit. */
  function Confirm(w: World, n: nat): World {
    if w.console.Ready? && 0 < n <= |w.console.memory.commits| && Poll(w, n % WRAP).Saved?
    then w.(acked := if w.acked < w.console.memory.commits[n - 1] then w.console.memory.commits[n - 1] else w.acked)
    else w
  }

  datatype Event =
    | Booted(calls: Reads)
    | Edited(cfg: Cfg)
    | Committed
    | Passed(locked: bool, busy: bool, attempt: Attempt)
    | Polled(n: nat)
    | PoweredOff

  /** Fewer than half the ticket numbers wait at once, and a polled ticket is not half a cycle old. */
  predicate Allowed(w: World, e: Event) {
    match e
    case Passed(_, _, attempt) => Honest(attempt)
    case Committed => w.console.Ready? ==> w.console.memory.issued + 1 - w.console.memory.served < 0x8000_0000
    case Polled(n) => w.console.Ready? ==> 0 < n <= w.console.memory.issued && w.console.memory.served - n < 0x8000_0000
    case _ => true
  }

  // ---- what always holds ----------------------------------------------------------------------

  /** A record stands for an edit that happened. */
  predicate RecordOk(s: Sector, edits: seq<Cfg>) {
    s.Record? ==> s.generation == s.level % WRAP && s.stamp < |edits| && Alike(s.cfg, edits[s.stamp])
  }

  predicate CardShape(w: World) {
    w.card.File? ==> RecordOk(w.card.sectors[0], w.edits) && RecordOk(w.card.sectors[1], w.edits)
  }

  /** Two valid records are consecutive saves. */
  predicate Consecutive(a: Sector, b: Sector) {
    a.Record? && b.Record? ==> a.level == b.level + 1 || b.level == a.level + 1
  }

  /** With the power off, the record a boot would choose is at least as new as anything confirmed. */
  predicate CardKeeps(w: World) {
    if w.card.NoFile? then w.acked == 0
    else
      && Consecutive(w.card.sectors[0], w.card.sectors[1])
      && (if Best(w.card.sectors) < 0 then w.acked == 0 else w.card.sectors[Best(w.card.sectors)].stamp >= w.acked)
  }

  /** The memory agrees with the sector it came from; the other sector is one save older, or one save
      newer and at least as recent an edit, or torn. */
  predicate MemoryKeeps(w: World, m: Memory) {
    && m.generation == m.level % WRAP && m.stamp < |w.edits| && Alike(m.cfg, w.edits[m.stamp]) && w.acked <= m.stamp
    && -1 <= m.active < 2
    && (m.active >= 0 ==>
          && w.card.File? && w.card.sectors[m.active].Record? && w.card.sectors[m.active].level == m.level
          && w.acked <= w.card.sectors[m.active].stamp <= m.stamp
          && var other := w.card.sectors[1 - m.active];
             other.Record? ==> (other.level + 1 == m.level ||
                                (other.level == m.level + 1 && w.acked <= other.stamp && !m.statusReady)))
    && (m.active < 0 ==> w.acked == 0 && (w.card.File? ==> w.card.sectors[1].Torn?))
  }

  /** Tickets count upward; a good last status covers every ticket served. */
  predicate TicketsKeep(w: World, m: Memory)
    requires MemoryKeeps(w, m)
  {
    && m.requested == m.issued % WRAP && m.completed == m.served % WRAP && m.served <= m.issued
    && |m.commits| == m.issued
    && m.issued - m.served < 0x8000_0000
    && (forall i :: 0 <= i < |m.commits| ==> m.commits[i] <= m.stamp)
    && (m.statusReady && m.served > 0 ==> m.active >= 0)
    && (m.statusReady && m.active >= 0 ==>
          w.card.File? && forall i :: 0 <= i < m.served ==> m.commits[i] <= w.card.sectors[m.active].stamp)
  }

  predicate Keeps(w: World) {
    && CardShape(w) && w.edits != [] && w.edits[0] == DEFAULTS
    && match w.console
       case Ready(m) => MemoryKeeps(w, m) && TicketsKeep(w, m)
       case _ => CardKeeps(w)
  }

  function Step(w: World, e: Event): World
  {
    match e
    case Booted(calls) => Boot(w, calls)
    case Edited(cfg) => Edit(w, cfg)
    case Committed => Commit(w)
    case Passed(locked, busy, attempt) => Pass(w, locked, busy, attempt)
    case Polled(n) => Confirm(w, n)
    case PoweredOff => w.(console := Off)
  }

  lemma OrderIsNewer(a: Sector, b: Sector)
    requires a.Record? && b.Record? && Consecutive(a, b)
    requires a.generation == a.level % WRAP && b.generation == b.level % WRAP
    ensures Newer(b.generation, a.generation) <==> b.level == a.level + 1
  {
    if b.level == a.level + 1 {
      NewerNext(a.level);
    } else {
      NewerNext(b.level);
    }
  }

  lemma BootKeeps(w: World, calls: Reads)
    requires Keeps(w)
    ensures Keeps(Boot(w, calls))
  {
    hide Newer;
    if w.console.Off? && w.card.File? {
      var a, b := w.card.sectors[0], w.card.sectors[1];
      if a.Record? && b.Record? {
        OrderIsNewer(a, b);
      }
    }
  }

  lemma EditKeeps(w: World, cfg: Cfg)
    requires Keeps(w)
    ensures Keeps(Edit(w, cfg))
  {
    hide Newer, Best;
  }

  lemma CommitKeeps(w: World)
    requires Keeps(w) && Allowed(w, Committed)
    ensures Keeps(Commit(w))
  {
    hide Newer, Best, Alike;
    if w.console.Ready? {
      NextMod(w.console.memory.issued);
    }
  }

  lemma NextMod(n: nat)
    ensures (n % WRAP + 1) % WRAP == (n + 1) % WRAP
  {
    if n % WRAP + 1 < WRAP {
      NextWithin(n);
    } else {
      NextWraps(n);
    }
  }

  lemma OffKeeps(w: World)
    requires Keeps(w)
    ensures Keeps(w.(console := Off))
  {
    hide Newer, Alike;
    if w.console.Ready? && w.console.memory.active >= 0 {
      var a, b := w.card.sectors[0], w.card.sectors[1];
      if a.Record? && b.Record? {
        OrderIsNewer(a, b);
      }
    }
  }

  lemma AnsweredTicket(served: nat, issued: nat, n: nat)
    requires served <= issued && issued - served < 0x8000_0000 && n <= issued && served - n < 0x8000_0000
    ensures (served % WRAP - n % WRAP) % WRAP >= 0x8000_0000 <==> n > served
  {
    var d, q, r := served - n, served / WRAP, n / WRAP;
    assert served % WRAP - n % WRAP == d - WRAP * (q - r);
    ModShift(d, q - r);
  }

  lemma ModShift(x: int, q: int)
    ensures (x - WRAP * q) % WRAP == x % WRAP
  {
    var a, b := (x - WRAP * q) / WRAP, x / WRAP;
    assert x - WRAP * q == WRAP * a + (x - WRAP * q) % WRAP;
    assert x == WRAP * b + x % WRAP;
  }

  lemma ConfirmKeeps(w: World, n: nat)
    requires Keeps(w) && Allowed(w, Polled(n))
    ensures Keeps(Confirm(w, n))
  {
    hide Newer, Best, Alike, RecordOk;
    if w.console.Ready? {
      AnsweredTicket(w.console.memory.served, w.console.memory.issued, n);
    }
  }

  /** A write to the inactive sector, whatever it leaves there, keeps the active one. */
  lemma WriteKeeps(w: World, m: Memory, effect: Effect, ready: bool)
    requires Keeps(w) && w.console == Ready(m) && (ready ==> effect.Written?)
    ensures Keeps(w.(card := AfterWrite(w.card, m, effect), console := Ready(Served(m.(idle := false), ready))))
  {
    hide Newer, Best, Alike;
    NextMod(m.level);
  }

  lemma WaitKeeps(w: World, m: Memory, idle: bool)
    requires Keeps(w) && w.console == Ready(m)
    ensures Keeps(w.(console := Ready(m.(idle := idle))))
  {
    hide Newer, Best, Alike, RecordOk;
  }

  lemma RefusedKeeps(w: World, m: Memory)
    requires Keeps(w) && w.console == Ready(m)
    ensures Keeps(w.(console := Ready(Served(m.(idle := false), false))))
  {
    hide Newer, Best, Alike, RecordOk;
  }

  lemma PassKeeps(w: World, locked: bool, busy: bool, attempt: Attempt)
    requires Keeps(w) && Honest(attempt)
    ensures Keeps(Pass(w, locked, busy, attempt))
  {
    hide Keeps, Served, AfterWrite;
    if w.console.Ready? {
      var m := w.console.memory;
      WaitKeeps(w, m, true);
      WaitKeeps(w, m, false);
      match attempt
      case Refused =>
        RefusedKeeps(w, m);
      case Ended(effect, writeReady, closeReady) =>
        WriteKeeps(w, m, effect, writeReady && closeReady);
      case PowerLost(reached, effect) =>
        WriteKeeps(w, m, effect, false);
        OffKeeps(w.(card := AfterWrite(w.card, m, effect), console := Ready(Served(m.(idle := false), false))));
        OffKeeps(w);
    }
  }

  lemma StepKeeps(w: World, e: Event)
    requires Keeps(w) && Allowed(w, e)
    ensures Keeps(Step(w, e))
  {
    hide Boot, Edit, Commit, Pass, Confirm, MemoryKeeps, TicketsKeep, CardKeeps;
    match e
    case Booted(calls) => BootKeeps(w, calls);
    case Edited(cfg) => EditKeeps(w, cfg);
    case Committed => CommitKeeps(w);
    case Passed(locked, busy, attempt) => PassKeeps(w, locked, busy, attempt);
    case Polled(n) => ConfirmKeeps(w, n);
    case PoweredOff => OffKeeps(w);
  }

  // ---- runs -----------------------------------------------------------------------------------

  predicate RunAllowed(w: World, events: seq<Event>)
    decreases |events|
  {
    events == [] || (Allowed(w, events[0]) && RunAllowed(Step(w, events[0]), events[1..]))
  }

  function Run(w: World, events: seq<Event>): World
    decreases |events|
  {
    if events == [] then w else Run(Step(w, events[0]), events[1..])
  }

  /** Every run keeps what always holds. */
  lemma {:induction false} RunKeeps(w: World, events: seq<Event>)
    requires Keeps(w) && RunAllowed(w, events)
    ensures Keeps(Run(w, events))
    decreases |events|
  {
    hide Keeps, Step, Allowed;
    if events != [] {
      StepKeeps(w, events[0]);
      RunKeeps(Step(w, events[0]), events[1..]);
    }
  }

  /** A console switched on for the first time, with no settings file. */
  const FIRST := World(NoFile, Off, 0, [DEFAULTS])

  /** After any run of edits, saves, failed or torn writes and restarts, a successful boot loads an edit at
      least as recent as every confirmed save: its settings as they were, with the six flags every load sets;
      or the defaults, when nothing on the card is whole, and then nothing was ever confirmed. */
  lemma LoadsConfirmed(events: seq<Event>, calls: Reads)
    requires RunAllowed(FIRST, events) && Run(FIRST, events).console.Off?
    ensures var w := Run(FIRST, events);
            var r := Boot(w, calls);
            r.console.Ready? ==>
              && var m := r.console.memory;
                 && w.acked <= m.stamp < |w.edits| && m.cfg.body == w.edits[m.stamp].body
                 && (m.active >= 0 ==> m.cfg.flags == w.edits[m.stamp].flags + {4, 5, 6, 7, 8, 9})
                 && (m.active < 0 ==> m.cfg == Cfg({}, []) == w.edits[0] && w.acked == 0 && m.initialSave)
  {
    hide Best, Newer, Run, RunAllowed;
    RunKeeps(FIRST, events);
    var w := Run(FIRST, events);
    BootKeeps(w, calls);
    if Boot(w, calls).console.Ready? && Boot(w, calls).console.memory.active >= 0 {
      FlagsAgree(Boot(w, calls).console.memory.cfg, w.edits[Boot(w, calls).console.memory.stamp]);
    }
  }

  lemma FlagsAgree(a: Cfg, b: Cfg)
    requires Alike(a, b) && REQUIRED <= a.flags
    ensures a.flags == b.flags + REQUIRED
  {
    assert a.flags == (a.flags - REQUIRED) + REQUIRED;
    assert b.flags + REQUIRED == (b.flags - REQUIRED) + REQUIRED;
  }

  lemma {:induction false} HistoryGrows(w: World, events: seq<Event>)
    ensures w.acked <= Run(w, events).acked && w.edits <= Run(w, events).edits
    decreases |events|
  {
    hide Poll, Boot, Pass;
    if events != [] {
      StepGrows(w, events[0]);
      HistoryGrows(Step(w, events[0]), events[1..]);
    }
  }

  lemma StepGrows(w: World, e: Event)
    ensures w.acked <= Step(w, e).acked && w.edits <= Step(w, e).edits
  {
    hide Poll, Loaded, Served, AfterWrite;
  }

  /** A ticket stands for the settings in force when it was taken. */
  lemma TicketTaken(w: World, cfg: Cfg)
    requires w.console.Ready?
    ensures var r := Commit(Edit(w, cfg));
            && r.console.Ready? && r.console.memory.cfg == cfg && r.edits == w.edits + [cfg]
            && r.console.memory.commits == w.console.memory.commits + [|w.edits|]
            && r.console.memory.issued == w.console.memory.issued + 1
  {
  }

  /** Once the `n`th ticket was polled and found saved, then after whatever follows, power loss and torn writes
      included, a successful boot loads settings at least as recent as the ones that ticket stands for. */
  lemma SavedSurvives(w: World, n: nat, after: seq<Event>, calls: Reads)
    requires Keeps(w) && w.console.Ready? && Allowed(w, Polled(n)) && Poll(w, n % WRAP).Saved?
    requires RunAllowed(Step(w, Polled(n)), after) && Run(Step(w, Polled(n)), after).console.Off?
    ensures 0 < n <= |w.console.memory.commits|
    ensures var end := Run(Step(w, Polled(n)), after);
            var r := Boot(end, calls);
            r.console.Ready? ==>
              && w.console.memory.commits[n - 1] <= r.console.memory.stamp < |end.edits| && w.edits <= end.edits
              && r.console.memory.cfg.body == end.edits[r.console.memory.stamp].body
              && r.console.memory.cfg.flags - {4, 5, 6, 7, 8, 9}
                 == end.edits[r.console.memory.stamp].flags - {4, 5, 6, 7, 8, 9}
  {
    hide Run, RunAllowed, Boot, Newer, Best;
    var polled := Step(w, Polled(n));
    StepKeeps(w, Polled(n));
    RunKeeps(polled, after);
    HistoryGrows(polled, after);
    BootKeeps(Run(polled, after), calls);
    BootHistory(Run(polled, after), calls);
  }

  lemma BootHistory(w: World, calls: Reads)
    ensures Boot(w, calls).acked == w.acked && Boot(w, calls).edits == w.edits
  {
  }

  // ---- a save goes through --------------------------------------------------------------------

  const UNDISTURBED := Ended(Written, true, true)

  /** The service runs while the card worker is idle, and the card works. */
  function TwoPasses(w: World): World { Pass(Pass(w, true, false, UNDISTURBED), true, false, UNDISTURBED) }

  /** A pass that finds the worker busy waits, and the wait starts over. */
  lemma BusyWaits(w: World, locked: bool, attempt: Attempt)
    requires w.console.Ready?
    ensures var r := Pass(w, locked, true, attempt);
            && r.card == w.card && r.console.Ready? && !r.console.memory.idle
            && r.console.memory.cfg == w.console.memory.cfg && r.console.memory.completed == w.console.memory.completed
    ensures Pass(w, false, false, attempt) == Pass(w, false, true, attempt)
  {
  }

  /** Two undisturbed passes write a pending save, and leave nothing pending. */
  lemma PendingIsWritten(w: World)
    requires Keeps(w) && w.console.Ready? && w.console.memory.requested != w.console.memory.completed
    ensures var r, m := TwoPasses(w), w.console.memory;
            && Keeps(r) && r.console.Ready? && r.edits == w.edits
            && r.console.memory.requested == r.console.memory.completed && r.console.memory.statusReady
            && r.card.File? && r.console.memory.active >= 0 && r.card.sectors[r.console.memory.active].Record?
            && var record := r.card.sectors[r.console.memory.active];
               record.cfg == m.cfg && record.stamp == m.stamp && record.current && record.level == m.level + 1
  {
    hide Keeps;
    var once := Pass(w, true, false, UNDISTURBED);
    PassKeeps(w, true, false, UNDISTURBED);
    PassKeeps(once, true, false, UNDISTURBED);
  }

  /** So what was set comes back after a restart: the settings at the save, with the six flags. */
  lemma SavedComesBack(w: World, calls: Reads)
    requires Keeps(w) && w.console.Ready? && w.console.memory.requested != w.console.memory.completed
    requires calls.mounted && calls.found && calls.first && calls.second && calls.closed
    ensures var m := w.console.memory;
            var r := Boot(TwoPasses(w).(console := Off), calls);
            && r.console.Ready? && r.console.memory.cfg.body == m.cfg.body && r.console.memory.stamp == m.stamp
            && r.console.memory.cfg.flags == m.cfg.flags + {4, 5, 6, 7, 8, 9} && !r.console.memory.initialSave
  {
    hide Keeps, TwoPasses, Newer, Alike;
    PendingIsWritten(w);
    ActiveIsBest(TwoPasses(w));
  }

  /** When the last save ended well, the sector it went to is the one a boot would choose. */
  lemma ActiveIsBest(w: World)
    requires Keeps(w) && w.console.Ready? && w.console.memory.active >= 0 && w.console.memory.statusReady
    ensures w.card.File? && Best(w.card.sectors) == w.console.memory.active
  {
    hide Newer, Alike, TicketsKeep;
    var a, b := w.card.sectors[0], w.card.sectors[1];
    if a.Record? && b.Record? {
      OrderIsNewer(a, b);
    }
  }

  /** After two undisturbed passes every outstanding ticket is answered with success, but for the one whose
      number wrapped to zero: the number `commit` returns for nothing, which is never reported saved. */
  lemma ServedIsSaved(w: World, n: nat)
    requires Keeps(w) && w.console.Ready? && w.console.memory.requested != w.console.memory.completed
    requires 0 < n <= w.console.memory.issued && w.console.memory.issued - n < 0x8000_0000
    ensures Poll(TwoPasses(w), n % WRAP) == if n % WRAP == 0 then Failed else Saved
  {
    hide Keeps, TwoPasses;
    PendingIsWritten(w);
    TicketsStand(w);
    AnsweredTicket(w.console.memory.issued, w.console.memory.issued, n);
    CompletedCount(TwoPasses(w));
  }

  lemma TicketsStand(w: World)
    requires w.console.Ready?
    ensures TwoPasses(w).console.Ready? && TwoPasses(w).console.memory.issued == w.console.memory.issued
    ensures TwoPasses(w).console.memory.requested == w.console.memory.requested
  {
  }

  lemma CompletedCount(w: World)
    requires Keeps(w) && w.console.Ready?
    ensures w.console.memory.requested == w.console.memory.issued % WRAP
  {
  }

  /** In every state, whatever happened: the zero ticket fails. */
  lemma ZeroTicketFails(w: World)
    ensures Poll(w, 0) == Failed
  {
  }

  // ---- the two sectors and the state, in place ------------------------------------------------

  datatype Init = Waiting | Absent | Running

  class Saver {
    const slots: array<Sector>
    var hasFile: bool
    var init: Init
    var m: Memory
    ghost var acked: nat
    var edits: seq<Cfg>

    ghost predicate Valid()
      reads this
    {
      slots.Length == 2
    }

    ghost function View(): World
      requires Valid()
      reads this, slots
    {
      World(if hasFile then File(slots[..]) else NoFile,
            match init case Waiting => Off case Absent => Unavailable case Running => Ready(m), acked, edits)
    }

    constructor ()
      ensures Valid() && fresh(slots) && View() == FIRST
    {
      slots := new Sector[2](_ => Torn);
      hasFile, init, m := false, Waiting, BLANK;
      acked, edits := 0, [DEFAULTS];
    }

    /** Mirrors `init` and `loadRecords`. */
    method LoadRecords(calls: Reads)
      requires Valid()
      modifies this
      ensures Valid() && View() == Boot(old(View()), calls)
    {
      if !init.Waiting? {
        return;
      }
      m := BLANK;
      if !calls.mounted {
        init := Absent;
        return;
      }
      if !hasFile {
        m := m.(initialSave := true);
        init := Running;
        return;
      }
      if !calls.found {
        init := Absent;
        return;
      }
      var haveRecord, best: u32, failed := false, 0, false;
      var slot := 0;
      while slot < 2 && !failed
        invariant 0 <= slot <= 2 && hasFile && init.Waiting?
        invariant failed ==> !calls.first || !calls.second
        invariant !failed && slot >= 1 ==> calls.first
        invariant !failed && slot == 2 ==> calls.second
        invariant !failed && slot == 0 ==> !haveRecord && m == BLANK
        invariant !failed && slot == 1 ==>
                  haveRecord == slots[0].Record? && m == Taken(slots[..], if haveRecord then 0 else -1)
        invariant !failed && slot == 2 ==>
                  haveRecord == (Best(slots[..]) >= 0) && m == Taken(slots[..], Best(slots[..]))
        invariant haveRecord && !failed ==> m.active >= 0 && best == slots[m.active].generation
        invariant -1 <= m.active < 2 && (m.active >= 0 ==> slots[m.active].Record?)
        invariant acked == old(acked) && edits == old(edits)
        decreases !failed, 2 - slot
      {
        var ready := if slot == 0 then calls.first else calls.second;
        if !ready {
          failed := true;
        } else {
          var record := slots[slot];
          if record.Record? && (!haveRecord || Newer(record.generation, best)) {
            m := BLANK.(cfg := WithRequired(record.cfg), initialSave := !record.current, active := slot,
                        level := record.level, stamp := record.stamp);
            best, haveRecord := record.generation, true;
          }
          slot := slot + 1;
        }
      }
      if failed || !calls.closed {
        init := Absent;
        return;
      }
      if haveRecord {
        m := m.(generation := best);
      } else {
        m := m.(initialSave := true);
      }
      init := Running;
    }

    /** Mirrors `writeRecordLocked`: the status, or nothing if power went. */
    method WriteRecordLocked(attempt: Attempt) returns (ready: bool)
      requires Valid() && init.Running?
      modifies this`hasFile, this`init, slots
      ensures Valid() && ready == (attempt.Ended? && attempt.writeReady && attempt.closeReady)
      ensures init == if attempt.PowerLost? then Waiting else Running
      ensures View().card == if attempt.Refused? || (attempt.PowerLost? && !attempt.reached) then old(View().card)
                             else AfterWrite(old(View().card), old(m), attempt.effect)
    {
      var target := if m.active == 0 then 1 else 0;
      var record := Record((m.generation + 1) % WRAP, m.cfg, true, m.level + 1, m.stamp);
      ready := false;
      if attempt.Ended? || (attempt.PowerLost? && attempt.reached) {
        if !hasFile {
          slots[0], slots[1] := Torn, Torn;
          hasFile := true;
        }
        assert slots[..] == (if old(hasFile) then old(slots[..]) else [Torn, Torn]);
        match attempt.effect {
          case Untouched =>
          case Spoiled => slots[target] := Torn;
          case Written => slots[target] := record;
        }
        ready := attempt.Ended? && attempt.writeReady && attempt.closeReady;
      }
      if attempt.PowerLost? {
        init := Waiting;
      }
    }

    /** Mirrors `service`. */
    method Service(locked: bool, busy: bool, attempt: Attempt)
      requires Valid()
      modifies this, slots
      ensures Valid() && View() == Pass(old(View()), locked, busy, attempt)
    {
      hide AfterWrite;
      if !init.Running? {
        return;
      }
      if m.requested == m.completed || !locked || busy {
        m := m.(idle := false);
        return;
      }
      if !m.idle {
        m := m.(idle := true);
        return;
      }
      var ready := WriteRecordLocked(attempt);
      if attempt.PowerLost? {
        return;
      }
      if ready {
        m := m.(active := if m.active == 0 then 1 else 0, generation := (m.generation + 1) % WRAP, initialSave := false,
                level := m.level + 1);
      }
      m := m.(idle := false, statusReady := ready, completed := m.requested, served := m.issued);
    }

    /** Mirrors a change made between `lock` and `unlock`. */
    method Change(cfg: Cfg)
      requires Valid()
      modifies this
      ensures Valid() && View() == Edit(old(View()), cfg)
    {
      if init.Running? {
        m := m.(cfg := cfg, stamp := |edits|);
        edits := edits + [cfg];
      }
    }

    /** Mirrors `commit`. */
    method Issue() returns (ticket: u32)
      requires Valid()
      modifies this`m
      ensures Valid() && View() == Commit(old(View())) && ticket == (if init.Running? then m.requested else 0)
    {
      if !init.Running? {
        return 0;
      }
      m := m.(requested := (m.requested + 1) % WRAP, issued := m.issued + 1, commits := m.commits + [m.stamp]);
      return m.requested;
    }
  }

  /** What the loop has taken over from slot `i`, before the generation is set. */
  function Taken(sectors: Pair, i: int): Memory
    requires -1 <= i < 2 && (i >= 0 ==> sectors[i].Record?)
  {
    if i < 0 then BLANK
    else
      var r := sectors[i];
      BLANK.(cfg := WithRequired(r.cfg), initialSave := !r.current, active := i, level := r.level, stamp := r.stamp)
  }
}
