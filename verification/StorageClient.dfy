/** The client side of the ghost storage mailbox: one request at a time, answered by sequence number. */
module StorageClient {
  import opened Bytes

  const IMPORTED := 4
  const PERSONAL_SLOTS := 45
  const PERSONAL_ROWS := 48
  const IMPORTED_SLOTS := 12
  const PERSONAL_LIMIT := 4315684
  const IMPORTED_LIMIT := 12 * 107892
  const ROW_SIZE := 128
  const FILE_HEADER := 0x100
  const FILE_LIMIT := 0x69EE0
  const TIMEOUT_FRAMES := 30 * 60
  const NO_PROFILE := 0xFF

  datatype Command = NoCommand | Save | Load | Delete | List | Export | ImportScan

  datatype Destination = Race | Primary | Secondary

  datatype Request = Request(command: Command, number: u32, profile: u16, slot: u16, size: u32)

  datatype Response = Response(magic: bool, ack: u32, ready: bool, busy: bool, ok: bool, size: u32, generation: u32,
                               total: u32, count: u16, profile: u16)

  // ---- catalogs -------------------------------------------------------------------------------

  /** A catalog row after checking; a row that fails is unsafe and counts no time. */
  datatype Row = Row(present: bool, unsafe: bool, generation: u32, duration: u32)

  datatype Catalog = Catalog(ready: bool, rows: seq<Row>, total: u32, overflow: u32)

  const NO_CATALOG := Catalog(false, [], 0, 0)

  function Present(rows: seq<Row>): nat {
    if rows == [] then 0 else Present(rows[..|rows| - 1]) + if rows[|rows| - 1].present then 1 else 0
  }

  function Duration(rows: seq<Row>): nat {
    if rows == [] then 0
    else
      var last := rows[|rows| - 1];
      Duration(rows[..|rows| - 1]) + if last.present then last.duration as nat else 0
  }

  function Limit(imported: bool): u32 { if imported then IMPORTED_LIMIT else PERSONAL_LIMIT }

  function CatalogBytes(imported: bool): u32 { ROW_SIZE * if imported then IMPORTED_SLOTS else PERSONAL_ROWS }

  /** What a catalog response must say about the rows it brings. */
  predicate CatalogOk(r: Response, rows: seq<Row>, tailZero: bool) {
    var imported := r.profile == IMPORTED;
    && Duration(rows) <= Limit(imported) && r.size == CatalogBytes(imported)
    && r.count == Present(rows) && r.total == Duration(rows)
    && (imported || (tailZero && r.generation == 0))
  }

  lemma {:induction false} DurationGrows(rows: seq<Row>, i: nat)
    requires i <= |rows|
    ensures Duration(rows[..i]) <= Duration(rows) && Present(rows[..i]) <= Present(rows) <= |rows|
    decreases |rows|
  {
    if i < |rows| {
      var front := rows[..|rows| - 1];
      DurationGrows(front, i);
      assert front[..i] == rows[..i];
    } else {
      assert rows[..i] == rows;
      if i > 0 {
        DurationGrows(rows[..i - 1], i - 1);
      }
    }
  }

  /** Mirrors the sum in `adoptCatalog`: the guard subtracts first, so the running total never passes the limit. */
  method SumCatalog(r: Response, rows: seq<Row>, tailZero: bool) returns (ok: bool)
    requires |rows| <= PERSONAL_SLOTS
    ensures ok == CatalogOk(r, rows, tailZero)
  {
    var imported := r.profile == IMPORTED;
    var limit := Limit(imported);
    var duration: u32, count: u16 := 0, 0;
    for i := 0 to |rows|
      invariant duration == Duration(rows[..i]) <= limit && count == Present(rows[..i]) <= i
    {
      DurationGrows(rows, i + 1);
      assert rows[..i + 1][..i] == rows[..i];
      if rows[i].present {
        if rows[i].duration > limit - duration {
          return false;
        }
        duration := duration + rows[i].duration;
        count := count + 1;
      }
    }
    assert rows[..|rows|] == rows;
    return (imported || tailZero) && r.size == CatalogBytes(imported) && r.count == count && r.total == duration &&
           (imported || r.generation == 0);
  }

  // ---- the client's state ---------------------------------------------------------------------

  datatype Pending = Pending(command: Command, sequence: u32, token: u32, duration: u32, profile: u16, slot: u16,
                             expected: u32, epoch: u32, destination: Destination)

  datatype Client = Client(sequence: u32, pending: Pending, waitFrames: u32, timedOut: bool, epoch: u32, profile: byte,
                           available: bool, catalog: Catalog, imported: Catalog, refreshQueued: bool,
                           importedQueued: bool, loadedSlot: int, loadedProfile: byte)

  /** What the client does to the recorder. */
  datatype Effect = ObserverStopped | PlaybackCleared | SaveReleased(token: u32, duration: u32)
                  | Installed(destination: Destination, bytes: seq<byte>, accepted: bool)

  predicate Idle(c: Client) { c.pending.command.NoCommand? }

  /** The next sequence or epoch number; zero is skipped. */
  function Next(n: u32): (r: u32)
    ensures r != 0 && r != n
  {
    if n == 0xFFFF_FFFF then 1 else n + 1
  }

  predicate Watching(p: Pending) { p.command.Load? && !p.destination.Race? }

  function ObserveProfile(c: Client, active: byte): (Client, seq<Effect>) {
    if active == c.profile then (c, [])
    else (c.(profile := active, catalog := NO_CATALOG, refreshQueued := c.available),
          if Watching(c.pending) then [ObserverStopped] else [])
  }

  function ObserveLoaded(c: Client, pinned: bool): Client {
    if c.loadedSlot < 0 || pinned then c else c.(loadedSlot := -1, loadedProfile := NO_PROFILE)
  }

  function Detach(c: Client): Client {
    if c.loadedProfile != IMPORTED then c else c.(loadedSlot := -1, loadedProfile := NO_PROFILE)
  }

  function QueueRefresh(c: Client): Client { c.(catalog := NO_CATALOG, refreshQueued := c.available) }

  function QueueNamespace(c: Client, profile: u16): Client {
    if profile == IMPORTED then c.(imported := NO_CATALOG, importedQueued := c.available) else QueueRefresh(c)
  }

  function ClearNamespace(c: Client, profile: u16): Client {
    if profile == IMPORTED then c.(imported := NO_CATALOG) else c.(catalog := NO_CATALOG)
  }

  // ---- starting requests ----------------------------------------------------------------------

  /** Mirrors `beginRequest`: the client's half, and the request line. */
  function Begin(c: Client, command: Command, profile: u16, slot: u16, size: u32, token: u32, duration: u32)
    : (Client, Request)
  {
    var sequence := Next(c.sequence);
    (c.(sequence := sequence, waitFrames := 0, timedOut := false,
        pending := c.pending.(command := command, sequence := sequence, token := if command.Save? then token else 0,
                              duration := if command.Save? then duration else 0, profile := profile, slot := slot,
                              epoch := c.epoch)),
     Request(command, sequence, profile, slot, size))
  }

  function CatalogFor(c: Client, profile: u16): Catalog { if profile == IMPORTED then c.imported else c.catalog }

  /** Mirrors `requestAllowed` once the profile has been observed. */
  predicate Allowed(c: Client, profile: u16, slot: int, wantPresent: bool, allowUnsafe: bool) {
    var catalog := CatalogFor(c, profile);
    && c.available && Idle(c) && 0 <= slot < (if profile == IMPORTED then IMPORTED_SLOTS else PERSONAL_SLOTS)
    && catalog.ready && slot < |catalog.rows|
    && (!catalog.rows[slot].unsafe || allowUnsafe) && catalog.rows[slot].present == wantPresent
  }

  // ---- completing requests --------------------------------------------------------------------

  /** Mirrors `responseShapeIsValid`. */
  predicate ShapeOk(r: Response, p: Pending) {
    var imported := p.profile == IMPORTED;
    && r.profile == p.profile && !r.busy && r.count <= (if imported then IMPORTED_SLOTS else PERSONAL_SLOTS)
    && r.total <= Limit(imported) && (r.ok ==> r.ready)
    && (if !r.ok then r.size == 0
        else match p.command
             case List => r.size == CatalogBytes(imported)
             case ImportScan => r.size == CatalogBytes(imported)
             case Load => FILE_HEADER <= r.size <= FILE_LIMIT
             case _ => r.size == 0)
  }

  /** What the completion sees around it: the pin, whether an import accepts the bytes, and the catalog
      rows in the payload. */
  datatype Around = Around(pinned: bool, accepts: bool, rows: seq<Row>, tailZero: bool, payload: seq<byte>)

  const NOTHING_PENDING := Pending(NoCommand, 0, 0, 0, 0, 0, 0, 0, Race)

  function Freed(c: Client, ready: bool): Client {
    c.(pending := c.pending.(command := NoCommand, token := 0, duration := 0, expected := 0, destination := Race),
       waitFrames := 0, timedOut := false, available := ready)
  }

  /** A LOAD's answer is ignored if a savestate, a profile change or a newer file came between. */
  predicate LoadCurrent(c: Client, p: Pending, r: Response) {
    && p.epoch == c.epoch && (p.profile == IMPORTED || p.profile == c.profile)
    && (p.profile == IMPORTED || p.expected == 0 || r.generation == p.expected)
  }

  function Adopt(c: Client, r: Response, a: Around): Client {
    if r.profile == IMPORTED then
      var cleared := Detach(c).(imported := NO_CATALOG);
      if CatalogOk(r, a.rows, a.tailZero) then cleared.(imported := Catalog(true, a.rows, r.total, r.generation))
      else cleared
    else
      var cleared := c.(catalog := NO_CATALOG);
      if CatalogOk(r, a.rows, a.tailZero) then cleared.(catalog := Catalog(true, a.rows, r.total, 0)) else cleared
  }

  function StopIf(watching: bool): seq<Effect> { if watching then [ObserverStopped] else [] }

  /** Mirrors `completeRequest`. */
  function Complete(c: Client, r: Response, a: Around): (Client, seq<Effect>) {
    var p, freed := c.pending, Freed(c, r.ready);
    if !ShapeOk(r, p) then
      var broken := freed.(available := false);
      (if p.command.List? then broken else ClearNamespace(broken, p.profile), StopIf(Watching(p)))
    else if !r.ok then
      (if p.command.List? then freed else QueueNamespace(freed, p.profile), StopIf(Watching(p)))
    else Finished(freed, r, p, a)
  }

  /** The answer to a request that succeeded. */
  function Finished(c: Client, r: Response, p: Pending, a: Around): (Client, seq<Effect>) {
    match p.command
    case List => (Catalogued(c, r, p, a), [])
    case ImportScan => (Catalogued(c, r, p, a), [])
    case Save => (QueueRefresh(c), [SaveReleased(p.token, p.duration)])
    case Delete =>
      if p.profile == c.loadedProfile && p.slot == c.loadedSlot then
        (QueueNamespace(c.(loadedSlot := -1, loadedProfile := NO_PROFILE), p.profile),
         if a.pinned then [PlaybackCleared] else [])
      else (QueueNamespace(c, p.profile), [])
    case Export => (QueueRefresh(c), [])
    case Load => CompleteLoad(c, r, p, a)
    case NoCommand => (c, [])
  }

  function Catalogued(c: Client, r: Response, p: Pending, a: Around): Client {
    if p.profile != IMPORTED && p.profile != c.profile then c.(refreshQueued := c.available) else Adopt(c, r, a)
  }

  function CompleteLoad(c: Client, r: Response, p: Pending, a: Around): (Client, seq<Effect>) {
    if !LoadCurrent(c, p, r) then (QueueNamespace(c, p.profile), StopIf(Watching(p)))
    else
      var install := Installed(p.destination, a.payload, a.accepts);
      if !a.accepts then (QueueNamespace(c, p.profile), [install] + StopIf(Watching(p)))
      else if Watching(p) then (c, [install])
      else
        var named := c.(loadedProfile := p.profile % 0x100, loadedSlot := p.slot as int);
        (if p.profile == IMPORTED then named else QueueRefresh(named), [install])
  }

  /** Mirrors `pollResponse`: only the answer to the pending sequence completes it; a timeout only waits on. */
  function PollResponse(c: Client, r: Response, a: Around): (Client, seq<Effect>) {
    if r.magic && r.ack == c.pending.sequence then Complete(c, r, a)
    else
      var waited := c.(waitFrames := if c.waitFrames == 0xFFFF_FFFF then c.waitFrames else c.waitFrames + 1);
      if !waited.timedOut && waited.waitFrames > TIMEOUT_FRAMES
          then (waited.(timedOut := true), StopIf(Watching(c.pending)))
      else (waited, [])
  }

  // ---- calls ----------------------------------------------------------------------------------

  /** A client call's result: the new state, and the request line and payload it wrote, if any. */
  datatype Sent = Quiet(client: Client) | Asked(client: Client, request: Request, effects: seq<Effect>)

  function Simple(c: Client, command: Command, profile: u16, slot: u16): Sent {
    var begun := Begin(c, command, profile, slot, 0, 0, 0);
    Asked(begun.0, begun.1, [])
  }

  function BeginRefresh(c: Client): Sent {
    if !c.available || !Idle(c) then Quiet(c) else Simple(c.(catalog := NO_CATALOG), List, c.profile, 0)
  }

  function BeginImportedRefresh(c: Client, command: Command): Sent {
    if !c.available || !Idle(c) then Quiet(c)
    else
      var cleared := c.(imported := NO_CATALOG);
      Simple(if command.ImportScan? then Detach(cleared) else cleared, command, IMPORTED, 0)
  }

  /** Mirrors `load`, `loadObserver` and their imported forms, once the profile has been observed. */
  function LoadSlot(c: Client, profile: u16, slot: u16, destination: Destination): Sent {
    if !Allowed(c, profile, slot, true, false) then Quiet(c)
    else
      var begun := Begin(c.(pending := c.pending.(destination := destination)), Load, profile, slot, 0, 0, 0);
      var expected := if profile == IMPORTED then 0 else c.catalog.rows[slot].generation;
      Asked(begun.0.(pending := begun.0.pending.(expected := expected)), begun.1, [])
  }

  /** What the exporter made of the payload window: a file; nothing, refused before it wrote; or zeros over
      a file that failed its own check. */
  datatype ExportResult = Exported(bytes: seq<byte>, token: u32, duration: u32) | Refused | Cleared(size: nat)

  function Window(made: ExportResult, payload: seq<byte>): seq<byte> {
    match made
    case Exported(bytes, _, _) => bytes
    case Refused => payload
    case Cleared(size) => Zeros(size)
  }

  /** Mirrors `save`. */
  function SaveSlot(c: Client, slot: u16, made: ExportResult): Sent {
    if !Allowed(c, c.profile, slot, false, false) || !made.Exported? ||
        !(FILE_HEADER <= |made.bytes| <= FILE_LIMIT) then
      Quiet(c)
    else
      var begun := Begin(c, Save, c.profile, slot, |made.bytes|, made.token, made.duration);
      Asked(begun.0, begun.1, [])
  }

  /** Removing an imported row renumbers the later ones, so the loaded association goes at once. */
  function RemoveSlot(c: Client, profile: u16, slot: u16, pinned: bool): Sent {
    if !Allowed(c, profile, slot, true, profile == IMPORTED) then Quiet(c)
    else
      var sent := Simple(c, Delete, profile, slot);
      if profile != IMPORTED then sent
      else sent.(client := Detach(sent.client),
                 effects := if c.loadedProfile == IMPORTED && c.loadedSlot == slot && pinned then [PlaybackCleared]
                            else [])
  }

  function ExportSlot(c: Client, slot: u16): Sent {
    if !Allowed(c, c.profile, slot, true, false) then Quiet(c) else Simple(c, Export, c.profile, slot)
  }

  /** Mirrors `onSavestateLoaded`. */
  function SavestateLoaded(c: Client, pinned: bool): (Client, seq<Effect>) {
    (ObserveLoaded(c.(epoch := Next(c.epoch)), pinned), StopIf(Watching(c.pending)))
  }

  /** The idle half of `update`: start a queued refresh. */
  function StartQueued(c: Client): Sent {
    if c.refreshQueued then BeginRefresh(c.(refreshQueued := false))
    else if c.importedQueued then BeginImportedRefresh(c.(importedQueued := false), List)
    else Quiet(c)
  }

  /** An observation given up while its load is outstanding makes the load stale. */
  function GiveUp(c: Client, preparing: bool): Client {
    if Watching(c.pending) && !preparing && c.pending.epoch == c.epoch then c.(epoch := Next(c.epoch)) else c
  }

  /** Mirrors `init`: adopt the sequence a resting responder stopped at. */
  function Initial(r: Response, active: byte): Client {
    var heard := r.magic && !r.busy;
    Client(if heard then r.ack else 0, NOTHING_PENDING, 0, false, 1, active, heard && r.ready, NO_CATALOG, NO_CATALOG,
           heard && r.ready, heard && r.ready, -1, NO_PROFILE)
  }
}
