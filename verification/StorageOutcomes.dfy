/** What a call asks for, and what its answer does: every well-formed answer has its effect, once. */
module StorageOutcomes {
  import opened Bytes
  import opened StorageClient
  import opened StorageProtocol

  // ---- answers --------------------------------------------------------------------------------

  /** The client looks at the mailbox and finds its request answered. */
  predicate Answers(w: World, e: Event) { Inv(w) && e.Updated? && !Idle(w.client) && Answered?(w) }

  /** Counts and times no catalog of that kind could pass. */
  predicate InBounds(r: Response, imported: bool) {
    r.count <= (if imported then 12 else 45) && r.total <= (if imported then 1294704 else 4315684)
  }

  /** A success whose answer carries `size` bytes. */
  predicate Success(r: Response, p: Pending, size: u32) {
    r.ok && r.ready && r.size == size && InBounds(r, p.profile == IMPORTED)
  }

  /** The request is over and the client may ask again; the request line and the window are as they were. */
  predicate Over(w: World, after: World, ready: bool) {
    && Idle(after.client) && after.client.available == ready && after.client.sequence == w.client.sequence
    && after.request == w.request && after.payload == w.payload && after.response == w.response
  }

  /** What the answer finds: the profile observed, a target no longer pinned forgotten, a given-up observation
      made stale. */
  function Found(w: World, e: Event): Client
    requires e.Updated?
  {
    GiveUp(ObserveLoaded(ObserveProfile(w.client, e.active).0, e.pinned), e.preparing)
  }

  lemma UpdateAnswers(w: World, e: Event)
    requires Answers(w, e)
    ensures var (after, acts) := Update(w, e);
            var around := Around(e.pinned, e.accepts, e.rows, e.tailZero, w.payload);
            var (done, more) := Complete(Found(w, e), w.response, around);
            && after.client == done && acts == ObserveProfile(w.client, e.active).1 + more
            && after.request == w.request && after.payload == w.payload && after.response == w.response
            && Found(w, e).pending == w.client.pending && Found(w, e).profile == e.active
            && w.response.magic && !w.response.busy && w.response.profile == w.client.pending.profile
            && done.sequence == w.client.sequence && Idle(done)
  {
    hide Complete, EpochName, Update, ObserveProfile, Found;
    FoundAlike(w, e);
    FoundProfile(w, e);
    UpdatePolls(w, e);
    CompleteFrees(Found(w, e), w.response, Around(e.pinned, e.accepts, e.rows, e.tailZero, w.payload));
  }

  lemma FoundProfile(w: World, e: Event)
    requires e.Updated?
    ensures Found(w, e).profile == e.active && Found(w, e).sequence == w.client.sequence
  {
  }

  /** A save answered well is released to the recorder, once, and the catalog is asked for anew. */
  lemma SaveReleases(w: World, e: Event)
    requires Answers(w, e) && w.client.pending.command.Save? && Success(w.response, w.client.pending, 0)
    ensures var (after, acts) := Update(w, e);
            && acts == [SaveReleased(w.client.pending.token, w.client.pending.duration)] && Over(w, after, true)
            && after.client.catalog == NO_CATALOG && after.client.refreshQueued
  {
    hide Inv, Update, Found, Answered?;
    UpdateAnswers(w, e);
  }

  /** A load whose file is still the one asked for: no epoch change, no profile change, no newer file. */
  predicate StillWanted(w: World, e: Event)
    requires e.Updated?
  {
    var p := w.client.pending;
    && p.epoch == w.client.epoch && (p.destination.Race? || e.preparing)
    && (p.profile == IMPORTED || (p.profile == e.active && (p.expected == 0 || w.response.generation == p.expected)))
  }

  /** A load answered well is installed, once, with the bytes in the window; an accepted race target is named as
      loaded, and an observation that is not accepted is stopped. */
  lemma LoadInstalls(w: World, e: Event)
    requires Answers(w, e) && w.client.pending.command.Load? && StillWanted(w, e)
    requires 0x100 <= w.response.size <= 0x69EE0 && Success(w.response, w.client.pending, w.response.size)
    ensures var (after, acts) := Update(w, e);
            var p := w.client.pending;
            && acts == (if !p.destination.Race? && e.active != w.client.profile then [ObserverStopped] else [])
                       + [Installed(p.destination, w.payload, e.accepts)]
                       + (if !p.destination.Race? && !e.accepts then [ObserverStopped] else [])
            && Over(w, after, true)
            && (p.destination.Race? && e.accepts ==>
                  after.client.loadedSlot == p.slot && after.client.loadedProfile == p.profile % 0x100)
  {
    hide Inv, Update, Answered?;
    UpdateAnswers(w, e);
  }

  /** A load no longer wanted installs nothing. */
  lemma StaleLoadIgnored(w: World, e: Event)
    requires Answers(w, e) && w.client.pending.command.Load? && !StillWanted(w, e)
    requires 0x100 <= w.response.size <= 0x69EE0 && Success(w.response, w.client.pending, w.response.size)
    ensures NoActs(Update(w, e).1) && Over(w, Update(w, e).0, true)
    ensures w.client.pending.destination.Race? ==> Update(w, e).1 == []
  {
    hide Inv, Update, Answered?;
    UpdateAnswers(w, e);
  }

  /** The rows an answer brings are the ones it counts: as many present, as long in all, within the limit. */
  predicate Agrees(r: Response, e: Event, imported: bool)
    requires e.Updated?
  {
    && r.count == Present(e.rows) && r.total == Duration(e.rows)
    && (imported || (e.tailZero && r.generation == 0))
  }

  /** A list or a scan answered well leaves the rows as the catalog exactly when they agree with the answer, and
      no catalog otherwise; a personal one for another profile is asked for again. */
  lemma ListAdopts(w: World, e: Event)
    requires Answers(w, e) && (w.client.pending.command.List? || w.client.pending.command.ImportScan?)
    requires Success(w.response, w.client.pending, if w.client.pending.profile == IMPORTED then 1536 else 6144)
    ensures var (after, acts) := Update(w, e);
            var p, r := w.client.pending, w.response;
            && NoActs(acts) && Over(w, after, true)
            && (p.profile == IMPORTED ==>
                  after.client.imported == if Agrees(r, e, true) then Catalog(true, e.rows, r.total, r.generation)
                                           else NO_CATALOG)
            && (p.profile != IMPORTED && p.profile == e.active ==>
                  after.client.catalog == if Agrees(r, e, false) then Catalog(true, e.rows, r.total, 0) else NO_CATALOG)
            && (p.profile != IMPORTED && p.profile != e.active ==> after.client.refreshQueued)
  {
    hide Inv, Update, Answered?, Present, Duration;
    UpdateAnswers(w, e);
  }

  /** A removal answered well forgets the removed file if it was the one loaded, and takes a ghost still pinned
      from it off the course; the list it was in is asked for anew. */
  lemma RemovalForgets(w: World, e: Event)
    requires Answers(w, e) && w.client.pending.command.Delete? && Success(w.response, w.client.pending, 0)
    ensures var (after, acts) := Update(w, e);
            var p := w.client.pending;
            var loaded := p.profile == w.client.loadedProfile && p.slot == w.client.loadedSlot;
            && acts == (if loaded && e.pinned then [PlaybackCleared] else []) && Over(w, after, true)
            && (loaded ==> after.client.loadedSlot == -1 && after.client.loadedProfile == NO_PROFILE)
            && (p.profile == IMPORTED ==> after.client.imported == NO_CATALOG && after.client.importedQueued)
            && (p.profile != IMPORTED ==> after.client.catalog == NO_CATALOG && after.client.refreshQueued)
  {
    hide Inv, Update, Answered?;
    UpdateAnswers(w, e);
  }

  /** An export answered well asks for the catalog anew. */
  lemma ExportRefreshes(w: World, e: Event)
    requires Answers(w, e) && w.client.pending.command.Export? && Success(w.response, w.client.pending, 0)
    ensures var (after, acts) := Update(w, e);
            acts == [] && Over(w, after, true) && after.client.catalog == NO_CATALOG && after.client.refreshQueued
  {
    hide Inv, Update, Answered?;
    UpdateAnswers(w, e);
  }

  /** A failure releases and installs nothing and stops a pending observation; unless it was a list, the list in
      question is asked for anew if the responder is ready. */
  lemma FailureDoesNothing(w: World, e: Event)
    requires Answers(w, e) && !w.response.ok && w.response.size == 0
    requires InBounds(w.response, w.client.pending.profile == IMPORTED)
    ensures var (after, acts) := Update(w, e);
            var p := w.client.pending;
            && NoActs(acts) && Over(w, after, w.response.ready)
            && (p.command.Load? && !p.destination.Race? ==> acts != [] && acts[|acts| - 1] == ObserverStopped)
            && (!p.command.List? && p.profile == IMPORTED ==>
                  after.client.imported == NO_CATALOG && after.client.importedQueued == w.response.ready)
            && (!p.command.List? && p.profile != IMPORTED ==>
                  after.client.catalog == NO_CATALOG && after.client.refreshQueued == w.response.ready)
  {
    hide Inv, Update, Answered?;
    UpdateAnswers(w, e);
  }

  /** The answer could not have come from a responder that keeps to the protocol. */
  predicate Malformed(r: Response, p: Pending) {
    || !InBounds(r, p.profile == IMPORTED) || (r.ok && !r.ready)
    || r.size != (if !r.ok then 0
                  else match p.command
                       case List => if p.profile == IMPORTED then 1536 else 6144
                       case ImportScan => if p.profile == IMPORTED then 1536 else 6144
                       case Load => if 0x100 <= r.size <= 0x69EE0 then r.size else 0
                       case _ => 0)
  }

  /** It has no effect either, and the client hears nobody from then on. */
  lemma MalformedDeafens(w: World, e: Event)
    requires Answers(w, e) && Malformed(w.response, w.client.pending)
    ensures NoActs(Update(w, e).1) && Over(w, Update(w, e).0, false)
  {
    hide Inv, Update, Answered?;
    UpdateAnswers(w, e);
  }

  // ---- calls ----------------------------------------------------------------------------------

  /** The client may ask, and its list has that row. */
  predicate MayAsk(c: Client, active: byte, profile: u16, slot: u16) {
    && c.available && Idle(c) && (profile == IMPORTED || active == c.profile)
    && var rows := if profile == IMPORTED then c.imported else c.catalog;
       rows.ready && slot < |rows.rows| && slot < (if profile == IMPORTED then 12 else 45)
  }

  function RowAt(c: Client, profile: u16, slot: u16): Row
    requires slot < |(if profile == IMPORTED then c.imported else c.catalog).rows|
  {
    if profile == IMPORTED then c.imported.rows[slot] else c.catalog.rows[slot]
  }

  /** Exactly this is asked, under the next number. */
  predicate AsksFor(w: World, after: World, command: Command, profile: u16, slot: u16, size: u32) {
    var n := if w.client.sequence == 0xFFFF_FFFF then 1 else w.client.sequence + 1;
    var p := after.client.pending;
    && after.request == Request(command, n, profile, slot, size) && after.client.sequence == n
    && p.command == command && p.sequence == n && p.profile == profile && p.slot == slot && p.epoch == w.client.epoch
    && (!command.Save? ==> p.token == 0 && p.duration == 0)
  }

  /** Nothing is asked. */
  predicate AsksNothing(w: World, after: World) {
    after.request == w.request && after.client.pending == w.client.pending && after.client.sequence == w.client.sequence
  }

  /** A save asks for an empty slot with the exported file in the window, or asks for nothing. */
  lemma SaveAsks(w: World, slot: u16, made: ExportResult, active: byte, pinned: bool)
    ensures var (after, acts) := StorageProtocol.Invoke(w, SaveTo(slot, made), active, pinned);
            var c := w.client;
            if MayAsk(c, active, active, slot) && !RowAt(c, active, slot).present && !RowAt(c, active, slot).unsafe
            then
              if made.Exported? && 0x100 <= |made.bytes| <= 0x69EE0
              then
                && AsksFor(w, after, Save, active, slot, |made.bytes|) && after.payload == made.bytes
                && after.client.pending.token == made.token && after.client.pending.duration == made.duration
              else AsksNothing(w, after)
            else AsksNothing(w, after) && after.payload == w.payload
  {
  }

  /** A load asks for a file that is there and safe, remembering where it goes and which one it is. */
  lemma LoadAsks(w: World, profile: u16, slot: u16, destination: Destination, active: byte, pinned: bool)
    requires profile == active || profile == IMPORTED
    ensures var after := StorageProtocol.Invoke(w, LoadFrom(profile, slot, destination), active, pinned).0;
            var c := w.client;
            && after.payload == w.payload
            && if MayAsk(c, active, profile, slot) && RowAt(c, profile, slot).present && !RowAt(c, profile, slot).unsafe
               then
                 && AsksFor(w, after, Load, profile, slot, 0) && after.client.pending.destination == destination
                 && after.client.pending.expected == if profile == IMPORTED then 0
                                                     else RowAt(c, profile, slot).generation
               else AsksNothing(w, after)
  {
  }

  /** A removal asks for a file that is there, and safe unless it is an imported one. */
  lemma RemovalAsks(w: World, profile: u16, slot: u16, active: byte, pinned: bool)
    requires profile == active || profile == IMPORTED
    ensures var after := StorageProtocol.Invoke(w, Remove(profile, slot), active, pinned).0;
            var c := w.client;
            && after.payload == w.payload
            && if MayAsk(c, active, profile, slot) && RowAt(c, profile, slot).present &&
                  (profile == IMPORTED || !RowAt(c, profile, slot).unsafe)
               then AsksFor(w, after, Delete, profile, slot, 0)
               else AsksNothing(w, after)
  {
  }

  /** A refresh or a scan asks whenever the client may; an idle client starts the refreshes that are queued, the
      personal one first. */
  lemma RefreshAsks(w: World, e: Event)
    requires e.Updated? && Idle(w.client) && w.client.available
    ensures var after := Update(w, e).0;
            if w.client.refreshQueued || e.active != w.client.profile then AsksFor(w, after, List, e.active, 0, 0)
            else if w.client.importedQueued then AsksFor(w, after, List, IMPORTED, 0, 0)
            else AsksNothing(w, after)
  {
  }

  // ---- while there is no answer ---------------------------------------------------------------

  /** An unanswered request stays pending and does nothing, but that after thirty seconds, once, a pending
      observation is stopped. */
  lemma UnansweredWaits(w: World, e: Event)
    requires e.Updated? && !Idle(w.client) && !Answered?(w)
    ensures var (after, acts) := Update(w, e);
            var watching := w.client.pending.command.Load? && !w.client.pending.destination.Race?;
            && after.client.pending == w.client.pending && after.request == w.request && after.payload == w.payload
            && acts == (if watching && e.active != w.client.profile then [ObserverStopped] else [])
                       + (if watching && !w.client.timedOut && w.client.waitFrames >= 1800 then [ObserverStopped]
                          else [])
            && (w.client.waitFrames < 0xFFFF_FFFF ==> after.client.waitFrames == w.client.waitFrames + 1)
            && (after.client.timedOut <==> w.client.timedOut || w.client.waitFrames >= 1800)
  {
    hide Update, Found, PollResponse, ObserveProfile;
    FoundAlike(w, e);
    UpdatePolls(w, e);
    PollWaits(Found(w, e), w.response, Around(e.pinned, e.accepts, e.rows, e.tailZero, w.payload));
  }

  lemma FoundAlike(w: World, e: Event)
    requires e.Updated?
    ensures var c := Found(w, e);
            c.pending == w.client.pending && c.timedOut == w.client.timedOut && c.waitFrames == w.client.waitFrames
    ensures ObserveProfile(w.client, e.active).1
            == if Watching(w.client.pending) && e.active != w.client.profile then [ObserverStopped] else []
  {
  }

  lemma UpdatePolls(w: World, e: Event)
    requires e.Updated? && !Idle(w.client)
    ensures var (after, acts) := Update(w, e);
            var around := Around(e.pinned, e.accepts, e.rows, e.tailZero, w.payload);
            && after.client == PollResponse(Found(w, e), w.response, around).0
            && acts == ObserveProfile(w.client, e.active).1 + PollResponse(Found(w, e), w.response, around).1
            && after.request == w.request && after.payload == w.payload && after.response == w.response
  {
    hide PollResponse;
  }

  lemma PollWaits(c: Client, r: Response, a: Around)
    requires r.ack != c.pending.sequence
    ensures var (done, acts) := PollResponse(c, r, a);
            && done.pending == c.pending
            && acts == (if Watching(c.pending) && !c.timedOut && c.waitFrames >= 1800 then [ObserverStopped] else [])
            && (c.waitFrames < 0xFFFF_FFFF ==> done.waitFrames == c.waitFrames + 1)
            && (done.timedOut <==> c.timedOut || c.waitFrames >= 1800)
  {
    hide Complete;
  }
}
