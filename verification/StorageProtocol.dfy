/** The mailbox shared with a responder that may take arbitrarily long: what every interleaving keeps. */
module StorageProtocol {
  import opened Bytes
  import opened StorageClient

  /** The responder works on a copy of one request at a time. */
  datatype Responder = Resting | Working(request: Request)

  /** `exported` is history: the payload the pending save wrote; `answer` the payload its answer left.
      `epochs` counts epoch changes, `since` those before the pending request. */
  datatype World = World(client: Client, request: Request, response: Response, payload: seq<byte>, responder: Responder,
                         exported: seq<byte>, answer: seq<byte>, epochs: nat, since: nat)

  // ---- steps ----------------------------------------------------------------------------------

  datatype Call =
    | Refresh | RefreshImported | ScanImports
    | SaveTo(slot: u16, made: ExportResult)
    | LoadFrom(profile: u16, slot: u16, destination: Destination)
    | Remove(profile: u16, slot: u16)
    | ExportTo(slot: u16)

  datatype Event =
    | Called(call: Call, active: byte, pinned: bool)
    | Updated(active: byte, pinned: bool, preparing: bool, accepts: bool, rows: seq<Row>, tailZero: bool)
    | Restored(pinned: bool)
    | PickedUp
    | PayloadWritten(bytes: seq<byte>)
    | Answered(ready: bool, ok: bool, size: u32, generation: u32, total: u32, count: u16)

  /** What the client is asked to do, after it has observed the active profile. */
  function Asks(c: Client, call: Call, pinned: bool): Sent {
    match call
    case Refresh => BeginRefresh(if c.available && Idle(c) then c.(refreshQueued := false) else c)
    case RefreshImported => BeginImportedRefresh(if c.available && Idle(c) then c.(importedQueued := false) else c,
                                                 List)
    case ScanImports => BeginImportedRefresh(if c.available && Idle(c) then c.(importedQueued := false) else c,
                                             ImportScan)
    case SaveTo(slot, made) => SaveSlot(c, slot, made)
    case LoadFrom(profile, slot, destination) => LoadSlot(c, profile, slot, destination)
    case Remove(profile, slot) => RemoveSlot(c, profile, slot, pinned)
    case ExportTo(slot) => ExportSlot(c, slot)
  }

  /** The payload a save attempt leaves: the exporter works on the window as soon as the request is allowed. */
  function PayloadAfter(c: Client, call: Call, payload: seq<byte>): seq<byte> {
    if call.SaveTo? && Allowed(c, c.profile, call.slot, false, false) then Window(call.made, payload) else payload
  }

  function Deliver(w: World, sent: Sent, payload: seq<byte>): (World, seq<Effect>) {
    match sent
    case Quiet(client) => (w.(client := client, payload := payload), [])
    case Asked(client, request, effects) =>
      (w.(client := client, request := request, payload := payload, since := w.epochs,
          exported := if request.command.Save? then payload else w.exported), effects)
  }

  function Invoke(w: World, call: Call, active: byte, pinned: bool): (World, seq<Effect>) {
    var (seen, first) := ObserveProfile(w.client, active);
    var (done, effects) := Deliver(w.(client := seen), Asks(seen, call, pinned), PayloadAfter(seen, call, w.payload));
    (done, first + effects)
  }

  /** Mirrors `update`. */
  function Update(w: World, e: Event): (World, seq<Effect>)
    requires e.Updated?
  {
    var (seen, first) := ObserveProfile(w.client, e.active);
    var loaded := ObserveLoaded(seen, e.pinned);
    if Idle(loaded) then
      var (done, effects) := Deliver(w.(client := loaded), StartQueued(loaded), w.payload);
      (done, first + effects)
    else
      var given := GiveUp(loaded, e.preparing);
      var (done, effects) := PollResponse(given, w.response,
                                          Around(e.pinned, e.accepts, e.rows, e.tailZero, w.payload));
      (w.(client := done, epochs := if given.epoch == loaded.epoch then w.epochs else w.epochs + 1), first + effects)
  }

  /** A responder may touch the payload only while it works, and never that of a save. */
  predicate Possible(w: World, e: Event) {
    match e
    case PickedUp => w.responder.Resting? && w.request.number != w.response.ack
    case PayloadWritten(_) => w.responder.Working? && !w.responder.request.command.Save?
    case Answered(_, _, _, _, _, _) => w.responder.Working?
    case _ => true
  }

  function Step(w: World, e: Event): (World, seq<Effect>)
    requires Possible(w, e)
  {
    match e
    case Called(call, active, pinned) => Invoke(w, call, active, pinned)
    case Updated(_, _, _, _, _, _) => Update(w, e)
    case Restored(pinned) =>
      var (client, effects) := SavestateLoaded(w.client, pinned);
      (w.(client := client, epochs := w.epochs + 1), effects)
    case PickedUp => (w.(responder := Working(w.request), response := w.response.(busy := true, ok := true, size := 0)),
                      [])
    case PayloadWritten(bytes) => (w.(payload := bytes), [])
    case Answered(ready, ok, size, generation, total, count) =>
      (w.(responder := Resting, answer := w.payload,
          response := Response(true, w.responder.request.number, ready, false, ok, size, generation, total, count,
                               w.responder.request.profile)), [])
  }

  // ---- the invariant --------------------------------------------------------------------------

  predicate Answered?(w: World) { w.response.ack == w.client.pending.sequence }

  predicate AnswerStands(w: World) {
    && w.responder.Resting? && w.response.magic && w.response.profile == w.client.pending.profile && !w.response.busy
    && w.answer == w.payload
  }

  /** At most one request is outstanding: the pending one is the request line, and the responder works on
      nothing else. The answer to it, once there, stays until it is read. */
  predicate OneRequest(w: World) {
    var p := w.client.pending;
    && w.request.number == w.client.sequence
    && (if Idle(w.client) then w.responder.Resting? && w.response.ack == w.client.sequence
        else
          && p.sequence == w.client.sequence
          && w.request == Request(p.command, p.sequence, p.profile, p.slot, w.request.size)
          && (w.responder.Working? ==> w.responder.request == w.request && !Answered?(w))
          && (Answered?(w) ==> AnswerStands(w))
          && (p.command.Save? ==> w.payload == w.exported && w.request.size == |w.exported|))
  }

  /** The epoch number counts the changes, skipping zero. */
  predicate EpochOk(w: World) {
    && w.client.epoch == EpochName(w.epochs) && w.since <= w.epochs
    && (!Idle(w.client) ==> w.client.pending.epoch == EpochName(w.since))
  }

  const CYCLE := 0xFFFF_FFFF

  function EpochName(n: nat): u32 { n % CYCLE + 1 }

  lemma EpochNext(n: nat)
    ensures Next(EpochName(n)) == EpochName(n + 1)
  {
    var q, r := n / CYCLE, n % CYCLE;
    if r + 1 == CYCLE {
      assert n + 1 == CYCLE * (q + 1);
    } else {
      assert n + 1 == CYCLE * q + (r + 1);
    }
  }

  predicate Inv(w: World) { OneRequest(w) && EpochOk(w) }

  lemma DeliverKeeps(w: World, sent: Sent, payload: seq<byte>)
    requires Inv(w)
    requires sent.Quiet? ==>
               && sent.client.pending == w.client.pending && sent.client.sequence == w.client.sequence
               && sent.client.epoch == w.client.epoch
               && (payload == w.payload || Idle(w.client))
    requires sent.Asked? ==>
               && Started(w.client, sent.client, sent.request)
               && (sent.request.command.Save? ==> sent.request.size == |payload|)
    ensures Inv(Deliver(w, sent, payload).0)
  {
    hide EpochName;
  }

  /** A request was started from an idle client. */
  predicate Started(before: Client, after: Client, request: Request) {
    && Idle(before) && !Idle(after) && after.sequence == Next(before.sequence)
    && after.pending.sequence == after.sequence
    && after.epoch == before.epoch && after.pending.epoch == after.epoch
    && request == Request(after.pending.command, after.sequence, after.pending.profile, after.pending.slot,
                          request.size)
  }

  predicate SaveAsked(c: Client, call: Call, request: Request) {
    && call.SaveTo? && call.made.Exported? && request.size == |call.made.bytes|
    && Allowed(c, c.profile, call.slot, false, false)
  }

  lemma AsksStarts(c: Client, call: Call, pinned: bool)
    ensures var sent := Asks(c, call, pinned);
            && (sent.Quiet? ==>
                  && sent.client.pending == c.pending && sent.client.sequence == c.sequence
                  && sent.client.epoch == c.epoch)
            && (sent.Asked? ==> Started(c, sent.client, sent.request))
            && (sent.Asked? && sent.request.command.Save? ==> SaveAsked(c, call, sent.request))
  {
  }

  lemma CallKeeps(w: World, call: Call, active: byte, pinned: bool)
    requires Inv(w)
    ensures Inv(Invoke(w, call, active, pinned).0)
  {
    hide Inv, Asks, Allowed, EpochName;
    var (seen, first) := ObserveProfile(w.client, active);
    SeenKeeps(w, seen);
    AsksStarts(seen, call, pinned);
    if !Idle(seen) {
      NotAllowed(seen, call);
    }
    DeliverKeeps(w.(client := seen), Asks(seen, call, pinned), PayloadAfter(seen, call, w.payload));
  }

  lemma NotAllowed(c: Client, call: Call)
    requires !Idle(c)
    ensures call.SaveTo? ==> !Allowed(c, c.profile, call.slot, false, false)
  {
  }

  lemma SeenKeeps(w: World, client: Client)
    requires Inv(w) && client.pending == w.client.pending && client.sequence == w.client.sequence
    requires client.epoch == w.client.epoch
    ensures Inv(w.(client := client))
  {
    hide EpochName;
  }

  lemma QueuedStarts(c: Client)
    ensures var sent := StartQueued(c);
            && (sent.Quiet? ==>
                  && sent.client.pending == c.pending && sent.client.sequence == c.sequence
                  && sent.client.epoch == c.epoch)
            && (sent.Asked? ==> Started(c, sent.client, sent.request) && !sent.request.command.Save?)
  {
  }

  /** `b` differs from `a` only in what the protocol does not depend on. */
  predicate SameProtocol(a: Client, b: Client) {
    b.pending == a.pending && b.sequence == a.sequence && b.epoch == a.epoch
  }

  lemma QueuesKeep(c: Client, profile: u16, r: Response, p: Pending, a: Around)
    ensures SameProtocol(c, QueueNamespace(c, profile)) && SameProtocol(c, ClearNamespace(c, profile))
    ensures SameProtocol(c, QueueRefresh(c))
    ensures SameProtocol(c, Catalogued(c, r, p, a)) && SameProtocol(c, CompleteLoad(c, r, p, a).0)
  {
    hide CatalogOk, LoadCurrent;
  }

  lemma CompleteFrees(c: Client, r: Response, a: Around)
    ensures var done := Complete(c, r, a).0; Idle(done) && done.sequence == c.sequence && done.epoch == c.epoch
  {
    hide ShapeOk, Catalogued, CompleteLoad, QueueNamespace, ClearNamespace, QueueRefresh;
    var freed := Freed(c, r.ready);
    QueuesKeep(freed, c.pending.profile, r, c.pending, a);
    QueuesKeep(freed.(available := false), c.pending.profile, r, c.pending, a);
    QueuesKeep(freed.(loadedSlot := -1, loadedProfile := NO_PROFILE), c.pending.profile, r, c.pending, a);
  }

  /** Completing or waiting keeps the sequence and the epoch; the client is idle exactly when answered. */
  lemma PollKeeps(c: Client, r: Response, a: Around)
    requires !Idle(c)
    ensures var (done, _) := PollResponse(c, r, a);
            && done.sequence == c.sequence && done.epoch == c.epoch
            && (if r.magic && r.ack == c.pending.sequence then Idle(done) else done.pending == c.pending)
  {
    hide Complete;
    CompleteFrees(c, r, a);
  }

  lemma UpdateKeeps(w: World, e: Event)
    requires Inv(w) && e.Updated?
    ensures Inv(Update(w, e).0)
  {
    hide PollResponse, EpochName, StartQueued;
    var (seen, first) := ObserveProfile(w.client, e.active);
    var loaded := ObserveLoaded(seen, e.pinned);
    SeenKeeps(w, loaded);
    if Idle(loaded) {
      QueuedStarts(loaded);
      DeliverKeeps(w.(client := loaded), StartQueued(loaded), w.payload);
    } else {
      var given := GiveUp(loaded, e.preparing);
      EpochNext(w.epochs);
      PollKeeps(given, w.response, Around(e.pinned, e.accepts, e.rows, e.tailZero, w.payload));
    }
  }

  /** Every step of client, savestate or responder keeps one request outstanding. */
  lemma StepKeeps(w: World, e: Event)
    requires Inv(w) && Possible(w, e)
    ensures Inv(Step(w, e).0)
  {
    hide Invoke, Update, EpochName;
    match e
    case Called(call, active, pinned) => CallKeeps(w, call, active, pinned);
    case Updated(_, _, _, _, _, _) => UpdateKeeps(w, e);
    case Restored(pinned) => EpochNext(w.epochs);
    case _ =>
  }

  // ---- what follows ---------------------------------------------------------------------------

  /** A mailbox at rest: whatever sequence it stopped at, nothing is outstanding. */
  predicate AtRest(w: World) {
    && Idle(w.client) && w.responder.Resting? && w.request.number == w.response.ack == w.client.sequence
    && w.epochs == 0 && w.since == 0 && w.client.epoch == 1
  }

  /** A client that hears a resting responder starts at rest exactly when the request line it finds is the
      one already answered. `init` does not look at that line. */
  lemma StartsAtRest(r: Response, active: byte, request: Request, payload: seq<byte>)
    requires r.magic && !r.busy
    ensures var w := Start(r, active, request, payload, Resting);
            (Inv(w) <==> request.number == r.ack) && (AtRest(w) <==> request.number == r.ack)
  {
  }

  /** The world as `init` leaves it. */
  function Start(r: Response, active: byte, request: Request, payload: seq<byte>, responder: Responder): World {
    World(Initial(r, active), request, r, payload, responder, [], [], 0, 0)
  }

  predicate RunPossible(w: World, events: seq<Event>)
    decreases |events|
  {
    events == [] || (Possible(w, events[0]) && RunPossible(Step(w, events[0]).0, events[1..]))
  }

  function Run(w: World, events: seq<Event>): World
    requires RunPossible(w, events)
    decreases |events|
  {
    if events == [] then w else Run(Step(w, events[0]).0, events[1..])
  }

  /** From rest, every interleaving keeps the invariant. */
  lemma {:induction false} RunKeeps(w: World, events: seq<Event>)
    requires Inv(w) && RunPossible(w, events)
    ensures Inv(Run(w, events))
    decreases |events|
  {
    hide Inv, Step, Possible;
    if events != [] {
      StepKeeps(w, events[0]);
      RunKeeps(Step(w, events[0]).0, events[1..]);
    }
  }

  /** From such a start every interleaving keeps the invariant, wherever the sequence stands. */
  lemma StartedRuns(r: Response, active: byte, request: Request, payload: seq<byte>, events: seq<Event>)
    requires r.magic && !r.busy && request.number == r.ack
    requires RunPossible(Start(r, active, request, payload, Resting), events)
    ensures Inv(Run(Start(r, active, request, payload, Resting), events))
  {
    hide Inv, RunPossible, Run, Start;
    StartsAtRest(r, active, request, payload);
    RunKeeps(Start(r, active, request, payload, Resting), events);
  }

  /** A client that heard nothing, or heard a responder at work, never asks for anything. */
  predicate Deaf(c: Client) { Idle(c) && !c.available && !c.refreshQueued && !c.importedQueued }

  lemma DeafStays(w: World, e: Event)
    requires Deaf(w.client) && Possible(w, e)
    ensures Deaf(Step(w, e).0.client) && Step(w, e).0.request == w.request && NoActs(Step(w, e).1)
  {
  }

  /** So from a start that is not heard, in every run, the request line is never written. */
  lemma {:induction false} UnheardRuns(w: World, events: seq<Event>)
    requires Deaf(w.client) && RunPossible(w, events)
    ensures Deaf(Run(w, events).client) && Run(w, events).request == w.request
    decreases |events|
  {
    hide Deaf, Step, Possible;
    if events != [] {
      DeafStays(w, events[0]);
      UnheardRuns(Step(w, events[0]).0, events[1..]);
    }
  }

  lemma UnheardStarts(r: Response, active: byte, request: Request, payload: seq<byte>, responder: Responder)
    requires !r.magic || r.busy
    ensures Deaf(Start(r, active, request, payload, responder).client)
  {
  }

  // ---- a start that is not at rest ------------------------------------------------------------

  /** The responder stopped at 5, with a removal numbered 6 left on the line for it. */
  const LEFT_ANSWER := Response(true, 5, true, false, true, 0, 0, 0, 0, 0)
  const LEFT_REQUEST := Request(Delete, 6, 0, 3, 0)
  const LEFT_OVER := Start(LEFT_ANSWER, 0, LEFT_REQUEST, [], Resting)
  const LOOK := Updated(0, false, false, false, [], true)

  /** The responder takes the old removal; the client asks for its catalog, also numbered 6; the removal is
      answered; and the client takes that for its own answer, while its request was never served. */
  lemma LeftOverAnswersForAnother()
    ensures var started := [PickedUp, LOOK];
            var ended := started + [Answered(true, true, 0, 0, 0, 0), LOOK];
            && RunPossible(LEFT_OVER, started) && RunPossible(LEFT_OVER, ended)
            && var asked := Run(LEFT_OVER, started);
               && asked.responder == Working(LEFT_REQUEST) && asked.request == Request(List, 6, 0, 0, 0)
               && asked.client.pending.command.List? && Idle(Run(LEFT_OVER, ended).client)
               && !Inv(LEFT_OVER)
  {
    var answer := Answered(true, true, 0, 0, 0, 0);
    var w1 := Step(LEFT_OVER, PickedUp).0;
    var w2 := Step(w1, LOOK).0;
    var w3 := Step(w2, answer).0;
    var w4 := Step(w3, LOOK).0;
    assert Idle(w4.client);
    RunOf2(LEFT_OVER, PickedUp, LOOK);
    RunOf2(w2, answer, LOOK);
    RunAdds(LEFT_OVER, [PickedUp, LOOK], [answer, LOOK]);
  }

  lemma RunOf2(w: World, a: Event, b: Event)
    requires Possible(w, a) && Possible(Step(w, a).0, b)
    ensures RunPossible(w, [a, b]) && Run(w, [a, b]) == Step(Step(w, a).0, b).0
  {
    hide Step, Possible;
    assert [a, b][1..] == [b] && [b][1..] == [];
    RunOf1(Step(w, a).0, b);
  }

  lemma RunOf1(w: World, a: Event)
    requires Possible(w, a)
    ensures RunPossible(w, [a]) && Run(w, [a]) == Step(w, a).0
  {
    hide Step, Possible;
    assert [a][1..] == [];
  }

  lemma {:induction false} RunAdds(w: World, a: seq<Event>, b: seq<Event>)
    requires RunPossible(w, a) && RunPossible(Run(w, a), b)
    ensures RunPossible(w, a + b) && Run(w, a + b) == Run(Run(w, a), b)
    decreases |a|
  {
    hide Step, Possible;
    if a == [] {
      assert a + b == b;
    } else {
      assert (a + b)[1..] == a[1..] + b;
      RunAdds(Step(w, a[0]).0, a[1..], b);
    }
  }

  // ---- what each step may do ------------------------------------------------------------------

  /** The effects that act on a request's answer. */
  predicate Acts(e: Effect) { e.SaveReleased? || e.Installed? }

  predicate ActsOn(w: World, e: Effect) {
    match e
    case SaveReleased(token, duration) =>
      && w.client.pending.command.Save? && token == w.client.pending.token && duration == w.client.pending.duration
      && w.request.command.Save? && w.payload == w.exported && w.request.size == |w.exported|
    case Installed(destination, bytes, _) =>
      && w.client.pending.command.Load? && destination == w.client.pending.destination
      && w.request.command.Load? && bytes == w.answer == w.payload && (w.epochs - w.since) % CYCLE == 0
    case _ => true
  }

  /** Nothing is released or installed but by the answer to the pending request: a release names the token
      whose exported bytes are still in the window; an install takes the bytes that answer left, and no
      epoch change (short of a full cycle) came between. */
  lemma ActsOnlyOnAnswers(w: World, e: Event, k: nat)
    requires Inv(w) && Possible(w, e) && k < |Step(w, e).1| && Acts(Step(w, e).1[k])
    ensures e.Updated? && !Idle(w.client) && Answered?(w) && w.responder.Resting? && ActsOn(w, Step(w, e).1[k])
    ensures Idle(Step(w, e).0.client)
  {
    hide Invoke, Update, EpochName, OneRequest;
    match e
    case Called(call, active, pinned) => CallsDoNotAct(w, call, active, pinned);
    case Updated(_, _, _, _, _, _) => UpdateActs(w, e, k);
    case Restored(pinned) =>
    case _ =>
  }

  predicate NoActs(effects: seq<Effect>) { forall k :: 0 <= k < |effects| ==> !Acts(effects[k]) }

  lemma NoActsAdd(a: seq<Effect>, b: seq<Effect>)
    requires NoActs(a) && NoActs(b)
    ensures NoActs(a + b)
  {
  }

  lemma CallsDoNotAct(w: World, call: Call, active: byte, pinned: bool)
    ensures NoActs(Invoke(w, call, active, pinned).1)
  {
    hide Allowed;
    var (seen, first) := ObserveProfile(w.client, active);
    NoActsAdd(first, Deliver(w.(client := seen), Asks(seen, call, pinned), PayloadAfter(seen, call, w.payload)).1);
  }

  /** Two epoch numbers agree only a whole cycle apart. */
  lemma EpochsAgree(since: nat, epochs: nat)
    requires since <= epochs && EpochName(since) == EpochName(epochs)
    ensures (epochs - since) % CYCLE == 0
  {
    assert epochs == CYCLE * (epochs / CYCLE) + epochs % CYCLE;
    assert since == CYCLE * (since / CYCLE) + since % CYCLE;
    assert epochs - since == CYCLE * (epochs / CYCLE - since / CYCLE);
  }

  lemma CompleteActs(c: Client, r: Response, a: Around, k: nat)
    requires k < |Complete(c, r, a).1| && Acts(Complete(c, r, a).1[k])
    ensures match Complete(c, r, a).1[k]
            case SaveReleased(token, duration) => c.pending.command.Save? && token == c.pending.token &&
                duration == c.pending.duration
            case Installed(destination, bytes, _) =>
              c.pending.command.Load? && destination == c.pending.destination && bytes == a.payload &&
              c.pending.epoch == c.epoch
            case _ => true
  {
    hide ShapeOk, CatalogOk, Catalogued, QueueNamespace, ClearNamespace, QueueRefresh;
  }

  lemma UpdateActs(w: World, e: Event, k: nat)
    requires Inv(w) && e.Updated? && k < |Update(w, e).1| && Acts(Update(w, e).1[k])
    ensures !Idle(w.client) && Answered?(w) && w.responder.Resting? && ActsOn(w, Update(w, e).1[k])
    ensures Idle(Update(w, e).0.client)
  {
    hide Complete, EpochName, StartQueued;
    var (seen, first) := ObserveProfile(w.client, e.active);
    var loaded := ObserveLoaded(seen, e.pinned);
    if Idle(loaded) {
      QueuedQuiet(loaded);
    } else {
      var given := GiveUp(loaded, e.preparing);
      var around := Around(e.pinned, e.accepts, e.rows, e.tailZero, w.payload);
      var (done, effects) := PollResponse(given, w.response, around);
      assert Update(w, e).1 == first + effects;
      assert w.response.magic && w.response.ack == given.pending.sequence;
      CompleteFrees(given, w.response, around);
      CompleteActs(given, w.response, around, k - |first|);
      if given.pending.epoch == given.epoch && given.epoch == w.client.epoch {
        EpochsAgree(w.since, w.epochs);
      }
    }
  }

  lemma QueuedQuiet(c: Client)
    ensures var sent := StartQueued(c); sent.Asked? ==> sent.effects == []
  {
  }

  /** A request ends only by its own answer, read while the responder rests: neither a stale answer, nor
      a timeout, nor a savestate frees the mailbox, at any sequence number. */
  lemma EndsOnlyAnswered(w: World, e: Event)
    requires Inv(w) && Possible(w, e) && !Idle(w.client) && Idle(Step(w, e).0.client)
    ensures e.Updated? && Answered?(w) && AnswerStands(w)
    ensures w.request.number == w.client.pending.sequence == w.response.ack
  {
    hide EpochName, PollResponse, StartQueued;
    match e
    case Called(call, active, pinned) =>
      AsksStarts(ObserveProfile(w.client, active).0, call, pinned);
    case Updated(active, pinned, preparing, accepts, rows, tailZero) =>
      var given := GiveUp(ObserveLoaded(ObserveProfile(w.client, active).0, pinned), preparing);
      PollKeeps(given, w.response, Around(pinned, accepts, rows, tailZero, w.payload));
    case _ =>
  }

  /** While a save is outstanding its payload window is never rewritten. */
  lemma SaveWindowStands(w: World, e: Event)
    requires Inv(w) && Possible(w, e) && w.client.pending.command.Save?
    ensures Step(w, e).0.payload == w.payload == w.exported
  {
    hide EpochName, PollResponse, StartQueued;
    match e
    case Called(call, active, pinned) =>
      AsksStarts(ObserveProfile(w.client, active).0, call, pinned);
      NotAllowed(ObserveProfile(w.client, active).0, call);
    case _ =>
  }
}
