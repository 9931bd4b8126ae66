/** The storage client over its mailbox, field by field. Every method is proved to take the state where
    the protocol's functions take it. */
module StorageDevice {
  import opened Bytes
  import opened StorageClient
  import Protocol = StorageProtocol

  class Mailbox {
    var request: Request
    var response: Response
    var payload: seq<byte>
  }

  class Storage {
    const mailbox: Mailbox
    var sequence: u32
    var pending: Pending
    var waitFrames: u32
    var timedOut: bool
    var epoch: u32
    var profile: byte
    var available: bool
    var catalog: Catalog
    var imported: Catalog
    var refreshQueued: bool
    var importedQueued: bool
    var loadedSlot: int
    var loadedProfile: byte
    /** What the recorder was asked to do, in order. */
    var effects: seq<Effect>

    function View(): Client
      reads this
    {
      Client(sequence, pending, waitFrames, timedOut, epoch, profile, available, catalog, imported, refreshQueued,
             importedQueued, loadedSlot, loadedProfile)
    }

    constructor (box: Mailbox, active: byte)
      ensures mailbox == box && View() == Initial(box.response, active) && effects == []
    {
      mailbox := box;
      var r := box.response;
      var heard := r.magic && !r.busy;
      sequence, pending, waitFrames, timedOut, epoch := if heard then r.ack else 0, NOTHING_PENDING, 0, false, 1;
      profile, available, catalog, imported := active, heard && r.ready, NO_CATALOG, NO_CATALOG;
      refreshQueued, importedQueued, loadedSlot, loadedProfile := heard && r.ready, heard && r.ready, -1, NO_PROFILE;
      effects := [];
    }

    // ---- namespaces ---------------------------------------------------------------------------

    method ObserveProfile(active: byte)
      modifies this
      ensures View() == StorageClient.ObserveProfile(old(View()), active).0
      ensures effects == old(effects) + StorageClient.ObserveProfile(old(View()), active).1
    {
      if active != profile {
        if Watching(pending) {
          effects := effects + [ObserverStopped];
        }
        profile, catalog, refreshQueued := active, NO_CATALOG, available;
      }
    }

    method ObserveLoadedPlayback(pinned: bool)
      modifies this`loadedSlot, this`loadedProfile
      ensures View() == ObserveLoaded(old(View()), pinned)
    {
      if loadedSlot >= 0 && !pinned {
        loadedSlot, loadedProfile := -1, NO_PROFILE;
      }
    }

    method DetachImported()
      modifies this`loadedSlot, this`loadedProfile
      ensures View() == Detach(old(View()))
    {
      if loadedProfile == IMPORTED {
        loadedSlot, loadedProfile := -1, NO_PROFILE;
      }
    }

    method QueueNamespaceRefresh(space: u16)
      modifies this`catalog, this`imported, this`refreshQueued, this`importedQueued
      ensures View() == QueueNamespace(old(View()), space)
    {
      if space == IMPORTED {
        imported, importedQueued := NO_CATALOG, available;
      } else {
        catalog, refreshQueued := NO_CATALOG, available;
      }
    }

    method ClearNamespaceCatalog(space: u16)
      modifies this`catalog, this`imported
      ensures View() == ClearNamespace(old(View()), space)
    {
      if space == IMPORTED {
        imported := NO_CATALOG;
      } else {
        catalog := NO_CATALOG;
      }
    }

    // ---- requests -----------------------------------------------------------------------------

    method BeginRequest(command: Command, space: u16, slot: u16, size: u32, token: u32, duration: u32)
      modifies this`sequence, this`pending, this`waitFrames, this`timedOut, mailbox`request
      ensures (View(), mailbox.request) == Begin(old(View()), command, space, slot, size, token, duration)
    {
      sequence := if sequence == 0xFFFF_FFFF then 0 else sequence + 1;
      if sequence == 0 {
        sequence := 1;
      }
      mailbox.request := Request(command, sequence, space, slot, size);
      pending := pending.(command := command, sequence := sequence, token := if command.Save? then token else 0,
                          duration := if command.Save? then duration else 0, profile := space, slot := slot,
                          epoch := epoch);
      waitFrames, timedOut := 0, false;
    }

    method RequestAllowed(space: u16, slot: int, wantPresent: bool, allowUnsafe: bool) returns (ok: bool)
      ensures ok == Allowed(View(), space, slot, wantPresent, allowUnsafe)
    {
      if !available || !pending.command.NoCommand? {
        return false;
      }
      var limit := if space == IMPORTED then IMPORTED_SLOTS else PERSONAL_SLOTS;
      var rows := if space == IMPORTED then imported else catalog;
      if slot < 0 || slot >= limit || !rows.ready || slot >= |rows.rows| {
        return false;
      }
      var row := rows.rows[slot];
      return (!row.unsafe || allowUnsafe) && row.present == wantPresent;
    }

    /** Whether a call sent a request, and that the mailbox holds it if so. */
    twostate predicate Sends(sent: Sent)
      reads this, mailbox
    {
      match sent
      case Quiet(client) => View() == client && mailbox.request == old(mailbox.request) && effects == old(effects)
      case Asked(client, request, more) =>
        View() == client && mailbox.request == request && effects == old(effects) + more
    }

    method BeginRefresh()
      modifies this, mailbox`request
      ensures Sends(StorageClient.BeginRefresh(old(View())))
    {
      if available && pending.command.NoCommand? {
        catalog := NO_CATALOG;
        BeginRequest(List, profile, 0, 0, 0, 0);
      }
    }

    method BeginImportedRefresh(command: Command)
      modifies this, mailbox`request
      ensures Sends(StorageClient.BeginImportedRefresh(old(View()), command))
    {
      if available && pending.command.NoCommand? {
        imported := NO_CATALOG;
        if command.ImportScan? {
          DetachImported();
        }
        BeginRequest(command, IMPORTED, 0, 0, 0, 0);
      }
    }

    method LoadSlot(space: u16, slot: u16, destination: Destination)
      modifies this, mailbox`request
      ensures Sends(StorageClient.LoadSlot(old(View()), space, slot, destination))
    {
      var ok := RequestAllowed(space, slot, true, false);
      if ok {
        pending := pending.(destination := destination);
        BeginRequest(Load, space, slot, 0, 0, 0);
        pending := pending.(expected := if space == IMPORTED then 0 else catalog.rows[slot].generation);
      }
    }

    /** The exporter works on the payload window as soon as the request is allowed. */
    method SaveSlot(slot: u16, made: ExportResult)
      modifies this, mailbox`request, mailbox`payload
      ensures Sends(StorageClient.SaveSlot(old(View()), slot, made))
      ensures mailbox.payload == Protocol.PayloadAfter(old(View()), Protocol.SaveTo(slot, made), old(mailbox.payload))
    {
      var ok := RequestAllowed(profile, slot, false, false);
      if !ok {
        return;
      }
      mailbox.payload := Window(made, mailbox.payload);
      if made.Exported? && FILE_HEADER <= |made.bytes| <= FILE_LIMIT {
        BeginRequest(Save, profile, slot, |made.bytes|, made.token, made.duration);
      }
    }

    method ExportSlot(slot: u16)
      modifies this, mailbox`request
      ensures Sends(StorageClient.ExportSlot(old(View()), slot))
    {
      var ok := RequestAllowed(profile, slot, true, false);
      if ok {
        BeginRequest(Export, profile, slot, 0, 0, 0);
      }
    }

    /** Mirrors `refresh` once the profile has been observed. */
    method Refresh()
      modifies this, mailbox`request
      ensures Sends(Protocol.Asks(old(View()), Protocol.Refresh, false))
    {
      if available && pending.command.NoCommand? {
        refreshQueued := false;
        BeginRefresh();
      }
    }

    /** Mirrors `refreshImported` and `scanImports`. */
    method RefreshImported(scan: bool)
      modifies this, mailbox`request
      ensures Sends(Protocol.Asks(old(View()), if scan then Protocol.ScanImports else Protocol.RefreshImported, false))
    {
      if available && pending.command.NoCommand? {
        importedQueued := false;
        BeginImportedRefresh(if scan then ImportScan else List);
      }
    }

    method RemoveSlot(space: u16, slot: u16, pinned: bool)
      modifies this, mailbox`request
      ensures Sends(StorageClient.RemoveSlot(old(View()), space, slot, pinned))
    {
      var ok := RequestAllowed(space, slot, true, space == IMPORTED);
      if ok {
        var clears := space == IMPORTED && loadedProfile == IMPORTED && loadedSlot == slot && pinned;
        BeginRequest(Delete, space, slot, 0, 0, 0);
        if space == IMPORTED {
          DetachImported();
        }
        if clears {
          effects := effects + [PlaybackCleared];
        }
      }
    }

    // ---- answers ------------------------------------------------------------------------------

    method AdoptCatalog(r: Response, around: Around)
      requires |around.rows| <= PERSONAL_SLOTS
      modifies this
      ensures View() == Adopt(old(View()), r, around) && effects == old(effects)
    {
      hide CatalogOk;
      var ok := SumCatalog(r, around.rows, around.tailZero);
      if r.profile == IMPORTED {
        DetachImported();
        imported := if ok then Catalog(true, around.rows, r.total, r.generation) else NO_CATALOG;
      } else {
        catalog := if ok then Catalog(true, around.rows, r.total, 0) else NO_CATALOG;
      }
    }

    method CompleteLoad(r: Response, p: Pending, around: Around)
      modifies this
      ensures View() == StorageClient.CompleteLoad(old(View()), r, p, around).0
      ensures effects == old(effects) + StorageClient.CompleteLoad(old(View()), r, p, around).1
    {
      var current := p.epoch == epoch && (p.profile == IMPORTED || p.profile == profile) &&
                     (p.profile == IMPORTED || p.expected == 0 || r.generation == p.expected);
      if !current {
        effects := effects + StopIf(Watching(p));
        QueueNamespaceRefresh(p.profile);
        return;
      }
      effects := effects + [Installed(p.destination, around.payload, around.accepts)];
      if !around.accepts {
        effects := effects + StopIf(Watching(p));
        QueueNamespaceRefresh(p.profile);
        return;
      }
      if Watching(p) {
        return;
      }
      loadedProfile, loadedSlot := p.profile % 0x100, p.slot;
      if p.profile != IMPORTED {
        QueueNamespaceRefresh(p.profile);
      }
    }

    /** Mirrors `completeRequest`. */
    method CompleteRequest(r: Response, around: Around)
      requires |around.rows| <= PERSONAL_SLOTS
      modifies this
      ensures View() == Complete(old(View()), r, around).0
      ensures effects == old(effects) + Complete(old(View()), r, around).1
    {
      hide ShapeOk, Adopt, StorageClient.CompleteLoad;
      var p := pending;
      pending := p.(command := NoCommand, token := 0, duration := 0, expected := 0, destination := Race);
      waitFrames, timedOut, available := 0, false, r.ready;
      if !ShapeOk(r, p) {
        available := false;
        effects := effects + StopIf(Watching(p));
        if !p.command.List? {
          ClearNamespaceCatalog(p.profile);
        }
        return;
      }
      if !r.ok {
        effects := effects + StopIf(Watching(p));
        if !p.command.List? {
          QueueNamespaceRefresh(p.profile);
        }
        return;
      }
      CompleteGood(r, p, around);
    }

    /** The answer to a request that succeeded. */
    method CompleteGood(r: Response, p: Pending, around: Around)
      requires |around.rows| <= PERSONAL_SLOTS
      modifies this
      ensures View() == Finished(old(View()), r, p, around).0
      ensures effects == old(effects) + Finished(old(View()), r, p, around).1
    {
      hide Adopt, StorageClient.CompleteLoad;
      match p.command {
        case List => Catalogue(r, p, around);
        case ImportScan => Catalogue(r, p, around);
        case Save =>
          effects := effects + [SaveReleased(p.token, p.duration)];
          catalog, refreshQueued := NO_CATALOG, available;
        case Delete =>
          if p.profile == loadedProfile && p.slot == loadedSlot {
            if around.pinned {
              effects := effects + [PlaybackCleared];
            }
            loadedSlot, loadedProfile := -1, NO_PROFILE;
          }
          QueueNamespaceRefresh(p.profile);
        case Export => catalog, refreshQueued := NO_CATALOG, available;
        case Load => CompleteLoad(r, p, around);
        case NoCommand =>
      }
    }

    method Catalogue(r: Response, p: Pending, around: Around)
      requires |around.rows| <= PERSONAL_SLOTS
      modifies this
      ensures View() == Catalogued(old(View()), r, p, around) && effects == old(effects)
    {
      if p.profile != IMPORTED && p.profile != profile {
        refreshQueued := available;
      } else {
        AdoptCatalog(r, around);
      }
    }

    /** Mirrors `pollResponse`. */
    method PollResponse(around: Around)
      requires |around.rows| <= PERSONAL_SLOTS
      modifies this
      ensures View() == StorageClient.PollResponse(old(View()), mailbox.response, around).0
      ensures effects == old(effects) + StorageClient.PollResponse(old(View()), mailbox.response, around).1
    {
      hide Complete;
      var r := mailbox.response;
      if r.magic && r.ack == pending.sequence {
        CompleteRequest(r, around);
        return;
      }
      if waitFrames != 0xFFFF_FFFF {
        waitFrames := waitFrames + 1;
      }
      if !timedOut && waitFrames > TIMEOUT_FRAMES {
        timedOut := true;
        effects := effects + StopIf(Watching(pending));
      }
    }

    // ---- the protocol's steps -----------------------------------------------------------------

    /** The world around the client and its mailbox; `h` gives the responder and the history. */
    ghost function In(h: Protocol.World): Protocol.World
      reads this, mailbox
    {
      h.(client := View(), request := mailbox.request, response := mailbox.response, payload := mailbox.payload)
    }

    /** The client and its mailbox stand as `after` says, with `acted` done on the way. */
    twostate predicate Reaches(after: Protocol.World, acted: seq<Effect>)
      reads this, mailbox
    {
      In(after) == after && effects == old(effects) + acted
    }

    /** A call, as one step of the protocol in whatever world it is made. */
    method Invoke(call: Protocol.Call, active: byte, pinned: bool)
      modifies this, mailbox`request, mailbox`payload
      ensures forall h: Protocol.World :: Reaches(Protocol.Invoke(old(In(h)), call, active, pinned).0,
                                                  Protocol.Invoke(old(In(h)), call, active, pinned).1)
    {
      hide Allowed, StorageClient.SaveSlot, StorageClient.LoadSlot, StorageClient.RemoveSlot, StorageClient.ExportSlot,
          Window;
      ObserveProfile(active);
      match call {
        case Refresh => Refresh();
        case RefreshImported => RefreshImported(false);
        case ScanImports => RefreshImported(true);
        case SaveTo(slot, made) => SaveSlot(slot, made);
        case LoadFrom(space, slot, destination) => LoadSlot(space, slot, destination);
        case Remove(space, slot) => RemoveSlot(space, slot, pinned);
        case ExportTo(slot) => ExportSlot(slot);
      }
    }

    /** Mirrors `update`: a pending request is polled, an observation given up makes its load stale, and an
        idle client starts what is queued. */
    method Update(active: byte, pinned: bool, preparing: bool, accepts: bool, rows: seq<Row>, tailZero: bool)
      requires |rows| <= PERSONAL_SLOTS
      modifies this, mailbox`request
      ensures forall h: Protocol.World ::
                Reaches(Protocol.Update(old(In(h)),
                                        Protocol.Updated(active, pinned, preparing, accepts, rows, tailZero)).0,
                        Protocol.Update(old(In(h)),
                                        Protocol.Updated(active, pinned, preparing, accepts, rows, tailZero)).1)
    {
      hide StorageClient.PollResponse, GiveUp, StartQueued, StorageClient.ObserveProfile, ObserveLoaded;
      ObserveProfile(active);
      ObserveLoadedPlayback(pinned);
      if pending.command.NoCommand? {
        Queued();
      } else {
        Poll(preparing, Around(pinned, accepts, rows, tailZero, mailbox.payload));
      }
    }

    /** The busy half of `update`. */
    method Poll(preparing: bool, around: Around)
      requires |around.rows| <= PERSONAL_SLOTS
      modifies this
      ensures View() == StorageClient.PollResponse(GiveUp(old(View()), preparing), mailbox.response, around).0
      ensures effects == old(effects)
                         + StorageClient.PollResponse(GiveUp(old(View()), preparing), mailbox.response, around).1
    {
      hide StorageClient.PollResponse;
      if Watching(pending) && !preparing && pending.epoch == epoch {
        epoch := if epoch == 0xFFFF_FFFF then 1 else epoch + 1;
      }
      PollResponse(around);
    }

    /** The idle half of `update`. */
    method Queued()
      modifies this, mailbox`request
      ensures Sends(StartQueued(old(View())))
    {
      if refreshQueued {
        refreshQueued := false;
        BeginRefresh();
      } else if importedQueued {
        importedQueued := false;
        BeginImportedRefresh(List);
      }
    }

    /** Mirrors `onSavestateLoaded`. */
    method OnSavestateLoaded(pinned: bool)
      modifies this
      ensures forall h: Protocol.World :: Reaches(Protocol.Step(old(In(h)), Protocol.Restored(pinned)).0,
                                                  Protocol.Step(old(In(h)), Protocol.Restored(pinned)).1)
    {
      epoch := if epoch == 0xFFFF_FFFF then 1 else epoch + 1;
      ObserveLoadedPlayback(pinned);
      if Watching(pending) {
        effects := effects + [ObserverStopped];
      }
    }
  }
}
