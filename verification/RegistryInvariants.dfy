/** The inductive invariant of the registry: what every step keeps, whatever is interleaved. */
module RegistryInvariants {
  import opened Common
  import opened Devices
  import opened PairingTable
  import opened Registry

  /** A device in memory is the one its last registered connection presented. */
  ghost predicate Registered(w: World) {
    forall id | id in w.core.table.devices :: PresentedBy(w, id, w.core.table.devices[id])
  }

  predicate PresentedBy(w: World, id: DeviceId, device: Device) {
    && id in w.history.lastRegistered
    && LastLink(w, id) in w.history.presented
    && w.history.presented[LastLink(w, id)].id == id
    && device.live == Some(w.history.presented[LastLink(w, id)].certificate)
  }

  function LastLink(w: World, id: DeviceId): Link
    requires id in w.history.lastRegistered
  {
    Link(w.history.boot, w.history.lastRegistered[id])
  }

  /** `writer_map` and `conn_id_map` agree; a recorded connection is the last registered one
      of its device and its Disconnected is still to come. */
  ghost predicate MapsAgree(w: World) {
    && w.core.writers == w.core.connIds
    && forall id | id in w.core.connIds :: RecordedOk(w, id, w.core.connIds[id])
  }

  predicate RecordedOk(w: World, id: DeviceId, conn: ConnId) {
    && id in w.core.table.devices
    && id in w.history.lastRegistered
    && w.history.lastRegistered[id] == conn
    && Link(w.history.boot, conn) in w.history.open
  }

  ghost predicate LinksOk(w: World) {
    && (forall link | link in w.history.open :: link in w.history.presented && link.boot == w.history.boot)
    && (forall link | link in w.history.presented :: link.boot <= w.history.boot)
  }

  /** A pending state remembers who asked, over the last registered connection. */
  ghost predicate PendingOk(w: World) {
    forall id | id in w.core.table.devices && id in w.history.lastRegistered ::
      Justified(w, id, w.core.table.devices[id].pairState)
  }

  predicate Justified(w: World, id: DeviceId, state: PairState)
    requires id in w.history.lastRegistered
  {
    && (state == Requesting ==> LastLink(w, id) in w.history.userAsked)
    && (state == Requested ==> LastLink(w, id) in w.history.peerAsked)
  }

  /** Both sides asked, over one registered connection of the device that presented `pin`. */
  ghost predicate Consent(h: History, id: DeviceId, pin: Cert) {
    exists link | link in h.presented ::
      h.presented[link] == Presented(id, pin) && link in h.peerAsked && link in h.userAsked
  }

  /** Every pin the store trusts was there at the start or was agreed upon. */
  ghost predicate PinsJustified(store: Store, w: World) {
    forall id | PersistedPin(w.core.table.store, id).Some? ::
      || PersistedPin(store, id) == PersistedPin(w.core.table.store, id)
      || Consent(w.history, id, PersistedPin(w.core.table.store, id).value)
  }

  /** Queued packets arrived over the connection they name. */
  ghost predicate QueueOk(w: World) {
    forall e | e in w.core.table.queue && e.PacketReceived? ::
      Arrival(Link(w.history.boot, e.conn), e.id, e.packet) in w.history.arrived
  }

  /** The last Connected or Disconnected broadcast for `id` was a Connected. */
  predicate Announced(log: seq<ConnEvent>, id: DeviceId)
    decreases |log|
  {
    if log == [] then false
    else
      match log[|log| - 1]
      case Connected(device) => device.id == id || Announced(log[..|log| - 1], id)
      case Disconnected(gone) => gone != id && Announced(log[..|log| - 1], id)
      case _ => Announced(log[..|log| - 1], id)
  }

  /** `id` still has an accepted connection whose Disconnected has not been handled. */
  ghost predicate Owed(h: History, id: DeviceId) {
    exists link | link in h.open && link in h.presented :: h.presented[link].id == id
  }

  ghost predicate AnnouncedOk(w: World) {
    forall id: DeviceId ::
      && (id in w.core.writers ==> Announced(w.core.connLog, id))
      && (Announced(w.core.connLog, id) ==> id in w.core.writers || Owed(w.history, id))
  }

  ghost predicate Inv(store: Store, w: World) {
    && TableOk(w.core.table)
    && Registered(w)
    && MapsAgree(w)
    && LinksOk(w)
    && PendingOk(w)
    && PinsJustified(store, w)
    && QueueOk(w)
    && AnnouncedOk(w)
  }

  // --- Frames ----------------------------------------------------------------------------

  /** Events that leave devices, store, connections and history alone. */
  predicate Quiet(e: Event) {
    e.AppSend? || e.AppSendWithReply? || e.AppSendFiles? || e.AppRequest? || e.CoreNext? || e.Background?
    || e.ServiceNext? || e.Restore?
  }

  predicate SameRegistry(c: Core, c': Core) {
    && c'.table.devices == c.table.devices
    && c'.table.store == c.table.store
    && c'.writers == c.writers
    && c'.connIds == c.connIds
  }

  lemma {:induction false} SendFilesFrame(c: Core, id: DeviceId, packets: seq<Packet>)
    ensures var c' := SendFiles(c, id, packets);
            SameRegistry(c, c') && c'.table == c.table && c'.connLog == c.connLog && c'.dispatched == c.dispatched
    decreases |packets|
  {
    if packets != [] {
      SendFilesFrame(SendData(c, id, packets[0]), id, packets[1..]);
    }
  }

  lemma QuietFrame(c: Core, e: Event)
    requires Quiet(e)
    ensures SameRegistry(c, CoreStep(c, e))
  {
    if e.AppSendFiles? {
      SendFilesFrame(c, e.id, e.packets);
    } else if e.CoreNext? {
      CoreNextFrame(c, e);
    }
  }

  lemma CoreNextFrame(c: Core, e: Event)
    requires e.CoreNext?
    ensures SameRegistry(c, CoreStep(c, e))
  {
  }

  // --- Announcements ---------------------------------------------------------------------

  lemma AnnouncedSnoc(log: seq<ConnEvent>, event: ConnEvent, id: DeviceId)
    ensures Announced(log + [event], id) ==
            match event
            case Connected(device) => device.id == id || Announced(log, id)
            case Disconnected(gone) => gone != id && Announced(log, id)
            case _ => Announced(log, id)
  {
    assert (log + [event])[..|log + [event]| - 1] == log;
  }

  // --- One step --------------------------------------------------------------------------

  lemma QuietKeeps(store: Store, w: World, e: Event)
    requires Inv(store, w) && Legal(w, e) && Quiet(e)
    ensures Inv(store, Step(w, e))
  {
    QuietFrame(w.core, e);
    var w' := Step(w, e);
    assert w'.history == w.history;
    QuietKeepsQueue(w, e);
    QuietKeepsAnnounced(w, e);
    assert forall id | id in w'.core.table.devices :: DeviceOk(w.core.table.store, id, w.core.table.devices[id]);
    assert forall id | id in w'.core.table.devices :: PresentedBy(w, id, w.core.table.devices[id]);
    assert forall id | id in w'.core.connIds :: RecordedOk(w, id, w.core.connIds[id]);
  }

  lemma QuietKeepsQueue(w: World, e: Event)
    requires QueueOk(w) && Legal(w, e) && Quiet(e)
    ensures QueueOk(Step(w, e))
  {
    if e.AppSendFiles? {
      SendFilesFrame(w.core, e.id, e.packets);
    }
  }

  lemma QuietKeepsAnnounced(w: World, e: Event)
    requires AnnouncedOk(w) && Legal(w, e) && Quiet(e)
    ensures AnnouncedOk(Step(w, e))
  {
    QuietFrame(w.core, e);
    if e.AppSendFiles? {
      SendFilesFrame(w.core, e.id, e.packets);
    }
    if e.CoreNext? && w.core.table.queue != [] {
      var output := Output(w.core.table.queue[0]);
      assert Step(w, e).core.connLog == w.core.connLog + output;
      forall id: DeviceId
        ensures Announced(Step(w, e).core.connLog, id) == Announced(w.core.connLog, id)
      {
        if output != [] {
          AnnouncedSnoc(w.core.connLog, output[0], id);
        } else {
          assert w.core.connLog + output == w.core.connLog;
        }
      }
    }
  }

  lemma RestartKeeps(store: Store, w: World)
    requires Inv(store, w)
    ensures Inv(store, Step(w, Restart))
  {
    var w' := Step(w, Restart);
    forall id | PersistedPin(w'.core.table.store, id).Some?
      ensures || PersistedPin(store, id) == PersistedPin(w'.core.table.store, id)
              || Consent(w'.history, id, PersistedPin(w'.core.table.store, id).value)
    {
      ConsentGrows(w.history, w'.history, id, PersistedPin(w.core.table.store, id).value);
    }
  }

  /** Agreement, once given, is not forgotten: links are never presented twice. */
  lemma ConsentGrows(h: History, h': History, id: DeviceId, pin: Cert)
    requires forall link | link in h.presented :: link in h'.presented && h'.presented[link] == h.presented[link]
    requires h.peerAsked <= h'.peerAsked && h.userAsked <= h'.userAsked
    ensures Consent(h, id, pin) ==> Consent(h', id, pin)
  {
    if Consent(h, id, pin) {
      var link :| link in h.presented && h.presented[link] == Presented(id, pin)
                  && link in h.peerAsked && link in h.userAsked;
      assert link in h'.presented && h'.presented[link] == Presented(id, pin);
    }
  }

  // --- Steps that change the pairing of one device ----------------------------------------

  predicate Pairing(e: Event) {
    e.Incoming? || e.AppPair? || e.AppAccept? || e.AppReject? || e.AppUnpair?
  }

  /** The one table operation a pairing step performs. */
  datatype Act = Keep | Queue(event: CoreEvent) | Update(state: PairState) | Approve | Cancel

  function ActOf(c: Core, e: Event): Act
    requires Pairing(e)
  {
    match e
    case Incoming(id, conn, body, _) =>
      if !Current(c, id, conn) || body.BadPair? then Keep
      else if body.Plugin? then Queue(PacketReceived(id, conn, body.packet))
      else if body.Unparsable? then Queue(CoreError)
      else if id !in c.table.devices then Keep
      else if !body.flag then (if c.table.devices[id].pairState == Paired then Update(NotPaired) else Keep)
      else (match c.table.devices[id].pairState
            case Requesting => Approve
            case Paired => Keep
            case _ => Update(Requested))
    case AppPair(id, _) => if id !in c.writers || IsPaired(c.table, id) then Keep else Update(Requesting)
    case AppAccept(id, _) =>
      if id !in c.writers || id !in c.table.devices || c.table.devices[id].pairState != Requested then Keep else Approve
    case AppReject(_, _) => Update(NotPaired)
    case AppUnpair(_, _) => Cancel
  }

  function Acted(t: Table, id: DeviceId, act: Act, storeOk: bool): Table {
    match act
    case Keep => t
    case Queue(event) => Push(t, event)
    case Update(state) => UpdatePairState(t, id, state, storeOk)
    case Approve => SetPaired(t, id, true, storeOk)
    case Cancel => SetPaired(t, id, false, storeOk)
  }

  /** What a pairing step does to the rest of the core. */
  ghost predicate ActsOn(c: Core, c': Core, e: Event)
    requires Pairing(e)
  {
    && c'.table == Acted(c.table, e.id, ActOf(c, e), e.storeOk)
    && c'.writers == c.writers && c'.connIds == c.connIds
    && (|| c'.connLog == c.connLog
        || c'.connLog == c.connLog + [PairStateChanged(e.id, NotPaired)]
        || c'.connLog == c.connLog + [PairingRequested(e.id)])
  }

  lemma IncomingActs(c: Core, e: Event)
    requires e.Incoming?
    ensures ActsOn(c, HandleIncoming(c, e.id, e.conn, e.body, e.storeOk), e)
  {
  }

  lemma RequestActs(c: Core, e: Event)
    requires e.AppPair? || e.AppAccept?
    ensures ActsOn(c, CoreStep(c, e), e)
  {
  }

  lemma RefusalActs(c: Core, e: Event)
    requires e.AppReject? || e.AppUnpair?
    ensures ActsOn(c, CoreStep(c, e), e)
  {
  }

  lemma PairingActs(c: Core, e: Event)
    requires Pairing(e)
    ensures ActsOn(c, CoreStep(c, e), e)
  {
    if e.Incoming? {
      IncomingActs(c, e);
    } else if e.AppPair? || e.AppAccept? {
      RequestActs(c, e);
    } else {
      RefusalActs(c, e);
    }
  }

  /** Pairing steps touch the table of one device and announce no connection. */
  lemma ActKeepsTable(t: Table, id: DeviceId, act: Act, storeOk: bool)
    requires TableOk(t) && (act.Update? ==> act.state != Paired)
    ensures TableOk(Acted(t, id, act, storeOk))
    ensures act.Queue? || OnlyTouches(t, Acted(t, id, act, storeOk), id)
  {
    match act
    case Keep =>
    case Queue(event) =>
      assert forall d | d in t.devices :: DeviceOk(t.store, d, t.devices[d]);
    case Update(state) => UpdateKeepsTable(t, id, state, storeOk);
    case Approve => SetPairedKeepsTable(t, id, true, storeOk);
    case Cancel => SetPairedKeepsTable(t, id, false, storeOk);
  }

  lemma PairingAnnouncesNothing(c: Core, e: Event, id: DeviceId)
    requires Pairing(e)
    ensures Announced(CoreStep(c, e).connLog, id) == Announced(c.connLog, id)
  {
    PairingActs(c, e);
    AnnouncedSnoc(c.connLog, PairStateChanged(e.id, NotPaired), id);
    AnnouncedSnoc(c.connLog, PairingRequested(e.id), id);
  }

  lemma PairingKeepsQueue(w: World, e: Event)
    requires TableOk(w.core.table) && QueueOk(w) && Pairing(e)
    ensures QueueOk(Step(w, e))
  {
    PairingActs(w.core, e);
    ActKeepsTable(w.core.table, e.id, ActOf(w.core, e), e.storeOk);
    var w' := Step(w, e);
    assert w.history.arrived <= w'.history.arrived && w'.history.boot == w.history.boot;
    forall q | q in w'.core.table.queue && q.PacketReceived?
      ensures Arrival(Link(w'.history.boot, q.conn), q.id, q.packet) in w'.history.arrived
    {
      if q !in w.core.table.queue {
        assert e.Incoming? && e.body.Plugin?;
      }
    }
  }

  lemma PairingObserves(h: History, c: Core, e: Event)
    requires Pairing(e)
    ensures var h' := Observe(h, c, e);
            && h'.boot == h.boot && h'.presented == h.presented
            && h'.open == h.open && h'.lastRegistered == h.lastRegistered
            && h.peerAsked <= h'.peerAsked && h.userAsked <= h'.userAsked && h.arrived <= h'.arrived
  {
  }

  /** The state an operation leaves a device in is the old one, a final one, or the one asked for. */
  lemma ActState(t: Table, id: DeviceId, act: Act, storeOk: bool)
    requires id in t.devices
    ensures id in Acted(t, id, act, storeOk).devices
    ensures var now := Acted(t, id, act, storeOk).devices[id].pairState;
            now == t.devices[id].pairState || now in {NotPaired, Paired} || act == Update(now)
  {
  }

  lemma RequestsAreObserved(w: World, e: Event)
    requires MapsAgree(w) && Pairing(e)
    ensures ActOf(w.core, e) == Update(Requesting) ==>
              e.id in w.history.lastRegistered && LastLink(w, e.id) in Step(w, e).history.userAsked
    ensures ActOf(w.core, e) == Update(Requested) ==>
              e.id in w.history.lastRegistered && LastLink(w, e.id) in Step(w, e).history.peerAsked
  {
    if e.id in w.core.connIds {
      assert RecordedOk(w, e.id, w.core.connIds[e.id]);
    }
  }

  lemma PairingKeepsPending(w: World, e: Event)
    requires TableOk(w.core.table) && MapsAgree(w) && PendingOk(w) && Pairing(e)
    ensures PendingOk(Step(w, e))
  {
    PairingActs(w.core, e);
    PairingObserves(w.history, w.core, e);
    RequestsAreObserved(w, e);
    var act := ActOf(w.core, e);
    ActKeepsTable(w.core.table, e.id, act, e.storeOk);
    var w' := Step(w, e);
    forall d | d in w'.core.table.devices && d in w'.history.lastRegistered
      ensures Justified(w', d, w'.core.table.devices[d].pairState)
    {
      assert Justified(w, d, w.core.table.devices[d].pairState);
      if d == e.id {
        ActState(w.core.table, d, act, e.storeOk);
      }
    }
  }

  /** A pin appears only out of a pending state, and only with the other side's approval. */
  lemma PairingKeepsPins(store: Store, w: World, e: Event)
    requires TableOk(w.core.table) && Registered(w) && MapsAgree(w) && PendingOk(w) && Pairing(e)
    requires PinsJustified(store, w)
    ensures PinsJustified(store, Step(w, e))
  {
    PairingActs(w.core, e);
    PairingObserves(w.history, w.core, e);
    OtherPinsStay(w.core, e);
    var w' := Step(w, e);
    var was, now := w.core.table.store, w'.core.table.store;
    forall d | PersistedPin(now, d).Some?
      ensures PersistedPin(store, d) == PersistedPin(now, d) || Consent(w'.history, d, PersistedPin(now, d).value)
    {
      if PersistedPin(now, d) == PersistedPin(was, d) {
        ConsentGrows(w.history, w'.history, d, PersistedPin(now, d).value);
      } else {
        NewPinHasConsent(w, e);
      }
    }
  }

  lemma OtherPinsStay(c: Core, e: Event)
    requires TableOk(c.table) && Pairing(e)
    ensures forall d: DeviceId | d != e.id ::
              PersistedPin(CoreStep(c, e).table.store, d) == PersistedPin(c.table.store, d)
  {
    PairingActs(c, e);
    ActKeepsTable(c.table, e.id, ActOf(c, e), e.storeOk);
  }

  lemma NewPinIsApproved(t: Table, id: DeviceId, act: Act, storeOk: bool)
    requires TableOk(t) && (act.Update? ==> act.state != Paired)
    requires PersistedPin(Acted(t, id, act, storeOk).store, id) != PersistedPin(t.store, id)
    requires PersistedPin(Acted(t, id, act, storeOk).store, id).Some?
    ensures act == Approve && SetPairedOk(t, id, true, storeOk)
    ensures PersistedPin(Acted(t, id, act, storeOk).store, id) == t.devices[id].live
  {
    match act
    case Keep => assert false;
    case Queue(_) => assert false;
    case Update(state) => UpdateKeepsTable(t, id, state, storeOk);
    case Approve => SetPairedKeepsTable(t, id, true, storeOk);
    case Cancel => SetPairedKeepsTable(t, id, false, storeOk);
  }

  lemma NewPinHasConsent(w: World, e: Event)
    requires TableOk(w.core.table) && Registered(w) && MapsAgree(w) && PendingOk(w) && Pairing(e)
    requires PersistedPin(Step(w, e).core.table.store, e.id) != PersistedPin(w.core.table.store, e.id)
    requires PersistedPin(Step(w, e).core.table.store, e.id).Some?
    ensures Consent(Step(w, e).history, e.id, PersistedPin(Step(w, e).core.table.store, e.id).value)
  {
    PairingActs(w.core, e);
    NewPinIsApproved(w.core.table, e.id, ActOf(w.core, e), e.storeOk);
    var h := Step(w, e).history;
    assert e.id in w.core.connIds;
    assert RecordedOk(w, e.id, w.core.connIds[e.id]);
    assert PresentedBy(w, e.id, w.core.table.devices[e.id]);
    assert Justified(w, e.id, w.core.table.devices[e.id].pairState);
    var link := LastLink(w, e.id);
    assert link in h.presented && link in h.peerAsked && link in h.userAsked;
    assert h.presented[link] == Presented(e.id, w.core.table.devices[e.id].live.value);
  }

  lemma PairingKeeps(store: Store, w: World, e: Event)
    requires Inv(store, w) && Legal(w, e) && Pairing(e)
    ensures Inv(store, Step(w, e))
  {
    PairingKeepsQueue(w, e);
    PairingKeepsPending(w, e);
    PairingKeepsPins(store, w, e);
    PairingKeepsLinks(w, e);
    PairingActs(w.core, e);
    ActKeepsTable(w.core.table, e.id, ActOf(w.core, e), e.storeOk);
  }

  lemma PairingKeepsLinks(w: World, e: Event)
    requires TableOk(w.core.table) && Registered(w) && MapsAgree(w) && LinksOk(w) && AnnouncedOk(w) && Pairing(e)
    ensures var w' := Step(w, e); Registered(w') && MapsAgree(w') && LinksOk(w') && AnnouncedOk(w')
  {
    PairingActs(w.core, e);
    PairingObserves(w.history, w.core, e);
    ActKeepsTable(w.core.table, e.id, ActOf(w.core, e), e.storeOk);
    SameIdentities(w, Step(w, e));
    forall d: DeviceId
      ensures Announced(Step(w, e).core.connLog, d) == Announced(w.core.connLog, d)
    {
      PairingAnnouncesNothing(w.core, e, d);
    }
    forall d: DeviceId
      ensures Owed(Step(w, e).history, d) == Owed(w.history, d)
    {
    }
  }

  lemma SameIdentities(w: World, w': World)
    requires Registered(w) && MapsAgree(w) && LinksOk(w)
    requires w'.core.table.devices.Keys == w.core.table.devices.Keys
    requires forall d | d in w.core.table.devices :: w'.core.table.devices[d].live == w.core.table.devices[d].live
    requires w'.core.writers == w.core.writers && w'.core.connIds == w.core.connIds
    requires w'.history.presented == w.history.presented && w'.history.open == w.history.open
    requires w'.history.lastRegistered == w.history.lastRegistered && w'.history.boot == w.history.boot
    ensures Registered(w') && MapsAgree(w') && LinksOk(w')
  {
    forall d | d in w'.core.table.devices
      ensures PresentedBy(w', d, w'.core.table.devices[d])
    {
      assert PresentedBy(w, d, w.core.table.devices[d]);
    }
    forall d | d in w'.core.connIds
      ensures RecordedOk(w', d, w'.core.connIds[d])
    {
      assert RecordedOk(w, d, w.core.connIds[d]);
    }
  }

  // --- Steps that change connections -------------------------------------------------------

  predicate Unlinking(e: Event) {
    e.Closed? || e.AppDisconnect? || e.AppSetPlugin?
  }

  lemma UnlinkingKeepsPins(store: Store, w: World, e: Event)
    requires PinsJustified(store, w) && Unlinking(e)
    ensures PinsJustified(store, Step(w, e))
  {
    var w' := Step(w, e);
    assert w'.core.table == w.core.table;
    forall d | PersistedPin(w'.core.table.store, d).Some?
      ensures || PersistedPin(store, d) == PersistedPin(w'.core.table.store, d)
              || Consent(w'.history, d, PersistedPin(w'.core.table.store, d).value)
    {
      ConsentGrows(w.history, w'.history, d, PersistedPin(w.core.table.store, d).value);
    }
  }

  lemma UnlinkingKeepsTable(w: World, e: Event)
    requires TableOk(w.core.table) && Registered(w) && PendingOk(w) && QueueOk(w) && Unlinking(e)
    ensures var w' := Step(w, e); TableOk(w'.core.table) && Registered(w') && PendingOk(w') && QueueOk(w')
  {
    var w' := Step(w, e);
    assert w'.core.table == w.core.table;
    forall d | d in w'.core.table.devices
      ensures DeviceOk(w'.core.table.store, d, w'.core.table.devices[d]) && PresentedBy(w', d, w'.core.table.devices[d])
    {
      assert DeviceOk(w.core.table.store, d, w.core.table.devices[d]) && PresentedBy(w, d, w.core.table.devices[d]);
    }
  }

  lemma UnlinkingKeepsLinks(w: World, e: Event)
    requires Registered(w) && MapsAgree(w) && LinksOk(w) && Legal(w, e) && Unlinking(e)
    ensures MapsAgree(Step(w, e)) && LinksOk(Step(w, e))
  {
    var w' := Step(w, e);
    forall d | d in w'.core.connIds
      ensures RecordedOk(w', d, w'.core.connIds[d])
    {
      assert RecordedOk(w, d, w.core.connIds[d]);
      assert PresentedBy(w, d, w.core.table.devices[d]);
    }
  }

  lemma UnlinkingKeeps(store: Store, w: World, e: Event)
    requires Inv(store, w) && Legal(w, e) && Unlinking(e)
    ensures Inv(store, Step(w, e))
  {
    UnlinkingKeepsTable(w, e);
    UnlinkingKeepsLinks(w, e);
    UnlinkingKeepsPins(store, w, e);
    UnlinkingKeepsAnnounced(w, e);
  }

  lemma UnlinkingKeepsAnnounced(w: World, e: Event)
    requires Registered(w) && MapsAgree(w) && LinksOk(w) && AnnouncedOk(w) && Legal(w, e) && Unlinking(e)
    ensures AnnouncedOk(Step(w, e))
  {
    var w' := Step(w, e);
    forall d: DeviceId
      ensures d in w'.core.writers ==> Announced(w'.core.connLog, d)
      ensures Announced(w'.core.connLog, d) ==> d in w'.core.writers || Owed(w'.history, d)
    {
      AnnouncedSnoc(w.core.connLog, Disconnected(e.id), d);
      if Owed(w.history, d) {
        var link :| link in w.history.open && link in w.history.presented && w.history.presented[link].id == d;
        if link in w'.history.open {
          assert Owed(w'.history, d);
        } else {
          assert d == e.id;
        }
      }
      if d in w.core.connIds {
        assert RecordedOk(w, d, w.core.connIds[d]);
        var link := Link(w.history.boot, w.core.connIds[d]);
        assert link in w.history.open && link in w.history.presented;
        if e.AppSetPlugin? && d == e.id {
          OwedBecauseRecorded(w, d);
        }
      }
    }
  }

  lemma OwedBecauseRecorded(w: World, id: DeviceId)
    requires MapsAgree(w) && id in w.core.connIds && Registered(w)
    ensures Owed(w.history, id)
  {
    assert RecordedOk(w, id, w.core.connIds[id]);
    assert PresentedBy(w, id, w.core.table.devices[id]);
  }

  lemma NewConnectionKeeps(store: Store, w: World, e: Event)
    requires Inv(store, w) && Legal(w, e) && e.NewConnection?
    ensures Inv(store, Step(w, e))
  {
    var admitted := Admitted(w.core, e.id, e.certificate, e.access);
    var w' := Step(w, e);
    if admitted.Some? {
      NewConnectionKeepsTable(store, w, e);
      NewConnectionKeepsPins(store, w, e);
      NewConnectionKeepsLinks(store, w, e);
      NewConnectionKeepsAnnounced(w, e);
    } else {
      assert w' == w;
    }
  }

  lemma NewConnectionKeepsTable(store: Store, w: World, e: Event)
    requires Inv(store, w) && Legal(w, e) && e.NewConnection?
    requires Admitted(w.core, e.id, e.certificate, e.access).Some?
    ensures var w' := Step(w, e);
            TableOk(w'.core.table) && Registered(w') && PendingOk(w') && QueueOk(w')
  {
    var w' := Step(w, e);
    BindingAgrees(w.core.table.store, e.id, e.access, e.certificate);
    forall d | d in w'.core.table.devices
      ensures DeviceOk(w'.core.table.store, d, w'.core.table.devices[d])
      ensures PresentedBy(w', d, w'.core.table.devices[d])
      ensures Justified(w', d, w'.core.table.devices[d].pairState)
    {
      if d != e.id {
        assert DeviceOk(w.core.table.store, d, w.core.table.devices[d]);
        assert PresentedBy(w, d, w.core.table.devices[d]);
        assert Justified(w, d, w.core.table.devices[d].pairState);
      }
    }
  }

  lemma NewConnectionKeepsPins(store: Store, w: World, e: Event)
    requires Inv(store, w) && Legal(w, e) && e.NewConnection?
    ensures PinsJustified(store, Step(w, e))
  {
    var w' := Step(w, e);
    assert w'.core.table.store == w.core.table.store;
    forall d | PersistedPin(w'.core.table.store, d).Some?
      ensures || PersistedPin(store, d) == PersistedPin(w'.core.table.store, d)
              || Consent(w'.history, d, PersistedPin(w'.core.table.store, d).value)
    {
      ConsentGrows(w.history, w'.history, d, PersistedPin(w.core.table.store, d).value);
    }
  }

  lemma NewConnectionKeepsLinks(store: Store, w: World, e: Event)
    requires Inv(store, w) && Legal(w, e) && e.NewConnection?
    requires Admitted(w.core, e.id, e.certificate, e.access).Some?
    ensures var w' := Step(w, e); MapsAgree(w') && LinksOk(w')
  {
    var w' := Step(w, e);
    assert w'.core.writers == w'.core.connIds;
    forall d | d in w'.core.connIds
      ensures RecordedOk(w', d, w'.core.connIds[d])
    {
      if d != e.id {
        assert RecordedOk(w, d, w.core.connIds[d]);
      }
    }
  }

  lemma OwedStays(h: History, h': History, id: DeviceId)
    requires h.open <= h'.open
    requires forall link | link in h.presented && link in h.open ::
               link in h'.presented && h'.presented[link] == h.presented[link]
    ensures Owed(h, id) ==> Owed(h', id)
  {
    if Owed(h, id) {
      var link :| link in h.open && link in h.presented && h.presented[link].id == id;
      assert link in h'.open && link in h'.presented && h'.presented[link].id == id;
    }
  }

  lemma NewConnectionKeepsAnnounced(w: World, e: Event)
    requires Registered(w) && MapsAgree(w) && AnnouncedOk(w) && Legal(w, e) && e.NewConnection?
    requires Admitted(w.core, e.id, e.certificate, e.access).Some?
    ensures AnnouncedOk(Step(w, e))
  {
    var w' := Step(w, e);
    var device := Admitted(w.core, e.id, e.certificate, e.access).value;
    assert device.id == e.id;
    forall d: DeviceId
      ensures d in w'.core.writers ==> Announced(w'.core.connLog, d)
      ensures Announced(w'.core.connLog, d) ==> d in w'.core.writers || Owed(w'.history, d)
    {
      AnnouncedSnoc(w.core.connLog, Connected(device), d);
      if d in w.core.connIds {
        OwedBecauseRecorded(w, d);
      }
      OwedStays(w.history, w'.history, d);
    }
  }

  lemma OtherStepsKeepStore(w: World, e: Event)
    requires !Pairing(e)
    ensures Step(w, e).core.table.store == w.core.table.store
  {
    if Quiet(e) {
      QuietFrame(w.core, e);
    }
  }

  // --- Every run ---------------------------------------------------------------------------

  lemma RunSnoc(store: Store, events: seq<Event>, e: Event)
    ensures Run(store, events + [e]) == Step(Run(store, events), e)
    ensures LegalRun(store, events + [e]) <==> LegalRun(store, events) && Legal(Run(store, events), e)
  {
    assert (events + [e])[..|events + [e]| - 1] == events;
  }

  lemma StepKeeps(store: Store, w: World, e: Event)
    requires Inv(store, w) && Legal(w, e)
    ensures Inv(store, Step(w, e))
  {
    if Quiet(e) {
      QuietKeeps(store, w, e);
    } else if Pairing(e) {
      PairingKeeps(store, w, e);
    } else if Unlinking(e) {
      UnlinkingKeeps(store, w, e);
    } else if e.NewConnection? {
      NewConnectionKeeps(store, w, e);
    } else {
      RestartKeeps(store, w);
    }
  }

  lemma {:induction false} EveryRun(store: Store, events: seq<Event>)
    requires LegalRun(store, events)
    ensures Inv(store, Run(store, events))
    decreases |events|
  {
    if events != [] {
      EveryRun(store, events[..|events| - 1]);
      StepKeeps(store, Run(store, events[..|events| - 1]), events[|events| - 1]);
    }
  }
}
