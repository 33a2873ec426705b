/** What every handler must do, in terms of the fields it changes: when it changes them, what
    they become, and that everything else stays. Guarantees.dfy says what may happen at most. */
module Effects {
  import opened Common
  import opened Devices
  import opened PairingTable
  import opened Registry
  import opened RegistryInvariants
  import opened RegistryTheorems
  import opened Guarantees

  /** One packet on the writer of `id`, if it has one. */
  function OnWriter(c: Core, id: DeviceId, purpose: Purpose): seq<Sent> {
    if id in c.writers then [Sent(id, c.writers[id], purpose)] else []
  }

  predicate StateIs(c: Core, id: DeviceId, state: PairState) {
    id in c.table.devices && c.table.devices[id].pairState == state
  }

  /** The device takes this state and pin, in memory and for the next start; no other does, and
      one word about it is queued. */
  ghost predicate Becomes(c: Core, c': Core, id: DeviceId, state: PairState, pin: Option<Cert>, word: CoreEvent)
    requires id in c.table.devices
  {
    && c'.table.devices == c.table.devices[id := c.table.devices[id].(pairState := state, pinned := pin)]
    && PersistedPin(c'.table.store, id) == pin
    && SamePinsBut(c.table.store, c'.table.store, id)
    && c'.table.queue == c.table.queue + [word]
  }

  /** The device with its connection's certificate pinned. */
  function Approved(device: Device): Device {
    device.(pairState := Paired, pinned := device.live)
  }

  predicate SameConnections(c: Core, c': Core) {
    c'.writers == c.writers && c'.connIds == c.connIds && c'.dispatched == c.dispatched
  }

  lemma TableAgrees(store: Store, events: seq<Event>)
    requires LegalRun(store, events)
    ensures TableOk(Run(store, events).core.table)
  {
    EveryRun(store, events);
  }

  // --- Pairing -------------------------------------------------------------------------------

  lemma Approves(c: Core, c': Core, id: DeviceId)
    requires TableOk(c.table) && id in c.table.devices
    requires c.table.devices[id].pairState in {Requesting, Requested}
    requires c'.table == SetPaired(c.table, id, true, true)
    ensures Becomes(c, c', id, Paired, c.table.devices[id].live, DevicePaired(Approved(c.table.devices[id])))
  {
    assert DeviceOk(c.table.store, id, c.table.devices[id]);
    SetPairedKeepsTable(c.table, id, true, true);
  }

  lemma TakesState(c: Core, c': Core, id: DeviceId, state: PairState)
    requires TableOk(c.table) && id in c.table.devices && state != Paired
    requires c'.table == UpdatePairState(c.table, id, state, true)
    ensures Becomes(c, c', id, state, None, DevicePairStateChanged(id, state))
  {
    assert DeviceOk(c.table.store, id, c.table.devices[id]);
    UpdateKeepsTable(c.table, id, state, true);
  }

  lemma WritersAreKnown(w: World, id: DeviceId)
    requires MapsAgree(w)
    ensures id in w.core.writers ==> id in w.core.table.devices
  {
    if id in w.core.connIds {
      assert RecordedOk(w, id, w.core.connIds[id]);
    }
  }

  lemma PairEffect(c: Core, e: Event)
    requires TableOk(c.table) && e.AppPair? && (e.id in c.writers ==> e.id in c.table.devices)
    ensures var c' := CoreStep(c, e);
            var asks := e.id in c.writers && !StateIs(c, e.id, Paired);
            && c'.sent == c.sent + (if asks then OnWriter(c, e.id, PairPacket(true)) else [])
            && (if asks && e.storeOk
                then Becomes(c, c', e.id, Requesting, None, DevicePairStateChanged(e.id, Requesting))
                else c'.table == c.table)
            && c'.connLog == c.connLog && SameConnections(c, c')
  {
    if e.id in c.table.devices {
      assert DeviceOk(c.table.store, e.id, c.table.devices[e.id]);
      if e.id in c.writers && !StateIs(c, e.id, Paired) && e.storeOk {
        TakesState(c, CoreStep(c, e), e.id, Requesting);
      }
    }
  }

  lemma AcceptEffect(c: Core, e: Event)
    requires TableOk(c.table) && e.AppAccept?
    ensures var c' := CoreStep(c, e);
            if e.id in c.writers && StateIs(c, e.id, Requested) && e.storeOk then
              && Becomes(c, c', e.id, Paired, c.table.devices[e.id].live, DevicePaired(Approved(c.table.devices[e.id])))
              && c'.sent == c.sent + OnWriter(c, e.id, PairPacket(true))
              && c'.connLog == c.connLog && SameConnections(c, c')
            else c' == c
  {
    if e.id in c.writers && StateIs(c, e.id, Requested) {
      assert DeviceOk(c.table.store, e.id, c.table.devices[e.id]);
      if e.storeOk {
        Approves(c, CoreStep(c, e), e.id);
      }
    }
  }

  lemma RejectEffect(c: Core, e: Event)
    requires TableOk(c.table) && e.AppReject?
    ensures var c' := CoreStep(c, e);
            && c'.sent == c.sent + OnWriter(c, e.id, PairPacket(false))
            && (if e.id in c.table.devices && e.storeOk
                then Becomes(c, c', e.id, NotPaired, None, DevicePairStateChanged(e.id, NotPaired))
                else c'.table == c.table)
            && c'.connLog == c.connLog && SameConnections(c, c')
  {
    if e.id in c.table.devices && e.storeOk {
      assert DeviceOk(c.table.store, e.id, c.table.devices[e.id]);
      TakesState(c, CoreStep(c, e), e.id, NotPaired);
    }
  }

  lemma Cancels(c: Core, c': Core, id: DeviceId)
    requires TableOk(c.table) && ValidId(id) && c'.table == SetPaired(c.table, id, false, true)
    ensures if id in c.table.devices then Becomes(c, c', id, NotPaired, None, DevicePairCancelled(id))
            else
              && c'.table.devices == c.table.devices && c'.table.store == c.table.store - {id}
              && c'.table.queue == c.table.queue + [DevicePairCancelled(id)]
  {
    if id in c.table.devices {
      assert DeviceOk(c.table.store, id, c.table.devices[id]);
      SetPairedKeepsTable(c.table, id, false, true);
    }
  }

  lemma CancelWorks(c: Core, id: DeviceId, storeOk: bool)
    requires TableOk(c.table)
    ensures SetPairedOk(c.table, id, false, storeOk) <==> ValidId(id) && storeOk
  {
    if id in c.table.devices {
      assert DeviceOk(c.table.store, id, c.table.devices[id]);
    }
  }

  lemma UnpairEffect(c: Core, e: Event)
    requires TableOk(c.table) && e.AppUnpair?
    ensures var c' := CoreStep(c, e);
            && c'.sent == c.sent + OnWriter(c, e.id, PairPacket(false))
            && SameConnections(c, c')
            && (if !ValidId(e.id) || !e.storeOk then c'.table == c.table && c'.connLog == c.connLog
                else
                  && c'.connLog == c.connLog + [PairStateChanged(e.id, NotPaired)]
                  && (if e.id in c.table.devices
                      then Becomes(c, c', e.id, NotPaired, None, DevicePairCancelled(e.id))
                      else
                        && c'.table.devices == c.table.devices && c'.table.store == c.table.store - {e.id}
                        && c'.table.queue == c.table.queue + [DevicePairCancelled(e.id)]))
  {
    CancelWorks(c, e.id, e.storeOk);
    if ValidId(e.id) && e.storeOk {
      Cancels(c, CoreStep(c, e), e.id);
    }
  }

  /** What a pair:true over the current connection does. */
  ghost predicate PairAnswered(c: Core, c': Core, id: DeviceId, storeOk: bool) {
    if StateIs(c, id, Requesting) then
      && c'.connLog == c.connLog
      && (if storeOk
          then Becomes(c, c', id, Paired, c.table.devices[id].live, DevicePaired(Approved(c.table.devices[id])))
          else c'.table == c.table)
    else if StateIs(c, id, NotPaired) || StateIs(c, id, Requested) then
      && c'.connLog == c.connLog + [PairingRequested(id)]
      && (if storeOk then Becomes(c, c', id, Requested, None, DevicePairStateChanged(id, Requested))
          else c'.table == c.table)
    else c' == c
  }

  /** What a pair:false over the current connection does. */
  ghost predicate PairRefused(c: Core, c': Core, id: DeviceId, storeOk: bool) {
    if StateIs(c, id, Paired) then
      && c'.connLog == c.connLog + [PairStateChanged(id, NotPaired)]
      && (if storeOk then Becomes(c, c', id, NotPaired, None, DevicePairStateChanged(id, NotPaired))
          else c'.table == c.table)
    else c' == c
  }

  /** What a packet over the current connection does. */
  ghost predicate Taken(c: Core, c': Core, id: DeviceId, conn: ConnId, body: Body, storeOk: bool) {
    && c'.sent == c.sent && SameConnections(c, c')
    && (if body == Body.Pair(true) then PairAnswered(c, c', id, storeOk)
        else if body == Body.Pair(false) then PairRefused(c, c', id, storeOk)
        else if body == BadPair then c' == c
        else
          && c'.table.devices == c.table.devices && c'.table.store == c.table.store && c'.connLog == c.connLog
          && c'.table.queue
             == c.table.queue + [if body.Plugin? then PacketReceived(id, conn, body.packet) else CoreError])
  }

  lemma IncomingPairEffect(c: Core, e: Event)
    requires TableOk(c.table) && e.Incoming? && e.body.Pair? && Current(c, e.id, e.conn)
    ensures Taken(c, CoreStep(c, e), e.id, e.conn, e.body, e.storeOk)
  {
    if e.id in c.table.devices {
      assert DeviceOk(c.table.store, e.id, c.table.devices[e.id]);
      var c' := CoreStep(c, e);
      if e.storeOk {
        match c.table.devices[e.id].pairState
        case Requesting => if e.body.flag { Approves(c, c', e.id); }
        case Paired => if !e.body.flag { TakesState(c, c', e.id, NotPaired); }
        case _ => if e.body.flag { TakesState(c, c', e.id, Requested); }
      }
    }
  }

  lemma IncomingEffect(c: Core, e: Event)
    requires TableOk(c.table) && e.Incoming?
    ensures if Current(c, e.id, e.conn) then Taken(c, CoreStep(c, e), e.id, e.conn, e.body, e.storeOk)
            else CoreStep(c, e) == c
  {
    if e.body.Pair? && Current(c, e.id, e.conn) {
      IncomingPairEffect(c, e);
    }
  }

  // --- Connections ---------------------------------------------------------------------------

  /** The connection must be let in: its certificate is the pinned one, or there is none, and it
      does not replace the certificate of a connection still recorded. */
  predicate Welcome(c: Core, id: DeviceId, certificate: Cert, access: Access) {
    && ValidId(id) && certificate != []
    && (id in c.table.store ==> access != Unreadable && c.table.store[id].id == id)
    && PersistedPin(c.table.store, id) in {None, Some(certificate)}
    && (id in c.connIds && id in c.table.devices ==> c.table.devices[id].live == Some(certificate))
  }

  /** The device a welcome connection registers. */
  function Newcomer(c: Core, id: DeviceId, certificate: Cert): Device {
    var pin := PersistedPin(c.table.store, id);
    Device(id, if pin == None then NotPaired else Paired, pin, Some(certificate))
  }

  lemma WelcomeIsAdmitted(c: Core, id: DeviceId, certificate: Cert, access: Access)
    requires Determined(c.table.store, id, access)
    ensures Welcome(c, id, certificate, access) <==> Admitted(c, id, certificate, access).Some?
    ensures Welcome(c, id, certificate, access) ==>
              Admitted(c, id, certificate, access) == Some(Newcomer(c, id, certificate))
  {
  }

  /** What registering does: the connection takes over the device, is greeted if the device is
      paired, and announced; if its task has gone, the device has no connection. */
  predicate TakesOver(c: Core, c': Core, device: Device, conn: ConnId, acceptorAlive: bool) {
    var id := device.id;
    && c'.table == c.table.(devices := c.table.devices[id := device])
    && c'.dispatched == c.dispatched
    && (if acceptorAlive then
          && c'.writers == c.writers[id := conn] && c'.connIds == c.connIds[id := conn]
          && c'.sent == c.sent + (if device.pairState == Paired then [Sent(id, conn, Greeting)] else [])
          && c'.connLog == c.connLog + [Connected(device)]
        else
          && c'.writers == c.writers - {id} && c'.connIds == c.connIds - {id}
          && c'.sent == c.sent && c'.connLog == c.connLog)
  }

  lemma NewConnectionEffect(c: Core, e: Event)
    requires e.NewConnection? && Determined(c.table.store, e.id, e.access)
    ensures if Welcome(c, e.id, e.certificate, e.access)
            then TakesOver(c, CoreStep(c, e), Newcomer(c, e.id, e.certificate), e.conn, e.acceptorAlive)
            else CoreStep(c, e) == c
  {
    WelcomeIsAdmitted(c, e.id, e.certificate, e.access);
    assert c.writers[e.id := e.conn] - {e.id} == c.writers - {e.id};
    assert c.connIds[e.id := e.conn] - {e.id} == c.connIds - {e.id};
  }

  /** The device loses its connection; these events are sent on the channel. */
  predicate Drops(c: Core, c': Core, id: DeviceId, told: seq<ConnEvent>) {
    && c'.table == c.table && c'.sent == c.sent && c'.dispatched == c.dispatched
    && c'.writers == c.writers - {id} && c'.connIds == c.connIds - {id}
    && c'.connLog == c.connLog + told
  }

  lemma DroppingEffect(c: Core, e: Event)
    requires Unlinking(e) && c.writers == c.connIds
    ensures var c' := CoreStep(c, e);
            match e
            case Closed(id, conn) =>
              if id in c.connIds && c.connIds[id] != conn then c' == c else Drops(c, c', id, [Disconnected(id)])
            case AppDisconnect(id) => if id in c.writers then Drops(c, c', id, [Disconnected(id)]) else c' == c
            case AppSetPlugin(id) => if id in c.writers then Drops(c, c', id, []) else c' == c
            case _ => true
  {
  }

  // --- Packets -------------------------------------------------------------------------------

  /** The packets go out in order on the writer of the device if it is paired, and not at all
      otherwise. */
  predicate Delivers(c: Core, now: seq<Sent>, id: DeviceId, packets: seq<Packet>) {
    if StateIs(c, id, Paired) && id in c.writers then
      && |now| == |c.sent| + |packets| && c.sent <= now
      && forall i | 0 <= i < |packets| :: now[|c.sent| + i] == Sent(id, c.writers[id], Data(packets[i]))
    else now == c.sent
  }

  lemma PairedMeansTrusted(c: Core, id: DeviceId)
    requires TableOk(c.table)
    ensures IsPaired(c.table, id) <==> StateIs(c, id, Paired)
  {
    if id in c.table.devices {
      assert DeviceOk(c.table.store, id, c.table.devices[id]);
    }
  }

  lemma DeliveryDelivers(c: Core, id: DeviceId, packets: seq<Packet>)
    requires TableOk(c.table)
    ensures Delivers(c, SendFiles(c, id, packets).sent, id, packets)
    ensures SendFiles(c, id, packets) == c.(sent := SendFiles(c, id, packets).sent)
  {
    PairedMeansTrusted(c, id);
    SendFilesDelivers(c, id, packets);
  }

  lemma SendEffect(c: Core, id: DeviceId, packet: Packet)
    requires TableOk(c.table)
    ensures Delivers(c, SendData(c, id, packet).sent, id, [packet])
    ensures SendData(c, id, packet) == c.(sent := SendData(c, id, packet).sent)
  {
    PairedMeansTrusted(c, id);
  }

  /** What handling the oldest core event does. */
  predicate Handled(c: Core, c': Core, event: CoreEvent, contacts: bool, mpris: bool) {
    && c'.table == c.table && c'.writers == c.writers && c'.connIds == c.connIds
    && c'.dispatched == c.dispatched + Handed(c, event)
    && c'.connLog == c.connLog + Words(event)
    && (if event.SendPacket? then Delivers(c, c'.sent, event.id, [event.packet])
        else if event.SendPayload? then Delivers(c, c'.sent, event.id, [event.packet])
        else if event.DevicePaired? then
          c'.sent == c.sent + (if contacts then OnWriter(c, event.device.id, Bootstrap) else [])
                     + (if mpris then OnWriter(c, event.device.id, Bootstrap) else [])
        else c'.sent == c.sent)
  }

  /** The plugins get a packet exactly of the current connection of a paired device. */
  function Handed(c: Core, event: CoreEvent): seq<Dispatch> {
    if event.PacketReceived? && event.id in c.connIds && c.connIds[event.id] == event.conn
       && StateIs(c, event.id, Paired)
    then [Dispatch(c.table.devices[event.id], event.conn, event.packet)]
    else []
  }

  function Words(event: CoreEvent): seq<ConnEvent> {
    if event.DevicePaired? then [PairedNotice(event.device)]
    else if event.DevicePairCancelled? then [PairStateChanged(event.id, NotPaired)]
    else if event.DevicePairStateChanged? then [PairStateChanged(event.id, event.state)]
    else []
  }

  lemma HandlingEffect(c: Core, event: CoreEvent, contacts: bool, mpris: bool)
    requires TableOk(c.table)
    ensures Handled(c, HandleCoreEvent(c, event, contacts, mpris), event, contacts, mpris)
  {
    if event.SendPacket? || event.SendPayload? {
      SendEffect(c, event.id, event.packet);
    }
  }

  lemma CoreNextEffect(c: Core, e: Event)
    requires TableOk(c.table) && e.CoreNext?
    ensures var c' := CoreStep(c, e);
            if c.table.queue == [] then c' == c
            else Handled(Popped(c), c', c.table.queue[0], e.contacts, e.mpris)
  {
    if c.table.queue != [] {
      assert forall id | id in c.table.devices :: DeviceOk(c.table.store, id, c.table.devices[id]);
      HandlingEffect(Popped(c), c.table.queue[0], e.contacts, e.mpris);
    }
  }

  /** The core with its oldest event taken off the queue. */
  function Popped(c: Core): Core
    requires c.table.queue != []
  {
    c.(table := c.table.(queue := c.table.queue[1..]))
  }
}
