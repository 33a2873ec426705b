/** What the registry must get done over its runs: a pairing both sides ask for completes, and a
    packet of a paired device reaches the plugins. */
module Progress {
  import opened Common
  import opened Devices
  import opened PairingTable
  import opened Registry
  import opened RegistryInvariants
  import opened RegistryTheorems
  import opened Guarantees
  import opened Effects
  import opened MirrorAgreement

  /** The device is paired, and a restart would trust what this connection presented. */
  predicate PairedOver(w: World, id: DeviceId, conn: ConnId) {
    var link := Link(w.history.boot, conn);
    && StateIs(w.core, id, Paired)
    && link in w.history.presented
    && PersistedPin(w.core.table.store, id) == Some(w.history.presented[link].certificate)
  }

  /** The device's current connection: it may speak, and it has a writer. */
  lemma CurrentSpeaks(store: Store, events: seq<Event>, id: DeviceId, conn: ConnId)
    requires LegalRun(store, events) && Current(Run(store, events).core, id, conn)
    ensures var w := Run(store, events);
            var link := Link(w.history.boot, conn);
            && Speaks(w.history, id, conn) && id in w.core.writers && w.core.writers[id] == conn
            && id in w.core.table.devices && link in w.history.presented
            && w.core.table.devices[id].live == Some(w.history.presented[link].certificate)
  {
    EveryRun(store, events);
    var w := Run(store, events);
    assert RecordedOk(w, id, conn);
    assert PresentedBy(w, id, w.core.table.devices[id]);
  }

  /** The peer's answer to the user's own request completes the pairing. */
  lemma OwnRequestCompletes(store: Store, events: seq<Event>, id: DeviceId, conn: ConnId)
    requires LegalRun(store, events) && Current(Run(store, events).core, id, conn)
    requires StateIs(Run(store, events).core, id, Requesting)
    ensures LegalRun(store, events + [Incoming(id, conn, Body.Pair(true), true)])
    ensures PairedOver(Run(store, events + [Incoming(id, conn, Body.Pair(true), true)]), id, conn)
  {
    var e := Incoming(id, conn, Body.Pair(true), true);
    CurrentSpeaks(store, events, id, conn);
    RunSnoc(store, events, e);
    EveryRun(store, events);
    IncomingEffect(Run(store, events).core, e);
  }

  /** The user's acceptance of the peer's request completes the pairing, and tells the peer. */
  lemma AcceptCompletes(store: Store, events: seq<Event>, id: DeviceId, conn: ConnId)
    requires LegalRun(store, events) && Current(Run(store, events).core, id, conn)
    requires StateIs(Run(store, events).core, id, Requested)
    ensures LegalRun(store, events + [AppAccept(id, true)])
    ensures PairedOver(Run(store, events + [AppAccept(id, true)]), id, conn)
    ensures Run(store, events + [AppAccept(id, true)]).core.sent
            == Run(store, events).core.sent + [Sent(id, conn, PairPacket(true))]
  {
    CurrentSpeaks(store, events, id, conn);
    RunSnoc(store, events, AppAccept(id, true));
    EveryRun(store, events);
    AcceptEffect(Run(store, events).core, AppAccept(id, true));
  }

  /** Accepting gives a requested, connected device its pin, and otherwise does nothing. */
  lemma AcceptingWorks(store: Store, events: seq<Event>, id: DeviceId, storeOk: bool)
    requires LegalRun(store, events)
    ensures var e := AppAccept(id, storeOk);
            var w := Run(store, events);
            var c, c' := w.core, CoreStep(w.core, e);
            if id in c.writers && StateIs(c, id, Requested) && storeOk then
              && Becomes(c, c', id, Paired, c.table.devices[id].live, DevicePaired(Approved(c.table.devices[id])))
              && c'.sent == c.sent + [Sent(id, c.writers[id], PairPacket(true))]
              && c'.connLog == c.connLog && SameConnections(c, c')
              && PairedOver(Run(store, events + [e]), id, c.writers[id])
            else c' == c
  {
    EveryRun(store, events);
    var c := Run(store, events).core;
    AcceptEffect(c, AppAccept(id, storeOk));
    if id in c.writers && StateIs(c, id, Requested) && storeOk {
      AcceptCompletes(store, events, id, c.writers[id]);
    }
  }

  /** Whoever asks first, once both sides have asked over the current connection of a device that
      was not paired, it is, with the certificate this connection presented. */
  lemma BothAsking(store: Store, events: seq<Event>, id: DeviceId, conn: ConnId, userFirst: bool)
    requires LegalRun(store, events) && Current(Run(store, events).core, id, conn)
    requires StateIs(Run(store, events).core, id, NotPaired)
    ensures var first, second := if userFirst then AppPair(id, true) else Incoming(id, conn, Body.Pair(true), true),
                                 if userFirst then Incoming(id, conn, Body.Pair(true), true) else AppAccept(id, true);
            && LegalRun(store, events + [first] + [second])
            && PairedOver(Run(store, events + [first] + [second]), id, conn)
  {
    CurrentSpeaks(store, events, id, conn);
    EveryRun(store, events);
    var c := Run(store, events).core;
    if userFirst {
      PairEffect(c, AppPair(id, true));
      RunSnoc(store, events, AppPair(id, true));
      OwnRequestCompletes(store, events + [AppPair(id, true)], id, conn);
    } else {
      var e := Incoming(id, conn, Body.Pair(true), true);
      IncomingEffect(c, e);
      RunSnoc(store, events, e);
      AcceptCompletes(store, events + [e], id, conn);
    }
  }

  // --- Packets to the plugins ------------------------------------------------------------------

  /** The last queued event is a packet of the current connection of a paired device. */
  predicate LastIsPacket(c: Core, id: DeviceId, conn: ConnId, packet: Packet) {
    && c.table.queue != [] && c.table.queue[|c.table.queue| - 1] == PacketReceived(id, conn, packet)
    && Current(c, id, conn) && StateIs(c, id, Paired)
  }

  lemma {:induction false} DrainingHandsOver(w: World, contacts: bool, mpris: bool, id: DeviceId, conn: ConnId,
                                             packet: Packet)
    requires TableOk(w.core.table) && LastIsPacket(w.core, id, conn, packet)
    ensures var d := DrainCore(w, contacts, mpris).core.dispatched;
            d != [] && d[|d| - 1] == Dispatch(w.core.table.devices[id], conn, packet)
    decreases |w.core.table.queue|
  {
    var e := CoreNext(contacts, mpris);
    CoreNextEffect(w.core, e);
    QuietFrame(w.core, e);
    var w' := Step(w, e);
    assert forall d | d in w.core.table.devices :: DeviceOk(w.core.table.store, d, w.core.table.devices[d]);
    if |w.core.table.queue| > 1 {
      DrainingHandsOver(w', contacts, mpris, id, conn, packet);
    } else {
      assert DrainCore(w', contacts, mpris) == w';
    }
  }

  /** A packet a paired device sends over its current connection is handed to the plugins, with
      the device as it is, once the core has handled what is queued. */
  lemma PacketsReachPlugins(store: Store, events: seq<Event>, id: DeviceId, conn: ConnId, packet: Packet,
                            contacts: bool, mpris: bool)
    requires LegalRun(store, events) && Current(Run(store, events).core, id, conn)
    requires StateIs(Run(store, events).core, id, Paired)
    ensures var all := events + [Incoming(id, conn, Plugin(packet), true)];
            var d := DrainCore(Run(store, all), contacts, mpris).core.dispatched;
            && LegalRun(store, all)
            && d != [] && d[|d| - 1] == Dispatch(Run(store, events).core.table.devices[id], conn, packet)
  {
    var e := Incoming(id, conn, Plugin(packet), true);
    CurrentSpeaks(store, events, id, conn);
    RunSnoc(store, events, e);
    EveryRun(store, events);
    EveryRun(store, events + [e]);
    IncomingEffect(Run(store, events).core, e);
    DrainingHandsOver(Run(store, events + [e]), contacts, mpris, id, conn, packet);
  }
}
