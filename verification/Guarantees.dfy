/** What each handler of the core promises its caller, on top of the step it takes. The handlers
    of KdeConnectCore.dfy state these promises; here they are proved of every reachable world. */
module Guarantees {
  import opened Common
  import opened Devices
  import opened PairingTable
  import opened Registry
  import opened RegistryInvariants
  import opened RegistryTheorems
  import opened FreshConsent

  ghost predicate SamePinsBut(was: Store, now: Store, id: DeviceId) {
    forall d: DeviceId | d != id :: PersistedPin(now, d) == PersistedPin(was, d)
  }

  ghost predicate SamePins(was: Store, now: Store) {
    forall d: DeviceId :: PersistedPin(now, d) == PersistedPin(was, d)
  }

  /** Everything queued since `was`, other than pairing and bootstrap packets, goes to devices
      paired with the certificate of the connection whose writer it is. */
  ghost predicate SendsEntitled(was: seq<Sent>, w: World) {
    && was <= w.core.sent
    && forall i | |was| <= i < |w.core.sent| && (w.core.sent[i].purpose.Data? || w.core.sent[i].purpose.Greeting?) ::
         Entitled(w, w.core.sent[i])
  }

  /** Exactly these packets, for the writer of the paired device, or nothing. */
  function Delivery(c: Core, id: DeviceId, packets: seq<Packet>): seq<Sent> {
    if IsPaired(c.table, id) && id in c.writers
    then seq(|packets|, i requires 0 <= i < |packets| => Sent(id, c.writers[id], Data(packets[i])))
    else []
  }

  lemma {:induction false} SendFilesDelivers(c: Core, id: DeviceId, packets: seq<Packet>)
    ensures SendFiles(c, id, packets) == c.(sent := c.sent + Delivery(c, id, packets))
    decreases |packets|
  {
    if packets == [] {
      assert Delivery(c, id, packets) == [] && c.sent + [] == c.sent;
    } else {
      var c' := SendData(c, id, packets[0]);
      SendFilesDelivers(c', id, packets[1..]);
      DeliveryCons(c, id, packets);
      assert c'.sent == c.sent + Delivery(c, id, [packets[0]]);
      assert c.sent + Delivery(c, id, packets)
             == c.sent + Delivery(c, id, [packets[0]]) + Delivery(c, id, packets[1..]);
    }
  }

  lemma DeliveryCons(c: Core, id: DeviceId, packets: seq<Packet>)
    requires packets != []
    ensures Delivery(c, id, packets) == Delivery(c, id, [packets[0]]) + Delivery(c, id, packets[1..])
    ensures forall sent :: Delivery(c.(sent := sent), id, packets[1..]) == Delivery(c, id, packets[1..])
    ensures Delivery(c, id, [packets[0]]) ==
            if IsPaired(c.table, id) && id in c.writers then [Sent(id, c.writers[id], Data(packets[0]))] else []
  {
  }

  lemma StepSendsEntitled(store: Store, events: seq<Event>, e: Event)
    requires LegalRun(store, events) && Legal(Run(store, events), e)
    ensures SendsEntitled(Run(store, events).core.sent, Step(Run(store, events), e))
  {
    DataGoesToPairedConnections(store, events, e);
  }

  lemma RestartForgets(store: Store, events: seq<Event>)
    requires LegalRun(store, events)
    ensures LegalRun(store, events + [Restart])
    ensures var c := Run(store, events).core;
            Run(store, events + [Restart]).core
            == Core(Table(map[], c.table.store, []), map[], map[], [], c.sent, c.dispatched)
  {
    RunSnoc(store, events, Restart);
  }

  // --- Pairing steps -------------------------------------------------------------------------

  lemma PairingTouchesOwnPin(c: Core, e: Event)
    requires TableOk(c.table) && Pairing(e)
    ensures SamePinsBut(c.table.store, CoreStep(c, e).table.store, e.id)
  {
    PairingActs(c, e);
    ActTouchesOwnPin(c.table, e.id, ActOf(c, e), e.storeOk);
  }

  lemma ActTouchesOwnPin(t: Table, id: DeviceId, act: Act, storeOk: bool)
    requires TableOk(t) && (act.Update? ==> act.state != Paired)
    ensures SamePinsBut(t.store, Acted(t, id, act, storeOk).store, id)
  {
    ActKeepsTable(t, id, act, storeOk);
  }

  /** A pin that changes was unpinned, or given with fresh consent. */
  lemma OwnPinChanges(store: Store, events: seq<Event>, e: Event)
    requires LegalRun(store, events) && Legal(Run(store, events), e) && Pairing(e)
    requires var w := Run(store, events);
             PersistedPin(CoreStep(w.core, e).table.store, e.id) != PersistedPin(w.core.table.store, e.id)
    ensures var w := Run(store, events);
            if PersistedPin(CoreStep(w.core, e).table.store, e.id).Some?
            then FreshlyAgreed(store, events + [e], e.id)
            else Unpins(w.core, e, e.id)
  {
    EveryRun(store, events);
    RunSnoc(store, events, e);
    var w := Run(store, events);
    if PersistedPin(w.core.table.store, e.id).Some? {
      PinStep(store, w, e, e.id);
    } else {
      NewPinIsAgreed(store, events, e, e.id);
    }
  }

  lemma PairAsks(w: World, e: Event)
    requires TableOk(w.core.table) && MapsAgree(w) && e.AppPair?
    ensures var c, c' := w.core, CoreStep(w.core, e);
            && SamePins(c.table.store, c'.table.store)
            && (IsPaired(c.table, e.id) ==> c' == c)
            && (e.id in c.writers && !IsPaired(c.table, e.id) && e.storeOk ==>
                  && e.id in c'.table.devices && c'.table.devices[e.id].pairState == Requesting
                  && c'.sent == c.sent + [Sent(e.id, c.writers[e.id], PairPacket(true))])
  {
    PairingTouchesOwnPin(w.core, e);
    if e.id in w.core.writers {
      assert RecordedOk(w, e.id, w.core.connIds[e.id]);
      assert DeviceOk(w.core.table.store, e.id, w.core.table.devices[e.id]);
    }
  }

  lemma AcceptPins(store: Store, events: seq<Event>, e: Event)
    requires LegalRun(store, events) && e.AppAccept?
    ensures var c := Run(store, events).core;
            var c' := CoreStep(c, e);
            && SamePinsBut(c.table.store, c'.table.store, e.id)
            && (PersistedPin(c'.table.store, e.id) != PersistedPin(c.table.store, e.id) ==>
                  && PersistedPin(c'.table.store, e.id).Some? && FreshlyAgreed(store, events + [e], e.id))
            && (c'.sent != c.sent ==>
                  && IsPaired(c'.table, e.id) && PersistedPin(c'.table.store, e.id).Some? && e.id in c.writers
                  && c'.sent == c.sent + [Sent(e.id, c.writers[e.id], PairPacket(true))])
  {
    EveryRun(store, events);
    var c := Run(store, events).core;
    PairingTouchesOwnPin(c, e);
    AcceptAnswers(c, e);
    if PersistedPin(CoreStep(c, e).table.store, e.id) != PersistedPin(c.table.store, e.id) {
      OwnPinChanges(store, events, e);
    }
  }

  /** The answer to the peer follows the stored pin. */
  lemma AcceptAnswers(c: Core, e: Event)
    requires TableOk(c.table) && e.AppAccept?
    ensures var c' := CoreStep(c, e);
            c'.sent != c.sent ==>
              && IsPaired(c'.table, e.id) && PersistedPin(c'.table.store, e.id).Some? && e.id in c.writers
              && c'.sent == c.sent + [Sent(e.id, c.writers[e.id], PairPacket(true))]
  {
    if e.id in c.table.devices {
      assert DeviceOk(c.table.store, e.id, c.table.devices[e.id]);
    }
  }

  lemma RejectUnpins(c: Core, e: Event)
    requires TableOk(c.table) && e.AppReject?
    ensures var c' := CoreStep(c, e);
            && SamePinsBut(c.table.store, c'.table.store, e.id)
            && (e.id in c.table.devices && e.storeOk ==>
                  PersistedPin(c'.table.store, e.id) == None && !IsPaired(c'.table, e.id))
            && (e.id !in c.table.devices || !e.storeOk ==> c'.table == c.table)
  {
    PairingTouchesOwnPin(c, e);
    if e.id in c.table.devices {
      assert DeviceOk(c.table.store, e.id, c.table.devices[e.id]);
    }
  }

  lemma UnpairUnpins(c: Core, e: Event)
    requires TableOk(c.table) && e.AppUnpair?
    ensures var c' := CoreStep(c, e);
            && SamePinsBut(c.table.store, c'.table.store, e.id)
            && (ValidId(e.id) && e.storeOk ==>
                  && PersistedPin(c'.table.store, e.id) == None && !IsPaired(c'.table, e.id)
                  && c'.connLog == c.connLog + [PairStateChanged(e.id, NotPaired)])
            && (!ValidId(e.id) || !e.storeOk ==> c'.table == c.table && c'.connLog == c.connLog)
  {
    PairingTouchesOwnPin(c, e);
    if e.id in c.table.devices {
      assert DeviceOk(c.table.store, e.id, c.table.devices[e.id]);
    }
  }

  // --- Connections ---------------------------------------------------------------------------

  lemma RegisteringBinds(c: Core, e: Event)
    requires e.NewConnection? && c.writers == c.connIds && !Current(c, e.id, e.conn)
    requires Determined(c.table.store, e.id, e.access)
    ensures var c' := CoreStep(c, e);
            && c'.table.store == c.table.store
            && (PersistedPin(c.table.store, e.id) !in {None, Some(e.certificate)} ==> c' == c)
            && (e.id in c'.writers && c'.writers[e.id] == e.conn ==>
                  && Current(c', e.id, e.conn) && e.id in c'.table.devices
                  && c'.table.devices[e.id].live == Some(e.certificate)
                  && c'.table.devices[e.id].pairState in {NotPaired, Paired})
  {
    if Admitted(c, e.id, e.certificate, e.access).Some? {
      BindingAgrees(c.table.store, e.id, e.access, e.certificate);
    }
  }

  /** A registered connection is that of a device which presented its certificate. */
  lemma RegistrationIsBound(store: Store, events: seq<Event>, e: Event)
    requires LegalRun(store, events) && Legal(Run(store, events), e) && e.NewConnection?
    ensures var c := Run(store, events).core;
            var c' := CoreStep(c, e);
            && c'.table.store == c.table.store
            && (PersistedPin(c.table.store, e.id) !in {None, Some(e.certificate)} ==> c' == c)
            && (e.id in c'.writers && c'.writers[e.id] == e.conn ==>
                  && Current(c', e.id, e.conn) && e.id in c'.table.devices
                  && c'.table.devices[e.id].live == Some(e.certificate)
                  && c'.table.devices[e.id].pairState in {NotPaired, Paired})
  {
    EveryRun(store, events);
    NewConnectionIsNew(Run(store, events), e);
    RegisteringBinds(Run(store, events).core, e);
  }

  lemma NewConnectionIsNew(w: World, e: Event)
    requires MapsAgree(w) && LinksOk(w) && Legal(w, e) && e.NewConnection?
    ensures !Current(w.core, e.id, e.conn)
  {
    if e.id in w.core.connIds {
      assert RecordedOk(w, e.id, w.core.connIds[e.id]);
    }
  }

  /** The writers of all devices but `id` stay as they are. */
  predicate KeepsOthers(c: Core, c': Core, id: DeviceId) {
    && c'.table == c.table && c'.writers - {id} == c.writers - {id} && c'.connIds - {id} == c.connIds - {id}
  }

  lemma ClosingTakesItsOwn(store: Store, events: seq<Event>, e: Event)
    requires LegalRun(store, events) && Legal(Run(store, events), e) && e.Closed?
    ensures var c := Run(store, events).core;
            var c' := CoreStep(c, e);
            && KeepsOthers(c, c', e.id)
            && (e.id in c'.writers <==> e.id in c.writers && c.writers[e.id] != e.conn)
            && (e.id in c'.writers ==> c' == c)
  {
    EveryRun(store, events);
  }

  lemma DisconnectAnnounces(store: Store, events: seq<Event>, e: Event)
    requires LegalRun(store, events) && e.AppDisconnect?
    ensures var c := Run(store, events).core;
            var c' := CoreStep(c, e);
            && KeepsOthers(c, c', e.id) && e.id !in c'.writers && e.id !in c'.connIds
            && (if e.id in c.writers then Announced(c.connLog, e.id) && !Announced(c'.connLog, e.id)
                else c' == c)
  {
    EveryRun(store, events);
    AnnouncedSnoc(Run(store, events).core.connLog, Disconnected(e.id), e.id);
  }

  lemma PluginDropsQuietly(w: World, e: Event)
    requires MapsAgree(w) && Registered(w) && e.AppSetPlugin?
    ensures var c' := CoreStep(w.core, e);
            && KeepsOthers(w.core, c', e.id) && e.id !in c'.writers && e.id !in c'.connIds
            && c'.connLog == w.core.connLog
            && (e.id in w.core.writers ==> Owed(w.history, e.id))
  {
    if e.id in w.core.connIds {
      OwedBecauseRecorded(w, e.id);
    }
  }

  // --- Packets -------------------------------------------------------------------------------

  /** What a step hands to the plugins is authentic in the world before it. */
  ghost predicate DispatchesAuthentic(w: World, now: seq<Dispatch>) {
    && w.core.dispatched <= now
    && forall i | |w.core.dispatched| <= i < |now| :: Authentic(w, now[i])
  }

  lemma CoreNextKeepsRegistry(store: Store, events: seq<Event>, e: Event)
    requires LegalRun(store, events) && e.CoreNext?
    ensures var w := Run(store, events);
            && SameRegistry(w.core, CoreStep(w.core, e))
            && DispatchesAuthentic(w, CoreStep(w.core, e).dispatched)
            && SendsEntitled(w.core.sent, Step(w, e))
  {
    QuietFrame(Run(store, events).core, e);
    DispatchesAreAuthentic(store, events, e);
    DataGoesToPairedConnections(store, events, e);
  }
}
