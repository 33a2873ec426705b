/** What the registry guarantees over every run, from any pairing store, through restarts and
    failing writes. Each theorem speaks of the events of the run and of the state before them. */
module RegistryTheorems {
  import opened Common
  import opened Devices
  import opened PairingTable
  import opened Registry
  import opened RegistryInvariants

  // --- Mutual consent ----------------------------------------------------------------------

  function Before(store: Store, events: seq<Event>, i: nat): World
    requires i <= |events|
  {
    Run(store, events[..i])
  }

  /** Event `i` registers connection `link` of device `id`, which presents `certificate`. */
  predicate RegistersAt(store: Store, events: seq<Event>, i: nat, link: Link, id: DeviceId, certificate: Cert)
    requires i < |events|
  {
    var w, e := Before(store, events, i), events[i];
    && e.NewConnection? && e.id == id && e.certificate == certificate
    && Link(w.history.boot, e.conn) == link
    && Admitted(w.core, id, certificate, e.access).Some?
  }

  /** Event `i` is a pair:true of the peer over `link`, current at that moment. */
  predicate PeerAsksAt(store: Store, events: seq<Event>, i: nat, link: Link, id: DeviceId)
    requires i < |events|
  {
    var w, e := Before(store, events, i), events[i];
    && e.Incoming? && e.id == id && e.body == Pair(true)
    && Link(w.history.boot, e.conn) == link
    && Current(w.core, id, e.conn)
  }

  /** Event `i` is the local user's Pair or AcceptPairing while `link` is the device's
      last registered connection. */
  predicate UserAsksAt(store: Store, events: seq<Event>, i: nat, link: Link, id: DeviceId)
    requires i < |events|
  {
    var w, e := Before(store, events, i), events[i];
    && (e.AppPair? || e.AppAccept?) && e.id == id
    && id in w.core.connIds && id in w.history.lastRegistered
    && LastLink(w, id) == link
  }

  ghost predicate WasPresented(store: Store, events: seq<Event>, link: Link, id: DeviceId, certificate: Cert) {
    exists i: nat | i < |events| :: RegistersAt(store, events, i, link, id, certificate)
  }

  ghost predicate PeerAsked(store: Store, events: seq<Event>, link: Link, id: DeviceId) {
    exists i: nat | i < |events| :: PeerAsksAt(store, events, i, link, id)
  }

  ghost predicate UserAsked(store: Store, events: seq<Event>, link: Link, id: DeviceId) {
    exists i: nat | i < |events| :: UserAsksAt(store, events, i, link, id)
  }

  /** The history only records what the events did. */
  ghost predicate Recorded(store: Store, events: seq<Event>, h: History, link: Link) {
    && (link in h.presented ==>
          && WasPresented(store, events, link, h.presented[link].id, h.presented[link].certificate)
          && (link in h.peerAsked ==> PeerAsked(store, events, link, h.presented[link].id))
          && (link in h.userAsked ==> UserAsked(store, events, link, h.presented[link].id)))
    && (link in h.peerAsked || link in h.userAsked ==> link in h.presented)
  }

  lemma RecordedGrows(store: Store, events: seq<Event>, h: History, link: Link)
    requires events != [] && Recorded(store, events[..|events| - 1], h, link)
    ensures Recorded(store, events, h, link)
  {
    var before := events[..|events| - 1];
    assert forall i: nat | i <= |before| :: before[..i] == events[..i];
    if link in h.presented {
      var id, certificate := h.presented[link].id, h.presented[link].certificate;
      var i: nat :| i < |before| && RegistersAt(store, before, i, link, id, certificate);
      assert RegistersAt(store, events, i, link, id, certificate);
      if link in h.peerAsked {
        var j: nat :| j < |before| && PeerAsksAt(store, before, j, link, id);
        assert PeerAsksAt(store, events, j, link, id);
      }
      if link in h.userAsked {
        var k: nat :| k < |before| && UserAsksAt(store, before, k, link, id);
        assert UserAsksAt(store, events, k, link, id);
      }
    }
  }

  lemma {:induction false} HistoryIsTrue(store: Store, events: seq<Event>, link: Link)
    requires LegalRun(store, events)
    ensures Recorded(store, events, Run(store, events).history, link)
    decreases |events|
  {
    if events != [] {
      var last := |events| - 1;
      var w, e := Run(store, events[..last]), events[last];
      assert w == Before(store, events, last);
      HistoryIsTrue(store, events[..last], link);
      RecordedGrows(store, events, w.history, link);
      EveryRun(store, events[..last]);
      ObservedIsTrue(store, events, link);
    }
  }

  lemma ObservedIsTrue(store: Store, events: seq<Event>, link: Link)
    requires events != [] && LegalRun(store, events)
    requires Inv(store, Before(store, events, |events| - 1))
    requires Recorded(store, events, Before(store, events, |events| - 1).history, link)
    ensures Recorded(store, events, Run(store, events).history, link)
  {
    var last := |events| - 1;
    var w, e := Before(store, events, last), events[last];
    var h, h' := w.history, Run(store, events).history;
    assert h' == Observe(h, w.core, e);
    if link in h'.presented && link !in h.presented {
      assert RegistersAt(store, events, last, link, e.id, e.certificate);
    }
    if link in h'.peerAsked && link !in h.peerAsked {
      assert RecordedOk(w, e.id, e.conn) && PresentedBy(w, e.id, w.core.table.devices[e.id]);
      assert PeerAsksAt(store, events, last, link, e.id);
    }
    if link in h'.userAsked && link !in h.userAsked {
      assert RecordedOk(w, e.id, w.core.connIds[e.id]) && PresentedBy(w, e.id, w.core.table.devices[e.id]);
      assert UserAsksAt(store, events, last, link, e.id);
    }
  }

  /** A certificate the store trusts was trusted from the start, or both sides agreed on it
      over one connection: it was presented at registration, the peer sent pair:true over it
      while it was current, and the user issued Pair or AcceptPairing while it was the
      device's last registered connection. */
  lemma MutualConsent(store: Store, events: seq<Event>, id: DeviceId) returns (link: Link)
    requires LegalRun(store, events)
    requires PersistedPin(Run(store, events).core.table.store, id).Some?
    requires PersistedPin(store, id) != PersistedPin(Run(store, events).core.table.store, id)
    ensures var pin := PersistedPin(Run(store, events).core.table.store, id).value;
            && WasPresented(store, events, link, id, pin)
            && PeerAsked(store, events, link, id)
            && UserAsked(store, events, link, id)
  {
    EveryRun(store, events);
    var h := Run(store, events).history;
    var pin := PersistedPin(Run(store, events).core.table.store, id).value;
    assert Consent(h, id, pin);
    link :| link in h.presented && h.presented[link] == Presented(id, pin)
            && link in h.peerAsked && link in h.userAsked;
    HistoryIsTrue(store, events, link);
  }

  // --- Memory and store --------------------------------------------------------------------

  /** Whatever failed, a device in memory is paired exactly when it has a nonempty pin, the pin
      is its connection's certificate, and a reload would yield the same pairing. */
  lemma MemoryAgreesWithStore(store: Store, events: seq<Event>, id: DeviceId)
    requires LegalRun(store, events)
    requires id in Run(store, events).core.table.devices
    ensures var t := Run(store, events).core.table;
            var device := t.devices[id];
            var reloaded := LoadFrom(t.store, id, Readable);
            && (device.pairState == Paired <==> HasPin(device.pinned))
            && (device.pairState == Paired ==> device.pinned == device.live)
            && reloaded.Some?
            && (reloaded.value.pairState == Paired <==> device.pairState == Paired)
            && reloaded.value.pinned == device.pinned
  {
    EveryRun(store, events);
    var t := Run(store, events).core.table;
    assert DeviceOk(t.store, id, t.devices[id]);
  }

  /** No pending request outlives a new registration. */
  lemma RegistrationEndsPending(store: Store, events: seq<Event>, e: Event)
    requires LegalRun(store, events + [e]) && e.NewConnection?
    requires Admitted(Run(store, events).core, e.id, e.certificate, e.access).Some?
    ensures var t := Run(store, events + [e]).core.table;
            && e.id in t.devices
            && t.devices[e.id].pairState in {NotPaired, Paired}
            && t.devices[e.id].live == Some(e.certificate)
  {
    assert (events + [e])[..|events + [e]| - 1] == events;
    BindingAgrees(Run(store, events).core.table.store, e.id, e.access, e.certificate);
  }

  // --- Pins --------------------------------------------------------------------------------

  /** The three ways to lose a pin: unpairing locally, rejecting locally, or a pair:false of
      the peer over the current connection; each only when the store can be written. */
  predicate Unpins(c: Core, e: Event, id: DeviceId) {
    || (e.AppUnpair? && e.id == id && e.storeOk && ValidId(id))
    || (e.AppReject? && e.id == id && e.storeOk && id in c.table.devices)
    || (e.Incoming? && e.id == id && e.storeOk && e.body == Pair(false) && Current(c, id, e.conn))
  }

  function PinAt(store: Store, events: seq<Event>, i: nat, id: DeviceId): Option<Cert>
    requires i <= |events|
  {
    PersistedPin(Before(store, events, i).core.table.store, id)
  }

  /** One step never replaces a pin; it removes it exactly when it is one of the three. */
  lemma PinStep(store: Store, w: World, e: Event, id: DeviceId)
    requires Inv(store, w) && Legal(w, e)
    requires PersistedPin(w.core.table.store, id).Some?
    ensures var after := PersistedPin(Step(w, e).core.table.store, id);
            if Unpins(w.core, e, id) then after == None else after == PersistedPin(w.core.table.store, id)
  {
    if Quiet(e) {
      QuietFrame(w.core, e);
    } else if Pairing(e) {
      PairingPinStep(store, w, e, id);
    }
  }

  lemma PairingPinStep(store: Store, w: World, e: Event, id: DeviceId)
    requires Inv(store, w) && Pairing(e)
    requires PersistedPin(w.core.table.store, id).Some?
    ensures var after := PersistedPin(CoreStep(w.core, e).table.store, id);
            if Unpins(w.core, e, id) then after == None else after == PersistedPin(w.core.table.store, id)
  {
    PairingActs(w.core, e);
    if e.id == id {
      OwnPinStep(store, w, e);
    } else {
      ActKeepsTable(w.core.table, e.id, ActOf(w.core, e), e.storeOk);
    }
  }

  lemma OwnPinStep(store: Store, w: World, e: Event)
    requires Inv(store, w) && Pairing(e)
    requires PersistedPin(w.core.table.store, e.id).Some?
    ensures var act, t := ActOf(w.core, e), w.core.table;
            var after := PersistedPin(Acted(t, e.id, act, e.storeOk).store, e.id);
            if Unpins(w.core, e, e.id) then after == None else after == PersistedPin(t.store, e.id)
  {
    PinnedIsPaired(store, w, e.id);
    UnpinningActs(w.core, e);
    PinAct(w.core.table, e.id, ActOf(w.core, e), e.storeOk);
  }

  lemma PinnedIsPaired(store: Store, w: World, id: DeviceId)
    requires Inv(store, w) && PersistedPin(w.core.table.store, id).Some?
    ensures id in w.core.connIds ==> id in w.core.table.devices
    ensures id in w.core.table.devices ==>
              w.core.table.devices[id].pairState == Paired && IsPaired(w.core.table, id)
  {
    if id in w.core.connIds {
      assert RecordedOk(w, id, w.core.connIds[id]);
    }
    if id in w.core.table.devices {
      assert DeviceOk(w.core.table.store, id, w.core.table.devices[id]);
    }
  }

  /** The table operations behind `Unpins`. */
  lemma UnpinningActs(c: Core, e: Event)
    requires Pairing(e)
    requires e.id in c.connIds ==> e.id in c.table.devices
    requires e.id in c.table.devices ==> c.table.devices[e.id].pairState == Paired && IsPaired(c.table, e.id)
    ensures var act := ActOf(c, e);
            Unpins(c, e, e.id) ==
            (e.storeOk && ((act.Update? && e.id in c.table.devices) || (act == Cancel && ValidId(e.id))))
    ensures ActOf(c, e) != Approve
    ensures ActOf(c, e).Update? ==> ActOf(c, e).state != Paired
  {
  }

  lemma PinAct(t: Table, id: DeviceId, act: Act, storeOk: bool)
    requires TableOk(t) && PersistedPin(t.store, id).Some?
    requires act.Update? ==> act.state != Paired
    requires act == Approve ==> id in t.devices && t.devices[id].pairState != Paired
    ensures PersistedPin(Acted(t, id, act, storeOk).store, id) ==
            if storeOk && ((act.Update? && id in t.devices) || (act == Cancel && ValidId(id)))
            then None else PersistedPin(t.store, id)
  {
    if id in t.devices {
      assert DeviceOk(t.store, id, t.devices[id]);
    }
    match act
    case Keep =>
    case Queue(_) =>
    case Update(state) => UpdateKeepsTable(t, id, state, storeOk);
    case Approve => assert false;
    case Cancel => SetPairedKeepsTable(t, id, false, storeOk);
  }

  lemma {:induction false} PrefixIsLegal(store: Store, events: seq<Event>, i: nat)
    requires LegalRun(store, events) && i <= |events|
    ensures LegalRun(store, events[..i])
    ensures i < |events| ==> Legal(Before(store, events, i), events[i])
    ensures i < |events| ==> Before(store, events, i + 1) == Step(Before(store, events, i), events[i])
    decreases |events|
  {
    if i < |events| {
      var before := events[..|events| - 1];
      PrefixIsLegal(store, before, i);
      assert before[..i] == events[..i];
      if i + 1 < |events| {
        assert before[..i + 1] == events[..i + 1];
      } else {
        assert events[..i + 1] == events;
      }
    } else {
      assert events[..i] == events;
    }
  }

  function Pins(store: Store, events: seq<Event>, id: DeviceId): (pins: seq<Option<Cert>>)
    ensures |pins| == |events| + 1
    ensures forall i | 0 <= i < |pins| :: pins[i] == PinAt(store, events, i, id)
  {
    seq(|events| + 1, i requires 0 <= i <= |events| => PinAt(store, events, i, id))
  }

  lemma PinStepAt(store: Store, events: seq<Event>, m: nat, id: DeviceId)
    requires LegalRun(store, events) && m < |events|
    requires PinAt(store, events, m, id).Some?
    ensures PinAt(store, events, m + 1, id) ==
            if Unpins(Before(store, events, m).core, events[m], id) then None else PinAt(store, events, m, id)
  {
    PrefixIsLegal(store, events, m);
    EveryRun(store, events[..m]);
    PinStep(store, Before(store, events, m), events[m], id);
  }

  /** Where a sequence of values last held its value at `i` before differing from it at `j`. */
  lemma {:induction false} LastHeld<T>(values: seq<T>, i: nat, j: nat) returns (m: nat)
    requires i <= j < |values| && values[i] != values[j]
    ensures i <= m < j && values[m] == values[i] && values[m + 1] != values[i]
    decreases j
  {
    if values[j - 1] == values[i] {
      m := j - 1;
    } else {
      m := LastHeld(values, i, j - 1);
    }
  }

  /** A pin never changes silently: if `id` is pinned to one certificate and later is not, some
      event in between unpinned it, and for that moment the device was unpaired. */
  lemma PinsNeverChangeSilently(store: Store, events: seq<Event>, i: nat, j: nat, id: DeviceId)
    returns (m: nat)
    requires LegalRun(store, events) && i <= j <= |events|
    requires PinAt(store, events, i, id).Some?
    requires PinAt(store, events, j, id) != PinAt(store, events, i, id)
    ensures i <= m < j
    ensures PinAt(store, events, m, id) == PinAt(store, events, i, id)
    ensures PinAt(store, events, m + 1, id) == None
    ensures Unpins(Before(store, events, m).core, events[m], id)
  {
    m := LastHeld(Pins(store, events, id), i, j);
    PinStepAt(store, events, m, id);
  }

  /** The device's record is not found although it is there, and nothing else stands in the way:
      outside what the environment guarantees. */
  predicate Forgets(c: Core, e: Event) {
    && e.NewConnection? && e.access == Undetermined && ValidId(e.id) && e.certificate != []
    && (Known(c, e.id) ==> c.table.devices[e.id].live == Some(e.certificate))
  }

  predicate Known(c: Core, id: DeviceId) {
    id in c.connIds && id in c.table.devices
  }

  /** While a device is pinned, a connection presenting anything else changes nothing, whatever
      reading the record comes to, exactly unless the record is not found at all; the device then
      registers as an unpaired one although its pin is still stored. */
  lemma OtherCertificatesAreRefused(w: World, e: Event)
    requires e.NewConnection?
    requires PersistedPin(w.core.table.store, e.id).Some?
    requires Some(e.certificate) != PersistedPin(w.core.table.store, e.id)
    ensures Legal(w, e) ==> Step(w, e) == w
    ensures !Forgets(w.core, e) ==> Step(w, e) == w
    ensures Forgets(w.core, e) && e.acceptorAlive ==>
              var c := Step(w, e).core;
              && e.id in c.table.devices
              && c.table.devices[e.id] == Device(e.id, NotPaired, None, Some(e.certificate))
              && e.id in c.writers && c.writers[e.id] == e.conn
              && PersistedPin(c.table.store, e.id) == PersistedPin(w.core.table.store, e.id)
              && Step(w, e) != w
  {
    if Forgets(w.core, e) && e.acceptorAlive {
      assert |Step(w, e).core.connLog| == |w.core.connLog| + 1;
    }
  }

  lemma UnpairClearsRecord(store: Store, w: World, id: DeviceId)
    requires Inv(store, w) && ValidId(id) && PersistedPin(w.core.table.store, id).Some?
    ensures var w' := Step(w, AppUnpair(id, true));
            && w'.core.connIds == w.core.connIds
            && PersistedPin(w'.core.table.store, id) == None
            && (id in w'.core.table.store ==> w'.core.table.store[id].id == id)
  {
    PinStep(store, w, AppUnpair(id, true), id);
    if id in w.core.table.devices {
      assert DeviceOk(w.core.table.store, id, w.core.table.devices[id]);
    }
  }

  lemma NewcomerRegisters(c: Core, e: Event)
    requires e.NewConnection? && e.certificate != [] && e.access == Readable && e.acceptorAlive
    requires ValidId(e.id) && e.id !in c.connIds && PersistedPin(c.table.store, e.id) == None
    requires e.id in c.table.store ==> c.table.store[e.id].id == e.id
    ensures var c' := CoreStep(c, e);
            && e.id in c'.table.devices
            && c'.table.devices[e.id] == Device(e.id, NotPaired, None, Some(e.certificate))
            && e.id in c'.writers && c'.writers[e.id] == e.conn
  {
  }

  /** After a successful Unpair, with no connection recorded, any nonempty certificate binds,
      as an unpaired device. */
  lemma UnpairFreesTheDevice(store: Store, events: seq<Event>, id: DeviceId, e: Event)
    requires LegalRun(store, events)
    requires ValidId(id) && id !in Run(store, events).core.connIds
    requires PersistedPin(Run(store, events).core.table.store, id).Some?
    requires e.NewConnection? && e.id == id && e.certificate != [] && e.access == Readable && e.acceptorAlive
    ensures var w := Step(Step(Run(store, events), AppUnpair(id, true)), e);
            && id in w.core.table.devices
            && w.core.table.devices[id] == Device(id, NotPaired, None, Some(e.certificate))
            && id in w.core.writers && w.core.writers[id] == e.conn
  {
    EveryRun(store, events);
    UnpairClearsRecord(store, Run(store, events), id);
    NewcomerRegisters(Step(Run(store, events), AppUnpair(id, true)).core, e);
  }

  // --- Dispatching and sending -------------------------------------------------------------

  /** Handed to the plugins in world `w`: a packet that arrived over the connection current in
      `w`, from a paired device whose pin is the certificate that connection presented. */
  ghost predicate Authentic(w: World, d: Dispatch) {
    var id := d.device.id;
    var link := Link(w.history.boot, d.conn);
    && id in w.core.table.devices && d.device == w.core.table.devices[id]
    && Current(w.core, id, d.conn)
    && d.device.pairState == Paired && d.device.pinned.Some?
    && link in w.history.presented
    && w.history.presented[link] == Presented(id, d.device.pinned.value)
    && Arrival(link, id, d.packet) in w.history.arrived
  }

  /** Queued on the writer of the current connection of a device paired with its certificate. */
  ghost predicate Entitled(w: World, s: Sent) {
    var link := Link(w.history.boot, s.conn);
    && IsPaired(w.core.table, s.id)
    && s.id in w.core.writers && w.core.writers[s.id] == s.conn && Current(w.core, s.id, s.conn)
    && link in w.history.presented
    && w.core.table.devices[s.id].pinned == Some(w.history.presented[link].certificate)
    && w.history.presented[link].id == s.id
  }

  lemma WritersAreEntitled(store: Store, w: World, id: DeviceId, purpose: Purpose)
    requires Inv(store, w) && IsPaired(w.core.table, id) && id in w.core.writers
    ensures Entitled(w, Sent(id, w.core.writers[id], purpose))
  {
    assert RecordedOk(w, id, w.core.connIds[id]);
    assert PresentedBy(w, id, w.core.table.devices[id]);
    assert DeviceOk(w.core.table.store, id, w.core.table.devices[id]);
  }

  /** Whatever was interleaved between receiving a packet and handling it, every packet a step
      hands to the plugins is authentic in the world of that step. */
  lemma DispatchesAreAuthentic(store: Store, events: seq<Event>, e: Event)
    requires LegalRun(store, events) && Legal(Run(store, events), e)
    ensures var w := Run(store, events);
            var was, now := w.core.dispatched, Step(w, e).core.dispatched;
            && was <= now
            && forall i | |was| <= i < |now| :: Authentic(w, now[i])
  {
    EveryRun(store, events);
    if e.CoreNext? {
      CoreNextDispatches(store, Run(store, events), e);
    } else {
      OnlyCoreNextDispatches(Run(store, events).core, e);
    }
  }

  lemma OnlyCoreNextDispatches(c: Core, e: Event)
    requires !e.CoreNext?
    ensures CoreStep(c, e).dispatched == c.dispatched
  {
    if e.AppSendFiles? {
      SendFilesFrame(c, e.id, e.packets);
    }
  }

  lemma CoreNextDispatches(store: Store, w: World, e: Event)
    requires Inv(store, w) && e.CoreNext?
    ensures var was, now := w.core.dispatched, CoreStep(w.core, e).dispatched;
            && was <= now
            && forall i | |was| <= i < |now| :: Authentic(w, now[i])
  {
    if w.core.table.queue != [] && w.core.table.queue[0].PacketReceived? {
      var p := w.core.table.queue[0];
      assert p in w.core.table.queue;
      if Current(w.core, p.id, p.conn) {
        assert RecordedOk(w, p.id, p.conn) && PresentedBy(w, p.id, w.core.table.devices[p.id]);
        assert DeviceOk(w.core.table.store, p.id, w.core.table.devices[p.id]);
      }
    }
  }

  lemma {:induction false} SendFilesSends(c: Core, id: DeviceId, packets: seq<Packet>)
    ensures SendFiles(c, id, packets).table == c.table && SendFiles(c, id, packets).writers == c.writers
    ensures SentFor(c, id, c.sent, SendFiles(c, id, packets).sent)
    decreases |packets|
  {
    if packets != [] {
      var c' := SendData(c, id, packets[0]);
      SendFilesSends(c', id, packets[1..]);
      assert SentFor(c, id, c.sent, c'.sent);
    }
  }

  /** `now` extends `was` by packets queued on the writer of the paired device `id`. */
  ghost predicate SentFor(c: Core, id: DeviceId, was: seq<Sent>, now: seq<Sent>) {
    && was <= now
    && forall i | |was| <= i < |now| ::
         IsPaired(c.table, id) && id in c.writers && now[i].id == id && now[i].conn == c.writers[id]
  }

  /** The data packets and greetings added by a step go to the writers after it. */
  ghost predicate AddsForPaired(c: Core, c': Core) {
    && c.sent <= c'.sent
    && forall i | |c.sent| <= i < |c'.sent| && (c'.sent[i].purpose.Data? || c'.sent[i].purpose.Greeting?) ::
         var s := c'.sent[i]; IsPaired(c'.table, s.id) && s.id in c'.writers && c'.writers[s.id] == s.conn
  }

  lemma StepsAddForPaired(c: Core, e: Event)
    ensures AddsForPaired(c, CoreStep(c, e))
  {
    if e.AppSendFiles? {
      SendFilesSends(c, e.id, e.packets);
    } else if e.NewConnection? {
      if Determined(c.table.store, e.id, e.access) && Admitted(c, e.id, e.certificate, e.access).Some? {
        BindingAgrees(c.table.store, e.id, e.access, e.certificate);
      }
    } else if e.CoreNext? {
      CoreNextAddsForPaired(c, e);
    }
  }

  lemma CoreNextAddsForPaired(c: Core, e: Event)
    requires e.CoreNext?
    ensures AddsForPaired(c, CoreStep(c, e))
  {
  }

  /** Every data packet and greeting a step queues is queued for a device that, after the step,
      is paired with the certificate of the connection whose writer it is. */
  lemma DataGoesToPairedConnections(store: Store, events: seq<Event>, e: Event)
    requires LegalRun(store, events) && Legal(Run(store, events), e)
    ensures var w := Run(store, events);
            var was, now := w.core.sent, Step(w, e).core.sent;
            && was <= now
            && forall i | |was| <= i < |now| && (now[i].purpose.Data? || now[i].purpose.Greeting?) ::
                 Entitled(Step(w, e), now[i])
  {
    EveryRun(store, events);
    var w := Run(store, events);
    StepKeeps(store, w, e);
    StepsAddForPaired(w.core, e);
    EntitledAfter(store, w.core, Step(w, e));
  }

  lemma EntitledAfter(store: Store, c: Core, w: World)
    requires Inv(store, w) && AddsForPaired(c, w.core)
    ensures forall i | |c.sent| <= i < |w.core.sent|
                         && (w.core.sent[i].purpose.Data? || w.core.sent[i].purpose.Greeting?) ::
              Entitled(w, w.core.sent[i])
  {
    forall i | |c.sent| <= i < |w.core.sent| && (w.core.sent[i].purpose.Data? || w.core.sent[i].purpose.Greeting?)
      ensures Entitled(w, w.core.sent[i])
    {
      WritersAreEntitled(store, w, w.core.sent[i].id, w.core.sent[i].purpose);
    }
  }

  // --- Connections -------------------------------------------------------------------------

  /** `writer_map` and `conn_id_map` have the same keys and each writer belongs to the recorded
      connection, which is the last registered one. */
  lemma WritersFollowConnections(store: Store, events: seq<Event>, id: DeviceId)
    requires LegalRun(store, events)
    ensures var w := Run(store, events);
            && (id in w.core.writers <==> id in w.core.connIds)
            && (id in w.core.writers ==>
                  && w.core.writers[id] == w.core.connIds[id]
                  && id in w.history.lastRegistered
                  && w.history.lastRegistered[id] == w.core.writers[id])
  {
    EveryRun(store, events);
    var w := Run(store, events);
    if id in w.core.connIds {
      assert RecordedOk(w, id, w.core.connIds[id]);
    }
  }

  /** A Disconnected removes no writer but its own connection's. */
  lemma DisconnectsTakeOnlyTheirOwn(store: Store, events: seq<Event>, e: Event, id: DeviceId)
    requires LegalRun(store, events) && Legal(Run(store, events), e) && e.Closed?
    requires id in Run(store, events).core.writers
    ensures var w := Run(store, events);
            id in Step(w, e).core.writers <==> !(id == e.id && w.core.writers[id] == e.conn)
    ensures var w := Run(store, events);
            id in Step(w, e).core.writers ==> Step(w, e).core.writers[id] == w.core.writers[id]
  {
    EveryRun(store, events);
  }

  /** Once no dropped connection of `id` owes its Disconnected, the listeners were last told
      Connected exactly when `id` has a writer. */
  lemma AnnouncementsSettle(store: Store, events: seq<Event>, id: DeviceId)
    requires LegalRun(store, events)
    requires var w := Run(store, events);
             forall link | link in w.history.open && link in w.history.presented
                           && w.history.presented[link].id == id ::
               id in w.core.connIds && w.core.connIds[id] == link.conn
    ensures var w := Run(store, events);
            Announced(w.core.connLog, id) <==> id in w.core.writers
  {
    EveryRun(store, events);
  }
}
