/** Every new pin needs both sides to ask anew, over one connection, with the device unpaired all
    the while: consent that was given before an unpairing does not count again. */
module FreshConsent {
  import opened Common
  import opened Devices
  import opened PairingTable
  import opened Registry
  import opened RegistryInvariants
  import opened RegistryTheorems

  predicate Pending(state: PairState) {
    state == Requesting || state == Requested
  }

  /** What makes a device pending: the user's Pair, or the peer's pair:true. */
  predicate Asks(w: World, e: Event, id: DeviceId, state: PairState) {
    && id in w.core.connIds && id in w.history.lastRegistered
    && (if state == Requesting then e.AppPair? && e.id == id
        else e.Incoming? && e.id == id && e.body == Pair(true) && Current(w.core, id, e.conn)
             && Link(w.history.boot, e.conn) == LastLink(w, id))
  }

  predicate PendingIn(w: World, id: DeviceId, state: PairState) {
    && id in w.core.table.devices && w.core.table.devices[id].pairState == state
    && id in w.history.lastRegistered
  }

  /** A pending device was pending before, over the same connection, or is so by an ask. */
  lemma PendingStep(store: Store, w: World, e: Event, id: DeviceId, state: PairState)
    requires Inv(store, w) && Legal(w, e) && Pending(state) && PendingIn(Step(w, e), id, state)
    ensures PendingIn(w, id, state) || Asks(w, e, id, state)
    ensures id in w.history.lastRegistered && LastLink(w, id) == LastLink(Step(w, e), id)
  {
    if Quiet(e) {
      QuietFrame(w.core, e);
    } else if Pairing(e) {
      PairingPendingStep(w, e, id, state);
    } else if e.NewConnection? {
      NewConnectionPendingStep(store, w, e, id, state);
    }
  }

  lemma NewConnectionPendingStep(store: Store, w: World, e: Event, id: DeviceId, state: PairState)
    requires Inv(store, w) && Legal(w, e) && e.NewConnection? && Pending(state) && PendingIn(Step(w, e), id, state)
    ensures PendingIn(w, id, state)
    ensures LastLink(w, id) == LastLink(Step(w, e), id)
  {
    if Admitted(w.core, e.id, e.certificate, e.access).Some? {
      BindingAgrees(w.core.table.store, e.id, e.access, e.certificate);
      assert id != e.id;
    }
    assert PresentedBy(w, id, w.core.table.devices[id]);
  }

  lemma PairingPendingStep(w: World, e: Event, id: DeviceId, state: PairState)
    requires TableOk(w.core.table) && MapsAgree(w)
    requires Pairing(e) && Pending(state) && PendingIn(Step(w, e), id, state)
    ensures PendingIn(w, id, state) || Asks(w, e, id, state)
    ensures id in w.history.lastRegistered && LastLink(w, id) == LastLink(Step(w, e), id)
  {
    PairingActs(w.core, e);
    PairingObserves(w.history, w.core, e);
    ActKeepsTable(w.core.table, e.id, ActOf(w.core, e), e.storeOk);
    assert id in w.core.table.devices;
    if e.id == id {
      ActedPendingStep(w, e, state);
    }
  }

  lemma ActedPendingStep(w: World, e: Event, state: PairState)
    requires MapsAgree(w) && Pairing(e) && Pending(state) && e.id in w.core.table.devices
    requires e.id in w.history.lastRegistered
    requires var t := Acted(w.core.table, e.id, ActOf(w.core, e), e.storeOk);
             e.id in t.devices && t.devices[e.id].pairState == state
    ensures PendingIn(w, e.id, state) || Asks(w, e, e.id, state)
  {
    ActState(w.core.table, e.id, ActOf(w.core, e), e.storeOk);
    if w.core.table.devices[e.id].pairState != state {
      UpdateIsAsked(w, e, state);
    }
  }

  lemma UpdateIsAsked(w: World, e: Event, state: PairState)
    requires MapsAgree(w) && Pairing(e) && Pending(state) && ActOf(w.core, e) == Update(state)
    ensures Asks(w, e, e.id, state)
  {
    if e.id in w.core.connIds {
      assert RecordedOk(w, e.id, w.core.connIds[e.id]);
    }
  }

  /** Event `k` was one side's ask over `link`; with `user` telling which side. */
  predicate AsksAt(store: Store, events: seq<Event>, k: nat, link: Link, id: DeviceId, user: bool)
    requires k < |events|
  {
    if user then UserAsksAt(store, events, k, link, id) else PeerAsksAt(store, events, k, link, id)
  }

  lemma AskIsAt(store: Store, events: seq<Event>, k: nat, id: DeviceId, state: PairState)
    requires k < |events| && Pending(state) && Asks(Before(store, events, k), events[k], id, state)
    ensures AsksAt(store, events, k, LastLink(Before(store, events, k), id), id, state == Requesting)
  {
  }

  ghost predicate UnpairedBetween(store: Store, events: seq<Event>, k: nat, m: nat, id: DeviceId)
    requires m <= |events|
  {
    forall j: nat | k < j <= m :: PinAt(store, events, j, id) == None
  }

  /** Ever since event `k` the device has been pending in this state, over this connection. */
  ghost predicate PendingBetween(store: Store, events: seq<Event>, k: nat, m: nat, id: DeviceId, state: PairState,
                                 link: Link)
    requires m <= |events|
  {
    forall j: nat | k < j <= m ::
      PendingIn(Before(store, events, j), id, state) && LastLink(Before(store, events, j), id) == link
  }

  lemma UnpairedFurther(store: Store, events: seq<Event>, k: nat, n: nat, id: DeviceId)
    requires 0 < n <= |events| && PinAt(store, events, n, id) == None
    requires k == n - 1 || UnpairedBetween(store, events, k, n - 1, id)
    ensures UnpairedBetween(store, events, k, n, id)
  {
  }

  lemma PendingFurther(store: Store, events: seq<Event>, k: nat, n: nat, id: DeviceId, state: PairState, link: Link)
    requires 0 < n <= |events| && PendingIn(Before(store, events, n), id, state)
    requires LastLink(Before(store, events, n), id) == link
    requires k == n - 1 || PendingBetween(store, events, k, n - 1, id, state, link)
    ensures PendingBetween(store, events, k, n, id, state, link)
  {
  }

  lemma PendingIsUnpinned(store: Store, events: seq<Event>, n: nat, id: DeviceId, state: PairState)
    requires LegalRun(store, events) && n <= |events|
    requires Pending(state) && PendingIn(Before(store, events, n), id, state)
    ensures PinAt(store, events, n, id) == None
  {
    PrefixIsLegal(store, events, n);
    EveryRun(store, events[..n]);
    var t := Before(store, events, n).core.table;
    assert DeviceOk(t.store, id, t.devices[id]);
  }

  lemma NothingPendingAtStart(store: Store, events: seq<Event>, id: DeviceId, state: PairState)
    ensures !PendingIn(Before(store, events, 0), id, state)
  {
    assert events[..0] == [];
  }

  lemma PendingSteps(store: Store, events: seq<Event>, n: nat, id: DeviceId, state: PairState)
    requires LegalRun(store, events) && n < |events|
    requires Pending(state) && PendingIn(Before(store, events, n + 1), id, state)
    ensures var w := Before(store, events, n);
            && (PendingIn(w, id, state) || Asks(w, events[n], id, state))
            && id in w.history.lastRegistered && LastLink(w, id) == LastLink(Before(store, events, n + 1), id)
  {
    PrefixIsLegal(store, events, n);
    EveryRun(store, events[..n]);
    PendingStep(store, Before(store, events, n), events[n], id, state);
  }

  /** A pending device was asked for over its last registered connection, and has been pending
      in the same state and unpaired ever since. */
  lemma {:induction false} PendingIsFresh(store: Store, events: seq<Event>, n: nat, id: DeviceId, state: PairState)
    returns (k: nat)
    requires LegalRun(store, events) && n <= |events|
    requires Pending(state) && PendingIn(Before(store, events, n), id, state)
    ensures k < n && AsksAt(store, events, k, LastLink(Before(store, events, n), id), id, state == Requesting)
    ensures UnpairedBetween(store, events, k, n, id)
    ensures PendingBetween(store, events, k, n, id, state, LastLink(Before(store, events, n), id))
    decreases n
  {
    NothingPendingAtStart(store, events, id, state);
    PendingIsUnpinned(store, events, n, id, state);
    PendingSteps(store, events, n - 1, id, state);
    if Asks(Before(store, events, n - 1), events[n - 1], id, state) {
      k := n - 1;
      AskIsAt(store, events, k, id, state);
    } else {
      k := PendingIsFresh(store, events, n - 1, id, state);
    }
    UnpairedFurther(store, events, k, n, id);
    PendingFurther(store, events, k, n, id, state, LastLink(Before(store, events, n), id));
  }

  /** `e` is the other side's ask while the device is pending in `state`. */
  predicate Answers(w: World, e: Event, id: DeviceId, state: PairState)
    requires id in w.history.lastRegistered
  {
    if state == Requesting
    then e.Incoming? && e.id == id && e.body == Pair(true) && Current(w.core, id, e.conn)
         && Link(w.history.boot, e.conn) == LastLink(w, id)
    else e.AppAccept? && e.id == id
  }

  lemma ApproverAnswers(w: World, e: Event)
    requires TableOk(w.core.table) && Registered(w) && MapsAgree(w) && Pairing(e)
    requires ActOf(w.core, e) == Approve
    ensures e.id in w.core.connIds && e.id in w.core.table.devices
    ensures PresentedBy(w, e.id, w.core.table.devices[e.id])
    ensures var state := w.core.table.devices[e.id].pairState;
            Pending(state) && PendingIn(w, e.id, state) && Answers(w, e, e.id, state)
  {
    assert e.id in w.core.connIds && RecordedOk(w, e.id, w.core.connIds[e.id]);
    assert PresentedBy(w, e.id, w.core.table.devices[e.id]);
  }

  lemma PinningActApproves(t: Table, id: DeviceId, act: Act, storeOk: bool, pinned: DeviceId)
    requires TableOk(t) && (act.Update? ==> act.state != Paired)
    requires PersistedPin(t.store, pinned) == None && PersistedPin(Acted(t, id, act, storeOk).store, pinned).Some?
    ensures pinned == id && act == Approve && id in t.devices
    ensures PersistedPin(Acted(t, id, act, storeOk).store, id) == t.devices[id].live
  {
    ActKeepsTable(t, id, act, storeOk);
    assert pinned == id;
    NewPinIsApproved(t, id, act, storeOk);
  }

  lemma OnlyPairingPins(store: Store, w: World, e: Event, id: DeviceId)
    requires Inv(store, w) && Legal(w, e)
    requires PersistedPin(w.core.table.store, id) == None && PersistedPin(Step(w, e).core.table.store, id).Some?
    ensures Pairing(e) && e.id == id && ActOf(w.core, e) == Approve
    ensures id in w.core.table.devices
    ensures PersistedPin(Step(w, e).core.table.store, id) == w.core.table.devices[id].live
  {
    if Pairing(e) {
      PairingActs(w.core, e);
      PinningActApproves(w.core.table, e.id, ActOf(w.core, e), e.storeOk, id);
    } else {
      OtherStepsKeepStore(w, e);
    }
  }

  /** The step that creates a pin is one side's ask, while the other side's is pending over the
      same connection, which presented the pinned certificate. */
  lemma ApprovalStep(store: Store, w: World, e: Event, id: DeviceId) returns (state: PairState)
    requires Inv(store, w) && Legal(w, e)
    requires PersistedPin(w.core.table.store, id) == None && PersistedPin(Step(w, e).core.table.store, id).Some?
    ensures Pending(state) && PendingIn(w, id, state) && id in w.core.connIds
    ensures PresentedBy(w, id, w.core.table.devices[id])
    ensures PersistedPin(Step(w, e).core.table.store, id) == w.core.table.devices[id].live
    ensures Answers(w, e, id, state)
  {
    OnlyPairingPins(store, w, e, id);
    ApproverAnswers(w, e);
    state := w.core.table.devices[id].pairState;
  }

  lemma ApprovalIsAsk(store: Store, events: seq<Event>, m: nat, id: DeviceId, state: PairState)
    requires m < |events| && Pending(state)
    requires var w, e := Before(store, events, m), events[m];
             && id in w.core.connIds && id in w.history.lastRegistered
             && Answers(w, e, id, state)
    ensures AsksAt(store, events, m, LastLink(Before(store, events, m), id), id, state != Requesting)
  {
  }

  /** The state the first ask leaves a device in: its own user's, or the peer's. */
  function AskedState(userFirst: bool): PairState {
    if userFirst then Requesting else Requested
  }

  /** Every event that gives a device a pin it did not have is one side's ask; the other side's
      ask precedes it over the same connection, which presented the certificate pinned, and at
      every moment in between the device was unpaired and still waiting for the answer over that
      connection. */
  lemma FreshConsent(store: Store, events: seq<Event>, m: nat, id: DeviceId)
    returns (k: nat, link: Link, userFirst: bool)
    requires LegalRun(store, events) && m < |events|
    requires PinAt(store, events, m, id) == None && PinAt(store, events, m + 1, id).Some?
    ensures k < m
    ensures AsksAt(store, events, k, link, id, userFirst) && AsksAt(store, events, m, link, id, !userFirst)
    ensures UnpairedBetween(store, events, k, m, id)
    ensures PendingBetween(store, events, k, m, id, AskedState(userFirst), link)
    ensures WasPresented(store, events[..m], link, id, PinAt(store, events, m + 1, id).value)
  {
    PrefixIsLegal(store, events, m);
    EveryRun(store, events[..m]);
    var w := Before(store, events, m);
    var state := ApprovalStep(store, w, events[m], id);
    link, userFirst := LastLink(w, id), state == Requesting;
    k := PendingIsFresh(store, events, m, id, state);
    ApprovalIsAsk(store, events, m, id, state);
    HistoryIsTrue(store, events[..m], link);
  }

  /** The last event of the run gave the device its pin, with the consent of both sides: the last
      event is one side's ask, the other's precedes it, with the device waiting since. */
  ghost predicate FreshlyAgreed(store: Store, events: seq<Event>, id: DeviceId)
    requires events != []
  {
    exists k: nat, link, userFirst | k < |events| - 1 :: AgreedSince(store, events, id, k, link, userFirst)
  }

  ghost predicate AgreedSince(store: Store, events: seq<Event>, id: DeviceId, k: nat, link: Link, userFirst: bool)
    requires k < |events| - 1
  {
    var m, pin := |events| - 1, PinAt(store, events, |events|, id);
    && AsksAt(store, events, k, link, id, userFirst) && AsksAt(store, events, m, link, id, !userFirst)
    && UnpairedBetween(store, events, k, m, id)
    && PendingBetween(store, events, k, m, id, AskedState(userFirst), link)
    && pin.Some? && WasPresented(store, events[..m], link, id, pin.value)
  }

  lemma PinsOfPrefix(store: Store, events: seq<Event>, e: Event, id: DeviceId)
    ensures PinAt(store, events + [e], |events|, id) == PersistedPin(Run(store, events).core.table.store, id)
    ensures PinAt(store, events + [e], |events| + 1, id)
            == PersistedPin(Run(store, events + [e]).core.table.store, id)
  {
    assert (events + [e])[..|events|] == events;
    assert (events + [e])[..|events| + 1] == events + [e];
  }

  /** Whatever the last event was, a pin it gave was freshly agreed upon. */
  lemma NewPinIsAgreed(store: Store, events: seq<Event>, e: Event, id: DeviceId)
    requires LegalRun(store, events + [e])
    requires PersistedPin(Run(store, events).core.table.store, id) == None
    requires PersistedPin(Run(store, events + [e]).core.table.store, id).Some?
    ensures FreshlyAgreed(store, events + [e], id)
  {
    PinsOfPrefix(store, events, e, id);
    PinIsAgreed(store, events + [e], id);
  }

  lemma PinIsAgreed(store: Store, events: seq<Event>, id: DeviceId)
    requires LegalRun(store, events) && events != []
    requires PinAt(store, events, |events| - 1, id) == None && PinAt(store, events, |events|, id).Some?
    ensures FreshlyAgreed(store, events, id)
  {
    var k, link, userFirst := FreshConsent(store, events, |events| - 1, id);
    assert AgreedSince(store, events, id, k, link, userFirst);
  }
}
