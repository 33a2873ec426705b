/** The service's copy of the pairing states catches up with the pairing store, except after one
    step and for records restored without a pin, both characterised exactly. */
module MirrorAgreement {
  import opened Common
  import opened Devices
  import opened PairingTable
  import opened Registry
  import opened RegistryInvariants
  import opened RegistryTheorems

  /** What one connection event says about the pairing of `id`. */
  function Says(event: ConnEvent, id: DeviceId): Option<bool> {
    match event
    case Connected(device) => if device.id == id then Some(device.pairState == Paired) else None
    case PairedNotice(device) => if device.id == id then Some(true) else None
    case PairStateChanged(changed, state) => if changed == id then Some(state == Paired) else None
    case _ => None
  }

  /** The last word of a log about `id`. */
  function Verdict(log: seq<ConnEvent>, id: DeviceId): Option<bool>
    decreases |log|
  {
    if log == [] then None
    else if Says(log[|log| - 1], id).Some? then Says(log[|log| - 1], id)
    else Verdict(log[..|log| - 1], id)
  }

  lemma {:induction false} VerdictConcat(a: seq<ConnEvent>, b: seq<ConnEvent>, id: DeviceId)
    ensures Verdict(a + b, id) == if Verdict(b, id).Some? then Verdict(b, id) else Verdict(a, id)
    decreases |b|
  {
    if b == [] {
      assert a + b == a;
    } else {
      VerdictConcat(a, b[..|b| - 1], id);
      assert (a + b)[..|a + b| - 1] == a + b[..|b| - 1];
    }
  }

  /** The connection events the queued core events will become. */
  function Outputs(queue: seq<CoreEvent>): seq<ConnEvent> {
    if queue == [] then [] else Output(queue[0]) + Outputs(queue[1..])
  }

  lemma {:induction false} OutputsSnoc(queue: seq<CoreEvent>, event: CoreEvent)
    ensures Outputs(queue + [event]) == Outputs(queue) + Output(event)
    decreases |queue|
  {
    if queue == [] {
      assert queue + [event] == [event];
      assert Outputs([event][1..]) == [];
    } else {
      OutputsSnoc(queue[1..], event);
      assert (queue + [event])[1..] == queue[1..] + [event];
    }
  }

  function Queued(c: Core, id: DeviceId): Option<bool> {
    Verdict(Outputs(c.table.queue), id)
  }

  /** The last word about `id` once everything queued has been handled. */
  function Told(c: Core, id: DeviceId): Option<bool> {
    if Queued(c, id).Some? then Queued(c, id) else Verdict(c.connLog, id)
  }

  predicate Trusted(store: Store, id: DeviceId) {
    PersistedPin(store, id).Some?
  }

  predicate SyncedAt(c: Core, id: DeviceId) {
    Told(c, id).Some? ==> Told(c, id) == Some(Trusted(c.table.store, id))
  }

  /** The service is bound to show an unpaired device although its pin is still trusted. */
  predicate Lagging(c: Core, id: DeviceId) {
    Queued(c, id).None? && Told(c, id) == Some(false) && Trusted(c.table.store, id)
  }

  /** The one step that can mislead the service: the peer unpairs, the store cannot be written
      (so the pin stays), the core broadcasts NotPaired regardless, and no queued event will
      say otherwise. */
  predicate Misleads(c: Core, e: Event) {
    && e.Incoming? && e.body == Pair(false) && !e.storeOk
    && Current(c, e.id, e.conn)
    && e.id in c.table.devices && c.table.devices[e.id].pairState == Paired
    && Queued(c, e.id).None?
  }

  // --- One step ----------------------------------------------------------------------------

  /** A broadcast is the last word about the devices it speaks of, unless something is queued. */
  lemma ToldAfterBroadcast(c: Core, event: ConnEvent, id: DeviceId)
    ensures Told(Broadcast(c, event), id) ==
            if Queued(c, id).Some? then Queued(c, id)
            else if Says(event, id).Some? then Says(event, id)
            else Told(c, id)
  {
    VerdictConcat(c.connLog, [event], id);
    assert Verdict([event], id) == Says(event, id) by {
      assert [event][..0] == [];
    }
  }

  lemma VerdictOne(event: CoreEvent, id: DeviceId)
    ensures Verdict(Output(event), id) == if Output(event) == [] then None else Says(Output(event)[0], id)
  {
    if Output(event) != [] {
      assert Output(event)[..|Output(event)| - 1] == [];
    }
  }

  /** A queued event is the last word about the devices it speaks of. */
  lemma QueuedAfterPush(c: Core, c': Core, event: CoreEvent, id: DeviceId)
    requires c'.table.queue == c.table.queue + [event]
    ensures Queued(c', id) == if Verdict(Output(event), id).Some? then Verdict(Output(event), id) else Queued(c, id)
  {
    OutputsSnoc(c.table.queue, event);
    VerdictConcat(Outputs(c.table.queue), Output(event), id);
  }

  lemma QuietTells(c: Core, e: Event, id: DeviceId)
    requires Quiet(e) && (e.Background? ==> e.queued.SendPacket? || e.queued.SendPayload?)
    ensures var c' := CoreStep(c, e);
            && c'.table.store == c.table.store && Told(c', id) == Told(c, id)
            && (Queued(c, id).None? ==> Queued(c', id).None?)
  {
    QuietFrame(c, e);
    if e.AppSendFiles? {
      SendFilesFrame(c, e.id, e.packets);
    } else if e.CoreNext? && c.table.queue != [] {
      CoreNextTells(c, e, id);
    } else if e.Background? {
      QueuedAfterPush(c, CoreStep(c, e), e.queued, id);
    } else if e.AppRequest? && e.id in c.table.devices {
      QueuedAfterPush(c, CoreStep(c, e), SendPacket(e.id, e.packet), id);
    }
  }

  /** Handling a queued event moves its words from the queue to the channel. */
  lemma CoreNextTells(c: Core, e: Event, id: DeviceId)
    requires e.CoreNext? && c.table.queue != []
    ensures Told(CoreStep(c, e), id) == Told(c, id)
    ensures Queued(c, id).None? ==> Queued(CoreStep(c, e), id).None?
  {
    var head, rest := c.table.queue[0], c.table.queue[1..];
    CoreNextOutput(c, e);
    VerdictConcat(Output(head), Outputs(rest), id);
    VerdictConcat(c.connLog, Output(head), id);
  }

  lemma UnlinkingTells(c: Core, e: Event, id: DeviceId)
    requires Unlinking(e)
    ensures CoreStep(c, e).table == c.table && Told(CoreStep(c, e), id) == Told(c, id)
  {
    ToldAfterBroadcast(Forget(c, e.id), Disconnected(e.id), id);
  }

  /** The event announces a connection of `id`. */
  predicate Announces(c: Core, e: Event, id: DeviceId) {
    e.NewConnection? && e.id == id && e.acceptorAlive && Admitted(c, id, e.certificate, e.access).Some?
  }

  /** An announced connection tells what the store says, unless something is queued. */
  lemma NewConnectionTells(c: Core, e: Event, id: DeviceId)
    requires e.NewConnection? && Determined(c.table.store, e.id, e.access)
    ensures var c' := CoreStep(c, e);
            && c'.table.store == c.table.store && c'.table.queue == c.table.queue
            && Told(c', id) == if Announces(c, e, id) && Queued(c, id).None? then Some(Trusted(c.table.store, id))
                               else Told(c, id)
  {
    var admitted := Admitted(c, e.id, e.certificate, e.access);
    if admitted.Some? {
      BindingAgrees(c.table.store, e.id, e.access, e.certificate);
      var registered := Register(c, admitted.value, e.id, e.conn);
      var greeted := if admitted.value.pairState == Paired then Send(registered, e.id, Greeting) else registered;
      ToldAfterBroadcast(greeted, Connected(admitted.value), id);
    }
  }

  /** What a table operation queues, if it does anything, and what it then leaves in the store. */
  lemma ActQueues(t: Table, id: DeviceId, act: Act, storeOk: bool) returns (event: CoreEvent)
    requires TableOk(t) && Acted(t, id, act, storeOk) != t
    requires act.Update? ==> act.state != Paired
    requires act.Queue? ==> Output(act.event) == []
    ensures Acted(t, id, act, storeOk).queue == t.queue + [event]
    ensures act.Queue? ==> Output(event) == [] && Acted(t, id, act, storeOk).store == t.store
    ensures !act.Queue? ==> Output(event) != []
    ensures Output(event) != [] ==> Says(Output(event)[0], id) == Some(Trusted(Acted(t, id, act, storeOk).store, id))
    ensures forall other | other != id && Output(event) != [] :: Says(Output(event)[0], other) == None
  {
    assert id in t.devices ==> DeviceOk(t.store, id, t.devices[id]);
    match act
    case Keep =>
    case Queue(queued) => event := queued;
    case Update(state) =>
      UpdateKeepsTable(t, id, state, storeOk);
      event := DevicePairStateChanged(id, state);
    case Approve =>
      SetPairedKeepsTable(t, id, true, storeOk);
      event := DevicePaired(t.devices[id].(pinned := t.devices[id].live, pairState := Paired));
    case Cancel =>
      SetPairedKeepsTable(t, id, false, storeOk);
      event := DevicePairCancelled(id);
  }

  /** The pairing step changes the pairing table, and queues a word about it. */
  predicate Changes(c: Core, e: Event)
    requires Pairing(e)
  {
    !ActOf(c, e).Queue? && Acted(c.table, e.id, ActOf(c, e), e.storeOk) != c.table
  }

  /** What a table operation queues is what it stores, about its own device and no other. */
  lemma ActTells(c: Core, c': Core, id: DeviceId, act: Act, storeOk: bool, other: DeviceId)
    requires TableOk(c.table) && c'.table == Acted(c.table, id, act, storeOk) && c'.table != c.table
    requires act.Update? ==> act.state != Paired
    requires act.Queue? ==> Output(act.event) == []
    ensures if !act.Queue? && other == id then Queued(c', other) == Some(Trusted(c'.table.store, other))
            else
              && Queued(c', other) == Queued(c, other)
              && Trusted(c'.table.store, other) == Trusted(c.table.store, other)
  {
    ActKeepsTable(c.table, id, act, storeOk);
    var event := ActQueues(c.table, id, act, storeOk);
    VerdictOne(event, other);
    QueuedAfterPush(c, c', event, other);
  }

  lemma PairingQueues(c: Core, e: Event, id: DeviceId)
    requires TableOk(c.table) && Pairing(e)
    ensures var c' := CoreStep(c, e);
            if Changes(c, e) && e.id == id then Queued(c', id) == Some(Trusted(c'.table.store, id))
            else Queued(c', id) == Queued(c, id) && Trusted(c'.table.store, id) == Trusted(c.table.store, id)
  {
    PairingActs(c, e);
    if CoreStep(c, e).table != c.table {
      ActTells(c, CoreStep(c, e), e.id, ActOf(c, e), e.storeOk, id);
    }
  }

  lemma QuietActTells(c: Core, e: Event, id: DeviceId)
    requires TableOk(c.table) && Pairing(e) && !(Changes(c, e) && e.id == id)
    ensures var acted := CoreStep(c, e).(connLog := c.connLog);
            Told(acted, id) == Told(c, id) && Queued(acted, id) == Queued(c, id)
  {
    PairingQueues(c, e, id);
  }

  /** A pairing step that changes the table tells what the store then says; any other one tells
      nothing new, unless it misleads. */
  lemma PairingTells(c: Core, e: Event, id: DeviceId)
    requires TableOk(c.table) && Pairing(e) && !(Changes(c, e) && e.id == id)
    ensures Told(CoreStep(c, e), id) == if Misleads(c, e) && e.id == id then Some(false) else Told(c, id)
  {
    var c' := CoreStep(c, e);
    QuietActTells(c, e, id);
    if c'.connLog == c.connLog + [PairStateChanged(e.id, NotPaired)] {
      ToldAfterBroadcast(c'.(connLog := c.connLog), PairStateChanged(e.id, NotPaired), id);
      StateBroadcastMisleads(c, e);
    } else {
      if Misleads(c, e) {
        MisleadingBroadcasts(c, e);
        assert false;
      }
      PairingActs(c, e);
      ToldAfterBroadcast(c'.(connLog := c.connLog), PairingRequested(e.id), id);
    }
  }

  /** NotPaired is broadcast with the table unchanged only by a step that misleads, unless
      something is queued. */
  lemma StateBroadcastMisleads(c: Core, e: Event)
    requires TableOk(c.table) && Pairing(e)
    requires CoreStep(c, e).connLog == c.connLog + [PairStateChanged(e.id, NotPaired)]
    ensures Changes(c, e) || Misleads(c, e) || Queued(c, e.id).Some?
  {
    BroadcastsCancel(c, e);
    PairingActs(c, e);
    if !Changes(c, e) {
      UnchangedMeansUnwritten(c, e);
    }
  }

  lemma MisleadingBroadcasts(c: Core, e: Event)
    requires Misleads(c, e)
    ensures CoreStep(c, e).connLog == c.connLog + [PairStateChanged(e.id, NotPaired)]
  {
  }

  lemma BroadcastsCancel(c: Core, e: Event)
    requires Pairing(e)
    requires CoreStep(c, e).connLog == c.connLog + [PairStateChanged(e.id, NotPaired)]
    ensures ActOf(c, e) == Update(NotPaired) || ActOf(c, e) == Cancel
  {
    assert CoreStep(c, e).connLog[|c.connLog|] == PairStateChanged(e.id, NotPaired);
  }

  lemma UnchangedMeansUnwritten(c: Core, e: Event)
    requires TableOk(c.table) && Pairing(e)
    requires CoreStep(c, e).connLog == c.connLog + [PairStateChanged(e.id, NotPaired)]
    requires CoreStep(c, e).table == c.table
    ensures e.Incoming? && e.body == Pair(false) && !e.storeOk && Current(c, e.id, e.conn)
    ensures e.id in c.table.devices && c.table.devices[e.id].pairState == Paired
  {
    assert |c.connLog + [PairStateChanged(e.id, NotPaired)]| == |c.connLog| + 1;
    assert e.id in c.table.devices ==> DeviceOk(c.table.store, e.id, c.table.devices[e.id]);
    var queue := CoreStep(c, e).table.queue;
    assert |queue| == |c.table.queue|;
    assert CoreStep(c, e).connLog[|c.connLog|] == PairStateChanged(e.id, NotPaired);
  }

  /** The steps that end a lag: a restart, an announced connection of the device, or any of the
      three ways to unpin it. */
  predicate Corrects(c: Core, e: Event, id: DeviceId) {
    e.Restart? || Announces(c, e, id) || Unpins(c, e, id)
  }

  /** A device whose pin is trusted changes its pairing exactly by being unpinned. */
  lemma ChangingIsUnpinning(store: Store, w: World, e: Event)
    requires Inv(store, w) && Pairing(e) && Trusted(w.core.table.store, e.id)
    ensures Changes(w.core, e) <==> Unpins(w.core, e, e.id)
  {
    var c := w.core;
    if e.id in c.connIds {
      assert RecordedOk(w, e.id, c.connIds[e.id]);
    }
    if e.id in c.table.devices {
      assert DeviceOk(c.table.store, e.id, c.table.devices[e.id]);
    }
    UnpinningActs(c, e);
    if !ActOf(c, e).Queue? {
      PushingChanges(c.table, e.id, ActOf(c, e), e.storeOk);
    }
  }

  lemma PushingChanges(t: Table, id: DeviceId, act: Act, storeOk: bool)
    requires act == Approve && id in t.devices ==> t.devices[id].pairState in {NotPaired, Paired}
    requires id in t.devices ==> ValidId(id) && t.devices[id].id == id
    requires !act.Queue?
    ensures Acted(t, id, act, storeOk) != t <==>
            storeOk && ((act.Update? && id in t.devices) || (act == Cancel && ValidId(id)))
  {
    assert Acted(t, id, act, storeOk) != t <==> |Acted(t, id, act, storeOk).queue| != |t.queue|;
  }

  lemma MisleadingStep(store: Store, w: World, e: Event)
    requires Inv(store, w) && Pairing(e) && Misleads(w.core, e)
    ensures !Changes(w.core, e) && Trusted(w.core.table.store, e.id)
  {
    assert DeviceOk(w.core.table.store, e.id, w.core.table.devices[e.id]);
  }

  predicate MisleadsAbout(c: Core, e: Event, id: DeviceId) {
    Misleads(c, e) && e.id == id
  }

  /** One step takes agreement away exactly when it misleads about the device. */
  lemma SyncedStep(store: Store, w: World, e: Event, id: DeviceId)
    requires Inv(store, w) && Legal(w, e) && SyncedAt(w.core, id)
    ensures if MisleadsAbout(w.core, e, id) then Lagging(Step(w, e).core, id) else SyncedAt(Step(w, e).core, id)
  {
    var c := w.core;
    if Quiet(e) {
      QuietTells(c, e, id);
    } else if Pairing(e) {
      PairingQueues(c, e, id);
      if Misleads(c, e) {
        MisleadingStep(store, w, e);
      }
      if !(Changes(c, e) && e.id == id) {
        PairingTells(c, e, id);
      }
    } else if Unlinking(e) {
      UnlinkingTells(c, e, id);
    } else if e.NewConnection? {
      NewConnectionTells(c, e, id);
    }
  }

  lemma LaggingPairing(store: Store, w: World, e: Event, id: DeviceId)
    requires Inv(store, w) && Pairing(e) && Lagging(w.core, id)
    ensures if Unpins(w.core, e, id) then SyncedAt(CoreStep(w.core, e), id) else Lagging(CoreStep(w.core, e), id)
  {
    PairingQueues(w.core, e, id);
    if e.id == id {
      ChangingIsUnpinning(store, w, e);
    }
    if !(Changes(w.core, e) && e.id == id) {
      PairingTells(w.core, e, id);
    }
  }

  lemma MisleadingUnpinsNothing(c: Core, e: Event, id: DeviceId)
    requires MisleadsAbout(c, e, id)
    ensures !Corrects(c, e, id)
  {
  }

  lemma LaggingElsewhere(c: Core, e: Event, id: DeviceId)
    requires Quiet(e) || Unlinking(e) || (e.NewConnection? && Determined(c.table.store, e.id, e.access))
    requires Lagging(c, id) && (e.Background? ==> e.queued.SendPacket? || e.queued.SendPayload?)
    ensures if Announces(c, e, id) then SyncedAt(CoreStep(c, e), id) else Lagging(CoreStep(c, e), id)
  {
    if Quiet(e) {
      QuietTells(c, e, id);
    } else if Unlinking(e) {
      UnlinkingTells(c, e, id);
    } else {
      NewConnectionTells(c, e, id);
    }
  }

  /** One step ends a lag exactly when it corrects it. */
  lemma LaggingStep(store: Store, w: World, e: Event, id: DeviceId)
    requires Inv(store, w) && Legal(w, e) && Lagging(w.core, id)
    ensures if Corrects(w.core, e, id) then SyncedAt(Step(w, e).core, id) else Lagging(Step(w, e).core, id)
  {
    if Pairing(e) {
      LaggingPairing(store, w, e, id);
    } else if !e.Restart? {
      LaggingElsewhere(w.core, e, id);
    }
  }

  // --- Every run ---------------------------------------------------------------------------

  /** Some step of the run misled the service about the device, and none since corrected it. */
  predicate Misled(store: Store, events: seq<Event>, id: DeviceId)
    decreases |events|
  {
    events != [] &&
    (var c, e := Run(store, events[..|events| - 1]).core, events[|events| - 1];
     MisleadsAbout(c, e, id) || (Misled(store, events[..|events| - 1], id) && !Corrects(c, e, id)))
  }

  /** After every run, the last queued or sent word about a device is what the store says
      exactly when the run did not leave it misled. */
  lemma {:induction false} SyncedUnlessMisled(store: Store, events: seq<Event>, id: DeviceId)
    requires LegalRun(store, events)
    ensures SyncedAt(Run(store, events).core, id) <==> !Misled(store, events, id)
    ensures Misled(store, events, id) ==> Lagging(Run(store, events).core, id)
    decreases |events|
  {
    if events != [] {
      var before, e := events[..|events| - 1], events[|events| - 1];
      EveryRun(store, before);
      SyncedUnlessMisled(store, before, id);
      if Misled(store, before, id) {
        LaggingStep(store, Run(store, before), e, id);
        if MisleadsAbout(Run(store, before).core, e, id) {
          MisleadingUnpinsNothing(Run(store, before).core, e, id);
        }
      } else {
        SyncedStep(store, Run(store, before), e, id);
      }
    }
  }

  // --- Devices nothing was told about --------------------------------------------------------

  /** The pairing store at the last start. */
  function BootStore(store: Store, events: seq<Event>): Store
    decreases |events|
  {
    if events == [] then store
    else
      var before := events[..|events| - 1];
      if events[|events| - 1].Restart? then Run(store, before).core.table.store else BootStore(store, before)
  }

  lemma UntoldPairing(c: Core, e: Event, id: DeviceId)
    requires TableOk(c.table) && Pairing(e) && Told(CoreStep(c, e), id).None?
    ensures Told(c, id).None? && Trusted(CoreStep(c, e).table.store, id) == Trusted(c.table.store, id)
  {
    PairingQueues(c, e, id);
    if !(Changes(c, e) && e.id == id) {
      PairingTells(c, e, id);
    }
  }

  /** After a step that leaves nothing told about a device, nothing was told before either, and
      the step left its trust alone. */
  lemma UntoldStep(store: Store, w: World, e: Event, id: DeviceId)
    requires Inv(store, w) && Legal(w, e) && !e.Restart? && Told(Step(w, e).core, id).None?
    ensures Told(w.core, id).None?
    ensures Trusted(Step(w, e).core.table.store, id) == Trusted(w.core.table.store, id)
  {
    var c := w.core;
    if Quiet(e) {
      QuietTells(c, e, id);
    } else if Pairing(e) {
      UntoldPairing(c, e, id);
    } else if Unlinking(e) {
      UnlinkingTells(c, e, id);
    } else {
      NewConnectionTells(c, e, id);
    }
  }

  lemma {:induction false} UntoldKeepsTrust(store: Store, events: seq<Event>, id: DeviceId)
    requires LegalRun(store, events) && Told(Run(store, events).core, id).None?
    ensures Trusted(Run(store, events).core.table.store, id) == Trusted(BootStore(store, events), id)
    decreases |events|
  {
    if events != [] && !events[|events| - 1].Restart? {
      var before := events[..|events| - 1];
      EveryRun(store, before);
      UntoldStep(store, Run(store, before), events[|events| - 1], id);
      UntoldKeepsTrust(store, before, id);
    }
  }

  /** Nothing was told about the device since the last start, when the store did not trust any
      certificate for it: if the service shows it as paired, that is from a record without a pin,
      or one filed under another id. */
  predicate Stale(store: Store, events: seq<Event>, id: DeviceId) {
    Told(Run(store, events).core, id).None? && !Trusted(BootStore(store, events), id)
  }

  // --- The service ---------------------------------------------------------------------------

  /** The service after handling a whole log, on top of the devices it restored. */
  function MirrorAll(restored: Mirror, log: seq<ConnEvent>): Mirror
    decreases |log|
  {
    if log == [] then restored else MirrorEvent(MirrorAll(restored, log[..|log| - 1]), log[|log| - 1])
  }

  /** A device is restored as paired. */
  predicate AllPaired(restored: Mirror) {
    forall id | id in restored :: restored[id].isPaired
  }

  /** What the service shows is the last word about a device, or that it was restored. */
  predicate Shows(mirror: Mirror, restored: Mirror, log: seq<ConnEvent>, id: DeviceId) {
    id in mirror ==>
      if Verdict(log, id).Some? then Verdict(log, id) == Some(mirror[id].isPaired)
      else id in restored && mirror[id].isPaired
  }

  lemma {:induction false} MirrorShowsVerdict(restored: Mirror, log: seq<ConnEvent>, id: DeviceId)
    requires AllPaired(restored)
    ensures Shows(MirrorAll(restored, log), restored, log, id)
    ensures id in restored || Announced(log, id) ==> id in MirrorAll(restored, log)
    decreases |log|
  {
    if log != [] {
      MirrorShowsVerdict(restored, log[..|log| - 1], id);
    }
  }

  /** The mirror is always the log's first `served` events, handled in order. */
  predicate Serves(w: World) {
    && w.service.served <= |w.core.connLog|
    && w.service.mirror == MirrorAll(w.service.restored, w.core.connLog[..w.service.served])
    && AllPaired(w.service.restored)
  }

  lemma ChannelGrows(c: Core, e: Event)
    requires !e.Restart?
    ensures c.connLog <= CoreStep(c, e).connLog
  {
    if e.AppSendFiles? {
      SendFilesFrame(c, e.id, e.packets);
    }
  }

  lemma StepServes(w: World, e: Event)
    requires Serves(w)
    ensures Serves(Step(w, e))
  {
    if !e.Restart? && !e.Restore? {
      ChannelGrows(w.core, e);
      var log, served := w.core.connLog, w.service.served;
      assert Step(w, e).core.connLog[..served] == log[..served];
      if e.ServiceNext? && served < |log| {
        assert log[..served + 1][..served] == log[..served];
      }
    }
  }

  lemma {:induction false} RunsServe(store: Store, events: seq<Event>)
    ensures Serves(Run(store, events))
    decreases |events|
  {
    if events != [] {
      RunsServe(store, events[..|events| - 1]);
      StepServes(Run(store, events[..|events| - 1]), events[|events| - 1]);
    }
  }

  // --- Draining ----------------------------------------------------------------------------

  /** Handle the whole core queue, then the whole connection-event channel. */
  function DrainCore(w: World, contacts: bool, mpris: bool): World
    decreases |w.core.table.queue|
  {
    if w.core.table.queue == [] then w else DrainCore(Step(w, CoreNext(contacts, mpris)), contacts, mpris)
  }

  function DrainService(w: World): World
    decreases |w.core.connLog| - w.service.served
  {
    if w.service.served >= |w.core.connLog| then w else DrainService(Step(w, ServiceNext))
  }

  lemma {:induction false} CoreDrained(w: World, contacts: bool, mpris: bool, id: DeviceId)
    requires Serves(w)
    ensures var w' := DrainCore(w, contacts, mpris);
            && w'.core.table.queue == [] && w'.core.table.store == w.core.table.store
            && Told(w'.core, id) == Told(w.core, id) && Serves(w')
            && w'.service.restored == w.service.restored
            && (Announced(w.core.connLog, id) ==> Announced(w'.core.connLog, id))
    decreases |w.core.table.queue|
  {
    if w.core.table.queue != [] {
      var e := CoreNext(contacts, mpris);
      CoreNextTells(w.core, e, id);
      StepServes(w, e);
      CoreNextAnnounces(w.core, e, id);
      CoreDrained(Step(w, e), contacts, mpris, id);
    }
  }

  lemma CoreNextOutput(c: Core, e: Event)
    requires e.CoreNext? && c.table.queue != []
    ensures CoreStep(c, e).table.store == c.table.store && CoreStep(c, e).table.queue == c.table.queue[1..]
    ensures CoreStep(c, e).connLog == c.connLog + Output(c.table.queue[0])
  {
  }

  lemma CoreNextAnnounces(c: Core, e: Event, id: DeviceId)
    requires e.CoreNext? && c.table.queue != []
    ensures CoreStep(c, e).table.store == c.table.store && CoreStep(c, e).table.queue == c.table.queue[1..]
    ensures Announced(CoreStep(c, e).connLog, id) == Announced(c.connLog, id)
  {
    CoreNextOutput(c, e);
    OutputAnnounces(c.connLog, c.table.queue[0], id);
  }

  lemma OutputAnnounces(log: seq<ConnEvent>, event: CoreEvent, id: DeviceId)
    ensures Announced(log + Output(event), id) == Announced(log, id)
  {
    if Output(event) != [] {
      assert Output(event) == [Output(event)[0]];
      AnnouncedSnoc(log, Output(event)[0], id);
    } else {
      assert log + Output(event) == log;
    }
  }

  lemma {:induction false} ServiceDrained(w: World)
    requires Serves(w)
    ensures DrainService(w).core == w.core
    ensures DrainService(w).service.mirror == MirrorAll(w.service.restored, w.core.connLog)
    decreases |w.core.connLog| - w.service.served
  {
    if w.service.served < |w.core.connLog| {
      StepServes(w, ServiceNext);
      ServiceDrained(Step(w, ServiceNext));
    } else {
      assert w.core.connLog[..w.service.served] == w.core.connLog;
    }
  }

  /** The world after handling the whole core queue and then the whole channel. */
  function Drained(store: Store, events: seq<Event>, contacts: bool, mpris: bool): World {
    DrainService(DrainCore(Run(store, events), contacts, mpris))
  }

  /** In every reachable state, handling what is queued leaves the service showing a device it
      knows as paired exactly when the store trusts a pin for it, if and only if the run did not
      leave the service misled about it and it is not a device nothing was told about and the
      store did not trust when the service restored it. */
  lemma MirrorCatchesUp(store: Store, events: seq<Event>, contacts: bool, mpris: bool, id: DeviceId)
    requires LegalRun(store, events)
    requires id in Drained(store, events, contacts, mpris).service.mirror
    ensures Drained(store, events, contacts, mpris).service.mirror[id].isPaired
            == Trusted(Run(store, events).core.table.store, id)
            <==> !Misled(store, events, id) && !Stale(store, events, id)
  {
    DrainedShowsTold(store, events, contacts, mpris, id);
    SyncedUnlessMisled(store, events, id);
    if Told(Run(store, events).core, id).None? {
      UntoldKeepsTrust(store, events, id);
    }
  }

  lemma DrainedShowsTold(store: Store, events: seq<Event>, contacts: bool, mpris: bool, id: DeviceId)
    requires LegalRun(store, events)
    ensures var w, mirror := Run(store, events), Drained(store, events, contacts, mpris).service.mirror;
            && (id in mirror ==>
                  if Told(w.core, id).Some? then Told(w.core, id) == Some(mirror[id].isPaired)
                  else id in w.service.restored && mirror[id].isPaired)
            && (id in w.core.writers || id in w.service.restored ==> id in mirror)
  {
    EveryRun(store, events);
    var w := Run(store, events);
    RunsServe(store, events);
    CoreDrained(w, contacts, mpris, id);
    ServiceDrained(DrainCore(w, contacts, mpris));
    MirrorShowsVerdict(w.service.restored, DrainCore(w, contacts, mpris).core.connLog, id);
  }

  // --- Stores that can be written --------------------------------------------------------------

  /** Every record of a paired device has its pin and is filed under the device's own id. */
  ghost predicate Tidy(store: Store) {
    forall file | file in store && store[file].pairState == Paired ::
      HasPin(store[file].pinned) && store[file].id == file
  }

  lemma ActKeepsTidy(t: Table, id: DeviceId, act: Act, storeOk: bool)
    requires TableOk(t) && Tidy(t.store) && (act.Update? ==> act.state != Paired)
    ensures Tidy(Acted(t, id, act, storeOk).store)
  {
    if id in t.devices {
      assert DeviceOk(t.store, id, t.devices[id]);
    }
  }

  lemma StepKeepsTidy(store: Store, w: World, e: Event)
    requires Inv(store, w) && Legal(w, e) && Tidy(w.core.table.store)
    ensures Tidy(Step(w, e).core.table.store)
  {
    if Pairing(e) {
      PairingActs(w.core, e);
      ActKeepsTidy(w.core.table, e.id, ActOf(w.core, e), e.storeOk);
    } else {
      OtherStepsKeepStore(w, e);
    }
  }

  lemma {:induction false} RunsKeepTidy(store: Store, events: seq<Event>)
    requires LegalRun(store, events) && Tidy(store)
    ensures Tidy(Run(store, events).core.table.store) && Tidy(BootStore(store, events))
    decreases |events|
  {
    if events != [] {
      var before := events[..|events| - 1];
      EveryRun(store, before);
      RunsKeepTidy(store, before);
      StepKeepsTidy(store, Run(store, before), events[|events| - 1]);
    }
  }

  /** Only what the records of the last start hold is restored. */
  lemma {:induction false} RestoredFromBoot(store: Store, events: seq<Event>, id: DeviceId) returns (file: DeviceId)
    requires LegalRun(store, events) && id in Run(store, events).service.restored
    ensures var boot := BootStore(store, events);
            file in boot && boot[file].pairState == Paired && boot[file].id == id
    decreases |events|
  {
    var before, e := events[..|events| - 1], events[|events| - 1];
    if e.Restore? {
      SilentSinceBoot(store, before);
      file :| file in e.files && file in Run(store, before).core.table.store
              && Run(store, before).core.table.store[file].pairState == Paired
              && Run(store, before).core.table.store[file].id == id;
    } else {
      file := RestoredFromBoot(store, before, id);
    }
  }

  /** No connection event was sent or will come of what is queued. */
  predicate Silent(c: Core) {
    c.connLog == [] && Outputs(c.table.queue) == []
  }

  /** As long as that is so, the store is that of the last start. */
  lemma {:induction false} SilentSinceBoot(store: Store, events: seq<Event>)
    requires LegalRun(store, events) && Silent(Run(store, events).core)
    ensures Run(store, events).core.table.store == BootStore(store, events)
    decreases |events|
  {
    if events != [] && !events[|events| - 1].Restart? {
      var before := events[..|events| - 1];
      EveryRun(store, before);
      SilentStep(store, Run(store, before), events[|events| - 1]);
      SilentSinceBoot(store, before);
    }
  }

  lemma SilentStep(store: Store, w: World, e: Event)
    requires Inv(store, w) && Legal(w, e) && !e.Restart? && Silent(Step(w, e).core)
    ensures Silent(w.core) && Step(w, e).core.table.store == w.core.table.store
  {
    ChannelGrows(w.core, e);
    if Pairing(e) {
      PairingActs(w.core, e);
      SilentAct(w.core, CoreStep(w.core, e), e.id, ActOf(w.core, e), e.storeOk);
    } else {
      OtherStepsKeepStore(w, e);
      if Quiet(e) {
        SilentQuiet(w.core, e);
      }
    }
  }

  lemma SilentAct(c: Core, c': Core, id: DeviceId, act: Act, storeOk: bool)
    requires TableOk(c.table) && c'.table == Acted(c.table, id, act, storeOk)
    requires act.Update? ==> act.state != Paired
    requires act.Queue? ==> Output(act.event) == []
    requires Outputs(c'.table.queue) == []
    ensures Outputs(c.table.queue) == [] && c'.table.store == c.table.store
  {
    if c'.table != c.table {
      var event := ActQueues(c.table, id, act, storeOk);
      OutputsSnoc(c.table.queue, event);
    }
  }

  lemma SilentQuiet(c: Core, e: Event)
    requires Quiet(e) && (e.Background? ==> e.queued.SendPacket? || e.queued.SendPayload?)
    requires Silent(CoreStep(c, e)) && c.connLog == []
    ensures Silent(c)
  {
    if e.AppSendFiles? {
      SendFilesFrame(c, e.id, e.packets);
    } else if e.CoreNext? && c.table.queue != [] {
      CoreNextOutput(c, e);
    } else if e.Background? {
      OutputsSnoc(c.table.queue, e.queued);
    } else if e.AppRequest? && e.id in c.table.devices {
      OutputsSnoc(c.table.queue, SendPacket(e.id, e.packet));
    }
  }

  /** As long as the pairing store can be written, no run leaves the service misled. */
  lemma {:induction false} WritableStoreNeverMisleads(store: Store, events: seq<Event>, id: DeviceId)
    requires forall i | 0 <= i < |events| && events[i].Incoming? :: events[i].storeOk
    ensures !Misled(store, events, id)
    decreases |events|
  {
    if events != [] {
      WritableStoreNeverMisleads(store, events[..|events| - 1], id);
    }
  }

  /** From a tidy store that can be written, the service always catches up. */
  lemma WritableTidyStoreIsShown(store: Store, events: seq<Event>, contacts: bool, mpris: bool, id: DeviceId)
    requires LegalRun(store, events) && Tidy(store)
    requires forall i | 0 <= i < |events| && events[i].Incoming? :: events[i].storeOk
    requires id in Drained(store, events, contacts, mpris).service.mirror
    ensures Drained(store, events, contacts, mpris).service.mirror[id].isPaired
            == Trusted(Run(store, events).core.table.store, id)
  {
    MirrorCatchesUp(store, events, contacts, mpris, id);
    WritableStoreNeverMisleads(store, events, id);
    if Stale(store, events, id) {
      DrainedShowsTold(store, events, contacts, mpris, id);
      var _ := RestoredFromBoot(store, events, id);
      RunsKeepTidy(store, events);
      assert false;
    }
  }

  // --- Runs after which the mirror is wrong ------------------------------------------------------

  const PHONE: DeviceId := "p"

  /** A paired phone reconnects and then unpairs while the store cannot be written. */
  lemma TheMirrorCanDisagree()
    ensures var store := map[PHONE := Record(PHONE, Paired, Some([1]))];
            var events := [NewConnection(PHONE, [1], 0, Readable, true), Incoming(PHONE, 0, Pair(false), false)];
            var mirror := Drained(store, events, false, false).service.mirror;
            && LegalRun(store, events)
            && PHONE in mirror && !mirror[PHONE].isPaired && Trusted(Run(store, events).core.table.store, PHONE)
  {
    var store := map[PHONE := Record(PHONE, Paired, Some([1]))];
    var connect, unpair := NewConnection(PHONE, [1], 0, Readable, true), Incoming(PHONE, 0, Pair(false), false);
    var events := [connect, unpair];
    assert ValidId(PHONE);
    assert [connect][..0] == [] && events[..1] == [connect];
    assert Run(store, []) == Initial(store) && LegalRun(store, []);
    assert Run(store, [connect]) == Step(Initial(store), connect) && LegalRun(store, [connect]);
    assert MisleadsAbout(Run(store, [connect]).core, unpair, PHONE);
    assert LegalRun(store, events) && Misled(store, events, PHONE);
    assert PHONE in Run(store, events).core.writers;
    DrainedShowsTold(store, events, false, false, PHONE);
    SyncedUnlessMisled(store, events, PHONE);
  }

  /** An installation from before pins: the service restores a device the store does not trust. */
  lemma RestoredWithoutPin()
    ensures var store := map[PHONE := Record(PHONE, Paired, None)];
            var events := [Restore({PHONE})];
            var mirror := Drained(store, events, false, false).service.mirror;
            && LegalRun(store, events) && !Misled(store, events, PHONE)
            && PHONE in mirror && mirror[PHONE].isPaired && !Trusted(Run(store, events).core.table.store, PHONE)
  {
    var store := map[PHONE := Record(PHONE, Paired, None)];
    var events := [Restore({PHONE})];
    assert events[..0] == [];
    assert Run(store, []) == Initial(store) && LegalRun(store, []);
    assert Run(store, events) == Step(Initial(store), events[0]) && LegalRun(store, events);
    assert store[PHONE].id == PHONE && PHONE in RestoredIds(store, {PHONE});
    DrainedShowsTold(store, events, false, false, PHONE);
  }
}
