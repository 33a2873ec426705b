/** The imperative core: the event loop's handlers over the connection maps (lib.rs).

    The object remembers everything it has handled. Being valid means that this was a legal run
    of the registry and that the fields are what the run leads to, so that every theorem about
    runs is one about the object. On top of the step it takes, each handler states what it
    promises its caller. Results of I/O are parameters: whether a record can be read or written,
    whether the connection task still waits for its acceptance, whether a writer is open. */
module KdeConnectCore {
  import opened Common
  import opened Devices
  import opened PairingTable
  import opened Registry
  import opened RegistryInvariants
  import opened RegistryTheorems
  import opened FreshConsent
  import opened Guarantees
  import opened Effects
  import opened DeviceManagement
  import opened Progress

  class KdeConnectCore {
    const deviceManager: DeviceManager
    const pairing: PairingManager
    var writerMap: map<DeviceId, ConnId>
    var connIdMap: map<DeviceId, ConnId>
    var connLog: seq<ConnEvent>
    var sent: seq<Sent>
    var dispatched: seq<Dispatch>
    /** The pairing store at the start, and all events since. */
    ghost const start: Store
    ghost var run: seq<Event>

    ghost function World(): World
      reads this
    {
      Run(start, run)
    }

    ghost predicate Valid()
      reads this, deviceManager
    {
      && pairing.deviceManager == deviceManager
      && LegalRun(start, run)
      && Run(start, run).core == View()
    }

    function View(): Core
      reads this, deviceManager
    {
      Core(deviceManager.View(), writerMap, connIdMap, connLog, sent, dispatched)
    }

    constructor (store: Store)
      ensures Valid() && start == store && run == [] && fresh(deviceManager)
    {
      var manager := new DeviceManager(store);
      deviceManager := manager;
      pairing := new PairingManager(manager);
      writerMap, connIdMap, connLog, sent, dispatched := map[], map[], [], [], [];
      start, run := store, [];
    }

    /** A restart of the process: only the pairing store survives, and what already went out. */
    constructor Restarted(previous: KdeConnectCore)
      requires previous.Valid()
      ensures Valid() && start == previous.start && run == previous.run + [Restart] && fresh(deviceManager)
    {
      var manager := new DeviceManager(previous.deviceManager.store);
      deviceManager := manager;
      pairing := new PairingManager(manager);
      writerMap, connIdMap, connLog := map[], map[], [];
      sent, dispatched := previous.sent, previous.dispatched;
      start, run := previous.start, previous.run + [Restart];
      RestartForgets(previous.start, previous.run);
    }

    ghost method Observe(e: Event)
      requires LegalRun(start, run) && Legal(Run(start, run), e)
      modifies this`run
      ensures run == old(run) + [e] && LegalRun(start, run)
      ensures Run(start, run) == Step(Run(start, old(run)), e)
    {
      RunSnoc(start, run, e);
      run := run + [e];
    }

    method BroadcastConnEvent(event: ConnEvent)
      modifies this`connLog
      ensures connLog == old(connLog) + [event]
    {
      connLog := connLog + [event];
    }

    /** Queue a packet on the device's writer, if it has one. */
    method QueuePacket(id: DeviceId, purpose: Purpose)
      modifies this`sent
      ensures View() == Send(old(View()), id, purpose)
    {
      if id in writerMap {
        sent := sent + [Sent(id, writerMap[id], purpose)];
      }
    }

    method RemoveConnection(id: DeviceId)
      modifies this`writerMap, this`connIdMap
      ensures View() == Forget(old(View()), id)
    {
      writerMap := writerMap - {id};
      connIdMap := connIdMap - {id};
    }

    // --- Transport events ------------------------------------------------------------------

    /** Whatever registers has presented its certificate and is in no pending state; a pinned
        device only registers with the certificate it is pinned to, and no pin changes. A welcome
        connection does register: it takes over, a paired device is greeted, and it is announced. */
    method NewConnection(id: DeviceId, certificate: Cert, conn: ConnId, access: Access, acceptorAlive: bool)
      requires Valid() && Legal(World(), Event.NewConnection(id, certificate, conn, access, acceptorAlive))
      modifies this, deviceManager
      ensures Valid() && run == old(run) + [Event.NewConnection(id, certificate, conn, access, acceptorAlive)]
      ensures deviceManager.store == old(deviceManager.store)
      ensures PersistedPin(old(deviceManager.store), id) !in {None, Some(certificate)} ==> View() == old(View())
      ensures id in writerMap && writerMap[id] == conn ==>
                && Current(View(), id, conn) && id in deviceManager.devices
                && deviceManager.devices[id].live == Some(certificate)
                && deviceManager.devices[id].pairState in {NotPaired, Paired}
      ensures SendsEntitled(old(sent), World())
      ensures if Welcome(old(View()), id, certificate, access)
              then TakesOver(old(View()), View(), Newcomer(old(View()), id, certificate), conn, acceptorAlive)
              else View() == old(View())
    {
      ghost var e := Event.NewConnection(id, certificate, conn, access, acceptorAlive);
      NewConnectionEffect(View(), e);
      RegistrationIsBound(start, run, e);
      StepSendsEntitled(start, run, e);
      Observe(e);
      RegisterConnection(id, certificate, conn, access, acceptorAlive);
    }

    /** Refuse, register, wait for the connection task, greet and announce. */
    method RegisterConnection(id: DeviceId, certificate: Cert, conn: ConnId, access: Access, acceptorAlive: bool)
      modifies this`writerMap, this`connIdMap, this`connLog, this`sent, deviceManager
      ensures View() == HandleNewConnection(old(View()), id, certificate, conn, access, acceptorAlive)
    {
      var loaded := LoadFrom(deviceManager.store, id, access);
      if loaded.None? {
        return;
      }
      var bound := BindCertificate(loaded.value, certificate);
      if bound.None? {
        return;
      }
      var device := bound.value;
      if id in connIdMap {
        var current := deviceManager.GetDevice(id);
        if current.Some? && current.value.live != Some(certificate) {
          return;
        }
      }
      deviceManager.AddOrUpdateDevice(id, device);
      connIdMap := connIdMap[id := conn];
      writerMap := writerMap[id := conn];
      if !acceptorAlive {
        RemoveConnection(id);
        return;
      }
      if device.pairState == Paired {
        QueuePacket(id, Greeting);
      }
      BroadcastConnEvent(Connected(device));
    }

    /** A packet of a superseded connection does nothing. A pin it creates was agreed upon
        afresh, a pin it removes was the peer's to give up, and no other pin changes. The peer's
        answer to the user's own request does create the pin; every other packet over the current
        connection is taken as its kind demands. */
    method IncomingPacket(id: DeviceId, conn: ConnId, body: Body, storeOk: bool)
      requires Valid() && Legal(World(), Incoming(id, conn, body, storeOk))
      modifies this, deviceManager
      ensures Valid() && run == old(run) + [Incoming(id, conn, body, storeOk)]
      ensures !Current(old(View()), id, conn) ==> View() == old(View())
      ensures SamePinsBut(old(deviceManager.store), deviceManager.store, id)
      ensures PersistedPin(deviceManager.store, id) != PersistedPin(old(deviceManager.store), id) ==>
                if PersistedPin(deviceManager.store, id).Some? then FreshlyAgreed(start, run, id)
                else body == Body.Pair(false)
      ensures Current(old(View()), id, conn) && body == Body.Pair(true) && storeOk
              && StateIs(old(View()), id, Requesting) ==>
                && deviceManager.devices[id].pairState == Paired
                && PersistedPin(deviceManager.store, id) == old(deviceManager.devices)[id].live
                && deviceManager.devices[id].pinned == old(deviceManager.devices)[id].live
                && PairedOver(World(), id, conn)
      ensures Current(old(View()), id, conn) ==> Taken(old(View()), View(), id, conn, body, storeOk)
      ensures sent == old(sent) && dispatched == old(dispatched)
    {
      ghost var e := Incoming(id, conn, body, storeOk);
      IncomingPins(e);
      TableAgrees(start, run);
      IncomingEffect(View(), e);
      if Current(View(), id, conn) && body == Body.Pair(true) && storeOk && StateIs(View(), id, Requesting) {
        OwnRequestCompletes(start, run, id, conn);
      }
      Observe(e);
      ReceivePacket(id, conn, body, storeOk);
    }

    /** Drop what a superseded connection sends, handle pairing, and queue the rest. */
    method ReceivePacket(id: DeviceId, conn: ConnId, body: Body, storeOk: bool)
      requires pairing.deviceManager == deviceManager
      modifies this`connLog, deviceManager
      ensures View() == HandleIncoming(old(View()), id, conn, body, storeOk)
    {
      if id !in connIdMap || connIdMap[id] != conn {
        return;
      }
      match body
      case Pair(flag) =>
        var device := deviceManager.GetDevice(id);
        if device.Some? {
          if !flag {
            if device.value.pairState == Paired {
              deviceManager.UpdatePairState(id, NotPaired, storeOk);
              BroadcastConnEvent(PairStateChanged(id, NotPaired));
            }
          } else {
            var isNewRequest := pairing.HandlePairRequest(id, storeOk);
            if isNewRequest {
              BroadcastConnEvent(PairingRequested(id));
            }
          }
        }
      case BadPair =>
      case Plugin(packet) =>
        deviceManager.queue := deviceManager.queue + [PacketReceived(id, conn, packet)];
      case Unparsable =>
        deviceManager.queue := deviceManager.queue + [CoreError];
    }

    lemma IncomingPins(e: Event)
      requires Valid() && e.Incoming? && Legal(World(), e)
      ensures var was, now := deviceManager.store, CoreStep(View(), e).table.store;
              && SamePinsBut(was, now, e.id)
              && (PersistedPin(now, e.id) != PersistedPin(was, e.id) ==>
                    if PersistedPin(now, e.id).Some? then FreshlyAgreed(start, run + [e], e.id)
                    else e.body == Body.Pair(false))
    {
      EveryRun(start, run);
      PairingTouchesOwnPin(View(), e);
      if PersistedPin(CoreStep(View(), e).table.store, e.id) != PersistedPin(deviceManager.store, e.id) {
        OwnPinChanges(start, run, e);
      }
    }

    /** The end of a connection takes its own writer with it and no other. */
    method ConnectionClosed(id: DeviceId, conn: ConnId)
      requires Valid() && Legal(World(), Closed(id, conn))
      modifies this
      ensures Valid() && run == old(run) + [Closed(id, conn)]
      ensures KeepsOthers(old(View()), View(), id)
      ensures id in writerMap <==> id in old(writerMap) && old(writerMap)[id] != conn
      ensures id in writerMap ==> View() == old(View())
      ensures id !in writerMap ==> Drops(old(View()), View(), id, [Disconnected(id)])
    {
      ClosingTakesItsOwn(start, run, Closed(id, conn));
      EveryRun(start, run);
      DroppingEffect(View(), Closed(id, conn));
      Observe(Closed(id, conn));
      var isCurrent := true;
      if id in connIdMap {
        isCurrent := connIdMap[id] == conn;
      }
      if !isCurrent {
        return;
      }
      RemoveConnection(id);
      BroadcastConnEvent(Disconnected(id));
    }

    // --- Application events ----------------------------------------------------------------

    method IsPairedDevice(id: DeviceId) returns (paired: bool)
      ensures paired == IsPaired(deviceManager.View(), id)
    {
      var device := deviceManager.GetDevice(id);
      paired := device.Some? && PayloadCertificate(device.value).Some?;
    }

    /** Asking alone gives nobody a pin; a connected, unpaired device is asked and remembered as
        such, a paired one is left alone. */
    method Pair(id: DeviceId, storeOk: bool)
      requires Valid()
      modifies this, deviceManager
      ensures Valid() && run == old(run) + [AppPair(id, storeOk)]
      ensures SamePins(old(deviceManager.store), deviceManager.store)
      ensures IsPaired(old(deviceManager.View()), id) ==> View() == old(View())
      ensures id in old(writerMap) && !IsPaired(old(deviceManager.View()), id) && storeOk ==>
                && id in deviceManager.devices && deviceManager.devices[id].pairState == Requesting
                && sent == old(sent) + [Sent(id, old(writerMap)[id], PairPacket(true))]
      ensures var asks := id in old(writerMap) && !StateIs(old(View()), id, Paired);
              && sent == old(sent) + (if asks then [Sent(id, old(writerMap)[id], PairPacket(true))] else [])
              && (if asks && storeOk
                  then && id in old(deviceManager.devices)
                       && Becomes(old(View()), View(), id, Requesting, None, DevicePairStateChanged(id, Requesting))
                  else deviceManager.View() == old(deviceManager.View()))
      ensures connLog == old(connLog) && SameConnections(old(View()), View())
    {
      EveryRun(start, run);
      PairAsks(World(), AppPair(id, storeOk));
      WritersAreKnown(World(), id);
      PairEffect(View(), AppPair(id, storeOk));
      Observe(AppPair(id, storeOk));
      var paired := IsPairedDevice(id);
      if id !in writerMap || paired {
        return;
      }
      QueuePacket(id, PairPacket(true));
      deviceManager.UpdatePairState(id, Requesting, storeOk);
    }

    /** A pin is given only with fresh consent of both sides, to this device only, and the peer
        is told only once the pin is stored. For a requested pairing both do happen. */
    method AcceptPairing(id: DeviceId, storeOk: bool)
      requires Valid()
      modifies this, deviceManager
      ensures Valid() && run == old(run) + [AppAccept(id, storeOk)]
      ensures SamePinsBut(old(deviceManager.store), deviceManager.store, id)
      ensures PersistedPin(deviceManager.store, id) != PersistedPin(old(deviceManager.store), id) ==>
                PersistedPin(deviceManager.store, id).Some? && FreshlyAgreed(start, run, id)
      ensures sent != old(sent) ==>
                && IsPaired(deviceManager.View(), id) && PersistedPin(deviceManager.store, id).Some?
                && id in writerMap && sent == old(sent) + [Sent(id, writerMap[id], PairPacket(true))]
      ensures if id in old(writerMap) && StateIs(old(View()), id, Requested) && storeOk then
                && Becomes(old(View()), View(), id, Paired, old(deviceManager.devices)[id].live,
                           DevicePaired(Approved(old(deviceManager.devices)[id])))
                && sent == old(sent) + [Sent(id, writerMap[id], PairPacket(true))]
                && PairedOver(World(), id, writerMap[id])
                && connLog == old(connLog) && SameConnections(old(View()), View())
              else View() == old(View())
    {
      AcceptPins(start, run, AppAccept(id, storeOk));
      AcceptingWorks(start, run, id, storeOk);
      Observe(AppAccept(id, storeOk));
      Approve(id, storeOk);
    }

    /** Pin the certificate of a requested pairing, then answer the peer. */
    method Approve(id: DeviceId, storeOk: bool)
      modifies this`sent, deviceManager
      ensures View() == HandleAppAccept(old(View()), id, storeOk)
    {
      if id !in writerMap {
        return;
      }
      var device := deviceManager.GetDevice(id);
      if device.None? || device.value.pairState != Requested {
        return;
      }
      var ok := deviceManager.SetPaired(id, true, storeOk);
      if !ok {
        return;
      }
      QueuePacket(id, PairPacket(true));
    }

    /** The peer, if connected, is told pair:false. Afterwards the device is neither paired nor
        pinned, unless it is unknown or the store cannot be written; then nothing about pairing
        changes. */
    method RejectPairing(id: DeviceId, storeOk: bool)
      requires Valid()
      modifies this, deviceManager
      ensures Valid() && run == old(run) + [AppReject(id, storeOk)]
      ensures SamePinsBut(old(deviceManager.store), deviceManager.store, id)
      ensures if id in old(deviceManager.devices) && storeOk
              then PersistedPin(deviceManager.store, id) == None && !IsPaired(deviceManager.View(), id)
              else deviceManager.View() == old(deviceManager.View())
      ensures sent == old(sent) + (if id in writerMap then [Sent(id, writerMap[id], PairPacket(false))] else [])
      ensures id in old(deviceManager.devices) && storeOk ==>
                Becomes(old(View()), View(), id, NotPaired, None, DevicePairStateChanged(id, NotPaired))
      ensures connLog == old(connLog) && SameConnections(old(View()), View())
    {
      TableAgrees(start, run);
      RejectUnpins(View(), AppReject(id, storeOk));
      RejectEffect(View(), AppReject(id, storeOk));
      Observe(AppReject(id, storeOk));
      QueuePacket(id, PairPacket(false));
      deviceManager.UpdatePairState(id, NotPaired, storeOk);
    }

    /** The peer, if connected, is told pair:false. Afterwards no certificate is trusted for the
        device, in memory or in the store, and the listeners are told; if the store cannot be
        written nothing else changes and they are not. */
    method Unpair(id: DeviceId, storeOk: bool)
      requires Valid()
      modifies this, deviceManager
      ensures Valid() && run == old(run) + [AppUnpair(id, storeOk)]
      ensures SamePinsBut(old(deviceManager.store), deviceManager.store, id)
      ensures if ValidId(id) && storeOk
              then && PersistedPin(deviceManager.store, id) == None && !IsPaired(deviceManager.View(), id)
                   && connLog == old(connLog) + [PairStateChanged(id, NotPaired)]
              else deviceManager.View() == old(deviceManager.View()) && connLog == old(connLog)
      ensures sent == old(sent) + (if id in writerMap then [Sent(id, writerMap[id], PairPacket(false))] else [])
      ensures id in old(deviceManager.devices) && ValidId(id) && storeOk ==>
                Becomes(old(View()), View(), id, NotPaired, None, DevicePairCancelled(id))
      ensures SameConnections(old(View()), View())
    {
      TableAgrees(start, run);
      UnpairUnpins(View(), AppUnpair(id, storeOk));
      UnpairEffect(View(), AppUnpair(id, storeOk));
      Observe(AppUnpair(id, storeOk));
      QueuePacket(id, PairPacket(false));
      var ok := pairing.CancelPairing(id, storeOk);
      if !ok {
        return;
      }
      BroadcastConnEvent(PairStateChanged(id, NotPaired));
    }

    /** Whoever was announced as connected is announced as gone, and only then. */
    method Disconnect(id: DeviceId)
      requires Valid()
      modifies this
      ensures Valid() && run == old(run) + [AppDisconnect(id)]
      ensures KeepsOthers(old(View()), View(), id) && id !in writerMap && id !in connIdMap
      ensures if id in old(writerMap) then Announced(old(connLog), id) && !Announced(connLog, id)
              else View() == old(View())
      ensures id in old(writerMap) ==> Drops(old(View()), View(), id, [Disconnected(id)])
    {
      DisconnectAnnounces(start, run, AppDisconnect(id));
      EveryRun(start, run);
      DroppingEffect(View(), AppDisconnect(id));
      Observe(AppDisconnect(id));
      if id in writerMap {
        RemoveConnection(id);
        BroadcastConnEvent(Disconnected(id));
      }
    }

    /** Toggling a plugin drops the connection without an announcement, which the connection's
        own Disconnected still owes. */
    method SetPluginEnabled(id: DeviceId)
      requires Valid()
      modifies this
      ensures Valid() && run == old(run) + [AppSetPlugin(id)]
      ensures KeepsOthers(old(View()), View(), id) && id !in writerMap && id !in connIdMap
      ensures connLog == old(connLog)
      ensures id in old(writerMap) ==> Owed(old(World()).history, id)
      ensures sent == old(sent) && dispatched == old(dispatched)
    {
      EveryRun(start, run);
      PluginDropsQuietly(World(), AppSetPlugin(id));
      Observe(AppSetPlugin(id));
      if id in writerMap {
        RemoveConnection(id);
      }
    }

    /** The check and the use of the event loop's senders. */
    method SendIfPaired(id: DeviceId, packet: Packet)
      modifies this`sent
      ensures View() == SendData(old(View()), id, packet)
    {
      var paired := IsPairedDevice(id);
      if paired {
        QueuePacket(id, Data(packet));
      }
    }

    /** The packet goes to the current connection of a device paired with its certificate, or
        nowhere. */
    method SendPacketTo(id: DeviceId, packet: Packet)
      requires Valid()
      modifies this
      ensures Valid() && run == old(run) + [AppSend(id, packet)]
      ensures SendsEntitled(old(sent), World())
      ensures Delivers(old(View()), sent, id, [packet])
      ensures View() == old(View()).(sent := sent)
    {
      StepSendsEntitled(start, run, AppSend(id, packet));
      TableAgrees(start, run);
      DeliveryDelivers(View(), id, [packet]);
      Observe(AppSend(id, packet));
      SendIfPaired(id, packet);
    }

    /** The answer tells whether the packet was queued, which it was only for a device paired
        with the certificate of its current connection. */
    method SendPacketWithReply(id: DeviceId, packet: Packet, enabled: bool, writerOpen: bool) returns (accepted: bool)
      requires Valid()
      modifies this
      ensures Valid() && run == old(run) + [AppSendWithReply(id, packet, enabled, writerOpen)]
      ensures SendsEntitled(old(sent), World())
      ensures accepted <==> StateIs(old(View()), id, Paired) && enabled && id in old(writerMap) && writerOpen
      ensures sent == old(sent) + (if accepted then [Sent(id, writerMap[id], Data(packet))] else [])
      ensures View() == old(View()).(sent := sent)
    {
      ghost var e := AppSendWithReply(id, packet, enabled, writerOpen);
      StepSendsEntitled(start, run, e);
      TableAgrees(start, run);
      PairedMeansTrusted(View(), id);
      Observe(e);
      var paired := IsPairedDevice(id);
      if !paired || !enabled || id !in writerMap || !writerOpen {
        return false;
      }
      QueuePacket(id, Data(packet));
      accepted := true;
    }

    /** One share request a file, in order, all on the writer of the paired device or none at
        all; `packets` are the files that could be opened. */
    method SendFilesTo(id: DeviceId, packets: seq<Packet>)
      requires Valid()
      modifies this
      ensures Valid() && run == old(run) + [AppSendFiles(id, packets)]
      ensures SendsEntitled(old(sent), World())
      ensures Delivers(old(View()), sent, id, packets)
      ensures View() == old(View()).(sent := sent)
    {
      StepSendsEntitled(start, run, AppSendFiles(id, packets));
      TableAgrees(start, run);
      DeliveryDelivers(View(), id, packets);
      Observe(AppSendFiles(id, packets));
      ghost var goal := SendFiles(View(), id, packets);
      for i := 0 to |packets|
        invariant goal == SendFiles(View(), id, packets[i..])
        invariant run == old(run) + [AppSendFiles(id, packets)]
      {
        assert packets[i..][1..] == packets[i + 1..];
        SendIfPaired(id, packets[i]);
      }
    }

    /** Nothing leaves yet: whether it may is decided when the queued event is handled. */
    method Request(id: DeviceId, packet: Packet)
      requires Valid()
      modifies this, deviceManager
      ensures Valid() && run == old(run) + [AppRequest(id, packet)]
      ensures sent == old(sent) && dispatched == old(dispatched)
      ensures SameRegistry(old(View()), View()) && connLog == old(connLog)
      ensures deviceManager.queue
              == old(deviceManager.queue) + (if id in deviceManager.devices then [SendPacket(id, packet)] else [])
    {
      Observe(AppRequest(id, packet));
      var device := deviceManager.GetDevice(id);
      if device.Some? {
        deviceManager.queue := deviceManager.queue + [SendPacket(id, packet)];
      }
    }

    /** A background task asks for a packet to be sent. */
    method Enqueue(queued: CoreEvent)
      requires Valid() && (queued.SendPacket? || queued.SendPayload?)
      modifies this, deviceManager
      ensures Valid() && run == old(run) + [Background(queued)]
      ensures sent == old(sent) && dispatched == old(dispatched)
      ensures SameRegistry(old(View()), View()) && connLog == old(connLog)
      ensures deviceManager.queue == old(deviceManager.queue) + [queued]
    {
      Observe(Background(queued));
      deviceManager.queue := deviceManager.queue + [queued];
    }

    // --- Core events -----------------------------------------------------------------------

    /** Whatever was interleaved since it was queued, a packet reaches the plugins only over the
        current connection of a device paired with its certificate, and data leaves only for
        such a connection; pairing and connections stay as they are. A packet of such a connection
        does reach the plugins, and a queued packet for such a device does leave. */
    method CoreEvents(contacts: bool, mpris: bool)
      requires Valid()
      modifies this, deviceManager
      ensures Valid() && run == old(run) + [CoreNext(contacts, mpris)]
      ensures DispatchesAuthentic(old(World()), dispatched)
      ensures SendsEntitled(old(sent), World())
      ensures SameRegistry(old(View()), View())
      ensures old(deviceManager.queue) == [] ==> View() == old(View())
      ensures old(deviceManager.queue) != [] ==>
                && deviceManager.queue == old(deviceManager.queue)[1..]
                && dispatched == old(dispatched) + Handed(old(View()), old(deviceManager.queue)[0])
                && Handled(Popped(old(View())), View(), old(deviceManager.queue)[0], contacts, mpris)
    {
      CoreNextKeepsRegistry(start, run, CoreNext(contacts, mpris));
      TableAgrees(start, run);
      CoreNextEffect(View(), CoreNext(contacts, mpris));
      Observe(CoreNext(contacts, mpris));
      if deviceManager.queue == [] {
        return;
      }
      var event := deviceManager.queue[0];
      deviceManager.queue := deviceManager.queue[1..];
      HandleEvent(event, contacts, mpris);
    }

    method HandleEvent(event: CoreEvent, contacts: bool, mpris: bool)
      modifies this`connLog, this`sent, this`dispatched
      ensures View() == HandleCoreEvent(old(View()), event, contacts, mpris)
    {
      match event
      case DevicePaired(device) =>
        if contacts {
          QueuePacket(device.id, Bootstrap);
        }
        if mpris {
          QueuePacket(device.id, Bootstrap);
        }
        BroadcastConnEvent(PairedNotice(device));
      case DevicePairCancelled(id) =>
        BroadcastConnEvent(PairStateChanged(id, NotPaired));
      case DevicePairStateChanged(id, state) =>
        BroadcastConnEvent(PairStateChanged(id, state));
      case PacketReceived(id, conn, packet) =>
        if id !in connIdMap || connIdMap[id] != conn {
          return;
        }
        var device := deviceManager.GetDevice(id);
        if device.Some? && device.value.pairState == Paired {
          dispatched := dispatched + [Dispatch(device.value, conn, packet)];
        }
      case SendPacket(id, packet) =>
        SendIfPaired(id, packet);
      case SendPayload(id, packet) =>
        if id in writerMap {
          SendIfPaired(id, packet);
        }
      case CoreError =>
    }
  }
}
