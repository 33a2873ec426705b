/** The service's device map, updating in place what the connection-event channel tells it
    (dbus_interface.rs). */
module ServiceMirror {
  import opened Common
  import opened Devices
  import opened Registry
  import opened MirrorAgreement
  import opened KdeConnectCore

  function Listed(files: seq<DeviceId>): set<DeviceId> {
    set file | file in files
  }

  class DeviceMirror {
    var devices: Mirror
    /** The devices restored at the start, and the events handled since. */
    ghost const restored: Mirror
    ghost var handled: seq<ConnEvent>

    ghost predicate Valid()
      reads this
    {
      && AllPaired(restored) && (forall id | id in restored :: restored[id] == MirrorEntry(true, false))
      && devices == MirrorAll(restored, handled)
    }

    /** Known paired devices are shown at once, before they connect: those of the records that
        can be read, in whatever order the directory lists their files. */
    constructor (store: Store, files: seq<DeviceId>)
      ensures Valid() && handled == []
      ensures restored == Seeded(store, Listed(files))
      ensures forall id ::
                id in devices <==> exists file | file in files && file in store ::
                                     store[file].pairState == Paired && store[file].id == id
      ensures forall id | id in devices :: devices[id] == MirrorEntry(true, false)
    {
      var known: Mirror := map[];
      for i := 0 to |files|
        invariant known == Seeded(store, Listed(files[..i]))
      {
        assert Listed(files[..i + 1]) == Listed(files[..i]) + {files[i]};
        SeededFurther(store, Listed(files[..i]), files[i]);
        if files[i] in store {
          var record := store[files[i]];
          if record.pairState == Paired {
            known := known[record.id := MirrorEntry(true, false)];
          }
        }
      }
      assert files[..|files|] == files;
      devices := known;
      restored, handled := known, [];
    }

    /** A device it knows is shown as the last word about it says, or else as it was restored. */
    method HandleEvent(event: ConnEvent)
      requires Valid()
      modifies this
      ensures Valid() && handled == old(handled) + [event]
      ensures Reflects(devices, restored, handled)
    {
      HandledShows(restored, handled, event);
      handled := handled + [event];
      UpdateDevices(event);
    }

    /** What the event does to the map. */
    method UpdateDevices(event: ConnEvent)
      modifies this`devices
      ensures devices == MirrorEvent(old(devices), event)
    {
      match event
      case Connected(device) =>
        devices := devices[device.id := MirrorEntry(device.pairState == Paired, true)];
      case PairedNotice(device) =>
        devices := devices[device.id := MirrorEntry(true, true)];
      case Disconnected(id) =>
        if id in devices {
          devices := devices[id := devices[id].(isReachable := false)];
        }
      case PairStateChanged(id, state) =>
        if id in devices {
          devices := devices[id := devices[id].(isPaired := state == Paired)];
        }
      case PairingRequested(_) =>
    }
  }

  /** The event brings the device itself, connected or newly paired. */
  predicate Brings(event: ConnEvent, id: DeviceId) {
    (event.Connected? || event.PairedNotice?) && event.device.id == id
  }

  predicate Introduced(log: seq<ConnEvent>, id: DeviceId) {
    exists i | 0 <= i < |log| :: Brings(log[i], id)
  }

  /** The last event that brought the device was not followed by its Disconnected. */
  predicate Reachable(log: seq<ConnEvent>, id: DeviceId) {
    exists i | 0 <= i < |log| :: Brings(log[i], id) && forall k | i < k < |log| :: log[k] != Disconnected(id)
  }

  /** The map holds the devices restored or brought, each shown as paired by the last word about
      it, or else as restored, and as reachable unless gone since it was last brought. */
  ghost predicate Reflects(devices: Mirror, restored: Mirror, log: seq<ConnEvent>) {
    && (forall id :: Shows(devices, restored, log, id))
    && (forall id :: id in devices <==> id in restored || Introduced(log, id))
    && (forall id | id in devices :: devices[id].isReachable == Reachable(log, id))
  }

  lemma IntroducedSnoc(log: seq<ConnEvent>, event: ConnEvent, id: DeviceId)
    ensures Introduced(log + [event], id) <==> Introduced(log, id) || Brings(event, id)
  {
    var all := log + [event];
    if Introduced(log, id) {
      var i :| 0 <= i < |log| && Brings(log[i], id);
      assert Brings(all[i], id);
    }
    assert all[|log|] == event;
  }

  lemma ReachableSnoc(log: seq<ConnEvent>, event: ConnEvent, id: DeviceId)
    ensures Reachable(log + [event], id) <==> Brings(event, id) || (Reachable(log, id) && event != Disconnected(id))
  {
    var all := log + [event];
    assert all[|log|] == event;
    if Reachable(log, id) && event != Disconnected(id) {
      var i :| 0 <= i < |log| && Brings(log[i], id) && forall k | i < k < |log| :: log[k] != Disconnected(id);
      assert Brings(all[i], id) && forall k | i < k < |all| :: all[k] != Disconnected(id);
    }
    if Reachable(all, id) && !Brings(event, id) {
      var i :| 0 <= i < |all| && Brings(all[i], id) && forall k | i < k < |all| :: all[k] != Disconnected(id);
      assert i < |log| && Brings(log[i], id);
      assert forall k | i < k < |log| :: log[k] == all[k];
    }
  }

  lemma {:induction false} MirrorKnows(restored: Mirror, log: seq<ConnEvent>, id: DeviceId)
    requires forall d | d in restored :: restored[d] == MirrorEntry(true, false)
    ensures id in MirrorAll(restored, log) <==> id in restored || Introduced(log, id)
    ensures id in MirrorAll(restored, log) ==> MirrorAll(restored, log)[id].isReachable == Reachable(log, id)
    decreases |log|
  {
    if log != [] {
      var before, event := log[..|log| - 1], log[|log| - 1];
      assert before + [event] == log;
      MirrorKnows(restored, before, id);
      IntroducedSnoc(before, event, id);
      ReachableSnoc(before, event, id);
    }
  }

  lemma HandledShows(restored: Mirror, handled: seq<ConnEvent>, event: ConnEvent)
    requires AllPaired(restored) && forall d | d in restored :: restored[d] == MirrorEntry(true, false)
    ensures MirrorAll(restored, handled + [event]) == MirrorEvent(MirrorAll(restored, handled), event)
    ensures Reflects(MirrorAll(restored, handled + [event]), restored, handled + [event])
  {
    var all := handled + [event];
    assert all[..|all| - 1] == handled;
    forall id
      ensures id in MirrorAll(restored, all) <==> id in restored || Introduced(all, id)
      ensures id in MirrorAll(restored, all) ==> MirrorAll(restored, all)[id].isReachable == Reachable(all, id)
    {
      MirrorKnows(restored, all, id);
    }
    forall id
      ensures Shows(MirrorAll(restored, all), restored, all, id)
    {
      MirrorShowsVerdict(restored, all, id);
    }
  }

  lemma SeededFurther(store: Store, files: set<DeviceId>, file: DeviceId)
    ensures Seeded(store, files + {file}) ==
            if file in store && store[file].pairState == Paired
            then Seeded(store, files)[store[file].id := MirrorEntry(true, false)]
            else Seeded(store, files)
  {
    var ids, more := RestoredIds(store, files), RestoredIds(store, files + {file});
    assert more == if file in store && store[file].pairState == Paired then ids + {store[file].id} else ids by {
      forall f | f in files && f in store && store[f].pairState == Paired
        ensures store[f].id in more
      {
        assert f in files + {file};
      }
      if file in store && store[file].pairState == Paired {
        assert file in files + {file};
      }
    }
  }

  /** A service that has handled everything a core with an empty queue has sent shows a device it
      knows as paired exactly when the store trusts a pin for it, if and only if the core's run
      did not leave it misled, nor stale about a device it restored. */
  lemma MirrorShowsStore(core: KdeConnectCore, mirror: DeviceMirror, id: DeviceId)
    requires core.Valid() && mirror.Valid()
    requires core.deviceManager.queue == [] && mirror.handled == core.connLog
    requires id in mirror.devices
    ensures mirror.devices[id].isPaired == Trusted(core.deviceManager.store, id)
            <==> !Misled(core.start, core.run, id) && !Stale(core.start, core.run, id)
  {
    SyncedUnlessMisled(core.start, core.run, id);
    MirrorShowsVerdict(mirror.restored, mirror.handled, id);
    if Told(Run(core.start, core.run).core, id).None? {
      UntoldKeepsTrust(core.start, core.run, id);
    }
  }
}
