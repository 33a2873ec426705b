/** The device manager and the pairing manager, updating the table in place (device.rs,
    pairing.rs). Whether a record can be written is a parameter. */
module DeviceManagement {
  import opened Common
  import opened Devices
  import opened PairingTable

  class DeviceManager {
    var devices: map<DeviceId, Device>
    var store: Store
    var queue: seq<CoreEvent>

    function View(): Table
      reads this
    {
      Table(devices, store, queue)
    }

    constructor (initial: Store)
      ensures View() == Table(map[], initial, [])
    {
      devices, store, queue := map[], initial, [];
    }

    method AddOrUpdateDevice(id: DeviceId, device: Device)
      modifies this
      ensures View() == AddOrUpdate(old(View()), id, device)
      ensures old(TableOk(View())) && DeviceOk(store, id, device) ==> TableOk(View())
    {
      devices := devices[id := device];
      assert old(TableOk(View())) ==> forall d | d in devices && d != id :: DeviceOk(store, d, devices[d]);
    }

    method GetDevice(id: DeviceId) returns (found: Option<Device>)
      ensures found == if id in devices then Some(devices[id]) else None
    {
      if id in devices {
        found := Some(devices[id]);
      } else {
        found := None;
      }
    }

    /** The record reaches the store atomically or not at all. */
    method StoreIdentity(device: Device, state: PairState, storeOk: bool) returns (ok: bool)
      modifies this`store
      ensures ok == (storeOk && ValidId(device.id))
      ensures store == if ok then StoreIn(old(store), device, state) else old(store)
      ensures ok ==> device.id in store && store[device.id]
                     == Record(device.id, state, if state == Paired then device.pinned else None)
    {
      ok := storeOk && ValidId(device.id);
      if ok {
        var pinned := device.pinned;
        if state != Paired {
          pinned := None;
        }
        store := store[device.id := Record(device.id, state, pinned)];
      }
    }

    method SetPaired(id: DeviceId, flag: bool, storeOk: bool) returns (ok: bool)
      modifies this
      ensures ok == SetPairedOk(old(View()), id, flag, storeOk)
      ensures View() == Devices.SetPaired(old(View()), id, flag, storeOk)
      ensures old(TableOk(View())) ==> TableOk(View())
      ensures !ok ==> View() == old(View())
      ensures ok && flag ==>
                && id in old(devices) && old(devices)[id].pairState in {Requesting, Requested}
                && devices
                   == old(devices)[id := old(devices)[id].(pairState := Paired, pinned := old(devices)[id].live)]
                && queue == old(queue) + [DevicePaired(devices[id])]
                && store == old(store)[devices[id].id := Record(devices[id].id, Paired, devices[id].live)]
      ensures (&& flag && storeOk && ValidId(id) && id in old(devices) && ValidId(old(devices)[id].id)
               && old(devices)[id].pairState in {Requesting, Requested} && HasPin(old(devices)[id].live)) ==> ok
      ensures ok && !flag ==>
                if id in old(devices) then
                  && devices == old(devices)[id := old(devices)[id].(pairState := NotPaired, pinned := None)]
                  && queue == old(queue) + [DevicePairCancelled(devices[id].id)]
                  && store == old(store)[devices[id].id := Record(devices[id].id, NotPaired, None)]
                else
                  && devices == old(devices) && store == old(store) - {id}
                  && queue == old(queue) + [DevicePairCancelled(id)]
      ensures !flag && storeOk && ValidId(id) && (id in old(devices) ==> ValidId(old(devices)[id].id)) ==> ok
    {
      ghost var was := View();
      if TableOk(was) {
        SetPairedKeepsTable(was, id, flag, storeOk);
      }
      if !ValidId(id) {
        return false;
      }
      if id in devices {
        var device := devices[id];
        if flag {
          if device.pairState != Requested && device.pairState != Requesting {
            return false;
          }
          if device.live.None? || device.live.value == [] {
            return false;
          }
          var paired := device.(pinned := device.live);
          var stored := StoreIdentity(paired, Paired, storeOk);
          if !stored {
            return false;
          }
          device := paired.(pairState := Paired);
          devices := devices[id := device];
          queue := queue + [DevicePaired(device)];
        } else {
          var stored := StoreIdentity(device, NotPaired, storeOk);
          if !stored {
            return false;
          }
          devices := devices[id := device.(pairState := NotPaired, pinned := None)];
          queue := queue + [DevicePairCancelled(device.id)];
        }
      } else if flag {
        return false;
      } else {
        if !storeOk {
          return false;
        }
        store := store - {id};
        queue := queue + [DevicePairCancelled(id)];
      }
      ok := true;
    }

    method UpdatePairState(id: DeviceId, state: PairState, storeOk: bool)
      modifies this
      ensures View() == Devices.UpdatePairState(old(View()), id, state, storeOk)
      ensures old(TableOk(View())) && state != Paired ==> TableOk(View())
      ensures if id in old(devices) && storeOk && ValidId(old(devices)[id].id) then
                var device := old(devices)[id];
                var pinned := if state == Paired then device.pinned else None;
                && devices == old(devices)[id := device.(pairState := state, pinned := pinned)]
                && store == old(store)[device.id := Record(device.id, state, pinned)]
                && queue == old(queue) + [DevicePairStateChanged(id, state)]
              else View() == old(View())
    {
      ghost var was := View();
      if TableOk(was) && state != Paired {
        UpdateKeepsTable(was, id, state, storeOk);
      }
      if id in devices {
        var device := devices[id];
        var stored := StoreIdentity(device, state, storeOk);
        if !stored {
          return;
        }
        device := device.(pairState := state);
        if state != Paired {
          device := device.(pinned := None);
        }
        devices := devices[id := device];
        queue := queue + [DevicePairStateChanged(id, state)];
      }
    }
  }

  class PairingManager {
    const deviceManager: DeviceManager

    constructor (deviceManager: DeviceManager)
      ensures this.deviceManager == deviceManager
    {
      this.deviceManager := deviceManager;
    }

    /** An incoming pair:true; the result tells the caller to ask the user. */
    method HandlePairRequest(id: DeviceId, storeOk: bool) returns (isNewRequest: bool)
      modifies deviceManager
      ensures deviceManager.View() == PairRequest(old(deviceManager.View()), id, storeOk)
      ensures isNewRequest == AsksUser(old(deviceManager.View()), id)
      ensures old(TableOk(deviceManager.View())) ==> TableOk(deviceManager.View())
      ensures old(TableOk(deviceManager.View())) && storeOk && id in old(deviceManager.devices)
              && old(deviceManager.devices)[id].pairState == Requesting ==>
                && !isNewRequest && deviceManager.devices[id].pairState == Paired
                && deviceManager.devices[id].pinned == old(deviceManager.devices)[id].live
                && PersistedPin(deviceManager.store, id) == old(deviceManager.devices)[id].live
                && deviceManager.queue == old(deviceManager.queue) + [DevicePaired(deviceManager.devices[id])]
      ensures id in old(deviceManager.devices) && old(deviceManager.devices)[id].pairState == Paired ==>
                !isNewRequest && deviceManager.View() == old(deviceManager.View())
      ensures old(TableOk(deviceManager.View())) && id in old(deviceManager.devices)
              && old(deviceManager.devices)[id].pairState in {NotPaired, Requested} ==>
                && isNewRequest
                && (storeOk ==>
                      && deviceManager.devices[id].pairState == Requested
                      && deviceManager.queue == old(deviceManager.queue) + [DevicePairStateChanged(id, Requested)])
                && (!storeOk ==> deviceManager.View() == old(deviceManager.View()))
      ensures id !in old(deviceManager.devices) ==> !isNewRequest && deviceManager.View() == old(deviceManager.View())
    {
      ghost var was := deviceManager.View();
      if id in deviceManager.devices && TableOk(was) {
        assert DeviceOk(deviceManager.store, id, deviceManager.devices[id]);
        SetPairedKeepsTable(was, id, true, storeOk);
      }
      if TableOk(was) {
        PairRequestKeepsTable(was, id, storeOk);
      }
      var device := deviceManager.GetDevice(id);
      if device.None? {
        return false;
      }
      var currentState := device.value.pairState;
      if currentState == Requesting {
        var _ := deviceManager.SetPaired(id, true, storeOk);
        return false;
      }
      if currentState == Paired {
        return false;
      }
      deviceManager.UpdatePairState(id, Requested, storeOk);
      isNewRequest := true;
    }

    /** Give up the pairing, in memory and in the store, or change nothing at all. */
    method CancelPairing(id: DeviceId, storeOk: bool) returns (ok: bool)
      modifies deviceManager
      ensures ok == SetPairedOk(old(deviceManager.View()), id, false, storeOk)
      ensures deviceManager.View() == Devices.SetPaired(old(deviceManager.View()), id, false, storeOk)
      ensures !ok ==> deviceManager.View() == old(deviceManager.View())
      ensures ok && old(TableOk(deviceManager.View())) ==>
                && TableOk(deviceManager.View()) && !IsPaired(deviceManager.View(), id)
                && PersistedPin(deviceManager.store, id) == None
                && OnlyTouches(old(deviceManager.View()), deviceManager.View(), id)
    {
      ghost var was := deviceManager.View();
      if TableOk(was) {
        SetPairedKeepsTable(was, id, false, storeOk);
      }
      ok := deviceManager.SetPaired(id, false, storeOk);
    }
  }
}
