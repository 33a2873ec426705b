/** What every operation on the pairing table keeps: memory and store agree about every
    device in memory, whatever fails. */
module PairingTable {
  import opened Common
  import opened Devices

  /** A device is paired exactly when it has a nonempty pin; the pin is then its connection's
      certificate, and it is what a reload of the store would yield. */
  predicate DeviceOk(store: Store, id: DeviceId, device: Device) {
    && device.id == id
    && ValidId(id)
    && HasPin(device.live)
    && (device.pairState == Paired <==> HasPin(device.pinned))
    && (device.pairState == Paired ==> device.pinned == device.live)
    && (device.pairState != Paired ==> device.pinned == None)
    && PersistedPin(store, id) == device.pinned
    && (id in store ==> store[id].id == id)
  }

  ghost predicate TableOk(t: Table) {
    forall id | id in t.devices :: DeviceOk(t.store, id, t.devices[id])
  }

  /** Only the record and the pairing of `id` may differ, and only pairing events are queued. */
  ghost predicate OnlyTouches(t: Table, t': Table, id: DeviceId) {
    && t'.devices.Keys == t.devices.Keys
    && (forall d | d in t.devices :: t'.devices[d].live == t.devices[d].live)
    && (forall other | other != id && other in t.devices :: t'.devices[other] == t.devices[other])
    && (forall other | other != id :: other in t'.store <==> other in t.store)
    && (forall other | other != id && other in t.store :: t'.store[other] == t.store[other])
    && (forall e | e in t'.queue :: e in t.queue || !e.PacketReceived?)
  }

  lemma UpdateKeepsTable(t: Table, id: DeviceId, state: PairState, storeOk: bool)
    requires TableOk(t) && state != Paired
    ensures TableOk(UpdatePairState(t, id, state, storeOk))
    ensures OnlyTouches(t, UpdatePairState(t, id, state, storeOk), id)
    ensures storeOk && id in t.devices ==> PersistedPin(UpdatePairState(t, id, state, storeOk).store, id) == None
  {
    var t' := UpdatePairState(t, id, state, storeOk);
    if t' != t {
      assert DeviceOk(t.store, id, t.devices[id]);
    }
    forall d | d in t'.devices
      ensures DeviceOk(t'.store, d, t'.devices[d])
    {
      assert DeviceOk(t.store, d, t.devices[d]);
    }
  }

  lemma SetPairedKeepsTable(t: Table, id: DeviceId, flag: bool, storeOk: bool)
    requires TableOk(t)
    ensures TableOk(SetPaired(t, id, flag, storeOk))
    ensures OnlyTouches(t, SetPaired(t, id, flag, storeOk), id)
    ensures SetPairedOk(t, id, flag, storeOk) ==>
              PersistedPin(SetPaired(t, id, flag, storeOk).store, id)
              == if flag then t.devices[id].live else None
  {
    var t' := SetPaired(t, id, flag, storeOk);
    if id in t.devices {
      assert DeviceOk(t.store, id, t.devices[id]);
    }
    forall d | d in t'.devices
      ensures DeviceOk(t'.store, d, t'.devices[d])
    {
      assert d in t.devices && DeviceOk(t.store, d, t.devices[d]);
    }
  }

  lemma PairRequestKeepsTable(t: Table, id: DeviceId, storeOk: bool)
    requires TableOk(t)
    ensures TableOk(PairRequest(t, id, storeOk))
    ensures OnlyTouches(t, PairRequest(t, id, storeOk), id)
  {
    UpdateKeepsTable(t, id, Requested, storeOk);
    SetPairedKeepsTable(t, id, true, storeOk);
  }

  /** A loaded and bound device agrees with the store; a pending pairing never survives. */
  lemma BindingAgrees(store: Store, id: DeviceId, access: Access, certificate: Cert)
    requires Determined(store, id, access) && LoadFrom(store, id, access).Some?
    requires BindCertificate(LoadFrom(store, id, access).value, certificate).Some?
    ensures var device := BindCertificate(LoadFrom(store, id, access).value, certificate).value;
            && DeviceOk(store, id, device)
            && device.live == Some(certificate)
            && device.pairState in {NotPaired, Paired}
  {
  }
}
