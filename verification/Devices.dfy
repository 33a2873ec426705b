/** Device records, certificate pins and the pairing table (device.rs, pairing.rs).

    The functions here specify what the imperative `DeviceManager` and `PairingManager` of
    KdeConnectCore.dfy do. A certificate is an opaque byte string. Whether a read or a write of
    the pairing store succeeds is a parameter, so every failure is one more input. */
module Devices {
  import opened Common

  type DeviceId = string
  type Cert = seq<byte>

  predicate IdChar(c: char) {
    'a' <= c <= 'z' || 'A' <= c <= 'Z' || '0' <= c <= '9' || c == '-' || c == '_'
  }

  predicate ValidId(id: DeviceId) {
    0 < |id| <= 128 && forall i | 0 <= i < |id| :: IdChar(id[i])
  }

  /** A valid id can name a file in a directory, and no other path; real ids are valid. */
  lemma IdsSelectNoPaths(id: DeviceId)
    ensures ValidId(id) ==> id != "" && '/' !in id && '\\' !in id && '.' !in id && '\0' !in id
    ensures ValidId("77f4e7c7_3593-4fa5")
  {
  }

  datatype PairState = NotPaired | Requesting | Requested | Paired

  /** A device in memory: `pinned` is the paired certificate, `live` the connection's. */
  datatype Device = Device(id: DeviceId, pairState: PairState, pinned: Option<Cert>, live: Option<Cert>)

  /** What the pairing store keeps; the live certificate is never written. */
  datatype Record = Record(id: DeviceId, pairState: PairState, pinned: Option<Cert>)

  type Store = map<DeviceId, Record>

  predicate HasPin(pin: Option<Cert>) {
    pin.Some? && pin.value != []
  }

  /** What looking for a device's record comes to. Its existence may not even be determined. */
  datatype Access = Readable | Unreadable | Undetermined

  /** None: the identity is refused (bad id, unreadable or foreign record). A malformed record
      counts as an absent one, and so does one whose existence cannot be determined. */
  function LoadFrom(store: Store, id: DeviceId, access: Access): Option<Device> {
    if !ValidId(id) then None
    else if access == Undetermined || id !in store then Some(Device(id, NotPaired, None, None))
    else if access == Unreadable || store[id].id != id then None
    else if store[id].pairState != Paired || !HasPin(store[id].pinned) then Some(Device(id, NotPaired, None, None))
    else Some(Device(id, Paired, store[id].pinned, None))
  }

  /** Failing to determine whether there is a record hides none that would matter. */
  predicate Determined(store: Store, id: DeviceId, access: Access) {
    access == Undetermined ==> LoadFrom(store, id, Undetermined) == LoadFrom(store, id, Readable)
  }

  function BindCertificate(device: Device, certificate: Cert): Option<Device> {
    if certificate == [] then None
    else if device.pairState == Paired && device.pinned != Some(certificate) then None
    else Some(device.(live := Some(certificate)))
  }

  function PayloadCertificate(device: Device): Option<Cert> {
    if device.pairState == Paired && HasPin(device.pinned) then device.pinned else None
  }

  function StoreIn(store: Store, device: Device, state: PairState): Store {
    store[device.id := Record(device.id, state, if state == Paired then device.pinned else None)]
  }

  /** The certificate a restart would trust for `id`: the meaning of the pairing store. */
  function PersistedPin(store: Store, id: DeviceId): Option<Cert> {
    if id in store && store[id].id == id && store[id].pairState == Paired && HasPin(store[id].pinned)
    then store[id].pinned
    else None
  }

  datatype CoreEvent =
    | DevicePaired(device: Device)
    | DevicePairCancelled(id: DeviceId)
    | DevicePairStateChanged(id: DeviceId, state: PairState)
    | PacketReceived(id: DeviceId, conn: nat, packet: Packet)
    | SendPacket(id: DeviceId, packet: Packet)
    | SendPayload(id: DeviceId, packet: Packet)
    | CoreError

  /** A packet that is not a pairing packet; its contents do not matter to the core. */
  type Packet = nat

  /** The device manager's state: the table, the store behind it and the core queue it feeds. */
  datatype Table = Table(devices: map<DeviceId, Device>, store: Store, queue: seq<CoreEvent>)

  function Push(t: Table, event: CoreEvent): Table {
    t.(queue := t.queue + [event])
  }

  function AddOrUpdate(t: Table, id: DeviceId, device: Device): Table {
    t.(devices := t.devices[id := device])
  }

  predicate IsPaired(t: Table, id: DeviceId) {
    id in t.devices && PayloadCertificate(t.devices[id]).Some?
  }

  function UpdatePairState(t: Table, id: DeviceId, state: PairState, storeOk: bool): Table {
    if id !in t.devices || !storeOk || !ValidId(t.devices[id].id) then t
    else
      var device := t.devices[id];
      var pinned := if state != Paired then None else device.pinned;
      Push(t.(store := StoreIn(t.store, device, state),
              devices := t.devices[id := device.(pairState := state, pinned := pinned)]),
           DevicePairStateChanged(id, state))
  }

  /** Whether `set_paired` reports success. */
  predicate SetPairedOk(t: Table, id: DeviceId, flag: bool, storeOk: bool) {
    && ValidId(id)
    && storeOk
    && (if flag then
          && id in t.devices
          && t.devices[id].pairState in {Requested, Requesting}
          && HasPin(t.devices[id].live)
          && ValidId(t.devices[id].id)
        else id in t.devices ==> ValidId(t.devices[id].id))
  }

  function SetPaired(t: Table, id: DeviceId, flag: bool, storeOk: bool): Table {
    if !SetPairedOk(t, id, flag, storeOk) then t
    else if flag then
      var paired := t.devices[id].(pinned := t.devices[id].live, pairState := Paired);
      Push(t.(store := StoreIn(t.store, paired, Paired), devices := t.devices[id := paired]), DevicePaired(paired))
    else if id in t.devices then
      var device := t.devices[id].(pinned := None, pairState := NotPaired);
      Push(t.(store := StoreIn(t.store, device, NotPaired), devices := t.devices[id := device]),
           DevicePairCancelled(device.id))
    else
      Push(t.(store := t.store - {id}), DevicePairCancelled(id))
  }

  /** An incoming pair:true: complete our own request, ignore a paired peer, or ask the user. */
  function PairRequest(t: Table, id: DeviceId, storeOk: bool): Table {
    if id !in t.devices then t
    else match t.devices[id].pairState
      case Requesting => SetPaired(t, id, true, storeOk)
      case Paired => t
      case _ => UpdatePairState(t, id, Requested, storeOk)
  }

  predicate AsksUser(t: Table, id: DeviceId) {
    id in t.devices && t.devices[id].pairState in {NotPaired, Requested}
  }
}
