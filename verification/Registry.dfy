/** The connection registry as a state machine: one step per event the core's loop handles,
    one for the service that mirrors it, and a restart (lib.rs, dbus_interface.rs). */
module Registry {
  import opened Common
  import opened Devices

  type ConnId = nat

  datatype ConnEvent =
    | Connected(device: Device)
    | PairedNotice(device: Device)
    | Disconnected(id: DeviceId)
    | PairStateChanged(id: DeviceId, state: PairState)
    | PairingRequested(id: DeviceId)

  /** Why a packet is queued on a connection's writer. Only `Bootstrap`, sent when a queued
      DevicePaired is handled, does not look at the pairing again; `PairPacket` is the pairing
      protocol itself. */
  datatype Purpose = PairPacket(pair: bool) | Bootstrap | Data(packet: Packet) | Greeting

  /** A packet queued on the writer of connection `conn`. */
  datatype Sent = Sent(id: DeviceId, conn: ConnId, purpose: Purpose)

  /** A packet handed to the plugins, together with the device object they are given. */
  datatype Dispatch = Dispatch(device: Device, conn: ConnId, packet: Packet)

  /** The core. `connLog` is everything ever sent on the connection-event channel. */
  datatype Core = Core(
    table: Table,
    writers: map<DeviceId, ConnId>,
    connIds: map<DeviceId, ConnId>,
    connLog: seq<ConnEvent>,
    sent: seq<Sent>,
    dispatched: seq<Dispatch>)

  /** Body of an incoming packet; `BadPair` is a pair packet whose body does not parse. */
  datatype Body = Pair(flag: bool) | BadPair | Plugin(packet: Packet) | Unparsable

  datatype Event =
    | NewConnection(id: DeviceId, certificate: Cert, conn: ConnId, access: Access, acceptorAlive: bool)
    | Incoming(id: DeviceId, conn: ConnId, body: Body, storeOk: bool)
    | Closed(id: DeviceId, conn: ConnId)
    | AppPair(id: DeviceId, storeOk: bool)
    | AppAccept(id: DeviceId, storeOk: bool)
    | AppReject(id: DeviceId, storeOk: bool)
    | AppUnpair(id: DeviceId, storeOk: bool)
    | AppDisconnect(id: DeviceId)
    | AppSetPlugin(id: DeviceId)
    | AppSend(id: DeviceId, packet: Packet)
    | AppSendWithReply(id: DeviceId, packet: Packet, enabled: bool, writerOpen: bool)
    | AppSendFiles(id: DeviceId, packets: seq<Packet>)
    | AppRequest(id: DeviceId, packet: Packet)
    | CoreNext(contacts: bool, mpris: bool)
    | Background(queued: CoreEvent)
    | ServiceNext
    | Restore(files: set<DeviceId>)
    | Restart

  // --- The core's handlers --------------------------------------------------------------

  function Broadcast(c: Core, event: ConnEvent): Core {
    c.(connLog := c.connLog + [event])
  }

  function Send(c: Core, id: DeviceId, purpose: Purpose): Core {
    if id in c.writers then c.(sent := c.sent + [Sent(id, c.writers[id], purpose)]) else c
  }

  function Forget(c: Core, id: DeviceId): Core {
    c.(writers := c.writers - {id}, connIds := c.connIds - {id})
  }

  predicate Current(c: Core, id: DeviceId, conn: ConnId) {
    id in c.connIds && c.connIds[id] == conn
  }

  /** The device a NewConnection would register, unless the core refuses the connection. */
  function Admitted(c: Core, id: DeviceId, certificate: Cert, access: Access): Option<Device> {
    match LoadFrom(c.table.store, id, access)
    case None => None
    case Some(loaded) =>
      match BindCertificate(loaded, certificate)
      case None => None
      case Some(device) =>
        if id in c.connIds && id in c.table.devices && c.table.devices[id].live != Some(certificate)
        then None
        else Some(device)
  }

  function Register(c: Core, device: Device, id: DeviceId, conn: ConnId): Core {
    c.(table := AddOrUpdate(c.table, id, device),
       connIds := c.connIds[id := conn],
       writers := c.writers[id := conn])
  }

  function HandleNewConnection(c: Core, id: DeviceId, certificate: Cert, conn: ConnId, access: Access,
                               acceptorAlive: bool): Core
  {
    match Admitted(c, id, certificate, access)
    case None => c
    case Some(device) =>
      var registered := Register(c, device, id, conn);
      if !acceptorAlive then Forget(registered, id)
      else
        var greeted := if device.pairState == Paired then Send(registered, id, Greeting) else registered;
        Broadcast(greeted, Connected(device))
  }

  function HandlePairFalse(c: Core, id: DeviceId, storeOk: bool): Core {
    if id in c.table.devices && c.table.devices[id].pairState == Paired then
      Broadcast(c.(table := UpdatePairState(c.table, id, NotPaired, storeOk)), PairStateChanged(id, NotPaired))
    else c
  }

  function HandlePairTrue(c: Core, id: DeviceId, storeOk: bool): Core {
    var handled := c.(table := PairRequest(c.table, id, storeOk));
    if AsksUser(c.table, id) then Broadcast(handled, PairingRequested(id)) else handled
  }

  function HandleIncoming(c: Core, id: DeviceId, conn: ConnId, body: Body, storeOk: bool): Core {
    if !Current(c, id, conn) then c
    else match body
      case Pair(flag) => if flag then HandlePairTrue(c, id, storeOk) else HandlePairFalse(c, id, storeOk)
      case BadPair => c
      case Plugin(packet) => c.(table := Push(c.table, PacketReceived(id, conn, packet)))
      case Unparsable => c.(table := Push(c.table, CoreError))
  }

  /** A Disconnected with no recorded connection counts as current. */
  function HandleClosed(c: Core, id: DeviceId, conn: ConnId): Core {
    if id in c.connIds && c.connIds[id] != conn then c
    else Broadcast(Forget(c, id), Disconnected(id))
  }

  function HandleAppPair(c: Core, id: DeviceId, storeOk: bool): Core {
    if id !in c.writers || IsPaired(c.table, id) then c
    else
      var sent := Send(c, id, PairPacket(true));
      sent.(table := UpdatePairState(sent.table, id, Requesting, storeOk))
  }

  function HandleAppAccept(c: Core, id: DeviceId, storeOk: bool): Core {
    if id !in c.writers || id !in c.table.devices || c.table.devices[id].pairState != Requested then c
    else if !SetPairedOk(c.table, id, true, storeOk) then c
    else Send(c.(table := SetPaired(c.table, id, true, storeOk)), id, PairPacket(true))
  }

  function HandleAppReject(c: Core, id: DeviceId, storeOk: bool): Core {
    var sent := Send(c, id, PairPacket(false));
    sent.(table := UpdatePairState(sent.table, id, NotPaired, storeOk))
  }

  function HandleAppUnpair(c: Core, id: DeviceId, storeOk: bool): Core {
    var sent := Send(c, id, PairPacket(false));
    if !SetPairedOk(sent.table, id, false, storeOk) then sent
    else Broadcast(sent.(table := SetPaired(sent.table, id, false, storeOk)), PairStateChanged(id, NotPaired))
  }

  function HandleAppDisconnect(c: Core, id: DeviceId): Core {
    if id in c.writers then Broadcast(Forget(c, id), Disconnected(id)) else c
  }

  function HandleAppSetPlugin(c: Core, id: DeviceId): Core {
    if id in c.writers then Forget(c, id) else c
  }

  function SendData(c: Core, id: DeviceId, packet: Packet): Core {
    if IsPaired(c.table, id) then Send(c, id, Data(packet)) else c
  }

  /** What SendPacketWithReply answers its caller. */
  predicate ReplyOk(c: Core, id: DeviceId, enabled: bool, writerOpen: bool) {
    IsPaired(c.table, id) && enabled && id in c.writers && writerOpen
  }

  function SendFiles(c: Core, id: DeviceId, packets: seq<Packet>): Core
    decreases |packets|
  {
    if packets == [] then c else SendFiles(SendData(c, id, packets[0]), id, packets[1..])
  }

  /** The connection event a core event turns into, if any. */
  function Output(event: CoreEvent): seq<ConnEvent> {
    match event
    case DevicePaired(device) => [PairedNotice(device)]
    case DevicePairCancelled(id) => [PairStateChanged(id, NotPaired)]
    case DevicePairStateChanged(id, state) => [PairStateChanged(id, state)]
    case _ => []
  }

  function HandleCoreEvent(c: Core, event: CoreEvent, contacts: bool, mpris: bool): Core {
    match event
    case DevicePaired(device) =>
      var c1 := if contacts then Send(c, device.id, Bootstrap) else c;
      var c2 := if mpris then Send(c1, device.id, Bootstrap) else c1;
      Broadcast(c2, PairedNotice(device))
    case DevicePairCancelled(id) => Broadcast(c, PairStateChanged(id, NotPaired))
    case DevicePairStateChanged(id, state) => Broadcast(c, PairStateChanged(id, state))
    case PacketReceived(id, conn, packet) =>
      if !Current(c, id, conn) || id !in c.table.devices || c.table.devices[id].pairState != Paired then c
      else c.(dispatched := c.dispatched + [Dispatch(c.table.devices[id], conn, packet)])
    case SendPacket(id, packet) => SendData(c, id, packet)
    case SendPayload(id, packet) => SendData(c, id, packet)
    case CoreError => c
  }

  function HandleCoreNext(c: Core, contacts: bool, mpris: bool): Core {
    if c.table.queue == [] then c
    else
      HandleCoreEvent(c.(table := c.table.(queue := c.table.queue[1..])), c.table.queue[0], contacts, mpris)
  }

  function CoreStep(c: Core, e: Event): Core {
    match e
    case NewConnection(id, certificate, conn, access, acceptorAlive) =>
      HandleNewConnection(c, id, certificate, conn, access, acceptorAlive)
    case Incoming(id, conn, body, storeOk) => HandleIncoming(c, id, conn, body, storeOk)
    case Closed(id, conn) => HandleClosed(c, id, conn)
    case AppPair(id, storeOk) => HandleAppPair(c, id, storeOk)
    case AppAccept(id, storeOk) => HandleAppAccept(c, id, storeOk)
    case AppReject(id, storeOk) => HandleAppReject(c, id, storeOk)
    case AppUnpair(id, storeOk) => HandleAppUnpair(c, id, storeOk)
    case AppDisconnect(id) => HandleAppDisconnect(c, id)
    case AppSetPlugin(id) => HandleAppSetPlugin(c, id)
    case AppSend(id, packet) => SendData(c, id, packet)
    case AppSendWithReply(id, packet, enabled, writerOpen) =>
      if ReplyOk(c, id, enabled, writerOpen) then Send(c, id, Data(packet)) else c
    case AppSendFiles(id, packets) => SendFiles(c, id, packets)
    case AppRequest(id, packet) =>
      if id in c.table.devices then c.(table := Push(c.table, SendPacket(id, packet))) else c
    case CoreNext(contacts, mpris) => HandleCoreNext(c, contacts, mpris)
    case Background(queued) => c.(table := Push(c.table, queued))
    case ServiceNext => c
    case Restore(_) => c
    case Restart => Core(Table(map[], c.table.store, []), map[], map[], [], c.sent, c.dispatched)
  }

  // --- The service's mirror --------------------------------------------------------------

  datatype MirrorEntry = MirrorEntry(isPaired: bool, isReachable: bool)

  type Mirror = map<DeviceId, MirrorEntry>

  function MirrorEvent(m: Mirror, event: ConnEvent): Mirror {
    match event
    case Connected(device) => m[device.id := MirrorEntry(device.pairState == Paired, true)]
    case PairedNotice(device) => m[device.id := MirrorEntry(true, true)]
    case Disconnected(id) => if id in m then m[id := m[id].(isReachable := false)] else m
    case PairStateChanged(id, state) => if id in m then m[id := m[id].(isPaired := state == Paired)] else m
    case PairingRequested(_) => m
  }

  /** The service has handled the first `served` events of the channel, on top of the devices it
      restored when it started. */
  datatype Service = Service(served: nat, mirror: Mirror, restored: Mirror)

  /** The devices the service knows before it hears of any: those of the Paired records it can
      read, under the id each record holds, as paired but not reachable. */
  function Seeded(store: Store, files: set<DeviceId>): Mirror {
    map id | id in RestoredIds(store, files) :: MirrorEntry(true, false)
  }

  function RestoredIds(store: Store, files: set<DeviceId>): set<DeviceId> {
    set file | file in files && file in store && store[file].pairState == Paired :: store[file].id
  }

  function ServiceStep(s: Service, connLog: seq<ConnEvent>): Service {
    if s.served < |connLog| then s.(served := s.served + 1, mirror := MirrorEvent(s.mirror, connLog[s.served])) else s
  }

  // --- Runs ------------------------------------------------------------------------------

  /** A connection across restarts: ids are unique within one life of the process. */
  datatype Link = Link(boot: nat, conn: ConnId)

  /** The device and certificate a registered connection presented. */
  datatype Presented = Presented(id: DeviceId, certificate: Cert)

  datatype Arrival = Arrival(link: Link, id: DeviceId, packet: Packet)

  /** What happened so far, as far as the theorems speak of it.
      `open`: accepted connections whose Disconnected has not been handled. */
  datatype History = History(
    boot: nat,
    presented: map<Link, Presented>,
    lastRegistered: map<DeviceId, ConnId>,
    open: set<Link>,
    peerAsked: set<Link>,
    userAsked: set<Link>,
    arrived: set<Arrival>)

  datatype World = World(core: Core, service: Service, history: History)

  function Started(restored: Mirror): Service {
    Service(0, restored, restored)
  }

  function InitialCore(store: Store): Core {
    Core(Table(map[], store, []), map[], map[], [], [], [])
  }

  function Initial(store: Store): World {
    World(InitialCore(store), Started(map[]), History(0, map[], map[], {}, {}, {}, {}))
  }

  function Observe(h: History, c: Core, e: Event): History {
    match e
    case NewConnection(id, certificate, conn, access, acceptorAlive) =>
      if Admitted(c, id, certificate, access).None? then h
      else
        var link := Link(h.boot, conn);
        h.(presented := h.presented[link := Presented(id, certificate)],
           lastRegistered := h.lastRegistered[id := conn],
           open := if acceptorAlive then h.open + {link} else h.open)
    case Incoming(id, conn, body, _) =>
      if !Current(c, id, conn) then h
      else if body == Pair(true) then h.(peerAsked := h.peerAsked + {Link(h.boot, conn)})
      else if body.Plugin? then h.(arrived := h.arrived + {Arrival(Link(h.boot, conn), id, body.packet)})
      else h
    case Closed(_, conn) => h.(open := h.open - {Link(h.boot, conn)})
    case AppPair(id, _) =>
      if id in c.connIds then h.(userAsked := h.userAsked + {Link(h.boot, c.connIds[id])}) else h
    case AppAccept(id, _) =>
      if id in c.connIds then h.(userAsked := h.userAsked + {Link(h.boot, c.connIds[id])}) else h
    case Restart => h.(boot := h.boot + 1, lastRegistered := map[], open := {})
    case _ => h
  }

  function Step(w: World, e: Event): World {
    World(
      CoreStep(w.core, e),
      (if e.ServiceNext? then ServiceStep(w.service, w.core.connLog)
       else if e.Restore? then Started(Seeded(w.core.table.store, e.files))
       else if e.Restart? then Started(map[])
       else w.service),
      Observe(w.history, w.core, e))
  }

  /** What the environment guarantees: connection ids are not reused within one life of the
      process, whether a device has a record can be determined if that matters, a connection
      speaks only between its acceptance and its Disconnected, always for the device it was
      registered for, background tasks only ask for packets to be sent, and the service restores
      devices before anything is handled. */
  predicate Legal(w: World, e: Event) {
    match e
    case NewConnection(id, _, conn, access, _) =>
      Link(w.history.boot, conn) !in w.history.presented && Determined(w.core.table.store, id, access)
    case Incoming(id, conn, _, _) => Speaks(w.history, id, conn)
    case Closed(id, conn) => Speaks(w.history, id, conn)
    case Background(queued) => queued.SendPacket? || queued.SendPayload?
    case Restore(_) => w.core.table.queue == [] && w.core.connLog == [] && w.service == Started(map[])
    case _ => true
  }

  predicate Speaks(h: History, id: DeviceId, conn: ConnId) {
    var link := Link(h.boot, conn);
    link in h.open && link in h.presented && h.presented[link].id == id
  }

  /** The world after the events, from an arbitrary pairing store. */
  function Run(store: Store, events: seq<Event>): World
    decreases |events|
  {
    if events == [] then Initial(store)
    else Step(Run(store, events[..|events| - 1]), events[|events| - 1])
  }

  predicate LegalRun(store: Store, events: seq<Event>)
    decreases |events|
  {
    events == [] ||
    (LegalRun(store, events[..|events| - 1]) && Legal(Run(store, events[..|events| - 1]), events[|events| - 1]))
  }
}
