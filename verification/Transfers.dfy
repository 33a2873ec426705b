/** Incoming files, from the announcement to the terminal status (filetransfer.rs, share.rs,
    sms.rs): every started transfer ends once, and Completed means published in full. */
module Transfers {
  import opened Common
  import opened Devices
  import opened FileTransfer
  import opened Payload
  import opened Download

  /** What the surroundings do: whether the destination can be prepared and written to, and
      which progress callbacks come late enough to be sent. */
  datatype Site = Site(prepared: bool, writable: bool, schedule: Schedule)

  /** The stage at which a reception fails, if it does. */
  function Failure(device: Device, name: string, peer: Peer, expected: Option<nat>, site: Site): Option<Stage> {
    if !site.prepared || !ValidFilename(name) then Some(Destination)
    else if PayloadResult(device, peer, expected).Err? then Some(PayloadResult(device, peer, expected).error)
    else if !site.writable then Some(Stage.Publish)
    else None
  }

  /** What is emitted before the terminal status. */
  function Updates(device: Device, name: string, peer: Peer, expected: Option<nat>, site: Site): seq<Status> {
    [Status(0, Receiving)]
    + if !site.prepared || !ValidFilename(name) then []
      else Throttled(PayloadReports(device, peer, expected), site.schedule, 0)
  }

  /** Receive into a temporary file and publish it only after the transfer validates. */
  method ReceiveInner(transfer: IncomingTransfer, device: Device, name: string, peer: Peer, expected: Option<nat>,
                      directory: Directory, unique: bool, site: Site)
    returns (result: Result<(string, nat), Stage>)
    requires transfer.events == [Status(0, Receiving)]
    requires Proper(peer.script)
    modifies transfer, directory
    ensures Running(transfer.events) && transfer.events == Updates(device, name, peer, expected, site)
    ensures Failure(device, name, peer, expected, site) == if result.Ok? then None else Some(result.error)
    ensures result.Err? ==> directory.entries == old(directory.entries)
    ensures result.Ok? ==>
              Published(old(directory.entries), directory.entries, name, result.value.0, peer, expected, unique)
    ensures result.Ok? ==> expected == Some(result.value.1)
    ensures result.Ok? <==>
              && site.prepared && site.writable && ValidFilename(name)
              && expected == Some(|Stream(peer.script)|)
              && peer.setup.None? && VerifyPayloadPeer(device, peer.presented)
              && Clean(peer.script) && peer.closes
    ensures !site.prepared || !ValidFilename(name) ==> result == Err(Destination)
    ensures (&& site.prepared && ValidFilename(name) && PayloadResult(device, peer, expected).Ok?
             && !site.writable) ==> result == Err(Stage.Publish)
  {
    if !site.prepared || !ValidFilename(name) {
      return Err(Destination);
    }
    var file := new Sink();
    var received := ReceivePayload(device, peer, file, expected, transfer, site.schedule);
    if received.Err? {
      return Err(received.error);
    }
    var dest := Finish(directory, name, file.bytes, unique, site.writable);
    if dest.None? {
      return Err(Stage.Publish);
    }
    result := Ok((dest.value, received.value));
  }

  /** The directory gained, at `path` and nowhere else, exactly the announced bytes the paired
      peer sent; a unique download took the first free name. */
  ghost predicate Published(was: map<string, Content>, now: map<string, Content>, name: string, path: string,
                            peer: Peer, expected: Option<nat>, unique: bool)
  {
    && now == was[path := Stream(peer.script)]
    && expected == Some(|Stream(peer.script)|)
    && (if unique then FirstFree(was, name, path) else path == name)
  }

  /** A share or attachment whose destination checks are `ready`; ends the transfer either way. */
  method ReceiveAndReport(transfer: IncomingTransfer, device: Device, name: string, peer: Peer, expected: Option<nat>,
                          directory: Directory, unique: bool, site: Site)
    returns (ok: bool)
    requires transfer.events == [Status(0, Receiving)]
    requires Proper(peer.script)
    modifies transfer, directory
    ensures Ended(transfer.events)
    ensures transfer.events[..|transfer.events| - 1] == Updates(device, name, peer, expected, site)
    ensures var last := transfer.events[|transfer.events| - 1];
            if ok then
              && last.state.Completed? && expected == Some(last.received)
              && Published(old(directory.entries), directory.entries, name, last.state.path, peer, expected, unique)
            else
              && Failure(device, name, peer, expected, site).Some?
              && last == Status(0, FailedAt(Failure(device, name, peer, expected, site).value))
              && directory.entries == old(directory.entries)
    ensures ok <==> Failure(device, name, peer, expected, site).None?
    ensures ok <==>
              && site.prepared && site.writable && ValidFilename(name)
              && expected == Some(|Stream(peer.script)|)
              && peer.setup.None? && VerifyPayloadPeer(device, peer.presented)
              && Clean(peer.script) && peer.closes
  {
    var result := ReceiveInner(transfer, device, name, peer, expected, directory, unique, site);
    match result
    case Ok(saved) =>
      transfer.Complete(saved.0, saved.1);
      ok := true;
    case Err(stage) =>
      transfer.Fail(stage);
      ok := false;
  }

  datatype ShareRequest = File(name: string) | Text(text: string) | Url(url: string)

  /** A share request. Only files are tracked; one without payload information ends at once. */
  method ReceiveShare(request: ShareRequest, device: Device, peer: Option<Peer>, expected: Option<nat>,
                      directory: Directory, site: Site)
    returns (events: seq<Status>)
    requires peer.Some? ==> Proper(peer.value.script)
    modifies directory
    ensures request.File? <==> events != []
    ensures request.File? ==> Ended(events)
    ensures request.File? && events[|events| - 1].state.Completed? ==>
              && peer.Some? && expected == Some(events[|events| - 1].received)
              && Published(old(directory.entries), directory.entries, request.name, events[|events| - 1].state.path,
                           peer.value, expected, true)
    ensures !(request.File? && events[|events| - 1].state.Completed?) ==> directory.entries == old(directory.entries)
    ensures request.File? && peer.None? ==> events == [Status(0, Receiving), Status(0, FailedAt(Metadata))]
    ensures request.File? && peer.Some? ==> Follows(events, device, request.name, peer.value, expected, site)
  {
    match request
    case Text(_) => events := [];
    case Url(_) => events := [];
    case File(name) =>
      var transfer := new IncomingTransfer();
      transfer.Started();
      if peer.None? {
        transfer.Fail(Metadata);
      } else {
        var _ := ReceiveAndReport(transfer, device, name, peer.value, expected, directory, true, site);
      }
      events := transfer.events;
  }

  /** The updates that are due, then the terminal status the reception deserves. */
  predicate Follows(events: seq<Status>, device: Device, name: string, peer: Peer, expected: Option<nat>, site: Site) {
    && events != []
    && events[..|events| - 1] == Updates(device, name, peer, expected, site)
    && (var failure := Failure(device, name, peer, expected, site);
        if failure.Some? then events[|events| - 1] == Status(0, FailedAt(failure.value))
        else events[|events| - 1].state.Completed?)
  }

  /** An SMS attachment replaces the cached file of its name. */
  method ReceiveAttachment(name: string, device: Device, peer: Peer, expected: Option<nat>, directory: Directory,
                           site: Site)
    returns (events: seq<Status>)
    requires Proper(peer.script)
    modifies directory
    ensures Ended(events)
    ensures var last := events[|events| - 1];
            if last.state.Completed? then
              && ValidId(device.id) && last.state.path == name && expected == Some(last.received)
              && Published(old(directory.entries), directory.entries, name, name, peer, expected, false)
            else directory.entries == old(directory.entries)
    ensures if !ValidId(device.id) || !ValidFilename(name) then
              events == [Status(0, Receiving), Status(0, FailedAt(Metadata))]
            else Follows(events, device, name, peer, expected, site)
  {
    var transfer := new IncomingTransfer();
    transfer.Started();
    if !ValidId(device.id) || !ValidFilename(name) {
      transfer.Fail(Metadata);
    } else {
      var _ := ReceiveAndReport(transfer, device, name, peer, expected, directory, false, site);
    }
    events := transfer.events;
  }
}
