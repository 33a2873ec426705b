/** Receiving a payload (transport.rs): the bounded copy loop and the checks around it. */
module Payload {
  import opened Common
  import opened Devices
  import opened FileTransfer

  /** Whether a write reached the file, or failed after part of it did. */
  datatype WriteOutcome = Written | Failed(partial: nat)

  /** What one read of the peer's socket yields; the script ends with a clean end of file. */
  datatype Read = Data(bytes: seq<byte>, write: WriteOutcome) | ReadError | Stall

  /** What the peer sends before the stream ends, fails or stalls. */
  function Stream(script: seq<Read>): seq<byte> {
    if script == [] || !script[0].Data? then [] else script[0].bytes + Stream(script[1..])
  }

  /** Every read yields data that can be written, until the end of file. */
  predicate Clean(script: seq<Read>) {
    forall i | 0 <= i < |script| :: script[i].Data? && script[i].write.Written?
  }

  /** A read of no bytes is an end of file, which the script expresses by ending. */
  predicate Proper(script: seq<Read>) {
    forall i | 0 <= i < |script| && script[i].Data? :: script[i].bytes != []
  }

  class Sink {
    var bytes: seq<byte>

    constructor ()
      ensures bytes == []
    {
      bytes := [];
    }

    method WriteAll(data: seq<byte>, outcome: WriteOutcome) returns (ok: bool)
      modifies this
      ensures ok == outcome.Written?
      ensures bytes == old(bytes) + Reached(data, outcome)
    {
      bytes := bytes + Reached(data, outcome);
      ok := outcome.Written?;
    }
  }

  /** The part of the data that reaches the file. */
  function Reached(data: seq<byte>, outcome: WriteOutcome): (r: seq<byte>)
    ensures r <= data
  {
    match outcome
    case Written => data
    case Failed(partial) => if partial < |data| then data[..partial] else data
  }

  // --- What the copy does, read by read ------------------------------------------------------

  predicate Fits(bytes: seq<byte>, total: nat, expected: Option<nat>) {
    expected.None? || total + |bytes| <= expected.value
  }

  /** How a copy ends that has already written `total` bytes. */
  function CopyResult(script: seq<Read>, total: nat, expected: Option<nat>): Result<nat, Stage>
    decreases |script|
  {
    if script == [] then Ok(total)
    else
      match script[0]
      case ReadError => Err(Receive)
      case Stall => Err(Receive)
      case Data(bytes, write) =>
        if !Fits(bytes, total, expected) then Err(SizeValidation)
        else if write.Failed? then Err(Receive)
        else CopyResult(script[1..], total + |bytes|, expected)
  }

  /** The byte counts it reports. */
  function Reports(script: seq<Read>, total: nat, expected: Option<nat>): seq<nat>
    decreases |script|
  {
    if script == [] || !script[0].Data? || !Fits(script[0].bytes, total, expected) || script[0].write.Failed? then []
    else [total + |script[0].bytes|] + Reports(script[1..], total + |script[0].bytes|, expected)
  }

  /** The bytes it writes. */
  function Kept(script: seq<Read>, total: nat, expected: Option<nat>): seq<byte>
    decreases |script|
  {
    if script == [] || !script[0].Data? || !Fits(script[0].bytes, total, expected) then []
    else if script[0].write.Failed? then Reached(script[0].bytes, script[0].write)
    else script[0].bytes + Kept(script[1..], total + |script[0].bytes|, expected)
  }

  predicate Continues(script: seq<Read>, total: nat, expected: Option<nat>) {
    script != [] && script[0].Data? && Fits(script[0].bytes, total, expected) && script[0].write.Written?
  }

  lemma CleanSplits(script: seq<Read>)
    requires script != []
    ensures Clean(script) <==> script[0].Data? && script[0].write.Written? && Clean(script[1..])
  {
    assert forall i | 1 <= i < |script| :: script[i] == script[1..][i - 1];
  }

  /** A copy writes a prefix of the stream within the announced size, and succeeds exactly on a
      clean stream that fits, with all of it. */
  lemma {:induction false} CopyKeepsPrefix(script: seq<Read>, total: nat, expected: Option<nat>)
    requires expected.Some? ==> total <= expected.value
    ensures Kept(script, total, expected) <= Stream(script)
    ensures expected.Some? ==> total + |Kept(script, total, expected)| <= expected.value
    ensures CopyResult(script, total, expected).Ok? <==> Clean(script) && Fits(Stream(script), total, expected)
    ensures CopyResult(script, total, expected).Ok? ==>
              && CopyResult(script, total, expected).value == total + |Stream(script)|
              && Kept(script, total, expected) == Stream(script)
    ensures CopyResult(script, total, expected) == Err(SizeValidation) ==> !Fits(Stream(script), total, expected)
    decreases |script|
  {
    if script != [] {
      CleanSplits(script);
    }
    if Continues(script, total, expected) {
      CopyKeepsPrefix(script[1..], total + |script[0].bytes|, expected);
    }
  }

  lemma ClimbsFurther(counts: seq<nat>, low: nat, next: nat, high: nat)
    requires low < next <= high && Climbs(counts, next, high)
    ensures Climbs([next] + counts, low, high)
  {
  }

  /** The reported byte counts strictly increase up to what was written. */
  lemma {:induction false} ReportsIncrease(script: seq<Read>, total: nat, expected: Option<nat>)
    requires Proper(script)
    ensures Climbs(Reports(script, total, expected), total, total + |Kept(script, total, expected)|)
    decreases |script|
  {
    if Continues(script, total, expected) {
      assert forall i | 0 <= i < |script[1..]| :: script[1..][i] == script[i + 1];
      var next := total + |script[0].bytes|;
      assert script[0].bytes != [];
      ReportsIncrease(script[1..], next, expected);
      ClimbsFurther(Reports(script[1..], next, expected), total, next, next + |Kept(script[1..], next, expected)|);
    }
  }

  lemma {:induction false} CopyFails(script: seq<Read>, total: nat, expected: Option<nat>)
    ensures CopyResult(script, total, expected).Err? ==>
              CopyResult(script, total, expected).error in {Receive, SizeValidation}
    decreases |script|
  {
    if Continues(script, total, expected) {
      CopyFails(script[1..], total + |script[0].bytes|, expected);
    }
  }

  /** The first `i` reads bring data that is written and fits. */
  predicate Writes(script: seq<Read>, i: nat, total: nat, expected: Option<nat>)
    requires i <= |script|
  {
    Clean(script[..i]) && Fits(Stream(script[..i]), total, expected)
  }

  lemma WritesCons(script: seq<Read>, i: nat, total: nat, expected: Option<nat>)
    requires 0 < i <= |script|
    ensures Writes(script, i, total, expected) <==>
              Continues(script, total, expected) && Writes(script[1..], i - 1, total + |script[0].bytes|, expected)
    ensures script[0].Data? ==> Stream(script[..i]) == script[0].bytes + Stream(script[1..][..i - 1])
  {
    assert script[..i][0] == script[0] && script[..i][1..] == script[1..][..i - 1];
    CleanSplits(script[..i]);
  }

  /** Each read that is written is reported with the running total, and no other read is. */
  lemma {:induction false} EveryReadIsReported(script: seq<Read>, total: nat, expected: Option<nat>, i: nat)
    requires 0 < i <= |script|
    ensures i <= |Reports(script, total, expected)| <==> Writes(script, i, total, expected)
    ensures i <= |Reports(script, total, expected)| ==>
              Reports(script, total, expected)[i - 1] == total + |Stream(script[..i])|
    ensures |Reports(script, total, expected)| <= |script|
    decreases |script|
  {
    WritesCons(script, i, total, expected);
    if Continues(script, total, expected) {
      var next := total + |script[0].bytes|;
      if i > 1 {
        EveryReadIsReported(script[1..], next, expected, i - 1);
      } else {
        assert script[1..][..0] == [];
        if |script| > 1 {
          EveryReadIsReported(script[1..], next, expected, 1);
        }
      }
    }
  }

  /** A stream that is clean but too long is refused for its size. */
  lemma {:induction false} TooMuchIsRefused(script: seq<Read>, total: nat, expected: Option<nat>)
    requires Clean(script) && !Fits(Stream(script), total, expected) && (expected.Some? ==> total <= expected.value)
    ensures CopyResult(script, total, expected) == Err(SizeValidation)
    decreases |script|
  {
    if script != [] {
      CleanSplits(script);
      if Fits(script[0].bytes, total, expected) {
        TooMuchIsRefused(script[1..], total + |script[0].bytes|, expected);
      }
    }
  }

  /** Whatever the reader does, the file receives a prefix of the stream no longer than
      announced, the progress sent meanwhile strictly increases up to what was written, and the
      copy succeeds exactly on a clean stream of at most the announced size, then with all of
      it. */
  method CopyWithInactivityDeadline(script: seq<Read>, sink: Sink, expected: Option<nat>,
                                    transfer: IncomingTransfer, schedule: Schedule)
    returns (result: Result<nat, Stage>)
    requires Proper(script) && sink.bytes == [] && transfer.events == [Status(0, Receiving)]
    modifies sink, transfer
    ensures sink.bytes <= Stream(script)
    ensures expected.Some? ==> |sink.bytes| <= expected.value
    ensures Running(transfer.events) && Within(transfer.events, |sink.bytes|)
    ensures result.Ok? <==> Clean(script) && (expected.None? || |Stream(script)| <= expected.value)
    ensures result.Ok? ==> result.value == |sink.bytes| && sink.bytes == Stream(script)
    ensures result == Err(SizeValidation) ==> expected.Some? && |Stream(script)| > expected.value
    ensures Clean(script) && expected.Some? && |Stream(script)| > expected.value ==> result == Err(SizeValidation)
    ensures result.Err? ==> result.error in {Receive, SizeValidation}
    ensures result == CopyResult(script, 0, expected)
    ensures sink.bytes == Kept(script, 0, expected)
    ensures transfer.events == [Status(0, Receiving)] + Throttled(Reports(script, 0, expected), schedule, 0)
  {
    CopyKeepsPrefix(script, 0, expected);
    CopyFails(script, 0, expected);
    if Clean(script) && !Fits(Stream(script), 0, expected) {
      TooMuchIsRefused(script, 0, expected);
    }
    ReportsIncrease(script, 0, expected);
    UpdatesKeepRunning(transfer.events, Reports(script, 0, expected), 0, |Kept(script, 0, expected)|, schedule, 0);
    result := CopyReads(script, sink, expected, transfer, schedule);
  }

  /** One read further, with what was sent and written before. */
  lemma CopyGoesOn(script: seq<Read>, total: nat, expected: Option<nat>, sent: seq<Status>, written: seq<byte>,
                   schedule: Schedule, k: nat)
    requires Continues(script, total, expected)
    ensures var next := total + |script[0].bytes|;
            && CopyResult(script, total, expected) == CopyResult(script[1..], next, expected)
            && sent + Throttled(Reports(script, total, expected), schedule, k)
               == sent + Update(next, Due(schedule, k))
                  + Throttled(Reports(script[1..], next, expected), schedule, k + 1)
            && written + Kept(script, total, expected) == written + script[0].bytes + Kept(script[1..], next, expected)
  {
    var next := total + |script[0].bytes|;
    var later := Reports(script[1..], next, expected);
    assert ([next] + later)[1..] == later;
    assert written + (script[0].bytes + Kept(script[1..], next, expected))
           == written + script[0].bytes + Kept(script[1..], next, expected);
  }

  /** A read that is not written, or not in full, ends the copy. */
  lemma CopyStops(script: seq<Read>, total: nat, expected: Option<nat>, sent: seq<Status>, written: seq<byte>,
                  schedule: Schedule, k: nat)
    requires script != [] && !Continues(script, total, expected)
    ensures var writes := script[0].Data? && Fits(script[0].bytes, total, expected);
            && CopyResult(script, total, expected)
               == Err(if script[0].Data? && !Fits(script[0].bytes, total, expected) then SizeValidation else Receive)
            && sent + Throttled(Reports(script, total, expected), schedule, k) == sent
            && written + Kept(script, total, expected)
               == if writes then written + Reached(script[0].bytes, script[0].write) else written
  {
  }

  lemma RestOfScript(script: seq<Read>, i: nat)
    requires i < |script|
    ensures script[i..][0] == script[i] && script[i..][1..] == script[i + 1..]
  {
  }

  /** The copy loop. */
  method CopyReads(script: seq<Read>, sink: Sink, expected: Option<nat>, transfer: IncomingTransfer,
                   schedule: Schedule)
    returns (result: Result<nat, Stage>)
    requires sink.bytes == [] && transfer.events == [Status(0, Receiving)]
    modifies sink, transfer
    ensures result == CopyResult(script, 0, expected)
    ensures sink.bytes == Kept(script, 0, expected)
    ensures transfer.events == [Status(0, Receiving)] + Throttled(Reports(script, 0, expected), schedule, 0)
  {
    var total: nat := 0;
    ghost var rest := script;
    ghost var ending, kept := CopyResult(script, 0, expected), Kept(script, 0, expected);
    ghost var sent := [Status(0, Receiving)] + Throttled(Reports(script, 0, expected), schedule, 0);
    assert [] + kept == kept;
    for i := 0 to |script|
      invariant rest == script[i..]
      invariant expected.Some? ==> total <= expected.value
      invariant ending == CopyResult(rest, total, expected)
      invariant kept == sink.bytes + Kept(rest, total, expected)
      invariant sent == transfer.events + Throttled(Reports(rest, total, expected), schedule, i)
    {
      RestOfScript(script, i);
      if Continues(rest, total, expected) {
        CopyGoesOn(rest, total, expected, transfer.events, sink.bytes, schedule, i);
      } else {
        CopyStops(rest, total, expected, transfer.events, sink.bytes, schedule, i);
      }
      match script[i]
      case ReadError =>
        return Err(Receive);
      case Stall =>
        return Err(Receive);
      case Data(bytes, write) =>
        if expected.Some? && |bytes| > expected.value - total {
          return Err(SizeValidation);
        }
        var ok := sink.WriteAll(bytes, write);
        if !ok {
          return Err(Receive);
        }
        total := total + |bytes|;
        transfer.Progress(total, Due(schedule, i));
        rest := rest[1..];
    }
    result := Ok(total);
  }

  /** The payload's peer must present the certificate the device is paired with. */
  predicate VerifyPayloadPeer(device: Device, presented: Option<Cert>) {
    PayloadCertificate(device).Some? && presented == PayloadCertificate(device)
  }

  /** What happens on the way: `setup` is the stage at which connecting fails, if it does. */
  datatype Peer = Peer(setup: Option<Stage>, presented: Option<Cert>, script: seq<Read>, closes: bool)

  /** How receiving a payload ends; a failure names its stage. */
  function PayloadResult(device: Device, peer: Peer, expected: Option<nat>): Result<nat, Stage> {
    if expected.None? then Err(Metadata)
    else if peer.setup.Some? then Err(peer.setup.value)
    else if !VerifyPayloadPeer(device, peer.presented) then Err(VerifyPeer)
    else
      var copied := CopyResult(peer.script, 0, expected);
      if copied.Err? then copied
      else if copied.value != expected.value then Err(SizeValidation)
      else if !peer.closes then Err(Finalize)
      else copied
  }

  function PayloadReports(device: Device, peer: Peer, expected: Option<nat>): seq<nat> {
    if expected.None? || peer.setup.Some? || !VerifyPayloadPeer(device, peer.presented) then []
    else Reports(peer.script, 0, expected)
  }

  /** Success means exactly the announced bytes, from the paired peer, are in the file. */
  method ReceivePayload(device: Device, peer: Peer, sink: Sink, expected: Option<nat>, transfer: IncomingTransfer,
                        schedule: Schedule)
    returns (result: Result<nat, Stage>)
    requires Proper(peer.script) && sink.bytes == [] && transfer.events == [Status(0, Receiving)]
    modifies sink, transfer
    ensures sink.bytes <= Stream(peer.script)
    ensures expected.Some? ==> |sink.bytes| <= expected.value
    ensures Running(transfer.events) && Within(transfer.events, |sink.bytes|)
    ensures result.Ok? <==>
              && expected == Some(|Stream(peer.script)|)
              && peer.setup.None? && VerifyPayloadPeer(device, peer.presented)
              && Clean(peer.script) && peer.closes
    ensures result.Ok? ==> sink.bytes == Stream(peer.script) && result.value == |sink.bytes|
    ensures result.Ok? ==> device.pairState == Paired && HasPin(device.pinned) && peer.presented == device.pinned
    ensures (&& expected == Some(|Stream(peer.script)|) && peer.setup.None? && Clean(peer.script) && peer.closes
             && device.pairState == Paired && HasPin(device.pinned) && peer.presented == device.pinned) ==> result.Ok?
    ensures result.Err? ==>
              if expected.None? then result.error == Metadata
              else if peer.setup.Some? then result.error == peer.setup.value
              else if device.pairState != Paired || !HasPin(device.pinned) || peer.presented != device.pinned
              then result.error == VerifyPeer
              else if !Clean(peer.script) then result.error in {Receive, SizeValidation}
              else if |Stream(peer.script)| != expected.value then result.error == SizeValidation
              else result.error == Finalize
    ensures result == PayloadResult(device, peer, expected)
    ensures transfer.events == [Status(0, Receiving)] + Throttled(PayloadReports(device, peer, expected), schedule, 0)
  {
    if expected.None? {
      return Err(Metadata);
    }
    if peer.setup.Some? {
      return Err(peer.setup.value);
    }
    if !VerifyPayloadPeer(device, peer.presented) {
      return Err(VerifyPeer);
    }
    var received := CopyWithInactivityDeadline(peer.script, sink, expected, transfer, schedule);
    if received.Err? {
      return received;
    }
    if received.value != expected.value {
      return Err(SizeValidation);
    }
    if !peer.closes {
      return Err(Finalize);
    }
    result := received;
  }
}
