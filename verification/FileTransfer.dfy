/** The life of an incoming transfer as its listeners see it (filetransfer.rs). */
module FileTransfer {
  datatype Stage =
    | Metadata | Connect | TlsHandshake | VerifyPeer | Receive | SizeValidation | Finalize | Destination | Publish

  datatype State = Receiving | Completed(path: string) | FailedAt(stage: Stage)

  datatype Status = Status(received: nat, state: State)

  /** A started transfer: the announcement, then strictly increasing progress. */
  predicate Running(events: seq<Status>) {
    && events != [] && events[0] == Status(0, Receiving)
    && (forall i | 0 <= i < |events| :: events[i].state == Receiving)
    && (forall i, j | 0 <= i < j < |events| :: events[i].received < events[j].received)
  }

  /** A finished one: the same, and exactly one terminal status, at the end. */
  predicate Ended(events: seq<Status>) {
    events != [] && Running(events[..|events| - 1]) && events[|events| - 1].state != Receiving
  }

  /** Which progress callbacks come late enough after the last progress event to be sent. */
  type Schedule = seq<bool>

  predicate Due(schedule: Schedule, k: nat) {
    k < |schedule| && schedule[k]
  }

  function Update(received: nat, due: bool): seq<Status> {
    if due then [Status(received, Receiving)] else []
  }

  /** The updates sent for these byte counts, reported by the callbacks from the k-th on. */
  function Throttled(counts: seq<nat>, schedule: Schedule, k: nat): seq<Status>
    decreases |counts|
  {
    if counts == [] then [] else Update(counts[0], Due(schedule, k)) + Throttled(counts[1..], schedule, k + 1)
  }

  /** Byte counts that strictly increase, above `low` and up to `high`. */
  predicate Climbs(counts: seq<nat>, low: nat, high: nat) {
    && (forall i | 0 <= i < |counts| :: low < counts[i] <= high)
    && (forall i, j | 0 <= i < j < |counts| :: counts[i] < counts[j])
  }

  predicate Within(events: seq<Status>, bound: nat) {
    forall i | 0 <= i < |events| :: events[i].received <= bound
  }

  /** Whatever is throttled, climbing byte counts keep a transfer running. */
  lemma {:induction false} UpdatesKeepRunning(sent: seq<Status>, counts: seq<nat>, low: nat, high: nat,
                                              schedule: Schedule, k: nat)
    requires Running(sent) && sent[|sent| - 1].received <= low <= high && Climbs(counts, low, high)
    ensures Running(sent + Throttled(counts, schedule, k))
    ensures Within(sent, high) ==> Within(sent + Throttled(counts, schedule, k), high)
    decreases |counts|
  {
    if counts == [] {
      assert sent + [] == sent;
    } else {
      var next := sent + Update(counts[0], Due(schedule, k));
      UpdatesKeepRunning(next, counts[1..], counts[0], high, schedule, k + 1);
      assert sent + Throttled(counts, schedule, k) == next + Throttled(counts[1..], schedule, k + 1);
    }
  }

  predicate AllDue(schedule: Schedule, from: nat, to: nat) {
    forall j: nat | from <= j < to :: Due(schedule, j)
  }

  /** Every update that is due is sent, with its own byte count, in order; and no other. */
  lemma {:induction false} DueUpdatesAreSent(counts: seq<nat>, schedule: Schedule, k: nat)
    ensures forall i | 0 <= i < |counts| && Due(schedule, k + i) ::
              Status(counts[i], Receiving) in Throttled(counts, schedule, k)
    ensures forall s | s in Throttled(counts, schedule, k) ::
              s.state == Receiving && exists i | 0 <= i < |counts| :: counts[i] == s.received && Due(schedule, k + i)
    ensures AllDue(schedule, k, k + |counts|) ==> |Throttled(counts, schedule, k)| == |counts|
    decreases |counts|
  {
    if counts != [] {
      var later := counts[1..];
      DueUpdatesAreSent(later, schedule, k + 1);
      forall i | 0 <= i < |counts| && Due(schedule, k + i)
        ensures Status(counts[i], Receiving) in Throttled(counts, schedule, k)
      {
        if i > 0 {
          assert later[i - 1] == counts[i] && Due(schedule, k + 1 + (i - 1));
        }
      }
      forall s | s in Throttled(counts, schedule, k)
        ensures s.state == Receiving && exists i | 0 <= i < |counts| :: counts[i] == s.received && Due(schedule, k + i)
      {
        if s in Throttled(later, schedule, k + 1) {
          var i :| 0 <= i < |later| && later[i] == s.received && Due(schedule, k + 1 + i);
          assert counts[i + 1] == s.received && Due(schedule, k + (i + 1));
        } else {
          assert counts[0] == s.received && Due(schedule, k + 0);
        }
      }
    }
  }

  class IncomingTransfer {
    var events: seq<Status>

    constructor ()
      ensures events == []
    {
      events := [];
    }

    method Started()
      requires events == []
      modifies this
      ensures events == [Status(0, Receiving)] && Running(events)
    {
      events := events + [Status(0, Receiving)];
    }

    /** `due` says whether enough time has passed since the last progress event. */
    method Progress(received: nat, due: bool)
      modifies this
      ensures events == old(events) + Update(received, due)
      ensures due ==> events == old(events) + [Status(received, Receiving)]
      ensures !due ==> events == old(events)
      ensures old(Running(events) && events[|events| - 1].received < received) ==> Running(events)
    {
      if !due {
        return;
      }
      events := events + [Status(received, Receiving)];
    }

    method Complete(path: string, received: nat)
      requires Running(events)
      modifies this
      ensures Ended(events) && events == old(events) + [Status(received, Completed(path))]
    {
      events := events + [Status(received, Completed(path))];
      assert events[..|events| - 1] == old(events);
    }

    method Fail(stage: Stage)
      requires Running(events)
      modifies this
      ensures Ended(events) && events == old(events) + [Status(0, FailedAt(stage))]
    {
      events := events + [Status(0, FailedAt(stage))];
      assert events[..|events| - 1] == old(events);
    }
  }

  /** What `Ended` promises a listener: the last status is the only terminal one, and nothing
      but growing progress comes before it. */
  lemma EndedHasOneTerminal(events: seq<Status>, i: nat)
    requires Ended(events) && i < |events|
    ensures events[i].state != Receiving <==> i == |events| - 1
    ensures |events| >= 2 && events[0] == Status(0, Receiving)
    ensures 0 < i < |events| - 1 ==> events[i - 1].received < events[i].received
  {
    var running := events[..|events| - 1];
    assert events[0] == running[0];
    if i < |running| {
      assert events[i] == running[i];
      if i > 0 {
        assert events[i - 1] == running[i - 1];
      }
    }
  }
}
