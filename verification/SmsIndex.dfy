/** The SMS window's message index (plugins/sms/app.rs): positions kept up to date instead of a
    scan, and always what a rebuild would give. */
module SmsIndex {
  import opened Common

  /** Body and other fields that merging leaves alone are kept; attachments are not modelled. */
  datatype Message = Message(
    id: string,
    threadId: string,
    body: string,
    address: string,
    date: int,
    kind: int,
    read: bool)

  const ECHO_MATCH_WINDOW_MS := 300_000

  const SENDING := "sending_"

  predicate IsSendingId(id: string) {
    SENDING <= id
  }

  predicate IsSent(m: Message) {
    m.kind == 2
  }

  /** A send shown before the phone confirmed it. */
  predicate Optimistic(m: Message) {
    IsSendingId(m.id) && IsSent(m)
  }

  function Abs(x: int): int {
    if x < 0 then -x else x
  }

  // --- What a scan of the list would do ----------------------------------------------------

  predicate Knows(messages: seq<Message>, id: string) {
    exists i | 0 <= i < |messages| :: messages[i].id == id
  }

  predicate IsEchoOf(message: Message, shown: Message) {
    IsSent(message) && Optimistic(shown) && shown.body == message.body
    && Abs(shown.date - message.date) < ECHO_MATCH_WINDOW_MS
  }

  /** The first optimistic send that `message` echoes. */
  function FirstEchoed(messages: seq<Message>, message: Message): (r: Option<nat>)
    ensures r.Some? ==> r.value < |messages| && IsEchoOf(message, messages[r.value])
    ensures forall i | 0 <= i < if r.Some? then r.value else |messages| :: !IsEchoOf(message, messages[i])
    decreases |messages|
  {
    if messages == [] then None
    else
      var last := |messages| - 1;
      var earlier := FirstEchoed(messages[..last], message);
      if earlier.Some? then earlier
      else if IsEchoOf(message, messages[last]) then Some(last)
      else None
  }

  function Merged(shown: Message, message: Message): Message {
    shown.(id := message.id, threadId := message.threadId, date := message.date)
  }

  /** Drop a known id, else fold into the first echoed send, else append. */
  function Scan(messages: seq<Message>, message: Message): seq<Message> {
    if Knows(messages, message.id) then messages
    else
      var echoed := FirstEchoed(messages, message);
      if echoed.Some? then messages[echoed.value := Merged(messages[echoed.value], message)]
      else messages + [message]
  }

  /** The shown message is a send the phone has not confirmed, with the text of the message and a
      date less than five minutes away. */
  predicate Waits(shown: Message, message: Message) {
    && "sending_" <= shown.id && shown.kind == 2 && shown.body == message.body
    && -300_000 < shown.date - message.date < 300_000
  }

  /** The first waiting send has taken the message's id, thread and date and kept all else; every
      other message is as it was. */
  predicate FoldedAt(messages: seq<Message>, updated: seq<Message>, i: nat, message: Message)
    requires i < |messages| == |updated|
  {
    && Waits(messages[i], message) && (forall k | 0 <= k < i :: !Waits(messages[k], message))
    && updated[i].id == message.id && updated[i].threadId == message.threadId && updated[i].date == message.date
    && updated[i].body == messages[i].body && updated[i].address == messages[i].address
    && updated[i].kind == messages[i].kind && updated[i].read == messages[i].read
    && forall k | 0 <= k < |messages| && k != i :: updated[k] == messages[k]
  }

  /** A known id changes nothing; else a sent message is folded into the first send that waits for
      it; else the message is appended. */
  ghost predicate Takes(messages: seq<Message>, updated: seq<Message>, message: Message) {
    if exists i | 0 <= i < |messages| :: messages[i].id == message.id then updated == messages
    else if message.kind == 2 && exists i | 0 <= i < |messages| :: Waits(messages[i], message) then
      && |updated| == |messages|
      && exists i | 0 <= i < |messages| :: FoldedAt(messages, updated, i, message)
    else updated == messages + [message]
  }

  /** What scanning does, told by the messages' fields. */
  lemma ScanTakes(messages: seq<Message>, message: Message)
    ensures Takes(messages, Scan(messages, message), message)
    ensures |Scan(messages, message)| == |messages| + 1
            <==> !Knows(messages, message.id) && FirstEchoed(messages, message).None?
  {
    assert forall i | 0 <= i < |messages| ::
             IsEchoOf(message, messages[i]) <==> message.kind == 2 && Waits(messages[i], message);
    var echoed := FirstEchoed(messages, message);
    if !Knows(messages, message.id) && echoed.Some? {
      assert FoldedAt(messages, Scan(messages, message), echoed.value, message);
    }
  }

  predicate Folds(messages: seq<Message>, message: Message) {
    !Knows(messages, message.id) && FirstEchoed(messages, message).Some?
  }

  predicate DistinctIds(messages: seq<Message>) {
    forall i, j | 0 <= i < j < |messages| :: messages[i].id != messages[j].id
  }

  // --- What a rebuild gives ------------------------------------------------------------------

  function IdPositions(messages: seq<Message>): map<string, nat>
    decreases |messages|
  {
    if messages == [] then map[]
    else
      var last := |messages| - 1;
      IdPositions(messages[..last])[messages[last].id := last]
  }

  function PositionsOf(pending: map<string, seq<nat>>, body: string): seq<nat> {
    if body in pending then pending[body] else []
  }

  function PendingPositions(messages: seq<Message>): map<string, seq<nat>>
    decreases |messages|
  {
    if messages == [] then map[]
    else
      var last := |messages| - 1;
      var earlier := PendingPositions(messages[..last]);
      if Optimistic(messages[last]) then
        earlier[messages[last].body := PositionsOf(earlier, messages[last].body) + [last]]
      else earlier
  }

  /** The positions of the optimistic sends with this body, in order. */
  function PendingFor(messages: seq<Message>, body: string): seq<nat>
    decreases |messages|
  {
    if messages == [] then []
    else
      var last := |messages| - 1;
      PendingFor(messages[..last], body)
      + if Optimistic(messages[last]) && messages[last].body == body then [last] else []
  }

  lemma {:induction false} IdLookup(messages: seq<Message>)
    requires DistinctIds(messages)
    ensures forall i | 0 <= i < |messages| ::
              messages[i].id in IdPositions(messages) && IdPositions(messages)[messages[i].id] == i
    ensures forall id | id in IdPositions(messages) ::
              IdPositions(messages)[id] < |messages| && messages[IdPositions(messages)[id]].id == id
    decreases |messages|
  {
    if messages != [] {
      IdLookup(messages[..|messages| - 1]);
    }
  }

  lemma {:induction false} PendingLookup(messages: seq<Message>, body: string)
    ensures body in PendingPositions(messages) <==> PendingFor(messages, body) != []
    ensures PositionsOf(PendingPositions(messages), body) == PendingFor(messages, body)
    decreases |messages|
  {
    if messages != [] {
      PendingLookup(messages[..|messages| - 1], body);
    }
  }

  lemma {:induction false} PendingMembers(messages: seq<Message>, body: string, p: nat)
    ensures p in PendingFor(messages, body) <==>
            p < |messages| && Optimistic(messages[p]) && messages[p].body == body
    decreases |messages|
  {
    if messages != [] {
      PendingMembers(messages[..|messages| - 1], body, p);
    }
  }

  // --- The index operations ------------------------------------------------------------------

  predicate Within(positions: seq<nat>, n: nat) {
    forall i | 0 <= i < |positions| :: positions[i] < n
  }

  function FindEcho(positions: seq<nat>, messages: seq<Message>, date: int): Option<nat>
    requires Within(positions, |messages|)
  {
    if positions == [] then None
    else if Abs(messages[positions[0]].date - date) < ECHO_MATCH_WINDOW_MS then Some(positions[0])
    else FindEcho(positions[1..], messages, date)
  }

  function Retain(positions: seq<nat>, pos: nat): seq<nat> {
    if positions == [] then []
    else (if positions[0] != pos then [positions[0]] else []) + Retain(positions[1..], pos)
  }

  lemma {:induction false} FindEchoSnoc(positions: seq<nat>, p: nat, messages: seq<Message>, date: int)
    requires p < |messages| && Within(positions, |messages|)
    ensures FindEcho(positions + [p], messages, date) ==
            var earlier := FindEcho(positions, messages, date);
            if earlier.Some? then earlier
            else if Abs(messages[p].date - date) < ECHO_MATCH_WINDOW_MS then Some(p)
            else None
  {
    if positions != [] {
      assert (positions + [p])[1..] == positions[1..] + [p];
      FindEchoSnoc(positions[1..], p, messages, date);
    }
  }

  lemma {:induction false} FindEchoPrefix(positions: seq<nat>, messages: seq<Message>, n: nat, date: int)
    requires n <= |messages| && Within(positions, n)
    ensures FindEcho(positions, messages[..n], date) == FindEcho(positions, messages, date)
  {
    if positions != [] {
      FindEchoPrefix(positions[1..], messages, n, date);
    }
  }

  lemma {:induction false} RetainSnoc(positions: seq<nat>, p: nat, pos: nat)
    ensures Retain(positions + [p], pos) == Retain(positions, pos) + if p != pos then [p] else []
  {
    if positions != [] {
      assert (positions + [p])[1..] == positions[1..] + [p];
      RetainSnoc(positions[1..], p, pos);
    }
  }

  /** Looking through the pending positions finds what a scan of the list finds. */
  lemma {:induction false} PendingFindsFirst(messages: seq<Message>, message: Message)
    requires IsSent(message)
    ensures Within(PendingFor(messages, message.body), |messages|)
    ensures FindEcho(PendingFor(messages, message.body), messages, message.date) == FirstEchoed(messages, message)
    decreases |messages|
  {
    var all := PendingFor(messages, message.body);
    forall i | 0 <= i < |all|
      ensures all[i] < |messages|
    {
      PendingMembers(messages, message.body, all[i]);
    }
    if messages != [] {
      var last := |messages| - 1;
      var earlier := messages[..last];
      PendingFindsFirst(earlier, message);
      var positions := PendingFor(earlier, message.body);
      FindEchoPrefix(positions, messages, last, message.date);
      if Optimistic(messages[last]) && messages[last].body == message.body {
        FindEchoSnoc(positions, last, messages, message.date);
      } else {
        assert PendingFor(messages, message.body) == positions;
      }
    }
  }

  lemma RetainEarlier(messages: seq<Message>, pos: nat, body: string)
    requires |messages| <= pos
    ensures Retain(PendingFor(messages, body), pos) == PendingFor(messages, body)
  {
    PendingMembers(messages, body, pos);
    RetainsOthers(PendingFor(messages, body), pos);
  }

  lemma PendingSnoc(messages: seq<Message>, m: Message, body: string)
    ensures PendingFor(messages + [m], body) ==
            if Optimistic(m) && m.body == body then PendingFor(messages, body) + [|messages|]
            else PendingFor(messages, body)
  {
    assert (messages + [m])[..|messages|] == messages;
  }

  lemma FrontAndLast<T>(s: seq<T>)
    requires s != []
    ensures s == s[..|s| - 1] + [s[|s| - 1]]
  {
  }

  lemma UpdatesEnds<T>(s: seq<T>, pos: nat, x: T)
    requires pos < |s|
    ensures pos == |s| - 1 ==> s[pos := x] == s[..|s| - 1] + [x]
    ensures pos < |s| - 1 ==> s[pos := x] == s[..|s| - 1][pos := x] + [s[|s| - 1]]
  {
  }

  lemma FoldingLast(messages: seq<Message>, m: Message, body: string)
    requires messages != [] && Optimistic(messages[|messages| - 1]) && !Optimistic(m)
    requires m.body == messages[|messages| - 1].body
    ensures var last := |messages| - 1;
            PendingFor(messages[last := m], body) ==
            if body == m.body then Retain(PendingFor(messages, body), last) else PendingFor(messages, body)
  {
    var last := |messages| - 1;
    FrontAndLast(messages);
    UpdatesEnds(messages, last, m);
    PendingSnoc(messages[..last], messages[last], body);
    PendingSnoc(messages[..last], m, body);
    RetainSnoc(PendingFor(messages[..last], body), last, last);
    RetainEarlier(messages[..last], last, body);
  }

  /** A last message that is not folded into keeps its place. */
  lemma FoldingEarlier(messages: seq<Message>, pos: nat, m: Message, body: string)
    requires pos < |messages| - 1
    requires var earlier := messages[..|messages| - 1];
             PendingFor(earlier[pos := m], body) ==
             if body == m.body then Retain(PendingFor(earlier, body), pos) else PendingFor(earlier, body)
    ensures PendingFor(messages[pos := m], body) ==
            if body == m.body then Retain(PendingFor(messages, body), pos) else PendingFor(messages, body)
  {
    var last := |messages| - 1;
    FrontAndLast(messages);
    UpdatesEnds(messages, pos, m);
    PendingSnoc(messages[..last], messages[last], body);
    PendingSnoc(messages[..last][pos := m], messages[last], body);
    RetainSnoc(PendingFor(messages[..last], body), last, pos);
  }

  /** Folding a confirmed message into position `pos` removes `pos` and nothing else. */
  lemma {:induction false} FoldingRetains(messages: seq<Message>, pos: nat, m: Message, body: string)
    requires pos < |messages| && Optimistic(messages[pos]) && m.body == messages[pos].body && !Optimistic(m)
    ensures PendingFor(messages[pos := m], body) ==
            if body == m.body then Retain(PendingFor(messages, body), pos) else PendingFor(messages, body)
    decreases |messages|
  {
    if pos == |messages| - 1 {
      FoldingLast(messages, m, body);
    } else {
      FoldingRetains(messages[..|messages| - 1], pos, m, body);
      FoldingEarlier(messages, pos, m, body);
    }
  }

  lemma {:induction false} RetainsOthers(positions: seq<nat>, pos: nat)
    ensures pos !in positions ==> Retain(positions, pos) == positions
    ensures pos !in Retain(positions, pos)
  {
    if positions != [] {
      RetainsOthers(positions[1..], pos);
    }
  }

  lemma KnownById(messages: seq<Message>, id: string)
    requires DistinctIds(messages)
    ensures id in IdPositions(messages) <==> Knows(messages, id)
  {
    IdLookup(messages);
  }

  class MessageIndex {
    var byId: map<string, nat>
    var pendingOutgoing: map<string, seq<nat>>

    constructor ()
      ensures IsIndexOf([])
    {
      byId, pendingOutgoing := map[], map[];
    }

    /** The index is, map for map, what `Rebuild` computes. */
    predicate IsIndexOf(messages: seq<Message>)
      reads this
    {
      byId == IdPositions(messages) && pendingOutgoing == PendingPositions(messages)
    }

    method Rebuild(messages: seq<Message>)
      modifies this
      ensures IsIndexOf(messages)
    {
      byId := map[];
      pendingOutgoing := map[];
      for pos := 0 to |messages|
        invariant IsIndexOf(messages[..pos])
      {
        assert messages[..pos + 1][..pos] == messages[..pos];
        var m := messages[pos];
        byId := byId[m.id := pos];
        if IsSendingId(m.id) && IsSent(m) {
          pendingOutgoing := pendingOutgoing[m.body := PositionsOf(pendingOutgoing, m.body) + [pos]];
        }
      }
      assert messages[..|messages|] == messages;
    }

    method Clear()
      modifies this
      ensures IsIndexOf([])
    {
      byId := map[];
      pendingOutgoing := map[];
    }

    /** One call does what a scan does, and the index stays what a rebuild would give exactly
        when no message with a "sending_" id was folded into another. */
    method InsertOrMerge(messages: seq<Message>, message: Message) returns (updated: seq<Message>, appended: bool)
      requires DistinctIds(messages) && IsIndexOf(messages)
      modifies this
      ensures updated == Scan(messages, message) && DistinctIds(updated)
      ensures appended <==> !Knows(messages, message.id) && FirstEchoed(messages, message).None?
      ensures IsIndexOf(updated) <==> !(Folds(messages, message) && IsSendingId(message.id))
      ensures Takes(messages, updated, message) && (appended <==> |updated| == |messages| + 1)
    {
      ScanTakes(messages, message);
      KnownById(messages, message.id);
      if message.id in byId {
        return messages, false;
      }
      if IsSent(message) {
        PendingLookup(messages, message.body);
        PendingFindsFirst(messages, message);
        var found := FindEcho(PositionsOf(pendingOutgoing, message.body), messages, message.date);
        if found.Some? {
          updated := Fold(messages, message, found.value);
          return updated, false;
        }
      } else {
        assert FirstEchoed(messages, message).None?;
      }
      Append(messages, message);
      updated, appended := messages + [message], true;
    }

    method Append(messages: seq<Message>, message: Message)
      requires IsIndexOf(messages)
      modifies this
      ensures IsIndexOf(messages + [message])
    {
      var pos := |messages|;
      byId := byId[message.id := pos];
      if IsSendingId(message.id) && IsSent(message) {
        pendingOutgoing := pendingOutgoing[message.body := PositionsOf(pendingOutgoing, message.body) + [pos]];
      }
      assert (messages + [message])[..pos] == messages;
    }

    /** The echo branch: adopt the real id, thread and date in place. */
    method Fold(messages: seq<Message>, message: Message, pos: nat) returns (updated: seq<Message>)
      requires DistinctIds(messages) && IsIndexOf(messages) && !Knows(messages, message.id)
      requires pos < |messages| && IsEchoOf(message, messages[pos])
      modifies this
      ensures updated == messages[pos := Merged(messages[pos], message)] && DistinctIds(updated)
      ensures IsIndexOf(updated) <==> !IsSendingId(message.id)
    {
      var oldId, body := messages[pos].id, message.body;
      updated := messages[pos := Merged(messages[pos], message)];
      byId := byId - {oldId};
      byId := byId[message.id := pos];
      FoldedIds(messages, updated, pos);
      PendingLookup(messages, body);
      PendingMembers(messages, body, pos);
      var positions := Retain(pendingOutgoing[body], pos);
      if positions == [] {
        pendingOutgoing := pendingOutgoing - {body};
      } else {
        pendingOutgoing := pendingOutgoing[body := positions];
      }
      if IsSendingId(message.id) {
        RetainsOthers(PendingFor(messages, body), pos);
        PendingLookup(updated, body);
        PendingMembers(updated, body, pos);
      } else {
        FoldedPending(messages, updated, pos, pendingOutgoing);
      }
    }
  }

  lemma FoldedDistinct(messages: seq<Message>, updated: seq<Message>, pos: nat)
    requires DistinctIds(messages) && pos < |messages| && |updated| == |messages|
    requires !Knows(messages, updated[pos].id)
    requires forall i | 0 <= i < |messages| && i != pos :: updated[i] == messages[i]
    ensures DistinctIds(updated)
  {
  }

  /** The map gives each message's id its position, and holds nothing else. */
  predicate Places(positions: map<string, nat>, messages: seq<Message>) {
    && (forall i | 0 <= i < |messages| :: messages[i].id in positions && positions[messages[i].id] == i)
    && (forall id | id in positions :: positions[id] < |messages| && messages[positions[id]].id == id)
  }

  lemma PlacesUniquely(a: map<string, nat>, b: map<string, nat>, messages: seq<Message>)
    requires Places(a, messages) && Places(b, messages)
    ensures a == b
  {
  }

  lemma FoldedPlaces(before: map<string, nat>, messages: seq<Message>, updated: seq<Message>, pos: nat)
    requires Places(before, messages) && pos < |messages| && |updated| == |messages|
    requires updated[pos].id !in before
    requires forall i | 0 <= i < |messages| && i != pos :: updated[i] == messages[i]
    ensures Places((before - {messages[pos].id})[updated[pos].id := pos], updated)
  {
  }

  lemma FoldedIds(messages: seq<Message>, updated: seq<Message>, pos: nat)
    requires DistinctIds(messages) && pos < |messages| && |updated| == |messages|
    requires !Knows(messages, updated[pos].id)
    requires forall i | 0 <= i < |messages| && i != pos :: updated[i] == messages[i]
    ensures DistinctIds(updated)
    ensures (IdPositions(messages) - {messages[pos].id})[updated[pos].id := pos] == IdPositions(updated)
  {
    FoldedDistinct(messages, updated, pos);
    IdLookup(messages);
    IdLookup(updated);
    FoldedPlaces(IdPositions(messages), messages, updated, pos);
    PlacesUniquely((IdPositions(messages) - {messages[pos].id})[updated[pos].id := pos], IdPositions(updated), updated);
  }

  lemma FoldedPending(messages: seq<Message>, updated: seq<Message>, pos: nat, pending: map<string, seq<nat>>)
    requires pos < |messages| == |updated| && Optimistic(messages[pos])
    requires updated == messages[pos := updated[pos]] && updated[pos].body == messages[pos].body
    requires !Optimistic(updated[pos])
    requires var body := updated[pos].body;
             body in PendingPositions(messages) &&
             var positions := Retain(PendingPositions(messages)[body], pos);
             pending == if positions == [] then PendingPositions(messages) - {body}
                        else PendingPositions(messages)[body := positions]
    ensures pending == PendingPositions(updated)
  {
    var after := PendingPositions(updated);
    forall body
      ensures body in pending <==> body in after
      ensures body in pending ==> pending[body] == after[body]
    {
      PendingLookup(messages, body);
      PendingLookup(updated, body);
      FoldingRetains(messages, pos, updated[pos], body);
    }
  }
}
