/** The service's per-device SMS cache (dbus_interface.rs) and the one-pass unread summary
    (plugins/sms.rs). */
module SmsCache {
  import opened Common

  /** A phone's message; the fields that do not decide anything are `rest`. */
  datatype SmsMessage = SmsMessage(threadId: int, id: int, date: int, read: int, rest: string)

  datatype SmsMessages = SmsMessages(messages: seq<SmsMessage>, version: Option<int>)

  type Key = (int, int)

  function KeyOf(m: SmsMessage): Key {
    (m.threadId, m.id)
  }

  // --- The keyed merge -----------------------------------------------------------------------

  predicate DistinctKeys(s: seq<SmsMessage>) {
    forall i, j | 0 <= i < j < |s| :: KeyOf(s[i]) != KeyOf(s[j])
  }

  function PositionOf(s: seq<SmsMessage>, key: Key): (i: nat)
    ensures i <= |s|
    ensures i < |s| ==> KeyOf(s[i]) == key
    ensures forall j | 0 <= j < i :: KeyOf(s[j]) != key
  {
    if s == [] || KeyOf(s[0]) == key then 0 else 1 + PositionOf(s[1..], key)
  }

  /** Replace the version in place, or append a new message. */
  function Put(s: seq<SmsMessage>, m: SmsMessage): seq<SmsMessage> {
    var i := PositionOf(s, KeyOf(m));
    if i < |s| then s[i := m] else s + [m]
  }

  function PutAll(s: seq<SmsMessage>, incoming: seq<SmsMessage>): seq<SmsMessage>
    decreases |incoming|
  {
    if incoming == [] then s
    else Put(PutAll(s, incoming[..|incoming| - 1]), incoming[|incoming| - 1])
  }

  /** The first-seen keys of a sequence, in order. */
  function KeysInOrder(s: seq<SmsMessage>): seq<Key>
    decreases |s|
  {
    if s == [] then []
    else
      var earlier, key := KeysInOrder(s[..|s| - 1]), KeyOf(s[|s| - 1]);
      if key in earlier then earlier else earlier + [key]
  }

  function LastVersion(s: seq<SmsMessage>, key: Key): Option<SmsMessage>
    decreases |s|
  {
    if s == [] then None
    else if KeyOf(s[|s| - 1]) == key then Some(s[|s| - 1])
    else LastVersion(s[..|s| - 1], key)
  }

  /** `merged` has the keys of `all` in first-seen order, each with its last version. */
  ghost predicate Merges(merged: seq<SmsMessage>, all: seq<SmsMessage>) {
    && |merged| == |KeysInOrder(all)|
    && (forall i | 0 <= i < |merged| :: KeyOf(merged[i]) == KeysInOrder(all)[i])
    && (forall i | 0 <= i < |merged| :: LastVersion(all, KeyOf(merged[i])) == Some(merged[i]))
  }

  lemma {:induction false} KeysAreDistinct(s: seq<SmsMessage>)
    ensures forall i, j | 0 <= i < j < |KeysInOrder(s)| :: KeysInOrder(s)[i] != KeysInOrder(s)[j]
    decreases |s|
  {
    if s != [] {
      KeysAreDistinct(s[..|s| - 1]);
    }
  }

  /** The merge is determined by what it promises. */
  lemma MergesIsUnique(a: seq<SmsMessage>, b: seq<SmsMessage>, all: seq<SmsMessage>)
    requires Merges(a, all) && Merges(b, all)
    ensures a == b
  {
    forall i | 0 <= i < |a|
      ensures a[i] == b[i]
    {
      assert KeyOf(a[i]) == KeyOf(b[i]);
      assert LastVersion(all, KeyOf(a[i])) == Some(a[i]);
      assert LastVersion(all, KeyOf(b[i])) == Some(b[i]);
    }
  }

  lemma {:induction false} PutAllMerges(all: seq<SmsMessage>)
    ensures Merges(PutAll([], all), all) && DistinctKeys(PutAll([], all))
    decreases |all|
  {
    KeysAreDistinct(all);
    if all != [] {
      var earlier, m := all[..|all| - 1], all[|all| - 1];
      PutAllMerges(earlier);
      KeysAreDistinct(earlier);
      var before, after := PutAll([], earlier), PutAll([], all);
      var p := PositionOf(before, KeyOf(m));
      assert KeyOf(m) in KeysInOrder(earlier) <==> p < |before| by {
        if KeyOf(m) in KeysInOrder(earlier) {
          var k :| 0 <= k < |KeysInOrder(earlier)| && KeysInOrder(earlier)[k] == KeyOf(m);
          assert KeyOf(before[k]) == KeyOf(m);
        }
      }
      forall i | 0 <= i < |after|
        ensures KeyOf(after[i]) == KeysInOrder(all)[i]
        ensures LastVersion(all, KeyOf(after[i])) == Some(after[i])
      {
        if i != p && i < |before| {
          assert after[i] == before[i] && LastVersion(earlier, KeyOf(before[i])) == Some(before[i]);
          if p < |before| {
            assert KeyOf(before[i]) != KeyOf(before[p]);
          }
        }
      }
    }
  }

  lemma {:induction false} PutAllConcat(s: seq<SmsMessage>, a: seq<SmsMessage>, b: seq<SmsMessage>)
    ensures PutAll(s, a + b) == PutAll(PutAll(s, a), b)
    decreases |b|
  {
    if b == [] {
      assert a + b == a;
    } else {
      PutAllConcat(s, a, b[..|b| - 1]);
      assert (a + b)[..|a + b| - 1] == a + b[..|b| - 1];
    }
  }

  lemma {:induction false} DistinctStays(s: seq<SmsMessage>)
    requires DistinctKeys(s)
    ensures PutAll([], s) == s
    decreases |s|
  {
    if s != [] {
      var front := s[..|s| - 1];
      DistinctStays(front);
      assert front + [s[|s| - 1]] == s;
    }
  }

  lemma {:induction false} ConcatKeys(a: seq<SmsMessage>, b: seq<SmsMessage>)
    requires forall i | 0 <= i < |b| :: KeyOf(b[i]) in KeysInOrder(a)
    ensures KeysInOrder(a + b) == KeysInOrder(a)
    decreases |b|
  {
    if b == [] {
      assert a + b == a;
    } else {
      ConcatKeys(a, b[..|b| - 1]);
      assert (a + b)[..|a + b| - 1] == a + b[..|b| - 1];
    }
  }

  lemma {:induction false} ConcatVersions(a: seq<SmsMessage>, b: seq<SmsMessage>, key: Key)
    ensures LastVersion(a + b, key) == if LastVersion(b, key).Some? then LastVersion(b, key) else LastVersion(a, key)
    decreases |b|
  {
    if b == [] {
      assert a + b == a;
    } else {
      ConcatVersions(a, b[..|b| - 1], key);
      assert (a + b)[..|a + b| - 1] == a + b[..|b| - 1];
    }
  }

  lemma {:induction false} HasKey(s: seq<SmsMessage>, i: nat)
    requires i < |s|
    ensures KeyOf(s[i]) in KeysInOrder(s)
    decreases |s|
  {
    if i < |s| - 1 {
      HasKey(s[..|s| - 1], i);
    }
  }

  function PreviousMessages(previous: Option<SmsMessages>): seq<SmsMessage> {
    if previous.Some? then previous.value.messages else []
  }

  /** What the merge stores; a malformed previous cache counts as absent. */
  function Merge(previous: Option<SmsMessages>, incoming: SmsMessages): SmsMessages {
    SmsMessages(
      PutAll([], PreviousMessages(previous) + incoming.messages),
      if incoming.version.Some? then incoming.version
      else if previous.Some? then previous.value.version
      else None)
  }

  /** Distinct keys, in first-seen order, the last version winning. */
  lemma MergeKeepsLastVersions(previous: Option<SmsMessages>, incoming: SmsMessages)
    ensures Merges(Merge(previous, incoming).messages, PreviousMessages(previous) + incoming.messages)
    ensures DistinctKeys(Merge(previous, incoming).messages)
  {
    PutAllMerges(PreviousMessages(previous) + incoming.messages);
  }

  lemma MergedThenPut(all: seq<SmsMessage>, more: seq<SmsMessage>)
    ensures PutAll([], PutAll([], all) + more) == PutAll([], all + more)
  {
    var merged := PutAll([], all);
    PutAllMerges(all);
    DistinctStays(merged);
    PutAllConcat([], merged, more);
    PutAllConcat([], all, more);
  }

  lemma PutTwice(p: seq<SmsMessage>, b: seq<SmsMessage>)
    ensures PutAll([], (p + b) + b) == PutAll([], p + b)
  {
    var once := p + b;
    var twice := once + b;
    PutAllMerges(once);
    PutAllMerges(twice);
    forall i | 0 <= i < |b|
      ensures KeyOf(b[i]) in KeysInOrder(once)
    {
      HasKey(once, |p| + i);
      assert once[|p| + i] == b[i];
    }
    ConcatKeys(once, b);
    forall key: Key
      ensures LastVersion(twice, key) == LastVersion(once, key)
    {
      ConcatVersions(once, b, key);
      ConcatVersions(p, b, key);
    }
    MergesIsUnique(PutAll([], once), PutAll([], twice), twice);
  }

  /** Merging one packet after the other is merging both at once. */
  lemma MergeIsAssociative(previous: Option<SmsMessages>, a: SmsMessages, b: SmsMessages)
    ensures Merge(Some(Merge(previous, a)), b).messages
            == Merge(previous, SmsMessages(a.messages + b.messages, b.version)).messages
  {
    var p := PreviousMessages(previous);
    MergedThenPut(p + a.messages, b.messages);
    assert p + a.messages + b.messages == p + (a.messages + b.messages);
  }

  /** Merging the same packet again changes nothing. */
  lemma RemergeIsNoOp(previous: Option<SmsMessages>, incoming: SmsMessages)
    ensures Merge(Some(Merge(previous, incoming)), incoming) == Merge(previous, incoming)
  {
    var p := PreviousMessages(previous);
    MergedThenPut(p + incoming.messages, incoming.messages);
    PutTwice(p, incoming.messages);
  }

  /** The positions map points at the message with its key. */
  predicate Points(positions: map<Key, nat>, messages: seq<SmsMessage>) {
    && (forall key | key in positions :: positions[key] < |messages| && KeyOf(messages[positions[key]]) == key)
    && (forall i | 0 <= i < |messages| :: KeyOf(messages[i]) in positions && positions[KeyOf(messages[i])] == i)
  }

  lemma PointsToPosition(positions: map<Key, nat>, messages: seq<SmsMessage>, key: Key)
    requires Points(positions, messages)
    ensures PositionOf(messages, key) == if key in positions then positions[key] else |messages|
  {
    var p := PositionOf(messages, key);
    if p < |messages| {
      assert positions[KeyOf(messages[p])] == p;
    }
  }

  lemma PutSnoc(all: seq<SmsMessage>, i: nat)
    requires i < |all|
    ensures PutAll([], all[..i + 1]) == Put(PutAll([], all[..i]), all[i])
  {
    assert all[..i + 1][..i] == all[..i];
  }

  lemma PutKeepsPoints(positions: map<Key, nat>, messages: seq<SmsMessage>, m: SmsMessage)
    requires Points(positions, messages)
    ensures var key := KeyOf(m);
            if key in positions then
              && Put(messages, m) == messages[positions[key] := m] && Points(positions, Put(messages, m))
            else
              && Put(messages, m) == messages + [m] && Points(positions[key := |messages|], Put(messages, m))
  {
    PointsToPosition(positions, messages, KeyOf(m));
  }

  /** The messages are versions of one message of one thread. */
  predicate SameSlot(a: SmsMessage, b: SmsMessage) {
    a.threadId == b.threadId && a.id == b.id
  }

  predicate LastOfSlot(all: seq<SmsMessage>, i: nat)
    requires i < |all|
  {
    forall k | i < k < |all| :: !SameSlot(all[k], all[i])
  }

  lemma {:induction false} LastVersionIsLast(all: seq<SmsMessage>, key: Key) returns (i: nat)
    requires LastVersion(all, key).Some?
    ensures i < |all| && all[i] == LastVersion(all, key).value && KeyOf(all[i]) == key && LastOfSlot(all, i)
    decreases |all|
  {
    var last := |all| - 1;
    if KeyOf(all[last]) == key {
      i := last;
    } else {
      i := LastVersionIsLast(all[..last], key);
      forall k | i < k < |all|
        ensures !SameSlot(all[k], all[i])
      {
        assert k < last ==> all[..last][k] == all[k];
      }
    }
  }

  predicate SlotsApart(merged: seq<SmsMessage>) {
    forall i, j | 0 <= i < j < |merged| :: !SameSlot(merged[i], merged[j])
  }

  /** Every message has a version in the merge. */
  predicate CoversSlots(merged: seq<SmsMessage>, all: seq<SmsMessage>) {
    forall i | 0 <= i < |all| :: exists j | 0 <= j < |merged| :: SameSlot(all[i], merged[j])
  }

  /** Everything in the merge is the last version of its slot. */
  predicate HoldsLast(merged: seq<SmsMessage>, all: seq<SmsMessage>) {
    forall j | 0 <= j < |merged| :: IsLastIn(all, merged[j])
  }

  predicate IsLastIn(all: seq<SmsMessage>, m: SmsMessage) {
    exists i | 0 <= i < |all| :: all[i] == m && LastOfSlot(all, i)
  }

  lemma MergedSlotsApart(merged: seq<SmsMessage>)
    requires DistinctKeys(merged)
    ensures SlotsApart(merged)
  {
    forall i, j | 0 <= i < j < |merged|
      ensures !SameSlot(merged[i], merged[j])
    {
      assert KeyOf(merged[i]) != KeyOf(merged[j]);
    }
  }

  lemma MergedCoversSlots(merged: seq<SmsMessage>, all: seq<SmsMessage>)
    requires Merges(merged, all)
    ensures CoversSlots(merged, all)
  {
    forall i | 0 <= i < |all|
      ensures exists j | 0 <= j < |merged| :: SameSlot(all[i], merged[j])
    {
      HasKey(all, i);
      var j :| 0 <= j < |KeysInOrder(all)| && KeysInOrder(all)[j] == KeyOf(all[i]);
      assert KeyOf(merged[j]) == KeyOf(all[i]);
      assert SameSlot(all[i], merged[j]);
    }
  }

  lemma MergedHoldsLast(merged: seq<SmsMessage>, all: seq<SmsMessage>)
    requires Merges(merged, all)
    ensures HoldsLast(merged, all)
  {
    forall j | 0 <= j < |merged|
      ensures IsLastIn(all, merged[j])
    {
      var i := LastVersionIsLast(all, KeyOf(merged[j]));
      assert all[i] == merged[j] && LastOfSlot(all, i);
    }
  }

  /** The merge, told by the messages' threads and ids. */
  ghost predicate BySlot(merged: seq<SmsMessage>, all: seq<SmsMessage>) {
    SlotsApart(merged) && CoversSlots(merged, all) && HoldsLast(merged, all)
  }

  lemma MergeBySlot(merged: seq<SmsMessage>, all: seq<SmsMessage>)
    requires Merges(merged, all) && DistinctKeys(merged)
    ensures BySlot(merged, all)
  {
    MergedSlotsApart(merged);
    MergedCoversSlots(merged, all);
    MergedHoldsLast(merged, all);
  }

  /** What the cache holds afterwards, and the version it carries. */
  method MergeSmsCache(previous: Option<SmsMessages>, incoming: SmsMessages) returns (merged: SmsMessages)
    ensures merged == Merge(previous, incoming)
    ensures BySlot(merged.messages, PreviousMessages(previous) + incoming.messages)
    ensures incoming.version.Some? ==> merged.version == incoming.version
    ensures incoming.version.None? ==> merged.version == if previous.Some? then previous.value.version else None
  {
    MergeKeepsLastVersions(previous, incoming);
    MergeBySlot(Merge(previous, incoming).messages, PreviousMessages(previous) + incoming.messages);
    merged := MergeMessages(previous, incoming);
  }

  /** The one pass over both batches. */
  method MergeMessages(previous: Option<SmsMessages>, incoming: SmsMessages) returns (merged: SmsMessages)
    ensures merged == Merge(previous, incoming)
  {
    var all := PreviousMessages(previous) + incoming.messages;
    var positions: map<Key, nat> := map[];
    var messages: seq<SmsMessage> := [];
    for i := 0 to |all|
      invariant Points(positions, messages)
      invariant messages == PutAll([], all[..i])
    {
      var message := all[i];
      var key := KeyOf(message);
      PutSnoc(all, i);
      PutKeepsPoints(positions, messages, message);
      if key in positions {
        messages := messages[positions[key] := message];
      } else {
        positions := positions[key := |messages|];
        messages := messages + [message];
      }
    }
    assert all[..|all|] == all;
    var version := incoming.version;
    if version.None? && previous.Some? {
      version := previous.value.version;
    }
    merged := SmsMessages(messages, version);
  }

  // --- The unread summary --------------------------------------------------------------------

  predicate Unread(m: SmsMessage) {
    m.read == 0
  }

  /** Newer than what was seen of its thread, or unread in a thread that was never opened. The
      last-seen times are keyed by thread. */
  predicate Calls(lastSeen: map<int, int>, m: SmsMessage) {
    if m.threadId in lastSeen then m.date > lastSeen[m.threadId] else Unread(m)
  }

  predicate Latest(messages: seq<SmsMessage>, m: SmsMessage) {
    m in messages && forall o | o in messages && o.threadId == m.threadId :: o.date <= m.date
  }

  /** Some thread's latest date is newer than what was seen, or the thread was never opened and
      a message of its latest date is unread. */
  predicate SomethingUnread(messages: seq<SmsMessage>, lastSeen: map<int, int>) {
    exists m | m in messages ::
      Latest(messages, m) && Calls(lastSeen, m)
  }

  /** The summary does not depend on the order of the messages, nor on repetitions. */
  lemma UnreadIgnoresOrder(a: seq<SmsMessage>, b: seq<SmsMessage>, lastSeen: map<int, int>)
    requires forall m :: m in a <==> m in b
    ensures SomethingUnread(a, lastSeen) <==> SomethingUnread(b, lastSeen)
  {
    if SomethingUnread(a, lastSeen) {
      var m :| m in a && Latest(a, m) && Calls(lastSeen, m);
      assert m in b && Latest(b, m);
    }
    if SomethingUnread(b, lastSeen) {
      var m :| m in b && Latest(b, m) && Calls(lastSeen, m);
      assert m in a && Latest(a, m);
    }
  }

  /** An entry holds its thread's latest date and whether a message of that date is unread. */
  ghost predicate Summarises(entry: (int, bool), messages: seq<SmsMessage>, thread: int) {
    && (exists m | m in messages :: m.threadId == thread && m.date == entry.0)
    && (forall m | m in messages && m.threadId == thread :: m.date <= entry.0)
    && (entry.1 <==> exists m | m in messages :: m.threadId == thread && m.date == entry.0 && Unread(m))
  }

  ghost predicate AllSummarised(latest: map<int, (int, bool)>, messages: seq<SmsMessage>) {
    && (forall m | m in messages :: m.threadId in latest)
    && (forall thread | thread in latest :: Summarises(latest[thread], messages, thread))
  }

  /** One entry after one more message. */
  function Newer(latest: map<int, (int, bool)>, m: SmsMessage): (int, bool) {
    if m.threadId !in latest || m.date > latest[m.threadId].0 then (m.date, Unread(m))
    else if m.date == latest[m.threadId].0 && Unread(m) then (m.date, true)
    else latest[m.threadId]
  }

  lemma NewerSummarises(latest: map<int, (int, bool)>, messages: seq<SmsMessage>, m: SmsMessage)
    requires AllSummarised(latest, messages)
    ensures AllSummarised(latest[m.threadId := Newer(latest, m)], messages + [m])
  {
    var after, all := latest[m.threadId := Newer(latest, m)], messages + [m];
    assert forall o :: o in all <==> o in messages || o == m;
    forall thread | thread in after
      ensures Summarises(after[thread], all, thread)
    {
      if thread != m.threadId || thread in latest {
        assert Summarises(latest[thread], messages, thread);
      }
    }
  }

  method HasUnread(data: Option<SmsMessages>, lastSeen: map<int, int>) returns (unread: bool)
    ensures unread <==> data.Some? && SomethingUnread(data.value.messages, lastSeen)
  {
    if data.None? {
      return false;
    }
    var latest := LatestByThread(data.value.messages);
    unread := exists thread | thread in latest ::
      if thread in lastSeen then latest[thread].0 > lastSeen[thread] else latest[thread].1;
    SummaryDecides(latest, data.value.messages, lastSeen);
  }

  /** The one pass over the messages. */
  method LatestByThread(messages: seq<SmsMessage>) returns (latest: map<int, (int, bool)>)
    ensures AllSummarised(latest, messages)
  {
    latest := map[];
    for i := 0 to |messages|
      invariant AllSummarised(latest, messages[..i])
    {
      var m := messages[i];
      NewerSummarises(latest, messages[..i], m);
      var entry := if m.threadId in latest then latest[m.threadId] else (m.date, m.read == 0);
      if m.date > entry.0 {
        entry := (m.date, m.read == 0);
      } else if m.date == entry.0 && m.read == 0 {
        entry := (entry.0, true);
      }
      assert entry == Newer(latest, m) && messages[..i + 1] == messages[..i] + [m];
      latest := latest[m.threadId := entry];
    }
    assert messages[..|messages|] == messages;
  }

  lemma SummaryDecides(latest: map<int, (int, bool)>, messages: seq<SmsMessage>, lastSeen: map<int, int>)
    requires AllSummarised(latest, messages)
    ensures SomethingUnread(messages, lastSeen) <==>
              exists thread | thread in latest ::
                if thread in lastSeen then latest[thread].0 > lastSeen[thread] else latest[thread].1
  {
    if SomethingUnread(messages, lastSeen) {
      var m :| m in messages && Latest(messages, m) && Calls(lastSeen, m);
      assert Summarises(latest[m.threadId], messages, m.threadId);
    }
    if thread :| thread in latest
                 && (if thread in lastSeen then latest[thread].0 > lastSeen[thread] else latest[thread].1) {
      assert Summarises(latest[thread], messages, thread);
      if thread in lastSeen {
        var m :| m in messages && m.threadId == thread && m.date == latest[thread].0;
        assert Latest(messages, m);
      } else {
        var m :| m in messages && m.threadId == thread && m.date == latest[thread].0 && Unread(m);
        assert Latest(messages, m);
      }
    }
  }

  // --- What the documentation of the summary says ----------------------------------------------

  /** Some message is newer than what was seen of its thread, or is unread in a thread that was
      never opened. */
  predicate Documented(messages: seq<SmsMessage>, lastSeen: map<int, int>) {
    exists m | m in messages :: Calls(lastSeen, m)
  }

  predicate DocumentedThread(messages: seq<SmsMessage>, lastSeen: map<int, int>, thread: int) {
    exists m | m in messages :: m.threadId == thread && Calls(lastSeen, m)
  }

  predicate UnreadThread(messages: seq<SmsMessage>, lastSeen: map<int, int>, thread: int) {
    exists m | m in messages :: m.threadId == thread && Latest(messages, m) && Calls(lastSeen, m)
  }

  /** A thread never opened with an unread message, but none at its latest date. */
  predicate Hides(messages: seq<SmsMessage>, lastSeen: map<int, int>, thread: int) {
    && thread !in lastSeen
    && (exists m | m in messages :: m.threadId == thread && Unread(m))
    && (forall m | m in messages && m.threadId == thread && Latest(messages, m) :: !Unread(m))
  }

  lemma {:induction false} ThreadHasLatest(messages: seq<SmsMessage>, m: SmsMessage) returns (l: SmsMessage)
    requires m in messages
    ensures Latest(messages, l) && l.threadId == m.threadId && l.date >= m.date
    decreases |messages|
  {
    var front, last := messages[..|messages| - 1], messages[|messages| - 1];
    assert forall o :: o in messages <==> o in front || o == last;
    if m in front {
      l := ThreadHasLatest(front, m);
      if last.threadId == m.threadId && last.date > l.date {
        l := last;
      }
    } else if o :| o in front && o.threadId == last.threadId {
      l := ThreadHasLatest(front, o);
      if last.date > l.date {
        l := last;
      }
    } else {
      l := last;
    }
  }

  /** For each thread the code says less than its documentation exactly when the thread hides
      an unread message, and never more. */
  lemma ThreadMeetsDocumentation(messages: seq<SmsMessage>, lastSeen: map<int, int>, thread: int)
    ensures UnreadThread(messages, lastSeen, thread) ==> DocumentedThread(messages, lastSeen, thread)
    ensures (UnreadThread(messages, lastSeen, thread) <==> DocumentedThread(messages, lastSeen, thread))
            <==> !Hides(messages, lastSeen, thread)
  {
    if DocumentedThread(messages, lastSeen, thread) && thread in lastSeen {
      var m :| m in messages && m.threadId == thread && Calls(lastSeen, m);
      var l := ThreadHasLatest(messages, m);
      assert l in messages && Calls(lastSeen, l);
    }
  }

  /** The summary is true only if its documentation says so, and differs from it exactly when it
      is false although some thread hides an unread message. */
  lemma UnreadMeetsDocumentation(messages: seq<SmsMessage>, lastSeen: map<int, int>)
    ensures SomethingUnread(messages, lastSeen) ==> Documented(messages, lastSeen)
    ensures (SomethingUnread(messages, lastSeen) <==> Documented(messages, lastSeen))
            <==> SomethingUnread(messages, lastSeen) || forall thread: int :: !Hides(messages, lastSeen, thread)
  {
    if Documented(messages, lastSeen) {
      var m :| m in messages && Calls(lastSeen, m);
      ThreadMeetsDocumentation(messages, lastSeen, m.threadId);
      assert DocumentedThread(messages, lastSeen, m.threadId);
    }
    forall thread: int | Hides(messages, lastSeen, thread)
      ensures Documented(messages, lastSeen)
    {
      var m :| m in messages && m.threadId == thread && Unread(m);
      assert Calls(lastSeen, m);
    }
  }

  /** An unread message before a read one, in a thread never opened, is not reported. */
  lemma UnreadCanBeHidden()
    ensures var messages := [SmsMessage(1, 1, 10, 0, ""), SmsMessage(1, 2, 20, 1, "")];
            Documented(messages, map[]) && !SomethingUnread(messages, map[])
  {
    var unread, read := SmsMessage(1, 1, 10, 0, ""), SmsMessage(1, 2, 20, 1, "");
    var messages := [unread, read];
    assert unread in messages && Calls(map[], unread);
    assert read in messages && read.date > unread.date;
  }
}
