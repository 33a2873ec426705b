/** Batches of messages in the SMS window (plugins/sms/app.rs): one pass over the batch, one sort
    at the end, and no change when the same batch arrives again. */
module SmsWindow {
  import opened Common
  import opened Decimals
  import opened SmsIndex
  import opened StableSort

  /** The parts of a conversation a message updates. */
  datatype Conversation = Conversation(threadId: string, lastMessage: string, timestamp: int, unread: bool)

  datatype Window = Window(
    messages: seq<Message>,
    conversations: seq<Conversation>,
    lastSeen: map<string, int>,
    selected: Option<string>,
    hidden: set<string>)

  // --- One message -------------------------------------------------------------------------

  function Position(conversations: seq<Conversation>, threadId: string): (i: nat)
    ensures i <= |conversations|
    ensures i < |conversations| ==> conversations[i].threadId == threadId
    ensures forall j | 0 <= j < i :: conversations[j].threadId != threadId
  {
    if conversations == [] || conversations[0].threadId == threadId then 0
    else 1 + Position(conversations[1..], threadId)
  }

  function Updated(c: Conversation, m: Message, selectedNow: bool): Conversation {
    var preview := if m.date >= c.timestamp then c.(lastMessage := m.body, timestamp := m.date) else c;
    if !selectedNow && m.kind != 2 then preview.(unread := true) else preview
  }

  function Seen(lastSeen: map<string, int>, m: Message): map<string, int> {
    var before := if m.threadId in lastSeen then lastSeen[m.threadId] else 0;
    lastSeen[m.threadId := if before > m.date then before else m.date]
  }

  predicate Shown(w: Window, m: Message) {
    m.threadId !in w.hidden && w.selected == Some(m.threadId)
  }

  function Deliver(w: Window, m: Message): Window {
    if m.threadId in w.hidden then w
    else
      var selectedNow := w.selected == Some(m.threadId);
      var i := Position(w.conversations, m.threadId);
      var w' := if selectedNow then w.(lastSeen := Seen(w.lastSeen, m), messages := Scan(w.messages, m)) else w;
      if i < |w.conversations| then
        w'.(conversations := w.conversations[i := Updated(w.conversations[i], m, selectedNow)])
      else w'
  }

  function DeliverAll(w: Window, batch: seq<Message>): Window
    decreases |batch|
  {
    if batch == [] then w else Deliver(DeliverAll(w, batch[..|batch| - 1]), batch[|batch| - 1])
  }

  function Dates(m: Message): int {
    m.date
  }

  function Recency(c: Conversation): int {
    -c.timestamp
  }

  /** The whole batch, then one sort of the open thread and one of the conversations. */
  function Handle(w: Window, batch: seq<Message>): Window {
    var delivered := DeliverAll(w, batch);
    delivered.(
      messages := if w.selected.Some? then SortBy(delivered.messages, Dates) else delivered.messages,
      conversations := SortBy(delivered.conversations, Recency))
  }

  predicate FromPhone(batch: seq<Message>) {
    forall i | 0 <= i < |batch| :: !IsSendingId(batch[i].id)
  }

  predicate DistinctThreads(conversations: seq<Conversation>) {
    forall i, j | 0 <= i < j < |conversations| :: conversations[i].threadId != conversations[j].threadId
  }

  // --- The open thread ---------------------------------------------------------------------

  lemma ScanKeepsDistinct(messages: seq<Message>, m: Message)
    requires DistinctIds(messages)
    ensures DistinctIds(Scan(messages, m))
  {
  }

  /** A phone message is known once scanned, and stays known. */
  lemma ScanKnows(messages: seq<Message>, m: Message, id: string)
    requires !IsSendingId(id)
    ensures Knows(Scan(messages, m), m.id)
    ensures Knows(messages, id) ==> Knows(Scan(messages, m), id)
  {
    var after := Scan(messages, m);
    if !Knows(messages, m.id) {
      var echoed := FirstEchoed(messages, m);
      assert after[if echoed.Some? then echoed.value else |messages|].id == m.id;
    }
    if Knows(messages, id) {
      var i :| 0 <= i < |messages| && messages[i].id == id;
      assert after[i].id == id;
    }
  }

  /** Every shown message of the batch is known to the window. */
  predicate AllKnown(w: Window, batch: seq<Message>) {
    forall i | 0 <= i < |batch| && Shown(w, batch[i]) :: Knows(w.messages, batch[i].id)
  }

  /** Every shown message of the batch is accounted for in the last-seen time of its thread. */
  predicate AllSeen(w: Window, batch: seq<Message>) {
    forall i | 0 <= i < |batch| && Shown(w, batch[i]) ::
      batch[i].threadId in w.lastSeen && batch[i].date <= w.lastSeen[batch[i].threadId]
  }

  /** What a batch leaves in the window. */
  predicate Knowing(w: Window, batch: seq<Message>) {
    DistinctIds(w.messages) && AllKnown(w, batch) && AllSeen(w, batch)
  }

  predicate SameSettings(w: Window, w': Window) {
    && w'.selected == w.selected && w'.hidden == w.hidden
    && |w'.conversations| == |w.conversations|
    && (w.selected.None? ==> w'.messages == w.messages && w'.lastSeen == w.lastSeen)
  }

  lemma DeliverKnows(w: Window, batch: seq<Message>, m: Message)
    requires Knowing(w, batch) && FromPhone(batch) && !IsSendingId(m.id)
    ensures Knowing(Deliver(w, m), batch + [m])
  {
    var w', all := Deliver(w, m), batch + [m];
    ScanKeepsDistinct(w.messages, m);
    forall i | 0 <= i < |all| && Shown(w', all[i])
      ensures Knows(w'.messages, all[i].id)
    {
      ScanKnows(w.messages, m, all[i].id);
      assert i < |batch| ==> all[i] == batch[i] && Shown(w, batch[i]);
    }
    forall i | 0 <= i < |all| && Shown(w', all[i])
      ensures all[i].threadId in w'.lastSeen && all[i].date <= w'.lastSeen[all[i].threadId]
    {
      assert i < |batch| ==> all[i] == batch[i] && Shown(w, batch[i]);
    }
  }

  lemma DeliverKeepsSettings(w: Window, m: Message)
    ensures SameSettings(w, Deliver(w, m))
  {
  }

  lemma {:induction false} BatchIsKnown(w: Window, batch: seq<Message>)
    requires DistinctIds(w.messages) && FromPhone(batch)
    ensures Knowing(DeliverAll(w, batch), batch) && SameSettings(w, DeliverAll(w, batch))
    decreases |batch|
  {
    if batch != [] {
      var earlier, m := batch[..|batch| - 1], batch[|batch| - 1];
      assert earlier + [m] == batch && !IsSendingId(m.id);
      BatchIsKnown(w, earlier);
      DeliverKnows(DeliverAll(w, earlier), earlier, m);
      DeliverKeepsSettings(DeliverAll(w, earlier), m);
    }
  }

  function SeenOf(w: Window, threadId: string): int {
    if threadId in w.lastSeen then w.lastSeen[threadId] else 0
  }

  /** A batch takes the last-seen time of the open thread to the latest of its dates, unless it was
      later already, and no other thread's; before any message it is zero. */
  lemma {:induction false} BatchSees(w: Window, batch: seq<Message>, threadId: string)
    ensures var now := SeenOf(DeliverAll(w, batch), threadId);
            && (forall i | 0 <= i < |batch| && Shown(w, batch[i]) && batch[i].threadId == threadId ::
                  batch[i].date <= now)
            && SeenOf(w, threadId) <= now
            && (now == SeenOf(w, threadId)
                || exists i | 0 <= i < |batch| ::
                     Shown(w, batch[i]) && batch[i].threadId == threadId && batch[i].date == now)
    decreases |batch|
  {
    if batch != [] {
      var earlier, m := batch[..|batch| - 1], batch[|batch| - 1];
      BatchSees(w, earlier, threadId);
      SettingsStay(w, earlier);
      assert forall i | 0 <= i < |earlier| :: batch[i] == earlier[i];
      assert batch[|earlier|] == m;
    }
  }

  lemma {:induction false} SettingsStay(w: Window, batch: seq<Message>)
    ensures SameSettings(w, DeliverAll(w, batch))
    decreases |batch|
  {
    if batch != [] {
      SettingsStay(w, batch[..|batch| - 1]);
      DeliverKeepsSettings(DeliverAll(w, batch[..|batch| - 1]), batch[|batch| - 1]);
    }
  }

  /** A batch already known and seen leaves the open thread and the last-seen times alone. */
  lemma {:induction false} KnownBatchIsNoOp(w: Window, batch: seq<Message>)
    requires AllKnown(w, batch) && AllSeen(w, batch)
    ensures var w' := DeliverAll(w, batch);
            w'.messages == w.messages && w'.lastSeen == w.lastSeen && w'.selected == w.selected && w'.hidden == w.hidden
    decreases |batch|
  {
    if batch != [] {
      var earlier, m := batch[..|batch| - 1], batch[|batch| - 1];
      assert forall i | 0 <= i < |earlier| :: batch[i] == earlier[i];
      KnownBatchIsNoOp(w, earlier);
    }
  }

  lemma SortingKeepsKnown(w: Window, batch: seq<Message>, sorted: seq<Message>)
    requires AllKnown(w, batch) && AllSeen(w, batch) && multiset(sorted) == multiset(w.messages)
    ensures AllKnown(w.(messages := sorted), batch) && AllSeen(w.(messages := sorted), batch)
  {
    var w' := w.(messages := sorted);
    forall i | 0 <= i < |batch| && Shown(w', batch[i])
      ensures Knows(sorted, batch[i].id)
    {
      assert Shown(w, batch[i]);
      var k :| 0 <= k < |w.messages| && w.messages[k].id == batch[i].id;
      assert w.messages[k] in multiset(sorted);
      var j :| 0 <= j < |sorted| && sorted[j] == w.messages[k];
    }
  }

  // --- The conversations ---------------------------------------------------------------------

  /** What the batch does to one conversation, independently of all others. */
  function Fold(c: Conversation, w: Window, batch: seq<Message>): Conversation
    decreases |batch|
  {
    if batch == [] then c
    else
      var m := batch[|batch| - 1];
      var earlier := Fold(c, w, batch[..|batch| - 1]);
      if m.threadId == c.threadId && m.threadId !in w.hidden
      then Updated(earlier, m, w.selected == Some(m.threadId))
      else earlier
  }

  lemma {:induction false} FoldKeepsThread(c: Conversation, w: Window, batch: seq<Message>)
    ensures Fold(c, w, batch).threadId == c.threadId
    decreases |batch|
  {
    if batch != [] {
      FoldKeepsThread(c, w, batch[..|batch| - 1]);
    }
  }

  /** With distinct threads, each conversation only sees the messages of its own thread. */
  lemma {:induction false} DeliverFolds(w: Window, batch: seq<Message>)
    requires DistinctThreads(w.conversations)
    ensures var w' := DeliverAll(w, batch);
            && w'.hidden == w.hidden && w'.selected == w.selected
            && |w'.conversations| == |w.conversations|
            && forall i | 0 <= i < |w.conversations| :: w'.conversations[i] == Fold(w.conversations[i], w, batch)
    decreases |batch|
  {
    if batch != [] {
      var earlier, m := batch[..|batch| - 1], batch[|batch| - 1];
      DeliverFolds(w, earlier);
      var w1 := DeliverAll(w, earlier);
      var p := Position(w1.conversations, m.threadId);
      forall i | 0 <= i < |w.conversations|
        ensures Deliver(w1, m).conversations[i] == Fold(w.conversations[i], w, batch)
      {
        FoldKeepsThread(w.conversations[i], w, earlier);
        assert w1.conversations[i] == Fold(w.conversations[i], w, earlier);
        if p < |w1.conversations| {
          FoldKeepsThread(w.conversations[p], w, earlier);
          assert w1.conversations[p].threadId == w.conversations[p].threadId;
        }
      }
    }
  }

  predicate Concerns(w: Window, c: Conversation, m: Message) {
    m.threadId == c.threadId && m.threadId !in w.hidden
  }

  predicate Marks(w: Window, c: Conversation, m: Message) {
    Concerns(w, c, m) && w.selected != Some(m.threadId) && m.kind != 2
  }

  /** The body of the last message of the conversation dated `date`. */
  function LastAt(w: Window, c: Conversation, batch: seq<Message>, date: int): Option<string>
    decreases |batch|
  {
    if batch == [] then None
    else
      var m := batch[|batch| - 1];
      if Concerns(w, c, m) && m.date == date then Some(m.body) else LastAt(w, c, batch[..|batch| - 1], date)
  }

  /** What a conversation `c` must look like after the batch: at the latest date, showing the last
      message of that date, and unread if it was or a message marks it. */
  predicate Previews(w: Window, c: Conversation, f: Conversation, batch: seq<Message>) {
    && f.threadId == c.threadId && c.timestamp <= f.timestamp
    && (forall i | 0 <= i < |batch| && Concerns(w, c, batch[i]) :: batch[i].date <= f.timestamp)
    && (var last := LastAt(w, c, batch, f.timestamp);
        if last.Some? then f.lastMessage == last.value
        else f.timestamp == c.timestamp && f.lastMessage == c.lastMessage)
    && (f.unread <==> c.unread || exists i | 0 <= i < |batch| :: Marks(w, c, batch[i]))
  }

  lemma {:induction false} FoldEnds(c: Conversation, w: Window, batch: seq<Message>)
    ensures Previews(w, c, Fold(c, w, batch), batch)
    decreases |batch|
  {
    if batch != [] {
      var earlier, m := batch[..|batch| - 1], batch[|batch| - 1];
      FoldEnds(c, w, earlier);
      var before, f := Fold(c, w, earlier), Fold(c, w, batch);
      assert forall i | 0 <= i < |earlier| :: batch[i] == earlier[i];
      assert f.unread <==> c.unread || exists i | 0 <= i < |batch| :: Marks(w, c, batch[i]) by {
        if before.unread && !c.unread {
          var i :| 0 <= i < |earlier| && Marks(w, c, earlier[i]);
          assert Marks(w, c, batch[i]);
        }
        if Marks(w, c, m) {
          assert Marks(w, c, batch[|batch| - 1]);
        }
      }
      if f.timestamp != before.timestamp {
        NoneLater(c, w, earlier, f.timestamp);
      }
    }
  }

  lemma {:induction false} NoneLater(c: Conversation, w: Window, batch: seq<Message>, date: int)
    requires forall i | 0 <= i < |batch| && Concerns(w, c, batch[i]) :: batch[i].date < date
    ensures LastAt(w, c, batch, date).None?
    decreases |batch|
  {
    if batch != [] {
      assert forall i | 0 <= i < |batch| - 1 :: batch[i] == batch[..|batch| - 1][i];
      NoneLater(c, w, batch[..|batch| - 1], date);
    }
  }

  lemma {:induction false} SameConcerns(c: Conversation, d: Conversation, w: Window, batch: seq<Message>, date: int)
    requires c.threadId == d.threadId
    ensures LastAt(w, c, batch, date) == LastAt(w, d, batch, date)
    decreases |batch|
  {
    if batch != [] {
      SameConcerns(c, d, w, batch[..|batch| - 1], date);
    }
  }

  lemma FoldTwice(c: Conversation, w: Window, batch: seq<Message>)
    ensures Fold(Fold(c, w, batch), w, batch) == Fold(c, w, batch)
  {
    var f := Fold(c, w, batch);
    var g := Fold(f, w, batch);
    FoldEnds(c, w, batch);
    FoldEnds(f, w, batch);
    SameConcerns(c, f, w, batch, f.timestamp);
    SameConcerns(c, f, w, batch, g.timestamp);
    assert forall i | 0 <= i < |batch| :: Marks(w, c, batch[i]) == Marks(w, f, batch[i]);
    assert forall i | 0 <= i < |batch| :: Concerns(w, c, batch[i]) == Concerns(w, f, batch[i]);
    if g.timestamp > f.timestamp {
      NoneLater(f, w, batch, g.timestamp);
    }
  }

  lemma {:induction false} FoldDependsOnSettings(c: Conversation, w: Window, v: Window, batch: seq<Message>)
    requires w.selected == v.selected && w.hidden == v.hidden
    ensures Fold(c, w, batch) == Fold(c, v, batch)
    decreases |batch|
  {
    if batch != [] {
      FoldDependsOnSettings(c, w, v, batch[..|batch| - 1]);
    }
  }

  // --- The batch -----------------------------------------------------------------------------

  /** The messages of one date, in order. */
  function OfDate(messages: seq<Message>, date: int): seq<Message> {
    Filter(messages, AtKey(Dates, date))
  }

  /** After a batch the ids and threads are distinct and, with a thread open, its messages are
      the scanned ones in order of their dates; those of one date keep their order. */
  lemma BatchKeepsOrder(w: Window, batch: seq<Message>)
    requires DistinctIds(w.messages) && DistinctThreads(w.conversations) && FromPhone(batch)
    ensures var w' := Handle(w, batch);
            && DistinctIds(w'.messages) && DistinctThreads(w'.conversations)
            && multiset(w'.messages) == multiset(DeliverAll(w, batch).messages)
            && (w.selected.Some? ==> SortedBy(w'.messages, Dates))
            && SortedBy(w'.conversations, Recency)
            && AllKnown(w', batch) && AllSeen(w', batch)
    ensures forall date: int :: OfDate(Handle(w, batch).messages, date) == OfDate(DeliverAll(w, batch).messages, date)
  {
    var d := DeliverAll(w, batch);
    forall date: int
      ensures OfDate(Handle(w, batch).messages, date) == OfDate(d.messages, date)
    {
      SortIsStable(d.messages, Dates, date);
    }
    BatchIsKnown(w, batch);
    DeliverFolds(w, batch);
    Sorts(d.messages, Dates);
    Sorts(d.conversations, Recency);
    SortKeepsDistinct(d.messages, Dates, (m: Message) => m.id);
    forall i | 0 <= i < |d.conversations|
      ensures d.conversations[i].threadId == w.conversations[i].threadId
    {
      FoldKeepsThread(w.conversations[i], w, batch);
    }
    SortKeepsDistinct(d.conversations, Recency, (c: Conversation) => c.threadId);
    SortingKeepsKnown(d, batch, Handle(w, batch).messages);
  }

  /** The conversations are the old ones, each as the batch leaves it. */
  ghost predicate Previewed(w: Window, now: seq<Conversation>, batch: seq<Message>) {
    && |now| == |w.conversations|
    && forall c | c in w.conversations :: exists f | f in now :: Previews(w, c, f, batch)
  }

  lemma BatchPreviews(w: Window, batch: seq<Message>)
    requires DistinctThreads(w.conversations)
    ensures Previewed(w, Handle(w, batch).conversations, batch)
  {
    var d, now := DeliverAll(w, batch).conversations, Handle(w, batch).conversations;
    DeliverFolds(w, batch);
    Sorts(d, Recency);
    forall c | c in w.conversations
      ensures exists f | f in now :: Previews(w, c, f, batch)
    {
      FoldEnds(c, w, batch);
      var i :| 0 <= i < |w.conversations| && w.conversations[i] == c;
      assert d[i] == Fold(c, w, batch) && d[i] in multiset(now);
    }
  }

  /** Newest conversation first, oldest message first. */
  predicate Arranged(conversations: seq<Conversation>, messages: seq<Message>) {
    && (forall i, j | 0 <= i < j < |conversations| :: conversations[i].timestamp >= conversations[j].timestamp)
    && (forall i, j | 0 <= i < j < |messages| :: messages[i].date <= messages[j].date)
  }

  lemma SortsArrange(conversations: seq<Conversation>, messages: seq<Message>)
    ensures Arranged(SortBy(conversations, Recency), SortBy(messages, Dates))
  {
    var c, m := SortBy(conversations, Recency), SortBy(messages, Dates);
    Sorts(conversations, Recency);
    Sorts(messages, Dates);
    forall i, j | 0 <= i < j < |c|
      ensures c[i].timestamp >= c[j].timestamp
    {
      assert Recency(c[i]) <= Recency(c[j]);
    }
    forall i, j | 0 <= i < j < |m|
      ensures m[i].date <= m[j].date
    {
      assert Dates(m[i]) <= Dates(m[j]);
    }
  }

  /** All that a batch must leave behind. */
  ghost predicate Settles(w: Window, now: Window, batch: seq<Message>) {
    && Arranged(now.conversations, if w.selected.Some? then now.messages else [])
    && (DistinctThreads(w.conversations) ==>
          Previewed(w, now.conversations, batch) && AllKnown(now, batch) && AllSeen(now, batch))
  }

  lemma BatchSettles(w: Window, batch: seq<Message>)
    requires DistinctIds(w.messages) && FromPhone(batch)
    ensures Settles(w, Handle(w, batch), batch)
  {
    SortsArrange(DeliverAll(w, batch).conversations, DeliverAll(w, batch).messages);
    if DistinctThreads(w.conversations) {
      BatchPreviews(w, batch);
      BatchKeepsOrder(w, batch);
    }
  }

  lemma ReplayKeepsConversations(w: Window, batch: seq<Message>)
    requires DistinctIds(w.messages) && DistinctThreads(w.conversations) && FromPhone(batch)
    ensures DeliverAll(Handle(w, batch), batch).conversations == Handle(w, batch).conversations
  {
    var w' := Handle(w, batch);
    var d := DeliverAll(w, batch);
    BatchKeepsOrder(w, batch);
    DeliverFolds(w, batch);
    DeliverFolds(w', batch);
    Sorts(d.conversations, Recency);
    forall i | 0 <= i < |w'.conversations|
      ensures Fold(w'.conversations[i], w', batch) == w'.conversations[i]
    {
      assert w'.conversations[i] in multiset(w'.conversations);
      var k :| 0 <= k < |d.conversations| && d.conversations[k] == w'.conversations[i];
      FoldTwice(w.conversations[k], w, batch);
      FoldDependsOnSettings(w'.conversations[i], w, w', batch);
    }
  }

  /** Handling a batch again changes nothing at all. */
  lemma ReplayedBatchIsNoOp(w: Window, batch: seq<Message>)
    requires DistinctIds(w.messages) && DistinctThreads(w.conversations) && FromPhone(batch)
    ensures Handle(Handle(w, batch), batch) == Handle(w, batch)
  {
    var w' := Handle(w, batch);
    BatchKeepsOrder(w, batch);
    BatchIsKnown(w, batch);
    KnownBatchIsNoOp(w', batch);
    ReplayKeepsConversations(w, batch);
    if w.selected.Some? {
      SortedStays(w'.messages, Dates);
    }
    SortedStays(w'.conversations, Recency);
  }

  // --- Opening and sending -------------------------------------------------------------------

  function Select(w: Window, threadId: string): Window {
    var i := Position(w.conversations, threadId);
    w.(
      selected := Some(threadId), messages := [],
      lastSeen := if i < |w.conversations| then w.lastSeen[threadId := w.conversations[i].timestamp] else w.lastSeen)
  }

  function SendingId(now: nat): string {
    SENDING + Decimal(now)
  }

  function Outgoing(threadId: string, text: string, address: string, now: nat): Message {
    Message(SendingId(now), threadId, text, address, now, 2, true)
  }

  /** A message being sent, shown in the open thread at its place by date. */
  function Sending(w: Window, m: Message): Window {
    var i := Position(w.conversations, m.threadId);
    if w.selected != Some(m.threadId) || i == |w.conversations| then w
    else
      var sent := w.conversations[i].(lastMessage := m.body, timestamp := m.date);
      w.(messages := SortBy(w.messages + [m], Dates), conversations := SortBy(w.conversations[i := sent], Recency))
  }

  lemma SendingKeepsDistinct(messages: seq<Message>, m: Message)
    requires DistinctIds(messages)
    ensures !Knows(messages, m.id) ==> DistinctIds(SortBy(messages + [m], Dates))
  {
    if !Knows(messages, m.id) {
      SortKeepsDistinct(messages + [m], Dates, (x: Message) => x.id);
    }
  }

  lemma SendingAdds(messages: seq<Message>, m: Message)
    ensures var shown := SortBy(messages + [m], Dates);
            && |shown| == |messages| + 1
            && (forall x :: x in shown <==> x in messages || x == m)
  {
    Sorts(messages + [m], Dates);
    var shown := SortBy(messages + [m], Dates);
    forall x
      ensures x in shown <==> x in messages || x == m
    {
      assert x in multiset(shown) <==> x in multiset(messages + [m]);
    }
  }

  /** The message is in the open thread, and previewed. */
  predicate ShowsSent(w: Window, now: Window, m: Message) {
    && |now.messages| == |w.messages| + 1 && m in now.messages && (forall x | x in w.messages :: x in now.messages)
    && Arranged(now.conversations, now.messages)
    && exists c | c in now.conversations :: c.threadId == m.threadId && c.lastMessage == m.body && c.timestamp == m.date
  }

  lemma SendingShows(w: Window, m: Message)
    requires w.selected == Some(m.threadId)
    ensures if exists c | c in w.conversations :: c.threadId == m.threadId
            then ShowsSent(w, Sending(w, m), m) else Sending(w, m) == w
  {
    SendingAdds(w.messages, m);
    var p := Position(w.conversations, m.threadId);
    if p < |w.conversations| {
      var preview := w.conversations[p].(lastMessage := m.body, timestamp := m.date);
      var updated := w.conversations[p := preview];
      SortsArrange(updated, w.messages + [m]);
      Sorts(updated, Recency);
      assert updated[p] == preview;
      assert preview in multiset(updated);
      assert preview in SortBy(updated, Recency);
    }
    if c :| c in w.conversations && c.threadId == m.threadId {
      var i :| 0 <= i < |w.conversations| && w.conversations[i] == c;
      assert Position(w.conversations, m.threadId) <= i;
    }
  }

  /** The phone's confirmation of a message just sent takes its place instead of appearing next
      to it, unless an earlier send of the same text still waits. */
  lemma SentMessageIsFolded(messages: seq<Message>, m: Message, echo: Message)
    requires Optimistic(m) && IsEchoOf(echo, m)
    requires !Knows(messages, echo.id) && echo.id != m.id
    ensures var shown := SortBy(messages + [m], Dates);
            && Folds(shown, echo)
            && |Scan(shown, echo)| == |messages| + 1
            && (FirstEchoed(messages, echo).None? ==> shown[FirstEchoed(shown, echo).value] == m)
  {
    var shown := SortBy(messages + [m], Dates);
    SendingAdds(messages, m);
    forall i | 0 <= i < |shown|
      ensures shown[i].id != echo.id
    {
      assert shown[i] in shown;
    }
    assert m in shown;
    var at :| 0 <= at < |shown| && shown[at] == m;
    assert IsEchoOf(echo, shown[at]);
    var echoed := FirstEchoed(shown, echo);
    assert echoed.Some? && shown[echoed.value] in shown;
  }

  // --- The window ----------------------------------------------------------------------------

  class SmsWindow {
    var conversations: seq<Conversation>
    var selectedThread: Option<string>
    var messages: seq<Message>
    const messageIndex: MessageIndex
    var hiddenConversations: set<string>
    var lastSeenTimestamp: map<string, int>

    function View(): Window
      reads this
    {
      Window(messages, conversations, lastSeenTimestamp, selectedThread, hiddenConversations)
    }

    ghost predicate Valid()
      reads this, messageIndex
    {
      DistinctIds(messages) && messageIndex.IsIndexOf(messages)
    }

    constructor (hidden: set<string>, lastSeen: map<string, int>)
      ensures Valid() && fresh(messageIndex)
      ensures View() == Window([], [], lastSeen, None, hidden)
    {
      conversations, selectedThread, messages := [], None, [];
      messageIndex := new MessageIndex();
      hiddenConversations, lastSeenTimestamp := hidden, lastSeen;
    }

    /** Opening a thread empties the view, which the next batches fill. */
    method SelectThread(threadId: string)
      requires Valid()
      modifies this, messageIndex
      ensures Valid() && View() == Select(old(View()), threadId)
      ensures messages == [] && selectedThread == Some(threadId) && conversations == old(conversations)
      ensures forall other | other != threadId ::
                && (other in lastSeenTimestamp <==> other in old(lastSeenTimestamp))
                && (other in lastSeenTimestamp ==> lastSeenTimestamp[other] == old(lastSeenTimestamp)[other])
      ensures DistinctThreads(conversations) ==>
                forall c | c in conversations && c.threadId == threadId ::
                  threadId in lastSeenTimestamp && lastSeenTimestamp[threadId] == c.timestamp
    {
      var i := Position(conversations, threadId);
      if i < |conversations| {
        lastSeenTimestamp := lastSeenTimestamp[threadId := conversations[i].timestamp];
      }
      selectedThread := Some(threadId);
      messages := [];
      messageIndex.Clear();
    }

    /** Send a text in the open thread, if there is one; `address` is None if the thread has no
        usable recipients. */
    method SendMessage(text: string, address: Option<string>, now: nat)
      requires Valid()
      modifies this, messageIndex
      ensures messageIndex.IsIndexOf(messages)
      ensures !Knows(old(messages), SendingId(now)) ==> Valid()
      ensures View() == if selectedThread.None? || address.None? then old(View())
                        else Sending(old(View()), Outgoing(selectedThread.value, text, address.value, now))
      ensures if && selectedThread.Some? && address.Some?
                 && exists c | c in old(conversations) :: c.threadId == selectedThread.value
              then ShowsSent(old(View()), View(), Message("sending_" + Decimal(now), selectedThread.value, text,
                                                          address.value, now, 2, true))
              else View() == old(View())
    {
      ghost var was := View();
      if selectedThread.Some? && address.Some? {
        SendingShows(was, Outgoing(selectedThread.value, text, address.value, now));
      }
      if selectedThread.Some? && address.Some? {
        ShowSending(Outgoing(selectedThread.value, text, address.value, now));
      }
    }

    /** Replace the open thread, index and all. */
    method Rearrange(sorted: seq<Message>)
      modifies this`messages, messageIndex
      ensures messages == sorted && messageIndex.IsIndexOf(sorted)
    {
      messages := sorted;
      messageIndex.Rebuild(sorted);
    }

    /** Show a message that is being sent, if its conversation is known. The index follows the
        sort. */
    method ShowSending(message: Message)
      requires Valid() && selectedThread == Some(message.threadId)
      modifies this, messageIndex
      ensures messageIndex.IsIndexOf(messages)
      ensures !Knows(old(messages), message.id) ==> Valid()
      ensures View() == Sending(old(View()), message)
    {
      var i := Position(conversations, message.threadId);
      if i == |conversations| {
        return;
      }
      SendingKeepsDistinct(messages, message);
      Rearrange(SortBy(messages + [message], Dates));
      conversations := conversations[i := conversations[i].(lastMessage := message.body, timestamp := message.date)];
      conversations := SortBy(conversations, Recency);
    }

    /** Take a message of the open thread into its list. */
    method ShowMessage(message: Message)
      requires Valid() && !IsSendingId(message.id)
      modifies this`messages, messageIndex
      ensures Valid() && messages == Scan(old(messages), message) && Takes(old(messages), messages, message)
    {
      var updated, _ := messageIndex.InsertOrMerge(messages, message);
      messages := updated;
    }

    /** The open thread has been seen up to this message. */
    method MarkSeen(message: Message)
      modifies this`lastSeenTimestamp
      ensures lastSeenTimestamp == Seen(old(lastSeenTimestamp), message)
    {
      var seen := if message.threadId in lastSeenTimestamp then lastSeenTimestamp[message.threadId] else 0;
      if message.date > seen {
        seen := message.date;
      }
      lastSeenTimestamp := lastSeenTimestamp[message.threadId := seen];
    }

    /** The body of the batch loop. */
    method DeliverOne(message: Message)
      requires Valid() && !IsSendingId(message.id)
      modifies this, messageIndex
      ensures Valid() && View() == Deliver(old(View()), message)
    {
      if message.threadId in hiddenConversations {
        return;
      }
      var selectedNow := selectedThread == Some(message.threadId);
      if selectedNow {
        MarkSeen(message);
        ShowMessage(message);
      }
      UpdateConversation(message, selectedNow);
    }

    /** The preview of the message's conversation, and whether it holds something unread. */
    method UpdateConversation(message: Message, selectedNow: bool)
      modifies this`conversations
      ensures var was, i := old(conversations), Position(old(conversations), message.threadId);
              conversations == if i < |was| then was[i := Updated(was[i], message, selectedNow)] else was
    {
      var i := Position(conversations, message.threadId);
      if i < |conversations| {
        var conv := conversations[i];
        if message.date >= conv.timestamp {
          conv := conv.(lastMessage := message.body, timestamp := message.date);
        }
        if !selectedNow && message.kind != 2 {
          conv := conv.(unread := true);
        }
        conversations := conversations[i := conv];
      }
    }

    /** One pass over the batch. */
    method DeliverBatch(batch: seq<Message>)
      requires Valid() && FromPhone(batch)
      modifies this, messageIndex
      ensures Valid() && View() == DeliverAll(old(View()), batch) && selectedThread == old(selectedThread)
    {
      ghost var was := View();
      for i := 0 to |batch|
        invariant Valid() && View() == DeliverAll(was, batch[..i])
        invariant selectedThread == was.selected
      {
        assert batch[..i + 1][..i] == batch[..i];
        DeliverOne(batch[i]);
      }
      assert batch[..|batch|] == batch;
    }

    /** The open thread is left sorted by date, with an index valid for the new positions, and
        every conversation as the batch requires. */
    method HandleMessagesReceived(batch: seq<Message>)
      requires Valid() && FromPhone(batch)
      modifies this, messageIndex
      ensures Valid() && View() == Handle(old(View()), batch)
      ensures Settles(old(View()), View(), batch)
    {
      BatchSettles(View(), batch);
      DeliverBatch(batch);
      SortWindow();
    }

    /** One sort of the open thread and one of the conversations. */
    method SortWindow()
      requires Valid()
      modifies this, messageIndex
      ensures Valid() && conversations == SortBy(old(conversations), Recency)
      ensures messages == if selectedThread.Some? then SortBy(old(messages), Dates) else old(messages)
      ensures View() == old(View()).(messages := messages, conversations := conversations)
    {
      SortedStaysDistinct(messages);
      if selectedThread.Some? && messages != [] {
        Rearrange(SortBy(messages, Dates));
      }
      conversations := SortBy(conversations, Recency);
    }
  }

  lemma SortedStaysDistinct(messages: seq<Message>)
    requires DistinctIds(messages)
    ensures DistinctIds(SortBy(messages, Dates)) && SortedBy(SortBy(messages, Dates), Dates)
    ensures messages == [] ==> SortBy(messages, Dates) == []
  {
    Sorts(messages, Dates);
    SortKeepsDistinct(messages, Dates, (m: Message) => m.id);
  }
}
