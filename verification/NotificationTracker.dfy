/** What the tracker shows over arbitrary traffic, told by the packets alone (notification.rs). */
module NotificationTracker {
  import opened Common
  import opened Notifications

  // --- The history of one key ------------------------------------------------------------------

  /** The packet concerns the key: it is complete or a cancel. */
  predicate Concerns(p: Packet, key: Key) {
    (Complete(p.n) || Cancels(p.n)) && KeyOf(p.device, p.n) == key
  }

  /** The last packet that concerns the key. */
  function LastFor(packets: seq<Packet>, key: Key): Option<Packet>
    decreases |packets|
  {
    if packets == [] then None
    else if Concerns(packets[|packets| - 1], key) then Some(packets[|packets| - 1])
    else LastFor(packets[..|packets| - 1], key)
  }

  /** Every entry is that of the last packet for its key. */
  predicate Current(hash: Fingerprint, list: Recency, packets: seq<Packet>) {
    forall e | e in list :: IsLast(hash, packets, e)
  }

  predicate IsLast(hash: Fingerprint, packets: seq<Packet>, e: Entry) {
    var last := LastFor(packets, e.key);
    last.Some? && Complete(last.value.n) && e.mark == MarkOf(hash, last.value.n)
  }

  lemma WithoutMembers(list: Recency, key: Key, e: Entry)
    requires Distinct(list) && e in Without(list, key)
    ensures e in list && e.key != key
  {
    var j :| 0 <= j < |Without(list, key)| && Without(list, key)[j] == e;
    WithoutAt(list, key, j);
    var from := Origin(list, key, j);
    assert list[from] == e;
  }

  lemma TouchMembers(list: Recency, entry: Entry, e: Entry)
    requires Wf(list) && e in Touch(list, entry) && e != entry
    ensures e in list && e.key != entry.key
  {
    if IndexOf(list, entry.key) < |list| {
      WithoutMembers(list, entry.key, e);
    } else {
      var j :| 0 <= j < |list| && list[j] == e;
    }
  }

  /** What stays in the list was there before, under another key, or is this packet's entry. */
  lemma ReceivedMembers(hash: Fingerprint, list: Recency, p: Packet, e: Entry)
    requires Wf(list) && e in Received(hash, list, p)
    ensures (e in list && !Concerns(p, e.key)) || (Complete(p.n) && e == EntryOf(hash, p.device, p.n))
  {
    MeaningOfOp(hash, list, p.device, p.n);
    if Complete(p.n) {
      var entry := EntryOf(hash, p.device, p.n);
      TouchKeepsWf(list, entry);
      var now := Touch(list, entry);
      if e !in now {
        WithoutMembers(now, entry.key, e);
      } else if e != entry {
        TouchMembers(list, entry, e);
      }
    } else if Cancels(p.n) {
      WithoutMembers(list, KeyOf(p.device, p.n), e);
    }
  }

  lemma ReceivedStaysCurrent(hash: Fingerprint, list: Recency, packets: seq<Packet>, p: Packet)
    requires Wf(list) && Current(hash, list, packets)
    ensures Current(hash, Received(hash, list, p), packets + [p])
  {
    assert (packets + [p])[..|packets|] == packets;
    forall e | e in Received(hash, list, p)
      ensures IsLast(hash, packets + [p], e)
    {
      ReceivedMembers(hash, list, p, e);
      if e in list {
        assert IsLast(hash, packets, e);
      }
    }
  }

  lemma {:induction false} TrafficIsCurrent(hash: Fingerprint, packets: seq<Packet>)
    ensures Wf(Traffic(hash, [], packets)) && Current(hash, Traffic(hash, [], packets), packets)
    decreases |packets|
  {
    TrafficKeepsWf(hash, [], packets);
    if packets != [] {
      var before := packets[..|packets| - 1];
      TrafficIsCurrent(hash, before);
      ReceivedStaysCurrent(hash, Traffic(hash, [], before), before, packets[|packets| - 1]);
      assert before + [packets[|packets| - 1]] == packets;
    }
  }

  // --- What must be shown, and what must not ---------------------------------------------------

  /** A complete notification that the phone does not want kept quiet. */
  predicate Showable(n: Notification) {
    Complete(n) && n.silent != Some(true) && n.requestAnswer != Some(true)
  }

  /** Nothing for its key came before, or a cancel did last, or content the hash tells apart. */
  predicate IsNews(hash: Fingerprint, packets: seq<Packet>, device: string, n: Notification)
    requires Complete(n)
  {
    var last := LastFor(packets, KeyOf(device, n));
    last.Some? && Complete(last.value.n) ==> MarkOf(hash, last.value.n) != MarkOf(hash, n)
  }

  /** Over arbitrary traffic, news is displayed. */
  lemma NewsIsDisplayed(hash: Fingerprint, packets: seq<Packet>, device: string, n: Notification)
    requires Showable(n) && IsNews(hash, packets, device, n)
    ensures Displays(hash, Traffic(hash, [], packets), device, n)
  {
    MeaningOfOp(hash, Traffic(hash, [], packets), device, n);
    TrafficIsCurrent(hash, packets);
    assert !IsLast(hash, packets, EntryOf(hash, device, n));
  }

  /** No entry of the list is under this key. */
  predicate Unlisted(list: Recency, key: Key) {
    forall e | e in list :: e.key != key
  }

  /** Packet `i` was news that the screen lost, and nothing for its key came since. */
  predicate Lost(hash: Fingerprint, packets: seq<Packet>, i: nat, key: Key)
    requires i < |packets|
  {
    && Showable(packets[i].n) && !packets[i].shows && KeyOf(packets[i].device, packets[i].n) == key
    && IsNews(hash, packets[..i], packets[i].device, packets[i].n)
    && forall k | i < k < |packets| :: !Concerns(packets[k], key)
  }

  lemma StaysUnlisted(hash: Fingerprint, list: Recency, p: Packet, key: Key)
    requires Wf(list) && Unlisted(list, key) && !Concerns(p, key)
    ensures Unlisted(Received(hash, list, p), key)
  {
    forall e | e in Received(hash, list, p)
      ensures e.key != key
    {
      ReceivedMembers(hash, list, p, e);
    }
  }

  lemma FailureIsForgotten(hash: Fingerprint, packets: seq<Packet>, p: Packet)
    requires Showable(p.n) && !p.shows && IsNews(hash, packets, p.device, p.n)
    ensures Unlisted(Traffic(hash, [], packets + [p]), KeyOf(p.device, p.n))
  {
    var list := Traffic(hash, [], packets);
    NewsIsDisplayed(hash, packets, p.device, p.n);
    TrafficKeepsWf(hash, [], packets);
    MeaningOfOp(hash, list, p.device, p.n);
    TouchKeepsWf(list, EntryOf(hash, p.device, p.n));
    TrafficSnoc(hash, [], packets, p);
    forall e | e in Received(hash, list, p)
      ensures e.key != KeyOf(p.device, p.n)
    {
      WithoutMembers(Touch(list, EntryOf(hash, p.device, p.n)), KeyOf(p.device, p.n), e);
    }
  }

  lemma TrafficSnoc(hash: Fingerprint, list: Recency, packets: seq<Packet>, p: Packet)
    ensures Traffic(hash, list, packets + [p]) == Received(hash, Traffic(hash, list, packets), p)
  {
    assert (packets + [p])[..|packets|] == packets;
  }

  lemma {:induction false} LostStaysUnlisted(hash: Fingerprint, packets: seq<Packet>, i: nat, key: Key)
    requires i < |packets| && Lost(hash, packets, i, key)
    ensures Unlisted(Traffic(hash, [], packets), key)
    decreases |packets|
  {
    var before, p := packets[..|packets| - 1], packets[|packets| - 1];
    assert before + [p] == packets;
    if i == |before| {
      assert packets[..i] == before;
      FailureIsForgotten(hash, before, p);
    } else {
      assert before[..i] == packets[..i];
      LostStaysUnlisted(hash, before, i, key);
      TrafficKeepsWf(hash, [], before);
      StaysUnlisted(hash, Traffic(hash, [], before), p, key);
      TrafficSnoc(hash, [], before, p);
    }
  }

  /** What the screen lost is displayed when it comes again. */
  lemma LostIsRetried(hash: Fingerprint, packets: seq<Packet>, i: nat, device: string, n: Notification)
    requires Showable(n) && i < |packets| && Lost(hash, packets, i, KeyOf(device, n))
    ensures Displays(hash, Traffic(hash, [], packets), device, n)
  {
    LostStaysUnlisted(hash, packets, i, KeyOf(device, n));
    MeaningOfOp(hash, Traffic(hash, [], packets), device, n);
  }

  /** The keys of the complete packets. */
  function KeysOf(packets: seq<Packet>): set<Key> {
    set i | 0 <= i < |packets| && Complete(packets[i].n) :: KeyOf(packets[i].device, packets[i].n)
  }

  /** Packet `i` held the same visible content under the same key and was not lost on the screen;
      nothing for the key came since, and fewer than 4096 other keys did. */
  predicate Replays(packets: seq<Packet>, i: nat, device: string, n: Notification)
    requires i < |packets| && Complete(n)
  {
    var first, since := packets[i], packets[i + 1..];
    && Complete(first.n) && KeyOf(first.device, first.n) == KeyOf(device, n) && Visible(first.n) == Visible(n)
    && (first.shows || !Showable(first.n))
    && (forall k | 0 <= k < |since| :: !Concerns(since[k], KeyOf(device, n)))
    && |KeysOf(since)| < MAX_TRACKED
  }

  lemma {:induction false} TrafficConcat(hash: Fingerprint, list: Recency, a: seq<Packet>, b: seq<Packet>)
    ensures Traffic(hash, list, a + b) == Traffic(hash, Traffic(hash, list, a), b)
    decreases |b|
  {
    if b == [] {
      assert a + b == a;
    } else {
      TrafficConcat(hash, list, a, b[..|b| - 1]);
      assert (a + b)[..|a + b| - 1] == a + b[..|b| - 1];
    }
  }

  lemma ConcernsIsTouching(hash: Fingerprint, p: Packet, key: Key)
    ensures Concerns(p, key) <==> OpKey(OpOf(hash, p.device, p.n)) == Some(key)
  {
    MeaningOfOp(hash, [], p.device, p.n);
  }

  lemma {:induction false} KeysProcessed(hash: Fingerprint, packets: seq<Packet>)
    ensures Processed(hash, packets) == KeysOf(packets)
    decreases |packets|
  {
    if packets != [] {
      var before, p := packets[..|packets| - 1], packets[|packets| - 1];
      KeysProcessed(hash, before);
      MeaningOfOp(hash, [], p.device, p.n);
      assert KeysOf(packets) == KeysOf(before) + if Complete(p.n) then {KeyOf(p.device, p.n)} else {} by {
        assert forall i | 0 <= i < |before| :: before[i] == packets[i];
      }
    }
  }

  lemma ReplayIsHidden(hash: Fingerprint, packets: seq<Packet>, i: nat, device: string, n: Notification)
    requires i < |packets| && Complete(n) && Replays(packets, i, device, n)
    ensures !Displays(hash, Traffic(hash, [], packets), device, n)
  {
    var before, first, since := packets[..i], packets[i], packets[i + 1..];
    var list := Traffic(hash, [], before);
    TrafficKeepsWf(hash, [], before);
    MeaningOfOp(hash, list, first.device, first.n);
    MeaningOfOp(hash, list, device, n);
    KeysProcessed(hash, since);
    forall k | 0 <= k < |since|
      ensures OpKey(OpOf(hash, since[k].device, since[k].n)) != Some(KeyOf(device, n))
    {
      ConcernsIsTouching(hash, since[k], KeyOf(device, n));
    }
    ReplayIsSuppressed(hash, list, first, since, Packet(device, n, true));
    SplitTraffic(hash, packets, i);
  }

  lemma SplitTraffic(hash: Fingerprint, packets: seq<Packet>, i: nat)
    requires i < |packets|
    ensures Traffic(hash, [], packets)
            == Traffic(hash, Received(hash, Traffic(hash, [], packets[..i]), packets[i]), packets[i + 1..])
  {
    SplitAt(packets, i);
    TrafficConcat(hash, [], packets[..i] + [packets[i]], packets[i + 1..]);
    TrafficSnoc(hash, [], packets[..i], packets[i]);
  }

  lemma SplitAt(packets: seq<Packet>, i: nat)
    requires i < |packets|
    ensures packets[..i] + [packets[i]] + packets[i + 1..] == packets
  {
  }

  // --- The tracker -----------------------------------------------------------------------------

  class NotificationTracker {
    const history: NotificationHistory
    /** Every packet received so far. */
    ghost var packets: seq<Packet>

    ghost predicate Valid()
      reads this, history
    {
      history.Valid() && history.recent == Traffic(history.hash, [], packets)
    }

    constructor (hash: Fingerprint)
      ensures Valid() && packets == [] && history.hash == hash && fresh(history)
    {
      history := new NotificationHistory(hash);
      packets := [];
    }

    /** News is displayed if the desktop can, and so is what it lost; a replay is not, nor is
        anything silent, asked for, cancelled or incomplete. */
    method ReceivedPacket(device: string, n: Notification, shows: bool) returns (displayed: bool)
      requires Valid()
      modifies this, history
      ensures Valid() && packets == old(packets) + [Packet(device, n, shows)]
      ensures displayed ==> shows && Showable(n)
      ensures shows && Showable(n) && IsNews(history.hash, old(packets), device, n) ==> displayed
      ensures shows && Showable(n) ==>
                forall i: nat | i < |old(packets)| && Lost(history.hash, old(packets), i, KeyOf(device, n)) :: displayed
      ensures Complete(n) ==> forall i: nat | i < |old(packets)| && Replays(old(packets), i, device, n) :: !displayed
    {
      ReceptionIsRight(history.hash, packets, device, n);
      ghost var p := Packet(device, n, shows);
      assert (packets + [p])[..|packets|] == packets;
      packets := packets + [p];
      var should := history.ShouldDisplay(device, n);
      if !should {
        return false;
      }
      displayed := shows;
      if !shows {
        history.Forget(device, n);
      }
    }
  }

  lemma ReceptionIsRight(hash: Fingerprint, packets: seq<Packet>, device: string, n: Notification)
    ensures Displays(hash, Traffic(hash, [], packets), device, n) ==> Showable(n)
    ensures Showable(n) && IsNews(hash, packets, device, n) ==> Displays(hash, Traffic(hash, [], packets), device, n)
    ensures Showable(n) ==>
              forall i: nat | i < |packets| && Lost(hash, packets, i, KeyOf(device, n)) ::
                Displays(hash, Traffic(hash, [], packets), device, n)
    ensures Complete(n) ==>
              forall i: nat | i < |packets| && Replays(packets, i, device, n) ::
                !Displays(hash, Traffic(hash, [], packets), device, n)
  {
    MeaningOfOp(hash, Traffic(hash, [], packets), device, n);
    if Showable(n) && IsNews(hash, packets, device, n) {
      NewsIsDisplayed(hash, packets, device, n);
    }
    forall i: nat | i < |packets| && Showable(n) && Lost(hash, packets, i, KeyOf(device, n))
      ensures Displays(hash, Traffic(hash, [], packets), device, n)
    {
      LostIsRetried(hash, packets, i, device, n);
    }
    forall i: nat | i < |packets| && Complete(n) && Replays(packets, i, device, n)
      ensures !Displays(hash, Traffic(hash, [], packets), device, n)
    {
      ReplayIsHidden(hash, packets, i, device, n);
    }
  }
}
