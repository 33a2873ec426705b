/** Bounded notification history (plugins/notification.rs): a map with sequence numbers that
    behaves like a recency list, and what that means for replayed notifications. */
module Notifications {
  import opened Common

  const MAX_TRACKED := 4096

  datatype Notification = Notification(
    id: Option<string>,
    title: Option<string>,
    text: Option<string>,
    appName: Option<string>,
    isCancel: Option<bool>,
    silent: Option<bool>,
    requestAnswer: Option<bool>)

  /** The device id and the phone's notification id. */
  datatype Key = Key(device: string, id: string)

  /** Hash of application name, title and text: all the user sees. */
  type Fingerprint = (string, string, string) -> nat

  // --- The recency list ------------------------------------------------------------------

  datatype Entry = Entry(key: Key, mark: nat)

  type Recency = seq<Entry>

  datatype Op = Ignore | Drop(key: Key) | Process(entry: Entry)

  /** What a packet asks of the history, whatever the history holds. */
  function OpOf(hash: Fingerprint, device: string, n: Notification): Op {
    if n.id.None? || n.id.value == "" then Ignore
    else if n.isCancel == Some(true) then Drop(Key(device, n.id.value))
    else if n.title.None? || n.text.None? then Ignore
    else
      var app := if n.appName.Some? then n.appName.value else "";
      Process(Entry(Key(device, n.id.value), hash(app, n.title.value, n.text.value)))
  }

  function IndexOf(list: Recency, key: Key): (i: nat)
    ensures i <= |list|
    ensures i < |list| ==> list[i].key == key
    ensures forall j | 0 <= j < i :: list[j].key != key
  {
    if list == [] || list[0].key == key then 0 else 1 + IndexOf(list[1..], key)
  }

  function Without(list: Recency, key: Key): Recency {
    var i := IndexOf(list, key);
    if i < |list| then list[..i] + list[i + 1..] else list
  }

  /** The processed key becomes the most recent; the least recent makes room for a new one. */
  function Touch(list: Recency, entry: Entry): Recency {
    if IndexOf(list, entry.key) < |list| then Without(list, entry.key) + [entry]
    else if |list| >= MAX_TRACKED then list[1..] + [entry]
    else list + [entry]
  }

  function Apply(list: Recency, op: Op): Recency {
    match op
    case Ignore => list
    case Drop(key) => Without(list, key)
    case Process(entry) => Touch(list, entry)
  }

  predicate Displays(hash: Fingerprint, list: Recency, device: string, n: Notification) {
    var op := OpOf(hash, device, n);
    op.Process? && op.entry !in list && n.silent != Some(true) && n.requestAnswer != Some(true)
  }

  /** A notification with all the user needs to see it. */
  predicate Complete(n: Notification) {
    n.id.Some? && n.id.value != "" && n.isCancel != Some(true) && n.title.Some? && n.text.Some?
  }

  predicate Cancels(n: Notification) {
    n.id.Some? && n.id.value != "" && n.isCancel == Some(true)
  }

  function KeyOf(device: string, n: Notification): Key
    requires n.id.Some?
  {
    Key(device, n.id.value)
  }

  /** All that the user sees of it: the application, the title and the text. */
  function Visible(n: Notification): (string, string, string)
    requires Complete(n)
  {
    (if n.appName.Some? then n.appName.value else "", n.title.value, n.text.value)
  }

  function MarkOf(hash: Fingerprint, n: Notification): nat
    requires Complete(n)
  {
    hash(Visible(n).0, Visible(n).1, Visible(n).2)
  }

  function EntryOf(hash: Fingerprint, device: string, n: Notification): Entry
    requires Complete(n)
  {
    Entry(KeyOf(device, n), MarkOf(hash, n))
  }

  lemma MeaningOfOp(hash: Fingerprint, list: Recency, device: string, n: Notification)
    ensures Complete(n) ==> OpOf(hash, device, n) == Process(EntryOf(hash, device, n))
    ensures Cancels(n) ==> OpOf(hash, device, n) == Drop(KeyOf(device, n))
    ensures !Complete(n) && !Cancels(n) ==> OpOf(hash, device, n) == Ignore
    ensures Complete(n) ==>
              var now := Apply(list, OpOf(hash, device, n));
              now != [] && now[|now| - 1] == EntryOf(hash, device, n)
  {
  }

  predicate Distinct(list: Recency) {
    forall i, j | 0 <= i < j < |list| :: list[i].key != list[j].key
  }

  /** A packet as the tracker meets it: `shows` says whether the desktop displays it. */
  datatype Packet = Packet(device: string, n: Notification, shows: bool)

  /** Handle a packet; a failed display is forgotten so that a retry can succeed. */
  function Received(hash: Fingerprint, list: Recency, p: Packet): Recency {
    var after := Apply(list, OpOf(hash, p.device, p.n));
    if Displays(hash, list, p.device, p.n) && !p.shows then Without(after, Key(p.device, p.n.id.value)) else after
  }

  function Traffic(hash: Fingerprint, list: Recency, packets: seq<Packet>): Recency
    decreases |packets|
  {
    if packets == [] then list
    else Received(hash, Traffic(hash, list, packets[..|packets| - 1]), packets[|packets| - 1])
  }

  /** The keys processed by the packets. */
  function Processed(hash: Fingerprint, packets: seq<Packet>): set<Key>
    decreases |packets|
  {
    if packets == [] then {}
    else
      var op := OpOf(hash, packets[|packets| - 1].device, packets[|packets| - 1].n);
      Processed(hash, packets[..|packets| - 1]) + if op.Process? then {op.entry.key} else {}
  }

  function OpKey(op: Op): Option<Key> {
    match op
    case Ignore => None
    case Drop(key) => Some(key)
    case Process(entry) => Some(entry.key)
  }

  predicate Touches(hash: Fingerprint, packets: seq<Packet>, key: Key) {
    exists i | 0 <= i < |packets| :: OpKey(OpOf(hash, packets[i].device, packets[i].n)) == Some(key)
  }

  predicate RemovesNothing(hash: Fingerprint, packets: seq<Packet>) {
    forall i | 0 <= i < |packets| :: !OpOf(hash, packets[i].device, packets[i].n).Drop? && packets[i].shows
  }

  // --- Positions in the list ---------------------------------------------------------------

  function Keys(list: Recency): set<Key> {
    set i | 0 <= i < |list| :: list[i].key
  }

  lemma {:induction false} KeysCount(list: Recency)
    requires Distinct(list)
    ensures |Keys(list)| == |list|
  {
    if list != [] {
      KeysCount(list[1..]);
      assert Keys(list) == {list[0].key} + Keys(list[1..]);
      assert list[0].key !in Keys(list[1..]);
    } else {
      assert Keys(list) == {};
    }
  }

  /** The keys more recent than `key`. */
  function After(list: Recency, key: Key): set<Key> {
    if list == [] then {}
    else if list[0].key == key then Keys(list[1..])
    else After(list[1..], key)
  }

  lemma WithoutCons(list: Recency, key: Key)
    requires list != [] && list[0].key != key
    ensures Without(list, key) == [list[0]] + Without(list[1..], key)
  {
    var i := IndexOf(list, key);
    assert IndexOf(list[1..], key) == i - 1;
  }

  lemma {:induction false} AfterWithout(list: Recency, key: Key, other: Key)
    requires Distinct(list) && key != other
    ensures After(Without(list, other), key) == After(list, key) - {other}
    ensures forall e: Entry | e.key == key :: e in Without(list, other) <==> e in list
  {
    if list != [] {
      var rest := list[1..];
      assert list == [list[0]] + rest;
      if list[0].key == other {
        assert Without(list, other) == rest;
        AfterExcludes(rest, key, other);
      } else {
        AfterWithout(rest, key, other);
        WithoutCons(list, other);
        if list[0].key == key {
          KeysWithout(rest, other);
        }
      }
    }
  }

  lemma {:induction false} AfterExcludes(list: Recency, key: Key, other: Key)
    requires forall i | 0 <= i < |list| :: list[i].key != other
    ensures other !in After(list, key)
  {
    if list != [] && list[0].key != key {
      AfterExcludes(list[1..], key, other);
    }
  }

  lemma KeysWithout(list: Recency, key: Key)
    requires Distinct(list)
    ensures Keys(Without(list, key)) == Keys(list) - {key}
    ensures Distinct(Without(list, key))
    ensures |Without(list, key)| <= |list|
  {
    var i := IndexOf(list, key);
    var without := Without(list, key);
    if i < |list| {
      forall k | k in Keys(list) - {key}
        ensures k in Keys(without)
      {
        var j :| 0 <= j < |list| && list[j].key == k;
        assert without[if j < i then j else j - 1] == list[j];
      }
    }
  }

  lemma {:induction false} AfterAppend(list: Recency, key: Key, entry: Entry)
    requires entry.key != key && key in Keys(list)
    ensures After(list + [entry], key) == After(list, key) + {entry.key}
  {
    var longer := list + [entry];
    assert longer[1..] == list[1..] + [entry];
    if list[0].key == key {
      assert forall i | 0 <= i < |list[1..]| :: longer[1..][i] == list[1..][i];
      assert longer[1..][|list[1..]|] == entry;
    } else {
      AfterAppend(list[1..], key, entry);
    }
  }

  lemma {:induction false} AfterSize(list: Recency, key: Key)
    requires Distinct(list) && key in Keys(list)
    ensures |After(list, key)| < |list|
    ensures list[0].key == key ==> |After(list, key)| == |list| - 1
  {
    if list[0].key == key {
      KeysCount(list[1..]);
    } else {
      AfterSize(list[1..], key);
    }
  }

  // --- What one packet does ------------------------------------------------------------------

  predicate Wf(list: Recency) {
    Distinct(list) && |list| <= MAX_TRACKED
  }

  lemma TouchKeepsWf(list: Recency, entry: Entry)
    requires Wf(list)
    ensures Wf(Touch(list, entry))
    ensures entry in Touch(list, entry)
    ensures Touch(list, entry)[|Touch(list, entry)| - 1] == entry
  {
    KeysWithout(list, entry.key);
    var i := IndexOf(list, entry.key);
    if i < |list| {
      var without := Without(list, entry.key);
      assert forall j | 0 <= j < |without| :: without[j].key in Keys(without);
      assert |without| == |list| - 1;
    }
  }

  lemma ReceivedKeepsWf(hash: Fingerprint, list: Recency, p: Packet)
    requires Wf(list)
    ensures Wf(Received(hash, list, p))
  {
    var op := OpOf(hash, p.device, p.n);
    ApplyKeepsWf(list, op);
    if op.Process? {
      DistinctShort(Apply(list, op), Key(p.device, p.n.id.value));
    }
  }

  lemma ApplyKeepsWf(list: Recency, op: Op)
    requires Wf(list)
    ensures Wf(Apply(list, op))
  {
    match op
    case Ignore =>
    case Drop(key) => DistinctShort(list, key);
    case Process(entry) => TouchKeepsWf(list, entry);
  }

  lemma DistinctShort(list: Recency, key: Key)
    requires Wf(list)
    ensures Wf(Without(list, key))
  {
    KeysWithout(list, key);
  }

  lemma {:induction false} TrafficKeepsWf(hash: Fingerprint, list: Recency, packets: seq<Packet>)
    requires Wf(list)
    ensures Wf(Traffic(hash, list, packets))
    decreases |packets|
  {
    if packets != [] {
      TrafficKeepsWf(hash, list, packets[..|packets| - 1]);
      ReceivedKeepsWf(hash, Traffic(hash, list, packets[..|packets| - 1]), packets[|packets| - 1]);
    }
  }

  predicate Evicts(list: Recency, e: Entry, key: Key) {
    list != [] && list[0] == e && key !in Keys(list) && |list| == MAX_TRACKED
  }

  /** Processing another key keeps `e` and puts at most that key behind it, unless the list is
      full, `e` is its oldest entry and the other key is new. */
  lemma TouchOther(list: Recency, e: Entry, entry: Entry)
    requires Wf(list) && e in list && entry.key != e.key
    ensures if Evicts(list, e, entry.key) then e.key !in Keys(Touch(list, entry))
            else e in Touch(list, entry) && After(Touch(list, entry), e.key) == After(list, e.key) + {entry.key}
  {
    var i := IndexOf(list, entry.key);
    assert e.key in Keys(list);
    if i < |list| {
      assert list[i].key in Keys(list);
      TouchKnown(list, e, entry);
    } else {
      assert entry.key !in Keys(list);
      if |list| < MAX_TRACKED {
        AfterAppend(list, e.key, entry);
      } else {
        TouchFull(list, e, entry);
      }
    }
  }

  lemma TouchKnown(list: Recency, e: Entry, entry: Entry)
    requires Wf(list) && e in list && entry.key != e.key && IndexOf(list, entry.key) < |list|
    ensures e in Touch(list, entry) && After(Touch(list, entry), e.key) == After(list, e.key) + {entry.key}
  {
    AfterWithout(list, e.key, entry.key);
    var without := Without(list, entry.key);
    assert e in without;
    AfterAppend(without, e.key, entry);
  }

  lemma TouchFull(list: Recency, e: Entry, entry: Entry)
    requires Distinct(list) && e in list && entry.key != e.key
    ensures var now := list[1..] + [entry];
            if list[0] == e then e.key !in Keys(now)
            else e in now && After(now, e.key) == After(list, e.key) + {entry.key}
  {
    var rest := list[1..];
    var k :| 0 <= k < |list| && list[k] == e;
    if list[0] == e {
      assert forall j | 0 <= j < |rest| :: rest[j].key == list[j + 1].key;
    } else {
      assert rest[k - 1] == e;
      assert After(list, e.key) == After(rest, e.key);
      AfterAppend(rest, e.key, entry);
    }
  }

  lemma EvictionNeedsManyKeys(list: Recency, e: Entry, key: Key)
    requires Wf(list) && e in list && list[0] == e && key !in Keys(list) && |list| == MAX_TRACKED
    ensures |After(list, e.key) + {key}| == MAX_TRACKED
  {
    AfterSize(list, e.key);
    assert After(list, e.key) == Keys(list[1..]);
    assert key !in Keys(list[1..]) by {
      assert forall i | 0 <= i < |list[1..]| :: list[1..][i].key == list[i + 1].key;
    }
  }

  lemma SubsetSize<T>(a: set<T>, b: set<T>)
    requires a <= b
    ensures |a| <= |b|
  {
    assert a + (b - a) == b;
  }

  // --- Replays -------------------------------------------------------------------------------

  /** Packets that do not touch `e` keep it, behind at most the keys they process, as long as
      those are fewer than the bound. */
  lemma {:induction false} Survives(hash: Fingerprint, list: Recency, e: Entry, packets: seq<Packet>)
    requires Wf(list) && e in list && After(list, e.key) == {}
    requires !Touches(hash, packets, e.key)
    requires |Processed(hash, packets)| < MAX_TRACKED
    ensures var now := Traffic(hash, list, packets);
            e in now && After(now, e.key) <= Processed(hash, packets)
    decreases |packets|
  {
    if packets != [] {
      var before, p := packets[..|packets| - 1], packets[|packets| - 1];
      assert forall i | 0 <= i < |before| :: before[i] == packets[i];
      SubsetSize(Processed(hash, before), Processed(hash, packets));
      Survives(hash, list, e, before);
      TrafficKeepsWf(hash, list, before);
      assert OpKey(OpOf(hash, p.device, p.n)) != Some(e.key);
      SurvivesOne(hash, Traffic(hash, list, before), e, p, Processed(hash, before));
    }
  }

  /** One packet more, after the keys in `processed`. */
  lemma SurvivesOne(hash: Fingerprint, was: Recency, e: Entry, p: Packet, processed: set<Key>)
    requires Wf(was) && e in was && After(was, e.key) <= processed
    requires OpKey(OpOf(hash, p.device, p.n)) != Some(e.key)
    requires var op := OpOf(hash, p.device, p.n);
             |processed + if op.Process? then {op.entry.key} else {}| < MAX_TRACKED
    ensures var op, now := OpOf(hash, p.device, p.n), Received(hash, was, p);
            e in now && After(now, e.key) <= processed + if op.Process? then {op.entry.key} else {}
  {
    var op := OpOf(hash, p.device, p.n);
    if op.Process? {
      TouchSurvives(was, e, op.entry, processed);
      TouchKeepsWf(was, op.entry);
      AfterWithout(Touch(was, op.entry), e.key, op.entry.key);
    } else if op.Drop? {
      AfterWithout(was, e.key, op.key);
    }
  }

  lemma TouchSurvives(was: Recency, e: Entry, entry: Entry, processed: set<Key>)
    requires Wf(was) && e in was && After(was, e.key) <= processed && entry.key != e.key
    requires |processed + {entry.key}| < MAX_TRACKED
    ensures e in Touch(was, entry) && After(Touch(was, entry), e.key) == After(was, e.key) + {entry.key}
  {
    TouchOther(was, e, entry);
    if Evicts(was, e, entry.key) {
      EvictionNeedsManyKeys(was, e, entry.key);
      SubsetSize(After(was, e.key) + {entry.key}, processed + {entry.key});
      assert false;
    }
  }

  /** If nothing is cancelled or forgotten, the keys behind `e`, as long as it is there, are
      exactly those processed since. */
  lemma {:induction false} AgesExactly(hash: Fingerprint, list: Recency, e: Entry, packets: seq<Packet>)
    requires Wf(list) && e in list && After(list, e.key) == {}
    requires !Touches(hash, packets, e.key) && RemovesNothing(hash, packets)
    ensures var now := Traffic(hash, list, packets);
            e.key in Keys(now) ==> e in now && After(now, e.key) == Processed(hash, packets)
    decreases |packets|
  {
    if packets != [] {
      var before, p := packets[..|packets| - 1], packets[|packets| - 1];
      assert forall i | 0 <= i < |before| :: before[i] == packets[i];
      AgesExactly(hash, list, e, before);
      var was := Traffic(hash, list, before);
      TrafficKeepsWf(hash, list, before);
      var op := OpOf(hash, p.device, p.n);
      if op.Process? {
        if e.key in Keys(was) {
          TouchOther(was, e, op.entry);
        } else {
          TouchAddsNoOther(was, e.key, op.entry);
        }
      }
    }
  }

  lemma TouchAddsNoOther(list: Recency, key: Key, entry: Entry)
    requires Wf(list) && key !in Keys(list) && entry.key != key
    ensures key !in Keys(Touch(list, entry))
  {
    KeysWithout(list, entry.key);
    var now := Touch(list, entry);
    if key in Keys(now) {
      var i :| 0 <= i < |now| && now[i].key == key;
      assert now[i] != entry;
      assert forall x | x in list :: x.key in Keys(list);
      assert forall j | 0 <= j < |Without(list, entry.key)| :: Without(list, entry.key)[j].key in Keys(list);
      assert false;
    }
  }

  lemma LastHasNothingAfter(list: Recency, entry: Entry)
    requires Wf(list)
    ensures After(Touch(list, entry), entry.key) == {}
  {
    TouchKeepsWf(list, entry);
    LastIsAfterNothing(Touch(list, entry));
  }

  lemma {:induction false} LastIsAfterNothing(list: Recency)
    requires Distinct(list) && list != []
    ensures After(list, list[|list| - 1].key) == {}
  {
    if |list| > 1 {
      LastIsAfterNothing(list[1..]);
    }
  }

  /** A notification whose key was last processed with the same content, and shown or silenced
      then, is not displayed again if meanwhile its key was not cancelled or forgotten and
      fewer than 4096 distinct other keys were processed, whatever else arrived. */
  lemma ReplayIsSuppressed(hash: Fingerprint, list: Recency, first: Packet, packets: seq<Packet>, replay: Packet)
    requires Wf(list)
    requires OpOf(hash, first.device, first.n).Process?
    requires OpOf(hash, replay.device, replay.n) == OpOf(hash, first.device, first.n)
    requires first.shows || !Displays(hash, list, first.device, first.n)
    requires !Touches(hash, packets, OpOf(hash, first.device, first.n).entry.key)
    requires |Processed(hash, packets)| < MAX_TRACKED
    ensures var now := Traffic(hash, Received(hash, list, first), packets);
            !Displays(hash, now, replay.device, replay.n)
  {
    var e := OpOf(hash, first.device, first.n).entry;
    TouchKeepsWf(list, e);
    LastHasNothingAfter(list, e);
    Survives(hash, Touch(list, e), e, packets);
  }

  /** The bound is sharp: if nothing is cancelled or forgotten and nothing is silenced, the
      replay is displayed exactly when at least 4096 other keys were processed since. */
  lemma ReplayBoundIsSharp(hash: Fingerprint, list: Recency, first: Packet, packets: seq<Packet>, replay: Packet)
    requires Wf(list)
    requires OpOf(hash, first.device, first.n).Process?
    requires OpOf(hash, replay.device, replay.n) == OpOf(hash, first.device, first.n)
    requires first.shows && RemovesNothing(hash, packets)
    requires !Touches(hash, packets, OpOf(hash, first.device, first.n).entry.key)
    requires replay.n.silent != Some(true) && replay.n.requestAnswer != Some(true)
    ensures var now := Traffic(hash, Received(hash, list, first), packets);
            Displays(hash, now, replay.device, replay.n) <==> |Processed(hash, packets)| >= MAX_TRACKED
  {
    var e := OpOf(hash, first.device, first.n).entry;
    TouchKeepsWf(list, e);
    LastHasNothingAfter(list, e);
    var now := Traffic(hash, Touch(list, e), packets);
    TrafficKeepsWf(hash, Touch(list, e), packets);
    if |Processed(hash, packets)| < MAX_TRACKED {
      Survives(hash, Touch(list, e), e, packets);
    } else {
      AgesExactly(hash, Touch(list, e), e, packets);
      if e in now {
        assert e.key in Keys(now);
        AfterSize(now, e.key);
        assert false;
      }
    }
  }

  // --- The map with sequence numbers -------------------------------------------------------

  /** The map, read in the order of its sequence numbers, is the list. */
  ghost predicate Tracks(seen: map<Key, (nat, nat)>, sequence: nat, list: Recency) {
    && Wf(list)
    && Keys(list) == seen.Keys
    && (forall i | 0 <= i < |list| :: Tracked(seen, sequence, list[i]))
    && (forall i, j | 0 <= i < j < |list| :: seen[list[i].key].1 < seen[list[j].key].1)
  }

  predicate Tracked(seen: map<Key, (nat, nat)>, sequence: nat, e: Entry) {
    e.key in seen && seen[e.key].0 == e.mark && seen[e.key].1 <= sequence
  }

  /** Where the j-th entry that remains after taking out `key` was. */
  function Origin(list: Recency, key: Key, j: nat): nat {
    var i := IndexOf(list, key);
    if i == |list| || j < i then j else j + 1
  }

  lemma SkipAt<T>(s: seq<T>, i: nat, j: nat)
    requires i < |s| && j < |s| - 1
    ensures (s[..i] + s[i + 1..])[j] == s[if j < i then j else j + 1]
  {
  }

  lemma WithoutAt(list: Recency, key: Key, j: nat)
    requires j < |Without(list, key)|
    ensures Origin(list, key, j) < |list| && Origin(list, key, j) != IndexOf(list, key)
    ensures Without(list, key)[j] == list[Origin(list, key, j)]
  {
    if IndexOf(list, key) < |list| {
      SkipAt(list, IndexOf(list, key), j);
    }
  }

  lemma TrackedWithout(seen: map<Key, (nat, nat)>, sequence: nat, list: Recency, key: Key, j: nat)
    requires Tracks(seen, sequence, list) && j < |Without(list, key)|
    ensures Tracked(seen - {key}, sequence, Without(list, key)[j])
  {
    WithoutAt(list, key, j);
    var from := Origin(list, key, j);
    assert list[from].key != key;
    assert Tracked(seen, sequence, list[from]);
  }

  lemma TracksWithout(seen: map<Key, (nat, nat)>, sequence: nat, list: Recency, key: Key)
    requires Tracks(seen, sequence, list)
    ensures Tracks(seen - {key}, sequence, Without(list, key))
  {
    DistinctShort(list, key);
    KeysWithout(list, key);
    forall j | 0 <= j < |Without(list, key)|
      ensures Tracked(seen - {key}, sequence, Without(list, key)[j])
    {
      TrackedWithout(seen, sequence, list, key, j);
    }
    forall i, j | 0 <= i < j < |Without(list, key)|
      ensures (seen - {key})[Without(list, key)[i].key].1 < (seen - {key})[Without(list, key)[j].key].1
    {
      WithoutAt(list, key, i);
      WithoutAt(list, key, j);
    }
  }

  lemma TracksPush(seen: map<Key, (nat, nat)>, sequence: nat, list: Recency, entry: Entry)
    requires Tracks(seen, sequence, list) && entry.key !in seen && |list| < MAX_TRACKED
    ensures Tracks(seen[entry.key := (entry.mark, sequence + 1)], sequence + 1, list + [entry])
  {
    var now := list + [entry];
    forall i | 0 <= i < |list|
      ensures now[i] == list[i] && Tracked(seen, sequence, list[i]) && now[i].key in Keys(list)
    {
    }
    assert now[|list|] == entry;
    assert Keys(now) == Keys(list) + {entry.key} by {
      assert forall k | k in Keys(list) :: k in Keys(now);
    }
  }

  lemma TracksReplace(seen: map<Key, (nat, nat)>, sequence: nat, list: Recency, key: Key, mark: nat)
    requires Tracks(seen, sequence, list) && |Without(list, key)| < MAX_TRACKED
    ensures Tracks(seen[key := (mark, sequence + 1)], sequence + 1, Without(list, key) + [Entry(key, mark)])
  {
    var others := seen - {key};
    TracksWithout(seen, sequence, list, key);
    TracksPush(others, sequence, Without(list, key), Entry(key, mark));
    assert seen[key := (mark, sequence + 1)] == others[key := (mark, sequence + 1)];
  }

  /** The entry with the smallest sequence number is the least recent. */
  lemma OldestIsFirst(seen: map<Key, (nat, nat)>, sequence: nat, list: Recency)
    requires Tracks(seen, sequence, list) && list != []
    ensures Tracked(seen, sequence, list[0])
    ensures forall k | k in seen :: seen[list[0].key].1 <= seen[k].1
    ensures forall k | k in seen && k != list[0].key :: seen[list[0].key].1 < seen[k].1
    ensures Without(list, list[0].key) == list[1..]
  {
    forall k | k in seen
      ensures seen[list[0].key].1 <= seen[k].1
      ensures k != list[0].key ==> seen[list[0].key].1 < seen[k].1
    {
      var j :| 0 <= j < |list| && list[j].key == k;
    }
  }

  lemma TracksMark(seen: map<Key, (nat, nat)>, sequence: nat, list: Recency, entry: Entry)
    requires Tracks(seen, sequence, list)
    ensures entry.key in seen && seen[entry.key].0 == entry.mark <==> entry in list
  {
    if entry.key in seen {
      var i :| 0 <= i < |list| && list[i].key == entry.key;
      assert Tracked(seen, sequence, list[i]);
    }
    if entry in list {
      assert Tracked(seen, sequence, entry);
    }
  }

  /** Touching is making room, moving the key out of the way and appending. */
  lemma TouchInSteps(was: Recency, room: Recency, entry: Entry)
    requires Wf(was)
    requires room == if entry.key !in Keys(was) && |was| == MAX_TRACKED then was[1..] else was
    ensures |Without(room, entry.key)| < MAX_TRACKED
    ensures Without(room, entry.key) + [entry] == Touch(was, entry)
  {
    var i := IndexOf(was, entry.key);
    if i < |was| {
      assert was[i].key in Keys(was);
    } else {
      assert entry.key !in Keys(was);
      assert forall j | 0 <= j < |room| :: room[j] in was;
    }
  }

  class NotificationHistory {
    const hash: Fingerprint
    var seen: map<Key, (nat, nat)>
    var sequence: nat
    ghost var recent: Recency

    ghost predicate Valid()
      reads this
    {
      Tracks(seen, sequence, recent)
    }

    constructor (hash: Fingerprint)
      ensures Valid() && this.hash == hash && recent == []
    {
      this.hash := hash;
      seen, sequence, recent := map[], 0, [];
    }

    method Remove(key: Key)
      requires Valid()
      modifies this
      ensures Valid() && recent == Without(old(recent), key)
      ensures seen == old(seen) - {key} && sequence == old(sequence)
    {
      TracksWithout(seen, sequence, recent, key);
      seen := seen - {key};
      recent := Without(recent, key);
    }

    /** Make room for a new key by evicting the smallest sequence number of a full map. */
    method Evict(key: Key)
      requires Valid()
      modifies this
      ensures Valid() && sequence == old(sequence)
      ensures key !in old(seen) && |old(recent)| == MAX_TRACKED ==>
                recent == old(recent)[1..] && key !in seen
      ensures key in old(seen) || |old(recent)| < MAX_TRACKED ==> recent == old(recent) && seen == old(seen)
    {
      KeysCount(recent);
      assert |seen.Keys| == |seen|;
      if key !in seen && |seen| >= MAX_TRACKED {
        OldestIsFirst(seen, sequence, recent);
        var oldest :| oldest in seen && forall k | k in seen :: seen[oldest].1 <= seen[k].1;
        Remove(oldest);
      }
    }

    /** Remember the content under a fresh sequence number. */
    method Record(key: Key, mark: nat)
      requires Valid()
      modifies this
      ensures Valid() && recent == Touch(old(recent), Entry(key, mark))
    {
      ghost var was := recent;
      Evict(key);
      TouchInSteps(was, recent, Entry(key, mark));
      Stamp(key, mark);
    }

    /** Give the key the next sequence number, now that there is room for it. */
    method Stamp(key: Key, mark: nat)
      requires Valid() && |Without(recent, key)| < MAX_TRACKED
      modifies this
      ensures Valid() && recent == Without(old(recent), key) + [Entry(key, mark)]
    {
      TracksReplace(seen, sequence, recent, key, mark);
      recent := Without(recent, key) + [Entry(key, mark)];
      sequence := sequence + 1;
      seen := seen[key := (mark, sequence)];
    }

    /** Record the content; the result tells whether it was already known. */
    method RecordAgain(key: Key, mark: nat) returns (same: bool)
      requires Valid()
      modifies this
      ensures Valid() && recent == Touch(old(recent), Entry(key, mark))
      ensures same <==> Entry(key, mark) in old(recent)
    {
      same := key in seen && seen[key].0 == mark;
      TracksMark(seen, sequence, recent, Entry(key, mark));
      Record(key, mark);
    }

    method ShouldDisplay(device: string, n: Notification) returns (displays: bool)
      requires Valid()
      modifies this
      ensures Valid()
      ensures recent == Apply(old(recent), OpOf(hash, device, n))
      ensures displays == Displays(hash, old(recent), device, n)
      ensures displays <==>
                && Complete(n) && n.silent != Some(true) && n.requestAnswer != Some(true)
                && EntryOf(hash, device, n) !in old(recent)
      ensures Complete(n) ==> recent != [] && recent[|recent| - 1] == EntryOf(hash, device, n)
      ensures Cancels(n) ==> recent == Without(old(recent), KeyOf(device, n))
      ensures !Complete(n) && !Cancels(n) ==> recent == old(recent)
    {
      MeaningOfOp(hash, old(recent), device, n);
      if n.id.None? || n.id.value == "" {
        return false;
      }
      var key := Key(device, n.id.value);
      if n.isCancel == Some(true) {
        Remove(key);
        return false;
      }
      if n.title.None? || n.text.None? {
        return false;
      }
      var app := if n.appName.Some? then n.appName.value else "";
      var mark := hash(app, n.title.value, n.text.value);
      var same := RecordAgain(key, mark);
      displays := !same && n.silent != Some(true) && n.requestAnswer != Some(true);
    }

    method Forget(device: string, n: Notification)
      requires Valid()
      modifies this
      ensures Valid()
      ensures recent == if n.id.Some? then Without(old(recent), Key(device, n.id.value)) else old(recent)
    {
      if n.id.Some? {
        Remove(Key(device, n.id.value));
      }
    }
  }
}
