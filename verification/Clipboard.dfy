/** The clipboard worker's echo suppression (clipboard.rs): several seats, slow reads that finish
    late, and writes coming from the phone. */
module Clipboard {
  import opened Common

  datatype Content = Content(text: string, sensitive: bool, timestamp: nat)

  type Seat = nat

  const GENERATIONS := 0x1_0000_0000_0000_0000

  /** The selection counter is 64 bits wide and wraps. */
  type Generation = g: nat | g < GENERATIONS

  function Next(g: Generation): Generation {
    if g + 1 < GENERATIONS then g + 1 else 0
  }

  /** The counter after fewer than 2^64 steps. */
  function Later(g: Generation, n: nat): Generation
    requires n < GENERATIONS
  {
    if g + n < GENERATIONS then g + n else g + n - GENERATIONS
  }

  /** A read in flight: the generation it was begun under, and whether its seat's notice was a
      user change. */
  datatype Read = Read(generation: Generation, publish: bool)

  /** `published` is everything announced to the phone; `ready` that there is a manager and a
      seat to write to. */
  datatype Worker = Worker(
    generation: Generation,
    pending: Option<string>,
    current: Option<Content>,
    initialized: set<Seat>,
    published: seq<Content>,
    ready: bool)

  /** What a selection notice offers; `Unreadable` stands for a transfer that cannot start. */
  datatype Offer = NoOffer | NoText | Unreadable | Readable

  datatype Event =
    | SetText(text: string, now: nat)
    | Notice(seat: Seat, offer: Offer)
    | ReadDone(generation: Generation, publish: bool, content: Option<Content>)

  function Initial(ready: bool): Worker {
    Worker(0, None, None, {}, [], ready)
  }

  function Write(w: Worker, text: string, now: nat): Worker {
    if !w.ready then w
    else w.(pending := Some(text), current := Some(Content(text, false, now)))
  }

  predicate Echo(w: Worker, c: Content) {
    w.pending == Some(c.text)
  }

  predicate Duplicate(w: Worker, c: Content) {
    w.current.Some? && w.current.value.text == c.text && w.current.value.sensitive == c.sensitive
  }

  function Finish(w: Worker, generation: Generation, publish: bool, content: Option<Content>): Worker {
    if generation != w.generation then w
    else if content.None? then w.(current := None, pending := None)
    else if Echo(w, content.value) || Duplicate(w, content.value) then w.(pending := None)
    else
      w.(pending := None,
         current := content,
         published := if publish then w.published + [content.value] else w.published)
  }

  function BeginRead(w: Worker, offer: Offer, publish: bool): Worker {
    var begun := w.(generation := Next(w.generation));
    if offer == Readable then begun else Finish(begun, begun.generation, publish, None)
  }

  /** A seat's first notice only seeds the cache; later ones are user changes. */
  function Begin(w: Worker, seat: Seat, offer: Offer): Worker {
    BeginRead(w.(initialized := w.initialized + {seat}), offer, seat in w.initialized)
  }

  function Step(w: Worker, e: Event): Worker {
    match e
    case SetText(text, now) => Write(w, text, now)
    case Notice(seat, offer) => Begin(w, seat, offer)
    case ReadDone(generation, publish, content) => Finish(w, generation, publish, content)
  }

  function Run(w: Worker, events: seq<Event>): Worker
    decreases |events|
  {
    if events == [] then w else Step(Run(w, events[..|events| - 1]), events[|events| - 1])
  }

  /** The read a notice begins. */
  function Started(w: Worker, e: Event): multiset<Read> {
    if e.Notice? && e.offer == Readable then multiset{Read(Next(w.generation), e.seat in w.initialized)}
    else multiset{}
  }

  function Reported(e: Event): multiset<Read> {
    if e.ReadDone? then multiset{Read(e.generation, e.publish)} else multiset{}
  }

  /** The threads still reading a selection after `events`. */
  function InFlight(w: Worker, events: seq<Event>): multiset<Read>
    decreases |events|
  {
    if events == [] then multiset{}
    else
      var before, e := events[..|events| - 1], events[|events| - 1];
      InFlight(w, before) + Started(Run(w, before), e) - Reported(e)
  }

  /** A read reports once, with what it was begun with. */
  predicate LegalRun(w: Worker, events: seq<Event>)
    decreases |events|
  {
    events == [] ||
    (var before, e := events[..|events| - 1], events[|events| - 1];
     LegalRun(w, before) && Reported(e) <= InFlight(w, before))
  }

  lemma RunSnoc(w: Worker, events: seq<Event>, e: Event)
    ensures Run(w, events + [e]) == Step(Run(w, events), e)
    ensures InFlight(w, events + [e]) == InFlight(w, events) + Started(Run(w, events), e) - Reported(e)
    ensures LegalRun(w, events + [e]) <==> LegalRun(w, events) && Reported(e) <= InFlight(w, events)
  {
    assert (events + [e])[..|events + [e]| - 1] == events;
  }

  // --- The current text ----------------------------------------------------------------------

  function CurrentText(w: Worker): Option<string> {
    if w.current.Some? then Some(w.current.value.text) else None
  }

  predicate Fresh(w: Worker, e: Event) {
    e.ReadDone? && e.generation == w.generation
  }

  function ReadText(content: Option<Content>): Option<string> {
    if content.Some? then Some(content.value.text) else None
  }

  /** The text of the last remote write or fresh read; a selection that offers no text counts
      as a read of nothing. */
  function LastSource(w: Worker, events: seq<Event>): Option<string>
    decreases |events|
  {
    if events == [] then CurrentText(w)
    else
      var before, e := events[..|events| - 1], events[|events| - 1];
      match e
      case SetText(text, _) => if w.ready then Some(text) else LastSource(w, before)
      case Notice(_, offer) => if offer == Readable then LastSource(w, before) else None
      case ReadDone(_, _, content) =>
        if Fresh(Run(w, before), e) then ReadText(content) else LastSource(w, before)
  }

  /** A pending write is what the clipboard shows. */
  predicate Settled(w: Worker) {
    w.pending.Some? ==> CurrentText(w) == w.pending
  }

  lemma StepShows(w: Worker, e: Event)
    requires Settled(w)
    ensures Settled(Step(w, e)) && Step(w, e).ready == w.ready
    ensures CurrentText(Step(w, e)) ==
            match e
            case SetText(text, _) => if w.ready then Some(text) else CurrentText(w)
            case Notice(_, offer) => if offer == Readable then CurrentText(w) else None
            case ReadDone(_, _, content) => if Fresh(w, e) then ReadText(content) else CurrentText(w)
  {
  }

  lemma {:induction false} CurrentIsLastSource(w: Worker, events: seq<Event>)
    requires Settled(w)
    ensures CurrentText(Run(w, events)) == LastSource(w, events)
    ensures Settled(Run(w, events)) && Run(w, events).ready == w.ready
    decreases |events|
  {
    if events != [] {
      CurrentIsLastSource(w, events[..|events| - 1]);
      StepShows(Run(w, events[..|events| - 1]), events[|events| - 1]);
    }
  }

  // --- Generations ---------------------------------------------------------------------------

  function Notices(events: seq<Event>): nat
    decreases |events|
  {
    if events == [] then 0
    else Notices(events[..|events| - 1]) + if events[|events| - 1].Notice? then 1 else 0
  }

  lemma StepCounts(w: Worker, e: Event)
    ensures Step(w, e).generation == if e.Notice? then Next(w.generation) else w.generation
  {
  }

  lemma {:induction false} GenerationCounts(w: Worker, events: seq<Event>)
    requires Notices(events) < GENERATIONS
    ensures Run(w, events).generation == Later(w.generation, Notices(events))
    decreases |events|
  {
    if events != [] {
      var before := events[..|events| - 1];
      GenerationCounts(w, before);
      StepCounts(Run(w, before), events[|events| - 1]);
    }
  }

  /** A read in flight in `w` is still fresh after `events` exactly if no selection notice came
      meanwhile; once one did, what the read brings changes nothing. */
  lemma EarlierReadsAreIgnored(w: Worker, events: seq<Event>, publish: bool, content: Option<Content>)
    requires Notices(events) < GENERATIONS
    ensures var now, done := Run(w, events), ReadDone(w.generation, publish, content);
            && (Fresh(now, done) <==> Notices(events) == 0)
            && (Notices(events) > 0 ==> Step(now, done) == now)
  {
    GenerationCounts(w, events);
  }

  // --- Echoes --------------------------------------------------------------------------------

  /** Notices that start a read, stale reads, and fresh reads of `text` that is not sensitive. */
  predicate OnlyEchoes(w: Worker, events: seq<Event>, text: string)
    decreases |events|
  {
    events == [] ||
    (var before, e := events[..|events| - 1], events[|events| - 1];
     OnlyEchoes(w, before, text) &&
     match e
     case SetText(_, _) => false
     case Notice(_, offer) => offer == Readable
     case ReadDone(_, _, content) =>
       Fresh(Run(w, before), e) ==> content.Some? && content.value.text == text && !content.value.sensitive)
  }

  /** After a remote write, any number of seats reading it back, in any order and with any stale
      reads in between, publish nothing and leave the text in place. */
  lemma {:induction false} EchoesPublishNothing(w: Worker, text: string, now: nat, events: seq<Event>)
    requires w.ready && OnlyEchoes(Write(w, text, now), events, text)
    ensures var after := Run(Write(w, text, now), events);
            && after.published == w.published
            && CurrentText(after) == Some(text) && !after.current.value.sensitive
    decreases |events|
  {
    if events != [] {
      EchoesPublishNothing(w, text, now, events[..|events| - 1]);
    }
  }

  /** Notices and stale reads only, so that the next fresh read is the first after the write. */
  predicate NoFreshRead(w: Worker, events: seq<Event>)
    decreases |events|
  {
    events == [] ||
    (var before, e := events[..|events| - 1], events[|events| - 1];
     NoFreshRead(w, before) &&
     match e
     case SetText(_, _) => false
     case Notice(_, offer) => offer == Readable
     case ReadDone(_, _, _) => !Fresh(Run(w, before), e))
  }

  lemma {:induction false} WaitingKeepsWrite(w: Worker, events: seq<Event>)
    requires NoFreshRead(w, events)
    ensures var after := Run(w, events);
            after.pending == w.pending && after.current == w.current && after.published == w.published
    decreases |events|
  {
    if events != [] {
      WaitingKeepsWrite(w, events[..|events| - 1]);
    }
  }

  /** The first fresh read after a remote write is published exactly when it may be and its text
      is not the one written, whatever its sensitivity; the clipboard then shows what was read. */
  lemma FirstReadAfterWrite(w: Worker, text: string, now: nat, events: seq<Event>, publish: bool,
                            content: Option<Content>)
    requires w.ready && NoFreshRead(Write(w, text, now), events)
    ensures var waiting := Run(Write(w, text, now), events);
            var after := Step(waiting, ReadDone(waiting.generation, publish, content));
            && (after.published != w.published <==> publish && content.Some? && content.value.text != text)
            && CurrentText(after) == ReadText(content)
  {
    WaitingKeepsWrite(Write(w, text, now), events);
    var waiting := Run(Write(w, text, now), events);
    var after := Step(waiting, ReadDone(waiting.generation, publish, content));
    assert |after.published| == |w.published| || after.published == w.published + [content.value];
  }

  /** A write does not advance the generation: a read begun before it leaves the written text in
      place exactly if a notice came in between or the read carries that very text. */
  lemma WriteSurvivesEarlierRead(w: Worker, text: string, now: nat, events: seq<Event>, publish: bool,
                                 content: Option<Content>)
    requires w.ready && Notices(events) < GENERATIONS
    requires NoFreshRead(Write(w, text, now), events)
    ensures var waiting := Run(Write(w, text, now), events);
            var after := Step(waiting, ReadDone(w.generation, publish, content));
            CurrentText(after) == Some(text) <==> Notices(events) > 0 || ReadText(content) == Some(text)
  {
    WaitingKeepsWrite(Write(w, text, now), events);
    FirstReadAfterWrite(w, text, now, events, publish, content);
    EarlierReadsAreIgnored(Write(w, text, now), events, publish, content);
  }

  const SEAT: Seat := 0

  /** A user change whose read is slow, overtaken by the phone's text, still replaces it and is
      announced. */
  function Overtaking(now: nat): seq<Event> {
    [Notice(SEAT, Readable), ReadDone(1, false, Some(OLD)), Notice(SEAT, Readable),
     SetText("phone", now), ReadDone(2, true, Some(Content("desktop", false, now)))]
  }

  predicate Reaches(before: seq<Event>, w: Worker, inFlight: multiset<Read>) {
    Run(Initial(true), before) == w && InFlight(Initial(true), before) == inFlight && LegalRun(Initial(true), before)
  }

  lemma Advance(before: seq<Event>, w: Worker, inFlight: multiset<Read>, e: Event, w': Worker,
                inFlight': multiset<Read>)
    requires Reaches(before, w, inFlight) && Reported(e) <= inFlight
    requires Step(w, e) == w' && inFlight + Started(w, e) - Reported(e) == inFlight'
    ensures Reaches(before + [e], w', inFlight')
  {
    RunSnoc(Initial(true), before, e);
  }

  const OLD := Content("old", false, 0)

  /** The worker once a first snapshot is read. */
  const SEEDED := Worker(1, None, Some(OLD), {SEAT}, [], true)

  /** A later read has begun. */
  const READING := Worker(2, None, Some(OLD), {SEAT}, [], true)

  /** The phone has written meanwhile. */
  function Written(now: nat): Worker {
    Worker(2, Some("phone"), Some(Content("phone", false, now)), {SEAT}, [], true)
  }

  lemma SeedingSteps()
    ensures var w := Worker(1, None, None, {SEAT}, [], true);
            && Step(Initial(true), Notice(SEAT, Readable)) == w
            && Step(w, ReadDone(1, false, Some(OLD))) == SEEDED
    ensures multiset{} + Started(Initial(true), Notice(SEAT, Readable)) - Reported(Notice(SEAT, Readable))
            == multiset{Read(1, false)}
  {
  }

  lemma WritingSteps(now: nat)
    ensures Step(SEEDED, Notice(SEAT, Readable)) == READING && Step(READING, SetText("phone", now)) == Written(now)
    ensures multiset{} + Started(SEEDED, Notice(SEAT, Readable)) - Reported(Notice(SEAT, Readable))
            == multiset{Read(2, true)}
  {
  }

  lemma FirstSnapshotRead()
    ensures Reaches([Notice(SEAT, Readable), ReadDone(1, false, Some(OLD))], SEEDED, multiset{})
  {
    var begin, read := Notice(SEAT, Readable), ReadDone(1, false, Some(OLD));
    SeedingSteps();
    Advance([], Initial(true), multiset{}, begin, Worker(1, None, None, {SEAT}, [], true), multiset{Read(1, false)});
    Advance([] + [begin], Worker(1, None, None, {SEAT}, [], true), multiset{Read(1, false)}, read, SEEDED, multiset{});
    AppendTwo([], begin, read);
  }

  lemma WrittenWhileReading(before: seq<Event>, now: nat)
    requires Reaches(before, SEEDED, multiset{})
    ensures Reaches(before + [Notice(SEAT, Readable), SetText("phone", now)], Written(now), multiset{Read(2, true)})
  {
    var begin, write := Notice(SEAT, Readable), SetText("phone", now);
    WritingSteps(now);
    Advance(before, SEEDED, multiset{}, begin, READING, multiset{Read(2, true)});
    Advance(before + [begin], READING, multiset{Read(2, true)}, write, Written(now), multiset{Read(2, true)});
    AppendTwo(before, begin, write);
  }

  lemma AppendTwo<T>(s: seq<T>, a: T, b: T)
    ensures s + [a] + [b] == s + [a, b]
    ensures s == [] ==> s + [a] == [a]
  {
  }

  lemma OvertakingPrefixes(now: nat)
    ensures var events := Overtaking(now);
            && events[..4] == [events[0], events[1]] + [events[2], events[3]]
            && events == events[..4] + [events[4]]
  {
  }

  lemma OvertakingStep(now: nat)
    ensures var w := Step(Written(now), ReadDone(2, true, Some(Content("desktop", false, now))));
            CurrentText(w) == Some("desktop") && w.published == [Content("desktop", false, now)]
  {
    assert "phone"[0] != "desktop"[0];
  }

  lemma EarlierReadOvertakesWrite(now: nat)
    ensures var events := Overtaking(now);
            var after := Run(Initial(true), events);
            && LegalRun(Initial(true), events)
            && CurrentText(Run(Initial(true), events[..4])) == Some("phone")
            && CurrentText(after) == Some("desktop") && after.published == [Content("desktop", false, now)]
  {
    var events := Overtaking(now);
    FirstSnapshotRead();
    WrittenWhileReading([events[0], events[1]], now);
    OvertakingPrefixes(now);
    OvertakingStep(now);
    RunSnoc(Initial(true), events[..4], events[4]);
  }

  // --- First snapshots -----------------------------------------------------------------------

  predicate Noticed(events: seq<Event>, seat: Seat) {
    exists i | 0 <= i < |events| :: events[i].Notice? && events[i].seat == seat
  }

  /** Event `i` began the read: a notice offering text, of a seat noticed before if and only if
      the read may be published. */
  predicate BeganAt(events: seq<Event>, i: nat, read: Read)
    requires i < |events|
  {
    && events[i].Notice? && events[i].offer == Readable
    && Notices(events[..i + 1]) == read.generation
    && (read.publish <==> Noticed(events[..i], events[i].seat))
  }

  ghost predicate Began(events: seq<Event>, read: Read) {
    exists i: nat | i < |events| :: BeganAt(events, i, read)
  }

  lemma BeganGrows(events: seq<Event>, e: Event, read: Read)
    requires Began(events, read)
    ensures Began(events + [e], read)
  {
    var i: nat :| i < |events| && BeganAt(events, i, read);
    assert (events + [e])[..i + 1] == events[..i + 1] && (events + [e])[..i] == events[..i];
    assert BeganAt(events + [e], i, read);
  }

  lemma NoticedSnoc(events: seq<Event>, e: Event, seat: Seat)
    ensures Noticed(events + [e], seat) <==> Noticed(events, seat) || (e.Notice? && e.seat == seat)
  {
    if Noticed(events, seat) {
      var i :| 0 <= i < |events| && events[i].Notice? && events[i].seat == seat;
      assert (events + [e])[i] == events[i];
    }
    assert (events + [e])[|events|] == e;
  }

  /** What the worker knows about its reads and seats is what happened. */
  ghost predicate Remembers(w: Worker, inFlight: multiset<Read>, events: seq<Event>) {
    && w.generation == Notices(events)
    && (forall seat :: seat in w.initialized <==> Noticed(events, seat))
    && (forall read | read in inFlight :: Began(events, read))
  }

  lemma StepSeats(w: Worker, e: Event)
    ensures Step(w, e).initialized == if e.Notice? then w.initialized + {e.seat} else w.initialized
  {
  }

  lemma BeginsNow(events: seq<Event>, e: Event, read: Read)
    requires e.Notice? && e.offer == Readable
    requires read.generation == Notices(events) + 1 && (read.publish <==> Noticed(events, e.seat))
    ensures Began(events + [e], read)
  {
    var all := events + [e];
    assert all[..|events| + 1] == all && all[..|events|] == events && all[..|all| - 1] == events;
    assert BeganAt(all, |events|, read);
  }

  lemma StepRemembers(w: Worker, inFlight: multiset<Read>, events: seq<Event>, e: Event)
    requires Remembers(w, inFlight, events) && Notices(events + [e]) < GENERATIONS
    ensures Remembers(Step(w, e), inFlight + Started(w, e) - Reported(e), events + [e])
  {
    var all, w' := events + [e], Step(w, e);
    assert all[..|all| - 1] == events;
    StepCounts(w, e);
    StepSeats(w, e);
    forall seat
      ensures seat in w'.initialized <==> Noticed(all, seat)
    {
      NoticedSnoc(events, e, seat);
    }
    forall read | read in inFlight + Started(w, e)
      ensures Began(all, read)
    {
      if read in inFlight {
        BeganGrows(events, e, read);
      } else {
        BeginsNow(events, e, read);
      }
    }
  }

  lemma {:induction false} RunRemembers(ready: bool, events: seq<Event>)
    requires Notices(events) < GENERATIONS
    ensures Remembers(Run(Initial(ready), events), InFlight(Initial(ready), events), events)
    decreases |events|
  {
    if events != [] {
      var before, e := events[..|events| - 1], events[|events| - 1];
      assert before + [e] == events;
      RunRemembers(ready, before);
      StepRemembers(Run(Initial(ready), before), InFlight(Initial(ready), before), before, e);
    }
  }

  lemma {:induction false} NoticesGrow(events: seq<Event>, i: nat, k: nat)
    requires i <= k <= |events|
    ensures Notices(events[..i]) <= Notices(events[..k])
    decreases k
  {
    if i < k {
      NoticesGrow(events, i, k - 1);
      assert events[..k][..k - 1] == events[..k - 1];
    }
  }

  lemma NoticesUpTo(events: seq<Event>, i: nat)
    requires i <= |events|
    ensures Notices(events[..i]) <= Notices(events)
  {
    NoticesGrow(events, i, |events|);
    assert events[..|events|] == events;
  }

  /** The last notice of `events` offers text, and its seat was noticed before. */
  predicate ByUser(events: seq<Event>) {
    exists i: nat | i < |events| :: LastNotice(events, i) && Noticed(events[..i], events[i].seat)
  }

  predicate LastNotice(events: seq<Event>, i: nat)
    requires i < |events|
  {
    events[i].Notice? && events[i].offer == Readable && forall k | i < k < |events| :: !events[k].Notice?
  }

  /** Only a user change is ever published: what a seat's first snapshot holds never is, nor
      what was read before the last notice. */
  lemma OnlyUserChangesArePublished(ready: bool, events: seq<Event>, e: Event)
    requires LegalRun(Initial(ready), events + [e]) && Notices(events) < GENERATIONS
    requires Step(Run(Initial(ready), events), e).published != Run(Initial(ready), events).published
    ensures e.ReadDone? && ByUser(events)
    ensures e.content.Some? && Run(Initial(ready), events + [e]).published
                               == Run(Initial(ready), events).published + [e.content.value]
  {
    RunSnoc(Initial(ready), events, e);
    RunRemembers(ready, events);
    PublishingStep(Run(Initial(ready), events), e);
    assert Reported(e)[Read(e.generation, e.publish)] == 1;
    BeganLast(events, Read(e.generation, e.publish));
  }

  lemma PublishingStep(w: Worker, e: Event)
    requires Step(w, e).published != w.published
    ensures Fresh(w, e) && e.publish && e.content.Some?
    ensures Step(w, e).published == w.published + [e.content.value]
  {
  }

  lemma BeganLast(events: seq<Event>, read: Read)
    requires Began(events, read) && read.publish && read.generation == Notices(events)
    ensures ByUser(events)
  {
    var i: nat :| i < |events| && BeganAt(events, i, read);
    LastByCount(events, i);
  }

  // --- What must be announced ------------------------------------------------------------------

  /** The text is neither the one the phone just wrote nor what the clipboard already shows. */
  predicate Unseen(w: Worker, content: Option<Content>) {
    && content.Some?
    && w.pending != Some(content.value.text)
    && !(w.current.Some? && w.current.value.text == content.value.text
         && w.current.value.sensitive == content.value.sensitive)
  }

  /** A report of the current generation that brings something unseen. */
  predicate New(w: Worker, generation: Generation, content: Option<Content>) {
    generation == w.generation && Unseen(w, content)
  }

  /** Event `i` is a user's change: a notice of a seat noticed before, offering text, whose read
      runs under this generation. */
  predicate BegunByUser(events: seq<Event>, i: nat, generation: Generation)
    requires i < |events|
  {
    BeganAt(events, i, Read(generation, true))
  }

  /** In every run, the report of a read that a user's change began may be announced, and brings
      something new exactly if no notice came since and its text was not seen before. */
  lemma UserChangeIsNew(ready: bool, events: seq<Event>, i: nat, generation: Generation, publish: bool,
                        content: Option<Content>)
    requires LegalRun(Initial(ready), events) && Notices(events) < GENERATIONS
    requires Read(generation, publish) in InFlight(Initial(ready), events)
    requires i < |events| && BegunByUser(events, i, generation)
    ensures publish
    ensures New(Run(Initial(ready), events), generation, content)
            <==> LastNotice(events, i) && Unseen(Run(Initial(ready), events), content)
  {
    RunRemembers(ready, events);
    var k: nat :| k < |events| && BeganAt(events, k, Read(generation, publish));
    SameNotice(events, i, k);
    LastByCount(events, i);
  }

  lemma SameNotice(events: seq<Event>, i: nat, k: nat)
    requires i < |events| && k < |events| && events[i].Notice? && events[k].Notice?
    requires Notices(events[..i + 1]) == Notices(events[..k + 1])
    ensures i == k
  {
    NoticeCounts(events, i);
    NoticeCounts(events, k);
    if i < k {
      NoticesGrow(events, i + 1, k);
    } else if k < i {
      NoticesGrow(events, k + 1, i);
    }
  }

  lemma NoticeCounts(events: seq<Event>, i: nat)
    requires i < |events| && events[i].Notice?
    ensures Notices(events[..i + 1]) == Notices(events[..i]) + 1
  {
    assert events[..i + 1][..i] == events[..i];
  }

  lemma {:induction false} InitializedAreNoticed(ready: bool, events: seq<Event>, seat: Seat)
    ensures seat in Run(Initial(ready), events).initialized <==> Noticed(events, seat)
    decreases |events|
  {
    if events != [] {
      var before, e := events[..|events| - 1], events[|events| - 1];
      assert before + [e] == events;
      InitializedAreNoticed(ready, before, seat);
      NoticedSnoc(before, e, seat);
      StepSeats(Run(Initial(ready), before), e);
    }
  }

  lemma NoticeStarts(ready: bool, events: seq<Event>, seat: Seat, offer: Offer)
    ensures var w, e := Run(Initial(ready), events), Notice(seat, offer);
            && (seat in w.initialized <==> Noticed(events, seat))
            && Step(w, e).generation == Next(w.generation)
            && (offer == Readable ==>
                  Read(Next(w.generation), seat in w.initialized) in InFlight(Initial(ready), events + [e]))
  {
    InitializedAreNoticed(ready, events, seat);
    StepCounts(Run(Initial(ready), events), Notice(seat, offer));
    RunSnoc(Initial(ready), events, Notice(seat, offer));
  }

  lemma LastByCount(events: seq<Event>, i: nat)
    requires i < |events| && events[i].Notice? && events[i].offer == Readable
    ensures Notices(events[..i + 1]) == Notices(events) <==> LastNotice(events, i)
  {
    if LastNotice(events, i) {
      NoMoreNotices(events, i + 1);
    } else {
      var k :| i < k < |events| && events[k].Notice?;
      LaterNoticeCounts(events, i, k);
    }
  }

  lemma LaterNoticeCounts(events: seq<Event>, i: nat, k: nat)
    requires i < k < |events| && events[k].Notice?
    ensures Notices(events[..i + 1]) < Notices(events)
  {
    NoticesGrow(events, i + 1, k);
    NoticeCounts(events, k);
    NoticesUpTo(events, k + 1);
  }

  lemma {:induction false} NoMoreNotices(events: seq<Event>, i: nat)
    requires i <= |events| && forall k | i <= k < |events| :: !events[k].Notice?
    ensures Notices(events[..i]) == Notices(events)
    decreases |events|
  {
    if i == |events| {
      assert events[..i] == events;
    } else {
      var before := events[..|events| - 1];
      assert before[..i] == events[..i];
      NoMoreNotices(before, i);
    }
  }

  // --- The worker ----------------------------------------------------------------------------

  class ClipboardWorker {
    var selectionGeneration: Generation
    var pendingRemoteWrite: Option<string>
    var current: Option<Content>
    var initializedDevices: set<Seat>
    var events: seq<Content>
    const ready: bool
    /** Everything handled so far. */
    ghost var run: seq<Event>

    function View(): Worker
      reads this
    {
      Worker(selectionGeneration, pendingRemoteWrite, current, initializedDevices, events, ready)
    }

    ghost predicate Valid()
      reads this
    {
      LegalRun(Initial(ready), run) && View() == Run(Initial(ready), run)
    }

    constructor (ready: bool)
      ensures Valid() && run == [] && this.ready == ready
    {
      selectionGeneration, pendingRemoteWrite, current := 0, None, None;
      initializedDevices, events := {}, [];
      this.ready := ready;
      run := [];
    }

    /** A text from the phone is shown at once and never announced back. */
    method SetClipboardText(text: string, now: nat)
      requires Valid()
      modifies this
      ensures Valid() && run == old(run) + [SetText(text, now)]
      ensures CurrentText(View()) == if ready then Some(text) else LastSource(Initial(ready), old(run))
      ensures ready ==> current == Some(Content(text, false, now)) && pendingRemoteWrite == Some(text)
      ensures !ready ==> View() == old(View())
      ensures events == old(events)
    {
      CurrentIsLastSource(Initial(ready), run);
      RunSnoc(Initial(ready), run, SetText(text, now));
      run := run + [SetText(text, now)];
      WriteSelection(text, now);
    }

    /** Show the text and expect its echo, if there is a seat to write to. */
    method WriteSelection(text: string, now: nat)
      modifies this`pendingRemoteWrite, this`current
      ensures View() == Write(old(View()), text, now)
      ensures ready ==> current == Some(Content(text, false, now)) && pendingRemoteWrite == Some(text)
      ensures !ready ==> View() == old(View())
    {
      if !ready {
        return;
      }
      pendingRemoteWrite := Some(text);
      current := Some(Content(text, false, now));
    }

    /** The clipboard shows what a fresh read found, whether it was an echo, a duplicate or new;
        a stale one changes nothing. What is new is announced if it may be, and nothing else. */
    method FinishSelectionRead(generation: Generation, publish: bool, content: Option<Content>)
      modifies this
      ensures View() == Finish(old(View()), generation, publish, content) && run == old(run)
      ensures generation != old(selectionGeneration) ==> View() == old(View())
      ensures generation == old(selectionGeneration) && old(Settled(View())) ==>
                CurrentText(View()) == ReadText(content) && pendingRemoteWrite == None
      ensures events == old(events) + (if publish && New(old(View()), generation, content) then [content.value] else [])
      ensures New(old(View()), generation, content) ==> current == content
    {
      if generation != selectionGeneration {
        return;
      }
      var previous := current;
      if content.None? {
        current := None;
        pendingRemoteWrite := None;
        return;
      }
      if pendingRemoteWrite == Some(content.value.text) {
        pendingRemoteWrite := None;
        return;
      }
      pendingRemoteWrite := None;
      if previous.Some? && previous.value.text == content.value.text
         && previous.value.sensitive == content.value.sensitive {
        return;
      }
      current := content;
      if publish {
        events := events + [content.value];
      }
    }

    /** Whatever is in flight becomes stale; without text to read the clipboard is empty. */
    method BeginSelectionRead(offer: Offer, publish: bool)
      modifies this
      ensures View() == BeginRead(old(View()), offer, publish) && run == old(run)
      ensures selectionGeneration != old(selectionGeneration)
      ensures CurrentText(View()) == if offer == Readable then CurrentText(old(View())) else None
      ensures events == old(events)
    {
      selectionGeneration := Next(selectionGeneration);
      if offer != Readable {
        FinishSelectionRead(selectionGeneration, publish, None);
        return;
      }
    }

    /** A selection notice. It announces nothing itself, and no read begun before it counts any
        more. It starts a read if there is text, to be announced if the seat was noticed before. */
    method HandleSelection(seat: Seat, offer: Offer) returns (started: Option<Read>)
      requires Valid()
      modifies this
      ensures Valid() && run == old(run) + [Notice(seat, offer)]
      ensures started == if offer == Readable then Some(Read(selectionGeneration, Noticed(old(run), seat))) else None
      ensures started.Some? ==> started.value in InFlight(Initial(ready), run)
      ensures CurrentText(View()) == if offer == Readable then old(CurrentText(View())) else None
      ensures events == old(events)
      ensures Notices(run) < GENERATIONS ==> AllStale(ready, old(run), selectionGeneration)
    {
      NoticeHandled(ready, run, seat, offer);
      run := run + [Notice(seat, offer)];
      started := NoticeSelection(seat, offer);
    }

    /** A seat's first notice only seeds the cache. */
    method NoticeSelection(seat: Seat, offer: Offer) returns (started: Option<Read>)
      modifies this
      ensures View() == Begin(old(View()), seat, offer) && run == old(run) && events == old(events)
      ensures CurrentText(View()) == if offer == Readable then old(CurrentText(View())) else None
      ensures started
              == if offer == Readable then Some(Read(selectionGeneration, seat in old(initializedDevices))) else None
    {
      var publish := seat in initializedDevices;
      initializedDevices := initializedDevices + {seat};
      BeginSelectionRead(offer, publish);
      started := if offer == Readable then Some(Read(selectionGeneration, publish)) else None;
    }

    /** The report of a read in flight. What it announces is a user's change of the selection. */
    method SelectionRead(generation: Generation, publish: bool, content: Option<Content>)
      requires Valid() && Read(generation, publish) in InFlight(Initial(ready), run)
      modifies this
      ensures Valid() && run == old(run) + [ReadDone(generation, publish, content)]
      ensures CurrentText(View()) == LastSource(Initial(ready), run)
      ensures events == old(events) + (if publish && New(old(View()), generation, content) then [content.value] else [])
      ensures events != old(events) && Notices(run) < GENERATIONS ==> ByUser(old(run))
      ensures Notices(run) < GENERATIONS ==>
                forall i: nat | i < |old(run)| && BegunByUser(old(run), i, generation) ::
                  && publish
                  && (New(old(View()), generation, content)
                      <==> LastNotice(old(run), i) && Unseen(old(View()), content))
    {
      ghost var e := ReadDone(generation, publish, content);
      RunSnoc(Initial(ready), run, e);
      assert (run + [e])[..|run + [e]| - 1] == run;
      CurrentIsLastSource(Initial(ready), run + [e]);
      if Step(View(), e).published != events && Notices(run) < GENERATIONS {
        OnlyUserChangesArePublished(ready, run, e);
      }
      forall i: nat | Notices(run + [e]) < GENERATIONS && i < |run| && BegunByUser(run, i, generation)
        ensures publish && (New(View(), generation, content) <==> LastNotice(run, i) && Unseen(View(), content))
      {
        UserChangeIsNew(ready, run, i, generation, publish, content);
      }
      run := run + [e];
      FinishSelectionRead(generation, publish, content);
    }
  }

  lemma InFlightBegan(ready: bool, events: seq<Event>, read: Read)
    requires Notices(events) < GENERATIONS && read in InFlight(Initial(ready), events)
    ensures read.generation <= Notices(events)
  {
    RunRemembers(ready, events);
    var i: nat :| i < |events| && BeganAt(events, i, read);
    NoticesUpTo(events, i + 1);
  }

  /** No read in flight after these events runs under this generation. */
  ghost predicate AllStale(ready: bool, events: seq<Event>, generation: Generation) {
    forall read | read in InFlight(Initial(ready), events) :: read.generation != generation
  }

  lemma NoticeOutdates(ready: bool, events: seq<Event>, e: Event)
    requires e.Notice? && Notices(events + [e]) < GENERATIONS
    ensures AllStale(ready, events, Step(Run(Initial(ready), events), e).generation)
  {
    assert (events + [e])[..|events + [e]| - 1] == events;
    RunRemembers(ready, events);
    StepCounts(Run(Initial(ready), events), e);
    forall read | read in InFlight(Initial(ready), events)
      ensures read.generation <= Notices(events)
    {
      InFlightBegan(ready, events, read);
    }
  }

  lemma NoticeHandled(ready: bool, events: seq<Event>, seat: Seat, offer: Offer)
    requires LegalRun(Initial(ready), events)
    ensures var w, all := Run(Initial(ready), events), events + [Notice(seat, offer)];
            && LegalRun(Initial(ready), all) && Run(Initial(ready), all) == Begin(w, seat, offer)
            && (seat in w.initialized <==> Noticed(events, seat))
            && Begin(w, seat, offer).generation == Next(w.generation)
            && (offer == Readable ==> Read(Next(w.generation), Noticed(events, seat)) in InFlight(Initial(ready), all))
            && (Notices(all) < GENERATIONS ==> AllStale(ready, events, Next(w.generation)))
  {
    var e := Notice(seat, offer);
    RunSnoc(Initial(ready), events, e);
    NoticeStarts(ready, events, seat, offer);
    if Notices(events + [e]) < GENERATIONS {
      NoticeOutdates(ready, events, e);
    }
  }
}
