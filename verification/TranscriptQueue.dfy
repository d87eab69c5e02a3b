/** The transcript fan-out: every subscriber owns a bounded queue in which finals outlive partials. */
module TranscriptQueue {
  import opened Sequences

  datatype Transcript = Transcript(segmentId: string, text: string, final: bool)

  // ---------------------------------------------------------------------------------------
  // What a full queue gives up
  // ---------------------------------------------------------------------------------------

  /** The position of the oldest partial, or |s|. */
  function FirstPartial(s: seq<Transcript>): (i: nat)
    ensures i <= |s|
    ensures i < |s| ==> !s[i].final
    ensures forall j :: 0 <= j < i ==> s[j].final
  {
    if s == [] || !s[0].final then 0 else 1 + FirstPartial(s[1..])
  }

  /** s without its oldest partial; without its oldest entry if it has no partial. */
  ghost function GiveUpOne(s: seq<Transcript>): seq<Transcript>
    requires s != []
  {
    var i := if FirstPartial(s) < |s| then FirstPartial(s) else 0;
    s[..i] + s[i + 1..]
  }

  /** The queue after event was published to it: event is appended, and a queue that is then too
      long gives up one entry, which may be the event itself. */
  ghost function Published(queue: seq<Transcript>, event: Transcript, capacity: nat): seq<Transcript> {
    if |queue + [event]| <= capacity then queue + [event] else GiveUpOne(queue + [event])
  }

  function Finals(s: seq<Transcript>): seq<Transcript> {
    if s == [] then [] else Finals(s[..|s| - 1]) + if s[|s| - 1].final then [s[|s| - 1]] else []
  }

  lemma {:induction false} FinalsConcat(a: seq<Transcript>, b: seq<Transcript>)
    ensures Finals(a + b) == Finals(a) + Finals(b)
  {
    if b == [] {
      assert a + b == a;
    } else {
      assert (a + b)[..|a + b| - 1] == a + b[..|b| - 1];
      FinalsConcat(a, b[..|b| - 1]);
    }
  }

  lemma {:induction false} FinalsLength(s: seq<Transcript>)
    ensures |Finals(s)| <= |s|
    ensures |Finals(s)| == |s| <==> forall i :: 0 <= i < |s| ==> s[i].final
    ensures (forall i :: 0 <= i < |s| ==> s[i].final) ==> Finals(s) == s
  {
    if s != [] {
      FinalsLength(s[..|s| - 1]);
      assert s == s[..|s| - 1] + [s[|s| - 1]];
    }
  }

  lemma SplitAt<T>(s: seq<T>, i: nat)
    requires i < |s|
    ensures s == s[..i] + [s[i]] + s[i + 1..]
  {
  }

  lemma WithoutBehind<T>(a: seq<T>, s: seq<T>, i: nat)
    requires i < |s|
    ensures (a + s)[..|a| + i] + (a + s)[|a| + i + 1..] == a + (s[..i] + s[i + 1..])
  {
  }

  lemma FinalsOnce(a: seq<Transcript>, x: Transcript, b: seq<Transcript>)
    ensures !x.final ==> Finals(a + [x] + b) == Finals(a + b)
  {
    FinalsConcat(a, b);
    FinalsConcat(a + [x], b);
    assert (a + [x])[..|a|] == a;
    assert Finals(a) + [] == Finals(a);
  }

  lemma GiveUpPartial(s: seq<Transcript>, i: nat)
    requires i < |s| && !s[i].final
    ensures Finals(s[..i] + s[i + 1..]) == Finals(s)
  {
    FinalsOnce(s[..i], s[i], s[i + 1..]);
    SplitAt(s, i);
  }

  /** A final is given up only by a queue full of finals, and only for another final; it is then
      the oldest one. */
  lemma FinalsSurvive(queue: seq<Transcript>, event: Transcript, capacity: nat)
    requires |queue| <= capacity
    ensures var all := Finals(queue + [event]);
            Finals(Published(queue, event, capacity)) == if |all| <= capacity then all else all[1..]
  {
    var s := queue + [event];
    FinalsLength(s);
    if |s| > capacity {
      var i := FirstPartial(s);
      if i < |s| {
        GiveUpPartial(s, i);
      } else {
        FinalsLength(s[1..]);
        assert s[..0] + s[1..] == s[1..];
      }
    }
  }

  // ---------------------------------------------------------------------------------------
  // Runs of publishes and reads
  // ---------------------------------------------------------------------------------------

  datatype Event = Publish(transcript: Transcript) | Read

  /** A subscriber: what it still has queued, what it has read, and (for the specification) all
      that was published. */
  datatype Subscriber = Subscriber(queue: seq<Transcript>, read: seq<Transcript>, published: seq<Transcript>)

  ghost function Apply(s: Subscriber, event: Event, capacity: nat): Subscriber {
    match event
    case Publish(t) => Subscriber(Published(s.queue, t, capacity), s.read, s.published + [t])
    case Read =>
      if s.queue == [] then s else Subscriber(s.queue[1..], s.read + [s.queue[0]], s.published)
  }

  ghost function After(run: seq<Event>, capacity: nat): Subscriber {
    if run == [] then Subscriber([], [], [])
    else Apply(After(run[..|run| - 1], capacity), run[|run| - 1], capacity)
  }

  /** What was read, followed by what is queued, is an order-preserving part of what was
      published, and the queue keeps within its capacity. */
  lemma {:induction false} QueueIsSubsequence(run: seq<Event>, capacity: nat)
    requires capacity > 0
    ensures var s := After(run, capacity);
            |s.queue| <= capacity && Subsequence(s.read + s.queue, s.published)
  {
    if run == [] {
      Empty<Transcript>([]);
      assert After(run, capacity).read + After(run, capacity).queue == [];
    } else {
      var before := After(run[..|run| - 1], capacity);
      QueueIsSubsequence(run[..|run| - 1], capacity);
      match run[|run| - 1]
      case Publish(t) => PublishKeepsOrder(before, t, capacity);
      case Read =>
        if before.queue != [] {
          assert before.queue == [before.queue[0]] + before.queue[1..];
          assert before.read + before.queue == before.read + [before.queue[0]] + before.queue[1..];
        }
    }
  }

  lemma PublishKeepsOrder(s: Subscriber, t: Transcript, capacity: nat)
    requires Subsequence(s.read + s.queue, s.published)
    ensures Subsequence(s.read + Published(s.queue, t, capacity), s.published + [t])
  {
    var all := s.queue + [t];
    Extend(s.read + s.queue, s.published, t);
    assert s.read + s.queue + [t] == s.read + all;
    if |all| > capacity {
      var i := if FirstPartial(all) < |all| then FirstPartial(all) else 0;
      Without(s.read + all, s.published + [t], |s.read| + i);
      WithoutBehind(s.read, all, i);
    }
  }

  /** Finals published so far that the subscriber has not read. */
  ghost function Undelivered(s: Subscriber): int {
    |Finals(s.published)| - |Finals(s.read)|
  }

  ghost predicate Lossless(s: Subscriber) {
    Finals(s.read + s.queue) == Finals(s.published)
  }

  lemma PublishFinals(s: Subscriber, t: Transcript, capacity: nat)
    requires |s.queue| <= capacity
    ensures var newFinals := if t.final then [t] else [];
            var waiting := Finals(s.queue) + newFinals;
            var s' := Apply(s, Publish(t), capacity);
            && Finals(s'.published) == Finals(s.published) + newFinals
            && Finals(s'.read + s'.queue) == Finals(s.read) + if |waiting| <= capacity then waiting else waiting[1..]
  {
    assert [t][..0] == [];
    FinalsConcat(s.published, [t]);
    FinalsConcat(s.queue, [t]);
    FinalsSurvive(s.queue, t, capacity);
    FinalsConcat(s.read, Published(s.queue, t, capacity));
  }

  lemma ReadFinals(s: Subscriber, capacity: nat)
    ensures var s' := Apply(s, Read, capacity);
            s'.published == s.published && s'.read + s'.queue == s.read + s.queue
  {
  }

  /** How many finals were given up. */
  ghost function Lost(s: Subscriber): int {
    |Finals(s.published)| - |Finals(s.read + s.queue)|
  }

  /** One event never brings a final back, and gives one up exactly when more finals than the
      capacity are then undelivered. */
  lemma ApplyLoses(s: Subscriber, event: Event, capacity: nat)
    requires |s.queue| <= capacity
    ensures var s' := Apply(s, event, capacity);
            && Lost(s') >= Lost(s)
            && (Lost(s) == 0 ==> (Lost(s') == 0 <==> event.Read? || Undelivered(s') <= capacity))
            && (Lost(s) == 0 && Lost(s') == 0 && Lossless(s) ==> Lossless(s'))
  {
    FinalsConcat(s.read, s.queue);
    match event
    case Publish(t) =>
      PublishFinals(s, t, capacity);
    case Read =>
      ReadFinals(s, capacity);
  }

  lemma UndeliveredAfterRead(s: Subscriber, capacity: nat)
    requires |s.queue| <= capacity && Lost(s) == 0
    ensures Undelivered(s) <= capacity
  {
    FinalsConcat(s.read, s.queue);
    FinalsLength(s.queue);
  }

  /** At no point of the run were more than `capacity` finals undelivered. */
  ghost predicate KeptUp(run: seq<Event>, capacity: nat) {
    (run != [] ==> KeptUp(run[..|run| - 1], capacity)) && Undelivered(After(run, capacity)) <= capacity
  }

  /** No final is lost over a run if and only if at no point more than `capacity` finals were
      undelivered; what is not lost arrives in the order of publication. */
  lemma {:induction false} NoFinalLostIff(run: seq<Event>, capacity: nat)
    requires capacity > 0
    ensures Lost(After(run, capacity)) >= 0
    ensures Lossless(After(run, capacity)) <==> KeptUp(run, capacity)
    ensures Lossless(After(run, capacity)) <==> Lost(After(run, capacity)) == 0
  {
    if run != [] {
      var front := run[..|run| - 1];
      var s, s' := After(front, capacity), After(run, capacity);
      NoFinalLostIff(front, capacity);
      QueueIsSubsequence(front, capacity);
      QueueIsSubsequence(run, capacity);
      ApplyLoses(s, run[|run| - 1], capacity);
      if Lost(s') == 0 {
        UndeliveredAfterRead(s', capacity);
      }
    }
  }

  /** Entry i is the one to give up: the oldest partial, or the oldest entry if all are finals. */
  ghost predicate ToGiveUp(s: seq<Transcript>, i: nat) {
    && i < |s|
    && if exists k :: 0 <= k < |s| && !s[k].final then !s[i].final && forall k :: 0 <= k < i ==> s[k].final else i == 0
  }

  /** A publish, final or not, adds its event at the end; only from a full queue it takes one entry
      away, the oldest partial, which may be the event itself, or the oldest entry if all are finals. */
  lemma PublishTakesOne(queue: seq<Transcript>, event: Transcript, capacity: nat)
    requires |queue| <= capacity
    ensures var all, now := queue + [event], Published(queue, event, capacity);
            if |queue| < capacity then now == all
            else exists i: nat :: ToGiveUp(all, i) && now == all[..i] + all[i + 1..]
  {
    var all := queue + [event];
    if |queue| == capacity {
      var i := if FirstPartial(all) < |all| then FirstPartial(all) else 0;
      assert ToGiveUp(all, i);
    }
  }

  /** Every publish of the run found room. */
  ghost predicate Roomy(run: seq<Event>, capacity: nat) {
    run != [] ==>
      && Roomy(run[..|run| - 1], capacity)
      && (run[|run| - 1].Publish? ==> |After(run[..|run| - 1], capacity).queue| < capacity)
  }

  ghost predicate Complete(s: Subscriber) {
    s.read + s.queue == s.published
  }

  lemma RoomyStep(s: Subscriber, event: Event, capacity: nat)
    requires Complete(s) && (event.Publish? ==> |s.queue| < capacity)
    ensures Complete(Apply(s, event, capacity))
  {
    match event
    case Publish(t) => assert s.read + (s.queue + [t]) == s.read + s.queue + [t];
    case Read => ReadFinals(s, capacity);
  }

  /** A subscriber that always has room gets everything, partials too, in the order of publication. */
  lemma {:induction false} RoomyGetsAll(run: seq<Event>, capacity: nat)
    requires Roomy(run, capacity)
    ensures Complete(After(run, capacity))
  {
    if run != [] {
      RoomyGetsAll(run[..|run| - 1], capacity);
      RoomyStep(After(run[..|run| - 1], capacity), run[|run| - 1], capacity);
    } else {
      assert Complete(Subscriber([], [], []));
    }
  }

  // ---------------------------------------------------------------------------------------
  // The broker
  // ---------------------------------------------------------------------------------------

  /** The part of `asyncio.Queue` the broker uses. */
  class BoundedQueue {
    const maxsize: nat
    var items: seq<Transcript>

    constructor (maxsize: nat)
      ensures this.maxsize == maxsize && items == []
    {
      this.maxsize := maxsize;
      items := [];
    }

    predicate Full()
      reads this
    {
      |items| >= maxsize
    }

    method PutNowait(item: Transcript)
      requires !Full()
      modifies this
      ensures items == old(items) + [item]
    {
      items := items + [item];
    }

    method GetNowait() returns (item: Transcript)
      requires items != []
      modifies this
      ensures old(items) == [item] + items
    {
      item := items[0];
      items := items[1..];
    }
  }

  class RealtimeBroker {
    const capacity: nat
    var subscribers: seq<BoundedQueue>

    ghost predicate Valid()
      reads this, subscribers
    {
      && capacity > 0
      && (forall i, j :: 0 <= i < j < |subscribers| ==> subscribers[i] != subscribers[j])
      && (forall q :: q in subscribers ==> q.maxsize == capacity && |q.items| <= capacity)
    }

    constructor (capacity: nat)
      requires capacity > 0
      ensures Valid() && this.capacity == capacity && subscribers == []
    {
      this.capacity := capacity;
      subscribers := [];
    }

    method SubscribeTranscripts() returns (queue: BoundedQueue)
      requires Valid()
      modifies this
      ensures Valid() && fresh(queue) && queue.items == []
      ensures subscribers == old(subscribers) + [queue]
    {
      queue := new BoundedQueue(capacity);
      subscribers := subscribers + [queue];
    }

    /** Every subscriber gets the event, and no subscriber's queue affects another's. */
    method PublishTranscript(event: Transcript)
      requires Valid()
      modifies subscribers
      ensures Valid() && subscribers == old(subscribers)
      ensures forall q :: q in subscribers ==> q.items == Published(old(q.items), event, capacity)
    {
      for k := 0 to |subscribers|
        invariant Valid() && subscribers == old(subscribers)
        invariant forall i :: 0 <= i < k ==> subscribers[i].items == Published(old(subscribers[i].items), event, capacity)
        invariant forall i :: k <= i < |subscribers| ==> subscribers[i].items == old(subscribers[i].items)
      {
        PutTranscript(subscribers[k], event);
      }
    }

    static method PutTranscript(queue: BoundedQueue, event: Transcript)
      requires 0 < queue.maxsize && |queue.items| <= queue.maxsize
      modifies queue
      ensures queue.items == Published(old(queue.items), event, queue.maxsize)
      ensures |queue.items| <= queue.maxsize
    {
      if !queue.Full() {
        queue.PutNowait(event);
        return;
      }
      var queued := Drain(queue);
      var partialIndex := FirstPartial(queued);
      PartialOfLonger(queued, event);
      if !event.final && partialIndex == |queued| {
        Refill(queue, queued, |queued|);
        assert queued == (queued + [event])[..|queued|] + (queued + [event])[|queued| + 1..];
        return;
      }
      var evictedIndex := if partialIndex < |queued| then partialIndex else 0;
      Refill(queue, queued, evictedIndex);
      queue.PutNowait(event);
      assert queued[..evictedIndex] + queued[evictedIndex + 1..] + [event] ==
             (queued + [event])[..evictedIndex] + (queued + [event])[evictedIndex + 1..];
    }

    static method Drain(queue: BoundedQueue) returns (queued: seq<Transcript>)
      modifies queue
      ensures queue.items == [] && queued == old(queue.items)
    {
      queued := [];
      while queue.items != []
        invariant queued + queue.items == old(queue.items)
        decreases |queue.items|
      {
        var item := queue.GetNowait();
        queued := queued + [item];
      }
    }

    /** Put back all of queued but the entry at position skip. */
    static method Refill(queue: BoundedQueue, queued: seq<Transcript>, skip: nat)
      requires queue.items == [] && skip <= |queued| <= queue.maxsize
      modifies queue
      ensures queue.items == queued[..skip] + if skip < |queued| then queued[skip + 1..] else []
    {
      for index := 0 to |queued|
        invariant queue.items == if index <= skip then queued[..index] else queued[..skip] + queued[skip + 1..index]
      {
        if index != skip {
          queue.PutNowait(queued[index]);
        }
      }
    }
  }

  lemma {:induction false} PartialOfLonger(s: seq<Transcript>, x: Transcript)
    ensures FirstPartial(s + [x]) ==
            if FirstPartial(s) < |s| then FirstPartial(s) else if x.final then |s| + 1 else |s|
  {
    if s != [] {
      assert (s + [x])[1..] == s[1..] + [x];
      PartialOfLonger(s[1..], x);
    } else {
      assert s + [x] == [x];
    }
  }
}
