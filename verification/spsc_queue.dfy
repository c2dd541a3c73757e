/** The plugin's lock-free single-producer single-consumer queue. */
module SpscQueues {
  // A push and a pop are split into their separate atomic loads, the copy of the chunk one machine word at a time, and
  // the publishing store; the two threads' steps may be interleaved in any order. The locals each thread holds between
  // two steps are part of the state.

  import opened Rings

  /** A chunk as the machine words of its struct, all chunks having the same number of words. */
  type Chunk = seq<int>

  /** Word 1 is the duration in microseconds. */
  function DurationUs(chunk: Chunk): int
  {
    if |chunk| > 1 then chunk[1] else 0
  }

  datatype Producer =
    | Idle
    | LoadedHead(chunk: Chunk, currHead: nat, nextHead: nat)
    | Rejecting(chunk: Chunk)
    | Copying(chunk: Chunk, currHead: nat, nextHead: nat, copied: nat)

  datatype Consumer =
    | Waiting
    | LoadedTail(currTail: nat)
    | Reading(currTail: nat, words: Chunk)

  datatype State = State(
    capacity: nat,
    size: nat,
    ring: seq<Chunk>,
    head: nat,
    tail: nat,
    droppedUs: int,
    producer: Producer,
    consumer: Consumer,
    accepted: seq<Chunk>,
    rejected: seq<Chunk>,
    popped: seq<Chunk>)

  datatype Event =
    | StartPush(chunk: Chunk) | LoadTail | CountDrop | WriteWord | PublishHead
    | StartPop | LoadHead | ReadWord | PublishTail

  function Init(capacity: nat, size: nat): State
  {
    State(capacity, size, seq(capacity + 1, _ => seq(size, _ => 0)), 0, 0, 0, Idle, Waiting, [], [], [])
  }

  /** One step of one thread; a step the thread is not ready for changes nothing. */
  function Next(s: State, e: Event): State
  {
    match e
    case StartPush(chunk) =>
      if s.producer.Idle? && |chunk| == s.size
      then s.(producer := LoadedHead(chunk, s.head, (s.head + 1) % (s.capacity + 1))) else s
    case LoadTail =>
      if !s.producer.LoadedHead? then s
      else if s.producer.nextHead == s.tail then s.(producer := Rejecting(s.producer.chunk))
      else s.(producer := Copying(s.producer.chunk, s.producer.currHead, s.producer.nextHead, 0))
    case CountDrop =>
      if !s.producer.Rejecting? then s
      else s.(droppedUs := s.droppedUs + DurationUs(s.producer.chunk), rejected := s.rejected + [s.producer.chunk],
              producer := Idle)
    case WriteWord =>
      if s.producer.Copying? && s.producer.copied < |s.producer.chunk| && s.producer.currHead < |s.ring|
         && s.producer.copied < |s.ring[s.producer.currHead]|
      then
        var slot, k := s.producer.currHead, s.producer.copied;
        s.(ring := s.ring[slot := s.ring[slot][k := s.producer.chunk[k]]], producer := s.producer.(copied := k + 1))
      else s
    case PublishHead =>
      if s.producer.Copying? && s.producer.copied == |s.producer.chunk|
      then s.(head := s.producer.nextHead, accepted := s.accepted + [s.producer.chunk], producer := Idle) else s
    case StartPop =>
      if s.consumer.Waiting? then s.(consumer := LoadedTail(s.tail)) else s
    case LoadHead =>
      if !s.consumer.LoadedTail? then s
      else if s.consumer.currTail == s.head then s.(consumer := Waiting)
      else s.(consumer := Reading(s.consumer.currTail, []))
    case ReadWord =>
      if s.consumer.Reading? && s.consumer.currTail < |s.ring| && |s.consumer.words| < |s.ring[s.consumer.currTail]|
      then
        var word := s.ring[s.consumer.currTail][|s.consumer.words|];
        s.(consumer := s.consumer.(words := s.consumer.words + [word]))
      else s
    case PublishTail =>
      if s.consumer.Reading? && |s.consumer.words| == s.size
      then s.(tail := (s.consumer.currTail + 1) % (s.capacity + 1), popped := s.popped + [s.consumer.words],
              consumer := Waiting) else s
  }

  function Run(s: State, events: seq<Event>): State
    decreases |events|
  {
    if events == [] then s else Run(Next(s, events[0]), events[1..])
  }

  // ------------------------------------------------------------- invariant

  function TotalUs(chunks: seq<Chunk>): int
  {
    if chunks == [] then 0 else TotalUs(chunks[..|chunks| - 1]) + DurationUs(chunks[|chunks| - 1])
  }

  ghost predicate Shape(s: State)
  {
    && s.capacity > 0
    && |s.ring| == s.capacity + 1
    && (forall i :: 0 <= i < |s.ring| ==> |s.ring[i]| == s.size)
    && |s.popped| <= |s.accepted| <= |s.popped| + s.capacity
    && s.head == Index(|s.accepted|, s.capacity + 1)
    && s.tail == Index(|s.popped|, s.capacity + 1)
  }

  /** The published slots hold the chunks accepted and not yet popped. */
  ghost predicate Holds(s: State)
    requires Shape(s)
  {
    && s.popped == s.accepted[..|s.popped|]
    && (forall i :: |s.popped| <= i < |s.accepted| ==> s.ring[Index(i, s.capacity + 1)] == s.accepted[i])
    && (forall i :: 0 <= i < |s.accepted| ==> |s.accepted[i]| == s.size)
  }

  ghost predicate ProducerOk(s: State)
    requires Shape(s)
  {
    match s.producer
    case Idle => true
    case Rejecting(chunk) => true
    case LoadedHead(chunk, currHead, nextHead) =>
      && |chunk| == s.size
      && currHead == s.head && nextHead == Index(|s.accepted| + 1, s.capacity + 1)
    case Copying(chunk, currHead, nextHead, copied) =>
      && |chunk| == s.size
      && currHead == s.head && nextHead == Index(|s.accepted| + 1, s.capacity + 1)
      && |s.accepted| < |s.popped| + s.capacity
      && copied <= s.size && s.ring[currHead][..copied] == chunk[..copied]
  }

  ghost predicate ConsumerOk(s: State)
    requires Shape(s)
  {
    match s.consumer
    case Waiting => true
    case LoadedTail(currTail) => currTail == s.tail
    case Reading(currTail, words) =>
      && currTail == s.tail
      && |s.popped| < |s.accepted|
      && words <= s.accepted[|s.popped|]
  }

  ghost predicate Inv(s: State)
  {
    && Shape(s) && Holds(s) && ProducerOk(s) && ConsumerOk(s)
    && s.droppedUs == TotalUs(s.rejected)
  }

  lemma NextIndex(x: nat, cap: nat)
    requires cap > 0
    ensures (Index(x, cap) + 1) % cap == Index(x + 1, cap)
  {
    IndexIsSlot(x, 1, cap);
    ModOnce(Index(x, cap) + 1, cap);
  }

  lemma StartPushInv(s: State, chunk: Chunk)
    requires Inv(s)
    ensures Inv(Next(s, StartPush(chunk)))
  {
    NextIndex(|s.accepted|, s.capacity + 1);
  }

  lemma LoadTailInv(s: State)
    requires Inv(s)
    ensures Inv(Next(s, LoadTail))
  {
    hide Index;
    IndexEqual(|s.popped|, |s.accepted| + 1, s.capacity + 1);
  }

  lemma CountDropInv(s: State)
    requires Inv(s)
    ensures Inv(Next(s, CountDrop))
  {
  }

  /** The slot being written is none of the published ones. */
  lemma HeadIsFree(s: State, i: nat)
    requires Inv(s) && |s.popped| <= i < |s.accepted|
    ensures Index(i, s.capacity + 1) != s.head
  {
    IndexEqual(i, |s.accepted|, s.capacity + 1);
  }

  lemma WriteWordInv(s: State)
    requires Inv(s)
    ensures Inv(Next(s, WriteWord))
  {
    var t := Next(s, WriteWord);
    if t != s {
      var slot, k := s.producer.currHead, s.producer.copied;
      assert t.ring[slot][..k + 1] == s.ring[slot][..k] + [s.producer.chunk[k]];
      assert s.producer.chunk[..k + 1] == s.producer.chunk[..k] + [s.producer.chunk[k]];
      forall i | |s.popped| <= i < |s.accepted|
        ensures t.ring[Index(i, s.capacity + 1)] == s.accepted[i]
      {
        HeadIsFree(s, i);
      }
    }
  }

  lemma PublishHeadInv(s: State)
    requires Inv(s)
    ensures Inv(Next(s, PublishHead))
  {
    if s.producer.Copying? && s.producer.copied == |s.producer.chunk| {
      var t, chunk, n := Next(s, PublishHead), s.producer.chunk, |s.accepted|;
      assert s.ring[s.head] == chunk by {
        assert s.ring[s.head] == s.ring[s.head][..s.size] && chunk == chunk[..s.size];
      }
      assert t.accepted[..|s.popped|] == s.accepted[..|s.popped|];
      forall i | |t.popped| <= i < |t.accepted|
        ensures t.ring[Index(i, s.capacity + 1)] == t.accepted[i]
      {
        if i < n {
          assert t.accepted[i] == s.accepted[i];
        }
      }
      assert Shape(t) && Holds(t);
      assert ConsumerOk(t);
    }
  }

  lemma ReadWordInv(s: State)
    requires Inv(s)
    ensures Inv(Next(s, ReadWord))
  {
  }

  lemma PublishTailInv(s: State)
    requires Inv(s)
    ensures Inv(Next(s, PublishTail))
  {
    if s.consumer.Reading? && |s.consumer.words| == s.size {
      NextIndex(|s.popped|, s.capacity + 1);
      assert s.consumer.words == s.accepted[|s.popped|];
      assert s.accepted[..|s.popped| + 1] == s.accepted[..|s.popped|] + [s.accepted[|s.popped|]];
    }
  }

  /** Every step of either thread keeps the invariant. */
  lemma NextInv(s: State, e: Event)
    requires Inv(s)
    ensures Inv(Next(s, e))
  {
    match e
    case StartPush(chunk) => StartPushInv(s, chunk);
    case LoadTail => LoadTailInv(s);
    case CountDrop => CountDropInv(s);
    case WriteWord => WriteWordInv(s);
    case PublishHead => PublishHeadInv(s);
    case StartPop =>
    case LoadHead =>
    case ReadWord => ReadWordInv(s);
    case PublishTail => PublishTailInv(s);
  }

  lemma {:induction false} RunInv(s: State, events: seq<Event>)
    requires Inv(s)
    ensures Inv(Run(s, events))
    decreases |events|
  {
    if events != [] {
      NextInv(s, events[0]);
      RunInv(Next(s, events[0]), events[1..]);
    }
  }

  lemma {:induction false} RunCapacity(s: State, events: seq<Event>)
    ensures Run(s, events).capacity == s.capacity
    decreases |events|
  {
    if events != [] {
      assert Next(s, events[0]).capacity == s.capacity;
      RunCapacity(Next(s, events[0]), events[1..]);
    }
  }

  // ---------------------------------------------------------- main results

  /**
    In every interleaving: a slot is never written while it may be read, whole chunks come out in the order they went
    in, no more than the capacity is ever held, and the drop counter is the total of the rejected chunks.
   */
  lemma AnyInterleaving(capacity: nat, size: nat, events: seq<Event>)
    requires capacity > 0
    ensures var s := Run(Init(capacity, size), events);
            && (s.producer.Copying? && s.consumer.Reading? ==> s.producer.currHead != s.consumer.currTail)
            && s.popped <= s.accepted
            && |s.accepted| - |s.popped| <= capacity
            && s.droppedUs == TotalUs(s.rejected)
            && (s.consumer.Reading? ==> |s.popped| < |s.accepted| && s.consumer.words <= s.accepted[|s.popped|])
  {
    RunInv(Init(capacity, size), events);
    RunCapacity(Init(capacity, size), events);
    var s := Run(Init(capacity, size), events);
    if s.producer.Copying? && s.consumer.Reading? {
      HeadIsFree(s, |s.popped|);
    }
  }

  /** A push is refused exactly when the queue is full at its load of the tail, a pop exactly when it is empty. */
  lemma RefusedOnlyWhenFull(capacity: nat, size: nat, events: seq<Event>)
    requires capacity > 0
    ensures var s := Run(Init(capacity, size), events);
            && (s.producer.LoadedHead? ==>
                  (Next(s, LoadTail).producer.Rejecting? <==> |s.accepted| - |s.popped| == capacity))
            && (s.consumer.LoadedTail? ==>
                  (Next(s, LoadHead).consumer.Waiting? <==> |s.accepted| == |s.popped|))
  {
    RunInv(Init(capacity, size), events);
    RunCapacity(Init(capacity, size), events);
    var s := Run(Init(capacity, size), events);
    IndexEqual(|s.popped|, |s.accepted| + 1, capacity + 1);
    IndexEqual(|s.popped|, |s.accepted|, capacity + 1);
  }

  /** Word 1 of a chunk is its duration; a chunk too short to have one lasts for nothing. */
  lemma DurationIsSecondWord(startUs: int, durationUs: int, rest: seq<int>)
    ensures DurationUs([startUs, durationUs] + rest) == durationUs && DurationUs([startUs]) == 0 && DurationUs([]) == 0
  {
  }

  /** The chunks handed to a push that began, in order. */
  function Offered(s: State, events: seq<Event>): seq<Chunk>
    decreases |events|
  {
    if events == [] then []
    else
      var e := events[0];
      (if e.StartPush? && s.producer.Idle? && |e.chunk| == s.size then [e.chunk] else []) + Offered(Next(s, e), events[1..])
  }

  /** The chunk a push is busy with. */
  function InHand(s: State): seq<Chunk>
  {
    if s.producer.Idle? then [] else [s.producer.chunk]
  }

  lemma {:induction false} RunKeepsChunks(s: State, events: seq<Event>)
    ensures var t := Run(s, events);
            multiset(t.accepted) + multiset(t.rejected) + multiset(InHand(t)) ==
            multiset(s.accepted) + multiset(s.rejected) + multiset(InHand(s)) + multiset(Offered(s, events))
    decreases |events|
  {
    if events != [] {
      StepKeepsChunks(s, events[0]);
      RunKeepsChunks(Next(s, events[0]), events[1..]);
    }
  }

  lemma StepKeepsChunks(s: State, e: Event)
    ensures var t := Next(s, e);
            multiset(t.accepted) + multiset(t.rejected) + multiset(InHand(t)) ==
            multiset(s.accepted) + multiset(s.rejected) + multiset(InHand(s)) +
            (if e.StartPush? && s.producer.Idle? && |e.chunk| == s.size then multiset{e.chunk} else multiset{})
  {
  }

  /** In every interleaving each chunk offered has been published, has been counted as dropped, or is being pushed. */
  lemma NoChunkVanishes(capacity: nat, size: nat, events: seq<Event>)
    requires capacity > 0
    ensures var s := Run(Init(capacity, size), events);
            multiset(s.accepted) + multiset(s.rejected) + multiset(InHand(s)) ==
            multiset(Offered(Init(capacity, size), events))
  {
    RunKeepsChunks(Init(capacity, size), events);
  }

  // ------------------------------------------------------ nobody waits for anybody

  /** The steps a push and a pop have still to make. */
  function PushWork(s: State): nat
  {
    match s.producer
    case Idle => 0
    case Rejecting(_) => 1
    case LoadedHead(_, _, _) => s.size + 2
    case Copying(chunk, _, _, copied) => if copied <= s.size then s.size - copied + 1 else 0
  }

  function PopWork(s: State): nat
  {
    match s.consumer
    case Waiting => 0
    case LoadedTail(_) => s.size + 2
    case Reading(_, words) => if |words| <= s.size then s.size - |words| + 1 else 0
  }

  predicate OfProducer(e: Event)
  {
    e.StartPush? || e.LoadTail? || e.CountDrop? || e.WriteWord? || e.PublishHead?
  }

  /** The next step of a push and of a pop that are under way. */
  function PushStep(s: State): Event
  {
    match s.producer
    case Copying(chunk, _, _, copied) => if copied < |chunk| then WriteWord else PublishHead
    case Rejecting(_) => CountDrop
    case _ => LoadTail
  }

  function PopStep(s: State): Event
  {
    match s.consumer
    case Reading(_, words) => if |words| < s.size then ReadWord else PublishTail
    case _ => LoadHead
  }

  /**
    No thread waits for the other: whatever the other has done, each own step of a push or a pop brings it nearer to its
    end, and no step of the other thread takes it further away. A push of n words ends within n + 3 own steps.
   */
  lemma NobodyWaits(capacity: nat, size: nat, events: seq<Event>, e: Event)
    requires capacity > 0
    ensures var s := Run(Init(capacity, size), events);
            && (!s.producer.Idle? ==> PushWork(Next(s, PushStep(s))) < PushWork(s))
            && (!s.consumer.Waiting? ==> PopWork(Next(s, PopStep(s))) < PopWork(s))
            && (PushWork(s) == 0 <==> s.producer.Idle?) && PushWork(s) <= s.size + 2
            && (PopWork(s) == 0 <==> s.consumer.Waiting?) && PopWork(s) <= s.size + 2
            && (OfProducer(e) ==> Next(s, e).consumer == s.consumer)
            && (!OfProducer(e) ==> Next(s, e).producer == s.producer)
  {
    RunInv(Init(capacity, size), events);
    RunCapacity(Init(capacity, size), events);
  }
}
