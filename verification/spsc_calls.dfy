/**
  The queue object of the plugin and its two calls as they read in the source. An undisturbed call does exactly what its
  steps do when no step of the other thread comes between them, so the interleaving theorems apply to it.
 */
module SpscCalls {
  import opened Rings
  import opened SpscQueues

  function Repeat(e: Event, n: nat): (events: seq<Event>)
    ensures |events| == n
  {
    if n == 0 then [] else [e] + Repeat(e, n - 1)
  }

  /** The steps of one push; the ones that do not apply to the outcome change nothing. */
  function PushSteps(chunk: Chunk): seq<Event>
  {
    [StartPush(chunk), LoadTail, CountDrop] + Repeat(WriteWord, |chunk|) + [PublishHead]
  }

  function PopSteps(size: nat): seq<Event>
  {
    [StartPop, LoadHead] + Repeat(ReadWord, size) + [PublishTail]
  }

  lemma {:induction false} RunConcat(s: State, a: seq<Event>, b: seq<Event>)
    ensures Run(s, a + b) == Run(Run(s, a), b)
    decreases |a|
  {
    if a == [] {
      assert a + b == b;
    } else {
      assert (a + b)[1..] == a[1..] + b;
      RunConcat(Next(s, a[0]), a[1..], b);
    }
  }

  lemma {:induction false} RunWrites(s: State, n: nat)
    requires s.producer.Copying? && s.producer.currHead < |s.ring| && s.producer.copied + n == |s.producer.chunk|
    requires |s.ring[s.producer.currHead]| == |s.producer.chunk|
    requires s.ring[s.producer.currHead][..s.producer.copied] == s.producer.chunk[..s.producer.copied]
    ensures var p := s.producer;
            Run(s, Repeat(WriteWord, n)) == s.(ring := s.ring[p.currHead := p.chunk],
                                               producer := p.(copied := |p.chunk|))
    decreases n
  {
    var slot, k, chunk := s.producer.currHead, s.producer.copied, s.producer.chunk;
    if n == 0 {
      assert s.ring[slot] == s.ring[slot][..k] && chunk == chunk[..k];
      assert s.ring[slot := chunk] == s.ring;
    } else {
      var t := Next(s, WriteWord);
      assert t.ring[slot][..k + 1] == s.ring[slot][..k] + [chunk[k]];
      assert chunk[..k + 1] == chunk[..k] + [chunk[k]];
      RunWrites(t, n - 1);
      assert t.ring[slot := chunk] == s.ring[slot := chunk];
      assert Repeat(WriteWord, n)[1..] == Repeat(WriteWord, n - 1);
    }
  }

  lemma {:induction false} RunReads(s: State, n: nat)
    requires s.consumer.Reading? && s.consumer.currTail < |s.ring|
    requires |s.consumer.words| + n == |s.ring[s.consumer.currTail]| && s.consumer.words <= s.ring[s.consumer.currTail]
    ensures Run(s, Repeat(ReadWord, n)) == s.(consumer := Reading(s.consumer.currTail, s.ring[s.consumer.currTail]))
    decreases n
  {
    if n > 0 {
      RunReads(Next(s, ReadWord), n - 1);
      assert Repeat(ReadWord, n)[1..] == Repeat(ReadWord, n - 1);
    }
  }

  lemma {:induction false} RunNothing(s: State, e: Event, n: nat)
    requires Next(s, e) == s
    ensures Run(s, Repeat(e, n)) == s
  {
    if n > 0 {
      RunNothing(s, e, n - 1);
      assert Repeat(e, n)[1..] == Repeat(e, n - 1);
    }
  }

  lemma RunThree(s: State, a: Event, b: Event, c: Event)
    ensures Run(s, [a, b, c]) == Next(Next(Next(s, a), b), c)
    ensures Run(s, [a, b]) == Next(Next(s, a), b) && Run(s, [a]) == Next(s, a)
  {
    assert [a, b, c][1..] == [b, c] && [b, c][1..] == [c] && [a, b][1..] == [b];
    assert Run(Next(Next(s, a), b), [c]) == Next(Next(Next(s, a), b), c);
    assert Run(Next(s, a), [b, c]) == Run(Next(Next(s, a), b), [c]);
    assert Run(Next(s, a), [b]) == Next(Next(s, a), b);
  }

  /** A call is its first steps, then the copy of the words, then the publishing step. */
  lemma RunInParts(s: State, first: seq<Event>, words: seq<Event>, last: Event)
    ensures Run(s, first + words + [last]) == Next(Run(Run(s, first), words), last)
  {
    RunConcat(s, first, words);
    RunConcat(s, first + words, [last]);
    RunThree(Run(Run(s, first), words), last, last, last);
  }

  /** An undisturbed push: refused and counted when full, else published whole. */
  lemma PushAlone(s: State, chunk: Chunk)
    requires Inv(s) && s.producer.Idle? && |chunk| == s.size
    ensures var nextHead := (s.head + 1) % (s.capacity + 1);
            Run(s, PushSteps(chunk)) ==
            if nextHead == s.tail
            then s.(droppedUs := s.droppedUs + DurationUs(chunk), rejected := s.rejected + [chunk])
            else s.(ring := s.ring[s.head := chunk], head := nextHead, accepted := s.accepted + [chunk])
  {
    var first := [StartPush(chunk), LoadTail, CountDrop];
    RunThree(s, StartPush(chunk), LoadTail, CountDrop);
    RunInParts(s, first, Repeat(WriteWord, |chunk|), PublishHead);
    PushCopies(s, Run(s, first), chunk);
  }

  lemma PushCopies(s: State, s1: State, chunk: Chunk)
    requires Shape(s) && s.producer.Idle? && |chunk| == s.size
    requires s1 == Next(Next(Next(s, StartPush(chunk)), LoadTail), CountDrop)
    ensures var nextHead := (s.head + 1) % (s.capacity + 1);
            Next(Run(s1, Repeat(WriteWord, |chunk|)), PublishHead) ==
            if nextHead == s.tail
            then s.(droppedUs := s.droppedUs + DurationUs(chunk), rejected := s.rejected + [chunk])
            else s.(ring := s.ring[s.head := chunk], head := nextHead, accepted := s.accepted + [chunk])
  {
    if s1.producer.Idle? {
      RunNothing(s1, WriteWord, |chunk|);
    } else {
      RunWrites(s1, |chunk|);
    }
  }

  /** An undisturbed pop: the oldest chunk of the ring, or nothing when the queue is empty. */
  lemma PopAlone(s: State)
    requires Inv(s) && s.consumer.Waiting?
    ensures Run(s, PopSteps(s.size)) ==
            if s.tail == s.head then s
            else s.(tail := (s.tail + 1) % (s.capacity + 1), popped := s.popped + [s.ring[s.tail]])
  {
    RunThree(s, StartPop, LoadHead, LoadHead);
    var s1 := Run(s, [StartPop, LoadHead]);
    if s1.consumer.Waiting? {
      RunNothing(s1, ReadWord, s.size);
    } else {
      RunReads(s1, s.size);
    }
    RunInParts(s, [StartPop, LoadHead], Repeat(ReadWord, s.size), PublishTail);
  }

  lemma OldestIsAtTail(s: State)
    requires Inv(s)
    ensures s.tail != s.head <==> |s.popped| < |s.accepted|
    ensures s.tail != s.head ==> s.ring[s.tail] == s.accepted[|s.popped|]
  {
    IndexEqual(|s.popped|, |s.accepted|, s.capacity + 1);
  }

  lemma RefusedIffFull(s: State)
    requires Inv(s)
    ensures s.head < |s.ring| == s.capacity + 1
    ensures (s.head + 1) % (s.capacity + 1) == s.tail <==> |s.accepted| - |s.popped| == s.capacity
  {
    NextIndex(|s.accepted|, s.capacity + 1);
    IndexEqual(|s.popped|, |s.accepted| + 1, s.capacity + 1);
  }

  class SpscQueue {
    const ringBuffer: array<Chunk>
    const capacityChunks: nat
    var head: nat
    var tail: nat
    var audioDroppedUs: int

    ghost const size: nat
    ghost var accepted: seq<Chunk>
    ghost var rejected: seq<Chunk>
    ghost var popped: seq<Chunk>

    ghost function AsState(): State
      reads this, ringBuffer
    {
      State(capacityChunks, size, ringBuffer[..], head, tail, audioDroppedUs, Idle, Waiting, accepted, rejected, popped)
    }

    ghost predicate Valid()
      reads this, ringBuffer
    {
      Inv(AsState())
    }

    constructor (capacity: nat, blank: Chunk)
      requires capacity > 0
      ensures Valid() && fresh(ringBuffer) && capacityChunks == capacity && size == |blank|
      ensures accepted == popped == rejected == []
    {
      capacityChunks := capacity;
      size := |blank|;
      ringBuffer := new Chunk[capacity + 1](_ => blank);
      head, tail, audioDroppedUs := 0, 0, 0;
      accepted, rejected, popped := [], [], [];
    }

    method PushChunk(chunk: Chunk) returns (ok: bool)
      requires Valid() && |chunk| == size
      modifies this`head, this`audioDroppedUs, this`accepted, this`rejected, ringBuffer
      ensures Valid()
      ensures AsState() == Run(old(AsState()), PushSteps(chunk))
      ensures ok == (|old(accepted)| - |old(popped)| < capacityChunks)
      ensures accepted == if ok then old(accepted) + [chunk] else old(accepted)
    {
      RunInv(AsState(), PushSteps(chunk));
      PushAlone(AsState(), chunk);
      RefusedIffFull(AsState());
      ok := PushOrDrop(chunk);
    }

    /** The body of the push, whatever the other thread has done before. */
    method PushOrDrop(chunk: Chunk) returns (ok: bool)
      requires ringBuffer.Length == capacityChunks + 1 && head < ringBuffer.Length
      modifies this`head, this`audioDroppedUs, this`accepted, this`rejected, ringBuffer
      ensures var s, nextHead := old(AsState()), (old(head) + 1) % (capacityChunks + 1);
              && ok == (nextHead != tail)
              && AsState() == if nextHead == tail
                              then s.(droppedUs := s.droppedUs + DurationUs(chunk), rejected := s.rejected + [chunk])
                              else s.(ring := s.ring[s.head := chunk], head := nextHead,
                                      accepted := s.accepted + [chunk])
    {
      var currHead := head;
      var nextHead := (currHead + 1) % (capacityChunks + 1);
      if nextHead == tail {
        audioDroppedUs := audioDroppedUs + DurationUs(chunk);
        rejected := rejected + [chunk];
        return false;
      }
      ringBuffer[currHead] := chunk;
      head := nextHead;
      accepted := accepted + [chunk];
      return true;
    }

    method PopChunk() returns (found: bool, chunk: Chunk)
      requires Valid()
      modifies this`tail, this`popped
      ensures Valid()
      ensures AsState() == Run(old(AsState()), PopSteps(size))
      ensures found == (|old(popped)| < |old(accepted)|)
      ensures found ==> chunk == accepted[|old(popped)|] && popped == old(popped) + [chunk]
      ensures !found ==> popped == old(popped)
    {
      RunInv(AsState(), PopSteps(size));
      PopAlone(AsState());
      OldestIsAtTail(AsState());
      var currTail := tail;
      if currTail == head {
        return false, [];
      }
      chunk := ringBuffer[currTail];
      tail := (currTail + 1) % (capacityChunks + 1);
      popped := popped + [chunk];
      return true, chunk;
    }
  }
}
