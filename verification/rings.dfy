/**
  Circular arrays, as the translator, the segment builder and the audio buffer use them: a fixed array, the index
  of the oldest element and a count. `Contents` is the queue such an array stands for, oldest first.
 */
module Rings {

  /** Index of the i-th oldest element of a ring of `cap` slots whose oldest element sits at `tail`. */
  function Slot(tail: nat, i: nat, cap: nat): (slot: nat)
    requires tail < cap && i <= cap
    ensures slot < cap
  {
    if tail + i < cap then tail + i else tail + i - cap
  }

  lemma ModOnce(x: nat, cap: nat)
    requires x < 2 * cap
    ensures x % cap == if x < cap then x else x - cap
  {
  }

  /** The queue held by a ring: `count` elements starting at `tail`, wrapping at the end of the array. */
  ghost function Contents<T>(slots: seq<T>, tail: nat, count: nat): (queue: seq<T>)
    requires tail < |slots| && count <= |slots|
    ensures |queue| == count
  {
    if count == 0 then [] else Contents(slots, tail, count - 1) + [slots[Slot(tail, count - 1, |slots|)]]
  }

  lemma NoContents<T>(slots: seq<T>, tail: nat)
    requires tail < |slots|
    ensures Contents(slots, tail, 0) == []
  {
  }

  lemma {:induction false} ContentsAt<T>(slots: seq<T>, tail: nat, count: nat, i: nat)
    requires tail < |slots| && i < count <= |slots|
    ensures Contents(slots, tail, count)[i] == slots[Slot(tail, i, |slots|)]
  {
    if i < count - 1 {
      ContentsAt(slots, tail, count - 1, i);
    }
  }

  lemma ContentsAre<T>(slots: seq<T>, tail: nat, count: nat, queue: seq<T>)
    requires tail < |slots| && |queue| == count <= |slots|
    requires forall i :: 0 <= i < count ==> queue[i] == slots[Slot(tail, i, |slots|)]
    ensures Contents(slots, tail, count) == queue
  {
    forall i | 0 <= i < count
      ensures Contents(slots, tail, count)[i] == queue[i]
    {
      ContentsAt(slots, tail, count, i);
    }
  }

  lemma SlotInjective(tail: nat, i: nat, j: nat, cap: nat)
    requires tail < cap && i < cap && j < cap && i != j
    ensures Slot(tail, i, cap) != Slot(tail, j, cap)
  {
  }

  /** Overwriting the i-th oldest element changes that element of the queue and no other. */
  lemma {:induction false} ContentsUpdate<T>(slots: seq<T>, tail: nat, count: nat, i: nat, x: T)
    requires tail < |slots| && i < |slots| && count <= |slots|
    ensures Contents(slots[Slot(tail, i, |slots|) := x], tail, count) ==
            if i < count then Contents(slots, tail, count)[i := x] else Contents(slots, tail, count)
  {
    if count > 0 {
      ContentsUpdate(slots, tail, count - 1, i, x);
      var after, last := slots[Slot(tail, i, |slots|) := x], Slot(tail, count - 1, |slots|);
      if i == count - 1 {
        assert after[last] == x;
      } else {
        SlotInjective(tail, i, count - 1, |slots|);
        assert after[last] == slots[last];
      }
    }
  }

  /** Writing the first free slot appends to the queue. */
  lemma ContentsPush<T>(slots: seq<T>, tail: nat, count: nat, x: T)
    requires tail < |slots| && count < |slots|
    ensures Contents(slots[Slot(tail, count, |slots|) := x], tail, count + 1) == Contents(slots, tail, count) + [x]
    ensures (Slot(tail, count, |slots|) + 1) % |slots| == Slot(tail, count + 1, |slots|)
  {
    ContentsUpdate(slots, tail, count, count, x);
    ModOnce(Slot(tail, count, |slots|) + 1, |slots|);
  }

  /** Dropping the newest element leaves the rest of the queue. */
  lemma ContentsShrink<T>(slots: seq<T>, tail: nat, count: nat)
    requires tail < |slots| && 0 < count <= |slots|
    ensures Contents(slots, tail, count - 1) == Contents(slots, tail, count)[..count - 1]
    ensures (Slot(tail, count, |slots|) + |slots| - 1) % |slots| == Slot(tail, count - 1, |slots|)
  {
    ModOnce(Slot(tail, count, |slots|) + |slots| - 1, |slots|);
  }

  /** Advancing the tail drops the oldest `k` elements. */
  lemma {:induction false} ContentsDrop<T>(slots: seq<T>, tail: nat, count: nat, k: nat)
    requires tail < |slots| && k <= count <= |slots|
    ensures Contents(slots, Slot(tail, k, |slots|), count - k) == Contents(slots, tail, count)[k..]
  {
    if k < count {
      ContentsDrop(slots, tail, count - 1, k);
    }
  }

  /** Popping: the oldest element and what remains. */
  lemma ContentsPop<T>(slots: seq<T>, tail: nat, count: nat)
    requires tail < |slots| && 0 < count <= |slots|
    ensures slots[tail] == Contents(slots, tail, count)[0]
    ensures (tail + 1) % |slots| == Slot(tail, 1, |slots|)
    ensures Contents(slots, Slot(tail, 1, |slots|), count - 1) == Contents(slots, tail, count)[1..]
    ensures Slot(tail, count, |slots|) == Slot(Slot(tail, 1, |slots|), count - 1, |slots|)
  {
    ContentsAt(slots, tail, count, 0);
    ContentsDrop(slots, tail, count, 1);
    ModOnce(tail + 1, |slots|);
  }

  /** The tail can be found back from the head and the count. */
  lemma TailFromHead(tail: nat, count: nat, cap: nat)
    requires tail < cap && count <= cap
    ensures (Slot(tail, count, cap) + cap - count) % cap == tail
  {
  }

  // ---------------------------------------------------- unbounded counters

  /** The slot of an unbounded counter: x % cap, as IndexIsModulo proves. */
  function Index(x: nat, cap: nat): (slot: nat)
    requires cap > 0
    ensures slot < cap
  {
    if x < cap then x else Index(x - cap, cap)
  }

  lemma {:induction false} IndexIsModulo(x: nat, cap: nat)
    requires cap > 0
    ensures Index(x, cap) == x % cap
  {
    if x >= cap {
      IndexIsModulo(x - cap, cap);
      TakeOff(x, cap);
    }
  }

  lemma TakeOff(x: nat, cap: nat)
    requires 0 < cap <= x
    ensures (x - cap) % cap == x % cap
  {
    var q, q' := x / cap, (x - cap) / cap;
    var r, r' := x % cap, (x - cap) % cap;
    assert x == q * cap + r && x - cap == q' * cap + r';
    var d := q - q' - 1;
    assert d * cap == q * cap - q' * cap - cap;
    Scale(d, cap);
  }

  lemma {:induction false} Scale(d: int, cap: nat)
    ensures d >= 1 ==> d * cap >= cap
    ensures d <= -1 ==> d * cap <= 0 - cap
    decreases if d < 0 then -d else d
  {
  }

  method WrapAround(x: nat, cap: nat) returns (slot: nat)
    requires cap > 0
    ensures slot == Index(x, cap)
  {
    IndexIsModulo(x, cap);
    slot := x % cap;
  }

  lemma {:induction false} IndexIsSlot(tail: nat, i: nat, cap: nat)
    requires cap > 0 && i <= cap
    ensures Index(tail + i, cap) == Slot(Index(tail, cap), i, cap)
  {
    if tail >= cap {
      IndexIsSlot(tail - cap, i, cap);
    }
  }

  /** Two counters less than a full turn apart share a slot only when they are equal; a full turn apart they share it. */
  lemma IndexEqual(x: nat, y: nat, cap: nat)
    requires 0 < cap && x <= y <= x + cap
    ensures Index(x, cap) == Index(y, cap) <==> y == x || y == x + cap
  {
  }

  // ------------------------------------------------- removing in the middle

  /** A queue whose elements k+1 .. moved have been copied one place back; element `moved` is still there twice. */
  ghost function Shifted<T>(queue: seq<T>, k: nat, moved: nat): seq<T>
    requires k <= moved < |queue|
  {
    queue[..k] + queue[k + 1..moved + 1] + queue[moved..]
  }

  ghost predicate GapAt<T>(slots: seq<T>, tail: nat, count: nat, queue: seq<T>, k: nat, moved: nat)
  {
    && tail < |slots| && k <= moved < count <= |slots| && |queue| == count
    && Contents(slots, tail, count) == Shifted(queue, k, moved)
  }

  lemma GapOpens<T>(slots: seq<T>, tail: nat, count: nat, queue: seq<T>, k: nat)
    requires tail < |slots| && k < count <= |slots| && queue == Contents(slots, tail, count)
    ensures GapAt(slots, tail, count, queue, k, k)
  {
    assert queue == Shifted(queue, k, k);
  }

  lemma GapStep<T>(slots: seq<T>, tail: nat, count: nat, queue: seq<T>, k: nat, moved: nat)
    requires GapAt(slots, tail, count, queue, k, moved) && moved < count - 1
    ensures GapAt(slots[Slot(tail, moved, |slots|) := slots[Slot(tail, moved + 1, |slots|)]], tail, count, queue, k,
                  moved + 1)
  {
    var x := slots[Slot(tail, moved + 1, |slots|)];
    ContentsAt(slots, tail, count, moved + 1);
    assert x == queue[moved + 1];
    ContentsUpdate(slots, tail, count, moved, x);
    assert Shifted(queue, k, moved)[moved := x] == Shifted(queue, k, moved + 1);
  }

  lemma GapClosed<T>(slots: seq<T>, tail: nat, count: nat, queue: seq<T>, k: nat)
    requires 0 < count && GapAt(slots, tail, count, queue, k, count - 1)
    ensures Contents(slots, tail, count - 1) == queue[..k] + queue[k + 1..]
  {
    ContentsShrink(slots, tail, count);
  }

  /** Closes the gap at `index` by moving every newer element one slot back, up to the head. */
  method CloseGap<T>(slots: array<T>, ghost tail: nat, ghost count: nat, head: nat, index: nat, ghost k: nat)
    requires tail < slots.Length && k < count <= slots.Length
    requires head == Slot(tail, count, slots.Length) && index == Slot(tail, k, slots.Length)
    modifies slots
    ensures Contents(slots[..], tail, count - 1) ==
            old(Contents(slots[..], tail, count))[..k] + old(Contents(slots[..], tail, count))[k + 1..]
  {
    ghost var queue, moved := Contents(slots[..], tail, count), k;
    assert queue == Shifted(queue, k, k);
    var moveIndex := index;
    ModOnce(moveIndex + 1, slots.Length);
    var nextIndex := (moveIndex + 1) % slots.Length;
    while nextIndex != head
      invariant k <= moved < count
      invariant moveIndex == Slot(tail, moved, slots.Length)
      invariant nextIndex == Slot(tail, moved + 1, slots.Length)
      invariant GapAt(slots[..], tail, count, queue, k, moved)
      decreases count - moved
    {
      ghost var before := slots[..];
      GapStep(before, tail, count, queue, k, moved);
      slots[moveIndex] := slots[nextIndex];
      assert slots[..] == before[moveIndex := before[nextIndex]];
      moveIndex := nextIndex;
      ModOnce(nextIndex + 1, slots.Length);
      nextIndex := (nextIndex + 1) % slots.Length;
      moved := moved + 1;
    }
    GapClosed(slots[..], tail, count, queue, k);
  }
}
