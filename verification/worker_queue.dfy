/**
  The worker's frame queue object: an array of slots addressed by unbounded head and tail counters, with the evicted
  frame's successors shifted one place left. Push and pop are proved against frame_queue.dfy.
 */
module WorkerQueues {
  import opened Captions
  import opened FrameQueues
  import opened Rings
  import opened Wire

  class WorkerQueue {
    const slots: array<QueuedFrame>
    const capacity: nat
    var head: nat
    var tail: nat
    var droppedAudioUs: nat
    var queuedAudioUs: int

    ghost predicate Valid()
      reads this, slots
    {
      slots.Length == capacity > 0 && tail <= head <= tail + capacity
    }

    ghost function Frames(): seq<QueuedFrame>
      reads this, slots
      requires Valid()
    {
      Contents(slots[..], Index(tail, capacity), head - tail)
    }

    ghost function State(): Queue
      reads this, slots
      requires Valid()
    {
      Queue(Frames(), queuedAudioUs, droppedAudioUs)
    }

    constructor (capacity: nat)
      requires capacity > 0
      ensures Valid() && this.capacity == capacity && State() == EmptyQueue && fresh(slots)
    {
      this.capacity := capacity;
      slots := new QueuedFrame[capacity](_ => QueuedFrame(0, []));
      head, tail, droppedAudioUs, queuedAudioUs := 0, 0, 0, 0;
    }

    /** The oldest queued frame whose type satisfies the test. */
    method FindOldest(test: nat -> bool) returns (found: bool, at: nat)
      requires Valid()
      ensures found == First(Frames(), test).Some?
      ensures found ==> tail <= at < head && First(Frames(), test) == Some(at - tail)
    {
      at := tail;
      while at < head
        invariant tail <= at <= head
        invariant forall i :: 0 <= i < at - tail ==> !test(Frames()[i].kind)
      {
        SlotOf(at);
        var slot := WrapAround(at, capacity);
        if test(slots[slot].kind) {
          FirstIs(Frames(), test, at - tail);
          return true, at;
        }
        at := at + 1;
      }
      return false, at;
    }

    lemma SlotOf(at: nat)
      requires Valid() && tail <= at < head
      ensures Index(at, capacity) < capacity
      ensures slots[Index(at, capacity)] == Frames()[at - tail]
    {
      IndexIsSlot(tail, at - tail, capacity);
      ContentsAt(slots[..], Index(tail, capacity), head - tail, at - tail);
    }

    /** Frees the slot of the frame at `evict` by shifting every newer frame one place left. */
    method RemoveAt(evict: nat)
      requires Valid() && tail <= evict < head
      modifies this`head, slots
      ensures Valid() && head == old(head) - 1
      ensures Frames() == Remove(old(Frames()), evict - tail)
    {
      hide Contents, Slot, Index, GapAt;
      ghost var frames, k, start := Frames(), evict - tail, Index(tail, capacity);
      GapOpens(slots[..], start, head - tail, frames, k);
      var i := evict;
      while i + 1 < head
        invariant evict <= i < head
        invariant GapAt(slots[..], start, head - tail, frames, k, i - tail)
        modifies slots
      {
        ShiftOne(i, frames, k);
        i := i + 1;
      }
      GapClosed(slots[..], start, head - tail, frames, k);
      head := head - 1;
    }

    method ShiftOne(i: nat, ghost frames: seq<QueuedFrame>, ghost k: nat)
      requires Valid() && tail <= i && i + 1 < head
      requires GapAt(slots[..], Index(tail, capacity), head - tail, frames, k, i - tail)
      modifies slots
      ensures GapAt(slots[..], Index(tail, capacity), head - tail, frames, k, i + 1 - tail)
    {
      hide Contents, Shifted, Slot;
      ghost var before := slots[..];
      GapStep(before, Index(tail, capacity), head - tail, frames, k, i - tail);
      IndexIsSlot(tail, i - tail, capacity);
      IndexIsSlot(tail, i + 1 - tail, capacity);
      ghost var after := before[Index(i, capacity) := before[Index(i + 1, capacity)]];
      assert GapAt(after, Index(tail, capacity), head - tail, frames, k, i + 1 - tail);
      var to := WrapAround(i, capacity);
      var from := WrapAround(i + 1, capacity);
      slots[to] := slots[from];
      assert slots[..] == after;
    }

    method Append(f: QueuedFrame)
      requires Valid() && head - tail < capacity
      modifies this`head, slots
      ensures Valid() && head == old(head) + 1
      ensures Frames() == old(Frames()) + [f]
    {
      IndexIsSlot(tail, head - tail, capacity);
      ContentsPush(slots[..], Index(tail, capacity), head - tail, f);
      ghost var before := slots[..];
      var slot := WrapAround(head, capacity);
      slots[slot] := f;
      assert slots[..] == before[Index(head, capacity) := f];
      head := head + 1;
    }

    method PushFrame(f: QueuedFrame) returns (kept: bool)
      requires Valid()
      modifies this`head, this`droppedAudioUs, this`queuedAudioUs, slots
      ensures Valid()
      ensures (State(), kept) == Push(old(State()), capacity, f)
    {
      var incomingUs := AudioUs(f);
      if head - tail < capacity {
        Append(f);
        queuedAudioUs := queuedAudioUs + incomingUs;
        return true;
      }
      kept := PushIntoFull(f);
    }

    method PushIntoFull(f: QueuedFrame) returns (kept: bool)
      requires Valid() && head - tail == capacity
      modifies this`head, this`droppedAudioUs, this`queuedAudioUs, slots
      ensures Valid()
      ensures (State(), kept) == PushFull(old(State()), f)
    {
      var found, evict := ChooseVictim(f.kind);
      if !found {
        if f.kind == AUDIO_PCM {
          droppedAudioUs := droppedAudioUs + AudioUs(f);
        }
        return false;
      }
      ReplaceAt(evict, f);
      return true;
    }

    method ReplaceAt(evict: nat, f: QueuedFrame)
      requires Valid() && tail <= evict < head
      modifies this`head, this`droppedAudioUs, this`queuedAudioUs, slots
      ensures Valid()
      ensures State() == Replace(old(State()), evict - tail, f)
    {
      hide Contents, AudioUs, Index;
      ghost var before, k := State(), evict - tail;
      SlotOf(evict);
      var slot := WrapAround(evict, capacity);
      var victimUs := AudioUs(slots[slot]);
      droppedAudioUs := droppedAudioUs + victimUs;
      queuedAudioUs := queuedAudioUs - victimUs;
      RemoveAt(evict);
      Append(f);
      queuedAudioUs := queuedAudioUs + AudioUs(f);
      assert Frames() == Remove(before.frames, k) + [f];
      assert State() == Replace(before, k, f);
    }

    method ChooseVictim(incoming: nat) returns (found: bool, evict: nat)
      requires Valid() && head - tail == capacity
      ensures var victim := Victim(Frames(), incoming);
              found == victim.Some? && (found ==> tail <= evict < head && evict - tail == victim.value)
    {
      found, evict := FindOldest((kind: nat) => kind == AUDIO_PCM);
      if found {
        return;
      }
      if incoming == AUDIO_PCM {
        return false, 0;
      }
      if incoming == SHUTDOWN {
        return true, tail;
      }
      found, evict := FindOldest((kind: nat) => Superseded(kind, incoming));
      if found {
        return;
      }
      if Required(incoming) {
        found, evict := FindOldest((kind: nat) => kind != SHUTDOWN);
      }
    }

    method PopFrame() returns (f: Option<QueuedFrame>)
      requires Valid()
      modifies this`tail, this`queuedAudioUs
      ensures Valid()
      ensures if old(Frames()) == [] then f == None && State() == old(State())
              else f == Some(old(Frames())[0]) && State() == Pop(old(State()))
    {
      if head == tail {
        return None;
      }
      hide Contents, Slot, AudioUs;
      SlotOf(tail);
      var slot := WrapAround(tail, capacity);
      var frame := slots[slot];
      ContentsPop(slots[..], Index(tail, capacity), head - tail);
      IndexIsSlot(tail, 1, capacity);
      tail := tail + 1;
      var poppedUs := AudioUs(frame);
      if poppedUs > 0 {
        queuedAudioUs := queuedAudioUs - poppedUs;
      }
      return Some(frame);
    }
  }

  lemma {:induction false} FirstIs(frames: seq<QueuedFrame>, test: nat -> bool, k: nat)
    requires k < |frames| && test(frames[k].kind)
    requires forall i :: 0 <= i < k ==> !test(frames[i].kind)
    ensures First(frames, test) == Some(k)
  {
  }
}
