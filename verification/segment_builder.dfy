/**
  The segment builder object: a growing ring of pending captions and a fixed ring of 16 committed phrases, updated in
  place. Every method is proved against the function of the same name in cue_timeline.dfy.
 */
module SegmentBuilders {
  import opened Captions
  import opened CueText
  import opened CueTimeline
  import opened Rings
  import Utf8

  const INITIAL_CAPACITY: nat := 32
  const NoCue := Cue(0, 0, 0, "")

  class SegmentBuilder {
    const phantom: string -> bool
    var nextSegmentId: nat
    var segmentQueue: array<Cue>
    var head: nat
    var count: nat
    const history: array<Past>
    var historyHead: nat
    var historyCount: nat
    var coveredEndUs: int

    // index of the oldest element of either ring
    ghost var tail: nat
    ghost var historyTail: nat

    ghost predicate Valid()
      reads this, segmentQueue, history
    {
      && QueueShape(segmentQueue.Length)
      && history.Length == HISTORY_CAPACITY
      && historyTail < HISTORY_CAPACITY && historyCount <= HISTORY_CAPACITY
      && historyHead == Slot(historyTail, historyCount, HISTORY_CAPACITY)
    }

    ghost predicate QueueShape(capacity: nat)
      reads this
    {
      tail < capacity && count <= capacity && head == Slot(tail, count, capacity)
    }

    ghost function State(): (b: Builder)
      reads this, segmentQueue, history
      requires Valid()
      ensures |b.pending| == count
    {
      Builder(nextSegmentId, Contents(segmentQueue[..], tail, count), Contents(history[..], historyTail, historyCount),
              coveredEndUs)
    }

    constructor (phantom: string -> bool)
      ensures Valid() && State() == Empty && this.phantom == phantom
      ensures fresh(segmentQueue) && fresh(history)
    {
      this.phantom := phantom;
      nextSegmentId, coveredEndUs := 1, -1;
      segmentQueue := new Cue[INITIAL_CAPACITY](_ => NoCue);
      history := new Past[HISTORY_CAPACITY](_ => Past(0, 0, ""));
      head, count, historyHead, historyCount := 0, 0, 0, 0;
      tail, historyTail := 0, 0;
    }

    method ClearAll()
      requires Valid()
      modifies this
      ensures Valid() && segmentQueue == old(segmentQueue)
      ensures State() == Clear(old(State()))
    {
      head, count, historyHead, historyCount := 0, 0, 0, 0;
      tail, historyTail := 0, 0;
      coveredEndUs := -1;
    }

    /** Doubles a full ring, copying oldest to newest to the front of the new array. */
    method Grow()
      requires Valid() && count == segmentQueue.Length
      modifies this`segmentQueue, this`head, this`tail
      ensures Valid() && fresh(segmentQueue) && count < segmentQueue.Length
      ensures State() == old(State())
    {
      ghost var queue := Contents(segmentQueue[..], tail, count);
      var capacity := segmentQueue.Length;
      var bigger := new Cue[capacity * 2](_ => NoCue);
      TailFromHead(tail, count, capacity);
      var i := 0;
      while i < count
        invariant i <= count
        invariant forall k :: 0 <= k < i ==> bigger[k] == queue[k]
        modifies bigger
      {
        ModOnce(tail + i, capacity);
        ContentsAt(segmentQueue[..], tail, count, i);
        bigger[i] := segmentQueue[(head + capacity - count + i) % capacity];
        i := i + 1;
      }
      segmentQueue, head, tail := bigger, count, 0;
      ContentsAre(segmentQueue[..], tail, count, queue);
    }

    method EnqueueCue(text: string, startUs: int, endUs: int)
      requires Valid()
      modifies this`nextSegmentId, this`segmentQueue, this`head, this`count, this`tail, segmentQueue
      ensures Valid() && (segmentQueue == old(segmentQueue) || fresh(segmentQueue))
      ensures State() == Enqueue(old(State()), Emission(text, startUs, endUs))
    {
      if count == segmentQueue.Length {
        Grow();
      }
      var cue := Cue(nextSegmentId, startUs, endUs, text);
      ContentsPush(segmentQueue[..], tail, count, cue);
      segmentQueue[head] := cue;
      nextSegmentId := nextSegmentId + 1;
      head := (head + 1) % segmentQueue.Length;
      count := count + 1;
    }

    method CommitHistory(text: string, startUs: int, endUs: int)
      requires Valid()
      modifies this`historyHead, this`historyCount, this`historyTail, this`coveredEndUs, history
      ensures Valid()
      ensures State() == Commit(old(State()), Emission(text, startUs, endUs))
    {
      var copyLen := Utf8.Utf8SafeLen(text, MAX_TEXT - 1);
      if endUs > coveredEndUs {
        coveredEndUs := endUs;
      }
      RecordPast(Past(startUs, endUs, text[..copyLen]));
    }

    method RecordPast(past: Past)
      requires Valid()
      modifies this`historyHead, this`historyCount, this`historyTail, history
      ensures Valid()
      ensures State() == old(State()).(history := LastEntries(old(State()).history + [past]))
    {
      ghost var before := history[..];
      AppendOrOverwrite(before, historyTail, historyCount, past);
      history[historyHead] := past;
      assert history[..] == before[historyHead := past];
      if historyCount < HISTORY_CAPACITY {
        historyCount := historyCount + 1;
      } else {
        historyTail := Slot(historyTail, 1, HISTORY_CAPACITY);
      }
      historyHead := (historyHead + 1) % HISTORY_CAPACITY;
    }

    method TrimAgainst(text: string, startUs: int, endUs: int, cue: Past) returns (handled: bool, dropped: bool)
      requires Valid()
      modifies this`nextSegmentId, this`segmentQueue, this`head, this`count, this`tail, segmentQueue,
               this`historyHead, this`historyCount, this`historyTail, this`coveredEndUs, history
      ensures Valid() && (segmentQueue == old(segmentQueue) || fresh(segmentQueue))
      ensures var t := TailTrim(text, startUs, endUs, cue);
              && handled == !t.NotApplicable? && dropped == t.Dropped?
              && State() == (if t.Remainder? then Commit(Enqueue(old(State()), t.e), t.e) else old(State()))
              && (!t.Remainder? ==> segmentQueue == old(segmentQueue))
    {
      var near := (endUs > cue.startUs && startUs < cue.endUs) ||
                  (startUs >= cue.endUs - TOLERANCE_US && startUs <= cue.endUs + TOLERANCE_US);
      if !near {
        return false, false;
      }
      var m := TailPrefixLen(cue.text, text);
      if m == 0 {
        return false, false;
      }
      if m == |text| || cue.endUs >= endUs {
        return true, true;
      }
      var si := m;
      while si < |text| && IsSpace(text[si])
        invariant m <= si <= |text|
        invariant SkipSpace(text, m) == SkipSpace(text, si)
      {
        si := si + 1;
      }
      if si >= |text| {
        return true, true;
      }
      var trimmed := text[si..];
      EnqueueCue(trimmed, cue.endUs, endUs);
      CommitHistory(trimmed, cue.endUs, endUs);
      return true, false;
    }

    /** The builder and the two answers are what the verdict on a candidate makes of it. */
    ghost predicate Applies(before: Builder, v: Verdict, decided: bool, queued: bool)
      requires Valid()
      reads this, segmentQueue, history
    {
      && decided == !v.Pass? && queued == v.Emit?
      && State() == if v.Emit? then Commit(Enqueue(before, v.e), v.e) else before
    }

    /** One comparison of a candidate with an earlier cue: decided (and whether a cue was queued) or passed over. */
    method CompareWith(text: string, startUs: int, endUs: int, cue: Past, timeMatches: bool)
      returns (decided: bool, queued: bool)
      requires Valid()
      modifies this`nextSegmentId, this`segmentQueue, this`head, this`count, this`tail, segmentQueue,
               this`historyHead, this`historyCount, this`historyTail, this`coveredEndUs, history
      ensures Valid() && (segmentQueue == old(segmentQueue) || fresh(segmentQueue))
      ensures var v := AgainstCue(text, startUs, endUs, cue, timeMatches);
              && Applies(old(State()), v, decided, queued)
              && (!v.Emit? ==> segmentQueue == old(segmentQueue) && State() == old(State()))
    {
      if timeMatches && Occurs(text, cue.text) {
        return true, false;
      }
      var handled, dropped := TrimAgainst(text, startUs, endUs, cue);
      if handled {
        return true, !dropped;
      }
      if timeMatches && Occurs(cue.text, text) {
        return true, false;
      }
      return false, false;
    }

    method SearchPending(text: string, startUs: int, endUs: int) returns (decided: bool, queued: bool)
      requires Valid()
      modifies this`nextSegmentId, this`segmentQueue, this`head, this`count, this`tail, segmentQueue,
               this`historyHead, this`historyCount, this`historyTail, this`coveredEndUs, history
      ensures Valid() && (segmentQueue == old(segmentQueue) || fresh(segmentQueue))
      ensures Applies(old(State()), AgainstPending(old(State()), text, startUs, endUs), decided, queued)
    {
      if count == 0 {
        return false, false;
      }
      ContentsShrink(segmentQueue[..], tail, count);
      ContentsAt(segmentQueue[..], tail, count, count - 1);
      var last := segmentQueue[(head + segmentQueue.Length - 1) % segmentQueue.Length];
      decided, queued := CompareWith(text, startUs, endUs, Past(last.startUs, last.endUs, last.text),
                                     TimeMatches(startUs, endUs, last.startUs, last.endUs));
    }

    method SearchHistory(text: string, startUs: int, endUs: int) returns (decided: bool, queued: bool)
      requires Valid()
      modifies this`nextSegmentId, this`segmentQueue, this`head, this`count, this`tail, segmentQueue,
               this`historyHead, this`historyCount, this`historyTail, this`coveredEndUs, history
      ensures Valid() && (segmentQueue == old(segmentQueue) || fresh(segmentQueue))
      ensures Applies(old(State()), AgainstHistory(old(State()).history, text, startUs, endUs), decided, queued)
    {
      hide State, Valid, AgainstHistory, AgainstEntry, AgainstCue, Contents, Commit, Enqueue;
      HistoryIs();
      ghost var entries, n := State().history, historyCount;
      ghost var wanted := AgainstHistory(entries, text, startUs, endUs);
      var i := 0;
      decided, queued := false, false;
      while !decided && i < historyCount
        invariant Valid() && (segmentQueue == old(segmentQueue) || fresh(segmentQueue))
        invariant if decided then Applies(old(State()), wanted, decided, queued)
                  else && State() == old(State()) && segmentQueue == old(segmentQueue) && !queued
                       && i <= historyCount == n && wanted == AgainstHistory(entries[..n - i], text, startUs, endUs)
        decreases !decided, n - i
      {
        SearchStep(entries, text, startUs, endUs, n - i);
        decided, queued := CompareWithEntry(text, startUs, endUs, i);
        i := i + 1;
      }
      if !decided {
        NothingToSearch(entries[..0], text, startUs, endUs);
      }
    }

    lemma HistoryIs()
      requires Valid()
      ensures |State().history| == historyCount && State().history[..historyCount] == State().history
    {
    }

    /** The comparison with the i-th newest committed phrase, if it matches in time. */
    method CompareWithEntry(text: string, startUs: int, endUs: int, i: nat) returns (decided: bool, queued: bool)
      requires Valid() && i < historyCount
      modifies this`nextSegmentId, this`segmentQueue, this`head, this`count, this`tail, segmentQueue,
               this`historyHead, this`historyCount, this`historyTail, this`coveredEndUs, history
      ensures Valid() && (segmentQueue == old(segmentQueue) || fresh(segmentQueue))
      ensures var v := AgainstEntry(old(State().history[historyCount - 1 - i]), text, startUs, endUs);
              && Applies(old(State()), v, decided, queued)
              && (!v.Emit? ==> segmentQueue == old(segmentQueue) && State() == old(State()))
              && (!v.Emit? ==> historyCount == old(historyCount))
    {
      hide AgainstCue, Contents, Commit, Enqueue;
      var cue := HistoryEntry(i);
      if TimeMatches(startUs, endUs, cue.startUs, cue.endUs) {
        decided, queued := CompareWith(text, startUs, endUs, cue, true);
      } else {
        return false, false;
      }
    }

    /** The i-th newest committed phrase. */
    method HistoryEntry(i: nat) returns (past: Past)
      requires Valid() && i < historyCount
      ensures past == State().history[historyCount - 1 - i]
    {
      ghost var k := historyCount - 1 - i;
      ContentsAt(history[..], historyTail, historyCount, k);
      var index := (historyHead + HISTORY_CAPACITY - 1 - i) % HISTORY_CAPACITY;
      assert index == Slot(historyTail, k, HISTORY_CAPACITY);
      past := history[index];
    }

    method PushHypothesis(raw: string, startUs: int, endUs: int) returns (queued: bool)
      requires Valid()
      modifies this, segmentQueue, history
      ensures Valid() && (segmentQueue == old(segmentQueue) || fresh(segmentQueue))
      ensures queued == Decide(phantom, old(State()), raw, startUs, endUs).Some?
      ensures State() == Push(phantom, old(State()), raw, startUs, endUs)
    {
      hide Contents;
      if startUs < 0 || endUs <= startUs {
        return false;
      }
      var text := TrimSpaces(raw);
      if |text| == 0 || |text| >= MAX_TEXT {
        return false;
      }
      if phantom(text) {
        return false;
      }
      if coveredEndUs >= 0 && startUs < coveredEndUs && endUs <= coveredEndUs + TOLERANCE_US {
        return false;
      }
      var decided;
      decided, queued := SearchPending(text, startUs, endUs);
      if decided {
        return;
      }
      decided, queued := SearchHistory(text, startUs, endUs);
      if decided {
        return;
      }
      var emitStart := if coveredEndUs > startUs then coveredEndUs else startUs;
      if emitStart >= endUs {
        return false;
      }
      EnqueueCue(text, emitStart, endUs);
      CommitHistory(text, emitStart, endUs);
      return true;
    }

    method PopOldestCue() returns (cue: Option<Cue>)
      requires Valid()
      modifies this`count, this`tail, segmentQueue
      ensures Valid() && segmentQueue == old(segmentQueue)
      ensures State() == Pop(old(State()))
      ensures cue == if old(State()).pending == [] then None else Some(old(State()).pending[0])
    {
      if count == 0 {
        return None;
      }
      TailFromHead(tail, count, segmentQueue.Length);
      var slot := (head + segmentQueue.Length - count) % segmentQueue.Length;
      ContentsPop(segmentQueue[..], tail, count);
      cue := Some(segmentQueue[slot]);
      PopClears(segmentQueue[..], tail, count);
      segmentQueue[slot] := NoCue;
      count := count - 1;
      tail := Slot(tail, 1, segmentQueue.Length);
    }
  }

  /** The verdict of one committed phrase. */
  function AgainstEntry(cue: Past, text: string, startUs: int, endUs: int): Verdict
  {
    if TimeMatches(startUs, endUs, cue.startUs, cue.endUs) then AgainstCue(text, startUs, endUs, cue, true) else Pass
  }

  lemma NothingToSearch(entries: seq<Past>, text: string, startUs: int, endUs: int)
    requires entries == []
    ensures AgainstHistory(entries, text, startUs, endUs) == Pass
  {
  }

  lemma SearchStep(entries: seq<Past>, text: string, startUs: int, endUs: int, n: nat)
    requires 0 < n <= |entries|
    ensures var verdict := AgainstEntry(entries[n - 1], text, startUs, endUs);
            AgainstHistory(entries[..n], text, startUs, endUs) ==
            if verdict.Pass? then AgainstHistory(entries[..n - 1], text, startUs, endUs) else verdict
  {
    assert entries[..n][..n - 1] == entries[..n - 1];
  }

  method TrimSpaces(raw: string) returns (text: string)
    ensures text == Trim(raw)
  {
    var i := 0;
    while i < |raw| && IsSpace(raw[i])
      invariant i <= |raw|
      invariant SkipSpace(raw, 0) == SkipSpace(raw, i)
    {
      i := i + 1;
    }
    var rest := raw[i..];
    var len := |rest|;
    assert rest[..len] == rest;
    while len > 0 && IsSpace(rest[len - 1])
      invariant 0 <= len <= |rest|
      invariant DropTrailing(rest) == DropTrailing(rest[..len])
    {
      assert rest[..len][..len - 1] == rest[..len - 1];
      len := len - 1;
    }
    text := rest[..len];
  }

  /** Writing at the head of the history ring keeps its last 16 entries: a full ring loses its oldest one. */
  lemma AppendOrOverwrite(slots: seq<Past>, tail: nat, count: nat, past: Past)
    requires |slots| == HISTORY_CAPACITY && tail < HISTORY_CAPACITY && count <= HISTORY_CAPACITY
    ensures var head := Slot(tail, count, HISTORY_CAPACITY);
            var full := count == HISTORY_CAPACITY;
            var tail' := if full then Slot(tail, 1, HISTORY_CAPACITY) else tail;
            var count' := if full then count else count + 1;
            && Contents(slots[head := past], tail', count') == LastEntries(Contents(slots, tail, count) + [past])
            && (head + 1) % HISTORY_CAPACITY == Slot(tail', count', HISTORY_CAPACITY)
  {
    var n := HISTORY_CAPACITY;
    if count == n {
      ContentsPop(slots, tail, n);
      ContentsPush(slots, Slot(tail, 1, n), n - 1, past);
    } else {
      ContentsPush(slots, tail, count, past);
    }
  }

  /** Clearing the slot just popped does not touch what is left in the queue. */
  lemma PopClears(slots: seq<Cue>, tail: nat, count: nat)
    requires tail < |slots| && 0 < count <= |slots|
    ensures Contents(slots[tail := NoCue], Slot(tail, 1, |slots|), count - 1) == Contents(slots, tail, count)[1..]
  {
    ContentsPop(slots, tail, count);
    ContentsUpdate(slots, Slot(tail, 1, |slots|), count - 1, |slots| - 1, NoCue);
  }
}
