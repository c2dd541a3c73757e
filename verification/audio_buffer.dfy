/**
  The worker's audio ring: a fixed array written at `head`, whose oldest sample sits `count` slots behind it. Each
  method is the matching function of AudioTimeline on the buffer the ring stands for.
 */
module AudioBuffers {
  import opened AudioTimeline
  import opened Rings

  class AudioBuffer {
    const samples: array<int>
    var head: nat
    var count: nat
    var startPtsUs: int
    var startPtsFracUs: nat
    var droppedSamples: nat

    ghost predicate Valid()
      reads this
    {
      head < samples.Length && count <= samples.Length && startPtsFracUs <= 1
    }

    ghost function Tail(): (tail: nat)
      requires Valid()
      reads this
      ensures tail < samples.Length && head == Slot(tail, count, samples.Length)
    {
      if count <= head then head - count else head + samples.Length - count
    }

    ghost function Value(): (b: Buffer)
      requires Valid()
      reads this, samples
      ensures |b.samples| == count <= samples.Length && b.frac <= 1
    {
      Buffer(Contents(samples[..], Tail(), count), startPtsUs, startPtsFracUs, droppedSamples)
    }

    constructor (maxSamples: nat)
      requires maxSamples > 0
      ensures Valid() && fresh(samples) && samples.Length == maxSamples && Value() == Fresh
    {
      samples := new int[maxSamples];
      head, count, startPtsUs, startPtsFracUs, droppedSamples := 0, 0, -1, 0, 0;
    }

    /** 62.5 us for each sample; the half microsecond is carried. */
    method AdvancePts(n: nat)
      requires Valid()
      modifies this`startPtsUs, this`startPtsFracUs
      ensures Valid() && Value() == Advance(old(Value()), n)
    {
      startPtsUs := startPtsUs + n * 62;
      startPtsFracUs := startPtsFracUs + n;
      startPtsUs := startPtsUs + startPtsFracUs / 2;
      startPtsFracUs := startPtsFracUs % 2;
    }

    method ClearAll()
      requires Valid()
      modifies this`head, this`count, this`startPtsUs, this`startPtsFracUs
      ensures Valid() && Value() == Clear(old(Value()))
    {
      head, count, startPtsUs, startPtsFracUs := 0, 0, -1, 0;
    }

    /** A block at this time continues the buffered audio, or the buffer restarts with it. */
    method Anchor(ptsUs: int) returns (restarted: bool)
      requires Valid()
      modifies this`head, this`count, this`startPtsUs, this`startPtsFracUs
      ensures Valid() && Value() == Anchored(old(Value()), ptsUs)
      ensures restarted == !Continues(old(Value()), ptsUs)
    {
      if count > 0 {
        var expectedPtsUs := startPtsUs + (count * 125 + startPtsFracUs) / 2;
        var ptsDeltaUs := ptsUs - expectedPtsUs;
        if ptsDeltaUs < -JITTER_US || ptsDeltaUs > JITTER_US {
          ClearAll();
        }
      }
      restarted := count == 0;
      if restarted {
        startPtsUs, startPtsFracUs := ptsUs, 0;
      }
    }

    method WriteSample(x: int)
      requires Valid()
      modifies this, samples
      ensures Valid() && Value() == PushSample(old(Value()), x, samples.Length)
    {
      hide Contents;
      ghost var before, tail := samples[..], Tail();
      ModOnce(head + 1, samples.Length);
      samples[head] := x;
      assert samples[..] == before[head := x];
      head := (head + 1) % samples.Length;
      if count < samples.Length {
        ContentsPush(before, tail, count, x);
        count := count + 1;
        assert Tail() == tail;
      } else {
        ContentsRotate(before, tail, x);
        droppedSamples := droppedSamples + 1;
        AdvancePts(1);
      }
    }

    method AppendS16le(pcm: seq<int>, ptsUs: int) returns (ok: bool, restarted: bool)
      requires Valid()
      modifies this, samples
      ensures Valid() && ok == (pcm != [])
      ensures Value() == Append(old(Value()), pcm, ptsUs, samples.Length)
      ensures restarted == (pcm != [] && !Continues(old(Value()), ptsUs))
    {
      if |pcm| == 0 {
        return false, false;
      }
      restarted := Anchor(ptsUs);
      ghost var anchored := Value();
      var i := 0;
      while i < |pcm|
        invariant 0 <= i <= |pcm| && Valid()
        invariant Value() == PushAll(anchored, pcm[..i], samples.Length)
      {
        assert pcm[..i + 1][..i] == pcm[..i];
        WriteSample(pcm[i]);
        i := i + 1;
      }
      assert pcm[..i] == pcm;
      ok := true;
    }

    /** Copies at most maxOut of the oldest samples without removing them. */
    method GetSamples(out: array<int>, maxOut: nat) returns (copied: nat, ptsUs: int)
      requires Valid() && out != samples && maxOut <= out.Length
      modifies out
      ensures Valid() && Value() == old(Value())
      ensures copied == (if count < maxOut then count else maxOut)
      ensures out[..copied] == Value().samples[..copied] && out[copied..] == old(out[copied..])
      ensures copied > 0 ==> ptsUs == Value().startUs
    {
      if maxOut == 0 || count == 0 {
        return 0, 0;
      }
      copied := if count < maxOut then count else maxOut;
      TailFromHead(Tail(), count, samples.Length);
      var tail := (head + samples.Length - count) % samples.Length;
      var i := 0;
      while i < copied
        invariant 0 <= i <= copied
        invariant forall j :: 0 <= j < i ==> out[j] == Value().samples[j]
        invariant forall j :: i <= j < out.Length ==> out[j] == old(out[j])
      {
        ModOnce(tail + i, samples.Length);
        ContentsAt(samples[..], tail, count, i);
        out[i] := samples[(tail + i) % samples.Length];
        i := i + 1;
      }
      ptsUs := startPtsUs;
    }

    method DrainSamples(n: nat)
      requires Valid()
      modifies this`head, this`count, this`startPtsUs, this`startPtsFracUs
      ensures Valid() && Value() == Drain(old(Value()), n)
    {
      if n == 0 || count == 0 {
        return;
      }
      var drained := if n < count then n else count;
      ContentsDrop(samples[..], Tail(), count, drained);
      ghost var tail := Slot(Tail(), drained, samples.Length);
      count := count - drained;
      assert count > 0 ==> Tail() == tail;
      AdvancePts(drained);
      if count == 0 {
        head, startPtsUs, startPtsFracUs := 0, -1, 0;
      }
    }
  }

  /** Overwriting the oldest sample of a full ring and moving on drops it and appends the new one. */
  lemma ContentsRotate<T>(slots: seq<T>, tail: nat, x: T)
    requires tail < |slots|
    ensures Contents(slots[tail := x], Slot(tail, 1, |slots|), |slots|) == Contents(slots, tail, |slots|)[1..] + [x]
  {
    var n := |slots|;
    ContentsPop(slots, tail, n);
    var next := Slot(tail, 1, n);
    assert Slot(next, n - 1, n) == tail;
    ContentsUpdate(slots, next, n - 1, n - 1, x);
  }
}
