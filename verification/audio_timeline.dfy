/** The worker's audio buffer as a value. */
module AudioTimeline {
  // It holds the newest samples, at most `max` of them, and the time of the oldest one in microseconds with a half-
  // microsecond remainder (a 16 kHz sample lasts 62.5 us). Samples are opaque.

  const JITTER_US: int := 63

  datatype Buffer = Buffer(samples: seq<int>, startUs: int, frac: nat, dropped: nat)

  const Fresh := Buffer([], -1, 0, 0)

  /** Moves the start time over k samples, carrying the half microsecond. */
  function Advance(b: Buffer, k: nat): Buffer
  {
    b.(startUs := b.startUs + 62 * k + (b.frac + k) / 2, frac := (b.frac + k) % 2)
  }

  /** The time of the sample at offset i, as the continuity test derives it. */
  function Derived(b: Buffer, i: nat): int
  {
    b.startUs + (i * 125 + b.frac) / 2
  }

  function Clear(b: Buffer): Buffer
  {
    Buffer([], -1, 0, b.dropped)
  }

  /** One sample: appended, or the oldest one makes room for it. */
  function PushSample(b: Buffer, x: int, max: nat): Buffer
    requires max > 0
  {
    if |b.samples| < max then b.(samples := b.samples + [x])
    else Advance(b.(samples := b.samples[1..] + [x], dropped := b.dropped + 1), 1)
  }

  function PushAll(b: Buffer, pcm: seq<int>, max: nat): Buffer
    requires max > 0
  {
    if pcm == [] then b else PushSample(PushAll(b, pcm[..|pcm| - 1], max), pcm[|pcm| - 1], max)
  }

  /** A block whose time does not continue the buffered audio restarts the buffer. */
  predicate Continues(b: Buffer, ptsUs: int)
  {
    b.samples != [] && -JITTER_US <= ptsUs - Derived(b, |b.samples|) <= JITTER_US
  }

  function Anchored(b: Buffer, ptsUs: int): Buffer
  {
    if Continues(b, ptsUs) then b else Buffer([], ptsUs, 0, b.dropped)
  }

  function Append(b: Buffer, pcm: seq<int>, ptsUs: int, max: nat): Buffer
    requires max > 0
  {
    if pcm == [] then b else PushAll(Anchored(b, ptsUs), pcm, max)
  }

  function Drain(b: Buffer, n: nat): Buffer
  {
    var k := if n < |b.samples| then n else |b.samples|;
    if k == 0 then b
    else if k == |b.samples| then Clear(b)
    else Advance(b.(samples := b.samples[k..]), k)
  }

  // ------------------------------------------------------------------ runs

  datatype Event = AppendBlock(pcm: seq<int>, ptsUs: int) | DrainSamples(n: nat) | ClearBuffer

  /** A block that was appended: the position of its first sample since the anchor, and the time it came with. */
  datatype Block = Block(first: nat, ptsUs: int)

  /** The buffer and what happened since it was last anchored: its samples in full, how many are gone, the blocks. */
  datatype World = World(b: Buffer, anchorUs: int, stream: seq<int>, gone: nat, blocks: seq<Block>)

  const Start := World(Fresh, -1, [], 0, [])

  function Excess(n: nat, max: nat): nat { if n > max then n - max else 0 }

  function Next(w: World, max: nat, e: Event): World
    requires max > 0
  {
    match e
    case AppendBlock(pcm, ptsUs) =>
      var after := Append(w.b, pcm, ptsUs, max);
      if pcm == [] then w
      else if Continues(w.b, ptsUs) then
        World(after, w.anchorUs, w.stream + pcm, w.gone + Excess(|w.b.samples| + |pcm|, max),
              w.blocks + [Block(|w.stream|, ptsUs)])
      else World(after, ptsUs, pcm, Excess(|pcm|, max), [Block(0, ptsUs)])
    case DrainSamples(n) =>
      var after := Drain(w.b, n);
      if n == 0 || w.b.samples == [] then w
      else if n >= |w.b.samples| then World(after, -1, [], 0, [])
      else w.(b := after, gone := w.gone + n)
    case ClearBuffer => World(Clear(w.b), -1, [], 0, [])
  }

  ghost predicate Inv(w: World, max: nat)
  {
    && w.gone <= |w.stream| && w.b.samples == w.stream[w.gone..]
    && |w.b.samples| <= max
    && w.b.frac <= 1
    && (w.b.samples != [] ==> 2 * w.b.startUs + w.b.frac == 2 * w.anchorUs + 125 * w.gone)
    && (w.b.samples == [] ==> w.b.startUs == -1 && w.b.frac == 0)
    && forall i :: 0 <= i < |w.blocks| ==>
         && w.blocks[i].first <= |w.stream|
         && -JITTER_US <= w.anchorUs + 125 * w.blocks[i].first / 2 - w.blocks[i].ptsUs <= JITTER_US
  }

  function Run(w: World, max: nat, events: seq<Event>): World
    requires max > 0
    decreases |events|
  {
    if events == [] then w else Run(Next(w, max, events[0]), max, events[1..])
  }

  // ---------------------------------------------------------------- lemmas

  function Newest(samples: seq<int>, max: nat): seq<int>
  {
    samples[Excess(|samples|, max)..]
  }

  /** Pushing a block keeps the newest samples and moves the time by 62.5 us for each sample it pushes out. */
  lemma {:induction false} PushAllKeepsNewest(b: Buffer, pcm: seq<int>, max: nat)
    requires max > 0 && b.frac <= 1 && |b.samples| <= max
    ensures var r, gone := PushAll(b, pcm, max), Excess(|b.samples| + |pcm|, max);
            && r.samples == Newest(b.samples + pcm, max)
            && r.frac <= 1
            && 2 * r.startUs + r.frac == 2 * b.startUs + b.frac + 125 * gone
            && r.dropped == b.dropped + gone
  {
    if pcm == [] {
      assert b.samples + pcm == b.samples;
    } else {
      var front, x := pcm[..|pcm| - 1], pcm[|pcm| - 1];
      PushAllKeepsNewest(b, front, max);
      assert b.samples + pcm == b.samples + front + [x];
      NewestStep(b.samples + front, x, max);
    }
  }

  /** What a block leaves in the buffer: the newest samples of what it continues. */
  lemma AppendKeepsNewest(b: Buffer, pcm: seq<int>, ptsUs: int, max: nat)
    requires max > 0 && b.frac <= 1 && |b.samples| <= max
    ensures Append(b, pcm, ptsUs, max).samples ==
            Newest((if pcm == [] || Continues(b, ptsUs) then b.samples else []) + pcm, max)
  {
    if pcm == [] {
      assert b.samples + pcm == b.samples;
    } else {
      PushAllKeepsNewest(Anchored(b, ptsUs), pcm, max);
    }
  }

  lemma NewestStep(samples: seq<int>, x: int, max: nat)
    requires max > 0
    ensures Newest(samples + [x], max) ==
            if |samples| < max then samples + [x] else Newest(samples, max)[1..] + [x]
    ensures |samples| < max ==> Newest(samples, max) == samples
  {
  }

  lemma AppendInv(w: World, max: nat, pcm: seq<int>, ptsUs: int)
    requires max > 0 && Inv(w, max) && pcm != []
    ensures Inv(Next(w, max, AppendBlock(pcm, ptsUs)), max)
  {
    if Continues(w.b, ptsUs) {
      ContinueInv(w, max, pcm, ptsUs);
    } else {
      RestartInv(w, max, pcm, ptsUs);
    }
  }

  lemma ContinueInv(w: World, max: nat, pcm: seq<int>, ptsUs: int)
    requires max > 0 && Inv(w, max) && pcm != [] && Continues(w.b, ptsUs)
    ensures Inv(Next(w, max, AppendBlock(pcm, ptsUs)), max)
  {
    hide PushAll, Derived;
    PushAllKeepsNewest(w.b, pcm, max);
    var n := Next(w, max, AppendBlock(pcm, ptsUs));
    assert n.stream[n.gone..] == Newest(w.b.samples + pcm, max);
    DerivedIsFixed(w, max, |w.b.samples|);
    assert |w.stream| == w.gone + |w.b.samples|;
  }

  lemma RestartInv(w: World, max: nat, pcm: seq<int>, ptsUs: int)
    requires max > 0 && Inv(w, max) && pcm != [] && !Continues(w.b, ptsUs)
    ensures Inv(Next(w, max, AppendBlock(pcm, ptsUs)), max)
  {
    hide PushAll, Continues;
    var anchored := Anchored(w.b, ptsUs);
    PushAllKeepsNewest(anchored, pcm, max);
    assert anchored.samples + pcm == pcm;
  }

  /** The time derived for a sample depends on its position since the anchor only, not on what has been removed. */
  lemma DerivedIsFixed(w: World, max: nat, i: nat)
    requires Inv(w, max) && w.b.samples != []
    ensures Derived(w.b, i) == w.anchorUs + 125 * (w.gone + i) / 2
  {
  }

  /** Every append, drain, overflow and clear keeps the invariant. */
  lemma NextInv(w: World, max: nat, e: Event)
    requires max > 0 && Inv(w, max)
    ensures Inv(Next(w, max, e), max)
  {
    match e
    case AppendBlock(pcm, ptsUs) =>
      if pcm != [] {
        AppendInv(w, max, pcm, ptsUs);
      }
    case DrainSamples(n) =>
    case ClearBuffer =>
  }

  lemma {:induction false} RunInv(w: World, max: nat, events: seq<Event>)
    requires max > 0 && Inv(w, max)
    ensures Inv(Run(w, max, events), max)
    decreases |events|
  {
    if events != [] {
      NextInv(w, max, events[0]);
      RunInv(Next(w, max, events[0]), max, events[1..]);
    }
  }

  // ----------------------------------------------------------- main results

  /** The buffer always holds the newest samples since the anchor, and its time is exact to the half microsecond. */
  lemma HoldsNewestSamples(max: nat, events: seq<Event>)
    requires max > 0
    ensures var w := Run(Start, max, events);
            && |w.b.samples| <= max
            && w.gone <= |w.stream| && w.b.samples == w.stream[w.gone..]
            && (w.b.samples != [] ==> 2 * w.b.startUs + w.b.frac == 2 * w.anchorUs + 125 * w.gone)
  {
    RunInv(Start, max, events);
  }

  /** For every block whose first sample is still held, the derived time is within 63 us of the time it came with. */
  lemma TimestampsDoNotDrift(max: nat, events: seq<Event>, i: nat)
    requires max > 0 && i < |Run(Start, max, events).blocks|
    ensures var w := Run(Start, max, events);
            var block := w.blocks[i];
            w.gone <= block.first < |w.stream| ==>
              -63 <= Derived(w.b, block.first - w.gone) - block.ptsUs <= 63
  {
    RunInv(Start, max, events);
    var w := Run(Start, max, events);
    if w.gone <= w.blocks[i].first < |w.stream| {
      DerivedIsFixed(w, max, w.blocks[i].first - w.gone);
    }
  }

  /**
    In every run, a block on a buffer that is not empty continues it exactly if it comes within 63 us of the end of the
    audio since the anchor, 62.5 us for each sample of it; any other block is the new anchor, with nothing before it.
   */
  lemma BlockContinuesIff(max: nat, events: seq<Event>, pcm: seq<int>, ptsUs: int)
    requires max > 0 && pcm != []
    ensures var w := Run(Start, max, events);
            var n, endUs := Next(w, max, AppendBlock(pcm, ptsUs)), w.anchorUs + 125 * |w.stream| / 2;
            if w.b.samples != [] && endUs - 63 <= ptsUs <= endUs + 63
            then n.anchorUs == w.anchorUs && n.stream == w.stream + pcm && n.b.samples == Newest(w.b.samples + pcm, max)
            else n.anchorUs == ptsUs && n.stream == pcm && n.b.samples == Newest(pcm, max)
  {
    hide PushAll;
    RunInv(Start, max, events);
    AppendedIs(Run(Start, max, events), max, pcm, ptsUs);
  }

  lemma AppendedIs(w: World, max: nat, pcm: seq<int>, ptsUs: int)
    requires max > 0 && Inv(w, max) && pcm != []
    ensures var n, endUs := Next(w, max, AppendBlock(pcm, ptsUs)), w.anchorUs + 125 * |w.stream| / 2;
            if w.b.samples != [] && endUs - 63 <= ptsUs <= endUs + 63
            then n.anchorUs == w.anchorUs && n.stream == w.stream + pcm && n.b.samples == Newest(w.b.samples + pcm, max)
            else n.anchorUs == ptsUs && n.stream == pcm && n.b.samples == Newest(pcm, max)
  {
    hide Derived, Append;
    ContinuesIff(w, max, ptsUs);
    AppendKeepsNewest(w.b, pcm, ptsUs, max);
    assert [] + pcm == pcm;
  }

  lemma ContinuesIff(w: World, max: nat, ptsUs: int)
    requires Inv(w, max)
    ensures var endUs := w.anchorUs + 125 * |w.stream| / 2;
            Continues(w.b, ptsUs) <==> w.b.samples != [] && endUs - 63 <= ptsUs <= endUs + 63
  {
    if w.b.samples != [] {
      DerivedIsFixed(w, max, |w.b.samples|);
      assert |w.stream| == w.gone + |w.b.samples|;
    }
  }

  /** A block of samples as it comes from the plugin or the decoder. */
  datatype Incoming = Incoming(pcm: seq<int>, ptsUs: int)

  function Joined(blocks: seq<Incoming>): seq<int>
  {
    if blocks == [] then [] else Joined(blocks[..|blocks| - 1]) + blocks[|blocks| - 1].pcm
  }

  /** Each block but the first comes within 63 us of the end of the ones before it. */
  predicate Gapless(blocks: seq<Incoming>)
  {
    forall i :: 0 <= i < |blocks| ==>
      && blocks[i].pcm != []
      && -63 <= blocks[i].ptsUs - (blocks[0].ptsUs + 125 * |Joined(blocks[..i])| / 2) <= 63
  }

  function Appends(blocks: seq<Incoming>): seq<Event>
  {
    if blocks == [] then []
    else Appends(blocks[..|blocks| - 1]) + [AppendBlock(blocks[|blocks| - 1].pcm, blocks[|blocks| - 1].ptsUs)]
  }

  lemma {:induction false} RunOneMore(w: World, max: nat, events: seq<Event>, e: Event)
    requires max > 0
    ensures Run(w, max, events + [e]) == Next(Run(w, max, events), max, e)
    decreases |events|
  {
    hide Next;
    if events == [] {
      assert [e][1..] == [] && events + [e] == [e];
      assert Run(w, max, [e]) == Run(Next(w, max, e), max, []);
    } else {
      assert (events + [e])[1..] == events[1..] + [e];
      RunOneMore(Next(w, max, events[0]), max, events[1..], e);
    }
  }

  /** Of blocks without gaps the buffer holds the newest samples of all of them, timed from the first. */
  lemma {:induction false} GaplessBlocksAreKept(max: nat, blocks: seq<Incoming>)
    requires max > 0 && blocks != [] && Gapless(blocks)
    ensures var w := Run(Start, max, Appends(blocks));
            && w.b.samples == Newest(Joined(blocks), max) && w.b.samples != []
            && w.anchorUs == blocks[0].ptsUs && w.stream == Joined(blocks)
    decreases |blocks|
  {
    hide Newest, Next, Run;
    var n := |blocks| - 1;
    var front, last := blocks[..n], blocks[n];
    RunOneMore(Start, max, Appends(front), AppendBlock(last.pcm, last.ptsUs));
    RunInv(Start, max, Appends(front));
    BlockContinuesIff(max, Appends(front), last.pcm, last.ptsUs);
    if n == 0 {
      FirstBlock(max, blocks);
    } else {
      forall i | 0 <= i < n
        ensures front[..i] == blocks[..i]
      {
      }
      GaplessBlocksAreKept(max, front);
    }
    NewestOfNewest(Joined(front), last.pcm, max);
  }

  lemma FirstBlock(max: nat, blocks: seq<Incoming>)
    requires max > 0 && |blocks| == 1
    ensures Run(Start, max, Appends(blocks[..0])) == Start && Joined(blocks[..0]) == []
    ensures Joined(blocks) == blocks[0].pcm
  {
    assert blocks[..0] == [];
    assert [] + blocks[0].pcm == blocks[0].pcm;
  }

  lemma NewestOfNewest(a: seq<int>, b: seq<int>, max: nat)
    requires max > 0
    ensures Newest(Newest(a, max) + b, max) == Newest(a + b, max)
    ensures b != [] ==> Newest(a + b, max) != [] && Newest(b, max) != []
  {
  }
}
