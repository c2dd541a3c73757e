/**
  Flushing the audio that is left when a session ends: windows are cut until the buffer is empty or the recogniser
  fails. What the detector and the recogniser say about a window is an input, possibly different at every step.
 */
module TailFlush {
  import opened Captions
  import opened AudioTimeline
  import opened AudioBuffers
  import opened ChunkCutter
  import CueTimeline
  import opened Rings
  import opened SegmentBuilders

  /** One recognised phrase, timed from the start of its window; `noSpeech`: its no-speech probability is 0.6 or more. */
  datatype Phrase = Phrase(text: string, t0Us: int, t1Us: int, noSpeech: bool)

  /** What is heard in one window: the detector's answer, and the recogniser's phrases unless it fails. */
  datatype Heard = Heard(hearing: Hearing, phrases: Option<seq<Phrase>>)

  type Listener = (nat, seq<int>) -> Heard

  datatype Chunk = Spoken(samples: seq<int>, ptsUs: int) | Dropped(samples: seq<int>, ptsUs: int)

  /** A phrase handed to the segment builder, in absolute time. */
  datatype Hypothesis = Hypothesis(text: string, startUs: int, endUs: int)

  const INT64_MAX: int := 0x7fff_ffff_ffff_ffff

  function SaturatingAdd(a: int, b: int): int
  {
    if a + b > INT64_MAX then INT64_MAX else if a + b < -INT64_MAX - 1 then -INT64_MAX - 1 else a + b
  }

  function Hypotheses(phrases: seq<Phrase>, windowUs: int): seq<Hypothesis>
  {
    if phrases == [] then []
    else
      var front, p := Hypotheses(phrases[..|phrases| - 1], windowUs), phrases[|phrases| - 1];
      if p.noSpeech then front
      else front + [Hypothesis(p.text, SaturatingAdd(windowUs, p.t0Us), SaturatingAdd(windowUs, p.t1Us))]
  }

  /** One window: the recogniser failed, or a chunk was taken off the buffer and phrases were pushed. */
  datatype Step = Failed | Took(chunk: Chunk, pushed: seq<Hypothesis>, rest: Buffer)

  function Window(b: Buffer): seq<int> { b.samples[..Min(|b.samples|, MAX_SAMPLES)] }

  function Oldest(b: Buffer, k: nat): seq<int> { b.samples[..Min(k, |b.samples|)] }

  function FlushOne(b: Buffer, heard: Heard): (r: Step)
    requires b.samples != []
    ensures r.Took? ==> |r.rest.samples| < |b.samples|
  {
    var n := |Window(b)|;
    AlwaysTakes(n, heard.hearing, true);
    match FindBoundary(n, heard.hearing, true)
    case Silence(k) => Took(Dropped(Oldest(b, k), b.startUs), [], Drain(b, k))
    case Cut(k) =>
      if heard.phrases.None? then Failed
      else Took(Spoken(Oldest(b, k), b.startUs), Hypotheses(heard.phrases.value, b.startUs), Drain(b, k))
  }

  /** Whether everything was flushed, what is left, the chunks taken in order, and the phrases for the builder. */
  datatype Flushed = Flushed(ok: bool, rest: Buffer, chunks: seq<Chunk>, pushed: seq<Hypothesis>)

  function Flush(b: Buffer, step: nat, listen: Listener): Flushed
    decreases |b.samples|
  {
    if b.samples == [] then Flushed(true, b, [], [])
    else
      match FlushOne(b, listen(step, Window(b)))
      case Failed => Flushed(false, b, [], [])
      case Took(chunk, pushed, rest) => Before([chunk], pushed, Flush(rest, step + 1, listen))
  }

  function Before(chunks: seq<Chunk>, pushed: seq<Hypothesis>, r: Flushed): Flushed
  {
    Flushed(r.ok, r.rest, chunks + r.chunks, pushed + r.pushed)
  }

  // ------------------------------------------------------------- the program

  method PushPhrases(phrases: seq<Phrase>, windowPtsUs: int) returns (pushed: seq<Hypothesis>)
    ensures pushed == Hypotheses(phrases, windowPtsUs)
  {
    pushed := [];
    var index := 0;
    while index < |phrases|
      invariant 0 <= index <= |phrases|
      invariant pushed == Hypotheses(phrases[..index], windowPtsUs)
    {
      var p := phrases[index];
      assert phrases[..index + 1][..index] == phrases[..index];
      if !p.noSpeech {
        pushed := pushed +
          [Hypothesis(p.text, SaturatingAdd(windowPtsUs, p.t0Us), SaturatingAdd(windowPtsUs, p.t1Us))];
      }
      index := index + 1;
    }
    assert phrases[..index] == phrases;
  }

  /** Cuts, transcribes and drains one window that has been copied out of the buffer. */
  method FlushWindow(buffer: AudioBuffer, available: nat, windowPtsUs: int, heard: Heard)
    returns (ok: bool, pushed: seq<Hypothesis>)
    requires buffer.Valid() && buffer.Value().samples != []
    requires available == |Window(buffer.Value())| && windowPtsUs == buffer.Value().startUs
    modifies buffer
    ensures buffer.Valid()
    ensures var step := FlushOne(old(buffer.Value()), heard);
            if step.Failed? then !ok && pushed == [] && buffer.Value() == old(buffer.Value())
            else ok && pushed == step.pushed && buffer.Value() == step.rest
  {
    AlwaysTakes(available, heard.hearing, true);
    var found, cutSamples, silenceDrain := FindChunkBoundary(available, heard.hearing, true);
    if !found || (cutSamples == 0 && silenceDrain == 0) {
      return false, [];
    }
    if silenceDrain > 0 {
      buffer.DrainSamples(silenceDrain);
      return true, [];
    }
    if heard.phrases.None? {
      return false, [];
    }
    pushed := PushPhrases(heard.phrases.value, windowPtsUs);
    buffer.DrainSamples(cutSamples);
    return true, pushed;
  }

  /** The builder after the phrases have been pushed one after another. */
  function PushEach(phantom: string -> bool, b: CueTimeline.Builder, pushed: seq<Hypothesis>): CueTimeline.Builder
  {
    if pushed == [] then b
    else
      var front, p := PushEach(phantom, b, pushed[..|pushed| - 1]), pushed[|pushed| - 1];
      CueTimeline.Push(phantom, front, p.text, p.startUs, p.endUs)
  }

  method PushToBuilder(builder: SegmentBuilder, pushed: seq<Hypothesis>)
    requires builder.Valid()
    modifies builder, builder.segmentQueue, builder.history
    ensures builder.Valid() && (builder.segmentQueue == old(builder.segmentQueue) || fresh(builder.segmentQueue))
    ensures builder.State() == PushEach(builder.phantom, old(builder.State()), pushed)
  {
    hide CueTimeline.Push;
    var i := 0;
    ghost var before := builder.State();
    assert pushed[..0] == [];
    while i < |pushed|
      invariant 0 <= i <= |pushed| && builder.Valid()
      invariant builder.segmentQueue == old(builder.segmentQueue) || fresh(builder.segmentQueue)
      invariant builder.State() == PushEach(builder.phantom, before, pushed[..i])
    {
      assert pushed[..i + 1][..i] == pushed[..i];
      var _ := builder.PushHypothesis(pushed[i].text, pushed[i].startUs, pushed[i].endUs);
      i := i + 1;
    }
    assert pushed[..i] == pushed;
  }

  lemma {:induction false} PushEachJoins(phantom: string -> bool, b: CueTimeline.Builder, first: seq<Hypothesis>,
                                         second: seq<Hypothesis>)
    ensures PushEach(phantom, b, first + second) == PushEach(phantom, PushEach(phantom, b, first), second)
    decreases |second|
  {
    if second == [] {
      assert first + second == first;
    } else {
      assert (first + second)[..|first + second| - 1] == first + second[..|second| - 1];
      PushEachJoins(phantom, b, first, second[..|second| - 1]);
    }
  }

  /** Window by window: the phrases go to the builder, the audio they were heard in leaves the buffer. */
  method FlushAudioTail(buffer: AudioBuffer, window: array<int>, builder: SegmentBuilder, listen: Listener)
    returns (ok: bool, ghost pushed: seq<Hypothesis>, ghost chunks: seq<Chunk>)
    requires buffer.Valid() && window.Length >= MAX_SAMPLES && window != buffer.samples && builder.Valid()
    modifies buffer, window, builder, builder.segmentQueue, builder.history
    ensures buffer.Valid()
    ensures Flushed(ok, buffer.Value(), chunks, pushed) == Flush(old(buffer.Value()), 0, listen)
    ensures builder.Valid() && (builder.segmentQueue == old(builder.segmentQueue) || fresh(builder.segmentQueue))
    ensures builder.State() == PushEach(builder.phantom, old(builder.State()), pushed)
  {
    hide Contents, FlushOne, CueTimeline.Push;
    chunks, pushed := [], [];
    var step := 0;
    ghost var phantom, before := builder.phantom, builder.State();
    while buffer.count > 0
      invariant buffer.Valid() && builder.Valid()
      invariant builder.segmentQueue == old(builder.segmentQueue) || fresh(builder.segmentQueue)
      invariant Flush(old(buffer.Value()), 0, listen) == Before(chunks, pushed, Flush(buffer.Value(), step, listen))
      invariant builder.State() == PushEach(phantom, before, pushed)
      decreases buffer.count
    {
      ghost var b := buffer.Value();
      var available, windowPtsUs := buffer.GetSamples(window, MAX_SAMPLES);
      assert window[..available] == Window(b);
      var heard := listen(step, window[..available]);
      var more, phrases := FlushWindow(buffer, available, windowPtsUs, heard);
      if !more {
        return false, pushed, chunks;
      }
      ghost var chunk := FlushOne(b, heard).chunk;
      PushToBuilder(builder, phrases);
      PushEachJoins(phantom, before, pushed, phrases);
      BeforeBefore(chunks, pushed, [chunk], phrases, Flush(buffer.Value(), step + 1, listen));
      pushed, chunks := pushed + phrases, chunks + [chunk];
      step := step + 1;
    }
    return true, pushed, chunks;
  }

  lemma BeforeBefore(chunks: seq<Chunk>, pushed: seq<Hypothesis>, c: seq<Chunk>, p: seq<Hypothesis>, r: Flushed)
    ensures Before(chunks, pushed, Before(c, p, r)) == Before(chunks + c, pushed + p, r)
  {
  }

  // ------------------------------------------------- what the builder is given

  /** The numbers of the set, in rising order. */
  ghost predicate Lists(idx: seq<nat>, wanted: set<nat>)
  {
    && (forall i, j :: 0 <= i < j < |idx| ==> idx[i] < idx[j])
    && (forall k :: k in idx <==> k in wanted)
  }

  /** Sums of times stop at the ends of a signed 64-bit number. */
  lemma SumsStopAtTheEnds(a: int, b: int)
    ensures var r := SaturatingAdd(a, b);
            && -9_223_372_036_854_775_808 <= r <= 9_223_372_036_854_775_807
            && (a + b > 9_223_372_036_854_775_807 ==> r == 9_223_372_036_854_775_807)
            && (a + b < -9_223_372_036_854_775_808 ==> r == -9_223_372_036_854_775_808)
            && (-9_223_372_036_854_775_808 <= a + b <= 9_223_372_036_854_775_807 ==> r == a + b)
  {
  }

  function Voiced(phrases: seq<Phrase>): set<nat>
  {
    set k: nat | k < |phrases| && !phrases[k].noSpeech
  }

  /** The phrases with these numbers, at their own times in a window that begins at this time. */
  ghost predicate SpokenAt(pushed: seq<Hypothesis>, phrases: seq<Phrase>, idx: seq<nat>, windowUs: int)
  {
    && |pushed| == |idx|
    && forall i :: 0 <= i < |idx| ==>
         && idx[i] < |phrases|
         && pushed[i] == Hypothesis(phrases[idx[i]].text, SaturatingAdd(windowUs, phrases[idx[i]].t0Us),
                                    SaturatingAdd(windowUs, phrases[idx[i]].t1Us))
  }

  /** The phrases of a window are pushed in order, each once, all but those the recogniser takes for no speech. */
  lemma {:induction false} VoicedPhrasesArePushed(phrases: seq<Phrase>, windowUs: int)
    ensures exists idx :: Lists(idx, Voiced(phrases)) && SpokenAt(Hypotheses(phrases, windowUs), phrases, idx, windowUs)
    decreases |phrases|
  {
    hide SaturatingAdd, Lists, SpokenAt;
    if phrases == [] {
      NothingVoiced(phrases, windowUs);
      assert Lists([], Voiced(phrases)) && SpokenAt(Hypotheses(phrases, windowUs), phrases, [], windowUs);
    } else {
      var n := |phrases| - 1;
      var front := phrases[..n];
      VoicedPhrasesArePushed(front, windowUs);
      var idx :| Lists(idx, Voiced(front)) && SpokenAt(Hypotheses(front, windowUs), front, idx, windowUs);
      var more := if phrases[n].noSpeech then idx else idx + [n];
      VoicedOneMore(phrases, idx);
      SpokenOneMore(phrases, idx, windowUs);
      assert Lists(more, Voiced(phrases)) && SpokenAt(Hypotheses(phrases, windowUs), phrases, more, windowUs);
    }
  }

  lemma NothingVoiced(phrases: seq<Phrase>, windowUs: int)
    requires phrases == []
    ensures Lists([], Voiced(phrases)) && SpokenAt(Hypotheses(phrases, windowUs), phrases, [], windowUs)
  {
  }

  lemma SpokenOneMore(phrases: seq<Phrase>, idx: seq<nat>, windowUs: int)
    requires phrases != []
    requires var front := phrases[..|phrases| - 1]; SpokenAt(Hypotheses(front, windowUs), front, idx, windowUs)
    ensures var n := |phrases| - 1;
            SpokenAt(Hypotheses(phrases, windowUs), phrases, if phrases[n].noSpeech then idx else idx + [n], windowUs)
  {
    hide SaturatingAdd;
  }

  lemma VoicedOneMore(phrases: seq<Phrase>, idx: seq<nat>)
    requires phrases != [] && Lists(idx, Voiced(phrases[..|phrases| - 1]))
    ensures var n := |phrases| - 1; Lists(if phrases[n].noSpeech then idx else idx + [n], Voiced(phrases))
  {
    var n := |phrases| - 1;
    ListOneMore(idx, Voiced(phrases[..n]), n);
    assert Voiced(phrases) == if phrases[n].noSpeech then Voiced(phrases[..n]) else Voiced(phrases[..n]) + {n};
  }

  lemma ListOneMore(idx: seq<nat>, wanted: set<nat>, n: nat)
    requires Lists(idx, wanted) && forall k :: k in wanted ==> k < n
    ensures Lists(idx + [n], wanted + {n})
  {
    var more := idx + [n];
    assert more[|idx|] == n;
    forall i | 0 <= i < |idx|
      ensures more[i] < n
    {
      assert idx[i] in wanted;
    }
  }

  /** Of a window's chunk: nothing of dropped silence, and of speech what is heard in exactly the window it was cut from. */
  function PushedFor(c: Chunk, heard: Heard): seq<Hypothesis>
    requires c.Spoken? ==> heard.phrases.Some?
  {
    if c.Spoken? then Hypotheses(heard.phrases.value, c.ptsUs) else []
  }

  /** What is heard when the chunks before it are gone: the answer for the next 384_000 samples, or what is left. */
  function HeardIn(b: Buffer, at: nat, step: nat, listen: Listener): Heard
    requires at <= |b.samples|
  {
    var left := |b.samples| - at;
    listen(step, b.samples[at..at + if left < 384_000 then left else 384_000])
  }

  /** The chunk is the one the boundary of the window asks for, of at most all that is left. */
  ghost predicate CutAt(b: Buffer, at: nat, c: Chunk, hearing: Hearing)
  {
    && at + |c.samples| <= |b.samples|
    && var left := |b.samples| - at;
       match FindBoundary(if left < 384_000 then left else 384_000, hearing, true)
       case Silence(k) => c.Dropped? && |c.samples| == if k < left then k else left
       case Cut(k) => c.Spoken? && |c.samples| == if k < left then k else left
       case Wait => false
  }

  /** Chunk by chunk, what a flush takes and what it pushes. */
  ghost predicate Told(b: Buffer, at: nat, step: nat, listen: Listener, chunks: seq<Chunk>, pushed: seq<Hypothesis>)
    decreases |chunks|
  {
    if chunks == [] then pushed == []
    else
      && at < |b.samples|
      && var heard, c := HeardIn(b, at, step, listen), chunks[0];
         && CutAt(b, at, c, heard.hearing)
         && (c.Spoken? ==> heard.phrases.Some?)
         && PushedFor(c, heard) <= pushed
         && Told(b, at + |c.samples|, step + 1, listen, chunks[1..], pushed[|PushedFor(c, heard)|..])
  }

  /** The windows of a flush are cut where the boundary says, and everything heard in them is pushed, window by window. */
  lemma {:induction false} FlushTellsTheBuilder(b: Buffer, step: nat, listen: Listener)
    ensures var r := Flush(b, step, listen); Told(b, 0, step, listen, r.chunks, r.pushed)
    decreases |b.samples|
  {
    hide FindBoundary, Hypotheses, FlushOne;
    if b.samples != [] {
      var heard := listen(step, Window(b));
      FlushOneTells(b, heard);
      match FlushOne(b, heard)
      case Failed =>
      case Took(chunk, pushed, rest) =>
        var r := Flush(rest, step + 1, listen);
        FlushTellsTheBuilder(rest, step + 1, listen);
        ToldShift(b, rest, |chunk.samples|, 0, step + 1, listen, r.chunks, r.pushed);
        assert b.samples[0..|Window(b)|] == Window(b);
        assert HeardIn(b, 0, step, listen) == heard;
        assert ([chunk] + r.chunks)[1..] == r.chunks;
        assert (pushed + r.pushed)[|pushed|..] == r.pushed;
        TookIs(b, step, listen, chunk, pushed, rest);
    }
  }

  lemma TookIs(b: Buffer, step: nat, listen: Listener, chunk: Chunk, pushed: seq<Hypothesis>, rest: Buffer)
    requires b.samples != [] && FlushOne(b, listen(step, Window(b))) == Took(chunk, pushed, rest)
    ensures Flush(b, step, listen) == Before([chunk], pushed, Flush(rest, step + 1, listen))
  {
    hide FlushOne;
  }

  lemma FlushOneTells(b: Buffer, heard: Heard)
    requires b.samples != []
    ensures var s := FlushOne(b, heard);
            s.Took? ==>
              && CutAt(b, 0, s.chunk, heard.hearing)
              && (s.chunk.Spoken? ==> heard.phrases.Some?)
              && s.pushed == PushedFor(s.chunk, heard)
              && s.rest.samples == b.samples[|s.chunk.samples|..]
  {
    hide FindBoundary, Hypotheses;
    AlwaysTakes(|Window(b)|, heard.hearing, true);
  }

  lemma HeardShift(b: Buffer, c: Buffer, k: nat, at: nat, step: nat, listen: Listener)
    requires k <= |b.samples| && c.samples == b.samples[k..] && at <= |c.samples|
    ensures HeardIn(b, at + k, step, listen) == HeardIn(c, at, step, listen)
  {
    var left := |c.samples| - at;
    var n := if left < 384_000 then left else 384_000;
    assert c.samples[at..at + n] == b.samples[at + k..at + k + n];
  }

  lemma CutShift(b: Buffer, c: Buffer, k: nat, at: nat, chunk: Chunk, hearing: Hearing)
    requires k <= |b.samples| && c.samples == b.samples[k..] && at <= |c.samples|
    ensures CutAt(b, at + k, chunk, hearing) == CutAt(c, at, chunk, hearing)
  {
    hide FindBoundary;
  }

  lemma {:induction false} ToldShift(b: Buffer, c: Buffer, k: nat, at: nat, step: nat, listen: Listener,
                                     chunks: seq<Chunk>, pushed: seq<Hypothesis>)
    requires k <= |b.samples| && c.samples == b.samples[k..] && Told(c, at, step, listen, chunks, pushed)
    ensures Told(b, at + k, step, listen, chunks, pushed)
    decreases |chunks|
  {
    hide FindBoundary, Hypotheses, CutAt, HeardIn, PushedFor;
    if chunks != [] {
      var heard := HeardIn(c, at, step, listen);
      HeardShift(b, c, k, at, step, listen);
      CutShift(b, c, k, at, chunks[0], heard.hearing);
      TakesNoMore(c, at, chunks[0], heard.hearing);
      ToldShift(b, c, k, at + |chunks[0].samples|, step + 1, listen, chunks[1..],
                pushed[|PushedFor(chunks[0], heard)|..]);
      assert at + |chunks[0].samples| + k == at + k + |chunks[0].samples|;
    }
  }

  lemma TakesNoMore(b: Buffer, at: nat, c: Chunk, hearing: Hearing)
    requires at <= |b.samples| && CutAt(b, at, c, hearing)
    ensures at + |c.samples| <= |b.samples|
  {
  }

  // ------------------------------------------------------------------ lemmas

  ghost function SamplesOf(chunks: seq<Chunk>): seq<int>
  {
    if chunks == [] then [] else chunks[0].samples + SamplesOf(chunks[1..])
  }

  /** Chunk by chunk: nonempty, and timed at the position of its first sample in the audio of b, `at` samples in. */
  ghost predicate Timed(b: Buffer, at: nat, chunks: seq<Chunk>)
    decreases |chunks|
  {
    chunks == [] ||
    (&& chunks[0].samples != []
     && chunks[0].ptsUs == Derived(b, at)
     && Timed(b, at + |chunks[0].samples|, chunks[1..]))
  }

  lemma {:induction false} TimedShift(b: Buffer, c: Buffer, k: nat, at: nat, chunks: seq<Chunk>)
    requires forall i: nat :: Derived(c, i) == Derived(b, i + k)
    requires Timed(c, at, chunks)
    ensures Timed(b, at + k, chunks)
    decreases |chunks|
  {
    if chunks != [] {
      TimedShift(b, c, k, at + |chunks[0].samples|, chunks[1..]);
    }
  }

  lemma PartitionStep(b: Buffer, chunk: Chunk, rest: Buffer, r: Flushed)
    requires 0 < |chunk.samples| <= |b.samples| && chunk.ptsUs == Derived(b, 0)
    requires chunk.samples == b.samples[..|chunk.samples|] && rest.samples == b.samples[|chunk.samples|..]
    requires rest.samples == [] ==> r.chunks == []
    requires rest.samples != [] ==> forall i: nat :: Derived(rest, i) == Derived(b, i + |chunk.samples|)
    requires rest.samples == SamplesOf(r.chunks) + r.rest.samples && Timed(rest, 0, r.chunks)
    ensures b.samples == SamplesOf([chunk] + r.chunks) + r.rest.samples
    ensures Timed(b, 0, [chunk] + r.chunks)
  {
    var all := [chunk] + r.chunks;
    assert all[1..] == r.chunks;
    assert b.samples == chunk.samples + rest.samples;
    assert chunk.samples + (SamplesOf(r.chunks) + r.rest.samples)
        == (chunk.samples + SamplesOf(r.chunks)) + r.rest.samples;
    if rest.samples != [] {
      TimedShift(b, rest, |chunk.samples|, 0, r.chunks);
    }
  }

  /**
    Whatever is heard, the flush ends, and the chunks taken followed by what is left are the buffered samples, each
    exactly once and in order, with exact times. Nothing is left unless the recogniser failed on a cut.
   */
  lemma {:induction false} FlushPartitionsAudio(b: Buffer, step: nat, listen: Listener)
    requires b.frac <= 1
    ensures var r := Flush(b, step, listen);
            && b.samples == SamplesOf(r.chunks) + r.rest.samples
            && Timed(b, 0, r.chunks)
            && (r.ok <==> r.rest.samples == [])
    decreases |b.samples|
  {
    if b.samples != [] {
      match FlushOne(b, listen(step, Window(b)))
      case Failed =>
      case Took(chunk, pushed, rest) =>
        FlushPartitionsAudio(rest, step + 1, listen);
        var r := Flush(rest, step + 1, listen);
        TookOldest(b, listen(step, Window(b)));
        PartitionStep(b, chunk, rest, r);
    }
  }

  /** One window takes at least one of the oldest samples, and the rest of the buffer keeps their time. */
  lemma TookOldest(b: Buffer, heard: Heard)
    requires b.samples != [] && b.frac <= 1 && FlushOne(b, heard).Took?
    ensures var s := FlushOne(b, heard);
            && 0 < |s.chunk.samples| <= |b.samples|
            && s.chunk.samples == b.samples[..|s.chunk.samples|]
            && s.rest.samples == b.samples[|s.chunk.samples|..]
            && s.rest.frac <= 1
            && s.chunk.ptsUs == Derived(b, 0)
            && (s.rest.samples != [] ==>
                  forall i: nat :: Derived(s.rest, i) == Derived(b, i + |s.chunk.samples|))
  {
  }

  /** The flush fails only when the recogniser fails on speech it is given; the audio from that window on is kept. */
  lemma {:induction false} FailsOnlyWithRecogniser(b: Buffer, step: nat, listen: Listener)
    requires !Flush(b, step, listen).ok
    ensures var r := Flush(b, step, listen);
            && r.rest.samples != []
            && var heard := listen(step + |r.chunks|, Window(r.rest));
               heard.phrases.None? && FindBoundary(|Window(r.rest)|, heard.hearing, true).Cut?
    decreases |b.samples|
  {
    hide FlushOne, Window, FindBoundary;
    FailedOne(b, listen(step, Window(b)));
    match FlushOne(b, listen(step, Window(b)))
    case Failed =>
    case Took(_, _, rest) => FailsOnlyWithRecogniser(rest, step + 1, listen);
  }

  lemma FailedOne(b: Buffer, heard: Heard)
    requires b.samples != []
    ensures FlushOne(b, heard).Failed? ==>
              heard.phrases.None? && FindBoundary(|Window(b)|, heard.hearing, true).Cut?
  {
  }
}
