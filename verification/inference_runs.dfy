/** What the recogniser's answers become. */
module InferenceRuns {
  // The windows of live audio and the chunks of a decoded file, one after another, with the phrases of each that go to
  // the segment builder. The worker's loop is proved to do this on its own buffers.

  import opened AudioTimeline
  import opened Captions
  import opened ChunkCutter
  import opened CueProvenance
  import CueTimeline
  import opened TailFlush
  import opened WorkerSession

  const WINDOW_SAMPLES: nat := 128_000
  const LIVE_STARTUP_SAMPLES: nat := 32_000
  const LIVE_HOP_SAMPLES: nat := 16_000
  const LOCAL_HOP_SAMPLES: nat := 32_000
  const LIVE_EDGE_HOLDBACK_US: int := 500_000

  /** What is heard in a window of live audio: no speech, or speech whose phrases are given unless the recogniser fails. */
  datatype LiveHeard = Quiet | Spoke(phrases: Option<seq<Phrase>>)

  type LiveListener = (nat, seq<int>) -> LiveHeard

  /** A recognised window or a dropped silence: its samples, its time, the phrases kept of it, the samples drained. */
  datatype Turn = Turn(samples: seq<int>, startUs: int, kept: seq<Phrase>, drained: nat, reports: bool)

  /** The turns taken, what they leave in the buffer, and for live audio how much the next window asks for. */
  datatype Turns = Turns(ok: bool, rest: Buffer, next: nat, turns: seq<Turn>)

  function Before(t: Turn, r: Turns): Turns
  {
    r.(turns := [t] + r.turns)
  }

  // ------------------------------------------------------------ live audio

  /** Of the phrases heard in a window, those that end where more audio cannot change them any more. */
  function Settled(phrases: seq<Phrase>, limitUs: int): seq<Phrase>
  {
    if phrases == [] then []
    else
      var front, p := Settled(phrases[..|phrases| - 1], limitUs), phrases[|phrases| - 1];
      if p.t1Us <= limitUs then front + [p] else front
  }

  function LiveWindow(b: Buffer): seq<int>
  {
    b.samples[..if |b.samples| < WINDOW_SAMPLES then |b.samples| else WINDOW_SAMPLES]
  }

  /** The phrases of a window; while the session's audio is still growing towards a full window only settled ones. */
  function KeptOf(heard: LiveHeard, growing: bool, read: nat): seq<Phrase>
    requires heard.Quiet? || heard.phrases.Some?
  {
    if heard.Quiet? then []
    else if growing then Settled(heard.phrases.value, read * 1_000_000 / 16_000 - LIVE_EDGE_HOLDBACK_US)
    else heard.phrases.value
  }

  predicate FailsOn(heard: LiveHeard)
  {
    heard.Spoke? && heard.phrases.None?
  }

  /** The turn for what is heard in the next window: a growing one is read again later, a full one moves on by a hop. */
  function LiveTurn(b: Buffer, progressive: bool, heard: LiveHeard): Turn
    requires !FailsOn(heard)
  {
    var w := LiveWindow(b);
    var growing := progressive && |w| < WINDOW_SAMPLES;
    Turn(w, b.startUs, KeptOf(heard, growing, |w|),
         if growing then 0 else if progressive then LIVE_HOP_SAMPLES else LOCAL_HOP_SAMPLES, true)
  }

  function NextAsked(progressive: bool, read: nat): (n: nat)
    ensures n > 0
  {
    if progressive && read + LIVE_HOP_SAMPLES < WINDOW_SAMPLES then read + LIVE_HOP_SAMPLES else WINDOW_SAMPLES
  }

  function LiveTurns(b: Buffer, progressive: bool, next: nat, step: nat, live: LiveListener): (r: Turns)
    requires next > 0
    decreases |b.samples|
  {
    if |b.samples| < next then Turns(true, b, next, [])
    else
      var heard := live(step, LiveWindow(b));
      if FailsOn(heard) then Turns(false, b, next, [])
      else
        var t := LiveTurn(b, progressive, heard);
        if t.drained == 0 then Turns(true, b, NextAsked(progressive, |t.samples|), [t])
        else Before(t, LiveTurns(AudioTimeline.Drain(b, t.drained), progressive, WINDOW_SAMPLES, step + 1, live))
  }

  // ----------------------------------------------------------- decoded audio

  /** What the look-ahead does with the audio at hand: wait for more, take a turn, or fail with the recogniser. */
  datatype Look = Waits | FailsHere | Takes(turn: Turn)

  function AheadStep(b: Buffer, step: nat, listen: Listener): Look
  {
    var w := Window(b);
    var heard := listen(step, w);
    match FindBoundary(|w|, heard.hearing, false)
    case Wait => Waits
    case Silence(k) => if k == 0 then Waits else Takes(Turn([], b.startUs, [], k, false))
    case Cut(k) =>
      if k == 0 then Waits
      else if heard.phrases.None? then FailsHere
      else Takes(Turn(Oldest(b, k), b.startUs, heard.phrases.value, k, true))
  }

  /** The chunks of the decoded audio that can be cut before its end. */
  function AheadTurns(b: Buffer, step: nat, listen: Listener): (r: Turns)
    decreases |b.samples|
  {
    if |b.samples| < MIN_SAMPLES then Turns(true, b, 0, [])
    else
      match AheadStep(b, step, listen)
      case Waits => Turns(true, b, 0, [])
      case FailsHere => Turns(false, b, 0, [])
      case Takes(t) => Before(t, AheadTurns(AudioTimeline.Drain(b, t.drained), step + 1, listen))
  }

  // ------------------------------------------------------ the builder's part

  function PushedBy(t: Turn): seq<Hypothesis>
  {
    Hypotheses(t.kept, t.startUs)
  }

  function RoundOf(phantom: string -> bool, b: CueTimeline.Builder, t: Turn): Round
  {
    Round(|t.samples|, Emissions(phantom, b, PushedBy(t)), t.drained, t.reports)
  }

  /** The rounds of the session model: the captions the builder decides to queue for each turn. */
  function RoundsOf(phantom: string -> bool, b: CueTimeline.Builder, turns: seq<Turn>): seq<Round>
    decreases |turns|
  {
    if turns == [] then []
    else [RoundOf(phantom, b, turns[0])] + RoundsOf(phantom, PushEach(phantom, b, PushedBy(turns[0])), turns[1..])
  }

  function BuilderAfter(phantom: string -> bool, b: CueTimeline.Builder, turns: seq<Turn>): CueTimeline.Builder
    decreases |turns|
  {
    if turns == [] then b else BuilderAfter(phantom, PushEach(phantom, b, PushedBy(turns[0])), turns[1..])
  }

  /** What the worker's inference works on: the buffered audio, the builder, and how much the next live window asks for. */
  datatype Held = Held(audio: Buffer, cues: CueTimeline.Builder, progressive: bool, next: nat)

  /** The audio and everything the builder knows are dropped; the next window is a first one. */
  function Emptied(h: Held): Held
  {
    Held(AudioTimeline.Clear(h.audio), CueTimeline.Clear(h.cues), h.progressive,
         if h.progressive then LIVE_STARTUP_SAMPLES else WINDOW_SAMPLES)
  }

  /** Another session replaces one that runs: audio and pending captions are dropped, the phrases are still remembered. */
  function MediaDropped(h: Held): Held
  {
    Held(AudioTimeline.Clear(h.audio), h.cues.(pending := []), false, WINDOW_SAMPLES)
  }

  /** What is left after each, in figures. */
  lemma NothingIsLeft(h: Held)
    ensures var e := Emptied(h);
            && e.audio == AudioTimeline.Buffer([], -1, 0, h.audio.dropped)
            && e.cues == CueTimeline.Builder(h.cues.nextId, [], [], -1)
            && e.progressive == h.progressive && e.next == if h.progressive then 32_000 else 128_000
    ensures MediaDropped(h) == Held(AudioTimeline.Buffer([], -1, 0, h.audio.dropped), h.cues.(pending := []), false, 128_000)
  {
  }

  /** No audio and no phrase, whatever comes next; the numbering of cues goes on. */
  predicate NothingHeld(h: Held)
  {
    && h.audio == AudioTimeline.Buffer([], -1, 0, h.audio.dropped)
    && h.cues == CueTimeline.Builder(h.cues.nextId, [], [], -1)
    && !h.progressive && h.next == 128_000
  }

  lemma EmptiedIsNothing(h: Held)
    ensures NothingHeld(Emptied(h.(progressive := false)))
  {
  }

  lemma EmptiedTwice(h: Held)
    ensures Emptied(Emptied(h)) == Emptied(h)
  {
  }

  /** After a clear nothing of a session before can be seen. */
  lemma EmptiedForgets(h: Held, live: bool)
    ensures Emptied(MediaDropped(h).(progressive := live)) == Emptied(h.(progressive := live))
  {
  }

  /** After a turn: its samples drained, its phrases pushed. */
  function AfterTurn(phantom: string -> bool, h: Held, t: Turn): Held
  {
    h.(audio := AudioTimeline.Drain(h.audio, t.drained), cues := PushEach(phantom, h.cues, PushedBy(t)))
  }

  lemma QuietSaysNothing(phantom: string -> bool, b: CueTimeline.Builder, windowUs: int)
    ensures Hypotheses([], windowUs) == [] && Emissions(phantom, b, []) == [] && PushEach(phantom, b, []) == b
  {
  }

  lemma SilenceSaysNothing(phantom: string -> bool, h: Held, t: Turn)
    requires t.kept == []
    ensures RoundOf(phantom, h.cues, t) == Round(|t.samples|, [], t.drained, t.reports)
    ensures AfterTurn(phantom, h, t) == h.(audio := AudioTimeline.Drain(h.audio, t.drained))
  {
  }

  function AfterAll(ts: seq<Turn>, r: Turns): Turns
  {
    r.(turns := ts + r.turns)
  }

  lemma BeforeAfter(ts: seq<Turn>, t: Turn, r: Turns)
    ensures AfterAll(ts, Before(t, r)) == AfterAll(ts + [t], r)
  {
  }

  /** The rounds of the live loop over what is held, and whether it goes through. */
  ghost predicate HeardInLive(phantom: string -> bool, h: Held, live: LiveListener, ok: bool, rounds: seq<Round>)
    requires h.next > 0
  {
    var r := LiveTurns(h.audio, h.progressive, h.next, 0, live);
    ok == r.ok && rounds == RoundsOf(phantom, h.cues, r.turns)
  }

  /** The same, and what it leaves. */
  ghost predicate HeardLive(phantom: string -> bool, h: Held, live: LiveListener, ok: bool, rounds: seq<Round>, after: Held)
    requires h.next > 0
  {
    var r := LiveTurns(h.audio, h.progressive, h.next, 0, live);
    && HeardInLive(phantom, h, live, ok, rounds)
    && after == Held(r.rest, BuilderAfter(phantom, h.cues, r.turns), h.progressive, r.next)
  }

  /** The same of the look-ahead over decoded audio. */
  ghost predicate HeardInAhead(phantom: string -> bool, h: Held, listen: Listener, ok: bool, rounds: seq<Round>)
  {
    var r := AheadTurns(h.audio, 0, listen);
    ok == r.ok && rounds == RoundsOf(phantom, h.cues, r.turns)
  }

  ghost predicate HeardAhead(phantom: string -> bool, h: Held, listen: Listener, ok: bool, rounds: seq<Round>, after: Held)
  {
    var r := AheadTurns(h.audio, 0, listen);
    && HeardInAhead(phantom, h, listen, ok, rounds)
    && after == h.(audio := r.rest, cues := BuilderAfter(phantom, h.cues, r.turns))
  }

  lemma AheadGoesBy(b: Buffer, step: nat, listen: Listener)
    requires |b.samples| >= MIN_SAMPLES
    ensures AheadTurns(b, step, listen) ==
            match AheadStep(b, step, listen)
            case Waits => Turns(true, b, 0, [])
            case FailsHere => Turns(false, b, 0, [])
            case Takes(t) => Before(t, AheadTurns(AudioTimeline.Drain(b, t.drained), step + 1, listen))
  {
    hide FindBoundary;
  }

  lemma AheadTooShort(b: Buffer, step: nat, listen: Listener)
    requires |b.samples| < MIN_SAMPLES
    ensures AheadTurns(b, step, listen) == Turns(true, b, 0, [])
  {
  }

  lemma NoTurnsYet(phantom: string -> bool, b: CueTimeline.Builder)
    ensures RoundsOf(phantom, b, []) == [] && BuilderAfter(phantom, b, []) == b
  {
  }

  lemma LiveGoesBy(b: Buffer, progressive: bool, next: nat, step: nat, live: LiveListener)
    requires 0 < next <= |b.samples|
    ensures var heard, r := live(step, LiveWindow(b)), LiveTurns(b, progressive, next, step, live);
            if FailsOn(heard) then r == Turns(false, b, next, [])
            else
              var t := LiveTurn(b, progressive, heard);
              r == if t.drained == 0 then Turns(true, b, NextAsked(progressive, |t.samples|), [t])
                   else Before(t, LiveTurns(AudioTimeline.Drain(b, t.drained), progressive,
                                            NextAsked(progressive, |t.samples|), step + 1, live))
  {
    hide KeptOf;
  }

  lemma LiveEnough(b: Buffer, progressive: bool, next: nat, step: nat, live: LiveListener)
    requires |b.samples| < next
    ensures LiveTurns(b, progressive, next, step, live) == Turns(true, b, next, [])
  {
  }

  lemma AfterNone(r: Turns)
    ensures AfterAll([], r) == r
  {
  }

  lemma {:induction false} TurnsOneMore(phantom: string -> bool, b: CueTimeline.Builder, turns: seq<Turn>, t: Turn)
    ensures RoundsOf(phantom, b, turns + [t]) ==
            RoundsOf(phantom, b, turns) + [RoundOf(phantom, BuilderAfter(phantom, b, turns), t)]
    ensures BuilderAfter(phantom, b, turns + [t]) ==
            PushEach(phantom, BuilderAfter(phantom, b, turns), PushedBy(t))
    decreases |turns|
  {
    hide RoundOf, PushedBy, PushEach;
    if turns == [] {
      assert turns + [t] == [t] && [t][1..] == [];
      var after := PushEach(phantom, b, PushedBy(t));
      assert RoundsOf(phantom, after, []) == [] && BuilderAfter(phantom, after, []) == after;
    } else {
      assert (turns + [t])[1..] == turns[1..] + [t];
      TurnsOneMore(phantom, PushEach(phantom, b, PushedBy(turns[0])), turns[1..], t);
    }
  }

  /** The captions of each round are what the builder, given the phrases of all turns before, decides on the turn's own. */
  lemma {:induction false} RoundsAre(phantom: string -> bool, b: CueTimeline.Builder, turns: seq<Turn>, k: nat)
    requires k < |turns|
    ensures var t, rounds := turns[k], RoundsOf(phantom, b, turns);
            var pushed := Hypotheses(t.kept, t.startUs);
            && |rounds| == |turns|
            && rounds[k] == Round(|t.samples|, Emissions(phantom, BuilderAfter(phantom, b, turns[..k]), pushed), t.drained,
                                  t.reports)
            && BuilderAfter(phantom, b, turns[..k + 1]) == PushEach(phantom, BuilderAfter(phantom, b, turns[..k]), pushed)
    decreases |turns|
  {
    hide PushEach, Emissions, Hypotheses;
    var n := |turns| - 1;
    var front := turns[..n];
    assert turns == front + [turns[n]];
    TurnsOneMore(phantom, b, front, turns[n]);
    if k < n {
      RoundsAre(phantom, b, front, k);
      assert front[..k] == turns[..k] && front[..k + 1] == turns[..k + 1];
    } else {
      RoundsLength(phantom, b, front);
      assert turns[..k] == front && turns[..k + 1] == turns;
    }
  }

  lemma {:induction false} RoundsLength(phantom: string -> bool, b: CueTimeline.Builder, turns: seq<Turn>)
    ensures |RoundsOf(phantom, b, turns)| == |turns|
    decreases |turns|
  {
    hide RoundOf, PushEach;
    if turns != [] {
      RoundsLength(phantom, PushEach(phantom, b, PushedBy(turns[0])), turns[1..]);
    }
  }

  // ------------------------------------------------- what a turn is, in figures

  function Taken(turns: seq<Turn>): nat
    decreases |turns|
  {
    if turns == [] then 0 else turns[0].drained + Taken(turns[1..])
  }

  lemma DrainTwice(b: Buffer, m: nat, n: nat)
    ensures AudioTimeline.Drain(AudioTimeline.Drain(b, m), n) == AudioTimeline.Drain(b, m + n)
  {
    if m < |b.samples| && n < |b.samples| - m {
      assert b.samples[m..][n..] == b.samples[m + n..];
    }
  }

  /** The samples from `at` on, at most `max` of them. */
  function Slice(b: Buffer, at: nat, max: nat): seq<int>
    requires at <= |b.samples|
  {
    b.samples[at..at + if |b.samples| - at < max then |b.samples| - at else max]
  }

  lemma SliceLater(b: Buffer, m: nat, at: nat, max: nat)
    requires m < |b.samples| && m + at <= |b.samples|
    ensures var later := AudioTimeline.Drain(b, m);
            at <= |later.samples| && Slice(later, at, max) == Slice(b, m + at, max)
    ensures Derived(AudioTimeline.Drain(b, m), at) == Derived(b, m + at)
  {
    assert b.samples[m..][at..at + |Slice(b, m + at, max)|] == b.samples[m + at..m + at + |Slice(b, m + at, max)|];
  }

  function EarlyEnding(phrases: seq<Phrase>, limitUs: int): set<nat>
  {
    set k: nat | k < |phrases| && phrases[k].t1Us <= limitUs
  }

  ghost predicate PhrasesAt(kept: seq<Phrase>, phrases: seq<Phrase>, idx: seq<nat>)
  {
    |kept| == |idx| && forall i :: 0 <= i < |idx| ==> idx[i] < |phrases| && kept[i] == phrases[idx[i]]
  }

  /** The phrases that end no later than the limit, each once and in order. */
  ghost predicate EndBy(kept: seq<Phrase>, phrases: seq<Phrase>, limitUs: int)
  {
    exists idx :: Lists(idx, EarlyEnding(phrases, limitUs)) && PhrasesAt(kept, phrases, idx)
  }

  /** Of what was heard in a window: nothing of silence, all of a full window, of a shorter one what ends 0.5 s before it. */
  ghost predicate KeptOfWindow(kept: seq<Phrase>, heard: LiveHeard, samples: nat)
  {
    match heard
    case Quiet => kept == []
    case Spoke(phrases) =>
      && phrases.Some?
      && if samples < 128_000 then EndBy(kept, phrases.value, samples * 1_000_000 / 16_000 - 500_000)
         else kept == phrases.value
  }

  /**
    The turn for the live window that begins `at` samples in: of at most 128_000 samples, in progressive sessions also of
    fewer, which nothing is drained of; a full window moves on by one second, and by two without progressive reading.
   */
  ghost predicate LiveTurnIs(b: Buffer, at: nat, progressive: bool, asked: nat, step: nat, live: LiveListener, t: Turn,
                             last: bool)
  {
    && at < |b.samples|
    && var left := |b.samples| - at;
       && asked <= left
       && t.samples == Slice(b, at, 128_000)
       && t.startUs == b.startUs + (125 * at + b.frac) / 2
       && KeptOfWindow(t.kept, live(step, t.samples), |t.samples|)
       && t.reports
       && (left < 128_000 ==> progressive && last && t.drained == 0)
       && (left >= 128_000 ==> t.drained == if progressive then 16_000 else 32_000)
  }

  // of a session's live audio a window of fewer than 128_000 samples is asked for only when it is read progressively
  ghost predicate Asks(progressive: bool, next: nat)
  {
    0 < next <= 128_000 && (progressive || next == 128_000)
  }

  /** Every turn of the live loop, whatever is heard in the others. */
  lemma {:induction false} LiveTurnsAre(b: Buffer, progressive: bool, next: nat, step: nat, live: LiveListener, k: nat)
    requires b.frac <= 1 && Asks(progressive, next) && k < |LiveTurns(b, progressive, next, step, live).turns|
    ensures var turns := LiveTurns(b, progressive, next, step, live).turns;
            LiveTurnIs(b, Taken(turns[..k]), progressive, if k == 0 then next else 128_000, step + k, live, turns[k],
                       k == |turns| - 1)
    decreases k
  {
    hide LiveTurns, LiveTurn, KeptOfWindow, LiveTurnIs, AudioTimeline.Drain;
    var r := LiveTurns(b, progressive, next, step, live);
    if k == 0 {
      assert r.turns[..0] == [];
      FirstTurn(b, progressive, next, step, live);
    } else {
      LiveGoesOn(b, progressive, next, step, live);
      var hop, later := LiveAfterOne(b, progressive, next, step, live);
      LiveTurnsAre(AudioTimeline.Drain(b, hop), progressive, 128_000, step + 1, live, k - 1);
      assert r.turns[..k] == [r.turns[0]] + later.turns[..k - 1];
      assert ([r.turns[0]] + later.turns[..k - 1])[1..] == later.turns[..k - 1];
      LaterTurn(b, hop, Taken(later.turns[..k - 1]), progressive, step + k, live, r.turns[k], k == |r.turns| - 1);
    }
  }

  lemma LiveAfterOne(b: Buffer, progressive: bool, next: nat, step: nat, live: LiveListener)
    returns (hop: nat, later: Turns)
    requires b.frac <= 1 && Asks(progressive, next)
    requires var turns := LiveTurns(b, progressive, next, step, live).turns; turns != [] && turns[0].drained > 0
    ensures hop == (if progressive then 16_000 else 32_000) && hop < |b.samples|
    ensures AudioTimeline.Drain(b, hop).frac <= 1 && |AudioTimeline.Drain(b, hop).samples| < |b.samples|
    ensures later == LiveTurns(AudioTimeline.Drain(b, hop), progressive, 128_000, step + 1, live)
    ensures var r := LiveTurns(b, progressive, next, step, live); r == later.(turns := [r.turns[0]] + later.turns)
    ensures LiveTurns(b, progressive, next, step, live).turns[0].drained == hop
  {
    hide KeptOf;
    hop := if progressive then 16_000 else 32_000;
    later := LiveTurns(AudioTimeline.Drain(b, hop), progressive, 128_000, step + 1, live);
  }

  lemma LiveGoesOn(b: Buffer, progressive: bool, next: nat, step: nat, live: LiveListener)
    requires Asks(progressive, next) && |LiveTurns(b, progressive, next, step, live).turns| > 1
    ensures LiveTurns(b, progressive, next, step, live).turns[0].drained > 0
  {
    hide KeptOf, AudioTimeline.Drain, LiveTurn;
  }

  lemma FirstTurn(b: Buffer, progressive: bool, next: nat, step: nat, live: LiveListener)
    requires b.frac <= 1 && Asks(progressive, next) && LiveTurns(b, progressive, next, step, live).turns != []
    ensures var turns := LiveTurns(b, progressive, next, step, live).turns;
            LiveTurnIs(b, 0, progressive, next, step, live, turns[0], |turns| == 1)
  {
    hide KeptOf, KeptOfWindow, AudioTimeline.Drain;
    var w := LiveWindow(b);
    assert Slice(b, 0, 128_000) == w;
    var growing := progressive && |w| < 128_000;
    KeptIs(live(step, w), growing, |w|);
  }

  lemma KeptIs(heard: LiveHeard, growing: bool, read: nat)
    requires heard.Quiet? || heard.phrases.Some?
    requires growing == (read < 128_000)
    ensures KeptOfWindow(KeptOf(heard, growing, read), heard, read)
  {
    hide EndBy, Settled;
    if heard.Spoke? && growing {
      SettledEndsBy(heard.phrases.value, read * 1_000_000 / 16_000 - 500_000);
    }
  }

  lemma {:induction false} SettledEndsBy(phrases: seq<Phrase>, limitUs: int)
    ensures EndBy(Settled(phrases, limitUs), phrases, limitUs)
    decreases |phrases|
  {
    hide Lists, EarlyEnding;
    if phrases == [] {
      NoneEnds(phrases, limitUs);
      assert PhrasesAt([], phrases, []);
    } else {
      var n := |phrases| - 1;
      SettledEndsBy(phrases[..n], limitUs);
      var idx :| Lists(idx, EarlyEnding(phrases[..n], limitUs)) &&
                 PhrasesAt(Settled(phrases[..n], limitUs), phrases[..n], idx);
      EarlyOneMore(phrases, idx, limitUs);
      assert PhrasesAt(Settled(phrases, limitUs), phrases, if phrases[n].t1Us <= limitUs then idx + [n] else idx);
    }
  }

  lemma NoneEnds(phrases: seq<Phrase>, limitUs: int)
    requires phrases == []
    ensures Lists([], EarlyEnding(phrases, limitUs))
  {
  }

  lemma EarlyOneMore(phrases: seq<Phrase>, idx: seq<nat>, limitUs: int)
    requires phrases != [] && Lists(idx, EarlyEnding(phrases[..|phrases| - 1], limitUs))
    ensures var n := |phrases| - 1;
            Lists(if phrases[n].t1Us <= limitUs then idx + [n] else idx, EarlyEnding(phrases, limitUs))
  {
    var n := |phrases| - 1;
    var before := EarlyEnding(phrases[..n], limitUs);
    ListOneMore(idx, before, n);
    assert EarlyEnding(phrases, limitUs) == if phrases[n].t1Us <= limitUs then before + {n} else before;
  }

  lemma LaterTurn(b: Buffer, hop: nat, at: nat, progressive: bool, step: nat, live: LiveListener, t: Turn, last: bool)
    requires hop < |b.samples|
    requires LiveTurnIs(AudioTimeline.Drain(b, hop), at, progressive, 128_000, step, live, t, last)
    ensures LiveTurnIs(b, hop + at, progressive, 128_000, step, live, t, last)
  {
    hide KeptOfWindow;
    SliceLater(b, hop, at, 128_000);
  }

  /**
    The loop ends with the audio that was not drained: with less than the next window asks for, or at the window in which
    the recogniser fails. After a window that was not full yet the next one is a second longer, up to the full length.
   */
  lemma {:induction false} LiveEnds(b: Buffer, progressive: bool, next: nat, step: nat, live: LiveListener)
    requires b.frac <= 1 && Asks(progressive, next)
    ensures var r := LiveTurns(b, progressive, next, step, live);
            && r.rest == AudioTimeline.Drain(b, Taken(r.turns))
            && (if r.ok then |r.rest.samples| < r.next
                else |r.rest.samples| >= r.next && live(step + |r.turns|, Slice(r.rest, 0, 128_000)) == Spoke(None))
            && (if r.turns == [] then r.next == next
                else
                  var read := |r.turns[|r.turns| - 1].samples|;
                  r.next == if read + 16_000 < 128_000 then read + 16_000 else 128_000)
    decreases |b.samples|
  {
    hide LiveTurns, LiveTurn, AudioTimeline.Drain, NextAsked;
    var r := LiveTurns(b, progressive, next, step, live);
    if r.turns == [] {
      DrainNone(b);
      LiveAtOnce(b, progressive, next, step, live);
    } else if r.turns[0].drained == 0 {
      DrainNone(b);
      LiveAtOnce(b, progressive, next, step, live);
      assert r.turns[1..] == [];
    } else {
      var hop, later := LiveAfterOne(b, progressive, next, step, live);
      LiveEnds(AudioTimeline.Drain(b, hop), progressive, 128_000, step + 1, live);
      assert r.turns[1..] == later.turns;
      DrainTwice(b, hop, Taken(later.turns));
      FullWindow(b, progressive, next, step, live);
    }
  }

  lemma LiveAtOnce(b: Buffer, progressive: bool, next: nat, step: nat, live: LiveListener)
    requires Asks(progressive, next)
    requires var turns := LiveTurns(b, progressive, next, step, live).turns; turns == [] || turns[0].drained == 0
    ensures var r := LiveTurns(b, progressive, next, step, live);
            && r.rest == b && |r.turns| <= 1 && (r.turns != [] ==> r.ok)
            && (if r.ok then |b.samples| < r.next else |b.samples| >= next && live(step, LiveWindow(b)) == Spoke(None))
            && (if r.turns == [] then r.next == next
                else
                  var read := |r.turns[0].samples|;
                  r.next == if read + 16_000 < 128_000 then read + 16_000 else 128_000)
  {
    hide KeptOf, AudioTimeline.Drain;
  }

  lemma FullWindow(b: Buffer, progressive: bool, next: nat, step: nat, live: LiveListener)
    requires Asks(progressive, next)
    requires var turns := LiveTurns(b, progressive, next, step, live).turns; turns != [] && turns[0].drained > 0
    ensures |LiveTurns(b, progressive, next, step, live).turns[0].samples| == 128_000
  {
    hide KeptOf, AudioTimeline.Drain;
  }

  lemma DrainNone(b: Buffer)
    ensures AudioTimeline.Drain(b, 0) == b && Slice(b, 0, 128_000) == LiveWindow(b)
  {
  }

  lemma DrainShortens(b: Buffer, n: nat)
    requires n > 0 && b.samples != [] && b.frac <= 1
    ensures |AudioTimeline.Drain(b, n).samples| < |b.samples| && AudioTimeline.Drain(b, n).frac <= 1
  {
  }

  /**
    The turn for the decoded audio that begins `at` samples in: the detector is asked about at most 384_000 samples, and
    what it answers decides whether silence is dropped or speech is recognised, and of how many samples.
   */
  ghost predicate AheadTurnIs(b: Buffer, at: nat, step: nat, listen: Listener, t: Turn)
  {
    && at < |b.samples| && |b.samples| - at >= 96_000
    && var w, startUs := Slice(b, at, 384_000), b.startUs + (125 * at + b.frac) / 2;
       var heard := listen(step, w);
       match FindBoundary(|w|, heard.hearing, false)
       case Wait => false
       case Silence(n) => n > 0 && t == Turn([], startUs, [], n, false)
       case Cut(n) => n > 0 && heard.phrases.Some? && t == Turn(Slice(b, at, n), startUs, heard.phrases.value, n, true)
  }

  /** Every turn of the look-ahead's loop. */
  lemma {:induction false} AheadTurnsAre(b: Buffer, step: nat, listen: Listener, k: nat)
    requires b.frac <= 1 && k < |AheadTurns(b, step, listen).turns|
    ensures var turns := AheadTurns(b, step, listen).turns;
            AheadTurnIs(b, Taken(turns[..k]), step + k, listen, turns[k])
    decreases k
  {
    hide AheadTurnIs, AudioTimeline.Drain, AheadTurns;
    var r := AheadTurns(b, step, listen);
    var later := AheadAfterOne(b, step, listen);
    if k == 0 {
      assert r.turns[..0] == [];
    } else {
      var n := r.turns[0].drained;
      AheadTurnsAre(AudioTimeline.Drain(b, n), step + 1, listen, k - 1);
      assert r.turns[..k] == [r.turns[0]] + later.turns[..k - 1];
      assert ([r.turns[0]] + later.turns[..k - 1])[1..] == later.turns[..k - 1];
      LaterChunk(b, n, Taken(later.turns[..k - 1]), step + k, listen, r.turns[k]);
    }
  }

  lemma AheadAfterOne(b: Buffer, step: nat, listen: Listener) returns (later: Turns)
    requires b.frac <= 1 && AheadTurns(b, step, listen).turns != []
    ensures var r := AheadTurns(b, step, listen);
            && later == AheadTurns(AudioTimeline.Drain(b, r.turns[0].drained), step + 1, listen)
            && r == later.(turns := [r.turns[0]] + later.turns)
            && AheadTurnIs(b, 0, step, listen, r.turns[0])
            && AudioTimeline.Drain(b, r.turns[0].drained).frac <= 1
            && |AudioTimeline.Drain(b, r.turns[0].drained).samples| < |b.samples|
  {
    hide FindBoundary;
    var w := Window(b);
    assert Slice(b, 0, 384_000) == w;
    var heard := listen(step, w);
    match FindBoundary(|w|, heard.hearing, false)
    case Wait =>
    case Silence(n) => later := AheadTurns(AudioTimeline.Drain(b, n), step + 1, listen);
    case Cut(n) =>
      assert Slice(b, 0, n) == Oldest(b, n);
      later := AheadTurns(AudioTimeline.Drain(b, n), step + 1, listen);
  }

  lemma LaterChunk(b: Buffer, n: nat, at: nat, step: nat, listen: Listener, t: Turn)
    requires AheadTurnIs(AudioTimeline.Drain(b, n), at, step, listen, t)
    ensures AheadTurnIs(b, n + at, step, listen, t)
  {
    hide FindBoundary;
    SliceLater(b, n, at, 384_000);
    SliceLater(b, n, at, |t.samples|);
    SliceLater(b, n, at, t.drained);
  }

  /** The loop ends with too little audio, at a window that has to grow, or where the recogniser fails on speech. */
  lemma {:induction false} AheadEnds(b: Buffer, step: nat, listen: Listener)
    requires b.frac <= 1
    ensures var r := AheadTurns(b, step, listen);
            var w := Slice(r.rest, 0, 384_000);
            var heard := listen(step + |r.turns|, w);
            var boundary := FindBoundary(|w|, heard.hearing, false);
            && r.rest == AudioTimeline.Drain(b, Taken(r.turns))
            && (if r.ok then |r.rest.samples| < 96_000 || boundary.Wait? || boundary.samples == 0
                else |r.rest.samples| >= 96_000 && boundary.Cut? && boundary.samples > 0 && heard.phrases.None?)
    decreases |b.samples|
  {
    hide FindBoundary, AudioTimeline.Drain, AheadTurns;
    var r := AheadTurns(b, step, listen);
    if r.turns == [] {
      DrainNone(b);
      AheadAtOnce(b, step, listen);
    } else {
      var later := AheadAfterOne(b, step, listen);
      var n := r.turns[0].drained;
      AheadEnds(AudioTimeline.Drain(b, n), step + 1, listen);
      assert r.turns[1..] == later.turns;
      DrainTwice(b, n, Taken(later.turns));
    }
  }

  lemma AheadAtOnce(b: Buffer, step: nat, listen: Listener)
    requires AheadTurns(b, step, listen).turns == []
    ensures var r := AheadTurns(b, step, listen);
            var w := Slice(b, 0, 384_000);
            var heard := listen(step, w);
            var boundary := FindBoundary(|w|, heard.hearing, false);
            && r.rest == b
            && (if r.ok then |b.samples| < 96_000 || boundary.Wait? || boundary.samples == 0
                else |b.samples| >= 96_000 && boundary.Cut? && boundary.samples > 0 && heard.phrases.None?)
  {
    hide FindBoundary;
    assert Slice(b, 0, 384_000) == Window(b);
  }
}
