/** The worker's session loop as an object. */
module WorkerLoops {
  // It has the variables its handlers update, and the audio ring, the segment builder and the translator it owns.
  // `State` is the session the object stands for in worker_session.dfy, whose theorems are about all choices of the
  // environment. Every handler returns the choice with which it made its step of that model, and a turn of the loop is
  // a run of the whole system of session_epochs.dfy, whose worker the object is. What the recogniser, the voice
  // detector, the decoder, the clock and the pool do comes in as an argument.

  import opened AudioBuffers
  import AudioTimeline
  import opened Captions
  import opened ChunkCutter
  import opened CueProvenance
  import CueTimeline
  import opened InferenceRuns
  import opened Pipelines
  import opened PipelineRuns
  import opened Playbacks
  import opened PluginFrames
  import Rings
  import opened SegmentBuilders
  import SessionEpochs
  import opened TailFlush
  import opened TranslateAsyncs
  import opened WorkerSession
  import opened WorkerSteps

  const MAX_CHUNK_SAMPLES: nat := 480_000
  const MAX_PTS_US: int := 315_360_000_000_000

  function SeenIn(frame: Option<PluginFrame>): Option<ToWorker>
  {
    if frame.Some? then Some(Seen(frame.value)) else None
  }

  /** What the decoder of the session's own file has to offer. */
  datatype SourceRead = ReadOk(pcm: seq<int>, ptsUs: int) | ReadEof | ReadError | ReadNothing

  /** The answers of the surroundings during one turn of the loop. */
  datatype Surroundings = Surroundings(
    languageOk: bool,
    opens: bool,
    resumes: bool,
    seeks: bool,
    live: LiveListener,
    listen: Listener,
    read: SourceRead,
    turns: seq<seq<ThreadStep>>)

  method KeepSettled(phrases: seq<Phrase>, limitUs: int) returns (kept: seq<Phrase>)
    ensures kept == Settled(phrases, limitUs)
  {
    kept := [];
    var i := 0;
    while i < |phrases|
      invariant 0 <= i <= |phrases| && kept == Settled(phrases[..i], limitUs)
    {
      assert phrases[..i + 1][..i] == phrases[..i];
      if phrases[i].t1Us <= limitUs {
        kept := kept + [phrases[i]];
      }
      i := i + 1;
    }
    assert phrases[..i] == phrases;
  }

  /** A pool thread takes a job or hands in its result; delivering is the loop's own step. */
  type ThreadStep = step: PoolStep | !step.PoolDeliver? witness PoolTake

  class WorkerLoop {
    const audioBuf: AudioBuffer
    const window: array<int>
    const builder: SegmentBuilder
    const translator: TranslateAsync
    const playback: Playback
    const engineReady: bool
    var running: bool
    var sessionId: SessionId
    var sessionActive: bool
    var paused: bool
    var liveProgressive: bool
    var liveNextInferenceSamples: nat
    var sourceOpen: bool
    var sourceMode: bool
    var translateEnabled: bool
    var sourceLang: string
    var targetLang: string
    var sent: seq<FromWorker>

    // which of the plugin's sessions the audio is from; not part of the program, and no branch reads it
    var tags: seq<int>           // of the buffered samples
    var origins: seq<set<nat>>   // of the builder's pending cues
    var remembered: set<nat>     // of the phrases the builder remembers
    var sourceTag: nat           // of the file being decoded

    /** The builder and the translator are in order, and every pending cue has its origin. */
    ghost predicate Ready()
      reads this`origins, builder, builder.segmentQueue, builder.history, translator, translator.jobs, translator.results
      ensures Ready() ==> builder.Valid()
    {
      builder.Valid() && |origins| == builder.count && translator.Valid()
    }

    /** The object is in order, but for the tags of `extra` samples that have left the buffer. */
    ghost predicate Sound(extra: nat)
      reads this`tags, this`origins, this`liveNextInferenceSamples, audioBuf
      reads builder, builder.segmentQueue, builder.history, translator, translator.jobs, translator.results
      ensures Sound(extra) ==> Ready() && audioBuf.Valid() && builder.Valid()
    {
      && Ready()
      && audioBuf.Valid() && audioBuf.samples.Length == BUFFER_SAMPLES && |tags| == audioBuf.count + extra
      && window.Length == MAX_CHUNK_SAMPLES && window != audioBuf.samples
      && 0 < liveNextInferenceSamples <= WINDOW_SAMPLES
    }

    ghost predicate Valid()
      reads this`tags, this`origins, this`liveNextInferenceSamples, audioBuf
      reads builder, builder.segmentQueue, builder.history, translator, translator.jobs, translator.results
      ensures Valid() ==> Ready() && audioBuf.Valid() && builder.Valid()
    {
      Sound(0)
    }

    ghost function State(): Worker
      requires Ready()
      reads this`running, this`sessionId, this`sessionActive, this`paused, this`sourceMode, this`sourceOpen
      reads this`translateEnabled, this`sourceLang, this`targetLang, this`tags, this`origins, this`remembered
      reads this`sourceTag
      reads builder, builder.segmentQueue, builder.history, translator, translator.jobs, translator.results
    {
      Worker(running, sessionId, sessionActive, paused, sourceMode, if sourceOpen then Some(sourceTag) else None, tags,
             Stamped(builder.State().pending, origins), remembered, builder.State().nextId,
             translateEnabled, sourceLang, targetLang, translator.State())
    }

    /** What the inference works on, of which the session model sees only the tags and the captions. */
    ghost function Holds(): Held
      requires audioBuf.Valid() && builder.Valid()
      reads this`liveProgressive, this`liveNextInferenceSamples
      reads audioBuf, audioBuf.samples, builder, builder.segmentQueue, builder.history
    {
      Held(audioBuf.Value(), builder.State(), liveProgressive, liveNextInferenceSamples)
    }

    /** The object has made the step, and its replies have been sent. */
    ghost predicate Did(before: seq<FromWorker>, step: (Worker, seq<FromWorker>))
      requires Ready()
      reads this, builder, builder.segmentQueue, builder.history, translator, translator.jobs, translator.results
    {
      State() == step.0 && sent == before + step.1
    }

    /** The object is the worker of this system, and has sent what the system's worker has. */
    ghost predicate Hosts(s: SessionEpochs.System)
      requires Ready()
      reads this, builder, builder.segmentQueue, builder.history, translator, translator.jobs, translator.results
    {
      s.worker == State() && s.sent == SessionEpochs.CaptionsIn(sent) && s.workerSequence == |sent| + 1
    }

    /** The builder's queue is the old one or has been moved to a new array. */
    twostate predicate Kept()
      reads this, builder
    {
      builder.segmentQueue == old(builder.segmentQueue) || fresh(builder.segmentQueue)
    }

    constructor (engineReady: bool, phantom: string -> bool)
      ensures Valid() && State() == Idle && sent == [] && this.engineReady == engineReady
      ensures Holds() == Held(AudioTimeline.Fresh, CueTimeline.Empty, false, 128_000) && builder.phantom == phantom
      ensures fresh(audioBuf) && fresh(audioBuf.samples) && fresh(window)
      ensures fresh(builder) && fresh(builder.segmentQueue) && fresh(builder.history)
      ensures fresh(translator) && fresh(translator.jobs) && fresh(translator.results)
      ensures fresh(playback)
    {
      this.engineReady := engineReady;
      audioBuf := new AudioBuffer(BUFFER_SAMPLES);
      window := new int[MAX_CHUNK_SAMPLES];
      builder := new SegmentBuilder(phantom);
      translator := new TranslateAsync();
      playback := new Playback();
      running, sessionId, sessionActive, paused := true, 0, false, false;
      liveProgressive, liveNextInferenceSamples := false, WINDOW_SAMPLES;
      sourceOpen, sourceMode := false, false;
      translateEnabled, sourceLang, targetLang, sent := false, "auto", "en", [];
      tags, origins, remembered, sourceTag := [], [], {}, 0;
      new;
      StampedNone();
    }

    method Send(reply: FromWorker)
      modifies this`sent
      ensures sent == old(sent) + [reply]
    {
      sent := sent + [reply];
    }

    // ------------------------------------------- what the surroundings come to

    ghost predicate Listens(s: SessionId)
      reads this
    {
      sessionActive && !paused && !sourceMode && sessionId == s
    }

    /** The session's own file is open, and this frame is of that session. */
    ghost predicate Follows(s: SessionId)
      reads this
    {
      sessionActive && sessionId == s && sourceMode && sourceOpen
    }

    ghost predicate AudioChoice(s: SessionId, pcm: seq<int>, startUs: int, live: LiveListener, c: Choice)
      requires Valid()
      reads this, audioBuf, audioBuf.samples, builder, builder.segmentQueue, builder.history
      reads translator, translator.jobs, translator.results
    {
      if !Listens(s) then c == NoChoice
      else if !(0 <= startUs <= 315_360_000_000_000) then c == NoChoice.(invalidPts := true)
      else if pcm == [] then c == NoChoice
      else
        var h := Holds();
        HeardInLive(builder.phantom, h.(audio := AudioTimeline.Append(h.audio, pcm, startUs, 960_000)), live,
                    c.inferenceOk, c.rounds) &&
        c == NoChoice.(discontinuity := !AudioTimeline.Continues(h.audio, startUs), rounds := c.rounds,
                       inferenceOk := c.inferenceOk)
    }

    ghost predicate PositionChoice(s: SessionId, ptsUs: int, pausedFlag: bool, seekFlag: bool, env: Surroundings, c: Choice)
      reads this, playback
    {
      if !(sessionActive && sessionId == s) then c == NoChoice
      else
        var resumed := Follows(s) && paused && !pausedFlag && ptsUs >= 0 && env.resumes;
        c == NoChoice.(resumes := ptsUs >= 0 && env.resumes, seeks := env.seeks,
                       mustSeek := Follows(s) && if resumed then seekFlag else playback.MustSeek(ptsUs, seekFlag))
    }

    /** The choice of the tail that a session leaves, where there is one, and of the wait for its accepted cues. */
    ghost predicate EndChoice(audioWanted: bool, translationWanted: bool, env: Surroundings, c: Choice)
      requires Valid()
      reads this, audioBuf, audioBuf.samples, builder, builder.segmentQueue, builder.history
      reads translator, translator.jobs, translator.results
    {
      && (if audioWanted && !sourceMode && State().audio != []
          then TailOf(c, builder.phantom, builder.State(), audioBuf.Value(), env.listen)
          else c == NoChoice.(drain := c.drain))
      && DrainOf(FinishAudio(State(), audioWanted, c).0, translationWanted, env.turns, c.drain)
    }

    /** What the surroundings come to for a frame: with it the session model makes the object's step, and no other. */
    ghost predicate Chooses(f: PluginFrame, env: Surroundings, c: Choice)
      requires Valid()
      reads this, audioBuf, audioBuf.samples, builder, builder.segmentQueue, builder.history
      reads translator, translator.jobs, translator.results, playback
    {
      match f
      case Start(_, _, formatOk, _, originUs, _) => c == if formatOk then StartChoice(originUs, env) else NoChoice
      case Stop(s, reason) =>
        if sessionId != s then c == NoChoice else EndChoice(reason == REASON_MEDIA_END, reason != REASON_SEEK, env, c)
      case Audio(s, _, pcm, startUs) => AudioChoice(s, pcm, startUs, env.live, c)
      case Resume(_) => c == NoChoice.(seeks := playback.currentPtsUs >= 0 && env.seeks)
      case Position(s, ptsUs, pausedFlag, seekFlag) => PositionChoice(s, ptsUs, pausedFlag, seekFlag, env, c)
      case Shutdown => EndChoice(sessionActive, true, env, c)
      case _ => c == NoChoice
    }

    // -------------------------------------------------- one component at a time

    method DropAudio()
      requires Valid()
      modifies this`tags, audioBuf
      ensures Valid() && State() == old(State()).(audio := [])
      ensures Holds() == old(Holds()).(audio := AudioTimeline.Buffer([], -1, 0, old(Holds()).audio.dropped))
    {
      hide AudioBuffer.Value, AudioBuffer.Valid, SegmentBuilder.State, SegmentBuilder.Valid, TranslateAsync.State;
      hide TranslateAsync.Valid, TranslateAsync.Shaped, Stamped;
      audioBuf.ClearAll();
      tags := [];
    }

    method ForgetPhrases()
      requires Valid()
      modifies this`origins, this`remembered, builder
      ensures Valid() && builder.segmentQueue == old(builder.segmentQueue)
      ensures State() == old(State()).(pending := [], remembered := {})
      ensures Holds() == old(Holds()).(cues := CueTimeline.Builder(old(Holds()).cues.nextId, [], [], -1))
    {
      hide AudioBuffer.Value, AudioBuffer.Valid, SegmentBuilder.State, SegmentBuilder.Valid, TranslateAsync.State;
      hide TranslateAsync.Valid, TranslateAsync.Shaped, Stamped;
      builder.ClearAll();
      origins, remembered := [], {};
      StampedNone();
    }

    method InvalidateTranslation()
      requires Valid()
      modifies translator
      ensures Valid() && State() == old(State()).(translator := Invalidate(old(State()).translator))
    {
      hide AudioBuffer.Value, AudioBuffer.Valid, SegmentBuilder.State, SegmentBuilder.Valid, TranslateAsync.State;
      hide TranslateAsync.Valid, TranslateAsync.Shaped, Stamped;
      translator.InvalidateEpoch();
    }

    method TakeOldest() returns (cue: Option<CueTimeline.Cue>)
      requires audioBuf.Valid() && builder.Valid()
      modifies builder`count, builder`tail, builder.segmentQueue
      ensures builder.Valid() && builder.segmentQueue == old(builder.segmentQueue)
      ensures builder.State() == CueTimeline.Pop(old(builder.State()))
      ensures cue == if old(builder.State()).pending == [] then None else Some(old(builder.State()).pending[0])
      ensures Holds() == old(Holds()).(cues := CueTimeline.Pop(old(Holds()).cues))
      ensures cue.None? <==> old(Holds()).cues.pending == []
    {
      hide AudioBuffer.Value, AudioBuffer.Valid, SegmentBuilder.State, SegmentBuilder.Valid;
      cue := builder.PopOldestCue();
    }

    /** The oldest pending cue, with its origin. */
    method PopCue() returns (cue: Option<CueTimeline.Cue>, origin: set<nat>)
      requires Valid()
      modifies this`origins, builder`count, builder`tail, builder.segmentQueue
      ensures Valid()
      ensures var w := old(State());
              if w.pending == [] then cue == None && State() == w
              else cue.Some? && w.pending[0] == Stamp(cue.value, origin) && State() == w.(pending := w.pending[1..])
      ensures Holds() == old(Holds()).(cues := CueTimeline.Pop(old(Holds()).cues))
      ensures cue.None? <==> old(Holds()).cues.pending == []
    {
      hide AudioBuffer.Value, AudioBuffer.Valid, SegmentBuilder.State, SegmentBuilder.Valid, TranslateAsync.State;
      hide TranslateAsync.Valid, TranslateAsync.Shaped, Stamped, Holds;
      ghost var b, before := builder.State(), origins;
      cue := TakeOldest();
      origin := {};
      if cue.Some? {
        StampedRest(b.pending, before);
        origin, origins := origins[0], origins[1..];
      }
    }

    /** A block of audio of the session with this tag; one that does not continue the buffered audio replaces it. */
    method AppendAudio(pcm: seq<int>, ptsUs: int, tag: nat) returns (discontinuity: bool)
      requires Valid()
      modifies this`tags, audioBuf, audioBuf.samples
      ensures Valid() && discontinuity == (pcm != [] && !AudioTimeline.Continues(old(Holds()).audio, ptsUs))
      ensures Holds() == old(Holds()).(audio := AudioTimeline.Append(old(Holds()).audio, pcm, ptsUs, 960_000))
      ensures State() ==
              old(State()).(audio := Append(if discontinuity then [] else old(State()).audio, tag, |pcm|))
    {
      hide AudioBuffer.Value, AudioBuffer.Valid, SegmentBuilder.State, SegmentBuilder.Valid, TranslateAsync.State;
      hide TranslateAsync.Valid, TranslateAsync.Shaped, Stamped, AudioTimeline.Append;
      ghost var b := audioBuf.Value();
      AudioTimeline.AppendKeepsNewest(b, pcm, ptsUs, BUFFER_SAMPLES);
      var ok;
      ok, discontinuity := audioBuf.AppendS16le(pcm, ptsUs);
      tags := Append(if discontinuity then [] else tags, tag, |pcm|);
    }

    method DrainAudio(n: nat)
      requires Valid()
      modifies this`tags, audioBuf
      ensures Valid() && State() == Drained(old(State()), n)
      ensures Holds() == old(Holds()).(audio := AudioTimeline.Drain(old(Holds()).audio, n))
    {
      hide AudioBuffer.Value, AudioBuffer.Valid, SegmentBuilder.State, SegmentBuilder.Valid, TranslateAsync.State;
      hide TranslateAsync.Valid, TranslateAsync.Shaped, Stamped;
      ghost var w := State();
      audioBuf.DrainSamples(n);
      tags := if n < |tags| then tags[n..] else [];
    }

    lemma CountIsBuffered()
      requires Valid()
      ensures audioBuf.count == |State().audio| == |Holds().audio.samples|
      ensures 0 < liveNextInferenceSamples <= WINDOW_SAMPLES && Holds().audio.frac <= 1
      ensures liveNextInferenceSamples == Holds().next && liveProgressive == Holds().progressive
    {
    }

    /** The session variables of the model are the object's own. */
    lemma FieldsAre()
      requires Ready()
      ensures var w := State();
              && w.running == running && w.session == sessionId && w.active == sessionActive && w.paused == paused
              && w.sourceMode == sourceMode && w.decoder.Some? == sourceOpen && w.translating == translateEnabled
              && w.sourceLang == sourceLang && w.targetLang == targetLang && w.audio == tags
    {
    }

    lemma ProgressiveIs()
      requires audioBuf.Valid() && builder.Valid()
      ensures Holds().progressive == liveProgressive && Holds().next == liveNextInferenceSamples
    {
    }

    method SetNextInference(samples: nat)
      requires Valid() && 0 < samples <= WINDOW_SAMPLES
      modifies this`liveNextInferenceSamples
      ensures Valid() && State() == old(State()) && liveNextInferenceSamples == samples
      ensures Holds() == old(Holds()).(next := samples)
    {
      hide Ready, State;
      liveNextInferenceSamples := samples;
    }

    /** The oldest samples, copied into the window. */
    method ReadWindow(requested: nat) returns (read: nat, ptsUs: int)
      requires Valid() && requested <= MAX_CHUNK_SAMPLES
      modifies window
      ensures Valid() && State() == old(State()) && Holds() == old(Holds())
      ensures read == if |State().audio| < requested then |State().audio| else requested
      ensures read <= window.Length && read <= |Holds().audio.samples| && window[..read] == Holds().audio.samples[..read]
      ensures read > 0 ==> ptsUs == Holds().audio.startUs
    {
      hide AudioBuffer.Value, AudioBuffer.Valid, SegmentBuilder.State, SegmentBuilder.Valid, TranslateAsync.State;
      hide TranslateAsync.Valid, TranslateAsync.Shaped, Stamped;
      read, ptsUs := audioBuf.GetSamples(window, requested);
    }

    /** The phrases heard in some audio go to the builder, which may queue them as captions. */
    method HearPhrases(phrases: seq<Phrase>, windowPtsUs: int, origin: set<nat>)
      returns (ghost captions: seq<CueTimeline.Emission>)
      requires Valid()
      modifies this`origins, this`remembered, builder, builder.segmentQueue, builder.history
      ensures Valid() && Kept()
      ensures captions == Emissions(builder.phantom, old(Holds()).cues, Hypotheses(phrases, windowPtsUs))
      ensures State() == Queue(old(State()), captions, origin)
      ensures Holds() == old(Holds()).(cues := PushEach(builder.phantom, old(Holds()).cues,
                                                        Hypotheses(phrases, windowPtsUs)))
    {
      hide AudioBuffer.Value, AudioBuffer.Valid, SegmentBuilder.State, SegmentBuilder.Valid, TranslateAsync.State;
      hide TranslateAsync.Valid, TranslateAsync.Shaped, Stamped, PushEach, Emissions, Queue, OriginsAfter, RememberedAfter;
      ghost var w, b := State(), builder.State();
      var before := builder.count;
      var pushed := PushPhrases(phrases, windowPtsUs);
      PushToBuilder(builder, pushed);
      captions := RememberCaptions(w, b, origin, pushed, before);
    }

    /** After a push the new cues get their origin. */
    method RememberCaptions(ghost w: Worker, ghost b: CueTimeline.Builder, origin: set<nat>, ghost pushed: seq<Hypothesis>,
                            before: nat)
      returns (ghost captions: seq<CueTimeline.Emission>)
      requires builder.Valid() && translator.Valid() && |b.pending| == |origins| == before
      requires builder.State() == PushEach(builder.phantom, b, pushed)
      requires WithBuilder(w, b, origins, remembered) == w
      requires forall pending, known, id :: w.(pending := pending, remembered := known, nextSegmentId := id) ==
                 Worker(running, sessionId, sessionActive, paused, sourceMode,
                        if sourceOpen then Some(sourceTag) else None, tags, pending, known, id,
                        translateEnabled, sourceLang, targetLang, translator.State())
      modifies this`origins, this`remembered
      ensures captions == Emissions(builder.phantom, b, pushed)
      ensures |origins| == builder.count
      ensures Ready() && State() == Queue(w, captions, origin)
    {
      hide SegmentBuilder.State, SegmentBuilder.Valid, TranslateAsync.State;
      hide TranslateAsync.Valid, TranslateAsync.Shaped, Stamped, PushEach, Emissions, Queue, OriginsAfter, RememberedAfter;
      captions := Emissions(builder.phantom, b, pushed);
      PushingIsQueueing(builder.phantom, w, b, origins, remembered, origin, pushed);
      var count := builder.count - before;
      origins, remembered := OriginsAfter(origins, origin + remembered, count),
                             RememberedAfter(remembered, origin, count);
    }

    // ------------------------------------------------------------ buffers

    /** The audio window and everything the builder knows are dropped. */
    method ClearWindow()
      requires Valid()
      modifies this`tags, this`origins, this`remembered, this`liveNextInferenceSamples, audioBuf, builder
      ensures Valid() && builder.segmentQueue == old(builder.segmentQueue)
      ensures State() == ClearBuffers(old(State()))
      ensures Holds() == Emptied(old(Holds()))
    {
      hide Ready, State, Holds;
      ProgressiveIs();
      DropAudio();
      ProgressiveIs();
      SetNextInference(if liveProgressive then LIVE_STARTUP_SAMPLES else WINDOW_SAMPLES);
      ForgetPhrases();
    }

    /** The audio window, the builder and the translator are dropped. */
    method ClearSession()
      requires Valid()
      modifies this`tags, this`origins, this`remembered, this`liveNextInferenceSamples, audioBuf, builder, translator
      ensures Valid() && builder.segmentQueue == old(builder.segmentQueue)
      ensures State() == ClearAll(old(State()))
      ensures Holds() == Emptied(old(Holds()))
    {
      hide Ready, State, Valid, Holds;
      ClearWindow();
      InvalidateTranslation();
    }

    // ---------------------------------------------------------- live audio

    /** One window of live audio: what is settled of the phrases heard goes to the builder. */
    method RecogniseLive(read: nat, windowPtsUs: int, growing: bool, heard: LiveHeard)
      returns (ok: bool, ghost captions: seq<CueTimeline.Emission>)
      requires Valid() && read <= |State().audio|
      modifies this`origins, this`remembered, builder, builder.segmentQueue, builder.history
      ensures Valid() && Kept() && ok == !FailsOn(heard)
      ensures ok ==>
                var pushed := Hypotheses(KeptOf(heard, growing, read), windowPtsUs);
                && captions == Emissions(builder.phantom, old(Holds()).cues, pushed)
                && Holds() == old(Holds()).(cues := PushEach(builder.phantom, old(Holds()).cues, pushed))
                && State() == Queue(old(State()), captions, Tags(old(State()).audio[..read]))
      ensures !ok ==> State() == old(State()) && Holds() == old(Holds())
    {
      hide Ready, State, Holds, Valid, Queue, Settled, PushEach, Emissions, Hypotheses, Tags;
      captions := [];
      FieldsAre();
      QueueNothing(State(), Tags(State().audio[..read]));
      QuietSaysNothing(builder.phantom, Holds().cues, windowPtsUs);
      match heard
      case Quiet => return true, [];
      case Spoke(phrases) =>
        if phrases.None? {
          return false, [];
        }
        var kept := phrases.value;
        if growing {
          kept := KeepSettled(kept, read * 1_000_000 / SAMPLE_RATE - LIVE_EDGE_HOLDBACK_US);
        }
        captions := HearPhrases(kept, windowPtsUs, Tags(tags[..read]));
        return true, captions;
    }

    /**
      The windows of the buffered live audio, each with what `live` answers for exactly its samples: their phrases go to
      the builder one window after another, and afterwards less is buffered than the next window asks for.
     */
    method InferLive(live: LiveListener) returns (ok: bool, ghost rounds: seq<Round>)
      requires Valid()
      modifies this`tags, this`origins, this`remembered, this`liveNextInferenceSamples, this`sent
      modifies window, audioBuf, builder, builder.segmentQueue, builder.history
      ensures Valid() && Kept()
      ensures Did(old(sent), (Infer(old(State()), rounds), Reports(sessionId, rounds)))
      ensures HeardLive(builder.phantom, old(Holds()), live, ok, rounds, Holds())
      ensures ok ==> |State().audio| < liveNextInferenceSamples
    {
      hide Ready, State, Holds, Infer, InferRound, Reports, LiveTurns, LiveWindow, LiveTurn, RoundOf, BuilderAfter;
      hide RoundsOf, PushEach, AudioTimeline.Drain, NextAsked;
      rounds := [];
      ghost var h, turns := Holds(), [];
      FieldsAre();
      InferNothing(State());
      NoMore(sent);
      CountIsBuffered();
      AfterNone(LiveTurns(h.audio, h.progressive, h.next, 0, live));
      NoTurnsYet(builder.phantom, h.cues);
      var step, moved := 0, true;
      while moved && audioBuf.count >= liveNextInferenceSamples
        invariant Valid() && Kept()
        invariant Did(old(sent), (Infer(old(State()), rounds), Reports(sessionId, rounds)))
        invariant audioBuf.count == |State().audio| == |Holds().audio.samples| && 0 < Holds().next <= WINDOW_SAMPLES
        invariant Holds().next == liveNextInferenceSamples && Holds().progressive == h.progressive
        invariant rounds == RoundsOf(builder.phantom, h.cues, turns)
        invariant Holds().cues == BuilderAfter(builder.phantom, h.cues, turns)
        invariant LiveTurns(h.audio, h.progressive, h.next, 0, live) ==
                  if moved then AfterAll(turns, LiveTurns(Holds().audio, h.progressive, Holds().next, step, live))
                  else Turns(true, Holds().audio, Holds().next, turns)
        invariant !moved ==> audioBuf.count < liveNextInferenceSamples
        decreases moved, audioBuf.count
      {
        ghost var r, now := Round(0, [], 0, false), Holds();
        var more;
        LiveGoesBy(now.audio, h.progressive, now.next, step, live);
        more, moved, r := InferLiveWindow(live, step);
        CountIsBuffered();
        if !more {
          assert turns + [] == turns;
          return false, rounds;
        }
        ghost var t := LiveTurn(now.audio, h.progressive, live(step, LiveWindow(now.audio)));
        BeforeAfter(turns, t, LiveTurns(Holds().audio, h.progressive, Holds().next, step + 1, live));
        DrainNone(now.audio);
        TurnsOneMore(builder.phantom, h.cues, turns, t);
        InferOneMore(old(State()), rounds, r);
        ReportsOneMore(sessionId, rounds, r);
        SentInOrder(old(sent), Reports(sessionId, rounds), [StatusReply(sessionId)]);
        rounds, turns := rounds + [r], turns + [t];
        step := step + 1;
      }
      if moved {
        LiveEnough(Holds().audio, h.progressive, Holds().next, step, live);
        assert turns + [] == turns;
      }
      return true, rounds;
    }

    /** A window of the live audio is read and recognised. */
    method HearWindow(live: LiveListener, step: nat)
      returns (ok: bool, read: nat, ghost captions: seq<CueTimeline.Emission>)
      requires Valid() && audioBuf.count >= liveNextInferenceSamples
      modifies this`origins, this`remembered, window, builder, builder.segmentQueue, builder.history
      ensures Valid() && Kept() && read == |LiveWindow(old(Holds()).audio)| <= |old(State()).audio|
      ensures ok == !FailsOn(live(step, LiveWindow(old(Holds()).audio)))
      ensures ok ==>
                var h := old(Holds());
                var pushed := PushedBy(LiveTurn(h.audio, h.progressive, live(step, LiveWindow(h.audio))));
                && captions == Emissions(builder.phantom, h.cues, pushed)
                && Holds() == h.(cues := PushEach(builder.phantom, h.cues, pushed))
                && State() == Queue(old(State()), captions, Tags(old(State()).audio[..read]))
      ensures !ok ==> State() == old(State()) && Holds() == old(Holds())
    {
      hide Ready, State, Holds, Valid, Queue, Tags, KeptOf;
      CountIsBuffered();
      var buffered := audioBuf.count;
      var requested := if buffered < WINDOW_SAMPLES then buffered else WINDOW_SAMPLES;
      var windowPtsUs;
      read, windowPtsUs := ReadWindow(requested);
      assert window[..read] == LiveWindow(Holds().audio);
      var growing := liveProgressive && read < WINDOW_SAMPLES;
      ok, captions := RecogniseLive(read, windowPtsUs, growing, live(step, window[..read]));
    }

    /**
      One window: while the session's audio is still growing towards a full window it is read again and nothing is
      drained; a full one moves on by a hop.
     */
    method InferLiveWindow(live: LiveListener, step: nat) returns (ok: bool, moved: bool, ghost r: Round)
      requires Valid() && audioBuf.count >= liveNextInferenceSamples
      modifies this`tags, this`origins, this`remembered, this`liveNextInferenceSamples, this`sent
      modifies window, audioBuf, builder, builder.segmentQueue, builder.history
      ensures Valid() && Kept()
      ensures ok == !FailsOn(live(step, LiveWindow(old(Holds()).audio)))
      ensures ok ==>
                var h := old(Holds());
                var t := LiveTurn(h.audio, h.progressive, live(step, LiveWindow(h.audio)));
                && r == RoundOf(builder.phantom, h.cues, t) && moved == (t.drained > 0)
                && Holds() == AfterTurn(builder.phantom, h, t).(next := NextAsked(h.progressive, |t.samples|))
      ensures ok ==> Did(old(sent), (InferRound(old(State()), r), [StatusReply(sessionId)])) && r.reports
      ensures !ok ==> State() == old(State()) && sent == old(sent) && Holds() == old(Holds())
      ensures ok && !moved ==> |State().audio| < liveNextInferenceSamples
      ensures ok && moved ==> audioBuf.count < old(audioBuf.count)
    {
      hide Ready, State, Holds, Valid, Queue, InferRound, Tags, PushEach, Emissions, KeptOf;
      moved, r := false, Round(0, [], 0, false);
      CountIsBuffered();
      ghost var w := State();
      var read;
      ghost var captions;
      ok, read, captions := HearWindow(live, step);
      if !ok {
        return;
      }
      QueueKeepsSession(w, captions, Tags(w.audio[..read]));
      CountIsBuffered();
      ghost var drained;
      moved, drained := MoveOn(read);
      r := Round(read, captions, drained, true);
      RoundByHand(w, r);
      Send(StatusReply(sessionId));
    }

    /** After a window: a growing one stays and the next is a hop longer, a full one moves on by a hop. */
    method MoveOn(read: nat) returns (moved: bool, ghost drained: nat)
      requires Valid() && read <= |State().audio|
      modifies this`tags, this`liveNextInferenceSamples, audioBuf
      ensures Valid() && moved == !(liveProgressive && read < WINDOW_SAMPLES)
      ensures drained == if !moved then 0 else if liveProgressive then 16_000 else 32_000
      ensures if moved then State() == Drained(old(State()), drained) else State() == old(State())
      ensures Holds() == old(Holds()).(audio := AudioTimeline.Drain(old(Holds()).audio, drained),
                                       next := if moved || read + 16_000 >= 128_000 then 128_000 else read + 16_000)
      ensures !moved && read == |old(State()).audio| ==> |State().audio| < liveNextInferenceSamples
      ensures moved && old(audioBuf.count) > 0 ==> audioBuf.count < old(audioBuf.count)
    {
      hide Ready, State, Holds, Valid, AudioTimeline.Drain;
      if liveProgressive && read < WINDOW_SAMPLES {
        var nextTarget := read + LIVE_HOP_SAMPLES;
        SetNextInference(if nextTarget < WINDOW_SAMPLES then nextTarget else WINDOW_SAMPLES);
        DrainNone(Holds().audio);
        return false, 0;
      }
      SetNextInference(WINDOW_SAMPLES);
      drained := if liveProgressive then LIVE_HOP_SAMPLES else LOCAL_HOP_SAMPLES;
      HopOn(if liveProgressive then LIVE_HOP_SAMPLES else LOCAL_HOP_SAMPLES);
      return true, drained;
    }

    method HopOn(n: nat)
      requires Valid() && n > 0
      modifies this`tags, audioBuf
      ensures Valid() && State() == Drained(old(State()), n)
      ensures Holds() == old(Holds()).(audio := AudioTimeline.Drain(old(Holds()).audio, n))
      ensures old(audioBuf.count) > 0 ==> audioBuf.count < old(audioBuf.count)
    {
      hide Ready, State, Holds, Valid, AudioTimeline.Drain;
      CountIsBuffered();
      DrainAudio(n);
      CountIsBuffered();
    }

    // --------------------------------------------------- captions and translation

    method SubmitCue(segment: CaptionSegment) returns (accepted: bool)
      requires Valid()
      modifies translator, translator.jobs, translator.results
      ensures Valid() && accepted == Accepts(old(State()).translator, segment)
      ensures State() == old(State()).(translator := Submit(old(State()).translator, segment, sourceLang, targetLang))
    {
      hide AudioBuffer.Value, AudioBuffer.Valid, SegmentBuilder.State, SegmentBuilder.Valid, TranslateAsync.State;
      hide StateInv, TranslateAsync.Shaped, Stamped, Submit, Accepts;
      accepted := translator.Submit(segment, sourceLang, targetLang);
    }

    /** The oldest pending caption is stamped with the session's id and goes to the translator, or out if it takes none. */
    method EmitCaption() returns (emitted: bool)
      requires Valid()
      modifies this`origins, this`sent, builder`count, builder`tail, builder.segmentQueue
      modifies translator, translator.jobs, translator.results
      ensures Valid() && emitted == (old(State()).pending != [])
      ensures Did(old(sent), EmitOne(old(State())))
      ensures |State().pending| == if emitted then |old(State()).pending| - 1 else 0
      ensures Holds() == old(Holds()).(cues := CueTimeline.Pop(old(Holds()).cues))
    {
      hide Ready, State, Holds, Valid, Submit, Accepts;
      FieldsAre();
      var cue, origin := PopCue();
      NoMore(sent);
      if cue.None? {
        return false;
      }
      FieldsAre();
      var c := cue.value;
      var segment := CaptionSegment(sessionId, c.id, c.startUs, c.endUs, c.text, None, false, 0, TIER_NONE, origin);
      assert segment == SegmentOf(old(State()), old(State()).pending[0]);
      if !translateEnabled {
        Send(CaptionReply(segment));
        return true;
      }
      RefusedChangesNothing(State().translator, segment, sourceLang, targetLang);
      var accepted := SubmitCue(segment);
      if !accepted {
        Send(CaptionReply(segment.(attempted := true)));
      }
      return true;
    }

    method EmitTail()
      requires Valid()
      modifies this`origins, this`sent, builder`count, builder`tail, builder.segmentQueue
      modifies translator, translator.jobs, translator.results
      ensures Valid() && Did(old(sent), EmitAll(old(State())))
    {
      hide Ready, State, Valid, EmitOne, EmitAll;
      ghost var all := EmitAll(State());
      var more := true;
      while more
        invariant Valid()
        invariant Then(sent, EmitAll(State())) == Then(old(sent), all)
        invariant !more ==> State().pending == []
        decreases more, |State().pending|
      {
        ghost var before, w := sent, State();
        EmitAllStep(w);
        more := EmitCaption();
        if more {
          SentInOrder(before, EmitOne(w).1, EmitAll(State()).1);
        } else {
          EmitNothing(w);
          NoMore(before);
        }
      }
      EmitAllStep(State());
      NoMore(sent);
    }

    method TakeResult() returns (r: Option<Result>)
      requires Valid()
      modifies translator, translator.results
      ensures Valid() && (State(), r) == (old(State()).(translator := Deliver(old(State()).translator).0),
                                          Deliver(old(State()).translator).1)
      ensures r.Some? ==> |State().translator.results| < |old(State()).translator.results|
      ensures r.None? ==> State() == old(State())
    {
      hide AudioBuffer.Value, AudioBuffer.Valid, SegmentBuilder.State, SegmentBuilder.Valid, TranslateAsync.State;
      hide StateInv, TranslateAsync.Shaped, Stamped;
      DeliverInv(translator.State());
      r := translator.TryDeliver();
    }

    /** One delivery attempt: the result must belong to the active session. */
    method DeliverTranslation() returns (delivered: bool)
      requires Valid()
      modifies this`sent, translator, translator.results
      ensures Valid() && Did(old(sent), DeliverOne(old(State())))
      ensures delivered ==> |State().translator.results| < |old(State()).translator.results|
      ensures !delivered ==> Deliver(State().translator).1.None?
    {
      hide Ready, State, Valid, Deliver;
      FieldsAre();
      NoMore(sent);
      var r := TakeResult();
      if r.Some? && sessionActive && r.value.segment.session == sessionId {
        Send(CaptionReply(r.value.segment));
      }
      return r.Some?;
    }

    /** A pool thread's critical section. */
    method ThreadActs(step: ThreadStep)
      requires Valid()
      modifies translator, translator.results
      ensures Valid() && State() == PoolDo(old(State()), step).0 && PoolDo(old(State()), step).1 == []
    {
      hide AudioBuffer.Value, AudioBuffer.Valid, SegmentBuilder.State, SegmentBuilder.Valid;
      hide StateInv, Stamped, Rings.Contents, Rings.Slot;
      match step
      case PoolTake =>
        if translator.jobCount > 0 && translator.inflightCount < ACTIVE_BUDGET {
          var _ := translator.TakeJob();
        }
      case PoolComplete(job, outcome) =>
        if job in translator.inflight {
          translator.CompleteJob(job, outcome);
        }
    }

    method TranslationPending() returns (pending: bool)
      requires Valid()
      ensures pending == HasPending(State().translator)
    {
      hide AudioBuffer.Value, AudioBuffer.Valid, SegmentBuilder.State, SegmentBuilder.Valid, TranslateAsync.State;
      hide StateInv, TranslateAsync.Shaped, Stamped;
      pending := translator.IsPending();
    }

    method ThreadsAct(turn: seq<ThreadStep>, ghost before: seq<FromWorker>, ghost w: Worker, ghost steps: seq<PoolStep>)
      requires Valid() && Did(before, Drain(w, steps))
      modifies translator, translator.results
      ensures Valid() && Did(before, Drain(w, steps + turn))
    {
      hide Ready, State, Valid, PoolDo, Drain;
      var i := 0;
      assert steps + turn[..0] == steps;
      while i < |turn|
        invariant 0 <= i <= |turn| && Valid() && Did(before, Drain(w, steps + turn[..i]))
      {
        ThreadActs(turn[i]);
        DrainOneMore(w, steps + turn[..i], turn[i]);
        NoMore(Drain(w, steps + turn[..i]).1);
        assert steps + turn[..i] + [turn[i]] == steps + turn[..i + 1];
        i := i + 1;
      }
      assert turn[..i] == turn;
    }

    /**
      Waits for the accepted cues: `turns` is what the pool's threads do between one look and the next, as far as it goes.
      The wait is over when nothing is pending any more.
     */
    method DrainTranslation(turns: seq<seq<ThreadStep>>) returns (finished: bool, ghost steps: seq<PoolStep>)
      requires Valid()
      modifies this`sent, translator, translator.results
      ensures Valid() && Did(old(sent), Drain(old(State()), steps))
      ensures finished == !HasPending(State().translator) && Waited(old(State()), turns, steps)
    {
      hide Ready, State, Valid, PoolDo, Drain, HasPending, Looks, FirstIdle, PendingUntil;
      steps := [];
      DrainNothing(State());
      NoMore(sent);
      LookedOnce([], []);
      assert turns[..0] == [];
      PendingNever(State(), turns);
      var pending := TranslationPending();
      var i := 0;
      while pending && i < |turns|
        invariant 0 <= i <= |turns| && Valid() && Did(old(sent), Drain(old(State()), steps))
        invariant steps == Looks(turns[..i])
        invariant PendingUntil(old(State()), turns, i)
        invariant pending == HasPending(State().translator)
        decreases |turns| - i
      {
        ThreadsAct(turns[i], old(sent), old(State()), steps);
        ghost var w, looked := State(), steps + turns[i];
        DeliverIsPoolStep(w);
        var _ := DeliverTranslation();
        DrainOneMore(old(State()), looked, PoolDeliver);
        SentInOrder(old(sent), Drain(old(State()), looked).1, PoolDo(w, PoolDeliver).1);
        PendingOnce(old(State()), turns, i);
        LookedOnce(turns[..i], turns[i]);
        assert turns[..i] + [turns[i]] == turns[..i + 1];
        steps := looked + [PoolDeliver];
        pending := TranslationPending();
        i := i + 1;
      }
      finished := !pending;
      IdleFirst(old(State()), turns, i);
    }

    // ----------------------------------------------- decoded and remaining audio

    /** The chunks of the decoded audio, cut in pauses; afterwards less than a full chunk is buffered. */
    method InferAhead(listen: Listener) returns (ok: bool, ghost rounds: seq<Round>)
      requires Valid()
      modifies this`tags, this`origins, this`remembered, this`sent
      modifies window, audioBuf, builder, builder.segmentQueue, builder.history
      ensures Valid() && Kept()
      ensures Did(old(sent), (Infer(old(State()), rounds), Reports(sessionId, rounds)))
      ensures HeardAhead(builder.phantom, old(Holds()), listen, ok, rounds, Holds())
      ensures ok ==> |State().audio| < MAX_SAMPLES
    {
      hide Ready, State, Holds, Valid, Infer, InferRound, Reports, FindBoundary, AheadTurns, AheadStep, RoundOf;
      hide BuilderAfter, RoundsOf, PushEach, AudioTimeline.Drain;
      rounds := [];
      ghost var h, turns := Holds(), [];
      AfterNone(AheadTurns(h.audio, 0, listen));
      NoTurnsYet(builder.phantom, h.cues);
      FieldsAre();
      InferNothing(State());
      NoMore(sent);
      CountIsBuffered();
      var step, moved := 0, true;
      while moved && audioBuf.count >= MIN_SAMPLES
        invariant Valid() && Kept()
        invariant Did(old(sent), (Infer(old(State()), rounds), Reports(sessionId, rounds)))
        invariant audioBuf.count == |State().audio| == |Holds().audio.samples|
        invariant Holds() == h.(audio := Holds().audio, cues := BuilderAfter(builder.phantom, h.cues, turns))
        invariant rounds == RoundsOf(builder.phantom, h.cues, turns)
        invariant AheadTurns(h.audio, 0, listen) ==
                  if moved then AfterAll(turns, AheadTurns(Holds().audio, step, listen))
                  else Turns(true, Holds().audio, 0, turns)
        invariant !moved ==> audioBuf.count < MAX_SAMPLES
        decreases moved, audioBuf.count
      {
        ghost var r, now := Round(0, [], 0, false), Holds();
        var more;
        AheadGoesBy(now.audio, step, listen);
        more, moved, r := InferChunk(listen, step);
        if !more {
          assert turns + [] == turns;
          return false, rounds;
        }
        assert turns + [] == turns;
        if moved {
          ghost var t := AheadStep(now.audio, step, listen).turn;
          BeforeAfter(turns, t, AheadTurns(Holds().audio, step + 1, listen));
          TurnsOneMore(builder.phantom, h.cues, turns, t);
          turns := turns + [t];
          InferOneMore(old(State()), rounds, r);
          ReportsOneMore(sessionId, rounds, r);
          SentInOrder(old(sent), Reports(sessionId, rounds), if r.reports then [StatusReply(sessionId)] else []);
          rounds := rounds + [r];
        }
        CountIsBuffered();
        step := step + 1;
      }
      if moved {
        AheadTooShort(Holds().audio, step, listen);
        assert turns + [] == turns;
      }
      return true, rounds;
    }

    /** One chunk: silence is dropped, speech up to the cut is recognised and dropped, or more audio is waited for. */
    method InferChunk(listen: Listener, step: nat) returns (ok: bool, moved: bool, ghost r: Round)
      requires Valid() && audioBuf.count >= MIN_SAMPLES
      modifies this`tags, this`origins, this`remembered, this`sent
      modifies window, audioBuf, builder, builder.segmentQueue, builder.history
      ensures Valid() && Kept()
      ensures ok && moved ==>
                Did(old(sent), (InferRound(old(State()), r), if r.reports then [StatusReply(sessionId)] else []))
      ensures !(ok && moved) ==> State() == old(State()) && sent == old(sent) && Holds() == old(Holds())
      ensures var a := AheadStep(old(Holds()).audio, step, listen);
              match a
              case Waits => ok && !moved
              case FailsHere => !ok
              case Takes(t) =>
                && ok && moved
                && r == RoundOf(builder.phantom, old(Holds()).cues, t)
                && Holds() == AfterTurn(builder.phantom, old(Holds()), t)
      ensures ok && !moved ==> |State().audio| < MAX_SAMPLES
      ensures ok && moved ==> audioBuf.count < old(audioBuf.count)
    {
      hide Ready, State, Holds, Valid, Queue, FindBoundary, InferRound, PushEach, Emissions, Hypotheses;
      moved, r := false, Round(0, [], 0, false);
      CountIsBuffered();
      FieldsAre();
      ghost var w := State();
      ghost var b := Holds().audio;
      var available, boundaryPtsUs := ReadWindow(MAX_SAMPLES);
      assert window[..available] == Window(b);
      var heard := listen(step, window[..available]);
      var found, cutSamples, silenceDrain := FindChunkBoundary(available, heard.hearing, false);
      if available >= MAX_SAMPLES {
        AlwaysTakes(available, heard.hearing, false);
      }
      if !found || (silenceDrain == 0 && cutSamples == 0) {
        return true, false, r;
      }
      if silenceDrain > 0 {
        SilenceSaysNothing(builder.phantom, Holds(), AheadStep(b, step, listen).turn);
        r := DropSilence(silenceDrain);
        NoMore(sent);
        return true, true, r;
      }
      if heard.phrases.None? {
        return false, false, r;
      }
      CutFits(available, heard.hearing);
      r := TakeChunk(cutSamples, heard.phrases.value, boundaryPtsUs);
      Send(StatusReply(sessionId));
      return true, true, r;
    }

    method DropSilence(n: nat) returns (ghost r: Round)
      requires Valid() && n > 0
      modifies this`tags, audioBuf
      ensures Valid() && State() == InferRound(old(State()), r) && r == Round(0, [], n, false)
      ensures Holds() == old(Holds()).(audio := AudioTimeline.Drain(old(Holds()).audio, n))
      ensures old(audioBuf.count) > 0 ==> audioBuf.count < old(audioBuf.count)
    {
      hide Ready, State, Holds, Valid, Queue, InferRound;
      CountIsBuffered();
      ghost var w := State();
      DrainAudio(n);
      CountIsBuffered();
      r := Round(0, [], n, false);
      QueueNothing(w, Tags(w.audio[..0]));
      RoundByHand(w, r);
    }

    /** The phrases of the chunk go to the builder, and the chunk leaves the buffer. */
    method TakeChunk(n: nat, phrases: seq<Phrase>, ptsUs: int) returns (ghost r: Round)
      requires Valid() && 0 < n <= |State().audio|
      modifies this`tags, this`origins, this`remembered, audioBuf, builder, builder.segmentQueue, builder.history
      ensures Valid() && Kept() && State() == InferRound(old(State()), r)
      ensures var h, pushed := old(Holds()), Hypotheses(phrases, ptsUs);
              && r == Round(n, Emissions(builder.phantom, h.cues, pushed), n, true)
              && Holds() == h.(audio := AudioTimeline.Drain(h.audio, n), cues := PushEach(builder.phantom, h.cues, pushed))
      ensures audioBuf.count < old(audioBuf.count)
    {
      hide Ready, State, Holds, Valid, Queue, InferRound;
      CountIsBuffered();
      FieldsAre();
      ghost var w := State();
      ghost var captions := HearPhrases(phrases, ptsUs, Tags(tags[..n]));
      QueueKeepsSession(w, captions, Tags(w.audio[..n]));
      DrainAudio(n);
      CountIsBuffered();
      r := Round(n, captions, n, true);
      RoundByHand(w, r);
    }

    /** Everything that is left goes through the flush of tail_flush.dfy; the tags of what was taken are still there. */
    method FlushIntoBuilder(listen: Listener) returns (ok: bool, taken: nat, ghost captions: seq<CueTimeline.Emission>)
      requires Valid()
      modifies this`origins, this`remembered, window, audioBuf, builder, builder.segmentQueue, builder.history
      ensures Sound(taken) && Kept() && taken <= |State().audio|
      ensures (ok, audioBuf.Value()) == FlushResult(old(audioBuf.Value()), listen)
      ensures captions == Emissions(builder.phantom, old(builder.State()), Flush(old(audioBuf.Value()), 0, listen).pushed)
      ensures builder.State() == PushEach(builder.phantom, old(builder.State()),
                                          Flush(old(audioBuf.Value()), 0, listen).pushed)
      ensures State() == Queue(old(State()), captions, Tags(State().audio[..taken]))
    {
      hide AudioBuffer.Value, AudioBuffer.Valid, SegmentBuilder.State, SegmentBuilder.Valid, TranslateAsync.State;
      hide TranslateAsync.Valid, TranslateAsync.Shaped, Stamped, PushEach, Emissions, Queue, OriginsAfter, RememberedAfter;
      hide Flush;
      ghost var w, b := State(), builder.State();
      var before, buffered := builder.count, audioBuf.count;
      FlushShrinks(audioBuf.Value(), listen);
      ghost var pushed, chunks;
      ok, pushed, chunks := FlushAudioTail(audioBuf, window, builder, listen);
      taken := buffered - audioBuf.count;
      captions := RememberCaptions(w, b, Tags(tags[..taken]), pushed, before);
    }

    method ForgetTags(n: nat)
      requires Sound(n)
      modifies this`tags
      ensures Valid() && n <= |old(State()).audio| && State() == old(State()).(audio := old(State()).audio[n..])
    {
      hide AudioBuffer.Value, AudioBuffer.Valid, SegmentBuilder.State, SegmentBuilder.Valid, TranslateAsync.State;
      hide TranslateAsync.Valid, TranslateAsync.Shaped, Stamped, Ready;
      tags := tags[n..];
    }

    /** The tags of the audio taken go with it. */
    method FlushWithTags(listen: Listener) returns (ok: bool, ghost taken: nat, ghost captions: seq<CueTimeline.Emission>)
      requires Valid()
      modifies this`tags, this`origins, this`remembered
      modifies window, audioBuf, builder, builder.segmentQueue, builder.history
      ensures Valid() && Kept() && taken <= |old(State()).audio|
      ensures (ok, audioBuf.Value()) == FlushResult(old(audioBuf.Value()), listen)
      ensures captions == Emissions(builder.phantom, old(builder.State()), Flush(old(audioBuf.Value()), 0, listen).pushed)
      ensures builder.State() == PushEach(builder.phantom, old(builder.State()),
                                          Flush(old(audioBuf.Value()), 0, listen).pushed)
      ensures var audio := old(State()).audio;
              State() == Queue(old(State()), captions, Tags(audio[..taken])).(audio := audio[taken..])
    {
      hide Ready, State, Sound, Queue, FlushResult, Flush, Emissions, PushEach;
      ghost var w := State();
      var took;
      ok, took, captions := FlushIntoBuilder(listen);
      QueueKeepsSession(w, captions, Tags(State().audio[..took]));
      ForgetTags(took);
      taken := took;
    }

    lemma FlushShrinksHere(listen: Listener)
      requires Valid()
      ensures FlushResult(audioBuf.Value(), listen).0 ==> FlushResult(audioBuf.Value(), listen).1.samples == []
    {
      FlushShrinks(audioBuf.Value(), listen);
    }

    /**
      Everything that is left: cut, recognised and drained until the buffer is empty or the recogniser fails; the captions
      of it stem from the audio taken.
     */
    method FlushTailWindows(listen: Listener) returns (ok: bool, ghost rounds: seq<Round>)
      requires Valid()
      modifies this`tags, this`origins, this`remembered
      modifies window, audioBuf, builder, builder.segmentQueue, builder.history
      ensures Valid() && Kept()
      ensures (ok, audioBuf.Value()) == FlushResult(old(audioBuf.Value()), listen)
      ensures builder.State() == PushEach(builder.phantom, old(builder.State()),
                                          Flush(old(audioBuf.Value()), 0, listen).pushed)
      ensures State() == Infer(old(State()), rounds) && Reports(sessionId, rounds) == []
      ensures |rounds| == 1 && rounds[0].captions == Emissions(builder.phantom, old(builder.State()),
                                                               Flush(old(audioBuf.Value()), 0, listen).pushed)
      ensures rounds[0].window == rounds[0].drained == |old(audioBuf.Value()).samples| - |audioBuf.Value().samples|
      ensures !rounds[0].reports
      ensures ok ==> State().audio == [] && rounds[0].window == |old(State()).audio|
    {
      hide Ready, State, Valid, Queue, FlushResult, Flush, Emissions, PushEach, InferRound;
      ghost var w := State();
      FieldsAre();
      CountIsBuffered();
      FlushShrinksHere(listen);
      ghost var taken, captions;
      ok, taken, captions := FlushWithTags(listen);
      CountIsBuffered();
      ghost var r := Round(taken, captions, taken, false);
      RoundByHand(w, r);
      rounds := [r];
      OneRound(w, r);
    }

    // ------------------------------------------------------ session variables

    /** The recogniser failed: the worker says so and ends. */
    method FailInference()
      requires Valid()
      modifies this`running, this`sent
      ensures Valid() && Did(old(sent), (old(State()).(running := false), [ErrorReply(sessionId, E_INTERNAL, false)]))
      ensures !running
    {
      hide Ready, Valid, SegmentBuilder.State, TranslateAsync.State, SegmentBuilder.Valid, TranslateAsync.Valid;
      hide TranslateAsync.Shaped, Stamped;
      Send(ErrorReply(sessionId, E_INTERNAL, false));
      running := false;
    }

    method SetSource(open: bool, mode: bool, tag: nat)
      requires Valid()
      modifies this`sourceOpen, this`sourceMode, this`sourceTag
      ensures Valid() && State() == old(State()).(decoder := if open then Some(tag) else None, sourceMode := mode)
      ensures sourceOpen == open && sourceMode == mode && Holds() == old(Holds())
    {
      hide Ready, Valid, SegmentBuilder.State, TranslateAsync.State, SegmentBuilder.Valid, TranslateAsync.Valid;
      hide TranslateAsync.Shaped, Stamped;
      sourceOpen, sourceMode, sourceTag := open, mode, tag;
    }

    method CloseSource()
      requires Valid()
      modifies this`sourceOpen, this`sourceMode, this`sourceTag
      ensures Valid() && State() == CloseDecoder(old(State())) && Holds() == old(Holds())
    {
      hide Ready, Valid, State, Holds;
      FieldsAre();
      if sourceOpen {
        SetSource(false, false, 0);
      }
    }

    method Become(runs: bool, s: SessionId, active: bool, pauses: bool)
      requires Valid()
      modifies this`running, this`sessionId, this`sessionActive, this`paused
      ensures Valid() && State() == old(State()).(running := runs, session := s, active := active, paused := pauses)
      ensures running == runs && sessionId == s && sessionActive == active && paused == pauses
      ensures Holds() == old(Holds())
    {
      hide Ready, Valid, Sound, Holds, AudioBuffer.Valid, SegmentBuilder.State, TranslateAsync.State;
      hide SegmentBuilder.Valid, TranslateAsync.Valid;
      hide TranslateAsync.Shaped, Stamped;
      ghost var w := State();
      running, sessionId, sessionActive, paused := runs, s, active, pauses;
    }

    // -------------------------------------------------------------- handlers

    method SetProgressive(live: bool)
      requires Valid()
      modifies this`liveProgressive
      ensures Valid() && State() == old(State()) && liveProgressive == live
      ensures Holds() == old(Holds()).(progressive := live)
    {
      hide Ready, State;
      liveProgressive := live;
    }

    /** Pending captions are popped and dropped; the builder keeps its history. */
    method DropCues()
      requires Valid()
      modifies this`origins, builder`count, builder`tail, builder.segmentQueue
      ensures Valid() && State() == old(State()).(pending := [])
      ensures Holds() == old(Holds()).(cues := old(Holds()).cues.(pending := []))
    {
      hide Ready, Valid, State, Holds, Stamp;
      var more := true;
      while more
        invariant Valid() && State() == old(State()).(pending := State().pending)
        invariant Holds() == old(Holds()).(cues := old(Holds()).cues.(pending := Holds().cues.pending))
        invariant !more ==> State().pending == [] && Holds().cues.pending == []
        decreases more, |State().pending|
      {
        var cue, origin := PopCue();
        more := cue.Some?;
      }
    }

    /** The media of the running session is dropped; the builder keeps what it remembers. */
    method DropMedia()
      requires Valid()
      modifies this`tags, this`origins, this`liveProgressive, this`liveNextInferenceSamples
      modifies this`sourceOpen, this`sourceTag, this`sourceMode
      modifies audioBuf, builder`count, builder`tail, builder.segmentQueue
      ensures Valid() && State() == DropBuffers(old(State())).(decoder := None)
      ensures Holds() == MediaDropped(old(Holds()))
    {
      hide Ready, Valid, State, Holds;
      FieldsAre();
      SetSource(false, sourceMode, 0);
      DropAudio();
      SetProgressive(false);
      SetNextInference(WINDOW_SAMPLES);
      DropCues();
    }

    /** Another session's START replaces the one that is running. */
    method LeaveSession()
      requires Valid()
      modifies this`running, this`sessionId, this`sessionActive, this`paused
      modifies this`tags, this`origins, this`liveProgressive, this`liveNextInferenceSamples
      modifies this`sourceOpen, this`sourceTag, this`sourceMode
      modifies audioBuf, builder`count, builder`tail, builder.segmentQueue
      ensures Valid()
      ensures State() == if old(sessionActive) then DropBuffers(old(State())).(decoder := None, active := false)
                         else old(State())
      ensures Holds() == if old(sessionActive) then MediaDropped(old(Holds())) else old(Holds())
    {
      hide Ready, Valid, State, Holds, MediaDropped;
      FieldsAre();
      if sessionActive {
        DropMedia();
        FieldsAre();
        Become(running, sessionId, false, paused);
      }
    }

    /** The session's variables are set up and everything of the last one is dropped. */
    method BeginSession(s: SessionId, live: bool, originUs: int)
      requires Valid()
      modifies this`running, this`sessionId, this`sessionActive, this`paused
      modifies this`sourceOpen, this`sourceMode, this`sourceTag
      modifies this`liveProgressive, this`liveNextInferenceSamples, this`tags, this`origins, this`remembered
      modifies audioBuf, builder, translator, playback
      ensures Valid() && builder.segmentQueue == old(builder.segmentQueue)
      ensures State() == CloseDecoder(ClearAll(old(State())).(session := s, active := true, paused := false))
      ensures Holds() == Emptied(old(Holds()).(progressive := live))
      ensures liveProgressive == live && !playback.sourceEof && !playback.seekFailedPending
      ensures playback.currentPtsUs == playback.decodedPtsUs == originUs && playback.lastPtsUs == -1
    {
      hide Ready, Valid, State, Holds, Emptied, ClearAll, CloseDecoder;
      ClearedFirst(State(), s);
      FieldsAre();
      Become(running, s, true, false);
      SetProgressive(live);
      playback.BeginAt(originUs);
      ClearSession();
      CloseSource();
    }

    /** The session's own file, when it can be opened and, if playback does not begin at its start, sought in. */
    method OpenSource(tag: nat, url: string, originUs: int, opens: bool, seeks: bool) returns (failed: bool)
      requires Valid() && !playback.sourceEof && playback.currentPtsUs == playback.decodedPtsUs == originUs
      modifies this`sourceOpen, this`sourceMode, this`sourceTag, playback
      ensures Valid() && failed == (url != "" && !opens) && Holds() == old(Holds())
      ensures var source := url != "" && opens && (originUs <= 0 || seeks);
              && State() == old(State()).(decoder := if source then Some(tag) else None, sourceMode := source)
              && sourceMode == source
      ensures playback.lastPtsUs == if url != "" && opens then originUs else old(playback.lastPtsUs)
      ensures !playback.sourceEof && playback.seekFailedPending == old(playback.seekFailedPending)
      ensures playback.currentPtsUs == playback.decodedPtsUs == originUs
    {
      hide Ready, Valid, State, Holds;
      if |url| == 0 {
        SetSource(false, false, 0);
        return false;
      }
      if !opens {
        SetSource(false, false, 0);
        return true;
      }
      SetSource(true, true, tag);
      playback.OpenAt(originUs);
      if originUs > 0 && !seeks {
        SetSource(false, false, 0);
      }
      return false;
    }

    /** The worker takes up a session; whether the session's file could not be opened is told. */
    method TakeUp(s: SessionId, tag: nat, live: bool, originUs: int, url: string, opens: bool, seeks: bool)
      returns (failed: bool)
      requires Valid()
      modifies this`running, this`sessionId, this`sessionActive, this`paused
      modifies this`sourceOpen, this`sourceMode, this`sourceTag
      modifies this`liveProgressive, this`liveNextInferenceSamples, this`tags, this`origins, this`remembered
      modifies audioBuf, builder, translator, playback
      ensures Valid() && builder.segmentQueue == old(builder.segmentQueue) && failed == (url != "" && !opens)
      ensures var source := url != "" && opens && (originUs <= 0 || seeks);
              && State() == ClearAll(old(State())).(session := s, active := true, paused := false, sourceMode := source,
                                                    decoder := if source then Some(tag) else None)
              && sourceMode == source
      ensures Holds() == Emptied(old(Holds()).(progressive := live))
      ensures liveProgressive == live && !playback.sourceEof && !playback.seekFailedPending
      ensures playback.currentPtsUs == playback.decodedPtsUs == originUs
      ensures playback.lastPtsUs == if url != "" && opens then originUs else -1
    {
      hide Ready, Valid, State, Holds, Emptied, ClearAll, CloseDecoder;
      SourceForgets(ClearAll(State()).(session := s, active := true, paused := false));
      BeginSession(s, live, originUs);
      failed := OpenSource(tag, url, originUs, opens, seeks);
    }

    method SendStarted(s: SessionId, failed: bool)
      modifies this`sent
      ensures sent == old(sent) + ((if failed then [ErrorReply(s, E_SOURCE_OPEN, true)] else []) +
                                   [StartedReply(s, sourceMode), StatusReply(s)])
    {
      if failed {
        Send(ErrorReply(s, E_SOURCE_OPEN, true));
      }
      Send(StartedReply(s, sourceMode));
      Send(StatusReply(s));
    }

    /** With nothing running: the session is refused, or taken up and the plugin told. */
    method StartNew(s: SessionId, tag: nat, live: bool, originUs: int, url: string, env: Surroundings, ghost c: Choice)
      requires Valid() && c == StartChoice(originUs, env)
      modifies this, audioBuf, builder, translator, playback
      ensures Valid() && builder.segmentQueue == old(builder.segmentQueue)
      ensures Did(old(sent), BeginNew(old(State()), s, tag, url != "", c))
      ensures Holds() == if engineReady && env.languageOk then Emptied(old(Holds()).(progressive := live)) else old(Holds())
      ensures if engineReady && env.languageOk
              then
                && playback.currentPtsUs == playback.decodedPtsUs == originUs && !playback.sourceEof
                && playback.lastPtsUs == (if url != "" && env.opens then originUs else -1) && !playback.seekFailedPending
              else unchanged(playback)
    {
      hide Ready, Valid, State, Holds, Emptied, ClearAll, DropBuffers, CloseDecoder;
      if !engineReady {
        Send(ErrorReply(s, E_MODEL_MISSING, false));
        return;
      }
      if !env.languageOk {
        Send(ErrorReply(s, E_INTERNAL, true));
        return;
      }
      var failed := TakeUp(s, tag, live, originUs, url, env.opens, env.seeks);
      SendStarted(s, failed);
    }

    ghost function StartChoice(originUs: int, env: Surroundings): Choice
    {
      NoChoice.(engineReady := engineReady, languageOk := env.languageOk, opens := env.opens,
                seeks := originUs <= 0 || env.seeks)
    }

    method OnStart(s: SessionId, tag: nat, live: bool, originUs: int, url: string, env: Surroundings)
      returns (ghost c: Choice)
      requires Valid()
      modifies this, audioBuf, builder, builder.segmentQueue, translator, playback
      ensures Valid() && builder.segmentQueue == old(builder.segmentQueue)
      ensures Did(old(sent), HandleStart(old(State()), s, tag, url != "", c))
      ensures c == NoChoice.(engineReady := engineReady, languageOk := env.languageOk, opens := env.opens,
                             seeks := originUs <= 0 || env.seeks)
      ensures var h := old(Holds());
              Holds() == if old(sessionActive && sessionId == s) then h
                         else if engineReady && env.languageOk then Emptied(h.(progressive := live))
                         else if old(sessionActive) then MediaDropped(h)
                         else h
      ensures engineReady && env.languageOk && !old(sessionActive && sessionId == s) ==>
                && playback.currentPtsUs == playback.decodedPtsUs == originUs && !playback.sourceEof
                && playback.lastPtsUs == (if url != "" && env.opens then originUs else -1) && !playback.seekFailedPending
    {
      hide Ready, Valid, State, Holds, Emptied, MediaDropped, BeginNew, DropBuffers;
      EmptiedForgets(Holds(), live);
      c := StartChoice(originUs, env);
      FieldsAre();
      if sessionActive && sessionId == s {
        Send(ErrorReply(s, E_INTERNAL, true));
        return;
      }
      LeaveSession();
      StartNew(s, tag, live, originUs, url, env, c);
    }

    method OnAudio(s: SessionId, tag: nat, pcm: seq<int>, startUs: int, live: LiveListener) returns (ghost c: Choice)
      requires Valid()
      modifies this`tags, this`origins, this`remembered, this`liveNextInferenceSamples, this`running, this`sent
      modifies window, audioBuf, audioBuf.samples, builder, builder.segmentQueue, builder.history
      ensures Valid() && Kept()
      ensures Did(old(sent), HandleAudio(old(State()), s, tag, |pcm|, c))
      ensures var h := old(Holds());
              if !old(Listens(s)) then Holds() == h
              else if !(0 <= startUs <= 315_360_000_000_000) then Holds() == Emptied(h)
              else if pcm == [] then Holds() == h
              else HeardLive(builder.phantom, h.(audio := AudioTimeline.Append(h.audio, pcm, startUs, 960_000)), live,
                             c.inferenceOk, c.rounds, Holds())
      ensures old(AudioChoice(s, pcm, startUs, live, c))
      ensures 0 <= startUs <= MAX_PTS_US && pcm != [] && c.inferenceOk && old(Listens(s)) ==>
                |State().audio| < liveNextInferenceSamples
    {
      hide Ready, Valid, State, Holds, InferAll, Append, LiveTurns, BuilderAfter, RoundsOf, AudioTimeline.Continues;
      hide AudioTimeline.Append, Emptied;
      CountIsBuffered();
      c := NoChoice;
      FieldsAre();
      NoMore(sent);
      if !sessionActive || paused || sourceMode || sessionId != s {
        return;
      }
      if startUs < 0 || startUs > MAX_PTS_US {
        ClearWindow();
        return c.(invalidPts := true);
      }
      if |pcm| == 0 {
        return;
      }
      ghost var w := State();
      var discontinuity := AppendAudio(pcm, startUs, tag);
      ghost var rounds, ok := RunLive(live);
      c := NoChoice.(discontinuity := discontinuity, rounds := rounds, inferenceOk := ok);
      AudioByHand(w, s, tag, |pcm|, c);
    }

    /** The live windows with their reports, or the end of the worker. */
    method RunLive(live: LiveListener) returns (ghost rounds: seq<Round>, ghost inferenceOk: bool)
      requires Valid()
      modifies this`tags, this`origins, this`remembered, this`liveNextInferenceSamples, this`running, this`sent
      modifies window, audioBuf, builder, builder.segmentQueue, builder.history
      ensures Valid() && Kept()
      ensures Did(old(sent), InferAll(old(State()), NoChoice.(rounds := rounds, inferenceOk := inferenceOk)))
      ensures HeardLive(builder.phantom, old(Holds()), live, inferenceOk, rounds, Holds())
      ensures inferenceOk ==> |State().audio| < liveNextInferenceSamples
    {
      hide Ready, Valid, State, Holds, Infer, Reports, HeardLive;
      FieldsAre();
      var ok;
      ok, rounds := InferLive(live);
      inferenceOk := ok;
      if !ok {
        SentInOrder(old(sent), Reports(sessionId, rounds), [ErrorReply(sessionId, E_INTERNAL, false)]);
        FailInference();
      }
    }

    method OnPause(s: SessionId)
      requires Valid()
      modifies this`running, this`sessionId, this`sessionActive, this`paused
      modifies this`tags, this`origins, this`remembered, this`liveNextInferenceSamples, this`sent
      modifies audioBuf, builder, translator
      ensures Valid() && builder.segmentQueue == old(builder.segmentQueue)
      ensures Did(old(sent), HandlePause(old(State()), s))
      ensures Holds() == if old(sessionActive && sessionId == s) then Emptied(old(Holds())) else old(Holds())
    {
      hide Ready, Valid, State, Holds, Emptied;
      FieldsAre();
      NoMore(sent);
      if !sessionActive || sessionId != s {
        return;
      }
      Become(running, s, true, true);
      ClearSession();
      Send(StatusReply(s));
    }

    method OnResume(s: SessionId, seeks: bool) returns (ghost c: Choice)
      requires Valid()
      modifies this`running, this`sessionId, this`sessionActive, this`paused
      modifies this`tags, this`origins, this`remembered, this`liveNextInferenceSamples, this`sent
      modifies audioBuf, builder, translator, playback
      ensures Valid() && builder.segmentQueue == old(builder.segmentQueue)
      ensures Did(old(sent), HandleResume(old(State()), s, c))
      ensures c == NoChoice.(seeks := old(playback.currentPtsUs) >= 0 && seeks)
      ensures Holds() == if old(sessionActive && sessionId == s && sourceMode && sourceOpen) && c.seeks
                         then Emptied(old(Holds())) else old(Holds())
      ensures playback.currentPtsUs == old(playback.currentPtsUs)
      ensures !(old(sessionActive && sessionId == s && sourceMode && sourceOpen) && c.seeks) ==> unchanged(playback)
      ensures old(sessionActive && sessionId == s && sourceMode && sourceOpen && playback.currentPtsUs >= 0) && seeks ==>
                && playback.decodedPtsUs == playback.lastPtsUs == playback.currentPtsUs && !playback.sourceEof
                && State().audio == []
    {
      hide Ready, Valid, State, Holds, Emptied, ClearAll;
      c := NoChoice.(seeks := playback.currentPtsUs >= 0 && seeks);
      FieldsAre();
      NoMore(sent);
      if !sessionActive || sessionId != s {
        return;
      }
      Become(running, s, true, false);
      if sourceMode && sourceOpen && playback.currentPtsUs >= 0 && seeks {
        playback.ResumeAt(playback.currentPtsUs);
        NoAudioLeft(State());
        ClearSession();
      }
      Send(StatusReply(s));
    }

    /** A position report that pauses or resumes; a resumption seeks in the source when it can. */
    method TogglePaused(ptsUs: int, resumes: bool)
      requires Valid()
      modifies this`running, this`sessionId, this`sessionActive, this`paused
      modifies this`tags, this`origins, this`remembered, this`liveNextInferenceSamples, audioBuf, builder, playback
      ensures Valid() && builder.segmentQueue == old(builder.segmentQueue)
      ensures var seeks := old(sourceMode && sourceOpen) && ptsUs >= 0 && resumes;
              var dropped := if !old(paused) || seeks then ClearBuffers(old(State())) else old(State());
              && State() == dropped.(paused := !old(paused))
              && Holds() == if !old(paused) || seeks then Emptied(old(Holds())) else old(Holds())
      ensures if old(paused && sourceMode && sourceOpen) && ptsUs >= 0 && resumes
              then
                && playback.currentPtsUs == playback.decodedPtsUs == playback.lastPtsUs == ptsUs && !playback.sourceEof
                && playback.seekFailedPending == old(playback.seekFailedPending)
              else unchanged(playback)
    {
      hide Ready, Valid, State, Holds, Emptied;
      FieldsAre();
      Become(running, sessionId, sessionActive, !paused);
      if paused {
        ClearWindow();
      } else if sourceMode && sourceOpen && ptsUs >= 0 && resumes {
        playback.ResumeAt(ptsUs);
        ClearWindow();
      }
    }

    method ToggleIf(toggles: bool, ptsUs: int, ghost seekFlag: bool, resumes: bool)
      requires Valid()
      modifies this`running, this`sessionId, this`sessionActive, this`paused
      modifies this`tags, this`origins, this`remembered, this`liveNextInferenceSamples, audioBuf, builder, playback
      ensures Valid() && builder.segmentQueue == old(builder.segmentQueue)
      ensures var seeks := old(sourceMode && sourceOpen) && ptsUs >= 0 && resumes;
              var drops := toggles && (!old(paused) || seeks);
              && State() == (if drops then ClearBuffers(old(State())) else old(State())).(paused := toggles != old(paused))
              && Holds() == (if drops then Emptied(old(Holds())) else old(Holds()))
              && if toggles && old(paused) && seeks
                 then
                   && playback.currentPtsUs == playback.decodedPtsUs == playback.lastPtsUs == ptsUs && !playback.sourceEof
                   && playback.MustSeek(ptsUs, seekFlag) == seekFlag
                 else unchanged(playback)
    {
      hide Ready, Valid, State, Holds, Emptied, ClearBuffers, Playback.MustSeek;
      FieldsAre();
      if toggles {
        TogglePaused(ptsUs, resumes);
        ResumedThere(playback, ptsUs, seekFlag);
      }
    }

    /** The position of a session that decodes its own file; a seek drops everything buffered and in translation. */
    method FollowPlayback(ptsUs: int, seekFlag: bool, seeks: bool) returns (mustSeek: bool)
      requires Valid()
      modifies this`tags, this`origins, this`remembered, this`liveNextInferenceSamples
      modifies audioBuf, builder, translator, playback
      ensures Valid() && builder.segmentQueue == old(builder.segmentQueue)
      ensures mustSeek == old(playback.MustSeek(ptsUs, seekFlag)) && (seekFlag ==> mustSeek)
      ensures State() == if mustSeek && seeks then ClearAll(old(State())) else old(State())
      ensures Holds() == if mustSeek && seeks then Emptied(old(Holds())) else old(Holds())
      ensures mustSeek && seeks ==>
                && playback.decodedPtsUs == playback.currentPtsUs == playback.lastPtsUs == ptsUs
                && !playback.sourceEof && !playback.seekFailedPending
      ensures !mustSeek ==>
                && playback.currentPtsUs == playback.lastPtsUs == ptsUs
                && playback.decodedPtsUs == old(playback.decodedPtsUs) && playback.sourceEof == old(playback.sourceEof)
                && playback.seekFailedPending == old(playback.seekFailedPending)
      ensures mustSeek && !seeks ==>
                && playback.decodedPtsUs == old(playback.decodedPtsUs) && playback.sourceEof == old(playback.sourceEof)
                && playback.seekFailedPending == !seekFlag && playback.currentPtsUs == old(playback.currentPtsUs)
                && playback.lastPtsUs == if old(playback.currentPtsUs) == ptsUs then ptsUs else old(playback.lastPtsUs)
    {
      hide Ready, Valid, State, Holds, Emptied, ClearAll, Playback.MustSeek;
      mustSeek := playback.Follow(ptsUs, seekFlag, seeks);
      if mustSeek && seeks {
        ClearSession();
      }
    }

    /** What a report of the active session says of the playback. */
    method TakePosition(ptsUs: int, seekFlag: bool, seeks: bool) returns (mustSeek: bool)
      requires Valid()
      modifies this`tags, this`origins, this`remembered, this`liveNextInferenceSamples
      modifies audioBuf, builder, translator, playback
      ensures Valid() && builder.segmentQueue == old(builder.segmentQueue)
      ensures mustSeek == (old(sourceMode && sourceOpen) && old(playback.MustSeek(ptsUs, seekFlag)))
      ensures seekFlag && old(sourceMode && sourceOpen) ==> mustSeek
      ensures State() == if mustSeek && seeks then ClearAll(old(State())) else old(State())
      ensures Holds() == if mustSeek && seeks then Emptied(old(Holds())) else old(Holds())
      ensures !old(sourceMode && sourceOpen) ==>
                && playback.currentPtsUs == ptsUs && playback.lastPtsUs == old(playback.lastPtsUs)
                && playback.decodedPtsUs == old(playback.decodedPtsUs) && playback.sourceEof == old(playback.sourceEof)
                && playback.seekFailedPending == old(playback.seekFailedPending)
      ensures old(sourceMode && sourceOpen) && (!mustSeek || seeks) ==> playback.currentPtsUs == playback.lastPtsUs == ptsUs
      ensures mustSeek && !seeks ==>
                && playback.currentPtsUs == old(playback.currentPtsUs) && playback.seekFailedPending == !seekFlag
                && playback.lastPtsUs == if old(playback.currentPtsUs) == ptsUs then ptsUs else old(playback.lastPtsUs)
      ensures mustSeek && seeks ==> playback.decodedPtsUs == ptsUs && !playback.sourceEof && !playback.seekFailedPending
      ensures old(sourceMode && sourceOpen) && !(mustSeek && seeks) ==>
                playback.decodedPtsUs == old(playback.decodedPtsUs) && playback.sourceEof == old(playback.sourceEof)
    {
      hide Ready, Valid, State, Holds, Emptied, ClearAll, Playback.MustSeek;
      if !sourceMode || !sourceOpen {
        playback.ReportAt(ptsUs);
        return false;
      }
      mustSeek := FollowPlayback(ptsUs, seekFlag, seeks);
    }

    /** A report of the session that is active. */
    method PositionOf(s: SessionId, ptsUs: int, pausedFlag: bool, seekFlag: bool, env: Surroundings)
      returns (ghost c: Choice)
      requires Valid() && sessionActive && sessionId == s
      modifies this`running, this`sessionId, this`sessionActive, this`paused
      modifies this`tags, this`origins, this`remembered, this`liveNextInferenceSamples, this`sent
      modifies audioBuf, builder, translator, playback
      ensures Valid() && builder.segmentQueue == old(builder.segmentQueue)
      ensures Did(old(sent), HandlePosition(old(State()), s, pausedFlag, c))
      ensures var follows := old(sourceMode && sourceOpen);
              var resumed := follows && old(paused) && !pausedFlag && ptsUs >= 0 && env.resumes;
              && c == NoChoice.(resumes := ptsUs >= 0 && env.resumes, seeks := env.seeks,
                                mustSeek := follows && if resumed then seekFlag else old(playback.MustSeek(ptsUs, seekFlag)))
              && Holds() == (if resumed || (c.mustSeek && env.seeks) || (!old(paused) && pausedFlag)
                             then Emptied(old(Holds())) else old(Holds()))
              && (resumed || (c.mustSeek && env.seeks) ==> playback.decodedPtsUs == ptsUs && !playback.sourceEof)
              && (resumed || (follows && (!c.mustSeek || env.seeks)) ==>
                    playback.currentPtsUs == playback.lastPtsUs == ptsUs)
              && (follows && seekFlag ==> c.mustSeek)
              && (!follows ==> playback.currentPtsUs == ptsUs && playback.decodedPtsUs == old(playback.decodedPtsUs))
    {
      hide Ready, Valid, State, Holds, Emptied, ClearAll, ClearBuffers, HandlePosition, Playback.MustSeek;
      c := NoChoice.(resumes := ptsUs >= 0 && env.resumes, seeks := env.seeks);
      FieldsAre();
      NoMore(sent);
      EmptiedTwice(Holds());
      var toggles := pausedFlag != paused;
      ToggleIf(toggles, ptsUs, seekFlag, env.resumes);
      ghost var toggled := State();
      var mustSeek := TakePosition(ptsUs, seekFlag, env.seeks);
      c := c.(mustSeek := mustSeek);
      PositionInParts(old(State()), toggled, s, pausedFlag, c);
      if toggles {
        Send(StatusReply(s));
      }
    }

    method OnPosition(s: SessionId, ptsUs: int, pausedFlag: bool, seekFlag: bool, env: Surroundings)
      returns (ghost c: Choice)
      requires Valid()
      modifies this`running, this`sessionId, this`sessionActive, this`paused
      modifies this`tags, this`origins, this`remembered, this`liveNextInferenceSamples, this`sent
      modifies audioBuf, builder, translator, playback
      ensures Valid() && builder.segmentQueue == old(builder.segmentQueue)
      ensures Did(old(sent), HandlePosition(old(State()), s, pausedFlag, c))
      ensures old(PositionChoice(s, ptsUs, pausedFlag, seekFlag, env, c))
      ensures !old(sessionActive && sessionId == s) ==> Holds() == old(Holds()) && unchanged(playback)
      ensures old(sessionActive && sessionId == s) ==>
                var follows := old(sourceMode && sourceOpen);
                var resumed := follows && old(paused) && !pausedFlag && ptsUs >= 0 && env.resumes;
                && Holds() == (if resumed || (c.mustSeek && env.seeks) || (!old(paused) && pausedFlag)
                               then Emptied(old(Holds())) else old(Holds()))
                && (resumed || (c.mustSeek && env.seeks) ==> playback.decodedPtsUs == ptsUs && !playback.sourceEof)
                && (!follows ==> playback.currentPtsUs == ptsUs && playback.decodedPtsUs == old(playback.decodedPtsUs))
                && (follows && !c.mustSeek ==> playback.currentPtsUs == playback.lastPtsUs == ptsUs)
      ensures seekFlag && env.seeks && old(sessionActive && sessionId == s && sourceMode && sourceOpen) ==>
                playback.decodedPtsUs == playback.currentPtsUs == playback.lastPtsUs == ptsUs && c.mustSeek && c.seeks
    {
      hide Ready, Valid, State, Holds, Emptied, HandlePosition, Playback.MustSeek;
      PositionElsewhere(State(), s, pausedFlag);
      c := NoChoice;
      FieldsAre();
      NoMore(sent);
      if sessionActive && sessionId == s {
        c := PositionOf(s, ptsUs, pausedFlag, seekFlag, env);
      }
    }

    method OnTranslate(s: SessionId, enabled: bool, from: string, to: string)
      requires Valid()
      modifies this`translateEnabled, this`sourceLang, this`targetLang, translator
      ensures Valid() && Did(old(sent), HandleTranslate(old(State()), s, enabled, from, to))
    {
      hide Ready, Valid, State;
      FieldsAre();
      NoMore(sent);
      if sessionId != s {
        return;
      }
      SetTranslation(enabled, from, to);
      InvalidateTranslation();
    }

    method SetTranslation(enabled: bool, from: string, to: string)
      requires Valid()
      modifies this`translateEnabled, this`sourceLang, this`targetLang
      ensures Valid() && State() == old(State()).(translating := enabled, sourceLang := from, targetLang := to)
    {
      hide Ready, Valid, SegmentBuilder.State, TranslateAsync.State, SegmentBuilder.Valid, TranslateAsync.Valid;
      hide TranslateAsync.Shaped, Stamped;
      translateEnabled, sourceLang, targetLang := enabled, from, to;
    }

    // ------------------------------------------------------ ends of sessions

    /** At the end of live media or of the worker: the rest is recognised, and its captions are sent or submitted. */
    method FinishBufferedAudio(wanted: bool, listen: Listener) returns (flushed: bool, ghost c: Choice)
      requires Valid()
      modifies this`tags, this`origins, this`remembered, this`running, this`sent
      modifies window, audioBuf, builder, builder.segmentQueue, builder.history
      modifies translator, translator.jobs, translator.results
      ensures Valid() && Kept() && Did(old(sent), FinishAudio(old(State()), wanted, c))
      ensures flushed == (wanted && !old(sourceMode) && old(State()).audio != [] && c.inferenceOk)
      ensures !(wanted && !old(sourceMode) && old(State()).audio != []) ==> c == NoChoice
      ensures wanted && !old(sourceMode) && old(State()).audio != [] ==>
                TailOf(c, builder.phantom, old(builder.State()), old(audioBuf.Value()), listen)
      ensures flushed ==> State().audio == []
    {
      hide Ready, Valid, State, Infer, EmitAll, Flush, Emissions;
      c := NoChoice;
      flushed := false;
      FieldsAre();
      CountIsBuffered();
      NoMore(sent);
      if wanted && !sourceMode && audioBuf.count > 0 {
        ghost var rounds;
        flushed, rounds := FlushTailWindows(listen);
        assert rounds == [rounds[0]];
        c := NoChoice.(rounds := rounds, inferenceOk := flushed);
        if flushed {
          ghost var w := State();
          EmitTail();
          EmitAllKeepsSession(w);
        } else {
          FailInference();
        }
      }
    }

    method FinishAcceptedCues(wanted: bool, turns: seq<seq<ThreadStep>>)
      returns (finished: bool, ghost steps: seq<PoolStep>)
      requires Valid()
      modifies this`sent, translator, translator.results
      ensures Valid() && Did(old(sent), FinishTranslation(old(State()), wanted, NoChoice.(drain := steps)))
      ensures finished && wanted && old(State()).active && old(State()).running ==> !HasPending(State().translator)
      ensures DrainOf(old(State()), wanted, turns, steps)
    {
      hide Ready, Valid, State, Drain, HasPending, Waited;
      steps := [];
      FieldsAre();
      NoMore(sent);
      if wanted && sessionActive && running {
        finished, steps := DrainTranslation(turns);
      } else {
        finished := true;
      }
    }

    method FinishSession(audioWanted: bool, translationWanted: bool, env: Surroundings)
      returns (flushed: bool, finished: bool, ghost c: Choice, ghost steps: seq<PoolStep>)
      requires Valid()
      modifies this`tags, this`origins, this`remembered, this`running, this`sent
      modifies window, audioBuf, builder, builder.segmentQueue, builder.history
      modifies translator, translator.jobs, translator.results
      ensures Valid() && Kept()
      ensures Did(old(sent), FinishBoth(old(State()), audioWanted, translationWanted, c, steps))
      ensures audioWanted && !old(sourceMode) && old(State()).audio != [] ==>
                TailOf(c, builder.phantom, old(builder.State()), old(audioBuf.Value()), env.listen)
      ensures !(audioWanted && !old(sourceMode) && old(State()).audio != []) ==> c == NoChoice
      ensures DrainOf(FinishAudio(old(State()), audioWanted, c).0, translationWanted, env.turns, steps)
      ensures finished && translationWanted && c.inferenceOk && old(sessionActive && running) ==>
                !HasPending(State().translator)
    {
      hide Ready, Valid, State, FinishAudio, FinishTranslation, HasPending, TailOf, DrainOf;
      ghost var w, before := State(), sent;
      FieldsAre();
      flushed, c := FinishBufferedAudio(audioWanted, env.listen);
      FinishAudioKeeps(w, audioWanted, c);
      ghost var w1 := State();
      finished, steps := FinishAcceptedCues(translationWanted, env.turns);
      SentInOrder(before, FinishAudio(w, audioWanted, c).1,
                  FinishTranslation(w1, translationWanted, NoChoice.(drain := steps)).1);
    }

    /** What is left after a stop: nothing of the session but its id. */
    method CloseSession()
      requires Valid()
      modifies this`running, this`sessionId, this`sessionActive, this`paused
      modifies this`sourceOpen, this`sourceMode, this`sourceTag, this`liveProgressive
      modifies this`tags, this`origins, this`remembered, this`liveNextInferenceSamples
      modifies audioBuf, builder, translator, playback
      ensures Valid() && builder.segmentQueue == old(builder.segmentQueue)
      ensures State() == ClearAll(CloseDecoder(old(State()))).(active := false)
      ensures Holds() == Emptied(old(Holds()).(progressive := false))
      ensures !playback.seekFailedPending && playback.lastPtsUs == -1
    {
      hide Ready, Valid, State, Holds, Emptied, ClearAll, CloseDecoder;
      InactiveFirst(State());
      FieldsAre();
      Become(running, sessionId, false, paused);
      playback.End();
      CloseSource();
      SetProgressive(false);
      ClearSession();
    }

    method CloseAndReport(s: SessionId)
      requires Valid()
      modifies this`running, this`sessionId, this`sessionActive, this`paused, this`sent
      modifies this`sourceOpen, this`sourceMode, this`sourceTag, this`liveProgressive
      modifies this`tags, this`origins, this`remembered, this`liveNextInferenceSamples
      modifies audioBuf, builder, translator, playback
      ensures Valid() && builder.segmentQueue == old(builder.segmentQueue)
      ensures Did(old(sent), (ClearAll(CloseDecoder(old(State()))).(active := false),
                              if old(State()).running then [StatusReply(s)] else []))
      ensures NothingHeld(Holds()) && !playback.seekFailedPending && playback.lastPtsUs == -1
    {
      hide Ready, Valid, State, Holds, Emptied, ClearAll, CloseDecoder, NothingHeld;
      FieldsAre();
      NoMore(sent);
      EmptiedIsNothing(Holds());
      var stillRunning := running;
      CloseSession();
      if stillRunning {
        Send(StatusReply(s));
      }
    }

    method OnStop(s: SessionId, reason: nat, env: Surroundings) returns (ghost c: Choice, finished: bool)
      requires Valid()
      modifies this, window, audioBuf, builder, builder.segmentQueue, builder.history
      modifies translator, translator.jobs, translator.results, playback
      ensures Valid() && Kept()
      ensures Did(old(sent), HandleStop(old(State()), s, reason, c))
      ensures old(sessionId == s) ==> NothingHeld(Holds()) && !playback.seekFailedPending && playback.lastPtsUs == -1
      ensures old(sessionId != s) ==> Holds() == old(Holds()) && c == NoChoice && unchanged(playback)
      ensures old(sessionId == s ==> EndChoice(reason == 3, reason != 2, env, c))
      ensures old(sessionId == s) && reason == REASON_MEDIA_END && !old(sourceMode) && old(State()).audio != [] ==>
                TailOf(c, builder.phantom, old(builder.State()), old(audioBuf.Value()), env.listen)
      ensures finished && reason != REASON_SEEK && c.inferenceOk && old(sessionId == s && sessionActive && running) ==>
                !HasPending(Finished(old(State()), reason == REASON_MEDIA_END, c).translator)
    {
      hide Ready, Valid, State, Holds, FinishBoth, FinishAudio, ClearAll, CloseDecoder, HasPending, Drain, HandleStop;
      hide Finished, Flush, Emissions, NothingHeld, TailOf, DrainOf;
      c, finished := NoChoice, true;
      FieldsAre();
      ghost var w, before := State(), sent;
      StopElsewhere(w, s, reason, c);
      NoMore(sent);
      if sessionId != s {
        return;
      }
      var flushed;
      ghost var steps;
      flushed, finished, c, steps := FinishSession(reason == REASON_MEDIA_END, reason != REASON_SEEK, env);
      DrainedTail(w, reason, c, steps, builder.phantom, old(builder.State()), old(audioBuf.Value()), env.listen);
      StopInParts(w, s, reason, c, steps);
      SentInOrder(before, FinishBoth(w, reason == REASON_MEDIA_END, reason != REASON_SEEK, c, steps).1,
                  if State().running then [StatusReply(s)] else []);
      c := c.(drain := steps);
      CloseAndReport(s);
    }

    /** The tail of the audio with the status that follows it, and then the accepted cues. */
    method FinishWorker(env: Surroundings) returns (finished: bool, ghost c: Choice, ghost steps: seq<PoolStep>)
      requires Valid()
      modifies this`tags, this`origins, this`remembered, this`running, this`sent
      modifies window, audioBuf, builder, builder.segmentQueue, builder.history
      modifies translator, translator.jobs, translator.results
      ensures Valid() && Kept()
      ensures Did(old(sent), FinishAll(old(State()), c, steps))
      ensures !(old(sessionActive && !sourceMode) && old(State()).audio != []) ==> c == NoChoice
      ensures DrainOf(FinishAudio(old(State()), old(sessionActive), c).0, true, env.turns, steps)
      ensures old(sessionActive && !sourceMode) && old(State()).audio != [] ==>
                TailOf(c, builder.phantom, old(builder.State()), old(audioBuf.Value()), env.listen)
      ensures finished && c.inferenceOk && old(sessionActive && running) ==> !HasPending(State().translator)
    {
      hide Ready, Valid, State, FinishAudio, FinishTranslation, HasPending, TailOf, DrainOf;
      FieldsAre();
      ghost var w, before := State(), sent;
      var flushed;
      flushed, c := FinishBufferedAudio(sessionActive, env.listen);
      ghost var out1 := FinishAudio(w, w.active, c).1;
      ghost var status := if flushed then [StatusReply(w.session)] else [];
      SentInOrder(before, out1, status);
      if flushed {
        Send(StatusReply(sessionId));
      } else {
        NoMore(sent);
      }
      FinishAudioKeeps(w, w.active, c);
      ghost var w1 := State();
      finished, steps := FinishAcceptedCues(true, env.turns);
      SentInOrder(before, out1 + status, FinishTranslation(w1, true, NoChoice.(drain := steps)).1);
    }

    method OnShutdown(env: Surroundings) returns (ghost c: Choice, finished: bool)
      requires Valid()
      modifies this`running, this`sessionId, this`sessionActive, this`paused, this`sent
      modifies this`tags, this`origins, this`remembered, this`sourceOpen, this`sourceMode, this`sourceTag
      modifies window, audioBuf, builder, builder.segmentQueue, builder.history
      modifies translator, translator.jobs, translator.results
      ensures Valid() && Kept() && !running
      ensures Did(old(sent), HandleShutdown(old(State()), c))
      ensures old(EndChoice(sessionActive, true, env, c))
      ensures old(sessionActive && !sourceMode) && old(State()).audio != [] ==>
                TailOf(c, builder.phantom, old(builder.State()), old(audioBuf.Value()), env.listen)
      ensures finished && c.inferenceOk && old(sessionActive && running) ==>
                !HasPending(Finished(old(State()), true, c).translator)
    {
      hide Ready, Valid, State, FinishAll, FinishAudio, CloseDecoder, HandleShutdown, HasPending, Finished, Flush;
      hide Emissions, TailOf, DrainOf;
      FieldsAre();
      ghost var w := State();
      ghost var steps;
      finished, c, steps := FinishWorker(env);
      TailBeforeDrain(w, c, steps, builder.phantom, old(builder.State()), old(audioBuf.Value()), env.listen);
      ShutdownInParts(w, c, steps);
      c := c.(drain := steps);
      CloseSource();
      FieldsAre();
      Become(false, sessionId, sessionActive, paused);
    }

    // ------------------------------------------------------------- look-ahead

    /** The session's own file is decoded while it is not paused and not far enough ahead of the playback. */
    predicate LooksAhead()
      reads this, playback
    {
      sessionActive && sourceMode && sourceOpen && !paused && playback.WantsMore()
    }

    method TakeDecoded(pcm: seq<int>, ptsUs: int, listen: Listener) returns (ghost c: Choice)
      requires Valid() && sourceOpen && pcm != []
      modifies this`tags, this`origins, this`remembered, this`running, this`sent, playback
      modifies window, audioBuf, audioBuf.samples, builder, builder.segmentQueue, builder.history
      ensures Valid() && Kept()
      ensures var w := old(State());
              Did(old(sent), InferAll(w.(audio := Append(if c.discontinuity then [] else w.audio, sourceTag, |pcm|)), c))
      ensures var h, at := old(Holds()), if ptsUs >= 0 then ptsUs else old(playback.decodedPtsUs);
              && c == NoChoice.(discontinuity := !AudioTimeline.Continues(h.audio, at), rounds := c.rounds,
                                inferenceOk := c.inferenceOk)
              && HeardAhead(builder.phantom, h.(audio := AudioTimeline.Append(h.audio, pcm, at, 960_000)), listen,
                            c.inferenceOk, c.rounds, Holds())
              && playback.decodedPtsUs == at + |pcm| * 1_000_000 / 16_000
      ensures playback.currentPtsUs == old(playback.currentPtsUs) && playback.sourceEof == old(playback.sourceEof)
      ensures c.inferenceOk ==> |State().audio| < MAX_SAMPLES
    {
      hide Ready, Valid, State, Holds, Infer, Reports, Append, HeardAhead, AudioTimeline.Continues, AudioTimeline.Append;
      var actualPtsUs := playback.Decode(|pcm|, ptsUs);
      var discontinuity := AppendAudio(pcm, actualPtsUs, sourceTag);
      FieldsAre();
      ghost var before, rounds := sent, [];
      var ok;
      ok, rounds := InferAhead(listen);
      c := NoChoice.(discontinuity := discontinuity, rounds := rounds, inferenceOk := ok);
      if !ok {
        SentInOrder(before, Reports(sessionId, rounds), [ErrorReply(sessionId, E_INTERNAL, false)]);
        FailInference();
      }
    }

    /** At the end of the file everything buffered is recognised. */
    method EndSource(listen: Listener) returns (ok: bool, ghost c: Choice)
      requires Valid()
      modifies this`tags, this`origins, this`remembered, this`running, this`sent, playback
      modifies window, audioBuf, builder, builder.segmentQueue, builder.history
      ensures Valid() && Kept() && playback.sourceEof
      ensures Did(old(sent), InferAll(old(State()), c)) && !c.discontinuity
      ensures EndOf(c, builder.phantom, old(builder.State()), old(audioBuf.Value()), listen)
      ensures builder.State() == PushEach(builder.phantom, old(builder.State()),
                                          Flush(old(audioBuf.Value()), 0, listen).pushed)
      ensures ok == c.inferenceOk && (if ok then State().audio == [] else !running)
    {
      hide Ready, Valid, State, Infer, Reports, InferAll, Flush, Emissions, PushEach;
      FieldsAre();
      ghost var w := State();
      playback.ReachEnd();
      ghost var rounds;
      ok, rounds := FlushTailWindows(listen);
      assert rounds == [rounds[0]];
      FlushedEnd(w, rounds, ok);
      if ok {
        c := NoChoice.(rounds := rounds + [Round(0, [], 0, true)]);
        Send(StatusReply(sessionId));
      } else {
        c := NoChoice.(rounds := rounds, inferenceOk := false);
        FailInference();
      }
    }

    /** A read error ends the session and everything of it. */
    method LoseSource()
      requires Valid()
      modifies this`running, this`sessionId, this`sessionActive, this`paused, this`sent
      modifies this`sourceOpen, this`sourceMode, this`sourceTag, this`tags, this`origins, this`remembered
      modifies audioBuf, builder, translator, playback
      ensures Valid() && builder.segmentQueue == old(builder.segmentQueue)
      ensures Did(old(sent), (ClearAll(old(State())).(active := false, decoder := None, sourceMode := false),
                              [ErrorReply(old(sessionId), E_INTERNAL, false)]))
      ensures Holds() == old(Holds()).(audio := AudioTimeline.Buffer([], -1, 0, old(Holds()).audio.dropped),
                                       cues := CueTimeline.Builder(old(Holds()).cues.nextId, [], [], -1))
      ensures playback.sourceEof
    {
      hide Ready, Valid, State, Holds, ClearAll;
      Send(ErrorReply(sessionId, E_INTERNAL, false));
      LostFirst(State());
      FieldsAre();
      Become(running, sessionId, false, paused);
      playback.ReachEnd();
      SetSource(false, false, 0);
      DropEverything();
    }

    method DropEverything()
      requires Valid()
      modifies this`tags, this`origins, this`remembered, audioBuf, builder, translator
      ensures Valid() && builder.segmentQueue == old(builder.segmentQueue)
      ensures State() == ClearAll(old(State()))
      ensures Holds() == old(Holds()).(audio := AudioTimeline.Buffer([], -1, 0, old(Holds()).audio.dropped),
                                       cues := CueTimeline.Builder(old(Holds()).cues.nextId, [], [], -1))
    {
      hide Ready, Valid, State, Holds;
      DropAudio();
      ForgetPhrases();
      InvalidateTranslation();
    }

    /** One turn of the look-ahead: a chunk of the session's own file, its end, or an error in reading it. */
    method DecodeChunk(env: Surroundings)
      returns (goesOn: bool, ghost samples: nat, ghost readError: bool, ghost c: Choice)
      requires Valid()
      modifies this, window, audioBuf, audioBuf.samples, builder, builder.segmentQueue, builder.history
      modifies translator, playback
      ensures Valid() && Kept()
      ensures Did(old(sent), DecodeStep(old(State()), samples, readError, c))
      ensures samples == if old(LooksAhead()) && env.read.ReadOk? then |env.read.pcm| else 0
      ensures !old(LooksAhead()) || env.read.ReadNothing? || (env.read.ReadOk? && env.read.pcm == []) ==>
                c == NoChoice && Holds() == old(Holds()) && unchanged(playback)
      ensures old(LooksAhead()) && env.read.ReadOk? && env.read.pcm != [] ==>
                var h, pcm := old(Holds()), env.read.pcm;
                var at := if env.read.ptsUs >= 0 then env.read.ptsUs else old(playback.decodedPtsUs);
                && c == NoChoice.(discontinuity := !AudioTimeline.Continues(h.audio, at), rounds := c.rounds,
                                  inferenceOk := c.inferenceOk)
                && HeardAhead(builder.phantom, h.(audio := AudioTimeline.Append(h.audio, pcm, at, 960_000)), env.listen,
                              c.inferenceOk, c.rounds, Holds())
                && playback.decodedPtsUs == at + |pcm| * 1_000_000 / 16_000
      ensures old(LooksAhead()) && env.read.ReadEof? ==>
                && EndOf(c, builder.phantom, old(builder.State()), old(audioBuf.Value()), env.listen)
                && builder.State() == PushEach(builder.phantom, old(builder.State()),
                                               Flush(old(audioBuf.Value()), 0, env.listen).pushed)
      ensures readError ==>
                && c == NoChoice
                && Holds() == old(Holds()).(audio := AudioTimeline.Buffer([], -1, 0, old(Holds()).audio.dropped),
                                            cues := CueTimeline.Builder(old(Holds()).cues.nextId, [], [], -1))
      ensures readError == (old(LooksAhead()) && env.read.ReadError?)
      ensures goesOn == !(old(LooksAhead()) && env.read.ReadEof? && !c.inferenceOk) && (!goesOn ==> !running)
      ensures old(LooksAhead()) && env.read.ReadEof? ==> playback.sourceEof && (c.inferenceOk ==> State().audio == [])
      ensures old(LooksAhead()) && env.read.ReadOk? && c.inferenceOk && env.read.pcm != [] ==>
                |State().audio| < MAX_SAMPLES
    {
      hide Ready, Valid, State, Holds, InferAll, ClearAll, Append, EndOf, HeardAhead, Flush, PushEach;
      hide AudioTimeline.Continues, AudioTimeline.Append;
      goesOn, samples, readError, c := true, 0, false, NoChoice;
      FieldsAre();
      FileIs();
      NoMore(sent);
      NothingDecoded(State());
      if !LooksAhead() {
        return;
      }
      match env.read
      case ReadOk(pcm, ptsUs) =>
        if |pcm| > 0 {
          c := TakeDecoded(pcm, ptsUs, env.listen);
          samples := |pcm|;
        }
      case ReadEof =>
        goesOn, c := EndSource(env.listen);
      case ReadError =>
        LoseSource();
        readError := true;
      case ReadNothing =>
    }

    lemma FileIs()
      requires Valid()
      ensures sourceOpen ==> State().decoder == Some(sourceTag)
      ensures |State().audio| <= BUFFER_SAMPLES
    {
    }

    // ---------------------------------------------------------- the main loop

    method HandleFrame(f: PluginFrame, env: Surroundings) returns (ghost c: Choice)
      requires Valid()
      modifies this, window, audioBuf, audioBuf.samples, builder, builder.segmentQueue, builder.history
      modifies translator, translator.jobs, translator.results, playback
      ensures Valid() && Kept()
      ensures Did(old(sent), Handle(old(State()), Seen(f), c)) && old(Chooses(f, env, c))
    {
      hide AudioChoice, PositionChoice, EndChoice;
      hide Ready, Valid, State, HandleAudio, HandlePause, HandleResume, HandlePosition, HandleTranslate;
      hide Holds, Playback.WantsMore, Playback.MustSeek, Listens, Emptied, HeardLive, AudioTimeline.Continues;
      hide AudioTimeline.Append;
      c := NoChoice;
      match f
      case Audio(s, tag, pcm, startUs) => c := OnAudio(s, tag, pcm, startUs, env.live);
      case Pause(s) => OnPause(s);
      case Resume(s) => c := OnResume(s, env.seeks);
      case Position(s, ptsUs, pausedFlag, seekFlag) => c := OnPosition(s, ptsUs, pausedFlag, seekFlag, env);
      case Translate(s, enabled, from, to) => OnTranslate(s, enabled, from, to);
      case Other => NoMore(sent);
      case _ => c := HandleDirective(f, env);
    }

    /** The frames that begin or end a session or the worker. */
    method HandleDirective(f: PluginFrame, env: Surroundings) returns (ghost c: Choice)
      requires Valid() && (f.Start? || f.Stop? || f.Shutdown? || f.Bad?)
      modifies this, window, audioBuf, builder, builder.segmentQueue, builder.history
      modifies translator, translator.jobs, translator.results, playback
      ensures Valid() && Kept()
      ensures Did(old(sent), Handle(old(State()), Seen(f), c)) && old(Chooses(f, env, c))
    {
      hide EndChoice;
      hide Ready, Valid, State, Holds, HandleStart, HandleStop, HandleShutdown, TailOf, HasPending, Finished, DrainOf;
      hide FinishAudio, Emptied, MediaDropped, NothingHeld;
      c := NoChoice;
      match f
      case Start(s, tag, formatOk, live, originUs, url) =>
        if formatOk {
          c := OnStart(s, tag, live, originUs, url, env);
        } else {
          Send(ErrorReply(s, E_AUDIO_FORMAT, true));
        }
      case Stop(s, reason) =>
        var finished;
        c, finished := OnStop(s, reason, env);
      case Shutdown =>
        var finished;
        c, finished := OnShutdown(env);
      case Bad =>
        NoMore(sent);
        FieldsAre();
        Become(false, sessionId, sessionActive, paused);
    }

    /** What the surroundings come to for the look-ahead, with what is held and whether more of the file is wanted. */
    ghost predicate Decides(wanted: bool, h: Held, env: Surroundings, a: Act)
      reads playback
    {
      && a.Decoded?
      && if !wanted || env.read.ReadNothing? || (env.read.ReadOk? && env.read.pcm == [])
         then a == Decoded(0, false, NoChoice)
         else
           match env.read
           case ReadOk(pcm, ptsUs) =>
             var at := if ptsUs >= 0 then ptsUs else playback.decodedPtsUs;
             && a.samples == |pcm| && !a.readError
             && a.d == NoChoice.(discontinuity := !AudioTimeline.Continues(h.audio, at), rounds := a.d.rounds,
                                 inferenceOk := a.d.inferenceOk)
             && HeardInAhead(builder.phantom, h.(audio := AudioTimeline.Append(h.audio, pcm, at, 960_000)), env.listen,
                             a.d.inferenceOk, a.d.rounds)
           case ReadEof => a.samples == 0 && !a.readError && EndOf(a.d, builder.phantom, h.cues, h.audio, env.listen)
           case ReadError => a == Decoded(0, true, NoChoice)
           case ReadNothing => true
    }

    /** Every result that is next in order is delivered. */
    method DeliverAll(ghost before: seq<FromWorker>, ghost w: Worker, ghost done: seq<Act>) returns (ghost acts: seq<Act>)
      requires Valid() && Did(before, DoAll(w, done))
      modifies this`sent, translator, translator.results
      ensures Valid() && Did(before, DoAll(w, acts)) && Grown(done, acts, PoolActs(PoolDeliver))
      ensures State().pending == old(State()).pending && Holds() == old(Holds())
      ensures Deliver(State().translator).1.None?
    {
      hide Ready, Valid, State, Holds, DoAll, Deliver, DeliverOne;
      acts := done;
      var more := true;
      while more
        invariant Valid() && Did(before, DoAll(w, acts)) && Grown(done, acts, PoolActs(PoolDeliver))
        invariant State().pending == old(State()).pending && Holds() == old(Holds())
        invariant !more ==> Deliver(State().translator).1.None?
        decreases more, |State().translator.results|
      {
        ghost var now := State();
        DeliverKeepsPending(now);
        DoOneMore(w, acts, PoolActs(PoolDeliver));
        SentInOrder(before, DoAll(w, acts).1, DeliverOne(now).1);
        more := DeliverTranslation();
        acts := acts + [PoolActs(PoolDeliver)];
      }
    }

    /** Every pending caption is translated or sent. */
    method EmitPending(ghost before: seq<FromWorker>, ghost w: Worker, ghost done: seq<Act>) returns (ghost acts: seq<Act>)
      requires Valid() && Did(before, DoAll(w, done))
      modifies this`origins, this`sent, builder`count, builder`tail, builder.segmentQueue
      modifies translator, translator.jobs, translator.results
      ensures Valid() && Did(before, DoAll(w, acts)) && Grown(done, acts, Emits) && State().pending == []
    {
      hide Ready, Valid, State, DoAll, EmitOne;
      acts := done;
      var more := true;
      while more
        invariant Valid() && Did(before, DoAll(w, acts)) && Grown(done, acts, Emits)
        invariant !more ==> State().pending == []
        decreases more, |State().pending|
      {
        ghost var now := State();
        DoOneMore(w, acts, Emits);
        SentInOrder(before, DoAll(w, acts).1, EmitOne(now).1);
        more := EmitCaption();
        acts := acts + [Emits];
      }
    }

    method TakeFrame(f: PluginFrame, env: Surroundings, ghost before: seq<FromWorker>, ghost w: Worker,
                     ghost done: seq<Act>)
      returns (ghost acts: seq<Act>)
      requires Valid() && Did(before, DoAll(w, done))
      modifies this, window, audioBuf, audioBuf.samples, builder, builder.segmentQueue, builder.history
      modifies translator, translator.jobs, translator.results, playback
      ensures Valid() && Kept() && Did(before, DoAll(w, acts))
      ensures |acts| == |done| + 1 && acts[..|done|] == done && acts[|done|].Frame? && acts[|done|].f == Seen(f)
      ensures State() == Handle(old(State()), Seen(f), acts[|done|].c).0 && old(Chooses(f, env, acts[|done|].c))
    {
      hide Ready, Valid, State, DoAll, Handle, Chooses;
      ghost var now := State();
      ghost var c := HandleFrame(f, env);
      DoOneMore(w, done, Frame(Seen(f), c));
      SentInOrder(before, DoAll(w, done).1, Handle(now, Seen(f), c).1);
      acts := done + [Frame(Seen(f), c)];
    }

    method LookAhead(env: Surroundings, ghost before: seq<FromWorker>, ghost w: Worker, ghost done: seq<Act>)
      returns (goesOn: bool, ghost acts: seq<Act>)
      requires Valid() && Did(before, DoAll(w, done))
      modifies this, window, audioBuf, audioBuf.samples, builder, builder.segmentQueue, builder.history
      modifies translator, playback
      ensures Valid() && Kept() && Did(before, DoAll(w, acts))
      ensures |acts| == |done| + 1 && acts[..|done|] == done && acts[|done|].Decoded?
      ensures old(Decides(LooksAhead(), Holds(), env, acts[|done|]))
      ensures !goesOn ==> !running
    {
      hide Ready, Valid, State, AudioBuffer.Value, SegmentBuilder.State, DoAll, DecodeStep, AheadTurns, RoundsOf, EndOf;
      hide LooksAhead, BuilderAfter, AudioTimeline.Append, AudioTimeline.Continues, PushEach, Flush;
      ghost var now := State();
      ghost var samples, readError, c;
      goesOn, samples, readError, c := DecodeChunk(env);
      DoOneMore(w, done, Decoded(samples, readError, c));
      SentInOrder(before, DoAll(w, done).1, DecodeStep(now, samples, readError, c).1);
      acts := done + [Decoded(samples, readError, c)];
    }

    /** A frame that cannot be used ends the turn. */
    predicate RefusedAtOnce(frame: Option<PluginFrame>)
    {
      frame.Some? && (frame.value.Bad? || (frame.value.Start? && !frame.value.formatOk))
    }

    /** What a turn does after its frame. */
    method FinishTurn(env: Surroundings, ghost before: seq<FromWorker>, ghost w: Worker, ghost done: seq<Act>)
      returns (ghost acts: seq<Act>)
      requires Valid() && Did(before, DoAll(w, done))
      modifies this, window, audioBuf, audioBuf.samples, builder, builder.segmentQueue, builder.history
      modifies translator, translator.jobs, translator.results, playback
      ensures Valid() && Kept() && Did(before, DoAll(w, acts)) && done <= acts
      ensures RestOfTurn(acts, |done|) && forall i :: |done| <= i < |acts| ==> !acts[i].Frame?
      ensures running ==> State().pending == [] && Deliver(State().translator).1.None?
      ensures exists i :: |done| <= i < |acts| && old(Decides(LooksAhead(), Holds(), env, acts[i]))
    {
      hide Ready, Valid, State, Holds, DoAll, Decides, Deliver;
      acts := DeliverAll(before, w, done);
      ghost var delivered := acts;
      var goesOn;
      goesOn, acts := LookAhead(env, before, w, acts);
      ghost var looked := acts;
      if goesOn {
        acts := EmitPending(before, w, acts);
        ghost var emitted := acts;
        acts := DeliverAll(before, w, acts);
        TurnInOrder(done, delivered, looked, emitted, acts);
      } else {
        TurnInOrder(done, delivered, looked, acts, acts);
      }
      assert acts[|delivered|] == looked[|delivered|];
    }

    /**
      One turn of the main loop: a frame when there is one, the results that are ready, the look-ahead, and the captions
      that came of it. A frame that is refused unhandled ends the turn, and so does a failure at the end of the file.
     */
    method TakeTurn(frame: Option<PluginFrame>, env: Surroundings) returns (ghost acts: seq<Act>)
      requires Valid()
      modifies this, window, audioBuf, audioBuf.samples, builder, builder.segmentQueue, builder.history
      modifies translator, translator.jobs, translator.results, playback
      ensures Valid() && Kept()
      ensures Did(old(sent), DoAll(old(State()), acts)) && OneTurn(SeenIn(frame), acts)
      ensures frame.Some? ==> acts != [] && acts[0].Frame? && old(Chooses(frame.value, env, acts[0].c))
      ensures running && old(State()).pending == [] ==> State().pending == []
      ensures if RefusedAtOnce(frame) then |acts| == 1
              else
                && RestOfTurn(acts, if frame.Some? then 1 else 0)
                && (running ==> State().pending == [] && Deliver(State().translator).1.None?)
      ensures frame.None? ==> exists i :: 0 <= i < |acts| && old(Decides(LooksAhead(), Holds(), env, acts[i]))
    {
      hide Ready, Valid, State, Holds, DoAll, Handle, Chooses, Decides, Deliver, RestOfTurn;
      ghost var before, w := sent, State();
      acts := [];
      DoNothing(w);
      NoMore(before);
      if frame.Some? {
        acts := TakeFrame(frame.value, env, before, w, acts);
        if RefusedAtOnce(frame) {
          RefusedUnhandled(w, Seen(frame.value), acts[0].c);
          FieldsAre();
          return;
        }
      }
      ghost var first := acts;
      acts := FinishTurn(env, before, w, acts);
      assert forall i :: 0 <= i < |first| ==> acts[i] == first[i];
    }

    /**
      The turn of a running loop is a run of the system it is the worker of; the frame is the next one of the system's
      queue. The object stays the worker of that system, so what holds of all runs of the system holds of the loop.
     */
    method Turn(frame: Option<PluginFrame>, env: Surroundings, ghost s: SessionEpochs.System)
      returns (ghost acts: seq<Act>, ghost t: SessionEpochs.System)
      requires Valid() && running && Hosts(s) && IsNext(s, SeenIn(frame))
      modifies this, window, audioBuf, audioBuf.samples, builder, builder.segmentQueue, builder.history
      modifies translator, translator.jobs, translator.results, playback
      ensures Valid() && Kept()
      ensures Did(old(sent), DoAll(old(State()), acts)) && OneTurn(SeenIn(frame), acts)
      ensures frame.Some? ==> acts != [] && acts[0].Frame? && old(Chooses(frame.value, env, acts[0].c))
      ensures running && old(State()).pending == [] ==> State().pending == []
      ensures t == SessionEpochs.Run(s, EventsOf(acts)) && Hosts(t)
    {
      hide Ready, Valid, State, DoAll, Chooses, SessionEpochs.Run, SessionEpochs.CaptionsIn, OneTurn, IsNext, EventsOf;
      FieldsAre();
      acts := TakeTurn(frame, env);
      TurnIsARun(s, SeenIn(frame), acts);
      t := SessionEpochs.Run(s, EventsOf(acts));
      CaptionsConcat(old(sent), DoAll(s.worker, acts).1);
    }

    /** A pool thread may act between turns. */
    method PoolTurn(step: ThreadStep, ghost s: SessionEpochs.System)
      requires Valid() && Hosts(s)
      modifies translator, translator.results
      ensures Valid() && Hosts(SessionEpochs.Next(s, SessionEpochs.WorkerPool(step)))
    {
      hide Ready, Valid, State, PoolDo, SessionEpochs.CaptionsIn, SessionEpochs.Number;
      ThreadActs(step);
      ActIsEvent(s, PoolActs(step));
      CaptionsConcat([], PoolDo(s.worker, step).1);
      CaptionsConcat(sent, []);
      NoMore(sent);
    }

    /** A new object is the worker of the system at its begin. */
    lemma BeginsHosting()
      requires Valid() && State() == Idle && sent == []
      ensures Hosts(SessionEpochs.Begin)
    {
    }

    /** The client, the channels and the frame queue leave the worker alone. */
    lemma OthersKeepHosting(s: SessionEpochs.System, e: SessionEpochs.Event)
      requires Valid() && Hosts(s)
      requires !(e.WorkerHandle? || e.WorkerDecode? || e.WorkerEmit? || e.WorkerPool?)
      ensures Hosts(SessionEpochs.Next(s, e))
    {
      hide State, SessionEpochs.CaptionsIn, SessionEpochs.Number;
    }

    /** In every run of the whole system each caption this worker has sent was made only from audio of its session. */
    lemma WorkerIsSafe(past: seq<SessionEpochs.Event>)
      requires Valid() && Hosts(SessionEpochs.Run(SessionEpochs.Begin, past))
      ensures var drawn := SessionEpochs.Run(SessionEpochs.Begin, past).drawn;
              && WorkerOk(drawn, State())
              && (forall i :: 0 <= i < |sent| && sent[i].CaptionReply? ==> OwnAudio(drawn, sent[i].segment))
    {
      hide State, WorkerOk;
      var s := SessionEpochs.Run(SessionEpochs.Begin, past);
      SessionEpochs.ReachableInv(past);
      forall i | 0 <= i < |sent| && sent[i].CaptionReply?
        ensures OwnAudio(s.drawn, sent[i].segment)
      {
        var k := SentIsListed(sent, i);
        assert OwnAudio(s.drawn, s.sent[k]);
      }
    }
  }

  lemma {:induction false} SentIsListed(replies: seq<FromWorker>, i: nat) returns (k: nat)
    requires i < |replies| && replies[i].CaptionReply?
    ensures k < |SessionEpochs.CaptionsIn(replies)| && SessionEpochs.CaptionsIn(replies)[k] == replies[i].segment
    decreases |replies|
  {
    if i == 0 {
      k := 0;
    } else {
      k := SentIsListed(replies[1..], i - 1);
      k := if replies[0].CaptionReply? then k + 1 else k;
    }
  }
}
