/**
  The worker's main loop as a state machine: what each message handler, the decoder step, the caption emitter and the
  translation delivery do to the session state, and what they send. Every sample is tagged with the plugin session its
  audio was captured for; a caption's origin is the set of tags of the window it was recognised in and of every phrase the
  builder still remembers, since a remembered phrase may trim or suppress it. What the recogniser, the decoder and the
  clock do is a choice that comes with the step, so every behaviour of theirs is covered.
 */
module WorkerSession {
  import opened Captions
  import opened CueTimeline
  import opened Pipelines
  import opened PipelineRuns

  const REASON_USER_STOP: nat := 1
  const REASON_SEEK: nat := 2
  const REASON_MEDIA_END: nat := 3
  const E_MODEL_MISSING: nat := 3
  const E_AUDIO_FORMAT: nat := 5
  const E_INTERNAL: nat := 9
  const E_SOURCE_OPEN: nat := 10

  const BUFFER_SAMPLES: nat := 960_000

  datatype ToWorker =
    | StartFrame(session: SessionId, tag: nat, hasUrl: bool, formatOk: bool)
    | StopFrame(session: SessionId, reason: nat)
    | AudioFrame(session: SessionId, tag: nat, samples: nat)
    | PauseFrame(session: SessionId)
    | ResumeFrame(session: SessionId)
    | PositionFrame(session: SessionId, pausedFlag: bool)
    | TranslateFrame(session: SessionId, enabled: bool, sourceLang: string, targetLang: string)
    | ShutdownFrame
    | BadFrame
    | OtherFrame

  datatype FromWorker =
    | StartedReply(session: SessionId, sourceActive: bool)
    | CaptionReply(segment: CaptionSegment)
    | ErrorReply(session: SessionId, code: nat, recoverable: bool)
    | StatusReply(session: SessionId)

  /** A caption waiting in the segment builder. */
  datatype Waiting = Waiting(id: nat, e: Emission, origin: set<nat>)

  datatype Worker = Worker(
    running: bool,
    session: SessionId,
    active: bool,
    paused: bool,
    sourceMode: bool,
    decoder: Option<nat>,
    audio: seq<int>,
    pending: seq<Waiting>,
    remembered: set<nat>,
    nextSegmentId: nat,
    translating: bool,
    sourceLang: string,
    targetLang: string,
    translator: Pipeline)

  const Idle := Worker(true, 0, false, false, false, None, [], [], {}, 1, false, "auto", "en", Init)

  /** One turn of an inference loop: the window read from the front, its captions, the samples drained, and whether a
      status report follows. */
  datatype Round = Round(window: nat, captions: seq<Emission>, drained: nat, reports: bool)

  datatype PoolStep = PoolTake | PoolComplete(job: Job, outcome: Outcome) | PoolDeliver

  /** What the environment decides during one step. */
  datatype Choice = Choice(
    engineReady: bool,
    languageOk: bool,
    opens: bool,
    seeks: bool,
    resumes: bool,
    mustSeek: bool,
    invalidPts: bool,
    discontinuity: bool,
    rounds: seq<Round>,
    inferenceOk: bool,
    drain: seq<PoolStep>)

  // ---------------------------------------------------------------- pieces

  function ClearBuffers(w: Worker): Worker
  {
    w.(audio := [], pending := [], remembered := {})
  }

  /** A media swap pops the pending captions; the builder still remembers its phrases. */
  function DropBuffers(w: Worker): Worker
  {
    w.(audio := [], pending := [])
  }

  function ClearAll(w: Worker): Worker
  {
    ClearBuffers(w).(translator := Invalidate(w.translator))
  }

  function Tags(samples: seq<int>): set<nat>
  {
    set t: nat | t in samples
  }

  function Append(audio: seq<int>, tag: nat, count: nat): seq<int>
  {
    var longer := audio + seq(count, _ => tag);
    if |longer| > BUFFER_SAMPLES then longer[|longer| - BUFFER_SAMPLES..] else longer
  }

  /** A caption joins the pending ones and is remembered; its origin takes in everything remembered before it. */
  function QueueOne(w: Worker, e: Emission, origin: set<nat>): Worker
  {
    w.(pending := w.pending + [Waiting(w.nextSegmentId, e, origin + w.remembered)],
       remembered := w.remembered + origin,
       nextSegmentId := w.nextSegmentId + 1)
  }

  function Queue(w: Worker, captions: seq<Emission>, origin: set<nat>): Worker
    decreases |captions|
  {
    if captions == [] then w else Queue(QueueOne(w, captions[0], origin), captions[1..], origin)
  }

  /** One turn of the inference loop: the window is recognised, its captions queued, the drained samples dropped. */
  function InferRound(w: Worker, r: Round): Worker
  {
    var window := if r.window < |w.audio| then w.audio[..r.window] else w.audio;
    var drained := if r.drained < |w.audio| then w.audio[r.drained..] else [];
    Queue(w, r.captions, Tags(window)).(audio := drained)
  }

  function Infer(w: Worker, rounds: seq<Round>): Worker
    decreases |rounds|
  {
    if rounds == [] then w else Infer(InferRound(w, rounds[0]), rounds[1..])
  }

  /** The status reports of an inference loop. */
  function Reports(s: SessionId, rounds: seq<Round>): seq<FromWorker>
    decreases |rounds|
  {
    if rounds == [] then []
    else (if rounds[0].reports then [StatusReply(s)] else []) + Reports(s, rounds[1..])
  }

  /** An inference loop with its reports; a failing recogniser ends the worker. */
  function InferAll(w: Worker, c: Choice): (Worker, seq<FromWorker>)
  {
    var inferred, reports := Infer(w, c.rounds), Reports(w.session, c.rounds);
    if c.inferenceOk then (inferred, reports)
    else (inferred.(running := false), reports + [ErrorReply(w.session, E_INTERNAL, false)])
  }

  function SegmentOf(w: Worker, p: Waiting): CaptionSegment
  {
    CaptionSegment(w.session, p.id, p.e.startUs, p.e.endUs, p.e.text, None, false, 0, TIER_NONE, p.origin)
  }

  /** The oldest pending caption is stamped with the session id and translated or sent. */
  function EmitOne(w: Worker): (Worker, seq<FromWorker>)
  {
    if w.pending == [] then (w, [])
    else
      var segment, rest := SegmentOf(w, w.pending[0]), w.(pending := w.pending[1..]);
      if !w.translating then (rest, [CaptionReply(segment)])
      else if Accepts(w.translator, segment)
      then (rest.(translator := Submit(w.translator, segment, w.sourceLang, w.targetLang)), [])
      else (rest, [CaptionReply(segment.(attempted := true))])
  }

  function EmitAll(w: Worker): (Worker, seq<FromWorker>)
    decreases |w.pending|
  {
    if w.pending == [] then (w, [])
    else
      var (w1, out1) := EmitOne(w);
      var (w2, out2) := EmitAll(w1);
      (w2, out1 + out2)
  }

  /** One delivery attempt: the id and activity check, then the send. */
  function DeliverOne(w: Worker): (Worker, seq<FromWorker>)
  {
    var (p, r) := Deliver(w.translator);
    (w.(translator := p),
     if r.Some? && w.active && r.value.segment.session == w.session then [CaptionReply(r.value.segment)] else [])
  }

  function PoolDo(w: Worker, step: PoolStep): (Worker, seq<FromWorker>)
  {
    match step
    case PoolTake => (if CanTake(w.translator) then w.(translator := Take(w.translator)) else w, [])
    case PoolComplete(job, outcome) =>
      (if job in w.translator.inflight then w.(translator := Complete(w.translator, job, outcome)) else w, [])
    case PoolDeliver => DeliverOne(w)
  }

  /** The drain loop with the pool's steps interleaved in it. */
  function Drain(w: Worker, steps: seq<PoolStep>): (Worker, seq<FromWorker>)
    decreases |steps|
  {
    if steps == [] then (w, [])
    else
      var (w1, out1) := PoolDo(w, steps[0]);
      var (w2, out2) := Drain(w1, steps[1..]);
      (w2, out1 + out2)
  }

  // -------------------------------------------------------------- handlers

  function HandleStart(w: Worker, s: SessionId, tag: nat, hasUrl: bool, c: Choice): (Worker, seq<FromWorker>)
  {
    if w.active && w.session == s then (w, [ErrorReply(s, E_INTERNAL, true)])
    else BeginNew(if w.active then DropBuffers(w).(decoder := None, active := false) else w, s, tag, hasUrl, c)
  }

  function BeginNew(w: Worker, s: SessionId, tag: nat, hasUrl: bool, c: Choice): (Worker, seq<FromWorker>)
  {
    if !c.engineReady then (w, [ErrorReply(s, E_MODEL_MISSING, false)])
    else if !c.languageOk then (w, [ErrorReply(s, E_INTERNAL, true)])
    else
      var source := hasUrl && c.opens && c.seeks;
      var started := ClearAll(w).(session := s, active := true, paused := false, sourceMode := source,
                                  decoder := if source then Some(tag) else None);
      (started, (if hasUrl && !c.opens then [ErrorReply(s, E_SOURCE_OPEN, true)] else []) +
                [StartedReply(s, source), StatusReply(s)])
  }

  function HandleStop(w: Worker, s: SessionId, reason: nat, c: Choice): (Worker, seq<FromWorker>)
  {
    if w.session != s then (w, [])
    else
      var (w1, out1) := FinishAudio(w, reason == REASON_MEDIA_END, c);
      var (w2, out2) := FinishTranslation(w1, reason != REASON_SEEK, c);
      (ClearAll(CloseDecoder(w2)).(active := false), out1 + out2 + (if w2.running then [StatusReply(s)] else []))
  }

  /** At the end of live media the buffered tail is still recognised. */
  function FinishAudio(w: Worker, wanted: bool, c: Choice): (Worker, seq<FromWorker>)
  {
    if wanted && !w.sourceMode && w.audio != [] then FlushTail(w, c) else (w, [])
  }

  /** Accepted cues are delivered before an active session closes. */
  function FinishTranslation(w: Worker, wanted: bool, c: Choice): (Worker, seq<FromWorker>)
  {
    if wanted && w.active && w.running then Drain(w, c.drain) else (w, [])
  }

  /** The worker after both. */
  function Finished(w: Worker, wanted: bool, c: Choice): Worker
  {
    FinishTranslation(FinishAudio(w, wanted, c).0, true, c).0
  }

  function CloseDecoder(w: Worker): Worker
  {
    if w.decoder.Some? then w.(decoder := None, sourceMode := false) else w
  }

  /** The tail flush and, when inference succeeded, the emission of what it recognised. */
  function FlushTail(w: Worker, c: Choice): (Worker, seq<FromWorker>)
  {
    var flushed := Infer(w, c.rounds);
    if c.inferenceOk then EmitAll(flushed)
    else (flushed.(running := false), [ErrorReply(w.session, E_INTERNAL, false)])
  }

  function HandleAudio(w: Worker, s: SessionId, tag: nat, samples: nat, c: Choice): (Worker, seq<FromWorker>)
  {
    if !w.active || w.paused || w.sourceMode || w.session != s then (w, [])
    else if c.invalidPts then (ClearBuffers(w), [])
    else if samples == 0 then (w, [])
    else
      InferAll(w.(audio := Append(if c.discontinuity then [] else w.audio, tag, samples)), c)
  }

  function HandlePause(w: Worker, s: SessionId): (Worker, seq<FromWorker>)
  {
    if !w.active || w.session != s then (w, []) else (ClearAll(w).(paused := true), [StatusReply(s)])
  }

  function HandleResume(w: Worker, s: SessionId, c: Choice): (Worker, seq<FromWorker>)
  {
    if !w.active || w.session != s then (w, [])
    else
      var resumed := w.(paused := false);
      (if w.sourceMode && w.decoder.Some? && c.seeks then ClearAll(resumed) else resumed, [StatusReply(s)])
  }

  function HandlePosition(w: Worker, s: SessionId, pausedFlag: bool, c: Choice): (Worker, seq<FromWorker>)
  {
    if !w.active || w.session != s then (w, [])
    else
      var source := w.sourceMode && w.decoder.Some?;
      var toggled := if pausedFlag == w.paused then w
                     else if pausedFlag || (source && c.resumes) then ClearBuffers(w).(paused := pausedFlag)
                     else w.(paused := pausedFlag);
      (if source && c.mustSeek && c.seeks then ClearAll(toggled) else toggled,
       if pausedFlag == w.paused then [] else [StatusReply(s)])
  }

  function HandleTranslate(w: Worker, s: SessionId, enabled: bool, from: string, to: string): (Worker, seq<FromWorker>)
  {
    if w.session != s then (w, [])
    else (w.(translating := enabled, sourceLang := from, targetLang := to, translator := Invalidate(w.translator)), [])
  }

  function HandleShutdown(w: Worker, c: Choice): (Worker, seq<FromWorker>)
  {
    var (w1, out1) := FinishAudio(w, w.active, c);
    var (w2, out2) := FinishTranslation(w1, true, c);
    var flushed := w.active && !w.sourceMode && w.audio != [] && c.inferenceOk;
    (CloseDecoder(w2).(running := false), out1 + (if flushed then [StatusReply(w.session)] else []) + out2)
  }

  function Handle(w: Worker, f: ToWorker, c: Choice): (Worker, seq<FromWorker>)
  {
    match f
    case StartFrame(s, tag, hasUrl, formatOk) =>
      // refused before the handler is reached; the handler's own test of the rate cannot fail
      if formatOk then HandleStart(w, s, tag, hasUrl, c) else (w, [ErrorReply(s, E_AUDIO_FORMAT, true)])
    case StopFrame(s, reason) => HandleStop(w, s, reason, c)
    case AudioFrame(s, tag, samples) => HandleAudio(w, s, tag, samples, c)
    case PauseFrame(s) => HandlePause(w, s)
    case ResumeFrame(s) => HandleResume(w, s, c)
    case PositionFrame(s, pausedFlag) => HandlePosition(w, s, pausedFlag, c)
    case TranslateFrame(s, enabled, from, to) => HandleTranslate(w, s, enabled, from, to)
    case ShutdownFrame => HandleShutdown(w, c)
    case BadFrame => (w.(running := false), [])
    case OtherFrame => (w, [])
  }

  /** The look-ahead step: decoded audio of the session's own source, or a read error that ends the session. */
  function DecodeStep(w: Worker, samples: nat, readError: bool, c: Choice): (Worker, seq<FromWorker>)
  {
    if !w.active || !w.sourceMode || w.decoder.None? || w.paused then (w, [])
    else if readError then
      (ClearAll(w).(active := false, decoder := None, sourceMode := false), [ErrorReply(w.session, E_INTERNAL, false)])
    else
      InferAll(w.(audio := Append(if c.discontinuity then [] else w.audio, w.decoder.value, samples)), c)
  }

  /** A step of the worker: of its loop, or of a pool thread in between. */
  datatype Act =
    | Frame(f: ToWorker, c: Choice)
    | Decoded(samples: nat, readError: bool, d: Choice)
    | Emits
    | PoolActs(step: PoolStep)

  function Do(w: Worker, a: Act): (Worker, seq<FromWorker>)
  {
    match a
    case Frame(f, c) => Handle(w, f, c)
    case Decoded(samples, readError, d) => DecodeStep(w, samples, readError, d)
    case Emits => EmitOne(w)
    case PoolActs(step) => PoolDo(w, step)
  }

  function DoAll(w: Worker, acts: seq<Act>): (Worker, seq<FromWorker>)
    decreases |acts|
  {
    if acts == [] then (w, [])
    else
      var (w1, out1) := Do(w, acts[0]);
      var (w2, out2) := DoAll(w1, acts[1..]);
      (w2, out1 + out2)
  }

  /** Queueing and inference change the audio, the captions and what is remembered, and nothing else. */
  lemma {:induction false} QueueKeepsSession(w: Worker, captions: seq<Emission>, origin: set<nat>)
    ensures Queue(w, captions, origin).(pending := w.pending, remembered := w.remembered,
                                        nextSegmentId := w.nextSegmentId) == w
    decreases |captions|
  {
    if captions != [] {
      QueueKeepsSession(QueueOne(w, captions[0], origin), captions[1..], origin);
    }
  }

  lemma {:induction false} InferKeepsSession(w: Worker, rounds: seq<Round>)
    ensures Infer(w, rounds).(pending := w.pending, remembered := w.remembered, nextSegmentId := w.nextSegmentId,
                              audio := w.audio) == w
    decreases |rounds|
  {
    if rounds != [] {
      var r := rounds[0];
      QueueKeepsSession(w, r.captions, Tags(if r.window < |w.audio| then w.audio[..r.window] else w.audio));
      InferKeepsSession(InferRound(w, r), rounds[1..]);
    }
  }

  lemma {:induction false} EmitAllKeepsSession(w: Worker)
    ensures EmitAll(w).0.(pending := w.pending, translator := w.translator) == w
    decreases |w.pending|
  {
    if w.pending != [] {
      EmitAllKeepsSession(EmitOne(w).0);
    }
  }

  /** The tail does not end a session, nor the worker unless the recogniser fails. */
  lemma FinishAudioKeeps(w: Worker, wanted: bool, c: Choice)
    ensures var w1 := FinishAudio(w, wanted, c).0; w1.active == w.active && (c.inferenceOk ==> w1.running == w.running)
  {
    InferKeepsSession(w, c.rounds);
    EmitAllKeepsSession(Infer(w, c.rounds));
  }

  // ------------------------------------------------------------- invariant

  /** All the audio behind a text was captured for the plugin session with this id. */
  ghost predicate FromSession(drawn: seq<SessionId>, s: SessionId, tags: set<nat>)
  {
    forall t :: t in tags ==> t < |drawn| && drawn[t] == s
  }

  ghost predicate OwnAudio(drawn: seq<SessionId>, segment: CaptionSegment)
  {
    FromSession(drawn, segment.session, segment.origin)
  }

  /** Every segment in the pipeline stems from its own session, and those of the current epoch from session s. */
  ghost predicate PipelineOk(drawn: seq<SessionId>, s: SessionId, p: Pipeline)
  {
    && (forall i :: 0 <= i < |p.jobs| ==>
          OwnAudio(drawn, p.jobs[i].segment) && p.jobs[i].epoch == p.epoch && p.jobs[i].segment.session == s)
    && (forall job :: job in p.inflight ==>
          OwnAudio(drawn, job.segment) && job.epoch <= p.epoch && (job.epoch == p.epoch ==> job.segment.session == s))
    && (forall k :: 0 <= k < |p.results| ==>
          && OwnAudio(drawn, p.results[k].result.segment)
          && p.results[k].result.segment.session == s)
  }

  ghost predicate WorkerOk(drawn: seq<SessionId>, w: Worker)
  {
    && FromSession(drawn, w.session, Tags(w.audio))
    && (forall i :: 0 <= i < |w.pending| ==> FromSession(drawn, w.session, w.pending[i].origin))
    && FromSession(drawn, w.session, w.remembered)
    && (w.decoder.Some? ==> FromSession(drawn, w.session, {w.decoder.value}))
    && PipelineOk(drawn, w.session, w.translator)
  }

  ghost predicate FrameOk(drawn: seq<SessionId>, f: ToWorker)
  {
    match f
    case StartFrame(s, tag, _, _) => FromSession(drawn, s, {tag})
    case AudioFrame(s, tag, _) => FromSession(drawn, s, {tag})
    case _ => true
  }

  ghost predicate RepliesOk(drawn: seq<SessionId>, replies: seq<FromWorker>)
  {
    forall i :: 0 <= i < |replies| && replies[i].CaptionReply? ==> OwnAudio(drawn, replies[i].segment)
  }

  lemma SubmitOk(drawn: seq<SessionId>, s: SessionId, p: Pipeline, segment: CaptionSegment, from: string, to: string)
    requires PipelineOk(drawn, s, p) && OwnAudio(drawn, segment) && segment.session == s
    ensures PipelineOk(drawn, s, Submit(p, segment, from, to))
  {
    if |p.jobs| >= QUEUE_CAPACITY {
      assert OwnAudio(drawn, p.jobs[0].segment);
      assert OwnAudio(drawn, EvictedResult(p.jobs[0]).segment);
    }
    assert OwnAudio(drawn, NewJob(p, segment, from, to, true).segment);
  }

  lemma CompleteOk(drawn: seq<SessionId>, s: SessionId, p: Pipeline, job: Job, outcome: Outcome)
    requires PipelineOk(drawn, s, p) && job in p.inflight
    ensures PipelineOk(drawn, s, Complete(p, job, outcome))
  {
    assert OwnAudio(drawn, job.segment);
    assert OwnAudio(drawn, ThreadResult(job, outcome).segment);
  }

  lemma DeliverOk(drawn: seq<SessionId>, s: SessionId, p: Pipeline)
    requires PipelineOk(drawn, s, p)
    ensures PipelineOk(drawn, s, Deliver(p).0)
    ensures Deliver(p).1.Some? ==> OwnAudio(drawn, Deliver(p).1.value.segment) && Deliver(p).1.value.segment.session == s
  {
    var k := FindNext(p.results, p.nextResult);
    if k.Some? {
      assert OwnAudio(drawn, p.results[k.value].result.segment);
      assert OwnAudio(drawn, BindResultText(p.results[k.value].result).segment);
    }
  }

  lemma InvalidateOk(drawn: seq<SessionId>, s: SessionId, s': SessionId, p: Pipeline)
    requires PipelineOk(drawn, s, p)
    ensures PipelineOk(drawn, s', Invalidate(p))
  {
  }

  lemma {:induction false} QueueOk(drawn: seq<SessionId>, w: Worker, captions: seq<Emission>, origin: set<nat>)
    requires WorkerOk(drawn, w) && FromSession(drawn, w.session, origin)
    ensures WorkerOk(drawn, Queue(w, captions, origin))
    decreases |captions|
  {
    if captions != [] {
      var next := QueueOne(w, captions[0], origin);
      assert WorkerOk(drawn, next);
      QueueOk(drawn, next, captions[1..], origin);
    }
  }

  lemma FewerSamplesOk(drawn: seq<SessionId>, w: Worker, audio: seq<int>)
    requires WorkerOk(drawn, w) && Tags(audio) <= Tags(w.audio)
    ensures WorkerOk(drawn, w.(audio := audio)) && FromSession(drawn, w.session, Tags(audio))
  {
  }

  lemma RoundOk(drawn: seq<SessionId>, w: Worker, r: Round)
    requires WorkerOk(drawn, w)
    ensures WorkerOk(drawn, InferRound(w, r))
  {
    hide WorkerOk, Queue, FromSession;
    var window := if r.window < |w.audio| then w.audio[..r.window] else w.audio;
    var drained := if r.drained < |w.audio| then w.audio[r.drained..] else [];
    assert Tags(window) <= Tags(w.audio) && Tags(drained) <= Tags(w.audio);
    FewerSamplesOk(drawn, w, window);
    QueueOk(drawn, w, r.captions, Tags(window));
    QueueKeepsSession(w, r.captions, Tags(window));
    FewerSamplesOk(drawn, Queue(w, r.captions, Tags(window)), drained);
  }

  lemma {:induction false} InferOk(drawn: seq<SessionId>, w: Worker, rounds: seq<Round>)
    requires WorkerOk(drawn, w)
    ensures WorkerOk(drawn, Infer(w, rounds)) && Infer(w, rounds).session == w.session
    decreases |rounds|
  {
    hide InferRound, WorkerOk;
    if rounds != [] {
      RoundOk(drawn, w, rounds[0]);
      InferOk(drawn, InferRound(w, rounds[0]), rounds[1..]);
    }
    InferKeepsSession(w, rounds);
  }

  lemma EmitOneOk(drawn: seq<SessionId>, w: Worker)
    requires WorkerOk(drawn, w)
    ensures WorkerOk(drawn, EmitOne(w).0) && RepliesOk(drawn, EmitOne(w).1)
    ensures EmitOne(w).0.(pending := w.pending, translator := w.translator) == w
  {
    if w.pending != [] {
      var segment := SegmentOf(w, w.pending[0]);
      assert OwnAudio(drawn, segment);
      if Accepts(w.translator, segment) {
        SubmitOk(drawn, w.session, w.translator, segment, w.sourceLang, w.targetLang);
      }
    }
  }

  lemma {:induction false} EmitAllOk(drawn: seq<SessionId>, w: Worker)
    requires WorkerOk(drawn, w)
    ensures WorkerOk(drawn, EmitAll(w).0) && RepliesOk(drawn, EmitAll(w).1)
    ensures EmitAll(w).0.(pending := w.pending, translator := w.translator) == w
    decreases |w.pending|
  {
    if w.pending != [] {
      EmitOneOk(drawn, w);
      EmitAllOk(drawn, EmitOne(w).0);
    }
  }

  lemma PoolOk(drawn: seq<SessionId>, w: Worker, step: PoolStep)
    requires WorkerOk(drawn, w)
    ensures WorkerOk(drawn, PoolDo(w, step).0) && RepliesOk(drawn, PoolDo(w, step).1)
    ensures PoolDo(w, step).0.(translator := w.translator) == w
  {
    hide Complete, FindNext, RemoveResult, BindResultText;
    match step
    case PoolTake =>
    case PoolComplete(job, outcome) =>
      if job in w.translator.inflight {
        CompleteOk(drawn, w.session, w.translator, job, outcome);
      }
    case PoolDeliver => DeliverOk(drawn, w.session, w.translator);
  }

  lemma {:induction false} DrainOk(drawn: seq<SessionId>, w: Worker, steps: seq<PoolStep>)
    requires WorkerOk(drawn, w)
    ensures WorkerOk(drawn, Drain(w, steps).0) && RepliesOk(drawn, Drain(w, steps).1)
    ensures Drain(w, steps).0.(translator := w.translator) == w
    decreases |steps|
  {
    if steps != [] {
      PoolOk(drawn, w, steps[0]);
      DrainOk(drawn, PoolDo(w, steps[0]).0, steps[1..]);
    }
  }

  lemma {:induction false} ReportsOk(drawn: seq<SessionId>, s: SessionId, rounds: seq<Round>)
    ensures RepliesOk(drawn, Reports(s, rounds))
    ensures forall i :: 0 <= i < |Reports(s, rounds)| ==> Reports(s, rounds)[i] == StatusReply(s)
    decreases |rounds|
  {
    if rounds != [] {
      ReportsOk(drawn, s, rounds[1..]);
    }
  }

  lemma InferAllOk(drawn: seq<SessionId>, w: Worker, c: Choice)
    requires WorkerOk(drawn, w)
    ensures WorkerOk(drawn, InferAll(w, c).0) && RepliesOk(drawn, InferAll(w, c).1)
  {
    InferOk(drawn, w, c.rounds);
    ReportsOk(drawn, w.session, c.rounds);
  }

  lemma FlushOk(drawn: seq<SessionId>, w: Worker, c: Choice)
    requires WorkerOk(drawn, w)
    ensures WorkerOk(drawn, FlushTail(w, c).0) && RepliesOk(drawn, FlushTail(w, c).1)
    ensures FlushTail(w, c).0.session == w.session
  {
    InferOk(drawn, w, c.rounds);
    EmitAllOk(drawn, Infer(w, c.rounds));
  }

  lemma AppendOk(drawn: seq<SessionId>, w: Worker, tag: nat, samples: nat, c: Choice)
    requires WorkerOk(drawn, w) && FromSession(drawn, w.session, {tag})
    ensures WorkerOk(drawn, w.(audio := Append(if c.discontinuity then [] else w.audio, tag, samples)))
  {
    var audio := Append(if c.discontinuity then [] else w.audio, tag, samples);
    forall t | t in Tags(audio)
      ensures t < |drawn| && drawn[t] == w.session
    {
      assert t == tag || t in Tags(w.audio);
      assert tag in {tag};
    }
  }

  lemma StartOk(drawn: seq<SessionId>, w: Worker, s: SessionId, tag: nat, hasUrl: bool, c: Choice)
    requires WorkerOk(drawn, w) && FromSession(drawn, s, {tag})
    ensures WorkerOk(drawn, HandleStart(w, s, tag, hasUrl, c).0) && RepliesOk(drawn, HandleStart(w, s, tag, hasUrl, c).1)
  {
    hide BeginNew, WorkerOk, DropBuffers;
    ReplacedOk(drawn, w);
    BeginNewOk(drawn, if w.active then DropBuffers(w).(decoder := None, active := false) else w, s, tag, hasUrl, c);
  }

  lemma ReplacedOk(drawn: seq<SessionId>, w: Worker)
    requires WorkerOk(drawn, w)
    ensures WorkerOk(drawn, DropBuffers(w).(decoder := None, active := false))
  {
  }

  lemma BeginNewOk(drawn: seq<SessionId>, w: Worker, s: SessionId, tag: nat, hasUrl: bool, c: Choice)
    requires WorkerOk(drawn, w) && FromSession(drawn, s, {tag})
    ensures WorkerOk(drawn, BeginNew(w, s, tag, hasUrl, c).0) && RepliesOk(drawn, BeginNew(w, s, tag, hasUrl, c).1)
  {
    InvalidateOk(drawn, w.session, s, w.translator);
  }

  lemma FinishOk(drawn: seq<SessionId>, w: Worker, audio: bool, translation: bool, c: Choice)
    requires WorkerOk(drawn, w)
    ensures var (w1, out1) := FinishAudio(w, audio, c);
            var (w2, out2) := FinishTranslation(w1, translation, c);
            WorkerOk(drawn, w2) && RepliesOk(drawn, out1 + out2) && w2.session == w.session
  {
    FlushOk(drawn, w, c);
    var w1 := FinishAudio(w, audio, c).0;
    DrainOk(drawn, w1, c.drain);
  }

  lemma StopOk(drawn: seq<SessionId>, w: Worker, s: SessionId, reason: nat, c: Choice)
    requires WorkerOk(drawn, w)
    ensures WorkerOk(drawn, HandleStop(w, s, reason, c).0) && RepliesOk(drawn, HandleStop(w, s, reason, c).1)
  {
    hide FinishAudio, FinishTranslation;
    if w.session == s {
      FinishOk(drawn, w, reason == REASON_MEDIA_END, reason != REASON_SEEK, c);
      var w2 := FinishTranslation(FinishAudio(w, reason == REASON_MEDIA_END, c).0, reason != REASON_SEEK, c).0;
      InvalidateOk(drawn, w2.session, w2.session, w2.translator);
    }
  }

  lemma AudioOk(drawn: seq<SessionId>, w: Worker, s: SessionId, tag: nat, samples: nat, c: Choice)
    requires WorkerOk(drawn, w) && FromSession(drawn, s, {tag})
    ensures WorkerOk(drawn, HandleAudio(w, s, tag, samples, c).0) && RepliesOk(drawn, HandleAudio(w, s, tag, samples, c).1)
  {
    if w.session == s {
      AppendOk(drawn, w, tag, samples, c);
      InferAllOk(drawn, w.(audio := Append(if c.discontinuity then [] else w.audio, tag, samples)), c);
    }
  }

  lemma ShutdownOk(drawn: seq<SessionId>, w: Worker, c: Choice)
    requires WorkerOk(drawn, w)
    ensures WorkerOk(drawn, HandleShutdown(w, c).0) && RepliesOk(drawn, HandleShutdown(w, c).1)
  {
    hide FinishAudio, FinishTranslation;
    FinishOk(drawn, w, w.active, true, c);
    var (w1, out1) := FinishAudio(w, w.active, c);
    var out2 := FinishTranslation(w1, true, c).1;
    RepliesParts(drawn, out1, out2);
  }

  lemma RepliesParts(drawn: seq<SessionId>, a: seq<FromWorker>, b: seq<FromWorker>)
    requires RepliesOk(drawn, a + b)
    ensures RepliesOk(drawn, a) && RepliesOk(drawn, b)
  {
    assert forall i :: 0 <= i < |a| ==> (a + b)[i] == a[i];
    assert forall i :: 0 <= i < |b| ==> (a + b)[|a| + i] == b[i];
  }

  lemma DecodeOk(drawn: seq<SessionId>, w: Worker, samples: nat, readError: bool, c: Choice)
    requires WorkerOk(drawn, w)
    ensures WorkerOk(drawn, DecodeStep(w, samples, readError, c).0) && RepliesOk(drawn, DecodeStep(w, samples, readError, c).1)
  {
    InvalidateOk(drawn, w.session, w.session, w.translator);
    if w.decoder.Some? {
      AppendOk(drawn, w, w.decoder.value, samples, c);
      InferAllOk(drawn, w.(audio := Append(if c.discontinuity then [] else w.audio, w.decoder.value, samples)), c);
    }
  }

  /** Every handler keeps each session's audio to itself, whatever frame arrives and whatever the environment chooses. */
  lemma HandleOk(drawn: seq<SessionId>, w: Worker, f: ToWorker, c: Choice)
    requires WorkerOk(drawn, w) && FrameOk(drawn, f)
    ensures WorkerOk(drawn, Handle(w, f, c).0) && RepliesOk(drawn, Handle(w, f, c).1)
  {
    InvalidateOk(drawn, w.session, w.session, w.translator);
    match f
    case StartFrame(s, tag, hasUrl, _) => StartOk(drawn, w, s, tag, hasUrl, c);
    case StopFrame(s, reason) => StopOk(drawn, w, s, reason, c);
    case AudioFrame(s, tag, samples) => AudioOk(drawn, w, s, tag, samples, c);
    case PauseFrame(_) =>
    case ResumeFrame(_) =>
    case PositionFrame(_, _) =>
    case TranslateFrame(_, _, _, _) =>
    case ShutdownFrame => ShutdownOk(drawn, w, c);
    case BadFrame =>
    case OtherFrame =>
  }

  /** Every step of the loop and of the pool does, if the frames it handles are tagged with their own session. */
  lemma DoOk(drawn: seq<SessionId>, w: Worker, a: Act)
    requires WorkerOk(drawn, w) && (a.Frame? ==> FrameOk(drawn, a.f))
    ensures WorkerOk(drawn, Do(w, a).0) && RepliesOk(drawn, Do(w, a).1)
  {
    hide WorkerOk, FrameOk, RepliesOk, Handle, DecodeStep, EmitOne, PoolDo;
    match a
    case Frame(f, c) => HandleOk(drawn, w, f, c);
    case Decoded(samples, readError, d) => DecodeOk(drawn, w, samples, readError, d);
    case Emits => EmitOneOk(drawn, w);
    case PoolActs(step) => PoolOk(drawn, w, step);
  }

  lemma {:induction false} DoAllOk(drawn: seq<SessionId>, w: Worker, acts: seq<Act>)
    requires WorkerOk(drawn, w) && forall i :: 0 <= i < |acts| && acts[i].Frame? ==> FrameOk(drawn, acts[i].f)
    ensures WorkerOk(drawn, DoAll(w, acts).0) && RepliesOk(drawn, DoAll(w, acts).1)
    decreases |acts|
  {
    hide WorkerOk, FrameOk, Do;
    if acts != [] {
      DoOk(drawn, w, acts[0]);
      DoAllOk(drawn, Do(w, acts[0]).0, acts[1..]);
    }
  }
}
