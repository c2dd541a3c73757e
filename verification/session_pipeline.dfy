/**
  The translator inside the session model only ever makes the pipeline's own steps. So every theorem about all runs of
  the pipeline holds of the translator in every run of the whole system, and nothing accepted is lost when the user
  stops a session, when its media end, or when the worker shuts down.
 */
module SessionPipelines {
  import opened Captions
  import opened Pipelines
  import PipelineRuns
  import opened SessionDrains
  import SessionEpochs
  import opened WorkerSession

  /** The pipeline's part of a run; it does not depend on the history kept beside it. */
  function Steps(p: Pipeline, events: seq<PipelineRuns.Event>): Pipeline
    decreases |events|
  {
    if events == [] then p
    else Steps(PipelineRuns.Next(PipelineRuns.World(p, PipelineRuns.EpochLog(0, [], []), []), events[0]).p, events[1..])
  }

  lemma {:induction false} StepsOfRun(world: PipelineRuns.World, events: seq<PipelineRuns.Event>)
    ensures PipelineRuns.Run(world, events).p == Steps(world.p, events)
    decreases |events|
  {
    if events != [] {
      StepsOfRun(PipelineRuns.Next(world, events[0]), events[1..]);
    }
  }

  /** q is reached from p by the pipeline's steps; the pool is not stopped by any of them. */
  ghost predicate Evolves(p: Pipeline, q: Pipeline)
  {
    q.stopping == p.stopping && exists events :: Steps(p, events) == q
  }

  lemma Stays(p: Pipeline)
    ensures Evolves(p, p)
  {
    assert Steps(p, []) == p;
  }

  lemma OneStep(p: Pipeline, e: PipelineRuns.Event)
    requires !e.DestroyAll?
    ensures Evolves(p, PipelineRuns.Next(PipelineRuns.World(p, PipelineRuns.EpochLog(0, [], []), []), e).p)
  {
    assert [e][1..] == [];
    assert Steps(p, [e]) == PipelineRuns.Next(PipelineRuns.World(p, PipelineRuns.EpochLog(0, [], []), []), e).p;
  }

  lemma {:induction false} StepsConcat(p: Pipeline, a: seq<PipelineRuns.Event>, b: seq<PipelineRuns.Event>)
    ensures Steps(p, a + b) == Steps(Steps(p, a), b)
    decreases |a|
  {
    if a == [] {
      assert a + b == b;
    } else {
      assert (a + b)[1..] == a[1..] + b;
      StepsConcat(PipelineRuns.Next(PipelineRuns.World(p, PipelineRuns.EpochLog(0, [], []), []), a[0]).p, a[1..], b);
    }
  }

  lemma Then(p: Pipeline, q: Pipeline, r: Pipeline)
    requires Evolves(p, q) && Evolves(q, r)
    ensures Evolves(p, r)
  {
    var a :| Steps(p, a) == q;
    var b :| Steps(q, b) == r;
    StepsConcat(p, a, b);
  }

  lemma Invalidates(p: Pipeline)
    ensures Evolves(p, Invalidate(p))
  {
    OneStep(p, PipelineRuns.InvalidateEpoch);
  }

  lemma EmitOneEvolves(w: Worker)
    ensures Evolves(w.translator, EmitOne(w).0.translator)
  {
    Stays(w.translator);
    if w.pending != [] && w.translating {
      OneStep(w.translator, PipelineRuns.SubmitCue(SegmentOf(w, w.pending[0]), w.sourceLang, w.targetLang));
    }
  }

  lemma {:induction false} EmitAllEvolves(w: Worker)
    ensures Evolves(w.translator, EmitAll(w).0.translator)
    decreases |w.pending|
  {
    hide Evolves;
    if w.pending == [] {
      Stays(w.translator);
    } else {
      EmitOneEvolves(w);
      EmitAllEvolves(EmitOne(w).0);
      Then(w.translator, EmitOne(w).0.translator, EmitAll(w).0.translator);
    }
  }

  lemma PoolEvolves(w: Worker, step: PoolStep)
    ensures Evolves(w.translator, PoolDo(w, step).0.translator)
  {
    OneStep(w.translator, EventOf(step));
  }

  lemma {:induction false} DrainEvolves(w: Worker, steps: seq<PoolStep>)
    ensures Evolves(w.translator, Drain(w, steps).0.translator)
    decreases |steps|
  {
    hide Evolves;
    if steps == [] {
      Stays(w.translator);
    } else {
      PoolEvolves(w, steps[0]);
      DrainEvolves(PoolDo(w, steps[0]).0, steps[1..]);
      Then(w.translator, PoolDo(w, steps[0]).0.translator, Drain(w, steps).0.translator);
    }
  }

  lemma FinishAudioEvolves(w: Worker, wanted: bool, c: Choice)
    ensures Evolves(w.translator, FinishAudio(w, wanted, c).0.translator)
  {
    hide Evolves;
    Stays(w.translator);
    InferKeepsSession(w, c.rounds);
    EmitAllEvolves(Infer(w, c.rounds));
  }

  lemma FinishTranslationEvolves(w: Worker, wanted: bool, c: Choice)
    ensures Evolves(w.translator, FinishTranslation(w, wanted, c).0.translator)
  {
    hide Evolves;
    Stays(w.translator);
    DrainEvolves(w, c.drain);
  }

  lemma StopEvolves(w: Worker, s: SessionId, reason: nat, c: Choice)
    ensures Evolves(w.translator, HandleStop(w, s, reason, c).0.translator)
  {
    hide Evolves, FinishAudio, FinishTranslation;
    Stays(w.translator);
    var w1 := FinishAudio(w, reason == REASON_MEDIA_END, c).0;
    var w2 := FinishTranslation(w1, reason != REASON_SEEK, c).0;
    FinishAudioEvolves(w, reason == REASON_MEDIA_END, c);
    FinishTranslationEvolves(w1, reason != REASON_SEEK, c);
    Then(w.translator, w1.translator, w2.translator);
    Invalidates(w2.translator);
    Then(w.translator, w2.translator, Invalidate(w2.translator));
  }

  lemma ShutdownEvolves(w: Worker, c: Choice)
    ensures Evolves(w.translator, HandleShutdown(w, c).0.translator)
  {
    hide Evolves, FinishAudio, FinishTranslation;
    var w1 := FinishAudio(w, w.active, c).0;
    FinishAudioEvolves(w, w.active, c);
    FinishTranslationEvolves(w1, true, c);
    Then(w.translator, w1.translator, FinishTranslation(w1, true, c).0.translator);
  }

  /** A handler leaves the translator alone, invalidates it, or does what the drain and the emission do. */
  lemma HandleEvolves(w: Worker, f: ToWorker, c: Choice)
    ensures Evolves(w.translator, Handle(w, f, c).0.translator)
  {
    hide Evolves;
    Stays(w.translator);
    Invalidates(w.translator);
    match f
    case StopFrame(s, reason) => StopEvolves(w, s, reason, c);
    case ShutdownFrame => ShutdownEvolves(w, c);
    case AudioFrame(s, tag, samples) => AudioKeeps(w, s, tag, samples, c);
    case _ =>
  }

  lemma AudioKeeps(w: Worker, s: SessionId, tag: nat, samples: nat, c: Choice)
    ensures HandleAudio(w, s, tag, samples, c).0.translator == w.translator
  {
    InferKeepsSession(w.(audio := Append(if c.discontinuity then [] else w.audio, tag, samples)), c.rounds);
  }

  lemma DecodeEvolves(w: Worker, samples: nat, readError: bool, c: Choice)
    ensures Evolves(w.translator, DecodeStep(w, samples, readError, c).0.translator)
  {
    hide Evolves;
    Stays(w.translator);
    Invalidates(w.translator);
    if w.decoder.Some? {
      InferKeepsSession(w.(audio := Append(if c.discontinuity then [] else w.audio, w.decoder.value, samples)), c.rounds);
    }
  }

  lemma NextEvolves(s: SessionEpochs.System, e: SessionEpochs.Event)
    ensures Evolves(s.worker.translator, SessionEpochs.Next(s, e).worker.translator)
  {
    hide Evolves, Handle, DecodeStep, EmitOne, PoolDo;
    Stays(s.worker.translator);
    match e
    case WorkerHandle(c) =>
      if s.queue != [] {
        HandleEvolves(s.worker, s.queue[0], c);
      }
    case WorkerDecode(samples, readError, d) => DecodeEvolves(s.worker, samples, readError, d);
    case WorkerEmit => EmitOneEvolves(s.worker);
    case WorkerPool(step) => PoolEvolves(s.worker, step);
    case _ =>
  }

  lemma {:induction false} RunEvolves(s: SessionEpochs.System, events: seq<SessionEpochs.Event>)
    ensures Evolves(s.worker.translator, SessionEpochs.Run(s, events).worker.translator)
    decreases |events|
  {
    hide Evolves, SessionEpochs.Next;
    if events == [] {
      Stays(s.worker.translator);
    } else {
      var n := SessionEpochs.Next(s, events[0]);
      NextEvolves(s, events[0]);
      RunEvolves(n, events[1..]);
      Then(s.worker.translator, n.worker.translator, SessionEpochs.Run(s, events).worker.translator);
    }
  }

  // ----------------------------------------------------------- main results

  /** In every run of the whole system the translator is in a state some run of the pipeline alone leads to. */
  lemma TranslatorIsAPipelineRun(events: seq<SessionEpochs.Event>) returns (steps: seq<PipelineRuns.Event>)
    ensures PipelineRuns.Run(PipelineRuns.Start, steps).p ==
            SessionEpochs.Run(SessionEpochs.Begin, events).worker.translator
    ensures !SessionEpochs.Run(SessionEpochs.Begin, events).worker.translator.stopping
  {
    RunEvolves(SessionEpochs.Begin, events);
    steps :| Steps(Init, steps) == SessionEpochs.Run(SessionEpochs.Begin, events).worker.translator;
    StepsOfRun(PipelineRuns.Start, steps);
  }

  /** The history that goes with the translator of a reachable system. */
  lemma ReachableHistory(events: seq<SessionEpochs.Event>) returns (world: PipelineRuns.World)
    ensures PipelineRuns.WorldInv(world) && !world.p.stopping
    ensures world.p == SessionEpochs.Run(SessionEpochs.Begin, events).worker.translator
    ensures |world.log.accepted| == world.p.nextSubmit - 1
    ensures |world.log.delivered| == world.p.nextResult - 1 <= |world.log.accepted|
  {
    var steps := TranslatorIsAPipelineRun(events);
    PipelineRuns.RunInv(PipelineRuns.Start, steps);
    world := PipelineRuns.Run(PipelineRuns.Start, steps);
  }

  /**
    The replies send every cue the translator holds, wherever it holds it, in the order of the ordinals, and then these
    captions.
   */
  ghost predicate SendsHeld(p: Pipeline, replies: seq<FromWorker>, more: seq<CaptionSegment>)
  {
    && (forall o: nat :: PipelineRuns.Held(p, o) <==> p.nextResult <= o < p.nextSubmit)
    && p.nextResult <= p.nextSubmit
    && |replies| == p.nextSubmit - p.nextResult + |more|
    && (forall i :: 0 <= i < p.nextSubmit - p.nextResult ==>
          && replies[i].CaptionReply?
          && SameCue(replies[i].segment, PipelineRuns.CueAt(p, p.nextResult + i)))
    && SentCues(replies[p.nextSubmit - p.nextResult..], more)
  }

  /** The undelivered part of the history is what the translator holds. */
  lemma HeldAreSent(world: PipelineRuns.World, replies: seq<FromWorker>, more: seq<CaptionSegment>)
    requires PipelineRuns.WorldInv(world) && !world.p.stopping && |world.log.delivered| <= |world.log.accepted|
    requires SentCues(replies, world.log.accepted[|world.log.delivered|..] + more)
    ensures SendsHeld(world.p, replies, more)
  {
    hide PipelineRuns.WorldInv, PipelineRuns.Held, PipelineRuns.CueAt;
    WithinAccepted(world);
    var p, cues := world.p, world.log.accepted[|world.log.delivered|..] + more;
    forall o: nat
      ensures PipelineRuns.Held(p, o) <==> p.nextResult <= o < p.nextSubmit
    {
      PipelineRuns.HeldIsAccepted(world, o);
    }
    forall i | 0 <= i < p.nextSubmit - p.nextResult
      ensures replies[i].CaptionReply? && SameCue(replies[i].segment, PipelineRuns.CueAt(p, p.nextResult + i))
    {
      PipelineRuns.HeldIsAccepted(world, p.nextResult + i);
      assert SameCue(replies[i].segment, cues[i]);
    }
    assert forall i :: 0 <= i < |more| ==> cues[p.nextSubmit - p.nextResult + i] == more[i];
  }

  /**
    In every run of the whole system, at the end of a running session whose recogniser does not fail and whose drain comes
    to its end, no caption is lost: those of the tail are sent at once or submitted, each in order, and then every cue the
    translator holds and every one submitted is sent in order.
   */
  lemma EndLosesNothing(events: seq<SessionEpochs.Event>, wanted: bool, c: Choice)
    requires var w := SessionEpochs.Run(SessionEpochs.Begin, events).worker;
             && w.active && w.running && c.inferenceOk
             && !HasPending(Finished(w, wanted, c).translator)
    ensures var w := SessionEpochs.Run(SessionEpochs.Begin, events).worker;
            var tail := Flushed(w, wanted, c);
            && Interleaves(Stamped(tail), Submitted(tail), SentAtOnce(tail))
            && SentCues(FinishAudio(w, wanted, c).1, SentAtOnce(tail))
            && SendsHeld(w.translator, FinishTranslation(FinishAudio(w, wanted, c).0, true, c).1, Submitted(tail))
  {
    hide PipelineRuns.WorldInv, WorkerOk, FinishAudio, FinishTranslation, HasPending, Flushed, SendsHeld, SentCues;
    hide Interleaves;
    var s := SessionEpochs.Run(SessionEpochs.Begin, events);
    SessionEpochs.ReachableInv(events);
    var world := ReachableHistory(events);
    FinishDeliversAll(s.drawn, s.worker, world, wanted, c);
    HeldAreSent(world, FinishTranslation(FinishAudio(s.worker, wanted, c).0, true, c).1,
                Submitted(Flushed(s.worker, wanted, c)));
  }

  /** So it is when the media ends: the captions of the tail, those held, and then the status. */
  lemma MediaEndLosesNothing(events: seq<SessionEpochs.Event>, c: Choice)
    requires var w := SessionEpochs.Run(SessionEpochs.Begin, events).worker;
             && w.active && w.running && c.inferenceOk
             && !HasPending(Finished(w, true, c).translator)
    ensures var w := SessionEpochs.Run(SessionEpochs.Begin, events).worker;
            var tail, out := Flushed(w, true, c), HandleStop(w, w.session, REASON_MEDIA_END, c).1;
            && Interleaves(Stamped(tail), Submitted(tail), SentAtOnce(tail))
            && |SentAtOnce(tail)| < |out| && out[|out| - 1] == StatusReply(w.session)
            && SentCues(out[..|SentAtOnce(tail)|], SentAtOnce(tail))
            && SendsHeld(w.translator, out[|SentAtOnce(tail)|..|out| - 1], Submitted(tail))
  {
    hide FinishAudio, FinishTranslation, HasPending, Flushed, SendsHeld, Interleaves;
    EndLosesNothing(events, true, c);
    var w := SessionEpochs.Run(SessionEpochs.Begin, events).worker;
    EndKeepsRunning(w, true, c);
    var (w1, out1) := FinishAudio(w, true, c);
    var out2 := FinishTranslation(w1, true, c).1;
    InParts(out1, out2, [StatusReply(w.session)]);
  }

  /** And when the worker is shut down; the status comes before the captions held, if the tail was flushed. */
  lemma ShutdownLosesNothing(events: seq<SessionEpochs.Event>, c: Choice)
    requires var w := SessionEpochs.Run(SessionEpochs.Begin, events).worker;
             && w.active && w.running && c.inferenceOk
             && !HasPending(Finished(w, true, c).translator)
    ensures var w := SessionEpochs.Run(SessionEpochs.Begin, events).worker;
            var tail, out := Flushed(w, true, c), HandleShutdown(w, c).1;
            var n := |SentAtOnce(tail)|;
            var held := n + (if !w.sourceMode && w.audio != [] then 1 else 0);
            && Interleaves(Stamped(tail), Submitted(tail), SentAtOnce(tail))
            && held <= |out| && (n < held ==> out[n] == StatusReply(w.session))
            && SentCues(out[..n], SentAtOnce(tail))
            && SendsHeld(w.translator, out[held..], Submitted(tail))
  {
    hide FinishAudio, FinishTranslation, HasPending, Flushed, SendsHeld, Interleaves, SentAtOnce, CloseDecoder;
    EndLosesNothing(events, true, c);
    var w := SessionEpochs.Run(SessionEpochs.Begin, events).worker;
    var (w1, out1) := FinishAudio(w, true, c);
    var out2 := FinishTranslation(w1, true, c).1;
    InParts(out1, if !w.sourceMode && w.audio != [] then [StatusReply(w.session)] else [], out2);
  }

  lemma InParts(a: seq<FromWorker>, b: seq<FromWorker>, c: seq<FromWorker>)
    ensures var all := a + b + c;
            all[..|a|] == a && all[|a|..|a| + |b|] == b && all[|a| + |b|..] == c
  {
  }

  lemma EndKeepsRunning(w: Worker, wanted: bool, c: Choice)
    requires w.running && c.inferenceOk
    ensures Finished(w, wanted, c).running
  {
    FinishAudioKeeps(w, wanted, c);
    DrainKeepsRunning(FinishAudio(w, wanted, c).0, c.drain);
  }

  lemma {:induction false} DrainKeepsRunning(w: Worker, steps: seq<PoolStep>)
    ensures Drain(w, steps).0.running == w.running
    decreases |steps|
  {
    if steps != [] {
      DrainKeepsRunning(PoolDo(w, steps[0]).0, steps[1..]);
    }
  }

  /**
    A user stop of a running session whose drain comes to its end sends one caption for every cue the translator still
    holds, in the order of their ordinals, and then the status.
   */
  lemma UserStopLosesNothing(events: seq<SessionEpochs.Event>, c: Choice)
    requires var w := SessionEpochs.Run(SessionEpochs.Begin, events).worker;
             w.active && w.running && !HasPending(Drain(w, c.drain).0.translator)
    ensures var w := SessionEpochs.Run(SessionEpochs.Begin, events).worker;
            var p, out := w.translator, HandleStop(w, w.session, REASON_USER_STOP, c).1;
            && out != [] && out[|out| - 1] == StatusReply(w.session)
            && SendsHeld(p, out[..|out| - 1], [])
  {
    hide PipelineRuns.WorldInv, WorkerOk, HandleStop, Drain, HasPending, SendsHeld;
    var s := SessionEpochs.Run(SessionEpochs.Begin, events);
    SessionEpochs.ReachableInv(events);
    var world := ReachableHistory(events);
    UserStopDeliversAccepted(s.drawn, s.worker, world, c);
    var out := HandleStop(s.worker, s.worker.session, REASON_USER_STOP, c).1;
    var undelivered := world.log.accepted[|world.log.delivered|..];
    assert undelivered + [] == undelivered;
    HeldAreSent(world, out[..|out| - 1], []);
  }
}
