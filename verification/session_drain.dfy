/** Stopping a session loses no accepted caption. */
module SessionDrains {
  // The drain of worker_session.dfy is a run of the pipeline, so what it sends is what the pipeline's history says was
  // accepted and not yet delivered.

  import opened Captions
  import opened Pipelines
  import PipelineRuns
  import opened WorkerSession

  function EventOf(step: PoolStep): PipelineRuns.Event
  {
    match step
    case PoolTake => PipelineRuns.TakeJob
    case PoolComplete(job, outcome) => PipelineRuns.CompleteJob(job, outcome)
    case PoolDeliver => PipelineRuns.DeliverNext
  }

  function EventsOf(steps: seq<PoolStep>): seq<PipelineRuns.Event>
  {
    if steps == [] then [] else [EventOf(steps[0])] + EventsOf(steps[1..])
  }

  /** The replies are the captions of the results, in order. */
  ghost predicate Sent(replies: seq<FromWorker>, results: seq<Result>)
  {
    |replies| == |results| && forall i :: 0 <= i < |replies| ==> replies[i] == CaptionReply(results[i].segment)
  }

  /** One step of the drain is one event of the pipeline, and sends exactly what it delivers. */
  lemma StepDelivers(drawn: seq<SessionId>, w: Worker, world: PipelineRuns.World, step: PoolStep)
    returns (results: seq<Result>)
    requires WorkerOk(drawn, w) && w.active && world.p == w.translator
    ensures var next := PipelineRuns.Next(world, EventOf(step));
            && PoolDo(w, step).0.translator == next.p
            && next.log == world.log.(delivered := world.log.delivered + results)
            && next.past == world.past
            && Sent(PoolDo(w, step).1, results)
  {
    results := [];
    if step.PoolDeliver? {
      DeliverOk(drawn, w.session, w.translator);
      var r := Deliver(w.translator).1;
      if r.Some? {
        results := [r.value];
      }
    }
    assert world.log.delivered + [] == world.log.delivered;
  }

  lemma {:induction false} DrainDelivers(drawn: seq<SessionId>, w: Worker, world: PipelineRuns.World,
                                         steps: seq<PoolStep>)
    returns (delivered: seq<Result>)
    requires WorkerOk(drawn, w) && w.active && world.p == w.translator
    ensures var end := PipelineRuns.Run(world, EventsOf(steps));
            && Drain(w, steps).0.translator == end.p
            && end.log == world.log.(delivered := world.log.delivered + delivered)
            && end.past == world.past
            && Sent(Drain(w, steps).1, delivered)
    decreases |steps|
  {
    hide PoolDo, PipelineRuns.Next, WorkerOk, RepliesOk;
    if steps == [] {
      delivered := [];
      assert world.log.delivered + [] == world.log.delivered;
    } else {
      var first := StepDelivers(drawn, w, world, steps[0]);
      PoolOk(drawn, w, steps[0]);
      assert PoolDo(w, steps[0]).0.active;
      var next := PipelineRuns.Next(world, EventOf(steps[0]));
      var more := DrainDelivers(drawn, PoolDo(w, steps[0]).0, next, steps[1..]);
      delivered := first + more;
      assert EventsOf(steps)[1..] == EventsOf(steps[1..]);
      assert world.log.delivered + first + more == world.log.delivered + delivered;
      SentJoins(PoolDo(w, steps[0]).1, first, Drain(PoolDo(w, steps[0]).0, steps[1..]).1, more);
    }
  }

  lemma SentJoins(out1: seq<FromWorker>, results1: seq<Result>, out2: seq<FromWorker>, results2: seq<Result>)
    requires Sent(out1, results1) && Sent(out2, results2)
    ensures Sent(out1 + out2, results1 + results2)
  {
  }

  /** Nothing held anywhere: every accepted cue of the epoch has been delivered. */
  lemma NothingHeld(world: PipelineRuns.World)
    requires PipelineRuns.WorldInv(world) && !world.p.stopping && !HasPending(world.p)
    ensures |world.log.delivered| == |world.log.accepted|
    ensures forall i :: 0 <= i < |world.log.delivered| ==>
                          SameCue(world.log.delivered[i].segment, world.log.accepted[i])
  {
    assert !PipelineRuns.InResults(world.p.results, world.p.nextResult);
    assert !PipelineRuns.InFlight(world.p.inflight, world.p.epoch, world.p.nextResult);
  }

  // ----------------------------------------------------------- main results

  /** A drain that ends with nothing pending sends every accepted cue not delivered before, in order, once. */
  lemma DrainLosesNothing(drawn: seq<SessionId>, w: Worker, world: PipelineRuns.World, steps: seq<PoolStep>)
    requires WorkerOk(drawn, w) && w.active && world.p == w.translator
    requires PipelineRuns.WorldInv(world) && !world.p.stopping
    requires !HasPending(Drain(w, steps).0.translator)
    ensures var out, before := Drain(w, steps).1, |world.log.delivered|;
            && before + |out| == |world.log.accepted|
            && forall i :: 0 <= i < |out| ==>
                 out[i].CaptionReply? && SameCue(out[i].segment, world.log.accepted[before + i])
  {
    var delivered := DrainDelivers(drawn, w, world, steps);
    PipelineRuns.RunInv(world, EventsOf(steps));
    NotStopped(world, steps);
    NothingHeld(PipelineRuns.Run(world, EventsOf(steps)));
  }

  lemma {:induction false} NotStopped(world: PipelineRuns.World, steps: seq<PoolStep>)
    ensures PipelineRuns.Run(world, EventsOf(steps)).p.stopping == world.p.stopping
    decreases |steps|
  {
    if steps != [] {
      NotStopped(PipelineRuns.Next(world, EventOf(steps[0])), steps[1..]);
      assert EventsOf(steps)[1..] == EventsOf(steps[1..]);
    }
  }

  /** A user stop of the active session sends every accepted cue before the session closes, and then its status. */
  lemma UserStopDeliversAccepted(drawn: seq<SessionId>, w: Worker, world: PipelineRuns.World, c: Choice)
    requires WorkerOk(drawn, w) && w.active && w.running && world.p == w.translator
    requires PipelineRuns.WorldInv(world) && !world.p.stopping
    requires !HasPending(Drain(w, c.drain).0.translator)
    ensures var (after, out) := HandleStop(w, w.session, REASON_USER_STOP, c);
            var before := |world.log.delivered|;
            && !after.active && !HasPending(after.translator)
            && before + |out| == |world.log.accepted| + 1
            && out[|out| - 1] == StatusReply(w.session)
            && forall i :: 0 <= i < |out| - 1 ==>
                 out[i].CaptionReply? && SameCue(out[i].segment, world.log.accepted[before + i])
  {
    hide Drain, WorkerOk, PipelineRuns.WorldInv, SameCue;
    DrainLosesNothing(drawn, w, world, c.drain);
    DrainOk(drawn, w, c.drain);
    var sent := Drain(w, c.drain).1;
    assert [] + sent + [StatusReply(w.session)] == sent + [StatusReply(w.session)];
  }

  // ------------------------------------------------ the tail of the session

  /** The pending captions of the session, stamped with its id. */
  function Stamped(w: Worker): seq<CaptionSegment>
    decreases |w.pending|
  {
    if w.pending == [] then [] else [SegmentOf(w, w.pending[0])] + Stamped(w.(pending := w.pending[1..]))
  }

  /** When all the pending captions are emitted, those the translator takes. */
  function Submitted(w: Worker): seq<CaptionSegment>
    decreases |w.pending|
  {
    if w.pending == [] then []
    else (if TakesFirst(w) then [SegmentOf(w, w.pending[0])] else []) + Submitted(EmitOne(w).0)
  }

  /** And those that are sent untranslated at once. */
  function SentAtOnce(w: Worker): seq<CaptionSegment>
    decreases |w.pending|
  {
    if w.pending == [] then []
    else (if TakesFirst(w) then [] else [SegmentOf(w, w.pending[0])]) + SentAtOnce(EmitOne(w).0)
  }

  predicate TakesFirst(w: Worker)
    requires w.pending != []
  {
    w.translating && Accepts(w.translator, SegmentOf(w, w.pending[0]))
  }

  /** Each element of `all` is in one of the two, and each of them keeps the order. */
  ghost predicate Interleaves<T(!new)>(all: seq<T>, a: seq<T>, b: seq<T>)
    decreases |all|
  {
    if all == [] then a == [] && b == []
    else || (a != [] && a[0] == all[0] && Interleaves(all[1..], a[1..], b))
         || (b != [] && b[0] == all[0] && Interleaves(all[1..], a, b[1..]))
  }

  /** The replies are these cues, in order. */
  ghost predicate SentCues(replies: seq<FromWorker>, cues: seq<CaptionSegment>)
  {
    && |replies| == |cues|
    && forall i :: 0 <= i < |replies| ==> replies[i].CaptionReply? && SameCue(replies[i].segment, cues[i])
  }

  lemma SentCuesJoin(out1: seq<FromWorker>, cues1: seq<CaptionSegment>, out2: seq<FromWorker>, cues2: seq<CaptionSegment>)
    requires SentCues(out1, cues1) && SentCues(out2, cues2)
    ensures SentCues(out1 + out2, cues1 + cues2)
  {
  }

  /** Every pending caption is submitted or sent, never both, and each in order. */
  lemma {:induction false} TailIsEmitted(w: Worker)
    ensures Interleaves(Stamped(w), Submitted(w), SentAtOnce(w)) && SentCues(EmitAll(w).1, SentAtOnce(w))
    decreases |w.pending|
  {
    if w.pending != [] {
      hide EmitOne, SegmentOf, SentCues;
      OneIsEmitted(w);
      TailIsEmitted(EmitOne(w).0);
      var first, rest := SegmentOf(w, w.pending[0]), EmitOne(w).0;
      assert Stamped(w) == [first] + Stamped(rest) && Stamped(w)[1..] == Stamped(rest);
      if TakesFirst(w) {
        assert Submitted(w)[1..] == Submitted(rest) && SentAtOnce(w) == SentAtOnce(rest);
        assert EmitAll(w).1 == EmitAll(rest).1;
      } else {
        assert SentAtOnce(w)[1..] == SentAtOnce(rest) && Submitted(w) == Submitted(rest);
        SentCuesJoin(EmitOne(w).1, [first], EmitAll(rest).1, SentAtOnce(rest));
      }
    }
  }

  lemma OneIsEmitted(w: Worker)
    requires w.pending != []
    ensures EmitOne(w).0.pending == w.pending[1..]
    ensures Stamped(EmitOne(w).0) == Stamped(w.(pending := w.pending[1..]))
    ensures if TakesFirst(w) then EmitOne(w).1 == [] else SentCues(EmitOne(w).1, [SegmentOf(w, w.pending[0])])
  {
    hide Submit, Accepts;
    SameStamps(EmitOne(w).0, w.(pending := w.pending[1..]));
  }

  /** The stamps depend on the session and the captions only. */
  lemma {:induction false} SameStamps(w: Worker, v: Worker)
    requires w.session == v.session && w.pending == v.pending
    ensures Stamped(w) == Stamped(v)
    decreases |w.pending|
  {
    if w.pending != [] {
      SameStamps(w.(pending := w.pending[1..]), v.(pending := v.pending[1..]));
    }
  }

  /** In the pipeline the emission is a run that accepts exactly the captions the translator takes. */
  lemma {:induction false} TailIsAccepted(w: Worker, world: PipelineRuns.World) returns (end: PipelineRuns.World)
    requires world.p == w.translator && PipelineRuns.WorldInv(world)
    ensures PipelineRuns.WorldInv(end) && end.p == EmitAll(w).0.translator && end.p.stopping == world.p.stopping
    ensures end.log == world.log.(accepted := world.log.accepted + Submitted(w))
    decreases |w.pending|
  {
    hide PipelineRuns.WorldInv, Accepts;
    if w.pending == [] {
      end := world;
      assert world.log.accepted + [] == world.log.accepted;
    } else {
      var next := world;
      if TakesFirst(w) {
        var e := PipelineRuns.SubmitCue(SegmentOf(w, w.pending[0]), w.sourceLang, w.targetLang);
        PipelineRuns.NextInv(world, e);
        next := PipelineRuns.Next(world, e);
      }
      end := TailIsAccepted(EmitOne(w).0, next);
      assert end.log.accepted == world.log.accepted + Submitted(w);
    }
  }

  /** The worker at the end of a session, with the captions of the tail pending; without a flush there are none. */
  function Flushed(w: Worker, wanted: bool, c: Choice): Worker
  {
    if wanted && !w.sourceMode && w.audio != [] then Infer(w, c.rounds) else w.(pending := [])
  }

  /**
    The end of an active session, when the recogniser does not fail and the drain comes to its end: the captions of the
    tail go out at once or join the accepted cues, and every accepted cue not delivered before is sent, in order, once.
   */
  lemma FinishDeliversAll(drawn: seq<SessionId>, w: Worker, world: PipelineRuns.World, wanted: bool, c: Choice)
    requires WorkerOk(drawn, w) && w.active && w.running && world.p == w.translator
    requires PipelineRuns.WorldInv(world) && !world.p.stopping && c.inferenceOk
    requires !HasPending(Finished(w, wanted, c).translator)
    ensures var tail := Flushed(w, wanted, c);
            var out1 := FinishAudio(w, wanted, c).1;
            var out2 := FinishTranslation(FinishAudio(w, wanted, c).0, true, c).1;
            && Interleaves(Stamped(tail), Submitted(tail), SentAtOnce(tail))
            && SentCues(out1, SentAtOnce(tail))
            && |world.log.delivered| <= |world.log.accepted|
            && SentCues(out2, world.log.accepted[|world.log.delivered|..] + Submitted(tail))
  {
    hide WorkerOk, PipelineRuns.WorldInv, Drain, SameCue, Infer;
    var tail := Flushed(w, wanted, c);
    InferKeepsSession(w, c.rounds);
    TailIsEmitted(tail);
    var w1 := FinishAudio(w, wanted, c).0;
    var end := TailIsAccepted(tail, world);
    FinishOk(drawn, w, wanted, false, c);
    EmitAllKeepsSession(tail);
    WithinAccepted(world);
    DrainLosesNothing(drawn, w1, end, c.drain);
    var out2, cues := Drain(w1, c.drain).1, world.log.accepted[|world.log.delivered|..] + Submitted(tail);
    assert end.log.accepted[|world.log.delivered|..] == cues;
    forall i | 0 <= i < |out2|
      ensures out2[i].CaptionReply? && SameCue(out2[i].segment, cues[i])
    {
      assert cues[i] == end.log.accepted[|world.log.delivered| + i];
    }
  }

  lemma WithinAccepted(world: PipelineRuns.World)
    requires PipelineRuns.WorldInv(world) && !world.p.stopping
    ensures |world.log.delivered| == world.p.nextResult - 1 <= |world.log.accepted| == world.p.nextSubmit - 1
  {
  }
}
