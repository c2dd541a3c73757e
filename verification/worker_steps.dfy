/**
  Steps of the session model put together: rounds, emissions, drains and the ends of sessions in the parts in which the
  worker's loop makes them. One more round, emission, delivery or act at the end of a list is the model's step; the acts
  of a whole turn of the loop are put in order and told apart as events of the system.
 */
module WorkerSteps {
  import AudioTimeline
  import opened Captions
  import opened ChunkCutter
  import opened CueProvenance
  import CueTimeline
  import opened Pipelines
  import opened PipelineRuns
  import SessionEpochs
  import opened TailFlush
  import opened WorkerSession

  const NoChoice := Choice(false, false, false, false, false, false, false, false, [], true, [])

  /** Whether the flush goes through, and what it leaves. */
  ghost function FlushResult(b: AudioTimeline.Buffer, listen: Listener): (bool, AudioTimeline.Buffer)
  {
    (Flush(b, 0, listen).ok, Flush(b, 0, listen).rest)
  }

  lemma FlushShrinks(b: AudioTimeline.Buffer, listen: Listener)
    requires b.frac <= 1
    ensures var (ok, rest) := FlushResult(b, listen); |rest.samples| <= |b.samples| && (ok ==> rest.samples == [])
  {
    FlushPartitionsAudio(b, 0, listen);
    var r := Flush(b, 0, listen);
    assert |b.samples| == |SamplesOf(r.chunks) + r.rest.samples|;
  }

  lemma QueueNothing(w: Worker, origin: set<nat>)
    ensures Queue(w, [], origin) == w
  {
  }

  lemma InferNothing(w: Worker)
    ensures Infer(w, []) == w && Reports(w.session, []) == []
  {
  }

  lemma {:induction false} InferOneMore(w: Worker, rounds: seq<Round>, r: Round)
    ensures Infer(w, rounds + [r]) == InferRound(Infer(w, rounds), r)
    decreases |rounds|
  {
    hide InferRound;
    if rounds == [] {
      assert [r][1..] == [] && rounds + [r] == [r];
      assert Infer(InferRound(w, r), []) == InferRound(w, r);
    } else {
      assert (rounds + [r])[1..] == rounds[1..] + [r];
      InferOneMore(InferRound(w, rounds[0]), rounds[1..], r);
    }
  }

  lemma {:induction false} ReportsOneMore(s: SessionId, rounds: seq<Round>, r: Round)
    ensures Reports(s, rounds + [r]) == Reports(s, rounds) + (if r.reports then [StatusReply(s)] else [])
    decreases |rounds|
  {
    if rounds == [] {
      assert [r][1..] == [] && rounds + [r] == [r];
      assert Reports(s, []) == [];
    } else {
      assert (rounds + [r])[1..] == rounds[1..] + [r];
      ReportsOneMore(s, rounds[1..], r);
      SentInOrder(if rounds[0].reports then [StatusReply(s)] else [], Reports(s, rounds[1..]),
                  if r.reports then [StatusReply(s)] else []);
    }
  }

  function Drained(w: Worker, n: nat): Worker
  {
    w.(audio := if n < |w.audio| then w.audio[n..] else [])
  }

  /** A round whose window lies inside the buffered audio. */
  lemma RoundByHand(w: Worker, r: Round)
    requires r.window <= |w.audio|
    ensures InferRound(w, r) ==
            Queue(w, r.captions, Tags(w.audio[..r.window])).(audio := Drained(w, r.drained).audio)
    ensures r.drained == 0 ==> InferRound(w, r) == Queue(w, r.captions, Tags(w.audio[..r.window])).(audio := w.audio)
  {
    if r.window == |w.audio| {
      assert w.audio[..r.window] == w.audio;
    }
    assert w.audio[0..] == w.audio;
  }

  lemma SentInOrder(before: seq<FromWorker>, first: seq<FromWorker>, more: seq<FromWorker>)
    ensures before + (first + more) == before + first + more
  {
  }

  lemma NoMore(before: seq<FromWorker>)
    ensures before + [] == before
  {
  }

  /** A step that follows what has been sent. */
  ghost function Then(before: seq<FromWorker>, step: (Worker, seq<FromWorker>)): (Worker, seq<FromWorker>)
  {
    (step.0, before + step.1)
  }

  lemma EmitAllStep(w: Worker)
    ensures EmitAll(w) == if w.pending == [] then (w, []) else Then(EmitOne(w).1, EmitAll(EmitOne(w).0))
    ensures w.pending != [] ==> |EmitOne(w).0.pending| < |w.pending|
  {
  }

  lemma RefusedChangesNothing(p: Pipeline, segment: CaptionSegment, from: string, to: string)
    ensures !Accepts(p, segment) ==> Submit(p, segment, from, to) == p
  {
  }

  lemma EmitNothing(w: Worker)
    requires w.pending == []
    ensures EmitOne(w) == (w, [])
  {
  }

  lemma DrainNothing(w: Worker)
    ensures Drain(w, []) == (w, [])
  {
  }

  lemma DeliverIsPoolStep(w: Worker)
    ensures PoolDo(w, PoolDeliver) == DeliverOne(w)
  {
  }

  lemma {:induction false} DrainOneMore(w: Worker, steps: seq<PoolStep>, step: PoolStep)
    ensures var (mid, out) := Drain(w, steps);
            Drain(w, steps + [step]) == (PoolDo(mid, step).0, out + PoolDo(mid, step).1)
    decreases |steps|
  {
    hide PoolDo;
    if steps == [] {
      assert steps + [step] == [step] && [step][1..] == [];
      assert Drain(PoolDo(w, step).0, []) == (PoolDo(w, step).0, []);
      NoMore(PoolDo(w, step).1);
      assert [] + PoolDo(w, step).1 == PoolDo(w, step).1;
    } else {
      assert (steps + [step])[1..] == steps[1..] + [step];
      var w1 := PoolDo(w, steps[0]).0;
      DrainOneMore(w1, steps[1..], step);
      SentInOrder(PoolDo(w, steps[0]).1, Drain(w1, steps[1..]).1, PoolDo(Drain(w1, steps[1..]).0, step).1);
    }
  }

  /** What the pool does between one look and the next, each look followed by a delivery. */
  function Looks(turns: seq<seq<PoolStep>>): seq<PoolStep>
  {
    if turns == [] then [] else Looks(turns[..|turns| - 1]) + turns[|turns| - 1] + [PoolDeliver]
  }

  /** The loop looked on as long as something was pending, and no longer. */
  ghost predicate Waited(w: Worker, turns: seq<seq<PoolStep>>, steps: seq<PoolStep>)
  {
    exists k: nat :: k <= |turns| && steps == Looks(turns[..k]) && FirstIdle(w, turns, k)
  }

  lemma LookedOnce(turns: seq<seq<PoolStep>>, turn: seq<PoolStep>)
    ensures Looks([]) == [] && Looks(turns + [turn]) == Looks(turns) + turn + [PoolDeliver]
  {
    assert (turns + [turn])[..|turns|] == turns;
  }

  /** The steps of the wait for accepted cues, where there is one. */
  ghost predicate DrainOf(w: Worker, wanted: bool, turns: seq<seq<PoolStep>>, steps: seq<PoolStep>)
  {
    if wanted && w.active && w.running then Waited(w, turns, steps) else steps == []
  }

  ghost predicate FirstIdle(w: Worker, turns: seq<seq<PoolStep>>, k: nat)
    requires k <= |turns|
  {
    PendingUntil(w, turns, k) && (k < |turns| ==> !HasPending(Drain(w, Looks(turns[..k])).0.translator))
  }

  ghost predicate PendingUntil(w: Worker, turns: seq<seq<PoolStep>>, k: nat)
    requires k <= |turns|
  {
    forall j: nat :: j < k ==> HasPending(Drain(w, Looks(turns[..j])).0.translator)
  }

  lemma PendingNever(w: Worker, turns: seq<seq<PoolStep>>)
    ensures PendingUntil(w, turns, 0)
  {
  }

  lemma PendingOnce(w: Worker, turns: seq<seq<PoolStep>>, k: nat)
    requires k < |turns| && PendingUntil(w, turns, k) && HasPending(Drain(w, Looks(turns[..k])).0.translator)
    ensures PendingUntil(w, turns, k + 1)
  {
  }

  lemma IdleFirst(w: Worker, turns: seq<seq<PoolStep>>, k: nat)
    requires k <= |turns| && PendingUntil(w, turns, k)
    requires k < |turns| ==> !HasPending(Drain(w, Looks(turns[..k])).0.translator)
    ensures FirstIdle(w, turns, k)
  {
  }

  lemma CutFits(n: nat, hearing: Hearing)
    ensures FindBoundary(n, hearing, false).Cut? ==> 1 <= FindBoundary(n, hearing, false).samples <= n
  {
    if hearing.Intervals? {
      ForcedCutInRange(hearing.speech);
    }
  }

  lemma OneRound(w: Worker, r: Round)
    ensures Infer(w, [r]) == InferRound(w, r)
    ensures !r.reports ==> Reports(w.session, [r]) == []
  {
    assert [r][1..] == [];
    assert Infer(InferRound(w, r), []) == InferRound(w, r);
    assert Reports(w.session, []) == [];
  }

  lemma ClearedFirst(w: Worker, s: SessionId)
    ensures ClearAll(w.(session := s, active := true, paused := false)) ==
            ClearAll(w).(session := s, active := true, paused := false)
  {
  }

  lemma SourceForgets(w: Worker)
    ensures forall d, mode :: CloseDecoder(w).(decoder := d, sourceMode := mode) == w.(decoder := d, sourceMode := mode)
  {
  }

  lemma AudioByHand(w: Worker, s: SessionId, tag: nat, samples: nat, c: Choice)
    requires w.active && !w.paused && !w.sourceMode && w.session == s && !c.invalidPts && samples > 0
    ensures HandleAudio(w, s, tag, samples, c) ==
            InferAll(w.(audio := Append(if c.discontinuity then [] else w.audio, tag, samples)),
                     NoChoice.(rounds := c.rounds, inferenceOk := c.inferenceOk))
  {
  }

  lemma NoAudioLeft(w: Worker)
    ensures ClearAll(w).audio == []
  {
  }

  lemma InactiveFirst(w: Worker)
    ensures ClearAll(CloseDecoder(w.(active := false))) == ClearAll(CloseDecoder(w)).(active := false)
  {
  }

  lemma StopElsewhere(w: Worker, s: SessionId, reason: nat, c: Choice)
    ensures w.session != s ==> HandleStop(w, s, reason, c) == (w, [])
  {
  }

  /** The tail of the audio, then the accepted cues, each with a choice of its own. */
  lemma PositionElsewhere(w: Worker, s: SessionId, pausedFlag: bool)
    ensures !w.active || w.session != s ==> forall c :: HandlePosition(w, s, pausedFlag, c) == (w, [])
  {
  }

  lemma PositionInParts(w: Worker, toggled: Worker, s: SessionId, pausedFlag: bool, c: Choice)
    requires w.active && w.session == s
    requires var dropped := if !w.paused || (w.sourceMode && w.decoder.Some? && c.resumes) then ClearBuffers(w) else w;
             toggled == if pausedFlag == w.paused then w else dropped.(paused := !w.paused)
    requires c.mustSeek ==> w.sourceMode && w.decoder.Some?
    ensures HandlePosition(w, s, pausedFlag, c) ==
            (if c.mustSeek && c.seeks then ClearAll(toggled) else toggled,
             if pausedFlag == w.paused then [] else [StatusReply(s)])
  {
    hide ClearAll, ClearBuffers;
  }

  ghost function FinishBoth(w: Worker, audio: bool, translation: bool, c: Choice, steps: seq<PoolStep>)
    : (Worker, seq<FromWorker>)
  {
    var (w1, out1) := FinishAudio(w, audio, c);
    var (w2, out2) := FinishTranslation(w1, translation, NoChoice.(drain := steps));
    (w2, out1 + out2)
  }

  lemma StopInParts(w: Worker, s: SessionId, reason: nat, c: Choice, steps: seq<PoolStep>)
    ensures var (w2, out) := FinishBoth(w, reason == REASON_MEDIA_END, reason != REASON_SEEK, c, steps);
            w.session == s ==>
              HandleStop(w, s, reason, c.(drain := steps)) ==
              (ClearAll(CloseDecoder(w2)).(active := false), out + (if w2.running then [StatusReply(s)] else []))
    ensures reason != REASON_SEEK ==>
              FinishBoth(w, reason == REASON_MEDIA_END, true, c, steps).0 ==
              Finished(w, reason == REASON_MEDIA_END, c.(drain := steps))
  {
    hide Drain, ClearAll, CloseDecoder;
    assert FinishAudio(w, reason == REASON_MEDIA_END, c.(drain := steps)) ==
           FinishAudio(w, reason == REASON_MEDIA_END, c);
  }

  ghost function FinishAll(w: Worker, c: Choice, steps: seq<PoolStep>): (Worker, seq<FromWorker>)
  {
    var (w1, out1) := FinishAudio(w, w.active, c);
    var (w2, out2) := FinishTranslation(w1, true, NoChoice.(drain := steps));
    var flushed := w.active && !w.sourceMode && w.audio != [] && c.inferenceOk;
    (w2, out1 + (if flushed then [StatusReply(w.session)] else []) + out2)
  }

  lemma ShutdownInParts(w: Worker, c: Choice, steps: seq<PoolStep>)
    ensures var (w2, out) := FinishAll(w, c, steps);
            HandleShutdown(w, c.(drain := steps)) == (CloseDecoder(w2).(running := false), out)
    ensures FinishAll(w, c, steps).0 == Finished(w, w.active, c.(drain := steps))
  {
    hide Drain, CloseDecoder;
    assert FinishAudio(w, w.active, c.(drain := steps)) == FinishAudio(w, w.active, c);
  }

  /** A round in which nothing is read or drained. */
  lemma RoundOfNothing(w: Worker, reports: bool)
    ensures InferRound(w, Round(0, [], 0, reports)) == w
  {
    assert w.audio[0..] == w.audio;
  }

  lemma NothingDecoded(w: Worker)
    requires |w.audio| <= BUFFER_SAMPLES
    ensures w.decoder.Some? ==> w.(audio := Append(w.audio, w.decoder.value, 0)) == w
    ensures InferAll(w, NoChoice) == (w, [])
    ensures DecodeStep(w, 0, false, NoChoice) == (w, [])
  {
    if w.decoder.Some? {
      assert w.audio + seq(0, _ => w.decoder.value) == w.audio;
    }
  }

  /** A flush without reports, and then a report of its own or the failure. */
  lemma FlushedEnd(w: Worker, rounds: seq<Round>, ok: bool)
    requires Reports(w.session, rounds) == []
    ensures ok ==> InferAll(w, NoChoice.(rounds := rounds + [Round(0, [], 0, true)])) ==
                   (Infer(w, rounds), [StatusReply(w.session)])
    ensures !ok ==> InferAll(w, NoChoice.(rounds := rounds, inferenceOk := false)) ==
                    (Infer(w, rounds).(running := false), [ErrorReply(w.session, E_INTERNAL, false)])
  {
    var last := Round(0, [], 0, true);
    InferOneMore(w, rounds, last);
    ReportsOneMore(w.session, rounds, last);
    RoundOfNothing(Infer(w, rounds), true);
    assert [] + [StatusReply(w.session)] == [StatusReply(w.session)];
    assert [] + [ErrorReply(w.session, E_INTERNAL, false)] == [ErrorReply(w.session, E_INTERNAL, false)];
  }

  lemma LostFirst(w: Worker)
    ensures ClearAll(w.(active := false, decoder := None, sourceMode := false)) ==
            ClearAll(w).(active := false, decoder := None, sourceMode := false)
  {
  }

  lemma DeliverKeepsPending(w: Worker)
    ensures DeliverOne(w).0.pending == w.pending
  {
  }

  /** A frame the loop refuses without handling it changes nothing, or ends the worker. */
  lemma RefusedUnhandled(w: Worker, f: ToWorker, c: Choice)
    requires f.BadFrame? || (f.StartFrame? && !f.formatOk)
    ensures var after := Handle(w, f, c).0; after.running ==> after == w
  {
  }

  lemma DoNothing(w: Worker)
    ensures DoAll(w, []) == (w, [])
  {
  }

  lemma {:induction false} DoOneMore(w: Worker, acts: seq<Act>, a: Act)
    ensures var (mid, out) := DoAll(w, acts); DoAll(w, acts + [a]) == (Do(mid, a).0, out + Do(mid, a).1)
    decreases |acts|
  {
    hide Do;
    if acts == [] {
      assert acts + [a] == [a] && [a][1..] == [];
      assert DoAll(Do(w, a).0, []) == (Do(w, a).0, []);
      assert [] + Do(w, a).1 == Do(w, a).1 == Do(w, a).1 + [];
    } else {
      assert (acts + [a])[1..] == acts[1..] + [a];
      var w1 := Do(w, acts[0]).0;
      DoOneMore(w1, acts[1..], a);
      SentInOrder(Do(w, acts[0]).1, DoAll(w1, acts[1..]).1, Do(DoAll(w1, acts[1..]).0, a).1);
    }
  }

  /** The choice stands for the flush of this audio into this builder. */
  ghost predicate TailOf(c: Choice, phantom: string -> bool, b: CueTimeline.Builder, a: AudioTimeline.Buffer,
                         listen: Listener)
  {
    var f := Flush(a, 0, listen);
    var taken := |a.samples| - |f.rest.samples|;
    && taken >= 0
    && c == NoChoice.(rounds := [Round(taken, Emissions(phantom, b, f.pushed), taken, false)], inferenceOk := f.ok,
                      drain := c.drain)
    && (f.ok ==> c.rounds[0].window == |a.samples|)
  }

  /** A flush that goes through takes every sample, once and in order, into a window or a dropped silence. */
  lemma TailIsWhole(c: Choice, phantom: string -> bool, b: CueTimeline.Builder, a: AudioTimeline.Buffer,
                    listen: Listener)
    requires TailOf(c, phantom, b, a, listen) && c.inferenceOk && a.frac <= 1
    ensures SamplesOf(Flush(a, 0, listen).chunks) == a.samples && c.rounds[0].window == |a.samples|
  {
    FlushPartitionsAudio(a, 0, listen);
    FlushShrinks(a, listen);
  }

  /** The drain's steps are chosen after the tail, which does not look at them. */
  lemma DrainedTail(w: Worker, reason: nat, c: Choice, steps: seq<PoolStep>, phantom: string -> bool,
                    b: CueTimeline.Builder, a: AudioTimeline.Buffer, listen: Listener)
    ensures FinishAudio(w, reason == 3, c.(drain := steps)) == FinishAudio(w, reason == REASON_MEDIA_END, c)
    ensures TailOf(c, phantom, b, a, listen) ==> TailOf(c.(drain := steps), phantom, b, a, listen)
  {
    hide Infer, EmitAll, Flush, Emissions;
  }

  lemma TailBeforeDrain(w: Worker, c: Choice, steps: seq<PoolStep>, phantom: string -> bool, b: CueTimeline.Builder,
                        a: AudioTimeline.Buffer, listen: Listener)
    ensures FinishAudio(w, w.active, c.(drain := steps)) == FinishAudio(w, w.active, c)
    ensures TailOf(c, phantom, b, a, listen) ==> TailOf(c.(drain := steps), phantom, b, a, listen)
  {
    hide Infer, EmitAll, Flush, Emissions;
  }

  /** The same at the end of a file, where a report follows a flush that goes through. */
  ghost predicate EndOf(c: Choice, phantom: string -> bool, b: CueTimeline.Builder, a: AudioTimeline.Buffer,
                        listen: Listener)
  {
    var f := Flush(a, 0, listen);
    var taken := |a.samples| - |f.rest.samples|;
    && taken >= 0
    && c == NoChoice.(rounds := [Round(taken, Emissions(phantom, b, f.pushed), taken, false)] +
                                (if f.ok then [Round(0, [], 0, true)] else []),
                      inferenceOk := f.ok)
  }

  // --------------------------------------------- acts as events of the system

  function EventOf(a: Act): SessionEpochs.Event
  {
    match a
    case Frame(_, c) => SessionEpochs.WorkerHandle(c)
    case Decoded(samples, readError, d) => SessionEpochs.WorkerDecode(samples, readError, d)
    case Emits => SessionEpochs.WorkerEmit
    case PoolActs(step) => SessionEpochs.WorkerPool(step)
  }

  function EventsOf(acts: seq<Act>): seq<SessionEpochs.Event>
  {
    if acts == [] then [] else [EventOf(acts[0])] + EventsOf(acts[1..])
  }

  /** The acts of one turn: the frame comes first, and there is no other. */
  ghost predicate OneTurn(frame: Option<ToWorker>, acts: seq<Act>)
  {
    && (frame.Some? ==> acts != [] && acts[0].Frame? && acts[0].f == frame.value)
    && forall i :: (if frame.Some? then 1 else 0) <= i < |acts| ==> !acts[i].Frame?
  }

  /** More of the same was done. */
  ghost predicate Grown(done: seq<Act>, acts: seq<Act>, a: Act)
  {
    done <= acts && forall i :: |done| <= i < |acts| ==> acts[i] == a
  }

  /** From here on: deliveries, one look-ahead, emissions, and deliveries again. */
  ghost predicate RestOfTurn(acts: seq<Act>, from: nat)
  {
    exists i: nat, j: nat :: TurnParts(acts, from, i, j)
  }

  ghost predicate TurnParts(acts: seq<Act>, from: nat, i: nat, j: nat)
  {
    && from <= i < j <= |acts|
    && (forall k :: from <= k < i ==> acts[k] == PoolActs(PoolDeliver))
    && acts[i].Decoded?
    && (forall k :: i < k < j ==> acts[k] == Emits)
    && (forall k :: j <= k < |acts| ==> acts[k] == PoolActs(PoolDeliver))
  }

  lemma TurnInOrder(done: seq<Act>, delivered: seq<Act>, looked: seq<Act>, emitted: seq<Act>, acts: seq<Act>)
    requires Grown(done, delivered, PoolActs(PoolDeliver))
    requires |looked| == |delivered| + 1 && looked[..|delivered|] == delivered && looked[|delivered|].Decoded?
    requires Grown(looked, emitted, Emits) && Grown(emitted, acts, PoolActs(PoolDeliver))
    ensures RestOfTurn(acts, |done|) && looked <= acts && done <= acts
    ensures forall i :: |done| <= i < |acts| ==> !acts[i].Frame?
  {
    var from, n, m := |done|, |delivered|, |emitted|;
    assert acts[..m] == emitted && emitted[..n + 1] == looked && delivered[..from] == done;
    assert looked <= acts by {
      assert acts[..n + 1] == acts[..m][..n + 1];
    }
    assert done <= acts by {
      assert acts[..from] == acts[..n + 1][..n][..from];
    }
    forall k | from <= k < n
      ensures acts[k] == PoolActs(PoolDeliver)
    {
      assert acts[k] == looked[k] == looked[..n][k];
    }
    assert acts[n] == looked[n];
    forall k | n < k < m
      ensures acts[k] == Emits
    {
      assert acts[k] == acts[..m][k];
    }
    assert TurnParts(acts, from, n, m);
  }

  /** The frame is the next one of the worker's queue. */
  ghost predicate IsNext(s: SessionEpochs.System, frame: Option<ToWorker>)
  {
    frame.Some? ==> s.queue != [] && s.queue[0] == frame.value
  }

  /** The worker's part of the system makes this step. */
  ghost predicate Moves(s: SessionEpochs.System, t: SessionEpochs.System, step: (Worker, seq<FromWorker>))
  {
    && t.worker == step.0
    && t.sent == s.sent + SessionEpochs.CaptionsIn(step.1)
    && t.workerSequence == s.workerSequence + |step.1|
  }

  lemma {:induction false} CaptionsConcat(a: seq<FromWorker>, b: seq<FromWorker>)
    ensures SessionEpochs.CaptionsIn(a + b) == SessionEpochs.CaptionsIn(a) + SessionEpochs.CaptionsIn(b)
    decreases |a|
  {
    if a == [] {
      assert a + b == b;
    } else {
      var all := a + b;
      assert all[0] == a[0] && all[1..] == a[1..] + b;
      CaptionsConcat(a[1..], b);
      var head := if a[0].CaptionReply? then [a[0].segment] else [];
      var x, y := SessionEpochs.CaptionsIn(a[1..]), SessionEpochs.CaptionsIn(b);
      assert SessionEpochs.CaptionsIn(all) == head + (x + y);
      assert head + (x + y) == head + x + y;
    }
  }

  lemma ActIsEvent(s: SessionEpochs.System, a: Act)
    requires a.Frame? ==> s.worker.running && IsNext(s, Some(a.f))
    ensures Moves(s, SessionEpochs.Next(s, EventOf(a)), Do(s.worker, a))
  {
    hide Handle, DecodeStep, EmitOne, PoolDo, SessionEpochs.Number, SessionEpochs.CaptionsIn, SessionEpochs.TakesUp;
  }

  lemma ThenMoves(s: SessionEpochs.System, next: SessionEpochs.System, end: SessionEpochs.System,
                  first: (Worker, seq<FromWorker>), more: (Worker, seq<FromWorker>))
    requires Moves(s, next, first) && Moves(next, end, more)
    ensures Moves(s, end, (more.0, first.1 + more.1))
  {
    hide SessionEpochs.CaptionsIn;
    CaptionsConcat(first.1, more.1);
  }

  /** The first act is the first event. */
  lemma FirstActFirst(s: SessionEpochs.System, acts: seq<Act>)
    requires acts != []
    ensures SessionEpochs.Run(s, EventsOf(acts)) ==
            SessionEpochs.Run(SessionEpochs.Next(s, EventOf(acts[0])), EventsOf(acts[1..]))
    ensures var (w1, out1) := Do(s.worker, acts[0]);
            DoAll(s.worker, acts) == (DoAll(w1, acts[1..]).0, out1 + DoAll(w1, acts[1..]).1)
  {
    hide Do, SessionEpochs.Next, EventOf;
    assert EventsOf(acts)[0] == EventOf(acts[0]) && EventsOf(acts)[1..] == EventsOf(acts[1..]);
  }

  lemma {:induction false} LaterActsAreEvents(s: SessionEpochs.System, acts: seq<Act>)
    requires forall i :: 0 <= i < |acts| ==> !acts[i].Frame?
    ensures Moves(s, SessionEpochs.Run(s, EventsOf(acts)), DoAll(s.worker, acts))
    decreases |acts|, 1
  {
    hide Do, SessionEpochs.Next, EventOf;
    if acts == [] {
      assert s.sent + [] == s.sent;
    } else {
      AllActsAreEvents(s, acts);
    }
  }

  lemma {:induction false} AllActsAreEvents(s: SessionEpochs.System, acts: seq<Act>)
    requires acts != [] && (acts[0].Frame? ==> s.worker.running && IsNext(s, Some(acts[0].f)))
    requires forall i :: 1 <= i < |acts| ==> !acts[i].Frame?
    ensures Moves(s, SessionEpochs.Run(s, EventsOf(acts)), DoAll(s.worker, acts))
    decreases |acts|, 0
  {
    hide Do, DoAll, SessionEpochs.Next, SessionEpochs.Run, EventOf, EventsOf, IsNext, SessionEpochs.CaptionsIn;
    var next := SessionEpochs.Next(s, EventOf(acts[0]));
    ActIsEvent(s, acts[0]);
    LaterActsAreEvents(next, acts[1..]);
    FirstActFirst(s, acts);
    ThenMoves(s, next, SessionEpochs.Run(next, EventsOf(acts[1..])), Do(s.worker, acts[0]),
              DoAll(next.worker, acts[1..]));
  }

  /** A turn of a running worker, made of these acts, is a run of the system. */
  lemma TurnIsARun(s: SessionEpochs.System, frame: Option<ToWorker>, acts: seq<Act>)
    requires s.worker.running && IsNext(s, frame) && OneTurn(frame, acts)
    ensures Moves(s, SessionEpochs.Run(s, EventsOf(acts)), DoAll(s.worker, acts))
  {
    hide Do, DoAll, SessionEpochs.Next, SessionEpochs.Run, EventOf, EventsOf, Moves;
    if frame.Some? {
      AllActsAreEvents(s, acts);
    } else {
      LaterActsAreEvents(s, acts);
    }
  }
}
