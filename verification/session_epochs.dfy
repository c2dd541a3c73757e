/** The plugin's client and the worker, end to end. */
module SessionEpochs {
  // Two FIFO channels with per-direction sequence numbers, a frame queue that may lose frames, the worker's loop and
  // the translator's threads, interleaved in any order. `drawn` lists the session ids the client has drawn, one per
  // started session; the index of an id is the tag carried by the audio captured for that session. Ids are assumed
  // fresh: an id drawn before is not drawn again.

  import opened Captions
  import opened Pipelines
  import opened WorkerSession

  datatype Numbered<T> = Numbered(seqNo: nat, msg: T)

  datatype Client = Client(
    connected: bool,
    session: SessionId,
    active: bool,
    awaiting: bool,
    sourceActive: bool,
    sequence: nat,
    lastWorkerSequence: nat)

  /** A caption that passed the client's id check while session number `tag` was current. */
  datatype Shown = Shown(tag: nat, segment: CaptionSegment)

  datatype System = System(
    drawn: seq<SessionId>,
    client: Client,
    toWorker: seq<Numbered<ToWorker>>,
    readerLast: nat,
    queue: seq<ToWorker>,
    worker: Worker,
    workerSequence: nat,
    fromWorker: seq<Numbered<FromWorker>>,
    started: set<SessionId>,
    sent: seq<CaptionSegment>,
    shown: seq<Shown>)

  // The state right after the HELLO exchange, which uses sequence number 1 in both directions.
  const Begin := System([], Client(true, 0, false, false, false, 1, 0), [], 1, [], Idle, 1, [], {}, [], [])

  datatype Event =
    | BeginStart(newId: SessionId, hasUrl: bool)
    | HandshakeReceive
    | HandshakeTimeout
    | SendAudio(samples: nat)
    | SendStop(reason: nat)
    | SendPause
    | SendResume
    | SendPosition(pausedFlag: bool)
    | SendTranslate(enabled: bool, sourceLang: string, targetLang: string)
    | SendShutdown
    | SendOther
    | Receive
    | DropTransport
    | ReaderStep
    | LoseQueued(k: nat)
    | WorkerHandle(c: Choice)
    | WorkerDecode(samples: nat, readError: bool, d: Choice)
    | WorkerEmit
    | WorkerPool(step: PoolStep)

  // ----------------------------------------------------------------- client

  function Send(s: System, f: ToWorker): System
  {
    s.(toWorker := s.toWorker + [Numbered(s.client.sequence + 1, f)],
       client := s.client.(sequence := s.client.sequence + 1))
  }

  function Drop(c: Client): Client
  {
    c.(connected := false, active := false, awaiting := false)
  }

  /** Translation errors of an earlier epoch do not end the handshake; neither does the fallback notice. */
  predicate Skippable(c: Client, session: SessionId, code: nat, recoverable: bool)
  {
    || (11 <= code <= 15 && recoverable && session != c.session)
    || (code == E_SOURCE_OPEN && recoverable)
  }

  /** One frame read while waiting for STARTED. */
  function HandshakeStep(c: Client, m: Numbered<FromWorker>): Client
  {
    match m.msg
    case StartedReply(session, sourceActive) =>
      if m.seqNo <= c.lastWorkerSequence || session != c.session then Drop(c)
      else c.(lastWorkerSequence := m.seqNo, sourceActive := sourceActive, active := true, awaiting := false)
    case ErrorReply(session, code, recoverable) =>
      if Skippable(c, session, code, recoverable) then c else c.(awaiting := false)
    case _ => c
  }

  predicate Ready(s: System)
  {
    s.client.connected && s.client.active && !s.client.awaiting
  }

  function ClientNext(s: System, e: Event): System
  {
    match e
    case BeginStart(newId, hasUrl) =>
      if !s.client.connected || s.client.awaiting || newId in s.drawn then s
      else
        var drew := s.(drawn := s.drawn + [newId],
                         client := s.client.(session := newId, active := false, sourceActive := false, awaiting := true));
        Send(drew, StartFrame(newId, |s.drawn|, hasUrl, true))
    case HandshakeReceive =>
      if !s.client.awaiting || s.fromWorker == [] then s
      else s.(client := HandshakeStep(s.client, s.fromWorker[0]), fromWorker := s.fromWorker[1..])
    case HandshakeTimeout => if s.client.awaiting then s.(client := Drop(s.client)) else s
    case SendAudio(samples) =>
      if Ready(s) && s.drawn != [] then Send(s, AudioFrame(s.client.session, |s.drawn| - 1, samples)) else s
    case SendStop(reason) =>
      if Ready(s) then Send(s.(client := s.client.(active := false)), StopFrame(s.client.session, reason)) else s
    case SendPause => if Ready(s) then Send(s, PauseFrame(s.client.session)) else s
    case SendResume => if Ready(s) then Send(s, ResumeFrame(s.client.session)) else s
    case SendPosition(pausedFlag) =>
      if Ready(s) then Send(s, PositionFrame(s.client.session, pausedFlag)) else s
    case SendTranslate(enabled, from, to) =>
      if s.client.connected && !s.client.awaiting then Send(s, TranslateFrame(s.client.session, enabled, from, to)) else s
    case SendShutdown => if s.client.connected && !s.client.awaiting then Send(s, ShutdownFrame) else s
    case SendOther => if s.client.connected && !s.client.awaiting then Send(s, OtherFrame) else s
    case Receive =>
      if !s.client.connected || s.client.awaiting || s.fromWorker == [] then s
      else ReceiveStep(s)
    case DropTransport => s.(client := Drop(s.client))
    case _ => s
  }

  /** One received frame: a stale number is discarded, a caption must carry the current session id to be shown. */
  function ReceiveStep(s: System): System
    requires s.fromWorker != []
  {
    var m := s.fromWorker[0];
    var rest := s.(fromWorker := s.fromWorker[1..]);
    if m.seqNo <= s.client.lastWorkerSequence then rest
    else
      var read := rest.(client := s.client.(lastWorkerSequence := m.seqNo));
      if m.msg.CaptionReply? && m.msg.segment.session == s.client.session && s.drawn != []
      then read.(shown := s.shown + [Shown(|s.drawn| - 1, m.msg.segment)])
      else read
  }

  // ----------------------------------------------------------------- worker

  function Number(from: nat, replies: seq<FromWorker>): seq<Numbered<FromWorker>>
    decreases |replies|
  {
    if replies == [] then [] else [Numbered(from + 1, replies[0])] + Number(from + 1, replies[1..])
  }

  function CaptionsIn(replies: seq<FromWorker>): seq<CaptionSegment>
    decreases |replies|
  {
    if replies == [] then []
    else (if replies[0].CaptionReply? then [replies[0].segment] else []) + CaptionsIn(replies[1..])
  }

  function Reply(s: System, step: (Worker, seq<FromWorker>)): System
  {
    s.(worker := step.0, workerSequence := s.workerSequence + |step.1|,
       fromWorker := s.fromWorker + Number(s.workerSequence, step.1), sent := s.sent + CaptionsIn(step.1))
  }

  /** The worker takes up the session of a START frame. */
  predicate TakesUp(w: Worker, f: ToWorker, c: Choice)
  {
    f.StartFrame? && !(w.active && w.session == f.session) && f.formatOk && c.engineReady && c.languageOk
  }

  function WorkerNext(s: System, e: Event): System
  {
    match e
    case ReaderStep =>
      if s.toWorker == [] then s
      else
        var m := s.toWorker[0];
        var rest := s.(toWorker := s.toWorker[1..]);
        if m.seqNo <= s.readerLast then rest else rest.(readerLast := m.seqNo, queue := s.queue + [m.msg])
    case LoseQueued(k) =>
      if k < |s.queue| then s.(queue := s.queue[..k] + s.queue[k + 1..]) else s
    case WorkerHandle(c) =>
      if s.queue == [] || !s.worker.running then s
      else
        var f := s.queue[0];
        var started := if TakesUp(s.worker, f, c) then s.started + {f.session} else s.started;
        Reply(s.(queue := s.queue[1..], started := started), Handle(s.worker, f, c))
    case WorkerDecode(samples, readError, d) => Reply(s, DecodeStep(s.worker, samples, readError, d))
    case WorkerEmit => Reply(s, EmitOne(s.worker))
    case WorkerPool(step) => Reply(s, PoolDo(s.worker, step))
    case _ => s
  }

  function Next(s: System, e: Event): System
  {
    if e.ReaderStep? || e.LoseQueued? || e.WorkerHandle? || e.WorkerDecode? || e.WorkerEmit? || e.WorkerPool?
    then WorkerNext(s, e) else ClientNext(s, e)
  }

  function Run(s: System, events: seq<Event>): System
    decreases |events|
  {
    if events == [] then s else Run(Next(s, events[0]), events[1..])
  }

  // -------------------------------------------------------------- invariant

  ghost predicate Distinct(ids: seq<SessionId>)
  {
    forall i, j :: 0 <= i < j < |ids| ==> ids[i] != ids[j]
  }

  /** The numbers waiting in a channel rise strictly, above the last one read and up to the last one used. */
  ghost predicate Rising<T>(channel: seq<Numbered<T>>, last: nat, top: nat)
  {
    && last <= top
    && (forall i :: 0 <= i < |channel| ==> last < channel[i].seqNo <= top)
    && (forall i, j :: 0 <= i < j < |channel| ==> channel[i].seqNo < channel[j].seqNo)
  }

  ghost predicate ToWorkerOk(s: System)
  {
    && (forall i :: 0 <= i < |s.toWorker| ==> FrameOk(s.drawn, s.toWorker[i].msg))
    && (forall i :: 0 <= i < |s.queue| ==> FrameOk(s.drawn, s.queue[i]))
  }

  ghost predicate ReplyOk(drawn: seq<SessionId>, started: set<SessionId>, reply: FromWorker)
  {
    && (reply.CaptionReply? ==> OwnAudio(drawn, reply.segment))
    && (reply.StartedReply? ==> reply.session in started)
  }

  ghost predicate FromWorkerOk(s: System)
  {
    && (forall i :: 0 <= i < |s.fromWorker| ==> ReplyOk(s.drawn, s.started, s.fromWorker[i].msg))
    && (forall i :: 0 <= i < |s.sent| ==> OwnAudio(s.drawn, s.sent[i]))
  }

  ghost predicate ShownOk(s: System)
  {
    forall i :: 0 <= i < |s.shown| ==>
      && s.shown[i].tag < |s.drawn|
      && s.shown[i].segment.session == s.drawn[s.shown[i].tag]
      && s.shown[i].segment.origin <= {s.shown[i].tag}
  }

  ghost predicate ClientOk(s: System)
  {
    && (if s.drawn == [] then !s.client.active && !s.client.awaiting
        else s.client.session == s.drawn[|s.drawn| - 1])
    && (s.client.active ==> s.client.session in s.started)
  }

  ghost predicate Inv(s: System)
  {
    && Distinct(s.drawn)
    && ToWorkerOk(s)
    && WorkerOk(s.drawn, s.worker)
    && FromWorkerOk(s)
    && ShownOk(s)
    && ClientOk(s)
    && Rising(s.toWorker, s.readerLast, s.client.sequence)
    && Rising(s.fromWorker, s.client.lastWorkerSequence, s.workerSequence)
  }

  /** Drawing another id leaves every statement about earlier ones true. */
  lemma DrawKeeps(s: System, newId: SessionId)
    requires Inv(s) && newId !in s.drawn
    ensures var t := s.(drawn := s.drawn + [newId]);
            Distinct(t.drawn) && ToWorkerOk(t) && WorkerOk(t.drawn, t.worker) && FromWorkerOk(t) && ShownOk(t)
  {
    var drawn := s.drawn + [newId];
    forall id: SessionId, tags: set<nat> | FromSession(s.drawn, id, tags)
      ensures FromSession(drawn, id, tags)
    {
    }
    forall segment: CaptionSegment | OwnAudio(s.drawn, segment)
      ensures OwnAudio(drawn, segment)
    {
    }
    assert PipelineOk(drawn, s.worker.session, s.worker.translator);
  }

  lemma SendKeeps(s: System, f: ToWorker)
    requires ToWorkerOk(s) && FrameOk(s.drawn, f) && Rising(s.toWorker, s.readerLast, s.client.sequence)
    ensures ToWorkerOk(Send(s, f)) && Rising(Send(s, f).toWorker, s.readerLast, s.client.sequence + 1)
  {
  }

  lemma BeginStartInv(s: System, newId: SessionId, hasUrl: bool)
    requires Inv(s)
    ensures Inv(Next(s, BeginStart(newId, hasUrl)))
  {
    if s.client.connected && !s.client.awaiting && newId !in s.drawn {
      DrawKeeps(s, newId);
      var drew := s.(drawn := s.drawn + [newId],
                       client := s.client.(session := newId, active := false, sourceActive := false, awaiting := true));
      var f := StartFrame(newId, |s.drawn|, hasUrl, true);
      assert FrameOk(drew.drawn, f);
      SendKeeps(drew, f);
    }
  }

  lemma RisingTail<T>(channel: seq<Numbered<T>>, last: nat, top: nat)
    requires Rising(channel, last, top) && channel != []
    ensures Rising(channel[1..], last, top) && Rising(channel[1..], channel[0].seqNo, top)
    ensures channel[0].seqNo > last
  {
  }

  lemma HandshakeInv(s: System)
    requires Inv(s)
    ensures Inv(Next(s, HandshakeReceive))
  {
    if s.client.awaiting && s.fromWorker != [] {
      RisingTail(s.fromWorker, s.client.lastWorkerSequence, s.workerSequence);
      assert ReplyOk(s.drawn, s.started, s.fromWorker[0].msg);
    }
  }

  lemma ReceiveInv(s: System)
    requires Inv(s)
    ensures Inv(Next(s, Receive))
  {
    if s.client.connected && !s.client.awaiting && s.fromWorker != [] {
      RisingTail(s.fromWorker, s.client.lastWorkerSequence, s.workerSequence);
      var m := s.fromWorker[0].msg;
      assert ReplyOk(s.drawn, s.started, m);
      if m.CaptionReply? && m.segment.session == s.client.session && s.drawn != [] {
        OnlyCurrent(s.drawn, m.segment);
      }
    }
  }

  /** A caption that carries the newest id was made from the newest session's audio only. */
  lemma OnlyCurrent(drawn: seq<SessionId>, segment: CaptionSegment)
    requires Distinct(drawn) && drawn != [] && OwnAudio(drawn, segment) && segment.session == drawn[|drawn| - 1]
    ensures segment.origin <= {|drawn| - 1}
  {
  }

  lemma SendInv(s: System, f: ToWorker)
    requires Inv(s) && FrameOk(s.drawn, f)
    ensures Inv(Send(s, f))
  {
    SendKeeps(s, f);
  }

  lemma QuietInv(s: System)
    requires Inv(s)
    ensures Inv(s.(client := s.client.(active := false))) && Inv(s.(client := Drop(s.client)))
  {
  }

  /** The client's calls that write a frame of the running session. */
  lemma ClientSendInv(s: System, e: Event)
    requires Inv(s)
    requires e.SendAudio? || e.SendStop? || e.SendPause? || e.SendResume? || e.SendPosition? || e.SendTranslate?
             || e.SendShutdown? || e.SendOther?
    ensures Inv(ClientNext(s, e))
  {
    hide WorkerOk, FromWorkerOk, ShownOk, Rising, ToWorkerOk, Distinct;
    match e
    case SendAudio(samples) =>
      if Ready(s) && s.drawn != [] {
        SendInv(s, AudioFrame(s.client.session, |s.drawn| - 1, samples));
      }
    case SendStop(reason) =>
      QuietInv(s);
      SendInv(s.(client := s.client.(active := false)), StopFrame(s.client.session, reason));
    case SendPause => SendInv(s, PauseFrame(s.client.session));
    case SendResume => SendInv(s, ResumeFrame(s.client.session));
    case SendPosition(pausedFlag) => SendInv(s, PositionFrame(s.client.session, pausedFlag));
    case SendTranslate(enabled, from, to) => SendInv(s, TranslateFrame(s.client.session, enabled, from, to));
    case SendShutdown => SendInv(s, ShutdownFrame);
    case SendOther => SendInv(s, OtherFrame);
  }

  lemma ClientInv(s: System, e: Event)
    requires Inv(s)
    ensures Inv(ClientNext(s, e))
  {
    match e
    case BeginStart(newId, hasUrl) => BeginStartInv(s, newId, hasUrl);
    case HandshakeReceive => HandshakeInv(s);
    case HandshakeTimeout => QuietInv(s);
    case Receive => ReceiveInv(s);
    case DropTransport => QuietInv(s);
    case ReaderStep =>
    case LoseQueued(_) =>
    case WorkerHandle(_) =>
    case WorkerDecode(_, _, _) =>
    case WorkerEmit =>
    case WorkerPool(_) =>
    case _ => ClientSendInv(s, e);
  }

  lemma {:induction false} NumberIs(from: nat, replies: seq<FromWorker>)
    ensures |Number(from, replies)| == |replies|
    ensures forall i :: 0 <= i < |replies| ==> Number(from, replies)[i] == Numbered(from + 1 + i, replies[i])
    decreases |replies|
  {
    if replies != [] {
      NumberIs(from + 1, replies[1..]);
      forall i | 0 < i < |replies|
        ensures Number(from, replies)[i] == Numbered(from + 1 + i, replies[i])
      {
        assert Number(from, replies)[i] == Number(from + 1, replies[1..])[i - 1];
      }
    }
  }

  lemma {:induction false} CaptionsOk(drawn: seq<SessionId>, replies: seq<FromWorker>)
    requires RepliesOk(drawn, replies)
    ensures forall i :: 0 <= i < |CaptionsIn(replies)| ==> OwnAudio(drawn, CaptionsIn(replies)[i])
    decreases |replies|
  {
    if replies != [] {
      CaptionsOk(drawn, replies[1..]);
    }
  }

  lemma ReplyKeeps(s: System, step: (Worker, seq<FromWorker>))
    requires Inv(s) && WorkerOk(s.drawn, step.0) && RepliesOk(s.drawn, step.1)
    requires forall i :: 0 <= i < |step.1| && step.1[i].StartedReply? ==> step.1[i].session in s.started
    ensures Inv(Reply(s, step))
  {
    NumberIs(s.workerSequence, step.1);
    CaptionsOk(s.drawn, step.1);
    var t := Reply(s, step);
    assert Rising(t.fromWorker, t.client.lastWorkerSequence, t.workerSequence);
    assert FromWorkerOk(t);
  }

  lemma {:induction false} EmitAllStartsNothing(w: Worker)
    ensures forall i :: 0 <= i < |EmitAll(w).1| ==> !EmitAll(w).1[i].StartedReply?
    decreases |w.pending|
  {
    if w.pending != [] {
      EmitAllStartsNothing(EmitOne(w).0);
    }
  }

  lemma {:induction false} DrainStartsNothing(w: Worker, steps: seq<PoolStep>)
    ensures forall i :: 0 <= i < |Drain(w, steps).1| ==> !Drain(w, steps).1[i].StartedReply?
    decreases |steps|
  {
    if steps != [] {
      DrainStartsNothing(PoolDo(w, steps[0]).0, steps[1..]);
    }
  }

  lemma FinishStartsNothing(w: Worker, audio: bool, translation: bool, c: Choice)
    ensures var (w1, out1) := FinishAudio(w, audio, c);
            var out2 := FinishTranslation(w1, translation, c).1;
            && (forall i :: 0 <= i < |out1| ==> !out1[i].StartedReply?)
            && (forall i :: 0 <= i < |out2| ==> !out2[i].StartedReply?)
  {
    EmitAllStartsNothing(Infer(w, c.rounds));
    DrainStartsNothing(FinishAudio(w, audio, c).0, c.drain);
  }

  /** STARTED is only sent for a session the worker has just taken up. */
  lemma StartedMeansTakenUp(w: Worker, f: ToWorker, c: Choice)
    ensures var out := Handle(w, f, c).1;
            forall i :: 0 <= i < |out| && out[i].StartedReply? ==> TakesUp(w, f, c) && out[i].session == f.session
    ensures TakesUp(w, f, c) ==> Handle(w, f, c).0.active && Handle(w, f, c).0.session == f.session
  {
    match f
    case StopFrame(s, reason) => FinishStartsNothing(w, reason == REASON_MEDIA_END, reason != REASON_SEEK, c);
    case ShutdownFrame => FinishStartsNothing(w, w.active, true, c);
    case AudioFrame(s, _, _) => ReportsOk([], s, c.rounds);
    case _ =>
  }

  lemma WorkerHandleInv(s: System, c: Choice)
    requires Inv(s)
    ensures Inv(Next(s, WorkerHandle(c)))
  {
    if s.queue != [] && s.worker.running {
      var f := s.queue[0];
      var started := if TakesUp(s.worker, f, c) then s.started + {f.session} else s.started;
      var popped := s.(queue := s.queue[1..], started := started);
      assert ToWorkerOk(popped) && FromWorkerOk(popped);
      HandleOk(s.drawn, s.worker, f, c);
      StartedMeansTakenUp(s.worker, f, c);
      ReplyKeeps(popped, Handle(s.worker, f, c));
    }
  }

  lemma ReaderInv(s: System)
    requires Inv(s)
    ensures Inv(Next(s, ReaderStep))
  {
    if s.toWorker != [] {
      RisingTail(s.toWorker, s.readerLast, s.client.sequence);
      assert FrameOk(s.drawn, s.toWorker[0].msg);
    }
  }

  lemma LoseInv(s: System, k: nat)
    requires Inv(s) && k < |s.queue|
    ensures Inv(Next(s, LoseQueued(k)))
  {
  }

  ghost predicate StartsNothing(replies: seq<FromWorker>)
  {
    forall i :: 0 <= i < |replies| ==> !replies[i].StartedReply?
  }

  lemma DecodeStartsNothing(w: Worker, samples: nat, readError: bool, d: Choice)
    ensures StartsNothing(DecodeStep(w, samples, readError, d).1)
  {
    ReportsOk([], w.session, d.rounds);
  }

  lemma LoopStartsNothing(w: Worker, step: PoolStep)
    ensures StartsNothing(EmitOne(w).1) && StartsNothing(PoolDo(w, step).1)
  {
  }

  /** Every step of the reader, the queue, the worker's loop and its pool keeps the invariant. */
  lemma WorkerInv(s: System, e: Event)
    requires Inv(s)
    ensures Inv(WorkerNext(s, e))
  {
    hide DecodeStep, EmitOne, PoolDo, RepliesOk, ToWorkerOk, FromWorkerOk, ShownOk, ClientOk, Reply;
    match e
    case ReaderStep => ReaderInv(s);
    case LoseQueued(k) =>
      if k < |s.queue| {
        LoseInv(s, k);
      }
    case WorkerHandle(c) => WorkerHandleInv(s, c);
    case WorkerDecode(samples, readError, d) =>
      DecodeOk(s.drawn, s.worker, samples, readError, d);
      DecodeStartsNothing(s.worker, samples, readError, d);
      ReplyKeeps(s, DecodeStep(s.worker, samples, readError, d));
    case WorkerEmit =>
      EmitOneOk(s.drawn, s.worker);
      LoopStartsNothing(s.worker, PoolTake);
      ReplyKeeps(s, EmitOne(s.worker));
    case WorkerPool(step) =>
      PoolOk(s.drawn, s.worker, step);
      LoopStartsNothing(s.worker, step);
      ReplyKeeps(s, PoolDo(s.worker, step));
    case _ =>
  }

  /** Every step of the client, the channels, the queue and the worker keeps the invariant. */
  lemma NextInv(s: System, e: Event)
    requires Inv(s)
    ensures Inv(Next(s, e))
  {
    WorkerInv(s, e);
    ClientInv(s, e);
  }

  lemma {:induction false} RunInv(s: System, events: seq<Event>)
    requires Inv(s)
    ensures Inv(Run(s, events))
    decreases |events|
  {
    if events != [] {
      NextInv(s, events[0]);
      RunInv(Next(s, events[0]), events[1..]);
    }
  }

  lemma ReachableInv(events: seq<Event>)
    ensures Inv(Run(Begin, events))
  {
    RunInv(Begin, events);
  }

  // ----------------------------------------------------------- main results

  /** Whatever the interleaving, a caption sent with an id was made only from audio captured for that id's session. */
  lemma CaptionsComeFromTheirSession(events: seq<Event>)
    ensures var s := Run(Begin, events);
            forall i, t :: 0 <= i < |s.sent| && t in s.sent[i].origin ==>
                             t < |s.drawn| && s.drawn[t] == s.sent[i].session
  {
    RunInv(Begin, events);
    var s := Run(Begin, events);
    forall i, t | 0 <= i < |s.sent| && t in s.sent[i].origin
      ensures t < |s.drawn| && s.drawn[t] == s.sent[i].session
    {
      assert OwnAudio(s.drawn, s.sent[i]);
    }
  }

  /** A caption that passes the client's id check was made only from audio of the session current at that moment. */
  lemma OnlyCurrentAudioIsShown(events: seq<Event>)
    ensures var s := Run(Begin, events);
            forall i :: 0 <= i < |s.shown| ==>
              && s.shown[i].tag < |s.drawn|
              && s.shown[i].segment.session == s.drawn[s.shown[i].tag]
              && s.shown[i].segment.origin <= {s.shown[i].tag}
  {
    RunInv(Begin, events);
  }

  /** The client believes a session started only when the worker has taken up that very session. */
  lemma ActiveMeansTakenUp(events: seq<Event>)
    ensures var s := Run(Begin, events); s.client.active ==> s.client.session in s.started
  {
    RunInv(Begin, events);
  }

  /** On an intact transport the stale-sequence branches are never taken, in either direction. */
  lemma NothingArrivesStale(events: seq<Event>)
    ensures var s := Run(Begin, events);
            && (s.toWorker != [] ==> s.toWorker[0].seqNo > s.readerLast)
            && (s.fromWorker != [] ==> s.fromWorker[0].seqNo > s.client.lastWorkerSequence)
  {
    RunInv(Begin, events);
  }

  /** The worker's own id check before a delivery never fails: only inactivity can hold a result back. */
  lemma DeliveryIdCheckHolds(events: seq<Event>)
    ensures var w := Run(Begin, events).worker;
            var r := Deliver(w.translator).1;
            r.Some? ==> r.value.segment.session == w.session
  {
    RunInv(Begin, events);
    var s := Run(Begin, events);
    DeliverOk(s.drawn, s.worker.session, s.worker.translator);
  }
}
