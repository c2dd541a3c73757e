/**
  The two ends of the pipe, one variable at a time over all events of the system: what the client puts on the pipe, when
  its session is active, what it shows, and what the worker reads and how it numbers its replies.
 */
module ClientCalls {
  import opened Captions
  import opened SessionEpochs
  import opened WorkerSession

  /** The transport is up and no start is waiting for its answer. */
  predicate Free(s: System)
  {
    s.client.connected && !s.client.awaiting
  }

  /** The frame a call puts on the pipe, if any: calls about a session need an active one. */
  function FrameOf(s: System, e: Event): Option<ToWorker>
  {
    var id, active := s.client.session, Free(s) && s.client.active;
    match e
    case BeginStart(newId, hasUrl) =>
      if Free(s) && newId !in s.drawn then Some(StartFrame(newId, |s.drawn|, hasUrl, true)) else None
    case SendAudio(samples) =>
      if active && s.drawn != [] then Some(AudioFrame(id, |s.drawn| - 1, samples)) else None
    case SendStop(reason) => if active then Some(StopFrame(id, reason)) else None
    case SendPause => if active then Some(PauseFrame(id)) else None
    case SendResume => if active then Some(ResumeFrame(id)) else None
    case SendPosition(pausedFlag) => if active then Some(PositionFrame(id, pausedFlag)) else None
    case SendTranslate(enabled, from, to) => if Free(s) then Some(TranslateFrame(id, enabled, from, to)) else None
    case SendShutdown => if Free(s) then Some(ShutdownFrame) else None
    case SendOther => if Free(s) then Some(OtherFrame) else None
    case _ => None
  }

  /** At most one frame goes out, behind those on the way and under the next number; the worker's reader takes the oldest. */
  lemma PipeToWorkerIs(s: System, e: Event)
    ensures var t, f := Next(s, e), FrameOf(s, e);
            if f.Some? then
              && t.client.sequence == s.client.sequence + 1
              && t.toWorker == s.toWorker + [Numbered(s.client.sequence + 1, f.value)]
            else
              && t.client.sequence == s.client.sequence
              && t.toWorker == if e.ReaderStep? && s.toWorker != [] then s.toWorker[1..] else s.toWorker
  {
    hide Handle, DecodeStep, EmitOne, PoolDo;
  }

  /** The frame a waiting client reads now. */
  predicate Reads(s: System, e: Event)
  {
    e.HandshakeReceive? && s.client.awaiting && s.fromWorker != []
  }

  /** A confirmation of the session that is being started, under a new number; any other confirmation is a broken one. */
  predicate Confirms(s: System, e: Event)
  {
    && Reads(s, e) && s.fromWorker[0].msg.StartedReply? && s.fromWorker[0].msg.session == s.client.session
    && s.fromWorker[0].seqNo > s.client.lastWorkerSequence
  }

  predicate Breaks(s: System, e: Event)
  {
    || e.DropTransport? || (e.HandshakeTimeout? && s.client.awaiting)
    || (Reads(s, e) && s.fromWorker[0].msg.StartedReply? && !Confirms(s, e))
  }

  /**
    A start begins under a new id and waits; it ends with its confirmation, with an error - but for the notice that the
    file could not be opened and recoverable errors of the translation about another session - or with the transport.
   */
  lemma ClientIs(s: System, e: Event)
    ensures var t := Next(s, e);
            var begins := e.BeginStart? && Free(s) && e.newId !in s.drawn;
            var m := if s.fromWorker != [] then s.fromWorker[0].msg else StatusReply(0);
            var refused := Reads(s, e) && m.ErrorReply? &&
                           !(m.recoverable && (m.code == 10 || (11 <= m.code <= 15 && m.session != s.client.session)));
            && t.drawn == (if begins then s.drawn + [e.newId] else s.drawn)
            && t.client.session == (if begins then e.newId else s.client.session)
            && (t.client.connected <==> s.client.connected && !Breaks(s, e))
            && (t.client.awaiting <==> begins || (s.client.awaiting && !Confirms(s, e) && !Breaks(s, e) && !refused))
            && (t.client.active <==>
                  Confirms(s, e) || (s.client.active && !begins && !Breaks(s, e) &&
                                     !(e.SendStop? && Free(s))))
            && t.client.sourceActive ==
               (if Confirms(s, e) then m.sourceActive else if begins then false else s.client.sourceActive)
  {
    hide Handle, DecodeStep, EmitOne, PoolDo;
  }

  /** Frames are read one at a time; a number is remembered when it is a new one and the frame is not passed over. */
  lemma PipeFromWorkerIs(s: System, e: Event)
    requires !(e.WorkerHandle? || e.WorkerDecode? || e.WorkerEmit? || e.WorkerPool?)
    ensures var t := Next(s, e);
            var receives := e.Receive? && Free(s) && s.fromWorker != [];
            && t.fromWorker == (if Reads(s, e) || receives then s.fromWorker[1..] else s.fromWorker)
            && t.client.lastWorkerSequence ==
               (if Confirms(s, e) || (receives && s.fromWorker[0].seqNo > s.client.lastWorkerSequence)
                then s.fromWorker[0].seqNo else s.client.lastWorkerSequence)
  {
  }

  /** A caption is shown exactly when it is received under a new number and with the id of the client's session. */
  lemma ShownIff(s: System, e: Event)
    ensures var t := Next(s, e);
            var m := if s.fromWorker != [] then s.fromWorker[0] else Numbered(0, StatusReply(0));
            t.shown ==
            if e.Receive? && Free(s) && s.fromWorker != [] && s.drawn != [] && m.seqNo > s.client.lastWorkerSequence
               && m.msg.CaptionReply? && m.msg.segment.session == s.client.session
            then s.shown + [Shown(|s.drawn| - 1, m.msg.segment)] else s.shown
  {
    hide Handle, DecodeStep, EmitOne, PoolDo;
  }

  /** The worker's queue takes what its reader accepts, loses any one frame, and gives the oldest to a running worker. */
  lemma QueueIs(s: System, e: Event)
    ensures var t := Next(s, e);
            var accepts := e.ReaderStep? && s.toWorker != [] && s.toWorker[0].seqNo > s.readerLast;
            && t.readerLast == (if accepts then s.toWorker[0].seqNo else s.readerLast)
            && t.queue == (if accepts then s.queue + [s.toWorker[0].msg]
                           else if e.LoseQueued? && e.k < |s.queue| then s.queue[..e.k] + s.queue[e.k + 1..]
                           else if e.WorkerHandle? && s.queue != [] && s.worker.running then s.queue[1..]
                           else s.queue)
  {
    hide Handle, DecodeStep, EmitOne, PoolDo;
  }

  /** The step the worker makes: on the oldest frame of its queue while it runs, of the look-ahead, emitter or pool. */
  function WorkerStep(s: System, e: Event): (Worker, seq<FromWorker>)
  {
    match e
    case WorkerHandle(c) => if s.queue != [] && s.worker.running then Handle(s.worker, s.queue[0], c) else (s.worker, [])
    case WorkerDecode(samples, readError, d) => DecodeStep(s.worker, samples, readError, d)
    case WorkerEmit => EmitOne(s.worker)
    case WorkerPool(step) => PoolDo(s.worker, step)
    case _ => (s.worker, [])
  }

  /** The worker's replies go out in order, numbered on without a gap, and its captions are noted as sent. */
  lemma RepliesAreNumbered(s: System, e: Event, i: nat)
    requires i < |WorkerStep(s, e).1|
    ensures var t, replies := Next(s, e), WorkerStep(s, e).1;
            && t.worker == WorkerStep(s, e).0 && t.workerSequence == s.workerSequence + |replies|
            && |t.fromWorker| == |s.fromWorker| + |replies| && t.fromWorker[..|s.fromWorker|] == s.fromWorker
            && t.fromWorker[|s.fromWorker| + i] == Numbered(s.workerSequence + 1 + i, replies[i])
            && (replies[i].CaptionReply? ==> replies[i].segment in t.sent)
  {
    hide Handle, DecodeStep, EmitOne, PoolDo;
    var replies := WorkerStep(s, e).1;
    NumbersAre(s.workerSequence, replies, i);
    CaptionIsNoted(replies, i);
  }

  lemma NothingWithoutAStep(s: System, e: Event)
    ensures WorkerStep(s, e).1 == [] ==>
              var t := Next(s, e);
              && t.worker == WorkerStep(s, e).0 && t.workerSequence == s.workerSequence && t.sent == s.sent
              && |t.fromWorker| <= |s.fromWorker|
  {
    hide Handle, DecodeStep, EmitOne, PoolDo;
  }

  lemma {:induction false} NumbersAre(from: nat, replies: seq<FromWorker>, i: nat)
    requires i < |replies|
    ensures |Number(from, replies)| == |replies| && Number(from, replies)[i] == Numbered(from + 1 + i, replies[i])
    decreases |replies|
  {
    if |replies| > 1 {
      NumbersAre(from + 1, replies[1..], if i > 0 then i - 1 else 0);
    }
  }

  lemma {:induction false} CaptionIsNoted(replies: seq<FromWorker>, i: nat)
    requires i < |replies|
    ensures replies[i].CaptionReply? ==> replies[i].segment in CaptionsIn(replies)
    decreases |replies|
  {
    if i > 0 {
      CaptionIsNoted(replies[1..], i - 1);
    }
  }
}
