/** The plugin's worker client as an object. */
module SessionClients {
  // Each call is proved to be a run of client events of session_epochs.dfy, so the session theorems hold for every
  // sequence of calls. While a start waits for its answer the worker takes its turns.

  import opened SessionEpochs
  import opened WorkerSession

  predicate WorkerEvent(e: Event)
  {
    e.ReaderStep? || e.LoseQueued? || e.WorkerHandle? || e.WorkerDecode? || e.WorkerEmit? || e.WorkerPool?
  }

  /** What the worker does while the client waits for a frame. */
  type Turn = turn: seq<Event> | forall i :: 0 <= i < |turn| ==> WorkerEvent(turn[i]) witness []

  /** Reads during a handshake, the worker's turns in between. */
  function Waits(turns: seq<Turn>): seq<Event>
  {
    if turns == [] then [] else Waits(turns[..|turns| - 1]) + turns[|turns| - 1] + [HandshakeReceive]
  }

  /** A start: the id is drawn, START is sent, frames are read, and in the end the deadline may pass. */
  function StartEvents(newId: Captions.SessionId, hasUrl: bool, turns: seq<Turn>, expired: bool): seq<Event>
  {
    [BeginStart(newId, hasUrl)] + Waits(turns) + (if expired then [HandshakeTimeout] else [])
  }

  /** The first `used` reads did not answer the start. */
  ghost predicate Unanswered(s: System, turns: seq<Turn>, used: nat)
    requires used <= |turns|
  {
    forall j: nat :: j <= used ==> Run(s, Waits(turns[..j])).client.awaiting
  }

  /** The wait goes on until it is answered, and is given up only at the deadline, after all of the reads. */
  ghost predicate UntilAnswered(s: System, turns: seq<Turn>, used: nat, expired: bool)
  {
    && used <= |turns|
    && if expired then used == |turns| && Unanswered(s, turns, used)
       else used > 0 && Unanswered(s, turns, used - 1) && !Run(s, Waits(turns[..used])).client.awaiting
  }

  /** STOP for a seek, START under the new id of a session with a file, and the wait. */
  ghost predicate Begun(s: System, newId: Captions.SessionId, turns: seq<Turn>, begun: seq<Event>)
  {
    exists used: nat, expired: bool ::
      && UntilAnswered(Next(Next(s, SendStop(2)), BeginStart(newId, true)), turns, used, expired)
      && begun == [SendStop(2)] + StartEvents(newId, true, turns[..used], expired)
  }

  /**
    A restart: if the start succeeds with a worker that decodes the file itself, the settings follow; if it does not
    decode it, the transport is given up.
   */
  ghost predicate Restarts(s: System, newId: Captions.SessionId, turns: seq<Turn>, settings: seq<Event>, ok: bool,
                           events: seq<Event>)
  {
    exists begun: seq<Event> ::
      && Begun(s, newId, turns, begun)
      && events == begun + if ok then settings else if Run(s, begun).client.active then [DropTransport] else []
  }

  class SessionClient {
    const workerTranslates: bool   // a capability the worker announced in its HELLO
    var connected: bool
    var sessionId: Captions.SessionId
    var sessionActive: bool
    var workerSourceActive: bool
    var activeSourceUrl: bool
    var sequence: nat
    var lastWorkerSequence: nat
    var translationConfigured: bool
    var translateEnabled: bool
    var translateSourceLang: string
    var translateTargetLang: string

    // the two ends of the pipe; the ids drawn and the captions shown are kept for the session theorems
    var toWorker: seq<Numbered<ToWorker>>
    var fromWorker: seq<Numbered<FromWorker>>
    var drawn: seq<Captions.SessionId>
    var shown: seq<Shown>
    ghost var awaiting: bool

    /** The system whose client side this object is. */
    ghost predicate Agrees(s: System)
      reads this
    {
      && s.client == Client(connected, sessionId, sessionActive, awaiting, workerSourceActive, sequence,
                            lastWorkerSequence)
      && s.toWorker == toWorker && s.fromWorker == fromWorker
      && s.drawn == drawn && s.shown == shown
    }

    /** Between calls no handshake is going on. */
    ghost predicate Idle(s: System)
      reads this
    {
      Agrees(s) && !awaiting
    }

    constructor (workerTranslates: bool)
      ensures Idle(Begin) && this.workerTranslates == workerTranslates
    {
      this.workerTranslates := workerTranslates;
      connected, sessionId, sessionActive, workerSourceActive, activeSourceUrl := true, 0, false, false, false;
      sequence, lastWorkerSequence, translationConfigured, translateEnabled := 1, 0, false, false;
      translateSourceLang, translateTargetLang := "", "";
      toWorker, fromWorker, awaiting, drawn, shown := [], [], false, [], [];
    }

    method SendFrame(f: ToWorker)
      modifies this`toWorker, this`sequence
      ensures sequence == old(sequence) + 1 && toWorker == old(toWorker) + [Numbered(sequence, f)]
    {
      sequence := sequence + 1;
      toWorker := toWorker + [Numbered(sequence, f)];
    }

    method DropPipe()
      modifies this`connected, this`sessionActive, this`awaiting
      ensures !connected && !sessionActive && !awaiting
    {
      connected, sessionActive := false, false;
      awaiting := false;
    }

    /** The worker runs; the client sees only the channels change. */
    method LetWorkerAct(turn: Turn, s: System)
      requires Agrees(s)
      modifies this`toWorker, this`fromWorker
      ensures Agrees(Run(s, turn))
    {
      WorkerKeepsClient(s, turn);
      var t := Run(s, turn);
      toWorker, fromWorker := t.toWorker, t.fromWorker;
    }

    /** One frame read while waiting: STARTED or an error ends the wait, anything else is passed over. */
    method HandshakeFrame(ghost s: System) returns (done: bool)
      requires Agrees(s) && awaiting && connected && !sessionActive
      modifies this`fromWorker, this`connected, this`sessionActive, this`awaiting
      modifies this`lastWorkerSequence, this`workerSourceActive
      ensures Agrees(Next(s, HandshakeReceive))
      ensures done == !awaiting && (sessionActive ==> done && connected) && (!done ==> connected)
      ensures sessionId == old(sessionId) && drawn == old(drawn)
    {
      if |fromWorker| == 0 {
        return false;
      }
      var m := fromWorker[0];
      fromWorker := fromWorker[1..];
      match m.msg
      case StartedReply(session, sourceActive) =>
        if m.seqNo <= lastWorkerSequence || session != sessionId {
          DropPipe();
          return true;
        }
        lastWorkerSequence := m.seqNo;
        workerSourceActive := sourceActive;
        sessionActive := true;
        awaiting := false;
        return true;
      case ErrorReply(session, code, recoverable) =>
        var staleTranslation := 11 <= code <= 15 && recoverable && session != sessionId;
        if staleTranslation || (code == E_SOURCE_OPEN && recoverable) {
          return false;
        }
        awaiting := false;
        return true;
      case _ => return false;
    }

    /** The wait for STARTED: `turns` bounds the reads before the deadline; `used` of them take place. */
    method AwaitStarted(turns: seq<Turn>, s: System) returns (ok: bool, ghost used: nat, ghost expired: bool)
      requires Agrees(s) && awaiting && connected && !sessionActive
      modifies this`toWorker, this`fromWorker, this`connected, this`sessionActive, this`awaiting
      modifies this`lastWorkerSequence, this`workerSourceActive
      ensures used <= |turns| && UntilAnswered(s, turns, used, expired)
      ensures Idle(Run(s, Waits(turns[..used]) + (if expired then [HandshakeTimeout] else [])))
      ensures ok == sessionActive && (ok ==> connected && !expired)
      ensures sessionId == old(sessionId) && drawn == old(drawn)
    {
      hide Run, Waits, HandshakeStep, WorkerNext, Handle, Unanswered;
      var now, i := s, 0;
      used := 0;
      UnansweredFirst(s, turns);
      RunNone(s);
      assert turns[..0] == [];
      while i < |turns|
        invariant 0 <= i <= |turns| && used == i && Agrees(now) && awaiting && connected && !sessionActive
        invariant now == Run(s, Waits(turns[..i])) && Unanswered(s, turns, i)
        invariant sessionId == old(sessionId) && drawn == old(drawn)
      {
        OneMoreWait(s, turns, i);
        LetWorkerAct(turns[i], now);
        now := Run(now, turns[i]);
        var done := HandshakeFrame(now);
        now := Next(now, HandshakeReceive);
        i, used := i + 1, i + 1;
        if !done {
          UnansweredMore(s, turns, i - 1);
        } else {
          assert Waits(turns[..i]) + [] == Waits(turns[..i]);
          return sessionActive, used, false;
        }
      }
      DropPipe();
      RunOneMore(s, Waits(turns[..i]), HandshakeTimeout);
      return false, used, true;
    }

    /** The id is drawn and START is sent. */
    method BeginCall(newId: Captions.SessionId, hasUrl: bool, ghost s: System)
      requires Idle(s) && newId !in drawn && connected
      modifies this`toWorker, this`sequence, this`sessionActive, this`awaiting, this`workerSourceActive
      modifies this`sessionId, this`drawn
      ensures Agrees(Next(s, BeginStart(newId, hasUrl))) && awaiting && !sessionActive
      ensures sessionId == newId && drawn == old(drawn) + [newId]
    {
      sessionActive, workerSourceActive, sessionId := false, false, newId;
      drawn := drawn + [newId];
      awaiting := true;
      SendFrame(StartFrame(newId, |drawn| - 1, hasUrl, true));
    }

    /** START and the wait for STARTED. */
    method StartSession(newId: Captions.SessionId, hasUrl: bool, turns: seq<Turn>, s: System)
      returns (ok: bool, ghost events: seq<Event>)
      requires Idle(s) && newId !in drawn
      modifies this`toWorker, this`fromWorker, this`connected, this`sessionActive, this`awaiting, this`sequence
      modifies this`lastWorkerSequence, this`workerSourceActive, this`sessionId, this`drawn, this`activeSourceUrl
      ensures Idle(Run(s, events))
      ensures activeSourceUrl == if ok then hasUrl else old(activeSourceUrl)
      ensures !old(connected) ==> !ok && events == []
      ensures old(connected) ==>
                exists used: nat, expired ::
                  && UntilAnswered(Next(s, BeginStart(newId, hasUrl)), turns, used, expired)
                  && events == StartEvents(newId, hasUrl, turns[..used], expired)
      ensures ok ==> sessionActive && connected && sessionId == newId && drawn == old(drawn) + [newId]
      ensures !ok && old(connected) ==> !sessionActive
    {
      hide Run, Next, Waits, StartEvents, UntilAnswered;
      if !connected {
        RunNone(s);
        return false, [];
      }
      BeginCall(newId, hasUrl, s);
      ghost var used, expired;
      ok, used, expired := AwaitStarted(turns, Next(s, BeginStart(newId, hasUrl)));
      StartInParts(s, newId, hasUrl, turns[..used], expired);
      events := StartEvents(newId, hasUrl, turns[..used], expired);
      if ok {
        activeSourceUrl := hasUrl;
      }
    }

    method StopSession(reason: nat, ghost s: System)
      requires Idle(s)
      modifies this`toWorker, this`sequence, this`sessionActive
      ensures Idle(Next(s, SendStop(if reason == 0 then REASON_USER_STOP else reason)))
      ensures !sessionActive || !connected
    {
      if !connected || !sessionActive {
        return;
      }
      SendFrame(StopFrame(sessionId, if reason == 0 then REASON_USER_STOP else reason));
      sessionActive := false;
    }

    method SendAudioChunk(samples: nat, ghost s: System) returns (ok: bool)
      requires Idle(s) && (sessionActive ==> drawn != [])
      modifies this`toWorker, this`sequence
      ensures Idle(Next(s, SendAudio(samples))) && ok == (connected && sessionActive)
    {
      if !connected || !sessionActive {
        return false;
      }
      SendFrame(AudioFrame(sessionId, |drawn| - 1, samples));
      return true;
    }

    method PauseSession(ghost s: System)
      requires Idle(s)
      modifies this`toWorker, this`sequence
      ensures Idle(Next(s, SendPause))
    {
      if connected && sessionActive {
        SendFrame(PauseFrame(sessionId));
      }
    }

    method ResumeSession(ghost s: System)
      requires Idle(s)
      modifies this`toWorker, this`sequence
      ensures Idle(Next(s, SendResume))
    {
      if connected && sessionActive {
        SendFrame(ResumeFrame(sessionId));
      }
    }

    /** The settings are kept for the next restart; a worker that cannot translate is not told, nor asked to. */
    method SendTranslateCtrl(enabled: bool, sourceLang: string, targetLang: string, ghost s: System)
      returns (ok: bool, ghost events: seq<Event>)
      requires Idle(s)
      modifies this`toWorker, this`sequence
      modifies this`translationConfigured, this`translateEnabled, this`translateSourceLang, this`translateTargetLang
      ensures Idle(Run(s, events))
      ensures events == if connected && workerTranslates then [SendTranslate(enabled, sourceLang, targetLang)] else []
      ensures ok == (connected && (workerTranslates || !enabled))
      ensures ok ==> translationConfigured && translateEnabled == enabled
      ensures ok ==> translateSourceLang == sourceLang && translateTargetLang == targetLang
      ensures !ok ==> SameSettings()
    {
      hide Run, WorkerNext;
      RunNone(s);
      events := [];
      if !connected || (!workerTranslates && enabled) {
        return false, [];
      }
      if workerTranslates {
        events := [SendTranslate(enabled, sourceLang, targetLang)];
        RunOne(s, SendTranslate(enabled, sourceLang, targetLang));
        SendFrame(TranslateFrame(sessionId, enabled, sourceLang, targetLang));
      }
      KeepSettings(enabled, sourceLang, targetLang);
      return true, events;
    }

    twostate predicate SameSettings()
      reads this
    {
      && translationConfigured == old(translationConfigured) && translateEnabled == old(translateEnabled)
      && translateSourceLang == old(translateSourceLang) && translateTargetLang == old(translateTargetLang)
    }

    method KeepSettings(enabled: bool, sourceLang: string, targetLang: string)
      modifies this`translationConfigured, this`translateEnabled, this`translateSourceLang, this`translateTargetLang
      ensures translationConfigured && translateEnabled == enabled
      ensures translateSourceLang == sourceLang && translateTargetLang == targetLang
    {
      translationConfigured, translateEnabled := true, enabled;
      translateSourceLang, translateTargetLang := sourceLang, targetLang;
    }

    method ShutdownWorker(ghost s: System)
      requires Idle(s)
      modifies this`toWorker, this`sequence
      ensures Idle(Next(s, SendShutdown))
    {
      if connected {
        SendFrame(ShutdownFrame);
      }
    }

    /**
      A position report. A seek while the worker decodes the file itself restarts the epoch: STOP, START under a new id,
      the translation settings again, and only then the report.
     */
    method SendPositionReport(pausedFlag: bool, seek: bool, newId: Captions.SessionId, turns: seq<Turn>, s: System)
      returns (ok: bool, ghost events: seq<Event>)
      requires Idle(s) && newId !in drawn
      modifies this
      ensures Idle(Run(s, events))
      ensures !old(connected && sessionActive) ==> !ok && events == []
      ensures ok ==> connected && sessionActive
      ensures ok && seek && old(workerSourceActive && activeSourceUrl) ==>
                sessionId == newId && workerSourceActive && drawn == old(drawn) + [newId]
      ensures old(connected && sessionActive && workerSourceActive && activeSourceUrl) && seek ==>
                && (ok ==> events != [] && events[|events| - 1] == Event.SendPosition(pausedFlag))
                && Restarts(s, newId, turns, old(Settings()), ok, if ok then events[..|events| - 1] else events)
      ensures ok && !(seek && old(workerSourceActive && activeSourceUrl)) ==> events == [Event.SendPosition(pausedFlag)]
    {
      hide Run, Next, Restarts;
      RunNone(s);
      if !connected || !sessionActive {
        return false, [];
      }
      if !seek || !workerSourceActive || !activeSourceUrl {
        ReportPosition(pausedFlag, s);
        RunOne(s, Event.SendPosition(pausedFlag));
        return true, [Event.SendPosition(pausedFlag)];
      }
      ok, events := RestartEpoch(newId, turns, s);
      if ok {
        ghost var before := events;
        ReportPosition(pausedFlag, Run(s, before));
        RunOneMore(s, before, Event.SendPosition(pausedFlag));
        events := before + [Event.SendPosition(pausedFlag)];
        assert events[..|events| - 1] == before;
      }
    }

    method ReportPosition(pausedFlag: bool, ghost s: System)
      requires Idle(s) && connected && sessionActive
      modifies this`toWorker, this`sequence
      ensures Idle(Next(s, Event.SendPosition(pausedFlag)))
    {
      SendFrame(PositionFrame(sessionId, pausedFlag));
    }

    /** The settings a restart sends again, to a worker that can translate. */
    function Settings(): seq<Event>
      reads this
    {
      if translationConfigured && workerTranslates
      then [SendTranslate(translateEnabled, translateSourceLang, translateTargetLang)] else []
    }

    /** STOP for a seek and START under the new id, which has a file. */
    method StopAndStart(newId: Captions.SessionId, turns: seq<Turn>, s: System)
      returns (ok: bool, ghost events: seq<Event>)
      requires Idle(s) && newId !in drawn && connected && sessionActive
      modifies this`toWorker, this`fromWorker, this`connected, this`sessionActive, this`awaiting, this`sequence
      modifies this`lastWorkerSequence, this`workerSourceActive, this`sessionId, this`drawn, this`activeSourceUrl
      ensures Idle(Run(s, events)) && ok == sessionActive && Begun(s, newId, turns, events)
      ensures ok ==> connected && sessionId == newId && drawn == old(drawn) + [newId]
    {
      hide Run, Next, StartEvents, UntilAnswered;
      RunOne(s, SendStop(REASON_SEEK));
      StopSession(REASON_SEEK, s);
      ghost var start;
      ok, start := StartSession(newId, true, turns, Next(s, SendStop(REASON_SEEK)));
      RunConcat(s, [SendStop(REASON_SEEK)], start);
      events := [SendStop(REASON_SEEK)] + start;
    }

    method RestartEpoch(newId: Captions.SessionId, turns: seq<Turn>, s: System)
      returns (ok: bool, ghost events: seq<Event>)
      requires Idle(s) && newId !in drawn && connected && sessionActive
      modifies this
      ensures Idle(Run(s, events))
      ensures Restarts(s, newId, turns, old(Settings()), ok, events)
      ensures ok ==> connected && sessionActive && workerSourceActive && sessionId == newId
      ensures ok ==> drawn == old(drawn) + [newId]
    {
      hide Run, Next, StartEvents, Begun;
      var configured, enabled := translationConfigured, translateEnabled;
      var from, to := translateSourceLang, translateTargetLang;
      ok, events := StopAndStart(newId, turns, s);
      ghost var begun := events;
      assert Begun(s, newId, turns, begun) && begun + [] == begun;
      if !ok {
        return;
      }
      if !workerSourceActive {
        RunOneMore(s, begun, DropTransport);
        GiveUp(Run(s, begun));
        return false, begun + [DropTransport];
      }
      if configured && workerTranslates {
        ghost var settings;
        ok, settings := SendTranslateCtrl(enabled, from, to, Run(s, begun));
        RunConcat(s, begun, settings);
        events := begun + settings;
      }
    }

    method GiveUp(ghost s: System)
      requires Idle(s)
      modifies this`connected, this`sessionActive, this`awaiting
      ensures Idle(Next(s, DropTransport)) && !connected && !sessionActive
    {
      DropPipe();
    }

    /** One frame off the pipe. A caption is shown only if it carries the id of the current session. */
    method ReceiveOne(ghost s: System) returns (caption: Captions.Option<Captions.CaptionSegment>)
      requires Idle(s)
      modifies this
      ensures Idle(Next(s, Event.Receive))
      ensures caption.Some? ==> caption.value.session == sessionId
      ensures caption.Some? ==> drawn != []
      ensures shown == if caption.Some? then old(shown) + [Shown(|drawn| - 1, caption.value)] else old(shown)
    {
      caption := Captions.None;
      if !connected || |fromWorker| == 0 {
        return;
      }
      var m := fromWorker[0];
      fromWorker := fromWorker[1..];
      if m.seqNo <= lastWorkerSequence {
        return;
      }
      lastWorkerSequence := m.seqNo;
      if m.msg.CaptionReply? && m.msg.segment.session == sessionId && |drawn| > 0 {
        shown := shown + [Shown(|drawn| - 1, m.msg.segment)];
        caption := Captions.Some(m.msg.segment);
      }
    }
  }

  lemma RunNone(s: System)
    ensures Run(s, []) == s && Waits([]) == []
  {
  }

  lemma RunOne(s: System, e: Event)
    ensures Run(s, [e]) == Next(s, e)
  {
  }

  lemma {:induction false} RunConcat(s: System, a: seq<Event>, b: seq<Event>)
    ensures Run(s, a + b) == Run(Run(s, a), b)
    decreases |a|
  {
    if a == [] {
      assert a + b == b;
    } else {
      assert (a + b)[1..] == a[1..] + b;
      RunConcat(Next(s, a[0]), a[1..], b);
    }
  }

  lemma RunOneMore(s: System, events: seq<Event>, e: Event)
    ensures Run(s, events + [e]) == Next(Run(s, events), e)
  {
    RunConcat(s, events, [e]);
    RunOne(Run(s, events), e);
  }

  /** The worker's steps touch nothing the client holds but the channels. */
  lemma {:induction false} WorkerKeepsClient(s: System, turn: Turn)
    ensures var t := Run(s, turn); t.client == s.client && t.drawn == s.drawn && t.shown == s.shown
    decreases |turn|
  {
    if turn != [] {
      assert WorkerEvent(turn[0]);
      WorkerKeepsClient(Next(s, turn[0]), turn[1..]);
    }
  }

  lemma OneMoreWait(s: System, turns: seq<Turn>, i: nat)
    requires i < |turns|
    ensures Run(s, Waits(turns[..i + 1])) == Next(Run(Run(s, Waits(turns[..i])), turns[i]), HandshakeReceive)
  {
    assert turns[..i + 1][..i] == turns[..i];
    RunConcat(s, Waits(turns[..i]), turns[i]);
    RunOneMore(s, Waits(turns[..i]) + turns[i], HandshakeReceive);
  }

  lemma UnansweredFirst(s: System, turns: seq<Turn>)
    requires s.client.awaiting
    ensures Unanswered(s, turns, 0)
  {
    RunNone(s);
    assert turns[..0] == [];
  }

  lemma UnansweredMore(s: System, turns: seq<Turn>, i: nat)
    requires i < |turns| && Unanswered(s, turns, i) && Run(s, Waits(turns[..i + 1])).client.awaiting
    ensures Unanswered(s, turns, i + 1)
  {
  }

  lemma StartInParts(s: System, newId: Captions.SessionId, hasUrl: bool, turns: seq<Turn>, expired: bool)
    ensures var rest := Waits(turns) + (if expired then [HandshakeTimeout] else []);
            Run(s, StartEvents(newId, hasUrl, turns, expired)) == Run(Next(s, BeginStart(newId, hasUrl)), rest)
  {
    var rest := Waits(turns) + (if expired then [HandshakeTimeout] else []);
    assert StartEvents(newId, hasUrl, turns, expired) == [BeginStart(newId, hasUrl)] + rest;
    RunConcat(s, [BeginStart(newId, hasUrl)], rest);
    RunOne(s, BeginStart(newId, hasUrl));
  }

  /**
    Every call leads from a system the object agrees with to another one, so the object always agrees with a system some
    run leads to. Of such an object: an active session has been taken up by the worker, and every caption it has shown was
    made only from the audio of the session that was current when it was shown.
   */
  lemma ClientIsSafe(client: SessionClient, past: seq<Event>)
    requires client.Idle(Run(Begin, past))
    ensures client.sessionActive ==> client.sessionId in Run(Begin, past).started
    ensures client.sessionActive ==> client.drawn != [] && client.sessionId == client.drawn[|client.drawn| - 1]
    ensures forall i :: 0 <= i < |client.shown| ==>
                          && client.shown[i].tag < |client.drawn|
                          && client.shown[i].segment.session == client.drawn[client.shown[i].tag]
                          && client.shown[i].segment.origin <= {client.shown[i].tag}
  {
    RunInv(Begin, past);
  }
}
