/**
  What a frame from the plugin does to the worker, one variable at a time over all frames: which session there is, whether
  it is active, paused or decodes its own file, what is buffered, the translation settings and epoch, whether the worker
  runs on, and what it answers besides captions.
 */
module WorkerReplies {
  import opened Captions
  import opened Pipelines
  import opened PluginFrames
  import opened WorkerSession

  /** A START the worker can serve: of another session than the active one, with a model and a language it knows. */
  predicate TakenUp(w: Worker, f: PluginFrame, c: Choice)
  {
    f.Start? && f.formatOk && !(w.active && w.session == f.session) && c.engineReady && c.languageOk
  }

  /** A START of another session ends the active one, whether or not it can be served. */
  predicate Replaces(w: Worker, f: PluginFrame)
  {
    f.Start? && f.formatOk && w.active && w.session != f.session
  }

  predicate Ours(w: Worker, s: SessionId)
  {
    w.active && w.session == s
  }

  predicate HasFile(w: Worker)
  {
    w.sourceMode && w.decoder.Some?
  }

  predicate Stops(w: Worker, f: PluginFrame)
  {
    f.Stop? && f.session == w.session
  }

  /** Audio of the active session that hears live audio. */
  predicate Heard(w: Worker, f: PluginFrame)
  {
    f.Audio? && Ours(w, f.session) && !w.paused && !w.sourceMode
  }

  /** The buffered rest of live audio is recognised when its media ends and when the worker does. */
  predicate FlushesTail(w: Worker, f: PluginFrame)
  {
    && ((Stops(w, f) && f.reason == 3) || (f.Shutdown? && w.active))
    && !w.sourceMode && w.audio != []
  }

  /** A position report that seeks in the session's own file. */
  predicate Seeks(w: Worker, f: PluginFrame, c: Choice)
  {
    f.Position? && Ours(w, f.session) && HasFile(w) && c.mustSeek && c.seeks
  }

  predicate SeeksBack(w: Worker, f: PluginFrame, c: Choice)
  {
    f.Resume? && Ours(w, f.session) && HasFile(w) && c.seeks
  }

  // ------------------------------------------------------- session variables

  /** Only a START that is taken up changes the session; it ends with its STOP, or when another one begins. */
  lemma SessionIs(w: Worker, f: PluginFrame, c: Choice)
    ensures var after := Handle(w, Seen(f), c).0;
            && after.session == (if TakenUp(w, f, c) then f.session else w.session)
            && (after.active <==> TakenUp(w, f, c) || (w.active && !Replaces(w, f) && !Stops(w, f)))
  {
    hide Handle;
    match f
    case Start(_, _, _, _, _, _) => StartLeaves(w, f, c);
    case Position(_, _, _, _) => PositionLeaves(w, f, c);
    case Stop(_, _) => HandleKeeps(w, f, c);
    case Shutdown => HandleKeeps(w, f, c);
    case Audio(_, _, _, _) => HandleKeeps(w, f, c);
    case Pause(_) => PauseLeaves(w, f, c);
    case Resume(_) => PauseLeaves(w, f, c);
    case _ => SettingsLeave(w, f, c);
  }

  /** A session begins unpaused; PAUSE, RESUME and the flag of POSITION say what it is afterwards. */
  lemma PausedIs(w: Worker, f: PluginFrame, c: Choice)
    ensures Handle(w, Seen(f), c).0.paused <==>
            if TakenUp(w, f, c) then false
            else if f.Pause? && Ours(w, f.session) then true
            else if f.Resume? && Ours(w, f.session) then false
            else if f.Position? && Ours(w, f.session) then f.pausedFlag
            else w.paused
  {
    hide Handle;
    match f
    case Start(_, _, _, _, _, _) => StartLeaves(w, f, c);
    case Position(_, _, _, _) => PositionLeaves(w, f, c);
    case Stop(_, _) => HandleKeeps(w, f, c);
    case Shutdown => HandleKeeps(w, f, c);
    case Audio(_, _, _, _) => HandleKeeps(w, f, c);
    case Pause(_) => PauseLeaves(w, f, c);
    case Resume(_) => PauseLeaves(w, f, c);
    case _ => SettingsLeave(w, f, c);
  }

  /** The worker ends with SHUTDOWN, with a frame it cannot read, and when the recogniser fails on audio it is given. */
  lemma RunsOnIff(w: Worker, f: PluginFrame, c: Choice)
    ensures Handle(w, Seen(f), c).0.running <==>
            && w.running && !f.Shutdown? && !f.Bad?
            && (c.inferenceOk || !(FlushesTail(w, f) ||
                                   (Heard(w, f) && !c.invalidPts && f.pcm != [])))
  {
    hide Handle;
    match f
    case Start(_, _, _, _, _, _) => StartLeaves(w, f, c);
    case Position(_, _, _, _) => PositionLeaves(w, f, c);
    case Stop(_, _) => HandleKeeps(w, f, c);
    case Shutdown => HandleKeeps(w, f, c);
    case Audio(_, _, _, _) => HandleKeeps(w, f, c);
    case Pause(_) => PauseLeaves(w, f, c);
    case Resume(_) => PauseLeaves(w, f, c);
    case _ => SettingsLeave(w, f, c);
  }

  /** The session's own file: open if a START names one that can be opened and sought; closed when the session ends. */
  lemma FileIsOpenIff(w: Worker, f: PluginFrame, c: Choice)
    ensures var after := Handle(w, Seen(f), c).0;
            if TakenUp(w, f, c) then
              if f.url != "" && c.opens && c.seeks then after.sourceMode && after.decoder == Some(f.tag)
              else !after.sourceMode && after.decoder == None
            else if Stops(w, f) || f.Shutdown? then
              after.decoder == None && (after.sourceMode <==> w.sourceMode && w.decoder.None?)
            else
              && after.sourceMode == w.sourceMode
              && after.decoder == if Replaces(w, f) then None else w.decoder
  {
    hide Handle;
    match f
    case Start(_, _, _, _, _, _) => StartLeaves(w, f, c);
    case Position(_, _, _, _) => PositionLeaves(w, f, c);
    case Stop(_, _) => HandleKeeps(w, f, c);
    case Shutdown => HandleKeeps(w, f, c);
    case Audio(_, _, _, _) => HandleKeeps(w, f, c);
    case Pause(_) => PauseLeaves(w, f, c);
    case Resume(_) => PauseLeaves(w, f, c);
    case _ => SettingsLeave(w, f, c);
  }

  /** TRANSLATE_CTRL of the session sets the switch and the languages, and nothing else does. */
  lemma TranslationSettingsAre(w: Worker, f: PluginFrame, c: Choice)
    ensures var after := Handle(w, Seen(f), c).0;
            if f.Translate? && f.session == w.session
            then after.translating == f.enabled && after.sourceLang == f.sourceLang && after.targetLang == f.targetLang
            else
              after.translating == w.translating && after.sourceLang == w.sourceLang && after.targetLang == w.targetLang
  {
    hide Handle;
    match f
    case Start(_, _, _, _, _, _) => StartLeaves(w, f, c);
    case Position(_, _, _, _) => PositionLeaves(w, f, c);
    case Stop(_, _) => HandleKeeps(w, f, c);
    case Shutdown => HandleKeeps(w, f, c);
    case Audio(_, _, _, _) => HandleKeeps(w, f, c);
    case Pause(_) => PauseLeaves(w, f, c);
    case Resume(_) => PauseLeaves(w, f, c);
    case _ => SettingsLeave(w, f, c);
  }

  // --------------------------------------------------------------- the stores

  /** Frames after which nothing heard before can be shown any more. */
  predicate Empties(w: Worker, f: PluginFrame, c: Choice)
  {
    || TakenUp(w, f, c) || Stops(w, f) || Seeks(w, f, c) || SeeksBack(w, f, c)
    || (f.Pause? && Ours(w, f.session))
    || (f.Position? && Ours(w, f.session) && f.pausedFlag && !w.paused)
    || (f.Position? && Ours(w, f.session) && !f.pausedFlag && w.paused && HasFile(w) && c.resumes)
    || (Heard(w, f) && c.invalidPts)
  }

  /**
    What is buffered, pending and remembered is dropped by exactly these frames; a START that replaces a session but
    cannot be served leaves what is remembered. All other frames leave it alone, but for the audio that is heard and the
    tail that is recognised.
   */
  lemma StoresAre(w: Worker, f: PluginFrame, c: Choice)
    ensures var after := Handle(w, Seen(f), c).0;
            if Empties(w, f, c) then after.audio == [] && after.pending == [] && after.remembered == {}
            else if Replaces(w, f) then after.audio == [] && after.pending == [] && after.remembered == w.remembered
            else if FlushesTail(w, f) || (Heard(w, f) && f.pcm != []) then true
            else after.audio == w.audio && after.pending == w.pending && after.remembered == w.remembered
  {
    hide Handle;
    match f
    case Start(_, _, _, _, _, _) => StartLeaves(w, f, c);
    case Position(_, _, _, _) => PositionLeaves(w, f, c);
    case Stop(_, _) => HandleKeeps(w, f, c);
    case Shutdown => HandleKeeps(w, f, c);
    case Audio(_, _, _, _) => HandleKeeps(w, f, c);
    case Pause(_) => PauseLeaves(w, f, c);
    case Resume(_) => PauseLeaves(w, f, c);
    case _ => SettingsLeave(w, f, c);
  }

  /** Before it is recognised, audio that is heard joins the newest 960_000 samples, or replaces them after a gap. */
  lemma HeardAudioIsBuffered(w: Worker, f: PluginFrame, c: Choice)
    requires Heard(w, f) && !c.invalidPts && c.rounds == [] && |w.audio| <= 960_000
    ensures var after := Handle(w, Seen(f), c).0.audio;
            var all := (if c.discontinuity then [] else w.audio) + seq(|f.pcm|, _ => f.tag);
            after == if f.pcm == [] then w.audio else if |all| <= 960_000 then all else all[|all| - 960_000..]
  {
  }

  /** A new epoch of translation begins with a session, when one ends or is paused, with a seek, and with new settings. */
  lemma EpochIs(w: Worker, f: PluginFrame, c: Choice)
    ensures Handle(w, Seen(f), c).0.translator.epoch == w.translator.epoch +
            if TakenUp(w, f, c) || Stops(w, f) || Seeks(w, f, c) || SeeksBack(w, f, c) ||
               (f.Pause? && Ours(w, f.session)) || (f.Translate? && f.session == w.session) then 1 else 0
  {
    hide Handle;
    match f
    case Start(_, _, _, _, _, _) => StartLeaves(w, f, c);
    case Position(_, _, _, _) => PositionLeaves(w, f, c);
    case Stop(_, _) => HandleKeeps(w, f, c);
    case Shutdown => HandleKeeps(w, f, c);
    case Audio(_, _, _, _) => HandleKeeps(w, f, c);
    case Pause(_) => PauseLeaves(w, f, c);
    case Resume(_) => PauseLeaves(w, f, c);
    case _ => SettingsLeave(w, f, c);
  }

  // ---------------------------------------------------------------- answers

  function Answers(replies: seq<FromWorker>): seq<FromWorker>
  {
    if replies == [] then []
    else (if replies[0].CaptionReply? then [] else [replies[0]]) + Answers(replies[1..])
  }

  lemma {:induction false} AnswersJoin(a: seq<FromWorker>, b: seq<FromWorker>)
    ensures Answers(a + b) == Answers(a) + Answers(b)
    decreases |a|
  {
    if a == [] {
      assert a + b == b;
    } else {
      assert (a + b)[1..] == a[1..] + b;
      AnswersJoin(a[1..], b);
    }
  }

  // ------------------------------------------------------ what loops leave alone

  lemma DoKeeps(w: Worker, step: PoolStep)
    ensures var (after, replies) := PoolDo(w, step);
            after.(translator := w.translator) == w && after.translator.epoch == w.translator.epoch && Answers(replies) == []
  {
    hide ThreadResult, FindNext, CanTake;
    match step
    case PoolComplete(job, outcome) =>
      if job in w.translator.inflight {
        CompleteKeepsEpoch(w.translator, job, outcome);
      }
    case PoolDeliver =>
      DeliverKeepsEpoch(w.translator);
      var sent := DeliverOne(w).1;
      assert sent != [] ==> sent[1..] == [];
    case PoolTake =>
  }

  lemma CompleteKeepsEpoch(p: Pipeline, job: Job, outcome: Outcome)
    requires job in p.inflight
    ensures Complete(p, job, outcome).epoch == p.epoch
  {
    hide ThreadResult;
  }

  lemma DeliverKeepsEpoch(p: Pipeline)
    ensures Deliver(p).0.epoch == p.epoch
  {
    hide FindNext;
  }

  lemma {:induction false} DrainKeeps(w: Worker, steps: seq<PoolStep>)
    ensures var (after, replies) := Drain(w, steps);
            after.(translator := w.translator) == w && after.translator.epoch == w.translator.epoch && Answers(replies) == []
    decreases |steps|
  {
    hide PoolDo;
    if steps != [] {
      DoKeeps(w, steps[0]);
      var (w1, out1) := PoolDo(w, steps[0]);
      DrainKeeps(w1, steps[1..]);
      AnswersJoin(out1, Drain(w1, steps[1..]).1);
    }
  }

  lemma EmitKeeps(w: Worker)
    ensures var (after, replies) := EmitOne(w);
            && after.(pending := w.pending, translator := w.translator) == w
            && after.translator.epoch == w.translator.epoch && Answers(replies) == []
  {
    hide Accepts, EvictOldest, Language;
    EvictKeepsEpoch(w.translator);
  }

  lemma EvictKeepsEpoch(p: Pipeline)
    ensures EvictOldest(p).epoch == p.epoch
  {
  }

  lemma {:induction false} EmitAllKeeps(w: Worker)
    ensures var (after, replies) := EmitAll(w);
            && after.(pending := w.pending, translator := w.translator) == w
            && after.translator.epoch == w.translator.epoch && Answers(replies) == []
    decreases |w.pending|
  {
    hide EmitOne;
    if w.pending != [] {
      EmitShrinks(w);
      EmitKeeps(w);
      var (w1, out1) := EmitOne(w);
      EmitAllKeeps(w1);
      AnswersJoin(out1, EmitAll(w1).1);
    }
  }

  lemma EmitShrinks(w: Worker)
    requires w.pending != []
    ensures |EmitOne(w).0.pending| < |w.pending|
    ensures EmitAll(w) == (EmitAll(EmitOne(w).0).0, EmitOne(w).1 + EmitAll(EmitOne(w).0).1)
  {
    hide Submit, Accepts;
  }

  /** Recognising the tail. */
  lemma TailKeeps(w: Worker, wanted: bool, c: Choice)
    ensures var (after, replies) := FinishAudio(w, wanted, c);
            var flushes := wanted && !w.sourceMode && w.audio != [];
            && after.(pending := w.pending, remembered := w.remembered, nextSegmentId := w.nextSegmentId,
                      audio := w.audio, translator := w.translator, running := w.running) == w
            && after.translator.epoch == w.translator.epoch
            && after.running == (w.running && (!flushes || c.inferenceOk))
            && Answers(replies) == (if flushes && !c.inferenceOk then [ErrorReply(w.session, 9, false)] else [])
  {
    hide Infer, EmitAll;
    InferKeepsSession(w, c.rounds);
    EmitAllKeeps(Infer(w, c.rounds));
    FewAnswers(ErrorReply(w.session, 9, false), w.session);
  }

  lemma WaitKeeps(w: Worker, wanted: bool, c: Choice)
    ensures var (after, replies) := FinishTranslation(w, wanted, c);
            after.(translator := w.translator) == w && after.translator.epoch == w.translator.epoch && Answers(replies) == []
  {
    hide Drain;
    DrainKeeps(w, c.drain);
  }

  /** The session's variables, but for the stores, whether it runs and the translator. */
  predicate SameSession(after: Worker, w: Worker)
  {
    && after.session == w.session && after.paused == w.paused && after.translating == w.translating
    && after.sourceLang == w.sourceLang && after.targetLang == w.targetLang
  }

  lemma StopLeaves(w: Worker, s: SessionId, reason: nat, c: Choice)
    ensures var after := HandleStop(w, s, reason, c).0;
            if s != w.session then after == w
            else
              && SameSession(after, w) && !after.active && after.decoder == None
              && after.sourceMode == (w.sourceMode && w.decoder.None?)
              && after.audio == [] && after.pending == [] && after.remembered == {}
              && after.translator.epoch == w.translator.epoch + 1
              && after.running == (w.running && (c.inferenceOk || reason != 3 || w.sourceMode || w.audio == []))
  {
    hide FinishAudio, FinishTranslation, ClearAll, CloseDecoder;
    TailKeeps(w, reason == 3, c);
    var w1 := FinishAudio(w, reason == 3, c).0;
    WaitKeeps(w1, reason != 2, c);
    EndLeaves(FinishTranslation(w1, reason != 2, c).0);
  }

  lemma EndLeaves(w: Worker)
    ensures var after := ClearAll(CloseDecoder(w)).(active := false);
            && SameSession(after, w) && !after.active && after.decoder == None && after.running == w.running
            && after.sourceMode == (w.sourceMode && w.decoder.None?)
            && after.audio == [] && after.pending == [] && after.remembered == {}
            && after.translator.epoch == w.translator.epoch + 1
  {
  }

  lemma ShutdownLeaves(w: Worker, c: Choice)
    ensures var after := HandleShutdown(w, c).0;
            && SameSession(after, w) && after.active == w.active && !after.running && after.decoder == None
            && after.sourceMode == (w.sourceMode && w.decoder.None?)
            && after.translator.epoch == w.translator.epoch
            && ((w.active && !w.sourceMode && w.audio != []) ||
                (after.audio == w.audio && after.pending == w.pending && after.remembered == w.remembered))
  {
    hide FinishTranslation, Infer, EmitAll;
    TailKeeps(w, w.active, c);
    WaitKeeps(FinishAudio(w, w.active, c).0, true, c);
  }

  lemma AudioLeaves(w: Worker, s: SessionId, tag: nat, samples: nat, c: Choice)
    ensures var after := HandleAudio(w, s, tag, samples, c).0;
            var heard := Ours(w, s) && !w.paused && !w.sourceMode;
            && SameSession(after, w) && after.active == w.active && after.decoder == w.decoder
            && after.sourceMode == w.sourceMode && after.translator == w.translator
            && after.running == (w.running && (c.inferenceOk || !heard || c.invalidPts || samples == 0))
            && (heard && c.invalidPts ==> after.audio == [] && after.pending == [] && after.remembered == {})
            && (!heard || (!c.invalidPts && samples == 0) ==>
                  after.audio == w.audio && after.pending == w.pending && after.remembered == w.remembered)
  {
    hide Infer, Reports, Append;
    InferKeepsSession(w.(audio := Append(if c.discontinuity then [] else w.audio, tag, samples)), c.rounds);
  }

  /** What the three handlers with loops leave, so that the others can be looked at one by one. */
  lemma HandleKeeps(w: Worker, f: PluginFrame, c: Choice)
    ensures f.Stop? ==>
              var after := Handle(w, Seen(f), c).0;
              if f.session != w.session then after == w
              else
                && SameSession(after, w) && !after.active && after.decoder == None
                && after.sourceMode == (w.sourceMode && w.decoder.None?)
                && after.audio == [] && after.pending == [] && after.remembered == {}
                && after.translator.epoch == w.translator.epoch + 1
                && after.running == (w.running && (c.inferenceOk || !FlushesTail(w, f)))
    ensures f.Shutdown? ==>
              var after := Handle(w, Seen(f), c).0;
              && SameSession(after, w) && after.active == w.active && !after.running && after.decoder == None
              && after.sourceMode == (w.sourceMode && w.decoder.None?)
              && after.translator.epoch == w.translator.epoch
              && (!FlushesTail(w, f) ==>
                    after.audio == w.audio && after.pending == w.pending && after.remembered == w.remembered)
    ensures f.Audio? ==>
              var after := Handle(w, Seen(f), c).0;
              && SameSession(after, w) && after.active == w.active && after.decoder == w.decoder
              && after.sourceMode == w.sourceMode && after.translator == w.translator
              && after.running == (w.running && (c.inferenceOk || !Heard(w, f) || c.invalidPts || f.pcm == []))
              && (Heard(w, f) && c.invalidPts ==> after.audio == [] && after.pending == [] && after.remembered == {})
              && (!Heard(w, f) || (!c.invalidPts && f.pcm == []) ==>
                    after.audio == w.audio && after.pending == w.pending && after.remembered == w.remembered)
  {
    hide HandleStop, HandleShutdown, HandleAudio, SameSession;
    match f
    case Stop(s, reason) => StopLeaves(w, s, reason, c);
    case Shutdown => ShutdownLeaves(w, c);
    case Audio(s, tag, pcm, _) => AudioLeaves(w, s, tag, |pcm|, c);
    case _ =>
  }

  /** A START that is refused leaves the worker as it is, or without the session it would have replaced. */
  lemma StartLeaves(w: Worker, f: PluginFrame, c: Choice)
    requires f.Start?
    ensures var after := Handle(w, Seen(f), c).0;
            && after.running == w.running && after.translating == w.translating && after.sourceLang == w.sourceLang
            && after.targetLang == w.targetLang
            && if TakenUp(w, f, c) then
                 && after.session == f.session && after.active && !after.paused
                 && after.sourceMode == (f.url != "" && c.opens && c.seeks)
                 && after.decoder == (if after.sourceMode then Some(f.tag) else None)
                 && after.audio == [] && after.pending == [] && after.remembered == {}
                 && after.translator.epoch == w.translator.epoch + 1
               else if Replaces(w, f) then
                 && after == w.(active := false, decoder := None, audio := [], pending := [])
               else after == w
  {
    hide BeginNew, DropBuffers;
    ReplacedIs(w);
    var left := if w.active then w.(active := false, decoder := None, audio := [], pending := []) else w;
    BeginLeaves(left, f.session, f.tag, f.url != "", c);
  }

  lemma ReplacedIs(w: Worker)
    ensures DropBuffers(w).(decoder := None, active := false) ==
            w.(active := false, decoder := None, audio := [], pending := [])
  {
  }

  lemma BeginLeaves(w: Worker, s: SessionId, tag: nat, hasUrl: bool, c: Choice)
    ensures var after := BeginNew(w, s, tag, hasUrl, c).0;
            if !(c.engineReady && c.languageOk) then after == w
            else
              && after.running == w.running && after.translating == w.translating && after.sourceLang == w.sourceLang
              && after.targetLang == w.targetLang && after.session == s && after.active && !after.paused
              && after.sourceMode == (hasUrl && c.opens && c.seeks)
              && after.decoder == (if after.sourceMode then Some(tag) else None)
              && after.audio == [] && after.pending == [] && after.remembered == {}
              && after.translator.epoch == w.translator.epoch + 1
  {
    hide Invalidate;
    EpochBegins(w.translator);
  }

  lemma EpochBegins(p: Pipeline)
    ensures Invalidate(p).epoch == p.epoch + 1
  {
  }

  lemma PositionLeaves(w: Worker, f: PluginFrame, c: Choice)
    requires f.Position?
    ensures var after := Handle(w, Seen(f), c).0;
            && after.session == w.session && after.active == w.active && after.running == w.running
            && after.sourceMode == w.sourceMode && after.decoder == w.decoder && after.translating == w.translating
            && after.sourceLang == w.sourceLang && after.targetLang == w.targetLang
            && after.paused == (if Ours(w, f.session) then f.pausedFlag else w.paused)
            && after.translator.epoch == w.translator.epoch + (if Seeks(w, f, c) then 1 else 0)
            && if Empties(w, f, c) then after.audio == [] && after.pending == [] && after.remembered == {}
               else after.audio == w.audio && after.pending == w.pending && after.remembered == w.remembered
  {
    hide ClearAll, ClearBuffers;
    ClearedAre(w);
    if Ours(w, f.session) {
      var toggled := if f.pausedFlag == w.paused then w
                     else if f.pausedFlag || (HasFile(w) && c.resumes) then ClearBuffers(w).(paused := f.pausedFlag)
                     else w.(paused := f.pausedFlag);
      ClearedAre(toggled);
    }
  }

  lemma ClearedAre(w: Worker)
    ensures ClearBuffers(w) == w.(audio := [], pending := [], remembered := {})
    ensures ClearAll(w) == w.(audio := [], pending := [], remembered := {}, translator := ClearAll(w).translator)
    ensures ClearAll(w).translator.epoch == w.translator.epoch + 1
  {
  }

  lemma PauseLeaves(w: Worker, f: PluginFrame, c: Choice)
    requires f.Pause? || f.Resume?
    ensures var after := Handle(w, Seen(f), c).0;
            && after.session == w.session && after.active == w.active && after.running == w.running
            && after.sourceMode == w.sourceMode && after.decoder == w.decoder && after.translating == w.translating
            && after.sourceLang == w.sourceLang && after.targetLang == w.targetLang
            && after.paused == (if Ours(w, f.session) then f.Pause? else w.paused)
            && after.translator.epoch == w.translator.epoch + (if Empties(w, f, c) then 1 else 0)
            && if Empties(w, f, c) then after.audio == [] && after.pending == [] && after.remembered == {}
               else after.audio == w.audio && after.pending == w.pending && after.remembered == w.remembered
  {
    hide ClearAll;
    ClearedAre(w);
    ClearedAre(w.(paused := false));
  }

  lemma SettingsLeave(w: Worker, f: PluginFrame, c: Choice)
    requires f.Translate? || f.Bad? || f.Other?
    ensures var after := Handle(w, Seen(f), c).0;
            && after.session == w.session && after.active == w.active && after.running == (w.running && !f.Bad?)
            && after.sourceMode == w.sourceMode && after.decoder == w.decoder && after.paused == w.paused
            && (if f.Translate? && f.session == w.session
                then
                  && after.translating == f.enabled && after.sourceLang == f.sourceLang && after.targetLang == f.targetLang
                  && after.translator.epoch == w.translator.epoch + 1
                else
                  && after.translating == w.translating && after.sourceLang == w.sourceLang
                  && after.targetLang == w.targetLang && after.translator.epoch == w.translator.epoch)
            && after.audio == w.audio && after.pending == w.pending && after.remembered == w.remembered
  {
    hide Invalidate;
    EpochBegins(w.translator);
  }

  lemma FewAnswers(reply: FromWorker, s: SessionId)
    requires !reply.CaptionReply?
    ensures Answers([reply]) == [reply] && Answers([]) == [] && Answers([StatusReply(s)]) == [StatusReply(s)]
  {
    assert [reply][1..] == [] && [StatusReply(s)][1..] == [];
  }

  lemma StopAnswers(w: Worker, s: SessionId, reason: nat, c: Choice)
    ensures Answers(HandleStop(w, s, reason, c).1) ==
            if s != w.session then []
            else if reason == 3 && !w.sourceMode && w.audio != [] && !c.inferenceOk
            then [ErrorReply(w.session, 9, false)]
            else if w.running then [StatusReply(s)] else []
  {
    hide FinishAudio, FinishTranslation, ClearAll, CloseDecoder;
    TailKeeps(w, reason == 3, c);
    var (w1, out1) := FinishAudio(w, reason == 3, c);
    WaitKeeps(w1, reason != 2, c);
    var (w2, out2) := FinishTranslation(w1, reason != 2, c);
    AnswersJoin(out1, out2);
    var status := if w2.running then [StatusReply(s)] else [];
    AnswersJoin(out1 + out2, status);
    FewAnswers(StatusReply(s), s);
  }

  lemma ShutdownAnswers(w: Worker, c: Choice)
    ensures Answers(HandleShutdown(w, c).1) ==
            if !(w.active && !w.sourceMode && w.audio != []) then []
            else if c.inferenceOk then [StatusReply(w.session)] else [ErrorReply(w.session, 9, false)]
  {
    hide FinishAudio, FinishTranslation, CloseDecoder;
    TailKeeps(w, w.active, c);
    var (w1, out1) := FinishAudio(w, w.active, c);
    WaitKeeps(w1, true, c);
    var status := if w.active && !w.sourceMode && w.audio != [] && c.inferenceOk then [StatusReply(w.session)] else [];
    AnswersJoin(out1, status);
    AnswersJoin(out1 + status, FinishTranslation(w1, true, c).1);
    FewAnswers(StatusReply(w.session), w.session);
  }

  lemma StartAnswersAre(w: Worker, f: PluginFrame, c: Choice)
    ensures f.Start? ==> Answers(AnswersToStart(w, f, c)) == AnswersToStart(w, f, c)
    ensures f.Start? ==> Handle(w, Seen(f), c).1 == AnswersToStart(w, f, c)
  {
    hide ClearAll, DropBuffers;
    if f.Start? {
      NothingElseAnswers(AnswersToStart(w, f, c));
    }
  }

  lemma {:induction false} NothingElseAnswers(replies: seq<FromWorker>)
    requires forall i :: 0 <= i < |replies| ==> !replies[i].CaptionReply?
    ensures Answers(replies) == replies
  {
    if replies != [] {
      NothingElseAnswers(replies[1..]);
    }
  }

  /** The answers to a START: an error that says why it is refused, or STARTED and a status. */
  function AnswersToStart(w: Worker, f: PluginFrame, c: Choice): seq<FromWorker>
    requires f.Start?
  {
    var s := f.session;
    if !f.formatOk then [ErrorReply(s, 5, true)]
    else if w.active && w.session == s then [ErrorReply(s, 9, true)]
    else if !c.engineReady then [ErrorReply(s, 3, false)]
    else if !c.languageOk then [ErrorReply(s, 9, true)]
    else
      (if f.url != "" && !c.opens then [ErrorReply(s, 10, true)] else []) +
      [StartedReply(s, f.url != "" && c.opens && c.seeks), StatusReply(s)]
  }

  /** What the worker answers besides captions. */
  lemma AnswersAre(w: Worker, f: PluginFrame, c: Choice)
    ensures var failed := [ErrorReply(w.session, 9, false)];
            Answers(Handle(w, Seen(f), c).1) ==
            match f
            case Start(_, _, _, _, _, _) => AnswersToStart(w, f, c)
            case Stop(s, _) =>
              if s != w.session then []
              else if FlushesTail(w, f) && !c.inferenceOk then failed
              else if w.running then [StatusReply(s)] else []
            case Audio(_, _, pcm, _) =>
              if !Heard(w, f) || c.invalidPts || pcm == [] then []
              else Answers(Reports(w.session, c.rounds)) + if c.inferenceOk then [] else failed
            case Pause(s) => if Ours(w, s) then [StatusReply(s)] else []
            case Resume(s) => if Ours(w, s) then [StatusReply(s)] else []
            case Position(s, _, pausedFlag, _) => if Ours(w, s) && pausedFlag != w.paused then [StatusReply(s)] else []
            case Shutdown =>
              if !FlushesTail(w, f) then [] else if c.inferenceOk then [StatusReply(w.session)] else failed
            case _ => []
  {
    hide Infer, EmitAll, Reports, Drain, Queue;
    match f
    case Stop(s, reason) => StopAnswers(w, s, reason, c);
    case Shutdown => ShutdownAnswers(w, c);
    case Audio(_, _, _, _) =>
      AnswersJoin(Reports(w.session, c.rounds), [ErrorReply(w.session, 9, false)]);
      FewAnswers(ErrorReply(w.session, 9, false), w.session);
    case _ =>
      FewAnswers(StatusReply(w.session), w.session);
      StartAnswersAre(w, f, c);
  }

  // --------------------------------------------------------- captions and decoding

  /**
    The oldest pending caption goes to the translator when translation is on and there is room: fewer than 34 cues in all,
    1 to 1024 bytes of text. Otherwise it is sent as it is, under the session's id, marked when translation was wanted.
   */
  lemma CaptionIsEmitted(w: Worker)
    requires w.pending != []
    ensures var (after, replies) := EmitOne(w);
            var p, t := w.pending[0], w.translator;
            var cue := CaptionSegment(w.session, p.id, p.e.startUs, p.e.endUs, p.e.text, None, false, 0, 0, p.origin);
            var room := |t.jobs| + |t.inflight| + |t.results| < 34;
            && after == w.(pending := w.pending[1..], translator := after.translator)
            && if w.translating && !t.stopping && room && 1 <= |p.e.text| <= 1024
               then replies == [] && after.translator == Submit(t, cue, w.sourceLang, w.targetLang)
               else replies == [CaptionReply(cue.(attempted := w.translating))] && after.translator == t
  {
    hide EvictOldest, NewJob;
  }

  /** A result that comes next is sent as it was delivered, if its session is the active one. */
  lemma ResultIsSentIff(w: Worker)
    ensures var (after, replies) := DeliverOne(w);
            var (p, r) := Deliver(w.translator);
            && after == w.(translator := p)
            && (replies == [] || (r.Some? && replies == [CaptionReply(r.value.segment)]))
            && (replies != [] <==> r.Some? && w.active && r.value.segment.session == w.session)
  {
    hide Deliver;
  }

  /**
    The look-ahead of an active session that is not paused: a read error ends the session with everything of it, audio is
    recognised as live audio is. Without an open file nothing happens.
   */
  lemma DecodingIs(w: Worker, samples: nat, readError: bool, c: Choice)
    ensures var (after, replies) := DecodeStep(w, samples, readError, c);
            var looks, failed := w.active && HasFile(w) && !w.paused, [ErrorReply(w.session, 9, false)];
            if !looks then after == w && replies == []
            else if readError then
              && replies == failed && SameSession(after, w) && after.running == w.running
              && !after.active && !after.sourceMode && after.decoder == None
              && after.audio == [] && after.pending == [] && after.remembered == {}
              && after.translator.epoch == w.translator.epoch + 1
            else
              && SameSession(after, w) && after.active && HasFile(after) && after.decoder == w.decoder
              && after.translator == w.translator && after.running == (w.running && c.inferenceOk)
              && Answers(replies) == Answers(Reports(w.session, c.rounds)) + (if c.inferenceOk then [] else failed)
              && (c.rounds == [] ==>
                    after.audio == Append(if c.discontinuity then [] else w.audio, w.decoder.value, samples))
  {
    hide Infer, Reports, Append, ClearAll;
    ClearedAre(w);
    InferNone(w, c, samples);
    if w.decoder.Some? {
      var w1 := w.(audio := Append(if c.discontinuity then [] else w.audio, w.decoder.value, samples));
      InferKeepsSession(w1, c.rounds);
    }
    AnswersJoin(Reports(w.session, c.rounds), [ErrorReply(w.session, 9, false)]);
    FewAnswers(ErrorReply(w.session, 9, false), w.session);
  }

  lemma InferNone(w: Worker, c: Choice, samples: nat)
    ensures c.rounds == [] ==> forall w1: Worker :: Infer(w1, c.rounds) == w1
  {
  }
}
