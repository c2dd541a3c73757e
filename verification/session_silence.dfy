/** What a stopped or paused worker still says: nothing. */
module SessionSilence {
  // After a session has been stopped the worker sends no caption until the next START, and after a pause none until the
  // session is resumed, whatever frames arrive, whatever the recogniser and the pool still finish, and however their
  // steps are interleaved.

  import opened Captions
  import opened Pipelines
  import opened WorkerSession

  /**
    Nothing heard or said before is left: no audio, no captions, no phrase remembered, no job or result, and what the
    threads still hold is outdated.
   */
  ghost predicate NothingHeld(w: Worker)
  {
    && w.audio == [] && w.pending == [] && w.remembered == {}
    && w.translator.jobs == [] && w.translator.results == []
    && forall job :: job in w.translator.inflight ==> job.epoch < w.translator.epoch
  }

  ghost predicate Silent(w: Worker)
  {
    (!w.active || w.paused) && NothingHeld(w)
  }

  ghost predicate NoCaption(replies: seq<FromWorker>)
  {
    forall i :: 0 <= i < |replies| ==> !replies[i].CaptionReply?
  }

  predicate Starts(a: Act) { a.Frame? && a.f.StartFrame? }

  predicate Unpauses(a: Act) { a.Frame? && (a.f.ResumeFrame? || (a.f.PositionFrame? && !a.f.pausedFlag)) }

  lemma PoolStaysSilent(w: Worker, step: PoolStep)
    requires Silent(w)
    ensures Silent(PoolDo(w, step).0) && NoCaption(PoolDo(w, step).1)
    ensures PoolDo(w, step).0.(translator := w.translator) == w
  {
  }

  lemma {:induction false} DrainStaysSilent(w: Worker, steps: seq<PoolStep>)
    requires Silent(w)
    ensures Silent(Drain(w, steps).0) && NoCaption(Drain(w, steps).1)
    ensures Drain(w, steps).0.(translator := w.translator) == w
    decreases |steps|
  {
    hide PoolDo, Silent;
    if steps != [] {
      PoolStaysSilent(w, steps[0]);
      DrainStaysSilent(PoolDo(w, steps[0]).0, steps[1..]);
    }
  }

  lemma StopStaysSilent(w: Worker, s: SessionId, reason: nat, c: Choice)
    requires Silent(w)
    ensures var (after, out) := HandleStop(w, s, reason, c);
            Silent(after) && NoCaption(out) && (!w.active ==> !after.active)
  {
    hide Drain, PoolDo;
    DrainStaysSilent(w, c.drain);
  }

  lemma ShutdownStaysSilent(w: Worker, c: Choice)
    requires Silent(w)
    ensures var (after, out) := HandleShutdown(w, c);
            Silent(after) && NoCaption(out) && (!w.active ==> !after.active)
  {
    hide Drain, PoolDo;
    DrainStaysSilent(w, c.drain);
  }

  lemma ActStaysSilent(w: Worker, a: Act)
    requires Silent(w) && !Starts(a) && (w.active ==> !Unpauses(a))
    ensures Silent(Do(w, a).0) && NoCaption(Do(w, a).1) && (!w.active ==> !Do(w, a).0.active)
  {
    hide HandleStop, HandleShutdown, PoolDo;
    match a
    case Frame(f, c) =>
      match f {
        case StopFrame(s, reason) => StopStaysSilent(w, s, reason, c);
        case ShutdownFrame => ShutdownStaysSilent(w, c);
        case _ =>
      }
    case PoolActs(step) => PoolStaysSilent(w, step);
    case _ =>
  }

  lemma {:induction false} SilentUntilStart(w: Worker, acts: seq<Act>)
    requires Silent(w) && !w.active && forall i :: 0 <= i < |acts| ==> !Starts(acts[i])
    ensures NoCaption(DoAll(w, acts).1)
    decreases |acts|
  {
    hide Do, Silent;
    if acts != [] {
      ActStaysSilent(w, acts[0]);
      SilentUntilStart(Do(w, acts[0]).0, acts[1..]);
    }
  }

  lemma {:induction false} SilentUntilWoken(w: Worker, acts: seq<Act>)
    requires Silent(w) && forall i :: 0 <= i < |acts| ==> !Starts(acts[i]) && !Unpauses(acts[i])
    ensures NoCaption(DoAll(w, acts).1)
    decreases |acts|
  {
    hide Do, Silent;
    if acts != [] {
      ActStaysSilent(w, acts[0]);
      SilentUntilWoken(Do(w, acts[0]).0, acts[1..]);
    }
  }

  // ----------------------------------------------------------- main results

  /** STOP of the current session, for whatever reason, leaves nothing of it. */
  lemma StopLeavesNothing(drawn: seq<SessionId>, w: Worker, reason: nat, c: Choice)
    requires WorkerOk(drawn, w)
    ensures NothingHeld(HandleStop(w, w.session, reason, c).0) && !HandleStop(w, w.session, reason, c).0.active
  {
    hide FinishAudio, FinishTranslation;
    FinishOk(drawn, w, reason == REASON_MEDIA_END, reason != REASON_SEEK, c);
  }

  /** So no caption follows a STOP before the next START. */
  lemma SilentAfterStop(drawn: seq<SessionId>, w: Worker, reason: nat, c: Choice, acts: seq<Act>)
    requires WorkerOk(drawn, w) && forall i :: 0 <= i < |acts| ==> !Starts(acts[i])
    ensures NoCaption(DoAll(HandleStop(w, w.session, reason, c).0, acts).1)
  {
    StopLeavesNothing(drawn, w, reason, c);
    SilentUntilStart(HandleStop(w, w.session, reason, c).0, acts);
  }

  /**
    No caption follows a PAUSE before the session is resumed, a position report lifts the pause, or another START: not
    from the audio buffered before, not from cues in translation, not from a STOP or a shutdown with its drain.
   */
  lemma SilentAfterPause(drawn: seq<SessionId>, w: Worker, acts: seq<Act>)
    requires WorkerOk(drawn, w) && w.active
    requires forall i :: 0 <= i < |acts| ==> !Starts(acts[i]) && !Unpauses(acts[i])
    ensures NoCaption(DoAll(HandlePause(w, w.session).0, acts).1)
  {
    SilentUntilWoken(HandlePause(w, w.session).0, acts);
  }
}
