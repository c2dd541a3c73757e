/**
  The wait for STARTED on bytes and the wait in the session model are the same wait: what the byte reader makes of a frame
  is what the model's client makes of the message the frame carries.
 */
module SessionHandshakes {
  import opened Captions
  import opened ClientReaders
  import opened Frames
  import opened Payloads
  import opened Wire
  import SessionEpochs
  import opened WorkerSession

  /** A session id as the sixteen bytes of it. */
  function IdBytes(s: SessionId): seq<byte> { ToLe(s as nat, 16) }

  /** The frame is how a worker of the current minor version puts the message on the pipe. */
  ghost predicate Carries(f: Frame, m: FromWorker)
  {
    match m
    case StartedReply(s, sourceActive) =>
      && f.msgType == STARTED && |f.payload| == STARTED_BYTES
      && DecodePayload(STARTED, f.payload) == Some([B(IdBytes(s)), N(if sourceActive then 1 else 0)])
    case ErrorReply(s, code, recoverable) =>
      && f.msgType == ERROR && f.payload != [] && 1 <= code <= ERROR_MAX
      && exists text :: DecodePayload(ERROR, f.payload) ==
                        Some([B(IdBytes(s)), N(code), N(if recoverable then 1 else 0), B(text)])
    case _ => f.msgType != STARTED && f.msgType != ERROR
  }

  lemma IdsDiffer(s: SessionId, t: SessionId)
    ensures IdBytes(s) == IdBytes(t) <==> s == t
  {
    Power256Of16();
    LeRoundTrip(s as nat, 16);
    LeRoundTrip(t as nat, 16);
  }

  lemma Power256Of16()
    ensures Power256(16) == 0x1_0000_0000_0000_0000_0000_0000_0000_0000
  {
    assert Power256(8) == TWO_64;
    assert Power256(12) == 0x1_0000_0000 * TWO_64;
  }

  /** What the byte reader makes of the frame, header check included. */
  function ReaderSays(f: Frame, session: SessionId, last: nat): Verdict
  {
    if BadStarted(HeaderOf(f), Some(last), 6) then Broken else Judge(f, IdBytes(session))
  }

  /** Going on, confirmed, refused or broken on the bytes is the same in the model. */
  lemma SameWait(c: SessionEpochs.Client, f: Frame, m: FromWorker)
    requires c.connected && c.awaiting && !c.active && Carries(f, m)
    ensures var verdict := ReaderSays(f, c.session, c.lastWorkerSequence);
            var after := SessionEpochs.HandshakeStep(c, SessionEpochs.Numbered(f.sequence, m));
            match verdict
            case Continue => after == c
            case Confirmed(sourceActive) =>
              after == c.(lastWorkerSequence := f.sequence, sourceActive := sourceActive, active := true,
                          awaiting := false)
            case Refused => after == c.(awaiting := false)
            case Broken => after == SessionEpochs.Drop(c)
  {
    hide DecodePayload, IdBytes;
    match m
    case StartedReply(s, sourceActive) =>
      IdsDiffer(s, c.session);
      assert DecodePayload(STARTED, f.payload).value[..1] == [B(IdBytes(s))];
    case ErrorReply(s, code, recoverable) =>
      IdsDiffer(s, c.session);
      assert DecodePayload(ERROR, f.payload).value[..1] == [B(IdBytes(s))];
    case _ =>
  }
}
