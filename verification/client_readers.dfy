/**
  The client's reads over the pipe: a receive call and the wait for STARTED. Each reads whole frames until a deadline, and
  each ends at a frame boundary or with the transport dropped.
 */
module ClientReaders {
  import opened Captions
  import opened FrameReaders
  import opened Frames
  import opened PayloadCodec
  import opened Payloads
  import opened Wire

  datatype ReceiveCode = RecvOk | RecvTimeout | RecvFatal

  /**
    Reads exactly `size` bytes before the deadline. A timeout is reported only when nothing was consumed; a deadline
    that passes inside a frame is fatal.
   */
  method ReceiveAll(pipe: Pipe, buffer: array<byte>, size: nat) returns (rc: ReceiveCode)
    requires size <= buffer.Length
    modifies pipe, buffer
    ensures rc == RecvOk ==>
              && pipe.consumed == old(pipe.consumed) + buffer[..size]
              && AllBytes(old(pipe.arrivals)) == buffer[..size] + AllBytes(pipe.arrivals)
              && Weight(pipe.arrivals) <= Weight(old(pipe.arrivals)) - (if size > 0 then 1 else 0)
    ensures rc == RecvTimeout ==>
              && pipe.consumed == old(pipe.consumed)
              && AllBytes(old(pipe.arrivals)) == AllBytes(pipe.arrivals)
    ensures if rc == RecvOk then BytesInTime(old(pipe.arrivals)) == buffer[..size] + BytesInTime(pipe.arrivals)
            else |BytesInTime(old(pipe.arrivals))| < size
  {
    hide AllBytes, BytesInTime, Weight;
    var got := 0;
    while got < size
      invariant got <= size
      invariant BytesInTime(old(pipe.arrivals)) == buffer[..got] + BytesInTime(pipe.arrivals)
      invariant pipe.consumed == old(pipe.consumed) + buffer[..got]
      invariant AllBytes(old(pipe.arrivals)) == buffer[..got] + AllBytes(pipe.arrivals)
      invariant Weight(pipe.arrivals) <= Weight(old(pipe.arrivals)) - (if got > 0 then 1 else 0)
      decreases Weight(pipe.arrivals)
    {
      ghost var before, rest, eaten := buffer[..got], AllBytes(pipe.arrivals), pipe.consumed;
      ghost var inTime := BytesInTime(pipe.arrivals);
      var res := pipe.Receive(buffer, got, size - got);
      assert buffer[got..got] == [];
      match res
      case TimedOut =>
        assert AllBytes(pipe.arrivals) == rest && pipe.consumed == eaten && BytesInTime(pipe.arrivals) == inTime;
      case Expired =>
        assert AllBytes(pipe.arrivals) == rest && pipe.consumed == eaten;
        return if got == 0 then RecvTimeout else RecvFatal;
      case Closed => return RecvFatal;
      case Got(n) =>
        Regroup(before, buffer[got..got + n], AllBytes(pipe.arrivals));
        Regroup(before, buffer[got..got + n], BytesInTime(pipe.arrivals));
        assert buffer[..got + n] == before + buffer[got..got + n];
        got := got + n;
    }
    return RecvOk;
  }

  /** The protocol's checks of the fields of a decoded message. */
  type Validator = (nat, seq<Value>) -> bool

  /** The messages a receive call returns: those of four types that decode and pass the checks. */
  predicate Reported(f: Frame, valid: Validator)
  {
    && f.msgType in {CAPTION_SEGMENT, STATUS, ERROR, MODEL_PROGRESS}
    && DecodePayload(f.msgType, f.payload).Some?
    && valid(f.msgType, DecodePayload(f.msgType, f.payload).value)
  }

  method IsReported(f: Frame, valid: Validator) returns (reported: bool)
    ensures reported == Reported(f, valid)
  {
    match f.msgType
    case 8 | 9 | 10 | 15 =>
      var decoded := DecodeMessage(f.msgType, f.payload);
      return decoded.Some? && valid(f.msgType, decoded.value);
    case _ => return false;
  }

  /** Frames a receive call reads and does not return: stale ones, and ones that are no message it returns. */
  ghost predicate Skipped(frames: seq<Frame>, last: Option<nat>, valid: Validator)
    decreases |frames|
  {
    frames == [] ||
    (&& Sendable(frames[0])
     && (Stale(frames[0].sequence, last) || !Reported(frames[0], valid))
     && Skipped(frames[1..], if Stale(frames[0].sequence, last) then last else Some(frames[0].sequence), valid))
  }

  lemma {:induction false} SkippedOneMore(frames: seq<Frame>, last: Option<nat>, valid: Validator, f: Frame)
    requires Skipped(frames, last, valid) && Sendable(f)
    requires Stale(f.sequence, Increasing(frames, last).1) || !Reported(f, valid)
    ensures Skipped(frames + [f], last, valid)
    decreases |frames|
  {
    if frames != [] {
      var last' := if Stale(frames[0].sequence, last) then last else Some(frames[0].sequence);
      SkippedOneMore(frames[1..], last', valid, f);
      assert (frames + [f])[1..] == frames[1..] + [f];
    }
  }

  lemma {:induction false} IncreasingOneMore(frames: seq<Frame>, last: Option<nat>, f: Frame)
    ensures Increasing(frames + [f], last).1 ==
            (var newest := Increasing(frames, last).1; if Stale(f.sequence, newest) then newest else Some(f.sequence))
    decreases |frames|
  {
    if frames != [] {
      var last' := if Stale(frames[0].sequence, last) then last else Some(frames[0].sequence);
      IncreasingOneMore(frames[1..], last', f);
      assert (frames + [f])[1..] == frames[1..] + [f];
    }
  }

  lemma {:induction false} EncodeAllOneMore(frames: seq<Frame>, f: Frame)
    ensures EncodeAll(frames + [f]) == EncodeAll(frames) + Encode(f)
  {
    if frames == [] {
      assert [f][1..] == [];
      assert [] + Encode(f) == Encode(f) == Encode(f) + [];
    } else {
      EncodeAllOneMore(frames[1..], f);
      assert (frames + [f])[1..] == frames[1..] + [f];
      assert Encode(frames[0]) + (EncodeAll(frames[1..]) + Encode(f))
          == Encode(frames[0]) + EncodeAll(frames[1..]) + Encode(f);
    }
  }

  // ------------------------------------------------- the answer to a START

  /** What a frame read while waiting for STARTED means for the wait. */
  datatype Verdict = Continue | Confirmed(sourceActive: bool) | Refused | Broken

  const STARTED_BYTES: nat := 17
  const E_SOURCE_OPEN: nat := 10
  const E_TRANSLATION_PROVIDER: nat := 11
  const ERROR_MAX: nat := 15

  function NumberAt(values: seq<Value>, i: nat): nat
  {
    if i < |values| && values[i].N? then values[i].n else 0
  }

  /** A confirmation: empty or one byte long from older workers, else it must name the session that was started. */
  function JudgeStarted(payload: seq<byte>, session: seq<byte>): (verdict: Verdict)
    ensures verdict == Broken || verdict.Confirmed?
  {
    if payload == [] then Confirmed(false)
    else
      var values := DecodePayload(STARTED, payload);
      if values.None? || (|payload| != STARTED_BYTES && |payload| != 1) then Broken
      else if |payload| == STARTED_BYTES && values.value[..1] != [B(session)] then Broken
      else Confirmed(NumberAt(values.value, 1) == 1)
  }

  /** An error of an earlier epoch's translation and the fallback notice do not end the wait. */
  function JudgeError(payload: seq<byte>, session: seq<byte>): (verdict: Verdict)
    ensures !verdict.Confirmed?
  {
    if payload == [] then Refused
    else
      var values := DecodePayload(ERROR, payload);
      if values.None? then Broken
      else
        var code, recoverable := NumberAt(values.value, 1), NumberAt(values.value, 2) != 0;
        if !(1 <= code <= ERROR_MAX) then Broken
        else if code >= E_TRANSLATION_PROVIDER && recoverable && values.value[..1] != [B(session)] then Continue
        else if code == E_SOURCE_OPEN && recoverable then Continue
        else Refused
  }

  /** A STARTED that is dropped on its header alone. */
  predicate BadStarted(h: Header, last: Option<nat>, minor: nat)
  {
    h.msgType == STARTED && (Stale(h.sequence, last) || (minor >= 6 && h.payloadLength != STARTED_BYTES))
  }

  function Judge(f: Frame, session: seq<byte>): Verdict
  {
    if f.msgType == STARTED then JudgeStarted(f.payload, session)
    else if f.msgType == ERROR then JudgeError(f.payload, session)
    else Continue
  }

  /** What the bytes that arrive before the deadline answer to a START: the first frame that does not say to go on. */
  function Handshake(bytes: seq<byte>, session: seq<byte>, last: Option<nat>, minor: nat): Verdict
    decreases |bytes|
  {
    var header := DecodeHeader(bytes);
    if header.None? then Broken
    else
      var h := header.value;
      if BadStarted(h, last, minor) || |bytes| < HEADER_BYTES + h.payloadLength then Broken
      else
        var f := Frame(h.msgType, h.sequence, bytes[HEADER_BYTES..HEADER_BYTES + h.payloadLength]);
        var verdict := Judge(f, session);
        if verdict == Continue then Handshake(bytes[HEADER_BYTES + h.payloadLength..], session, last, minor) else verdict
  }

  lemma HandshakeFront(f: Frame, rest: seq<byte>, session: seq<byte>, last: Option<nat>, minor: nat)
    requires Sendable(f)
    ensures Handshake(Encode(f) + rest, session, last, minor) ==
            if BadStarted(HeaderOf(f), last, minor) then Broken
            else if Judge(f, session) == Continue then Handshake(rest, session, last, minor)
            else Judge(f, session)
  {
    FrameFront(f, rest);
  }

  /** Too few bytes for the next frame, or a header that is none or is a bad confirmation: the wait ends broken. */
  lemma HandshakeBreaks(bytes: seq<byte>, session: seq<byte>, last: Option<nat>, minor: nat)
    requires |bytes| < HEADER_BYTES || DecodeHeader(bytes[..HEADER_BYTES]).None?
             || BadStarted(DecodeHeader(bytes[..HEADER_BYTES]).value, last, minor)
             || |bytes| < HEADER_BYTES + DecodeHeader(bytes[..HEADER_BYTES]).value.payloadLength
    ensures Handshake(bytes, session, last, minor) == Broken
  {
    if |bytes| >= HEADER_BYTES {
      var h := bytes[..HEADER_BYTES];
      assert h[..4] == bytes[..4] && h[4..6] == bytes[4..6] && h[6..8] == bytes[6..8];
      assert h[8..12] == bytes[8..12] && h[12..20] == bytes[12..20];
    }
  }

  class Client {
    const pipe: Pipe
    const workerProtocolMinor: nat
    var connected: bool
    var lastWorkerSequence: Option<nat>
    var sessionId: seq<byte>
    var sessionActive: bool
    var workerSourceActive: bool

    constructor (pipe: Pipe, minor: nat)
      ensures this.pipe == pipe && workerProtocolMinor == minor && connected && lastWorkerSequence == None
      ensures !sessionActive && !workerSourceActive
    {
      this.pipe, workerProtocolMinor, connected, lastWorkerSequence := pipe, minor, true, None;
      sessionId, sessionActive, workerSourceActive := Zeros(16), false, false;
    }

    method DropTransport()
      modifies this`connected, this`sessionActive
      ensures !connected && !sessionActive
    {
      connected, sessionActive := false, false;
    }

    /** One frame off the pipe: its header and, within the transport's own bound, its payload. */
    method ReadFrame() returns (rc: ReceiveCode, f: Frame)
      requires connected
      modifies this`connected, this`sessionActive, pipe
      ensures rc == RecvOk ==>
                && connected && Sendable(f)
                && pipe.consumed == old(pipe.consumed) + Encode(f)
                && AllBytes(old(pipe.arrivals)) == Encode(f) + AllBytes(pipe.arrivals)
                && Weight(pipe.arrivals) < Weight(old(pipe.arrivals))
      ensures rc == RecvTimeout ==>
                && connected && pipe.consumed == old(pipe.consumed)
                && AllBytes(old(pipe.arrivals)) == AllBytes(pipe.arrivals)
      ensures if rc == RecvFatal then !connected && !sessionActive else sessionActive == old(sessionActive)
    {
      hide AllBytes, BytesInTime, Weight, Encode, Sendable, DecodeHeader;
      f := Frame(0, 0, []);
      var hdrBuf := new byte[HEADER_BYTES];
      ghost var eaten, stream := pipe.consumed, AllBytes(pipe.arrivals);
      rc := ReceiveAll(pipe, hdrBuf, HEADER_BYTES);
      if rc == RecvTimeout {
        return;
      }
      if rc == RecvFatal {
        DropTransport();
        return;
      }
      var headerBytes := hdrBuf[..];
      var decoded := DecodeHeader(headerBytes);
      if decoded.None? {
        DropTransport();
        return RecvFatal, f;
      }
      rc, f := ReadPayloadBefore(headerBytes, decoded.value);
      if rc == RecvOk {
        Regroup(eaten, headerBytes, f.payload);
        Regroup(headerBytes, f.payload, AllBytes(pipe.arrivals));
      }
    }

    method ReadPayloadBefore(headerBytes: seq<byte>, header: Header) returns (rc: ReceiveCode, f: Frame)
      requires connected && |headerBytes| == HEADER_BYTES && DecodeHeader(headerBytes) == Some(header)
      modifies this`connected, this`sessionActive, pipe
      ensures rc == RecvOk ==>
                && connected && Sendable(f) && Encode(f) == headerBytes + f.payload
                && pipe.consumed == old(pipe.consumed) + f.payload
                && AllBytes(old(pipe.arrivals)) == f.payload + AllBytes(pipe.arrivals)
                && BytesInTime(old(pipe.arrivals)) == f.payload + BytesInTime(pipe.arrivals)
                && Weight(pipe.arrivals) <= Weight(old(pipe.arrivals))
      ensures rc == RecvOk ==> f.msgType == header.msgType && f.sequence == header.sequence
      ensures rc == RecvOk ==> |f.payload| == header.payloadLength && sessionActive == old(sessionActive)
      ensures rc != RecvOk ==> rc == RecvFatal && !connected && !sessionActive
      ensures rc != RecvOk ==> |BytesInTime(old(pipe.arrivals))| < header.payloadLength
    {
      hide AllBytes, BytesInTime, Weight, Encode, Sendable, DecodeHeader;
      f := Frame(0, 0, []);
      var payloadBuf := new byte[header.payloadLength];
      rc := ReceiveAll(pipe, payloadBuf, header.payloadLength);
      if rc != RecvOk {
        DropTransport();
        return RecvFatal, f;
      }
      var payload := payloadBuf[..];
      f := Frame(header.msgType, header.sequence, payload);
      FrameBytes(headerBytes, payload);
    }

    /**
      Reads frames until one is new and to be reported, or the deadline passes between frames. The call ends at a frame
      boundary, all bytes consumed being whole frames, or with the transport dropped.
     */
    method ReceiveFrame(valid: Validator) returns (rc: ReceiveCode, f: Frame, ghost skipped: seq<Frame>)
      modifies this`connected, this`sessionActive, this`lastWorkerSequence, pipe
      ensures !old(connected) ==> rc == RecvFatal && pipe.consumed == old(pipe.consumed)
      ensures rc == RecvFatal <==> !connected
      ensures rc != RecvFatal ==> sessionActive == old(sessionActive)
      ensures Skipped(skipped, old(lastWorkerSequence), valid)
      ensures rc == RecvTimeout ==>
                && pipe.consumed == old(pipe.consumed) + EncodeAll(skipped)
                && lastWorkerSequence == Increasing(skipped, old(lastWorkerSequence)).1
      ensures rc == RecvOk ==>
                && Reported(f, valid) && !Stale(f.sequence, Increasing(skipped, old(lastWorkerSequence)).1)
                && pipe.consumed == old(pipe.consumed) + EncodeAll(skipped + [f])
                && lastWorkerSequence == Some(f.sequence)
      ensures rc != RecvFatal ==>
                AllBytes(old(pipe.arrivals)) ==
                EncodeAll(if rc == RecvOk then skipped + [f] else skipped) + AllBytes(pipe.arrivals)
    {
      hide AllBytes, BytesInTime, Weight, Encode, Sendable, Reported;
      f, skipped := Frame(0, 0, []), [];
      if !connected {
        return RecvFatal, f, skipped;
      }
      while true
        invariant connected && sessionActive == old(sessionActive)
        invariant Skipped(skipped, old(lastWorkerSequence), valid)
        invariant pipe.consumed == old(pipe.consumed) + EncodeAll(skipped)
        invariant AllBytes(old(pipe.arrivals)) == EncodeAll(skipped) + AllBytes(pipe.arrivals)
        invariant lastWorkerSequence == Increasing(skipped, old(lastWorkerSequence)).1
        decreases Weight(pipe.arrivals)
      {
        ghost var eaten, done := pipe.consumed, EncodeAll(skipped);
        rc, f := ReadFrame();
        if rc != RecvOk {
          return;
        }
        EncodeAllOneMore(skipped, f);
        IncreasingOneMore(skipped, old(lastWorkerSequence), f);
        Regroup(old(pipe.consumed), done, Encode(f));
        Regroup(done, Encode(f), AllBytes(pipe.arrivals));
        if lastWorkerSequence.Some? && f.sequence <= lastWorkerSequence.value {
          SkippedOneMore(skipped, old(lastWorkerSequence), valid, f);
          skipped := skipped + [f];
          continue;
        }
        lastWorkerSequence := Some(f.sequence);
        var reported := IsReported(f, valid);
        if reported {
          return;
        }
        SkippedOneMore(skipped, old(lastWorkerSequence), valid, f);
        skipped := skipped + [f];
      }
    }

    /** The payload of a STARTED that passed the checks on its header. */
    method OnStarted(payload: seq<byte>) returns (verdict: Verdict)
      ensures verdict == JudgeStarted(payload, sessionId)
    {
      if |payload| == 0 {
        return Confirmed(false);
      }
      var started := DecodeMessage(STARTED, payload);
      if started.None? || (|payload| != STARTED_BYTES && |payload| != 1) {
        return Broken;
      }
      if |payload| == STARTED_BYTES && started.value[..1] != [B(sessionId)] {
        return Broken;
      }
      return Confirmed(NumberAt(started.value, 1) == 1);
    }

    method OnError(payload: seq<byte>) returns (verdict: Verdict)
      ensures verdict == JudgeError(payload, sessionId)
    {
      if |payload| == 0 {
        return Refused;
      }
      var err := DecodeMessage(ERROR, payload);
      if err.None? || !(1 <= NumberAt(err.value, 1) <= ERROR_MAX) {
        return Broken;
      }
      var code, recoverable := NumberAt(err.value, 1), NumberAt(err.value, 2) != 0;
      var staleTranslation := E_TRANSLATION_PROVIDER <= code && recoverable && err.value[..1] != [B(sessionId)];
      if staleTranslation || (code == E_SOURCE_OPEN && recoverable) {
        return Continue;
      }
      return Refused;
    }

    /** One frame of the wait, and what it means; the transport is dropped exactly when it is broken. */
    method HandshakeFrame() returns (verdict: Verdict, ghost f: Frame)
      requires connected && !sessionActive
      modifies this`connected, this`sessionActive, this`lastWorkerSequence, pipe
      ensures connected == (verdict != Broken) && !sessionActive
      ensures verdict == Broken ==>
                Handshake(BytesInTime(old(pipe.arrivals)), sessionId, old(lastWorkerSequence), workerProtocolMinor)
                == Broken
      ensures verdict == Continue ==> lastWorkerSequence == old(lastWorkerSequence)
      ensures verdict.Confirmed? ==> lastWorkerSequence == Some(f.sequence) && !Stale(f.sequence, old(lastWorkerSequence))
      ensures verdict != Broken ==>
                && Sendable(f) && verdict == Judge(f, sessionId)
                && !BadStarted(HeaderOf(f), old(lastWorkerSequence), workerProtocolMinor)
                && pipe.consumed == old(pipe.consumed) + Encode(f)
                && AllBytes(old(pipe.arrivals)) == Encode(f) + AllBytes(pipe.arrivals)
                && BytesInTime(old(pipe.arrivals)) == Encode(f) + BytesInTime(pipe.arrivals)
                && Weight(pipe.arrivals) < Weight(old(pipe.arrivals))
    {
      hide AllBytes, BytesInTime, Weight, Handshake, Encode, JudgeStarted, JudgeError;
      f := Frame(0, 0, []);
      var hdrBuf := new byte[HEADER_BYTES];
      ghost var eaten, inTime, last := pipe.consumed, BytesInTime(pipe.arrivals), lastWorkerSequence;
      var rc := ReceiveAll(pipe, hdrBuf, HEADER_BYTES);
      if rc != RecvOk {
        HandshakeBreaks(inTime, sessionId, last, workerProtocolMinor);
        DropTransport();
        return Broken, f;
      }
      var headerBytes := hdrBuf[..];
      assert inTime[..HEADER_BYTES] == headerBytes;
      var decoded := DecodeHeader(headerBytes);
      if decoded.None? {
        HandshakeBreaks(inTime, sessionId, last, workerProtocolMinor);
        DropTransport();
        return Broken, f;
      }
      var header := decoded.value;
      if header.msgType == STARTED {
        if lastWorkerSequence.Some? && header.sequence <= lastWorkerSequence.value {
          HandshakeBreaks(inTime, sessionId, last, workerProtocolMinor);
          DropTransport();
          return Broken, f;
        }
        lastWorkerSequence := Some(header.sequence);
        if workerProtocolMinor >= 6 && header.payloadLength != STARTED_BYTES {
          HandshakeBreaks(inTime, sessionId, last, workerProtocolMinor);
          DropTransport();
          return Broken, f;
        }
      }
      var frame;
      rc, frame := ReadPayloadBefore(headerBytes, header);
      if rc != RecvOk {
        HandshakeBreaks(inTime, sessionId, last, workerProtocolMinor);
        return Broken, f;
      }
      f := frame;
      Regroup(eaten, headerBytes, f.payload);
      Regroup(headerBytes, f.payload, AllBytes(pipe.arrivals));
      Regroup(headerBytes, f.payload, BytesInTime(pipe.arrivals));
      HandshakeFront(f, BytesInTime(pipe.arrivals), sessionId, last, workerProtocolMinor);
      verdict := Continue;
      if header.msgType == STARTED {
        verdict := OnStarted(frame.payload);
      } else if header.msgType == ERROR {
        verdict := OnError(frame.payload);
      }
      if verdict == Broken {
        DropTransport();
      }
    }

    /**
      The wait for STARTED. Its outcome is decided by the bytes that arrive before the deadline alone: the first frame
      that does not say to go on. The session becomes active exactly on a confirmation. The call ends at a frame boundary,
      all bytes consumed being whole frames, or with the transport dropped, and dropped exactly when the answer is broken.
     */
    method AwaitStarted() returns (ok: bool, ghost frames: seq<Frame>)
      requires connected && !sessionActive
      modifies this`connected, this`sessionActive, this`lastWorkerSequence, this`workerSourceActive, pipe
      ensures var answer := Handshake(BytesInTime(old(pipe.arrivals)), sessionId, old(lastWorkerSequence),
                                      workerProtocolMinor);
              && ok == sessionActive == answer.Confirmed?
              && (ok ==> workerSourceActive == answer.sourceActive)
              && connected == (answer != Broken)
      ensures connected ==>
                && pipe.consumed == old(pipe.consumed) + EncodeAll(frames)
                && AllBytes(old(pipe.arrivals)) == EncodeAll(frames) + AllBytes(pipe.arrivals)
                && frames != [] && Judge(frames[|frames| - 1], sessionId) != Continue
                && forall i :: 0 <= i < |frames| - 1 ==> Judge(frames[i], sessionId) == Continue
    {
      hide AllBytes, BytesInTime, Weight, Handshake, Judge, Encode, BadStarted;
      frames := [];
      ghost var last, inTime := lastWorkerSequence, BytesInTime(pipe.arrivals);
      while true
        invariant connected && !sessionActive && lastWorkerSequence == last
        invariant Handshake(inTime, sessionId, last, workerProtocolMinor) ==
                  Handshake(BytesInTime(pipe.arrivals), sessionId, last, workerProtocolMinor)
        invariant pipe.consumed == old(pipe.consumed) + EncodeAll(frames)
        invariant AllBytes(old(pipe.arrivals)) == EncodeAll(frames) + AllBytes(pipe.arrivals)
        invariant forall i :: 0 <= i < |frames| ==> Judge(frames[i], sessionId) == Continue
        decreases Weight(pipe.arrivals)
      {
        ghost var done := EncodeAll(frames);
        ghost var f;
        var verdict;
        verdict, f := HandshakeFrame();
        if verdict == Broken {
          return false, frames;
        }
        EncodeAllOneMore(frames, f);
        Regroup(old(pipe.consumed), done, Encode(f));
        Regroup(done, Encode(f), AllBytes(pipe.arrivals));
        HandshakeFront(f, BytesInTime(pipe.arrivals), sessionId, last, workerProtocolMinor);
        frames := frames + [f];
        match verdict
        case Continue =>
        case Confirmed(sourceActive) =>
          workerSourceActive, sessionActive := sourceActive, true;
          return true, frames;
        case _ => return false, frames;
      }
    }
  }
}
