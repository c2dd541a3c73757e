/**
  A pipe that hands out bytes in arbitrary pieces, with timeouts and an end anywhere, and the worker's reader thread on
  it, which waits until the pipe closes or it is told to stop and queues every frame for the main loop.
 */
module FrameReaders {
  import opened Captions
  import opened FrameQueues
  import opened Frames
  import opened Rings
  import opened Wire
  import opened WorkerQueues

  /**
    What the transport does next: some bytes become readable, a read times out, or a read times out and the limit on the
    waiting is found to be reached: the deadline of a client's call, the stop flag of the reader thread.
   */
  datatype Arrival = Bytes(bytes: seq<byte>) | Timeout | DeadlinePassed

  ghost function AllBytes(arrivals: seq<Arrival>): seq<byte>
  {
    if arrivals == [] then []
    else (if arrivals[0].Bytes? then arrivals[0].bytes else []) + AllBytes(arrivals[1..])
  }

  /** The bytes that arrive before the limit is reached. */
  ghost function BytesInTime(arrivals: seq<Arrival>): seq<byte>
  {
    if arrivals == [] || arrivals[0].DeadlinePassed? then []
    else (if arrivals[0].Bytes? then arrivals[0].bytes else []) + BytesInTime(arrivals[1..])
  }

  ghost predicate LimitComes(arrivals: seq<Arrival>) { DeadlinePassed in arrivals }

  function Weight(arrivals: seq<Arrival>): nat
  {
    if arrivals == [] then 0
    else (if arrivals[0].Bytes? then |arrivals[0].bytes| else 0) + 1 + Weight(arrivals[1..])
  }

  datatype Received = Got(n: nat) | TimedOut | Expired | Closed

  /** Taking n bytes, or all there are, off the front. */
  lemma TakeFront(arrivals: seq<Arrival>, n: nat)
    requires arrivals != [] && arrivals[0].Bytes? && n <= |arrivals[0].bytes|
    requires n == 0 ==> arrivals[0].bytes == []
    ensures var bytes := arrivals[0].bytes;
            var left := if n < |bytes| then [Bytes(bytes[n..])] + arrivals[1..] else arrivals[1..];
            && AllBytes(arrivals) == bytes[..n] + AllBytes(left)
            && BytesInTime(arrivals) == bytes[..n] + BytesInTime(left)
            && LimitComes(left) == LimitComes(arrivals)
            && Weight(left) < Weight(arrivals)
  {
    var bytes, rest := arrivals[0].bytes, arrivals[1..];
    assert bytes == bytes[..n] + bytes[n..];
    if n < |bytes| {
      assert ([Bytes(bytes[n..])] + rest)[1..] == rest;
      Regroup(bytes[..n], bytes[n..], AllBytes(rest));
      Regroup(bytes[..n], bytes[n..], BytesInTime(rest));
    }
    assert arrivals == [arrivals[0]] + rest;
  }

  class Pipe {
    var arrivals: seq<Arrival>
    ghost var consumed: seq<byte>

    constructor (arrivals: seq<Arrival>)
      ensures this.arrivals == arrivals && consumed == []
    {
      this.arrivals, consumed := arrivals, [];
    }

    /** One read of at most `size` bytes; the pipe is closed once nothing more arrives. */
    method Receive(buffer: array<byte>, start: nat, size: nat) returns (r: Received)
      requires 0 < size && start + size <= buffer.Length
      modifies this, buffer
      ensures r != Closed ==> Weight(arrivals) < Weight(old(arrivals))
      ensures r == Closed ==> arrivals == [] && AllBytes(old(arrivals)) == []
      ensures var n := if r.Got? then r.n else 0;
              && n <= size
              && consumed == old(consumed) + buffer[start..start + n]
              && AllBytes(old(arrivals)) == buffer[start..start + n] + AllBytes(arrivals)
              && buffer[..start] == old(buffer[..start])
              && (r != Expired ==> BytesInTime(old(arrivals)) == buffer[start..start + n] + BytesInTime(arrivals))
      ensures r == Expired ==> BytesInTime(old(arrivals)) == [] && LimitComes(old(arrivals))
      ensures r == Closed ==> BytesInTime(old(arrivals)) == [] && !LimitComes(old(arrivals))
      ensures r != Expired ==> LimitComes(arrivals) == LimitComes(old(arrivals))
    {
      if |arrivals| == 0 {
        return Closed;
      }
      var first := arrivals[0];
      match first
      case Timeout =>
        arrivals := arrivals[1..];
        return TimedOut;
      case DeadlinePassed =>
        arrivals := arrivals[1..];
        return Expired;
      case Bytes(bytes) =>
        var n := if |bytes| < size then |bytes| else size;
        hide AllBytes, BytesInTime, LimitComes, Weight;
        forall i | 0 <= i < n { buffer[start + i] := bytes[i]; }
        assert buffer[start..start + n] == bytes[..n];
        TakeFront(arrivals, n);
        arrivals := if n < |bytes| then [Bytes(bytes[n..])] + arrivals[1..] else arrivals[1..];
        consumed := consumed + bytes[..n];
        return Got(n);
    }
  }

  // ------------------------------------------------------- the worker's reader

  datatype ReadCode = ReadOk | ReadClosed | ReadStopped

  /** Reads exactly `size` bytes, however they arrive, unless the pipe closes or the stop flag is set before. */
  method ReadExactly(pipe: Pipe, buffer: array<byte>, size: nat) returns (rc: ReadCode)
    requires size <= buffer.Length
    modifies pipe, buffer
    ensures rc == ReadOk ==> BytesInTime(old(pipe.arrivals)) == buffer[..size] + BytesInTime(pipe.arrivals)
    ensures rc == ReadOk ==> Weight(pipe.arrivals) <= Weight(old(pipe.arrivals)) - (if size > 0 then 1 else 0)
    ensures rc == ReadOk ==> LimitComes(pipe.arrivals) == LimitComes(old(pipe.arrivals))
    ensures rc != ReadOk ==> |BytesInTime(old(pipe.arrivals))| < size
    ensures rc != ReadOk ==> (rc == ReadStopped) == LimitComes(old(pipe.arrivals))
  {
    hide BytesInTime, LimitComes, AllBytes;
    ghost var all := BytesInTime(pipe.arrivals);
    var bytesRead := 0;
    while bytesRead < size
      invariant bytesRead <= size
      invariant all == buffer[..bytesRead] + BytesInTime(pipe.arrivals)
      invariant LimitComes(pipe.arrivals) == LimitComes(old(pipe.arrivals))
      invariant Weight(pipe.arrivals) <= Weight(old(pipe.arrivals)) - (if bytesRead > 0 then 1 else 0)
      decreases Weight(pipe.arrivals)
    {
      ghost var before, rest := buffer[..bytesRead], BytesInTime(pipe.arrivals);
      var res := pipe.Receive(buffer, bytesRead, size - bytesRead);
      assert buffer[bytesRead..bytesRead] == [];
      match res
      case TimedOut =>
        assert BytesInTime(pipe.arrivals) == rest;
      case Expired => return ReadStopped;
      case Closed =>
        return ReadClosed;
      case Got(n) =>
        Regroup(before, buffer[bytesRead..bytesRead + n], BytesInTime(pipe.arrivals));
        assert buffer[..bytesRead + n] == before + buffer[bytesRead..bytesRead + n];
        bytesRead := bytesRead + n;
    }
    return ReadOk;
  }

  /** Reading goes on: the frames so far, the one just read unless it is stale, and what the rest of the stream gives. */
  lemma ReadOn(frames: seq<Frame>, f: Frame, rest: seq<byte>, last: Option<nat>)
    requires Sendable(f)
    ensures frames + ParseStream(Encode(f) + rest, last).0 ==
            if Stale(f.sequence, last) then frames + ParseStream(rest, last).0
            else frames + [f] + ParseStream(rest, Some(f.sequence)).0
  {
    ParseFront(f, rest, last);
    var more := ParseStream(rest, Some(f.sequence)).0;
    assert frames + ([f] + more) == frames + [f] + more;
  }

  /** No frame can be read from a stream that is too short or starts with an invalid header. */
  ghost predicate NoFrame(bytes: seq<byte>)
  {
    || |bytes| < HEADER_BYTES
    || DecodeHeader(bytes[..HEADER_BYTES]).None?
    || |bytes| < HEADER_BYTES + DecodeHeader(bytes[..HEADER_BYTES]).value.payloadLength
  }

  lemma ParseNothing(bytes: seq<byte>, last: Option<nat>)
    requires NoFrame(bytes)
    ensures ParseStream(bytes, last) == ([], last)
  {
    if |bytes| >= HEADER_BYTES {
      var h := bytes[..HEADER_BYTES];
      assert h[..4] == bytes[..4] && h[4..6] == bytes[4..6] && h[6..8] == bytes[6..8];
      assert h[8..12] == bytes[8..12] && h[12..20] == bytes[12..20];
    }
  }

  /** Why no further frame was read. */
  datatype Ending = Fatal | Stopped

  /** The stream begins with a whole header that is not one. */
  ghost predicate Corrupt(bytes: seq<byte>)
  {
    |bytes| >= HEADER_BYTES && DecodeHeader(bytes[..HEADER_BYTES]).None?
  }

  /** Reads one frame, stale or not: a valid header and the whole payload it announces. */
  method NextFrame(pipe: Pipe) returns (f: Option<Frame>, ending: Ending)
    modifies pipe
    ensures f.None? ==>
              && NoFrame(BytesInTime(old(pipe.arrivals)))
              && (ending == Stopped <==>
                  LimitComes(old(pipe.arrivals)) && !Corrupt(BytesInTime(old(pipe.arrivals))))
    ensures f.Some? ==>
              && Sendable(f.value)
              && BytesInTime(old(pipe.arrivals)) == Encode(f.value) + BytesInTime(pipe.arrivals)
              && LimitComes(pipe.arrivals) == LimitComes(old(pipe.arrivals))
              && Weight(pipe.arrivals) < Weight(old(pipe.arrivals))
  {
    hide BytesInTime, LimitComes;
    var headerBuf := new byte[HEADER_BYTES];
    ghost var stream := BytesInTime(pipe.arrivals);
    var rc := ReadExactly(pipe, headerBuf, HEADER_BYTES);
    if rc != ReadOk {
      return None, if rc == ReadStopped then Stopped else Fatal;
    }
    var headerBytes := headerBuf[..];
    assert stream[..HEADER_BYTES] == headerBytes;
    var decoded := DecodeHeader(headerBytes);
    if decoded.None? || !ValidateHeader(decoded.value) {
      return None, Fatal;
    }
    f, ending := ReadPayload(pipe, headerBytes, decoded.value);
    if f.Some? {
      Regroup(headerBytes, f.value.payload, BytesInTime(pipe.arrivals));
    }
  }

  method ReadPayload(pipe: Pipe, headerBytes: seq<byte>, header: Header) returns (f: Option<Frame>, ending: Ending)
    requires |headerBytes| == HEADER_BYTES && DecodeHeader(headerBytes) == Some(header)
    modifies pipe
    ensures f.None? ==> |BytesInTime(old(pipe.arrivals))| < header.payloadLength
    ensures f.None? ==> (ending == Stopped <==> LimitComes(old(pipe.arrivals)))
    ensures f.Some? ==>
              && Sendable(f.value) && Encode(f.value) == headerBytes + f.value.payload
              && BytesInTime(old(pipe.arrivals)) == f.value.payload + BytesInTime(pipe.arrivals)
              && LimitComes(pipe.arrivals) == LimitComes(old(pipe.arrivals))
              && Weight(pipe.arrivals) <= Weight(old(pipe.arrivals))
  {
    var payloadBuf := new byte[header.payloadLength];
    var rc := ReadExactly(pipe, payloadBuf, header.payloadLength);
    if rc != ReadOk {
      return None, if rc == ReadStopped then Stopped else Fatal;
    }
    var payload := payloadBuf[..];
    FrameBytes(headerBytes, payload);
    return Some(Frame(header.msgType, header.sequence, payload)), Fatal;
  }

  /** What the queue is given of a frame: its sequence number has done its work. */
  function Queued(f: Frame): QueuedFrame { QueuedFrame(f.msgType, f.payload) }

  function QueuedAll(frames: seq<Frame>): seq<QueuedFrame>
  {
    if frames == [] then [] else QueuedAll(frames[..|frames| - 1]) + [Queued(frames[|frames| - 1])]
  }

  /** The bytes behind the last whole frame. */
  ghost function LeftOver(bytes: seq<byte>): seq<byte>
    decreases |bytes|
  {
    var header := DecodeHeader(bytes);
    if header.None? || |bytes| < HEADER_BYTES + header.value.payloadLength then bytes
    else LeftOver(bytes[HEADER_BYTES + header.value.payloadLength..])
  }

  lemma LeftOverOf(f: Frame, rest: seq<byte>)
    requires Sendable(f)
    ensures LeftOver(Encode(f) + rest) == LeftOver(rest)
  {
    FrameFront(f, rest);
  }

  lemma NothingMore(bytes: seq<byte>)
    requires NoFrame(bytes)
    ensures LeftOver(bytes) == bytes
  {
    if |bytes| >= HEADER_BYTES {
      var h := bytes[..HEADER_BYTES];
      assert h[..4] == bytes[..4] && h[4..6] == bytes[4..6] && h[6..8] == bytes[6..8];
      assert h[8..12] == bytes[8..12] && h[12..20] == bytes[12..20];
    }
  }

  /** The main loop takes frames out of the queue. */
  method PopSome(queue: WorkerQueue, n: nat, ghost w: World, ghost done: seq<Event>) returns (ghost events: seq<Event>)
    requires queue.Valid() && queue.State() == Run(w, queue.capacity, done).q
    modifies queue
    ensures queue.Valid() && queue.State() == Run(w, queue.capacity, events).q && Offers(events) == Offers(done)
  {
    hide Push, Run, Offers, Contents, AudioUs;
    events := done;
    var i := 0;
    while i < n
      invariant queue.Valid() && queue.State() == Run(w, queue.capacity, events).q && Offers(events) == Offers(done)
    {
      RunOneMore(w, queue.capacity, events, Take);
      var _ := queue.PopFrame();
      events := events + [Take];
      i := i + 1;
    }
  }

  /**
    The reader thread: every frame of the stream that is not stale goes into the queue, in order, until the stream ends,
    is corrupt, or the thread is told to stop. Unless it was told to, it queues a SHUTDOWN at the end. Before its pushes
    the main loop pops as many frames as `pops` says; w is a history of the queue, and the events carry it on.
   */
  method ReaderMain(pipe: Pipe, queue: WorkerQueue, pops: seq<nat>, ghost w: World)
    returns (ending: Ending, ghost events: seq<Event>)
    requires queue.Valid() && queue.State() == w.q
    modifies pipe, queue, queue.slots
    ensures queue.Valid()
    ensures var stream := BytesInTime(old(pipe.arrivals));
            var frames := QueuedAll(ParseStream(stream, None).0);
            && (ending == Stopped <==> LimitComes(old(pipe.arrivals)) && !Corrupt(LeftOver(stream)))
            && Offers(events) == (if ending == Stopped then frames else frames + [QueuedFrame(SHUTDOWN, [])])
    ensures queue.State() == Run(w, queue.capacity, events).q
    ensures ending == Fatal ==> HasShutdown(queue.State())
  {
    hide BytesInTime, LimitComes, Corrupt, LeftOver, NoFrame, ParseStream;
    hide AllBytes, Encode, Sendable, Run, Offers, Push, QueuedAll, Weight, AudioUs, Contents;
    ghost var frames: seq<Frame> := [];
    ghost var start, stream, capacity := pipe.arrivals, BytesInTime(pipe.arrivals), queue.capacity;
    var lastPluginSequence: Option<nat> := None;
    ghost var whole := ParseStream(stream, None).0;
    assert frames + whole == whole;
    NoEvents(w, capacity);
    events := [];
    var pushes := 0;
    while true
      invariant queue.Valid()
      invariant whole == frames + ParseStream(BytesInTime(pipe.arrivals), lastPluginSequence).0
      invariant LimitComes(pipe.arrivals) == LimitComes(start)
      invariant LeftOver(BytesInTime(pipe.arrivals)) == LeftOver(stream)
      invariant queue.State() == Run(w, capacity, events).q && Offers(events) == QueuedAll(frames)
      decreases Weight(pipe.arrivals)
    {
      ghost var now, last := BytesInTime(pipe.arrivals), lastPluginSequence;
      var next;
      next, ending := NextFrame(pipe);
      if next.None? {
        ParseNothing(now, last);
        NothingMore(now);
        assert frames + [] == frames;
        break;
      }
      var f := next.value;
      ReadOn(frames, f, BytesInTime(pipe.arrivals), last);
      LeftOverOf(f, BytesInTime(pipe.arrivals));
      if lastPluginSequence.Some? && f.sequence <= lastPluginSequence.value {
        continue;
      }
      lastPluginSequence := Some(f.sequence);
      var popsBefore := if pushes < |pops| then pops[pushes] else 0;
      events := PushNext(queue, QueuedFrame(f.msgType, f.payload), popsBefore, w, events);
      pushes := pushes + 1;
      QueuedOneMore(frames, f);
      frames := frames + [f];
    }
    if ending == Fatal {
      events := PushNext(queue, QueuedFrame(SHUTDOWN, []), if pushes < |pops| then pops[pushes] else 0, w, events);
    }
  }

  method PushNext(queue: WorkerQueue, f: QueuedFrame, popsBefore: nat, ghost w: World, ghost done: seq<Event>)
    returns (ghost events: seq<Event>)
    requires queue.Valid() && queue.State() == Run(w, queue.capacity, done).q
    modifies queue, queue.slots
    ensures queue.Valid() && queue.State() == Run(w, queue.capacity, events).q && Offers(events) == Offers(done) + [f]
    ensures f.kind == SHUTDOWN ==> HasShutdown(queue.State())
  {
    hide Run, Offers, Push, AudioUs, Contents;
    events := PopSome(queue, popsBefore, w, done);
    RunOneMore(w, queue.capacity, events, Offer(f));
    if f.kind == SHUTDOWN {
      ShutdownStays(queue.State(), queue.capacity, f);
    }
    var _ := queue.PushFrame(f);
    events := events + [Offer(f)];
  }

  lemma NoEvents(w: World, capacity: nat)
    requires capacity > 0
    ensures Run(w, capacity, []) == w && Offers([]) == QueuedAll([])
  {
  }

  /**
    However the pops and pushes fall: what has been popped, and then what is still queued, are the offered frames in
    order with some left out, and every microsecond of their audio was popped, is queued, or was counted as dropped.
   */
  lemma ReaderKeepsOrder(capacity: nat, past: seq<Event>, events: seq<Event>)
    requires capacity > 0
    ensures var before := FrameQueues.Run(FrameQueues.Start, capacity, past);
            var after := FrameQueues.Run(before, capacity, events);
            && after.offered == before.offered + Offers(events)
            && Subsequence(after.popped + after.q.frames, after.offered)
            && TotalUs(after.offered) == TotalUs(after.popped) + after.q.queuedUs + after.q.droppedUs
  {
    RunInv(FrameQueues.Start, capacity, past);
    var before := FrameQueues.Run(FrameQueues.Start, capacity, past);
    RunInv(before, capacity, events);
    RunOffers(before, capacity, events);
  }

  lemma QueuedOneMore(frames: seq<Frame>, f: Frame)
    ensures QueuedAll(frames + [f]) == QueuedAll(frames) + [Queued(f)]
  {
    assert (frames + [f])[..|frames|] == frames;
  }

  lemma Regroup(a: seq<byte>, b: seq<byte>, c: seq<byte>)
    ensures a + b + c == a + (b + c)
  {
  }
}
