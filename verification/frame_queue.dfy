/**
  The worker's bounded frame queue as a value: its overflow policy, and what any run of pushes and pops keeps of the
  frames offered to it.
 */
module FrameQueues {
  import opened Captions
  import opened Wire

  datatype QueuedFrame = QueuedFrame(kind: nat, payload: seq<byte>)

  datatype Queue = Queue(frames: seq<QueuedFrame>, queuedUs: int, droppedUs: nat)

  const EmptyQueue := Queue([], 0, 0)

  function AudioUs(f: QueuedFrame): nat
  {
    if f.kind == AUDIO_PCM then AudioDurationUs(f.payload) else 0
  }

  predicate Required(kind: nat)
  {
    kind == START_SESSION || kind == STOP_SESSION
  }

  predicate Superseded(queued: nat, incoming: nat)
  {
    queued == PAUSE || queued == RESUME || queued == incoming
  }

  /** Index of the oldest frame whose type satisfies the test. */
  function First(frames: seq<QueuedFrame>, test: nat -> bool): (k: Option<nat>)
    ensures k.Some? ==> k.value < |frames| && test(frames[k.value].kind)
    ensures k.Some? ==> forall i :: 0 <= i < k.value ==> !test(frames[i].kind)
    ensures k.None? ==> forall i :: 0 <= i < |frames| ==> !test(frames[i].kind)
  {
    if frames == [] then None
    else if test(frames[0].kind) then Some(0)
    else
      var rest := First(frames[1..], test);
      assert forall i :: 0 < i < |frames| ==> frames[i] == frames[1..][i - 1];
      if rest.None? then None else Some(rest.value + 1)
  }

  /** The frame a full queue gives up for the incoming type, if any. */
  function Victim(frames: seq<QueuedFrame>, incoming: nat): (k: Option<nat>)
    requires frames != []
    ensures k.Some? ==> k.value < |frames|
  {
    var audio := First(frames, (kind: nat) => kind == AUDIO_PCM);
    if audio.Some? then audio
    else if incoming == AUDIO_PCM then None
    else if incoming == SHUTDOWN then Some(0)
    else
      var superseded := First(frames, (kind: nat) => Superseded(kind, incoming));
      if superseded.Some? then superseded
      else if Required(incoming) then First(frames, (kind: nat) => kind != SHUTDOWN)
      else None
  }

  function Remove<T>(s: seq<T>, k: nat): seq<T>
    requires k < |s|
  {
    s[..k] + s[k + 1..]
  }

  /** The frame at k gives way to the incoming one, and its audio is counted as dropped. */
  function Replace(q: Queue, k: nat, f: QueuedFrame): Queue
    requires k < |q.frames|
  {
    var lost := AudioUs(q.frames[k]);
    Queue(Remove(q.frames, k) + [f], q.queuedUs - lost + AudioUs(f), q.droppedUs + lost)
  }

  function PushFull(q: Queue, f: QueuedFrame): (Queue, bool)
    requires q.frames != []
  {
    var victim := Victim(q.frames, f.kind);
    if victim.None? then (q.(droppedUs := q.droppedUs + AudioUs(f)), false) else (Replace(q, victim.value, f), true)
  }

  /** One push on a queue of the given capacity; the second component says whether the frame was kept. */
  function Push(q: Queue, capacity: nat, f: QueuedFrame): (Queue, bool)
    requires capacity > 0
  {
    if |q.frames| < capacity then
      (q.(frames := q.frames + [f], queuedUs := q.queuedUs + AudioUs(f)), true)
    else
      PushFull(q, f)
  }

  function Pop(q: Queue): Queue
    requires q.frames != []
  {
    q.(frames := q.frames[1..], queuedUs := q.queuedUs - AudioUs(q.frames[0]))
  }

  // ------------------------------------------------------------------ runs

  datatype Event = Offer(f: QueuedFrame) | Take

  /** The queue with everything ever offered to it and everything popped from it. */
  datatype World = World(q: Queue, offered: seq<QueuedFrame>, popped: seq<QueuedFrame>)

  const Start := World(EmptyQueue, [], [])

  function Next(w: World, capacity: nat, e: Event): World
    requires capacity > 0
  {
    match e
    case Offer(f) => w.(q := Push(w.q, capacity, f).0, offered := w.offered + [f])
    case Take =>
      if w.q.frames == [] then w else w.(q := Pop(w.q), popped := w.popped + [w.q.frames[0]])
  }

  function Run(w: World, capacity: nat, events: seq<Event>): World
    requires capacity > 0
    decreases |events|
  {
    if events == [] then w else Run(Next(w, capacity, events[0]), capacity, events[1..])
  }

  /** The frames a run offers, in order. */
  function Offers(events: seq<Event>): seq<QueuedFrame>
  {
    if events == [] then []
    else
      var last := events[|events| - 1];
      Offers(events[..|events| - 1]) + (if last.Offer? then [last.f] else [])
  }

  lemma {:induction false} RunOneMore(w: World, capacity: nat, events: seq<Event>, e: Event)
    requires capacity > 0
    ensures Run(w, capacity, events + [e]) == Next(Run(w, capacity, events), capacity, e)
    ensures Offers(events + [e]) == Offers(events) + (if e.Offer? then [e.f] else [])
    decreases |events|
  {
    hide Next;
    assert (events + [e])[..|events|] == events;
    if events == [] {
      assert Run(Next(w, capacity, e), capacity, (events + [e])[1..]) == Next(w, capacity, e);
    } else {
      assert (events + [e])[1..] == events[1..] + [e];
      RunOneMore(Next(w, capacity, events[0]), capacity, events[1..], e);
    }
  }

  /** What a run adds to the frames offered. */
  lemma {:induction false} RunOffers(w: World, capacity: nat, events: seq<Event>)
    requires capacity > 0
    ensures Run(w, capacity, events).offered == w.offered + Offers(events)
    decreases |events|
  {
    hide Push;
    if events != [] {
      var n := |events| - 1;
      assert events[..n] + [events[n]] == events;
      RunOffers(w, capacity, events[..n]);
      RunOneMore(w, capacity, events[..n], events[n]);
    }
  }

  /** a is b with some elements left out. */
  predicate Subsequence<T(==)>(a: seq<T>, b: seq<T>)
    decreases |b|
  {
    || a == []
    || (b != [] && a[|a| - 1] == b[|b| - 1] && Subsequence(a[..|a| - 1], b[..|b| - 1]))
    || (b != [] && Subsequence(a, b[..|b| - 1]))
  }

  lemma SubsequenceAppend<T>(a: seq<T>, b: seq<T>, x: T)
    requires Subsequence(a, b)
    ensures Subsequence(a + [x], b + [x]) && Subsequence(a, b + [x])
  {
  }

  lemma {:induction false} SubsequenceRemove<T>(a: seq<T>, b: seq<T>, k: nat)
    requires Subsequence(a, b) && k < |a|
    ensures Subsequence(Remove(a, k), b)
    decreases |b|
  {
    var n, x := |a| - 1, b[|b| - 1];
    var b' := b[..|b| - 1];
    assert b' + [x] == b;
    if a[n] == x && Subsequence(a[..n], b') {
      if k == n {
        assert Remove(a, k) == a[..n];
        SubsequenceAppend(a[..n], b', x);
      } else {
        SubsequenceRemove(a[..n], b', k);
        assert Remove(a, k) == Remove(a[..n], k) + [x];
        SubsequenceAppend(Remove(a[..n], k), b', x);
      }
    } else {
      SubsequenceRemove(a, b', k);
      assert Remove(a, k) == [] || Subsequence(Remove(a, k), b');
    }
  }

  function TotalUs(frames: seq<QueuedFrame>): nat
  {
    if frames == [] then 0 else AudioUs(frames[0]) + TotalUs(frames[1..])
  }

  lemma {:induction false} TotalConcat(a: seq<QueuedFrame>, b: seq<QueuedFrame>)
    ensures TotalUs(a + b) == TotalUs(a) + TotalUs(b)
  {
    if a == [] {
      assert a + b == b;
    } else {
      assert (a + b)[1..] == a[1..] + b;
      TotalConcat(a[1..], b);
    }
  }

  lemma TotalRemove(frames: seq<QueuedFrame>, k: nat)
    requires k < |frames|
    ensures TotalUs(Remove(frames, k)) == TotalUs(frames) - AudioUs(frames[k])
  {
    assert frames == frames[..k] + frames[k..];
    TotalConcat(frames[..k], frames[k..]);
    TotalConcat(frames[..k], frames[k + 1..]);
  }

  ghost predicate Inv(w: World, capacity: nat)
  {
    && |w.q.frames| <= capacity
    && w.q.queuedUs == TotalUs(w.q.frames)
    && Subsequence(w.popped + w.q.frames, w.offered)
    && TotalUs(w.offered) == TotalUs(w.popped) + w.q.queuedUs + w.q.droppedUs
  }

  lemma AppendKeeps(w: World, f: QueuedFrame)
    requires Subsequence(w.popped + w.q.frames, w.offered)
    ensures Subsequence(w.popped + (w.q.frames + [f]), w.offered + [f])
    ensures Subsequence(w.popped + w.q.frames, w.offered + [f])
    ensures TotalUs(w.q.frames + [f]) == TotalUs(w.q.frames) + AudioUs(f)
    ensures TotalUs(w.offered + [f]) == TotalUs(w.offered) + AudioUs(f)
  {
    SubsequenceAppend(w.popped + w.q.frames, w.offered, f);
    assert w.popped + (w.q.frames + [f]) == w.popped + w.q.frames + [f];
    TotalConcat(w.q.frames, [f]);
    TotalConcat(w.offered, [f]);
  }

  lemma EvictKeeps(w: World, k: nat)
    requires Subsequence(w.popped + w.q.frames, w.offered) && k < |w.q.frames|
    ensures Subsequence(w.popped + Remove(w.q.frames, k), w.offered)
    ensures TotalUs(Remove(w.q.frames, k)) == TotalUs(w.q.frames) - AudioUs(w.q.frames[k])
  {
    TotalRemove(w.q.frames, k);
    SubsequenceRemove(w.popped + w.q.frames, w.offered, |w.popped| + k);
    assert Remove(w.popped + w.q.frames, |w.popped| + k) == w.popped + Remove(w.q.frames, k);
  }

  lemma OfferInv(w: World, capacity: nat, f: QueuedFrame)
    requires capacity > 0 && Inv(w, capacity)
    ensures Inv(Next(w, capacity, Offer(f)), capacity)
  {
    AppendKeeps(w, f);
    if |w.q.frames| >= capacity {
      var victim := Victim(w.q.frames, f.kind);
      if victim.Some? {
        EvictKeeps(w, victim.value);
        AppendKeeps(w.(q := w.q.(frames := Remove(w.q.frames, victim.value))), f);
      }
    }
  }

  lemma TakeInv(w: World, capacity: nat)
    requires capacity > 0 && Inv(w, capacity)
    ensures Inv(Next(w, capacity, Take), capacity)
  {
    if w.q.frames != [] {
      TotalConcat(w.popped, [w.q.frames[0]]);
      assert w.popped + [w.q.frames[0]] + w.q.frames[1..] == w.popped + w.q.frames;
    }
  }

  lemma {:induction false} RunInv(w: World, capacity: nat, events: seq<Event>)
    requires capacity > 0 && Inv(w, capacity)
    ensures Inv(Run(w, capacity, events), capacity)
    decreases |events|
  {
    if events != [] {
      if events[0].Offer? {
        OfferInv(w, capacity, events[0].f);
      } else {
        TakeInv(w, capacity);
      }
      RunInv(Next(w, capacity, events[0]), capacity, events[1..]);
    }
  }

  // ---------------------------------------------------------- main results

  /** For every run: order is kept, and every microsecond of audio offered was popped, is queued, or was counted as dropped. */
  lemma OrderAndConservation(capacity: nat, events: seq<Event>)
    requires capacity > 0
    ensures var w := Run(Start, capacity, events);
            && |w.q.frames| <= capacity
            && Subsequence(w.popped + w.q.frames, w.offered)
            && w.q.queuedUs == TotalUs(w.q.frames)
            && TotalUs(w.offered) == TotalUs(w.popped) + w.q.queuedUs + w.q.droppedUs
  {
    RunInv(Start, capacity, events);
  }

  ghost predicate HasShutdown(q: Queue)
  {
    exists i :: 0 <= i < |q.frames| && q.frames[i].kind == SHUTDOWN
  }

  lemma ShutdownStays(q: Queue, capacity: nat, f: QueuedFrame)
    requires capacity > 0 && |q.frames| <= capacity && (HasShutdown(q) || f.kind == SHUTDOWN)
    ensures HasShutdown(Push(q, capacity, f).0)
    ensures f.kind == SHUTDOWN ==> Push(q, capacity, f).1
  {
    var (after, kept) := Push(q, capacity, f);
    if f.kind == SHUTDOWN {
      assert after.frames[|after.frames| - 1].kind == SHUTDOWN;
    } else {
      var i :| 0 <= i < |q.frames| && q.frames[i].kind == SHUTDOWN;
      if |q.frames| < capacity {
        assert after.frames[i].kind == SHUTDOWN;
      } else if kept {
        var k := Victim(q.frames, f.kind).value;
        assert after.frames[if i < k then i else i - 1].kind == SHUTDOWN;
      } else {
        assert after.frames[i].kind == SHUTDOWN;
      }
    }
  }

  /** Whether a run pops a SHUTDOWN. */
  predicate PopsShutdown(w: World, capacity: nat, events: seq<Event>)
    requires capacity > 0
    decreases |events|
  {
    events != [] &&
    ((events[0].Take? && w.q.frames != [] && w.q.frames[0].kind == SHUTDOWN) ||
     PopsShutdown(Next(w, capacity, events[0]), capacity, events[1..]))
  }

  lemma {:induction false} ShutdownStaysQueued(w: World, capacity: nat, events: seq<Event>)
    requires capacity > 0 && |w.q.frames| <= capacity && HasShutdown(w.q)
    requires !PopsShutdown(w, capacity, events)
    ensures HasShutdown(Run(w, capacity, events).q)
    decreases |events|
  {
    if events != [] {
      match events[0] {
        case Offer(f) =>
          ShutdownStays(w.q, capacity, f);
        case Take =>
          var i :| 0 <= i < |w.q.frames| && w.q.frames[i].kind == SHUTDOWN;
          assert i > 0 && w.q.frames[1..][i - 1].kind == SHUTDOWN;
      }
      ShutdownStaysQueued(Next(w, capacity, events[0]), capacity, events[1..]);
    }
  }

  /** Once a SHUTDOWN has been pushed, the queue holds one until a pop returns one, whatever else is pushed. */
  lemma ShutdownIsNeverLost(capacity: nat, before: seq<Event>, f: QueuedFrame, after: seq<Event>)
    requires capacity > 0 && f.kind == SHUTDOWN
    requires !PopsShutdown(Next(Run(Start, capacity, before), capacity, Offer(f)), capacity, after)
    ensures HasShutdown(Run(Next(Run(Start, capacity, before), capacity, Offer(f)), capacity, after).q)
  {
    RunInv(Start, capacity, before);
    var w := Run(Start, capacity, before);
    ShutdownStays(w.q, capacity, f);
    ShutdownStaysQueued(Next(w, capacity, Offer(f)), capacity, after);
  }

  /**
    Who may displace whom in a full queue, and exactly when a push is refused. Audio displaces audio only; a START or
    STOP gives way only to a START, a STOP or a SHUTDOWN; a SHUTDOWN only to a SHUTDOWN.
   */
  lemma DisplacementPolicy(q: Queue, capacity: nat, f: QueuedFrame)
    requires capacity > 0 && |q.frames| == capacity
    ensures var victim := Victim(q.frames, f.kind);
            && (victim.Some? ==>
                  var lost := q.frames[victim.value].kind;
                  && (f.kind == AUDIO_PCM ==> lost == AUDIO_PCM)
                  && (Required(lost) ==> Required(f.kind) || f.kind == SHUTDOWN)
                  && (lost == SHUTDOWN ==> f.kind == SHUTDOWN)
                  && (lost != AUDIO_PCM ==> forall i :: 0 <= i < capacity ==> q.frames[i].kind != AUDIO_PCM))
            && (!Push(q, capacity, f).1 <==>
                  && (forall i :: 0 <= i < capacity ==> q.frames[i].kind != AUDIO_PCM)
                  && f.kind != SHUTDOWN
                  && (f.kind == AUDIO_PCM || forall i :: 0 <= i < capacity ==> !Superseded(q.frames[i].kind, f.kind))
                  && (Required(f.kind) ==> forall i :: 0 <= i < capacity ==> q.frames[i].kind == SHUTDOWN))
  {
  }

  /** A START or STOP is refused only when nothing but SHUTDOWN frames is queued. */
  lemma DirectivesLand(q: Queue, capacity: nat, f: QueuedFrame)
    requires capacity > 0 && |q.frames| <= capacity && Required(f.kind)
    ensures Push(q, capacity, f).1 <==>
            |q.frames| < capacity || exists i :: 0 <= i < |q.frames| && q.frames[i].kind != SHUTDOWN
    ensures Push(q, capacity, f).1 ==>
            Push(q, capacity, f).0.frames[|Push(q, capacity, f).0.frames| - 1] == f
  {
    if |q.frames| == capacity {
      DisplacementPolicy(q, capacity, f);
    }
  }

  /** The oldest frame of one of these kinds is left out, and the new one comes last. */
  ghost predicate Displaces(frames: seq<QueuedFrame>, kinds: set<nat>, f: QueuedFrame, after: seq<QueuedFrame>)
  {
    exists k: nat :: OldestOf(frames, kinds, k) && after == frames[..k] + frames[k + 1..] + [f]
  }

  ghost predicate OldestOf(frames: seq<QueuedFrame>, kinds: set<nat>, k: nat)
  {
    k < |frames| && frames[k].kind in kinds && forall i :: 0 <= i < k ==> frames[i].kind !in kinds
  }

  function Kinds(frames: seq<QueuedFrame>): set<nat>
  {
    set i | 0 <= i < |frames| :: frames[i].kind
  }

  /**
    What a push does, in the numbers of the protocol. With room the frame comes last. A full queue gives up its oldest
    AUDIO (4) for any frame. Without audio it refuses audio; a SHUTDOWN (11) takes the place of the oldest frame; any other
    frame that of the oldest PAUSE (5), RESUME (6) or frame of its own kind; a START (3) or STOP (7) else that of the oldest
    that is no SHUTDOWN; and what finds no place is refused.
   */
  lemma PushDoes(q: Queue, capacity: nat, f: QueuedFrame)
    requires capacity > 0 && |q.frames| <= capacity
    ensures var (after, kept) := Push(q, capacity, f);
            var kinds := Kinds(q.frames);
            if |q.frames| < capacity then kept && after.frames == q.frames + [f]
            else if 4 in kinds then kept && Displaces(q.frames, {4}, f, after.frames)
            else if f.kind == 4 then !kept && after.frames == q.frames
            else if f.kind == 11 then kept && after.frames == q.frames[1..] + [f]
            else if 5 in kinds || 6 in kinds || f.kind in kinds then
              kept && Displaces(q.frames, {5, 6, f.kind}, f, after.frames)
            else if (f.kind == 3 || f.kind == 7) && kinds != {11} then
              kept && Displaces(q.frames, kinds - {11}, f, after.frames)
            else !kept && after.frames == q.frames
  {
    if |q.frames| == capacity {
      KindsAre(q.frames);
      var (after, kept) := Push(q, capacity, f);
      if kept {
        var k := Victim(q.frames, f.kind).value;
        assert after.frames == q.frames[..k] + q.frames[k + 1..] + [f];
        assert k == 0 ==> q.frames[..k] + q.frames[k + 1..] == q.frames[1..];
        VictimIsOldest(q.frames, f.kind);
      }
    }
  }

  lemma KindsAre(frames: seq<QueuedFrame>)
    requires frames != []
    ensures forall kind :: kind in Kinds(frames) <==> exists i :: 0 <= i < |frames| && frames[i].kind == kind
    ensures Kinds(frames) != {11} <==> exists i :: 0 <= i < |frames| && frames[i].kind != 11
  {
    assert frames[0].kind in Kinds(frames);
    if forall i :: 0 <= i < |frames| ==> frames[i].kind == 11 {
      assert Kinds(frames) == {11};
    } else {
      var i :| 0 <= i < |frames| && frames[i].kind != 11;
      assert frames[i].kind in Kinds(frames);
    }
  }

  lemma VictimIsOldest(frames: seq<QueuedFrame>, incoming: nat)
    requires frames != [] && Victim(frames, incoming).Some?
    ensures var k, kinds := Victim(frames, incoming).value, Kinds(frames);
            if 4 in kinds then OldestOf(frames, {4}, k)
            else if incoming == 11 then k == 0
            else if 5 in kinds || 6 in kinds || incoming in kinds then OldestOf(frames, {5, 6, incoming}, k)
            else OldestOf(frames, kinds - {11}, k)
  {
    KindsAre(frames);
  }
}
