/** Every interleaving of the translator's critical sections. */
module PipelineRuns {
  // An event is one critical section; a run is any finite sequence of them. The history records, for the current epoch,
  // the cues accepted and the results delivered, and seals both away when the epoch is invalidated.

  import opened Captions
  import opened Pipelines

  datatype Event =
    | SubmitCue(segment: CaptionSegment, sourceLang: string, targetLang: string)
    | TakeJob
    | CompleteJob(job: Job, outcome: Outcome)
    | DeliverNext
    | InvalidateEpoch
    | DestroyAll

  datatype EpochLog = EpochLog(epoch: nat, accepted: seq<CaptionSegment>, delivered: seq<Result>)

  datatype World = World(p: Pipeline, log: EpochLog, past: seq<EpochLog>)

  const Start := World(Init, EpochLog(1, [], []), [])

  /** One critical section. An event that is not possible in the state changes nothing. */
  function Next(w: World, e: Event): World
  {
    match e
    case SubmitCue(segment, source, target) =>
      var accepted := if Accepts(w.p, segment) then w.log.accepted + [segment] else w.log.accepted;
      w.(p := Submit(w.p, segment, source, target), log := w.log.(accepted := accepted))
    case TakeJob =>
      if CanTake(w.p) then w.(p := Take(w.p)) else w
    case CompleteJob(job, outcome) =>
      if job in w.p.inflight then w.(p := Complete(w.p, job, outcome)) else w
    case DeliverNext =>
      var (p, r) := Deliver(w.p);
      w.(p := p, log := if r.Some? then w.log.(delivered := w.log.delivered + [r.value]) else w.log)
    case InvalidateEpoch =>
      World(Invalidate(w.p), EpochLog(w.p.epoch + 1, [], []), w.past + [w.log])
    case DestroyAll =>
      w.(p := Destroy(w.p))
  }

  function Run(w: World, events: seq<Event>): World
    decreases |events|
  {
    if events == [] then w else Run(Next(w, events[0]), events[1..])
  }

  // ------------------------------------------------------------- invariant

  /** A result is the completion of an accepted cue: the cue itself, marked as attempted, with any translation. */
  predicate CompletionOf(r: Result, epoch: nat, cue: CaptionSegment)
  {
    && r.epoch == epoch
    && r.attempted
    && SameCue(r.segment, cue)
    && r.segment.attempted
    && (if r.success && r.translatedText != "" then r.segment.translated == Some(r.translatedText)
        else r.segment.translated == None && r.segment.tier == TIER_NONE)
  }

  ghost predicate InResults(results: seq<Completion>, ordinal: nat)
  {
    exists k :: 0 <= k < |results| && results[k].ordinal == ordinal
  }

  ghost predicate InFlight(inflight: set<Job>, epoch: nat, ordinal: nat)
  {
    exists job :: job in inflight && job.epoch == epoch && job.ordinal == ordinal
  }

  ghost predicate InJobs(jobs: seq<Job>, ordinal: nat)
  {
    exists i :: 0 <= i < |jobs| && jobs[i].ordinal == ordinal
  }

  /** First ordinal that is still queued, or the next one to be given out when the queue is empty. */
  function QueueStart(p: Pipeline): int
  {
    p.nextSubmit - |p.jobs|
  }

  ghost predicate JobsInOrder(p: Pipeline)
  {
    forall i :: 0 <= i < |p.jobs| ==> p.jobs[i].epoch == p.epoch && p.jobs[i].ordinal == QueueStart(p) + i
  }

  ghost predicate DistinctKeys(p: Pipeline)
  {
    && (forall a, b :: a in p.inflight && b in p.inflight && a.epoch == b.epoch && a.ordinal == b.ordinal ==> a == b)
    && (forall i, j :: 0 <= i < j < |p.results| ==> p.results[i].ordinal != p.results[j].ordinal)
  }

  ghost predicate InRange(p: Pipeline)
  {
    && (forall job :: job in p.inflight ==> job.epoch <= p.epoch)
    && (forall job :: job in p.inflight && job.epoch == p.epoch ==> p.nextResult <= job.ordinal < QueueStart(p))
    && (forall k :: 0 <= k < |p.results| ==>
          p.results[k].result.epoch == p.epoch && p.nextResult <= p.results[k].ordinal < QueueStart(p))
  }

  /** Every ordinal taken from the queue and not yet delivered is in flight or completed, and not both. */
  ghost predicate HeldOnce(p: Pipeline)
  {
    forall o: nat :: p.nextResult <= o < QueueStart(p) ==> (InResults(p.results, o) != InFlight(p.inflight, p.epoch, o))
  }

  function ActiveJobs(jobs: seq<Job>): nat
  {
    if jobs == [] then 0 else (if jobs[0].skip then 0 else 1) + ActiveJobs(jobs[1..])
  }

  function ActiveSet(inflight: set<Job>, epoch: nat): set<Job>
  {
    set job | job in inflight && job.epoch == epoch && !job.skip
  }

  ghost predicate Bounded(p: Pipeline)
  {
    && |p.jobs| <= QUEUE_CAPACITY
    && |p.inflight| <= ACTIVE_BUDGET
    && |p.jobs| + |p.inflight| + |p.results| <= RESULT_CAPACITY
    && p.active == ActiveJobs(p.jobs) + |ActiveSet(p.inflight, p.epoch)|
    && p.active <= ACTIVE_BUDGET
  }

  /** The state invariant of a pipeline that has not been destroyed. */
  ghost predicate Live(p: Pipeline)
  {
    && !p.stopping
    && 1 <= p.nextResult <= QueueStart(p)
    && JobsInOrder(p)
    && DistinctKeys(p)
    && InRange(p)
    && HeldOnce(p)
    && Bounded(p)
  }

  /** What is left of it while the pool winds down. */
  ghost predicate Stopped(p: Pipeline)
  {
    && p.stopping
    && p.jobs == [] && p.results == [] && p.active == 0
    && |p.inflight| <= ACTIVE_BUDGET
  }

  ghost predicate StateInv(p: Pipeline)
  {
    Live(p) || Stopped(p)
  }

  // ---------------------------------------------------- the state invariant

  lemma {:induction false} ActiveJobsAppend(jobs: seq<Job>, job: Job)
    ensures ActiveJobs(jobs + [job]) == ActiveJobs(jobs) + (if job.skip then 0 else 1)
  {
    if jobs == [] {
      assert jobs + [job] == [job];
    } else {
      assert (jobs + [job])[1..] == jobs[1..] + [job];
      ActiveJobsAppend(jobs[1..], job);
    }
  }

  lemma EvictInv(p: Pipeline)
    requires Live(p) && |p.jobs| + |p.inflight| + |p.results| < RESULT_CAPACITY
    ensures Live(EvictOldest(p)) && |EvictOldest(p).jobs| < QUEUE_CAPACITY
    ensures |EvictOldest(p).jobs| + |p.inflight| + |EvictOldest(p).results| < RESULT_CAPACITY
    ensures EvictOldest(p).(jobs := p.jobs, results := p.results, active := p.active) == p
    ensures EvictOldest(p).active <= p.active
  {
    if |p.jobs| >= QUEUE_CAPACITY {
      var oldest := p.jobs[0];
      var q := EvictOldest(p);
      assert ActiveJobs(p.jobs) == (if oldest.skip then 0 else 1) + ActiveJobs(p.jobs[1..]);
      forall o: nat | q.nextResult <= o < QueueStart(q)
        ensures InResults(q.results, o) != InFlight(q.inflight, q.epoch, o)
      {
        ResultsAppend(p.results, Completion(oldest.ordinal, EvictedResult(oldest)), o);
      }
    }
  }

  lemma ResultsAppend(results: seq<Completion>, c: Completion, o: nat)
    ensures InResults(results + [c], o) <==> InResults(results, o) || o == c.ordinal
  {
    var longer := results + [c];
    if InResults(results, o) {
      var k :| 0 <= k < |results| && results[k].ordinal == o;
      assert longer[k].ordinal == o;
    }
    if o == c.ordinal {
      assert longer[|results|].ordinal == o;
    }
  }

  lemma SubmitInv(p: Pipeline, segment: CaptionSegment, source: string, target: string)
    requires StateInv(p)
    ensures StateInv(Submit(p, segment, source, target))
  {
    hide JobsInOrder, DistinctKeys, InRange, HeldOnce, Bounded, EvictOldest;
    if Accepts(p, segment) {
      var skip := p.active >= ACTIVE_BUDGET;
      var q, job := EvictOldest(p), NewJob(p, segment, source, target, skip);
      EvictInv(p);
      AppendInv(q, job);
      assert Live(Submit(p, segment, source, target));
    }
  }

  lemma AppendInv(q: Pipeline, job: Job)
    requires Live(q) && |q.jobs| < QUEUE_CAPACITY && |q.jobs| + |q.inflight| + |q.results| < RESULT_CAPACITY
    requires job.epoch == q.epoch && job.ordinal == q.nextSubmit && (!job.skip ==> q.active < ACTIVE_BUDGET)
    ensures Live(q.(jobs := q.jobs + [job], nextSubmit := q.nextSubmit + 1,
                    active := if job.skip then q.active else q.active + 1))
  {
    ActiveJobsAppend(q.jobs, job);
  }

  lemma TakeInv(p: Pipeline)
    requires StateInv(p) && CanTake(p)
    ensures StateInv(Take(p))
    ensures p.jobs[0] !in p.inflight
  {
    if !p.stopping {
      TakeOrder(p);
      TakeHeldOnce(p);
      TakeBounded(p);
      assert Live(Take(p));
    }
  }

  lemma TakeOrder(p: Pipeline)
    requires JobsInOrder(p) && CanTake(p) && DistinctKeys(p) && InRange(p)
    requires p.nextResult <= QueueStart(p)
    ensures var q := Take(p);
            p.jobs[0] !in p.inflight && JobsInOrder(q) && DistinctKeys(q) && InRange(q) && q.nextResult <= QueueStart(q)
  {
    hide DistinctKeys;
    TakeDistinct(p);
    assert p.jobs[0].epoch == p.epoch && p.jobs[0].ordinal == QueueStart(p);
    var q, job := Take(p), p.jobs[0];
    forall i | 0 <= i < |q.jobs|
      ensures q.jobs[i].epoch == q.epoch && q.jobs[i].ordinal == QueueStart(q) + i
    {
      assert q.jobs[i] == p.jobs[i + 1];
    }
  }

  lemma TakeDistinct(p: Pipeline)
    requires JobsInOrder(p) && CanTake(p) && DistinctKeys(p) && InRange(p)
    ensures DistinctKeys(Take(p))
  {
  }

  lemma TakeHeldOnce(p: Pipeline)
    requires JobsInOrder(p) && CanTake(p) && InRange(p) && HeldOnce(p)
    ensures HeldOnce(Take(p))
  {
  }

  lemma TakeBounded(p: Pipeline)
    requires JobsInOrder(p) && CanTake(p) && InRange(p) && Bounded(p)
    ensures Bounded(Take(p))
  {
    var job := p.jobs[0];
    assert job !in p.inflight;
    assert ActiveSet(p.inflight + {job}, p.epoch) ==
           if job.skip then ActiveSet(p.inflight, p.epoch) else ActiveSet(p.inflight, p.epoch) + {job};
  }

  lemma FlightRemove(p: Pipeline, job: Job, epoch: nat, o: nat)
    requires DistinctKeys(p) && job in p.inflight
    ensures InFlight(p.inflight - {job}, epoch, o) <==>
            InFlight(p.inflight, epoch, o) && !(job.epoch == epoch && job.ordinal == o)
  {
  }

  lemma CompleteInv(p: Pipeline, job: Job, outcome: Outcome)
    requires StateInv(p) && job in p.inflight
    ensures StateInv(Complete(p, job, outcome))
  {
    if !p.stopping {
      CompleteHeldOnce(p, job, outcome);
      CompleteBounded(p, job, outcome);
      CompleteDistinct(p, job, outcome);
      CompleteOrder(p, job, outcome);
      assert Live(Complete(p, job, outcome));
    }
  }

  lemma CompleteOrder(p: Pipeline, job: Job, outcome: Outcome)
    requires !p.stopping && job in p.inflight && JobsInOrder(p) && InRange(p)
    ensures var q := Complete(p, job, outcome);
            !q.stopping && JobsInOrder(q) && InRange(q) && q.nextResult == p.nextResult && QueueStart(q) == QueueStart(p)
  {
  }

  lemma CompleteHeldOnce(p: Pipeline, job: Job, outcome: Outcome)
    requires !p.stopping && job in p.inflight && DistinctKeys(p) && HeldOnce(p) && Bounded(p)
    ensures HeldOnce(Complete(p, job, outcome))
  {
    var q := Complete(p, job, outcome);
    forall o: nat | q.nextResult <= o < QueueStart(q)
      ensures InResults(q.results, o) != InFlight(q.inflight, q.epoch, o)
    {
      FlightRemove(p, job, p.epoch, o);
      ResultsAppend(p.results, Completion(job.ordinal, ThreadResult(job, outcome)), o);
    }
  }

  lemma CompleteBounded(p: Pipeline, job: Job, outcome: Outcome)
    requires job in p.inflight && Bounded(p)
    ensures Bounded(Complete(p, job, outcome))
  {
    var before := ActiveSet(p.inflight, p.epoch);
    assert ActiveSet(p.inflight - {job}, p.epoch) ==
           if !job.skip && job.epoch == p.epoch then before - {job} else before;
    assert !job.skip && job.epoch == p.epoch ==> job in before;
  }

  lemma CompleteDistinct(p: Pipeline, job: Job, outcome: Outcome)
    requires !p.stopping && job in p.inflight && DistinctKeys(p) && InRange(p) && HeldOnce(p)
    ensures DistinctKeys(Complete(p, job, outcome))
  {
    if job.epoch == p.epoch {
      assert InFlight(p.inflight, p.epoch, job.ordinal);
      forall k | 0 <= k < |p.results|
        ensures p.results[k].ordinal != job.ordinal
      {
        assert InResults(p.results, p.results[k].ordinal);
      }
    }
  }

  lemma DeliverInv(p: Pipeline)
    requires StateInv(p)
    ensures StateInv(Deliver(p).0)
    ensures FindNext(p.results, p.nextResult).Some? ==> Deliver(p).1.Some?
  {
    var k := FindNext(p.results, p.nextResult);
    if k.Some? {
      var q := Deliver(p).0;
      assert InResults(p.results, p.nextResult);
      forall o: nat | q.nextResult <= o < QueueStart(q)
        ensures InResults(q.results, o) != InFlight(q.inflight, q.epoch, o)
      {
        ResultsRemove(p.results, k.value, o);
      }
    }
  }

  lemma ResultsRemove(results: seq<Completion>, k: nat, o: nat)
    requires k < |results| && o != results[k].ordinal
    ensures InResults(results[..k] + results[k + 1..], o) <==> InResults(results, o)
  {
    var rest := results[..k] + results[k + 1..];
    if InResults(results, o) {
      var i :| 0 <= i < |results| && results[i].ordinal == o;
      assert rest[if i < k then i else i - 1].ordinal == o;
    }
    if InResults(rest, o) {
      var i :| 0 <= i < |rest| && rest[i].ordinal == o;
      assert results[if i < k then i else i + 1].ordinal == o;
    }
  }

  lemma InvalidateInv(p: Pipeline)
    requires StateInv(p)
    ensures StateInv(Invalidate(p))
  {
  }

  lemma DestroyInv(p: Pipeline)
    requires StateInv(p)
    ensures StateInv(Destroy(p))
  {
  }

  // -------------------------------------------------- what the history says

  /** The delivered results are the completions of the first accepted cues, in the order they were accepted. */
  ghost predicate DeliveredPrefix(log: EpochLog)
  {
    && |log.delivered| <= |log.accepted|
    && forall i :: 0 <= i < |log.delivered| ==> CompletionOf(log.delivered[i], log.epoch, log.accepted[i])
  }

  predicate JobOf(job: Job, log: EpochLog)
  {
    && 1 <= job.ordinal <= |log.accepted|
    && SameCue(job.segment, log.accepted[job.ordinal - 1])
  }

  ghost predicate Faithful(p: Pipeline, log: EpochLog)
  {
    && |log.accepted| == p.nextSubmit - 1
    && |log.delivered| == p.nextResult - 1
    && (forall i :: 0 <= i < |p.jobs| ==> JobOf(p.jobs[i], log))
    && (forall job :: job in p.inflight && job.epoch == p.epoch ==> JobOf(job, log))
    && (forall k :: 0 <= k < |p.results| ==>
          && 1 <= p.results[k].ordinal <= |log.accepted|
          && CompletionOf(p.results[k].result, p.epoch, log.accepted[p.results[k].ordinal - 1]))
  }

  ghost predicate Sealed(past: seq<EpochLog>)
  {
    forall i :: 0 <= i < |past| ==> past[i].epoch == i + 1 && DeliveredPrefix(past[i])
  }

  ghost predicate WorldInv(w: World)
  {
    && StateInv(w.p)
    && w.log.epoch == w.p.epoch == |w.past| + 1
    && Sealed(w.past)
    && DeliveredPrefix(w.log)
    && (!w.p.stopping ==> Faithful(w.p, w.log))
  }

  /** What the network answered is what is shown: its text and tier if it has a text, and its latency and cause anyway. */
  predicate Shows(r: Result, outcome: Outcome)
  {
    && r.success == outcome.success && r.cause == outcome.cause
    && r.segment.latencyUs == outcome.latencyUs
    && (if outcome.success && outcome.text != ""
        then r.segment.translated == Some(outcome.text) && r.segment.tier == outcome.tier
        else r.segment.translated == None && r.segment.tier == 0)
  }

  /** The source text only, for a reason of the pipeline's own. */
  predicate ShowsSource(r: Result, latencyUs: nat)
  {
    && !r.success && r.cause == Local
    && r.segment.translated == None && r.segment.tier == 0 && r.segment.latencyUs == latencyUs
  }

  lemma ThreadResultCompletes(job: Job, outcome: Outcome, cue: CaptionSegment)
    requires SameCue(job.segment, cue)
    ensures CompletionOf(ThreadResult(job, outcome), job.epoch, cue)
    ensures CompletionOf(EvictedResult(job), job.epoch, cue)
    ensures if job.skip then ShowsSource(ThreadResult(job, outcome), 0) else Shows(ThreadResult(job, outcome), outcome)
    ensures ShowsSource(EvictedResult(job), job.segment.latencyUs)
  {
  }

  lemma EvictFaithful(p: Pipeline, log: EpochLog)
    requires JobsInOrder(p) && Faithful(p, log)
    ensures Faithful(EvictOldest(p), log)
  {
    if |p.jobs| >= QUEUE_CAPACITY {
      var oldest := p.jobs[0];
      assert JobOf(oldest, log);
      ThreadResultCompletes(oldest, Outcome(false, "", 0, 0, Local), log.accepted[oldest.ordinal - 1]);
    }
  }

  lemma SubmitFaithful(p: Pipeline, log: EpochLog, segment: CaptionSegment, source: string, target: string)
    requires JobsInOrder(p) && Faithful(p, log) && Accepts(p, segment)
    ensures Faithful(Submit(p, segment, source, target), log.(accepted := log.accepted + [segment]))
  {
    EvictFaithful(p, log);
    assert JobOf(NewJob(p, segment, source, target, p.active >= ACTIVE_BUDGET),
                 log.(accepted := log.accepted + [segment]));
  }

  lemma CompleteFaithful(p: Pipeline, log: EpochLog, job: Job, outcome: Outcome)
    requires Live(p) && Faithful(p, log) && job in p.inflight
    ensures Faithful(Complete(p, job, outcome), log)
  {
    if job.epoch == p.epoch {
      assert JobOf(job, log);
      ThreadResultCompletes(job, outcome, log.accepted[job.ordinal - 1]);
    }
  }

  lemma DeliverFaithful(p: Pipeline, log: EpochLog)
    requires Live(p) && Faithful(p, log) && HasResult(p) && log.epoch == p.epoch && DeliveredPrefix(log)
    ensures var (q, r) := Deliver(p);
            && r.Some?
            && Faithful(q, log.(delivered := log.delivered + [r.value]))
            && DeliveredPrefix(log.(delivered := log.delivered + [r.value]))
  {
    var k := FindNext(p.results, p.nextResult).value;
    var r := p.results[k].result;
    hide CompletionOf, JobOf;
    NextIsFaithful(p, log, k);
    RemoveFaithful(p, log, k);
  }

  lemma NextIsFaithful(p: Pipeline, log: EpochLog, k: nat)
    requires Faithful(p, log) && k < |p.results| && p.results[k].ordinal == p.nextResult
    ensures p.nextResult - 1 < |log.accepted|
    ensures CompletionOf(p.results[k].result, p.epoch, log.accepted[p.nextResult - 1])
    ensures BindResultText(p.results[k].result) == p.results[k].result
  {
  }

  lemma RemoveFaithful(p: Pipeline, log: EpochLog, k: nat)
    requires Faithful(p, log) && k < |p.results|
    ensures forall d :: |d| == |log.delivered| + 1 ==> Faithful(RemoveResult(p, k), log.(delivered := d))
  {
    var q := RemoveResult(p, k);
    forall i | 0 <= i < |q.results|
      ensures q.results[i] in p.results
    {
      assert q.results[i] == if i < k then p.results[i] else p.results[i + 1];
    }
  }

  lemma DeliverNextInv(w: World)
    requires WorldInv(w)
    ensures WorldInv(Next(w, DeliverNext))
  {
    DeliverInv(w.p);
    if HasResult(w.p) {
      assert Live(w.p);
      DeliverFaithful(w.p, w.log);
    }
  }

  lemma TakeFaithful(p: Pipeline, log: EpochLog)
    requires Live(p) && Faithful(p, log) && CanTake(p)
    ensures Faithful(Take(p), log)
  {
  }

  lemma SubmitNext(w: World, segment: CaptionSegment, source: string, target: string)
    requires WorldInv(w)
    ensures WorldInv(Next(w, SubmitCue(segment, source, target)))
  {
    SubmitInv(w.p, segment, source, target);
    if Accepts(w.p, segment) {
      SubmitFaithful(w.p, w.log, segment, source, target);
      assert DeliveredPrefix(w.log.(accepted := w.log.accepted + [segment]));
    }
  }

  lemma TakeNext(w: World)
    requires WorldInv(w)
    ensures WorldInv(Next(w, TakeJob))
  {
    if CanTake(w.p) {
      TakeInv(w.p);
      TakeFaithful(w.p, w.log);
    }
  }

  lemma CompleteNext(w: World, job: Job, outcome: Outcome)
    requires WorldInv(w)
    ensures WorldInv(Next(w, CompleteJob(job, outcome)))
  {
    if job in w.p.inflight {
      CompleteInv(w.p, job, outcome);
      if !w.p.stopping {
        CompleteFaithful(w.p, w.log, job, outcome);
      }
    }
  }

  lemma InvalidateNext(w: World)
    requires WorldInv(w)
    ensures WorldInv(Next(w, InvalidateEpoch))
  {
    InvalidateInv(w.p);
  }

  /** Every critical section keeps the invariant. */
  lemma NextInv(w: World, e: Event)
    requires WorldInv(w)
    ensures WorldInv(Next(w, e))
  {
    match e
    case SubmitCue(segment, source, target) => SubmitNext(w, segment, source, target);
    case TakeJob => TakeNext(w);
    case CompleteJob(job, outcome) => CompleteNext(w, job, outcome);
    case DeliverNext => DeliverNextInv(w);
    case InvalidateEpoch => InvalidateNext(w);
    case DestroyAll => DestroyInv(w.p);
  }

  lemma StartInv()
    ensures WorldInv(Start)
  {
  }

  lemma {:induction false} RunInv(w: World, events: seq<Event>)
    requires WorldInv(w)
    ensures WorldInv(Run(w, events))
    decreases |events|
  {
    if events != [] {
      NextInv(w, events[0]);
      RunInv(Next(w, events[0]), events[1..]);
    }
  }

  // ---------------------------------------------------------- main results

  ghost predicate ExactlyOne(a: bool, b: bool, c: bool)
  {
    (a || b || c) && !(a && b) && !(a && c) && !(b && c)
  }

  /**
    In every interleaving, what was delivered in an epoch completes the first cues accepted in that epoch, in order and
    without repetition.
   */
  lemma DeliveredInOrder(events: seq<Event>)
    ensures var w := Run(Start, events);
            && DeliveredPrefix(w.log)
            && w.log.epoch == |w.past| + 1
            && forall i :: 0 <= i < |w.past| ==> w.past[i].epoch == i + 1 && DeliveredPrefix(w.past[i])
  {
    RunInv(Start, events);
  }

  /** The results handed over during a run, whatever epoch the history files them under. */
  function DeliveredDuring(w: World, events: seq<Event>): seq<Result>
    decreases |events|
  {
    if events == [] then []
    else
      var r := if events[0].DeliverNext? then Deliver(w.p).1 else None;
      (if r.Some? then [r.value] else []) + DeliveredDuring(Next(w, events[0]), events[1..])
  }

  function AcceptedDuring(w: World, events: seq<Event>): seq<CaptionSegment>
    decreases |events|
  {
    if events == [] then []
    else
      (if events[0].SubmitCue? && Accepts(w.p, events[0].segment) then [events[0].segment] else [])
      + AcceptedDuring(Next(w, events[0]), events[1..])
  }

  /** The result is of an epoch not before `least` and completes one of the cues. */
  ghost predicate ComesFrom(r: Result, least: nat, cues: seq<CaptionSegment>)
  {
    r.epoch >= least && exists cue :: cue in cues && CompletionOf(r, r.epoch, cue)
  }

  /** One delivery: the result completes the next accepted cue of the current epoch. */
  lemma NextComesFrom(w: World, least: nat, cues: seq<CaptionSegment>)
    requires WorldInv(w) && w.p.epoch >= least && Deliver(w.p).1.Some?
    requires forall cue :: cue in w.log.accepted ==> cue in cues
    ensures ComesFrom(Deliver(w.p).1.value, least, cues)
  {
    hide CompletionOf;
    DeliverFaithful(w.p, w.log);
    var r, log := Deliver(w.p).1.value, w.log.(delivered := w.log.delivered + [Deliver(w.p).1.value]);
    var i := |w.log.delivered|;
    assert log.delivered[i] == r && CompletionOf(log.delivered[i], log.epoch, log.accepted[i]);
    assert w.log.accepted[i] in cues;
    CompletionEpoch(r, w.log.epoch, w.log.accepted[i]);
  }

  lemma CompletionEpoch(r: Result, epoch: nat, cue: CaptionSegment)
    requires CompletionOf(r, epoch, cue)
    ensures r.epoch == epoch
  {
  }

  lemma EpochsRise(w: World, e: Event)
    ensures Next(w, e).p.epoch >= w.p.epoch
    ensures e.SubmitCue? && Accepts(w.p, e.segment) ==> Next(w, e).log.accepted == w.log.accepted + [e.segment]
    ensures !(e.SubmitCue? && Accepts(w.p, e.segment)) ==>
              Next(w, e).log.accepted == [] || Next(w, e).log.accepted == w.log.accepted
  {
  }

  lemma {:induction false} DeliveredComesFrom(w: World, events: seq<Event>, least: nat, cues: seq<CaptionSegment>)
    requires WorldInv(w) && w.p.epoch >= least
    requires forall cue :: cue in w.log.accepted ==> cue in cues
    ensures forall r :: r in DeliveredDuring(w, events) ==> ComesFrom(r, least, cues + AcceptedDuring(w, events))
    decreases |events|
  {
    hide WorldInv, ComesFrom, Deliver, Next, Accepts;
    if events != [] {
      var e, n := events[0], Next(w, events[0]);
      NextInv(w, e);
      EpochsRise(w, e);
      var more := if e.SubmitCue? && Accepts(w.p, e.segment) then [e.segment] else [];
      DeliveredComesFrom(n, events[1..], least, cues + more);
      assert cues + more + AcceptedDuring(n, events[1..]) == cues + AcceptedDuring(w, events);
      if e.DeliverNext? && Deliver(w.p).1.Some? {
        NextComesFrom(w, least, cues + AcceptedDuring(w, events));
      }
    }
  }

  /**
    Nothing accepted before an invalidation comes out after it, whatever the threads were doing: every result handed over
    later is of a later epoch and completes a cue that was accepted after the invalidation.
   */
  lemma NothingOldIsDelivered(before: seq<Event>, after: seq<Event>)
    ensures var was := Run(Start, before);
            var w := Next(was, InvalidateEpoch);
            forall r :: r in DeliveredDuring(w, after) ==> ComesFrom(r, was.p.epoch + 1, AcceptedDuring(w, after))
  {
    hide WorldInv, ComesFrom, Run, DeliveredDuring, AcceptedDuring;
    StartInv();
    RunInv(Start, before);
    var was := Run(Start, before);
    var w := Next(was, InvalidateEpoch);
    NextInv(was, InvalidateEpoch);
    DeliveredComesFrom(w, after, was.p.epoch + 1, []);
    assert [] + AcceptedDuring(w, after) == AcceptedDuring(w, after);
  }

  /**
    While the epoch lasts nothing accepted is lost: every accepted cue that is not yet delivered sits in exactly one of
    the job ring, the threads' hands and the result ring.
   */
  lemma PendingHeldExactlyOnce(events: seq<Event>, o: nat)
    requires !Run(Start, events).p.stopping
    ensures var w := Run(Start, events);
            && |w.log.delivered| == w.p.nextResult - 1
            && |w.log.accepted| == w.p.nextSubmit - 1
            && (w.p.nextResult <= o < w.p.nextSubmit <==>
                ExactlyOne(InJobs(w.p.jobs, o), InFlight(w.p.inflight, w.p.epoch, o), InResults(w.p.results, o)))
  {
    RunInv(Start, events);
    var p := Run(Start, events).p;
    if QueueStart(p) <= o < p.nextSubmit {
      assert p.jobs[o - QueueStart(p)].ordinal == o;
    }
  }

  ghost predicate Held(p: Pipeline, o: nat)
  {
    InResults(p.results, o) || InFlight(p.inflight, p.epoch, o) || InJobs(p.jobs, o)
  }

  /** The cue held under an ordinal, wherever it sits. */
  ghost function CueAt(p: Pipeline, o: nat): CaptionSegment
    requires Held(p, o)
  {
    if InResults(p.results, o) then
      var k :| 0 <= k < |p.results| && p.results[k].ordinal == o;
      p.results[k].result.segment
    else if InFlight(p.inflight, p.epoch, o) then
      var job :| job in p.inflight && job.epoch == p.epoch && job.ordinal == o;
      job.segment
    else
      var i :| 0 <= i < |p.jobs| && p.jobs[i].ordinal == o;
      p.jobs[i].segment
  }

  /** The ordinals held are those accepted and not yet delivered, and each holds the cue accepted under it. */
  lemma HeldIsAccepted(w: World, o: nat)
    requires WorldInv(w) && !w.p.stopping
    ensures Held(w.p, o) <==> w.p.nextResult <= o < w.p.nextSubmit
    ensures Held(w.p, o) ==> 1 <= o <= |w.log.accepted| && SameCue(CueAt(w.p, o), w.log.accepted[o - 1])
  {
    if QueueStart(w.p) <= o < w.p.nextSubmit {
      assert w.p.jobs[o - QueueStart(w.p)].ordinal == o;
    }
  }

  /** The rings never overflow, and the network budget counts exactly the cues it is spent on. */
  lemma BoundsHold(events: seq<Event>)
    requires !Run(Start, events).p.stopping
    ensures var p := Run(Start, events).p;
            && |p.jobs| + |p.inflight| + |p.results| <= 34
            && p.active == ActiveJobs(p.jobs) + |ActiveSet(p.inflight, p.epoch)| <= 4
  {
    RunInv(Start, events);
  }

  /**
    No defensive branch is ever taken: a completion or an eviction always finds room in the result ring and a positive
    budget to give back, and the next result is never one of an earlier epoch.
   */
  lemma GuardsNeverFire(events: seq<Event>)
    requires !Run(Start, events).p.stopping
    ensures var p := Run(Start, events).p;
            && (forall job :: job in p.inflight ==> |p.results| < RESULT_CAPACITY)
            && (forall job :: job in p.inflight && job.epoch == p.epoch && !job.skip ==> p.active > 0)
            && (|p.jobs| >= QUEUE_CAPACITY && |p.jobs| + |p.inflight| + |p.results| < RESULT_CAPACITY ==>
                  |p.results| < RESULT_CAPACITY && (!p.jobs[0].skip ==> p.active > 0))
            && (HasResult(p) ==> Deliver(p).1.Some?)
  {
    RunInv(Start, events);
    var p := Run(Start, events).p;
    forall job | job in p.inflight && job.epoch == p.epoch && !job.skip
      ensures p.active > 0
    {
      assert job in ActiveSet(p.inflight, p.epoch);
    }
    DeliverInv(p);
  }

  // ------------------------------------------------------------- progress

  /** Work left: each take, completion and delivery lowers it. */
  function Work(p: Pipeline): nat
  {
    3 * |p.jobs| + 2 * |p.inflight| + |p.results|
  }

  predicate PoolEvent(w: World, e: Event)
  {
    match e
    case TakeJob => CanTake(w.p)
    case CompleteJob(job, _) => job in w.p.inflight
    case DeliverNext => HasResult(w.p)
    case _ => false
  }

  lemma PoolEventShrinksWork(w: World, e: Event)
    requires PoolEvent(w, e)
    ensures Work(Next(w, e).p) < Work(w.p)
  {
  }

  /** While anything is pending some thread or the delivery loop can move: the drain loop cannot get stuck. */
  lemma PendingCanMove(w: World)
    requires WorldInv(w) && HasPending(w.p)
    ensures exists e :: PoolEvent(w, e)
    ensures w.p.jobs == [] && w.p.inflight == {} ==> PoolEvent(w, DeliverNext)
  {
    if w.p.inflight != {} {
      var job :| job in w.p.inflight;
      assert PoolEvent(w, CompleteJob(job, Outcome(false, "", 0, 0, Deadline)));
    } else if w.p.jobs != [] {
      assert PoolEvent(w, TakeJob);
    } else {
      assert InResults(w.p.results, w.p.results[0].ordinal);
      assert !InFlight(w.p.inflight, w.p.epoch, w.p.nextResult);
      assert PoolEvent(w, DeliverNext);
    }
  }

  predicate PoolRun(w: World, events: seq<Event>)
    decreases |events|
  {
    events == [] || (PoolEvent(w, events[0]) && PoolRun(Next(w, events[0]), events[1..]))
  }

  /** Every run of pool and delivery steps is short, whatever the threads do. */
  lemma {:induction false} PoolRunsAreShort(w: World, events: seq<Event>)
    requires WorldInv(w) && PoolRun(w, events)
    ensures |events| + Work(Run(w, events).p) <= Work(w.p)
    decreases |events|
  {
    if events != [] {
      PoolEventShrinksWork(w, events[0]);
      NextInv(w, events[0]);
      PoolRunsAreShort(Next(w, events[0]), events[1..]);
    }
  }

  lemma PoolEventKeepsAccepted(w: World, e: Event)
    requires PoolEvent(w, e)
    ensures Next(w, e).log.accepted == w.log.accepted && Next(w, e).p.stopping == w.p.stopping
    ensures Next(w, e).past == w.past
  {
  }

  lemma {:induction false} PoolRunKeepsAccepted(w: World, events: seq<Event>)
    requires PoolRun(w, events)
    ensures Run(w, events).log.accepted == w.log.accepted && Run(w, events).p.stopping == w.p.stopping
    decreases |events|
  {
    if events != [] {
      PoolEventKeepsAccepted(w, events[0]);
      PoolRunKeepsAccepted(Next(w, events[0]), events[1..]);
    }
  }

  /**
    Draining delivers everything: whenever the pool and the delivery loop are left to run until nothing more can move,
    the pipeline is empty and every cue accepted in the epoch has been delivered.
   */
  lemma DrainDeliversAll(events: seq<Event>, drain: seq<Event>)
    requires var w := Run(Start, events); !w.p.stopping && PoolRun(w, drain)
    requires var end := Run(Run(Start, events), drain); forall e :: !PoolEvent(end, e)
    ensures var end := Run(Run(Start, events), drain);
            && !HasPending(end.p)
            && end.log.accepted == Run(Start, events).log.accepted
            && |end.log.delivered| == |end.log.accepted|
            && forall i :: 0 <= i < |end.log.accepted| ==>
                             CompletionOf(end.log.delivered[i], end.log.epoch, end.log.accepted[i])
  {
    var w := Run(Start, events);
    RunInv(Start, events);
    RunInv(w, drain);
    PoolRunKeepsAccepted(w, drain);
    var end := Run(w, drain);
    if HasPending(end.p) {
      PendingCanMove(end);
    }
    assert !InResults(end.p.results, end.p.nextResult);
    assert !InFlight(end.p.inflight, end.p.epoch, end.p.nextResult);
  }
}
