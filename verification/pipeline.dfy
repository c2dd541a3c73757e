/** The ordered translation pipeline as a value. */
module Pipelines {
  // What each critical section of the translator's mutex does to the queued jobs, the jobs held by the pool threads and
  // the completed results. Rings are sequences here, oldest first; the class in translate_async.dfy works on the arrays
  // and is proved against these functions.

  import opened Captions

  const ACTIVE_BUDGET: nat := 4
  const QUEUE_CAPACITY: nat := 32
  const RESULT_CAPACITY: nat := QUEUE_CAPACITY + 2

  datatype Job = Job(
    epoch: nat,
    ordinal: nat,
    segment: CaptionSegment,
    sourceLang: string,
    targetLang: string,
    skip: bool)

  datatype Result = Result(
    epoch: nat,
    segment: CaptionSegment,
    attempted: bool,
    success: bool,
    translatedText: string,
    cause: FailureCause)

  datatype Completion = Completion(ordinal: nat, result: Result)

  /** What the network translation of one cue came back with; any value is possible. */
  datatype Outcome = Outcome(success: bool, text: string, tier: nat, latencyUs: nat, cause: FailureCause)

  datatype Pipeline = Pipeline(
    stopping: bool,
    epoch: nat,
    nextSubmit: nat,
    nextResult: nat,
    jobs: seq<Job>,
    inflight: set<Job>,
    active: nat,
    results: seq<Completion>)

  const Init := Pipeline(false, 1, 1, 1, [], {}, 0, [])

  // ---------------------------------------------------------------- results

  function BindResultText(r: Result): Result
  {
    if r.success && r.translatedText != ""
    then r.(segment := r.segment.(attempted := r.attempted, translated := Some(r.translatedText)))
    else r.(segment := r.segment.(attempted := r.attempted, translated := None, tier := TIER_NONE))
  }

  /** The source-text result a job degrades to when it is evicted from a full queue. */
  function EvictedResult(job: Job): Result
  {
    BindResultText(Result(job.epoch, job.segment, true, false, "", Local))
  }

  /** What a pool thread makes of a job once the network outcome is known. */
  function ThreadResult(job: Job, outcome: Outcome): Result
  {
    var blank := job.segment.(translated := None, tier := TIER_NONE, latencyUs := 0);
    if job.skip then
      BindResultText(Result(job.epoch, blank, true, false, "", Local))
    else
      var tier := if outcome.success then outcome.tier else TIER_NONE;
      BindResultText(Result(job.epoch, blank.(latencyUs := outcome.latencyUs, tier := tier), true, outcome.success,
                            outcome.text, outcome.cause))
  }

  function Language(given: string, fallback: string): string
  {
    var chosen := if given == "" then fallback else given;
    if |chosen| > 15 then chosen[..15] else chosen
  }

  // ------------------------------------------------------ critical sections

  function PushResult(p: Pipeline, ordinal: nat, r: Result): Pipeline
  {
    if |p.results| >= RESULT_CAPACITY then p else p.(results := p.results + [Completion(ordinal, r)])
  }

  /** Index of the first completion that carries the ordinal to deliver next. */
  function FindNext(results: seq<Completion>, ordinal: nat): (k: Option<nat>)
    ensures k.Some? ==> k.value < |results| && results[k.value].ordinal == ordinal
    ensures k.Some? ==> forall i :: 0 <= i < k.value ==> results[i].ordinal != ordinal
    ensures k.None? ==> forall i :: 0 <= i < |results| ==> results[i].ordinal != ordinal
  {
    if results == [] then None
    else if results[0].ordinal == ordinal then Some(0)
    else
      var rest := FindNext(results[1..], ordinal);
      assert forall i :: 0 < i < |results| ==> results[i] == results[1..][i - 1];
      if rest.None? then None else Some(rest.value + 1)
  }

  function RemoveResult(p: Pipeline, k: nat): Pipeline
    requires k < |p.results|
  {
    p.(results := p.results[..k] + p.results[k + 1..], nextResult := p.nextResult + 1)
  }

  predicate Accepts(p: Pipeline, segment: CaptionSegment)
  {
    && 0 < |segment.text| <= MAX_TEXT_BYTES
    && !p.stopping
    && |p.jobs| + |p.inflight| + |p.results| < RESULT_CAPACITY
  }

  /** A full queue completes its oldest job as source text. */
  function EvictOldest(p: Pipeline): Pipeline
  {
    if |p.jobs| < QUEUE_CAPACITY then p
    else
      var oldest := p.jobs[0];
      var active := if !oldest.skip && p.active > 0 then p.active - 1 else p.active;
      PushResult(p.(jobs := p.jobs[1..], active := active), oldest.ordinal, EvictedResult(oldest))
  }

  function NewJob(p: Pipeline, segment: CaptionSegment, sourceLang: string, targetLang: string, skip: bool): Job
  {
    Job(p.epoch, p.nextSubmit, segment.(translated := None), Language(sourceLang, "auto"), Language(targetLang, "en"), skip)
  }

  function Submit(p: Pipeline, segment: CaptionSegment, sourceLang: string, targetLang: string): Pipeline
  {
    if !Accepts(p, segment) then p
    else
      var skip := p.active >= ACTIVE_BUDGET;
      var q := EvictOldest(p);
      q.(jobs := q.jobs + [NewJob(p, segment, sourceLang, targetLang, skip)],
         nextSubmit := q.nextSubmit + 1,
         active := if skip then q.active else q.active + 1)
  }

  predicate CanTake(p: Pipeline)
  {
    p.jobs != [] && |p.inflight| < ACTIVE_BUDGET
  }

  /** An idle pool thread takes the oldest job out of the queue. */
  function Take(p: Pipeline): Pipeline
    requires CanTake(p)
  {
    p.(jobs := p.jobs[1..], inflight := p.inflight + {p.jobs[0]})
  }

  /** A pool thread hands in the result of the job it holds. */
  function Complete(p: Pipeline, job: Job, outcome: Outcome): Pipeline
    requires job in p.inflight
  {
    var active := if !job.skip && job.epoch == p.epoch && p.active > 0 then p.active - 1 else p.active;
    var q := p.(active := active);
    var pushed := if !p.stopping && job.epoch == p.epoch
                  then PushResult(q, job.ordinal, ThreadResult(job, outcome)) else q;
    pushed.(inflight := p.inflight - {job})
  }

  /** The delivery step and the result it hands to the worker loop, if any. */
  function Deliver(p: Pipeline): (Pipeline, Option<Result>)
  {
    var k := FindNext(p.results, p.nextResult);
    if k.None? then (p, None)
    else
      var r := p.results[k.value].result;
      (RemoveResult(p, k.value), if r.epoch != p.epoch then None else Some(BindResultText(r)))
  }

  function Invalidate(p: Pipeline): Pipeline
  {
    p.(epoch := p.epoch + 1, nextSubmit := 1, nextResult := 1, jobs := [], results := [], active := 0)
  }

  function Destroy(p: Pipeline): Pipeline
  {
    p.(stopping := true, jobs := [], results := [], active := 0)
  }

  predicate HasPending(p: Pipeline)
  {
    p.jobs != [] || p.inflight != {} || p.results != []
  }

  predicate HasResult(p: Pipeline)
  {
    FindNext(p.results, p.nextResult).Some?
  }
}
