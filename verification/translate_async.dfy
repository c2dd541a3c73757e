/**
  The translator object: fixed rings of 32 jobs and 34 results updated in place. A method is one critical section of
  the mutex; the jobs the pool threads hold between two sections are the set `inflight`.
 */
module TranslateAsyncs {
  import opened Captions
  import opened Pipelines
  import opened PipelineRuns
  import opened Rings

  class TranslateAsync {
    var stopping: bool
    var epoch: nat
    var nextSubmitOrdinal: nat
    var nextResultOrdinal: nat

    const jobs: array<Job>
    var jobHead: nat
    var jobTail: nat
    var jobCount: nat
    var inflightCount: nat
    var activeTranslationCount: nat

    const results: array<Completion>
    var resultHead: nat
    var resultTail: nat
    var resultCount: nat

    // the jobs the pool threads hold in their own variables between two critical sections
    var inflight: set<Job>

    ghost predicate Shaped()
      reads this, jobs, results
    {
      && jobs.Length == QUEUE_CAPACITY && results.Length == RESULT_CAPACITY
      && jobTail < QUEUE_CAPACITY && jobCount <= QUEUE_CAPACITY
      && jobHead == Slot(jobTail, jobCount, QUEUE_CAPACITY)
      && resultTail < RESULT_CAPACITY && resultCount <= RESULT_CAPACITY
      && resultHead == Slot(resultTail, resultCount, RESULT_CAPACITY)
      && inflightCount == |inflight|
    }

    ghost function State(): (p: Pipeline)
      reads this, jobs, results
      requires Shaped()
      ensures |p.jobs| == jobCount && |p.results| == resultCount
    {
      Pipeline(stopping, epoch, nextSubmitOrdinal, nextResultOrdinal,
               Contents(jobs[..], jobTail, jobCount), inflight, activeTranslationCount,
               Contents(results[..], resultTail, resultCount))
    }

    ghost predicate Valid()
      reads this, jobs, results
    {
      Shaped() && StateInv(State())
    }

    constructor ()
      ensures Valid() && fresh(jobs) && fresh(results)
      ensures State() == Init
    {
      jobs := new Job[QUEUE_CAPACITY];
      results := new Completion[RESULT_CAPACITY];
      stopping := false;
      epoch, nextSubmitOrdinal, nextResultOrdinal := 1, 1, 1;
      jobHead, jobTail, jobCount := 0, 0, 0;
      inflightCount, activeTranslationCount := 0, 0;
      resultHead, resultTail, resultCount := 0, 0, 0;
      inflight := {};
    }

    method PushResultLocked(ordinal: nat, result: Result)
      requires Shaped()
      modifies this`resultHead, this`resultCount, results
      ensures Shaped()
      ensures State() == PushResult(old(State()), ordinal, result)
    {
      if resultCount >= RESULT_CAPACITY {
        return;
      }
      ContentsPush(results[..], resultTail, resultCount, Completion(ordinal, result));
      results[resultHead] := Completion(ordinal, result);
      resultHead := (resultHead + 1) % RESULT_CAPACITY;
      resultCount := resultCount + 1;
    }

    method FindNextResultLocked() returns (found: bool, index: nat, ghost offset: nat)
      requires Shaped()
      ensures found == HasResult(State())
      ensures found ==> FindNext(State().results, State().nextResult) == Some(offset)
      ensures found ==> offset < resultCount && index == Slot(resultTail, offset, RESULT_CAPACITY)
      ensures found ==> results[index] == State().results[offset]
    {
      ghost var queue := Contents(results[..], resultTail, resultCount);
      found, index := SearchRing(queue);
      offset := if found then FindNext(queue, nextResultOrdinal).value else 0;
    }

    method SearchRing(ghost queue: seq<Completion>) returns (found: bool, index: nat)
      requires Shaped() && queue == Contents(results[..], resultTail, resultCount)
      ensures var k := FindNext(queue, nextResultOrdinal);
              && found == k.Some?
              && (found ==> index == Slot(resultTail, k.value, RESULT_CAPACITY) && results[index] == queue[k.value])
    {
      index := resultTail;
      var offset := 0;
      while offset < resultCount
        invariant offset <= resultCount
        invariant index == Slot(resultTail, offset, RESULT_CAPACITY)
        invariant forall i :: 0 <= i < offset ==> queue[i].ordinal != nextResultOrdinal
      {
        ContentsAt(results[..], resultTail, resultCount, offset);
        if results[index].ordinal == nextResultOrdinal {
          FindNextIs(queue, nextResultOrdinal, offset);
          return true, index;
        }
        offset := offset + 1;
        ModOnce(index + 1, RESULT_CAPACITY);
        index := (index + 1) % RESULT_CAPACITY;
      }
      return false, index;
    }

    /** Removes the completion at `index` by moving every newer one a slot back. */
    method RemoveResultLocked(index: nat, ghost k: nat)
      requires Shaped() && k < resultCount && index == Slot(resultTail, k, RESULT_CAPACITY)
      modifies this`resultHead, this`resultCount, this`nextResultOrdinal, results
      ensures Shaped()
      ensures State() == RemoveResult(old(State()), k)
    {
      ContentsShrink(results[..], resultTail, resultCount);
      CloseGap(results, resultTail, resultCount, resultHead, index, k);
      resultHead := (resultHead + RESULT_CAPACITY - 1) % RESULT_CAPACITY;
      resultCount := resultCount - 1;
      nextResultOrdinal := nextResultOrdinal + 1;
    }

    method Submit(segment: CaptionSegment, sourceLang: string, targetLang: string) returns (accepted: bool)
      requires Valid()
      modifies this, jobs, results
      ensures Valid()
      ensures accepted == Accepts(old(State()), segment)
      ensures State() == Pipelines.Submit(old(State()), segment, sourceLang, targetLang)
    {
      SubmitInv(State(), segment, sourceLang, targetLang);
      accepted := SubmitLocked(segment, sourceLang, targetLang);
    }

    method SubmitLocked(segment: CaptionSegment, sourceLang: string, targetLang: string) returns (accepted: bool)
      requires Shaped()
      modifies this, jobs, results
      ensures Shaped()
      ensures accepted == Accepts(old(State()), segment)
      ensures State() == Pipelines.Submit(old(State()), segment, sourceLang, targetLang)
    {
      if |segment.text| == 0 || |segment.text| > MAX_TEXT_BYTES {
        return false;
      }
      if stopping {
        return false;
      }
      if jobCount + inflightCount + resultCount >= RESULT_CAPACITY {
        return false;
      }
      AcceptLocked(segment, sourceLang, targetLang);
      return true;
    }

    method AcceptLocked(segment: CaptionSegment, sourceLang: string, targetLang: string)
      requires Shaped() && Accepts(State(), segment)
      modifies this, jobs, results
      ensures Shaped()
      ensures State() == Pipelines.Submit(old(State()), segment, sourceLang, targetLang)
    {
      var skip := activeTranslationCount >= ACTIVE_BUDGET;
      if jobCount >= QUEUE_CAPACITY {
        EvictOldestLocked();
      }
      var job := Job(epoch, nextSubmitOrdinal, segment.(translated := None), Language(sourceLang, "auto"),
                     Language(targetLang, "en"), skip);
      EnqueueLocked(job);
      nextSubmitOrdinal := nextSubmitOrdinal + 1;
      if !skip {
        activeTranslationCount := activeTranslationCount + 1;
      }
    }

    method EnqueueLocked(job: Job)
      requires Shaped() && jobCount < QUEUE_CAPACITY
      modifies this`jobHead, this`jobCount, jobs
      ensures Shaped()
      ensures State() == old(State()).(jobs := old(State()).jobs + [job])
    {
      ContentsPush(jobs[..], jobTail, jobCount, job);
      jobs[jobHead] := job;
      jobHead := (jobHead + 1) % QUEUE_CAPACITY;
      jobCount := jobCount + 1;
    }

    method EvictOldestLocked()
      requires Shaped() && jobCount >= QUEUE_CAPACITY
      modifies this`jobTail, this`jobCount, this`activeTranslationCount, this`resultHead, this`resultCount, results
      ensures Shaped() && jobCount < QUEUE_CAPACITY
      ensures State() == EvictOldest(old(State()))
    {
      ContentsPop(jobs[..], jobTail, jobCount);
      var oldest := jobs[jobTail];
      jobTail := (jobTail + 1) % QUEUE_CAPACITY;
      jobCount := jobCount - 1;
      if !oldest.skip && activeTranslationCount > 0 {
        activeTranslationCount := activeTranslationCount - 1;
      }
      PushResultLocked(oldest.ordinal, EvictedResult(oldest));
    }

    /** The first critical section of a pool thread's turn: an idle thread takes the oldest job. */
    method TakeJob() returns (job: Job)
      requires Valid() && CanTake(State())
      modifies this`jobTail, this`jobCount, this`inflightCount, this`inflight
      ensures Valid()
      ensures job == old(State()).jobs[0]
      ensures State() == Take(old(State()))
    {
      TakeInv(State());
      job := DequeueLocked();
    }

    method DequeueLocked() returns (job: Job)
      requires Shaped() && jobCount > 0 && State().jobs[0] !in inflight
      modifies this`jobTail, this`jobCount, this`inflightCount, this`inflight
      ensures Shaped()
      ensures job == old(State()).jobs[0]
      ensures State() == old(State()).(jobs := old(State()).jobs[1..], inflight := old(inflight) + {job})
    {
      ContentsPop(jobs[..], jobTail, jobCount);
      job := jobs[jobTail];
      jobTail := (jobTail + 1) % QUEUE_CAPACITY;
      jobCount := jobCount - 1;
      inflightCount := inflightCount + 1;
      inflight := inflight + {job};
    }

    /** The second critical section: the thread hands in the result of the job it holds. */
    method CompleteJob(job: Job, outcome: Outcome)
      requires Valid() && job in inflight
      modifies this`activeTranslationCount, this`inflightCount, this`inflight, this`resultHead, this`resultCount, results
      ensures Valid()
      ensures State() == Complete(old(State()), job, outcome)
    {
      CompleteInv(State(), job, outcome);
      CompleteLocked(job, ThreadResult(job, outcome), outcome);
    }

    method CompleteLocked(job: Job, result: Result, ghost outcome: Outcome)
      requires Shaped() && job in inflight && result == ThreadResult(job, outcome)
      modifies this`activeTranslationCount, this`inflightCount, this`inflight, this`resultHead, this`resultCount, results
      ensures Shaped()
      ensures State() == Complete(old(State()), job, outcome)
    {
      hide Contents;
      if !job.skip && job.epoch == epoch && activeTranslationCount > 0 {
        activeTranslationCount := activeTranslationCount - 1;
      }
      if !stopping && result.epoch == epoch {
        PushResultLocked(job.ordinal, result);
      }
      inflightCount := inflightCount - 1;
      inflight := inflight - {job};
    }

    method TryPop() returns (r: Option<Result>)
      requires Valid()
      modifies this`resultHead, this`resultCount, this`nextResultOrdinal, results
      ensures Valid()
      ensures (State(), r) == Deliver(old(State()))
    {
      DeliverInv(State());
      if resultCount == 0 {
        return None;
      }
      var found, index, k := FindNextResultLocked();
      if !found {
        return None;
      }
      var result := results[index].result;
      RemoveResultLocked(index, k);
      return Some(BindResultText(result));
    }

    method TryDeliver() returns (r: Option<Result>)
      requires Valid()
      modifies this`resultHead, this`resultCount, this`nextResultOrdinal, results
      ensures Valid()
      ensures (State(), r) == Deliver(old(State()))
    {
      DeliverInv(State());
      var found, index, k := FindNextResultLocked();
      if !found {
        return None;
      }
      var result := results[index].result;
      RemoveResultLocked(index, k);
      if result.epoch != epoch {
        return None;
      }
      return Some(BindResultText(result));
    }

    method InvalidateEpoch()
      requires Valid()
      modifies this
      ensures Valid()
      ensures State() == Invalidate(old(State()))
    {
      InvalidateInv(State());
      InvalidateLocked();
    }

    method InvalidateLocked()
      requires Shaped()
      modifies this
      ensures Shaped()
      ensures State() == Invalidate(old(State()))
    {
      hide Contents;
      NoContents(jobs[..], 0);
      NoContents(results[..], 0);
      epoch := epoch + 1;
      nextSubmitOrdinal, nextResultOrdinal := 1, 1;
      jobHead, jobTail, jobCount := 0, 0, 0;
      resultHead, resultTail, resultCount := 0, 0, 0;
      activeTranslationCount := 0;
    }

    method DestroyAll()
      requires Valid()
      modifies this
      ensures Valid()
      ensures State() == Destroy(old(State()))
    {
      DestroyInv(State());
      DestroyLocked();
    }

    method DestroyLocked()
      requires Shaped()
      modifies this
      ensures Shaped()
      ensures State() == Destroy(old(State()))
    {
      hide Contents;
      NoContents(jobs[..], 0);
      NoContents(results[..], 0);
      stopping := true;
      jobHead, jobTail, jobCount := 0, 0, 0;
      activeTranslationCount := 0;
      resultHead, resultTail, resultCount := 0, 0, 0;
    }

    method IsPending() returns (pending: bool)
      requires Valid()
      ensures pending == HasPending(State())
    {
      pending := jobCount != 0 || inflightCount != 0 || resultCount != 0;
    }
  }

  lemma {:induction false} FindNextIs(results: seq<Completion>, ordinal: nat, k: nat)
    requires k < |results| && results[k].ordinal == ordinal
    requires forall i :: 0 <= i < k ==> results[i].ordinal != ordinal
    ensures FindNext(results, ordinal) == Some(k)
  {
  }
}
