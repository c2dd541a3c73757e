/** Which answer of the network reaches which caption. */
module PipelineAnswers {
  // Beside the history of pipeline_runs.dfy a book is kept of every epoch: how each cue was accepted, which cues were
  // pushed out of the full queue, and what the network answered for the others. Every interleaving delivers each cue
  // with the answer given for it, and with no other.

  import opened Captions
  import opened Pipelines
  import opened PipelineRuns

  /** A cue as it was handed in; `inBudget` says that fewer than four network translations were open then. */
  datatype Asked = Asked(cue: CaptionSegment, sourceLang: string, targetLang: string, inBudget: bool)

  datatype Book = Book(asked: seq<Asked>, evicted: set<nat>, answers: map<nat, Outcome>)

  const EmptyBook := Book([], {}, map[])

  datatype Ledger = Ledger(w: World, book: Book, past: seq<Book>)

  const NewLedger := Ledger(Start, EmptyBook, [])

  /** The translations that are queued for the network or in the threads' hands. */
  function OpenTranslations(p: Pipeline): nat
  {
    ActiveJobs(p.jobs) + |ActiveSet(p.inflight, p.epoch)|
  }

  function NextBook(w: World, book: Book, e: Event): Book
  {
    match e
    case SubmitCue(segment, source, target) =>
      if !Accepts(w.p, segment) then book
      else
        book.(asked := book.asked + [Asked(segment, source, target, OpenTranslations(w.p) < 4)],
              evicted := if |w.p.jobs| >= 32 then book.evicted + {w.p.jobs[0].ordinal} else book.evicted)
    case CompleteJob(job, outcome) =>
      if job in w.p.inflight && !w.p.stopping && job.epoch == w.p.epoch && !job.skip
      then book.(answers := book.answers[job.ordinal := outcome]) else book
    case InvalidateEpoch => EmptyBook
    case _ => book
  }

  function NextLedger(l: Ledger, e: Event): Ledger
  {
    Ledger(PipelineRuns.Next(l.w, e), NextBook(l.w, l.book, e), if e.InvalidateEpoch? then l.past + [l.book] else l.past)
  }

  function RunLedger(l: Ledger, events: seq<Event>): Ledger
    decreases |events|
  {
    if events == [] then l else RunLedger(NextLedger(l, events[0]), events[1..])
  }

  /** The language asked for, cut to the fifteen bytes of its field, or the default if none was given. */
  predicate IsLanguage(lang: string, given: string, fallback: string)
  {
    if given == "" then lang == fallback else lang <= given && (|lang| == 15 || (lang == given && |given| < 15))
  }

  /** The job asks for the cue accepted under its ordinal, in its languages, unless the budget was used up. */
  predicate AsksFor(job: Job, book: Book)
  {
    && 1 <= job.ordinal <= |book.asked|
    && var a := book.asked[job.ordinal - 1];
       && SameCue(job.segment, a.cue) && job.segment.latencyUs == a.cue.latencyUs
       && IsLanguage(job.sourceLang, a.sourceLang, "auto") && IsLanguage(job.targetLang, a.targetLang, "en")
       && job.skip == !a.inBudget
  }

  predicate Unsettled(o: nat, book: Book)
  {
    o !in book.evicted && o !in book.answers
  }

  /**
    The result under ordinal o: the network was asked exactly if the cue was in budget and not pushed out of the queue,
    and what it answered is what is shown.
   */
  predicate Answered(r: Result, book: Book, o: nat)
  {
    && 1 <= o <= |book.asked|
    && var a := book.asked[o - 1];
       && SameCue(r.segment, a.cue)
       && (o in book.answers <==> a.inBudget && o !in book.evicted)
       && (if o in book.answers then Shows(r, book.answers[o])
           else ShowsSource(r, if o in book.evicted then a.cue.latencyUs else 0))
  }

  ghost predicate DeliveredAnswered(log: EpochLog, book: Book)
  {
    forall i :: 0 <= i < |log.delivered| ==> Answered(log.delivered[i], book, i + 1)
  }

  ghost predicate Open(p: Pipeline, book: Book)
  {
    && |book.asked| == p.nextSubmit - 1
    && (forall i :: 0 <= i < |p.jobs| ==> AsksFor(p.jobs[i], book) && Unsettled(p.jobs[i].ordinal, book))
    && (forall job :: job in p.inflight && job.epoch == p.epoch ==> AsksFor(job, book) && Unsettled(job.ordinal, book))
    && (forall k :: 0 <= k < |p.results| ==> Answered(p.results[k].result, book, p.results[k].ordinal))
    && (forall o :: o in book.answers || o in book.evicted ==> 1 <= o < QueueStart(p))
  }

  ghost predicate BookInv(w: World, book: Book)
  {
    && DeliveredAnswered(w.log, book)
    && (!w.p.stopping ==> Open(w.p, book))
  }

  ghost predicate LedgerInv(l: Ledger)
  {
    && WorldInv(l.w) && BookInv(l.w, l.book)
    && |l.past| == |l.w.past|
    && forall i :: 0 <= i < |l.past| ==> DeliveredAnswered(l.w.past[i], l.past[i])
  }

  lemma LanguageIs(given: string, fallback: string)
    requires |fallback| <= 15
    ensures IsLanguage(Language(given, fallback), given, fallback)
  {
  }

  /** Pushing the oldest job out of the full queue settles its ordinal, and no other. */
  lemma EvictBook(w: World, book: Book)
    requires WorldInv(w) && BookInv(w, book) && Live(w.p) && |w.p.jobs| >= QUEUE_CAPACITY
    requires |w.p.jobs| + |w.p.inflight| + |w.p.results| < RESULT_CAPACITY
    ensures var after := book.(evicted := book.evicted + {w.p.jobs[0].ordinal});
            Open(EvictOldest(w.p), after) && DeliveredAnswered(w.log, after)
  {
    hide Faithful, DeliveredPrefix, Sealed, Answered, AsksFor, EvictedResult, DistinctKeys, HeldOnce;
    var oldest := w.p.jobs[0];
    var after := book.(evicted := book.evicted + {oldest.ordinal});
    assert oldest.ordinal == QueueStart(w.p);
    OldestAnswered(oldest, book);
    forall r: Result, o: nat | Answered(r, book, o) && o != oldest.ordinal
      ensures Answered(r, after, o)
    {
      OthersAnswered(book, oldest.ordinal, r, o);
    }
    forall job: Job | AsksFor(job, book)
      ensures AsksFor(job, after)
    {
      OthersAsk(book, oldest.ordinal, job);
    }
    DeliveredBefore(w);
  }

  lemma OldestAnswered(oldest: Job, book: Book)
    requires AsksFor(oldest, book) && Unsettled(oldest.ordinal, book)
    ensures Answered(EvictedResult(oldest), book.(evicted := book.evicted + {oldest.ordinal}), oldest.ordinal)
  {
    ThreadResultCompletes(oldest, Outcome(false, "", 0, 0, Local), book.asked[oldest.ordinal - 1].cue);
  }

  lemma OthersAnswered(book: Book, settled: nat, r: Result, o: nat)
    requires Answered(r, book, o) && o != settled
    ensures Answered(r, book.(evicted := book.evicted + {settled}), o)
  {
  }

  lemma OthersAsk(book: Book, settled: nat, job: Job)
    requires AsksFor(job, book)
    ensures AsksFor(job, book.(evicted := book.evicted + {settled}))
  {
  }

  lemma AppendBook(q: Pipeline, log: EpochLog, book: Book, job: Job, a: Asked)
    requires Open(q, book) && DeliveredAnswered(log, book)
    requires job.epoch == q.epoch && job.ordinal == q.nextSubmit && AsksFor(job, book.(asked := book.asked + [a]))
    ensures var after := book.(asked := book.asked + [a]);
            && Open(q.(jobs := q.jobs + [job], nextSubmit := q.nextSubmit + 1,
                       active := if job.skip then q.active else q.active + 1), after)
            && DeliveredAnswered(log, after)
  {
    hide Answered, AsksFor;
    forall r: Result, o: nat | Answered(r, book, o)
      ensures Answered(r, book.(asked := book.asked + [a]), o)
    {
      MoreAnswered(book, a, r, o);
    }
    forall earlier: Job | AsksFor(earlier, book)
      ensures AsksFor(earlier, book.(asked := book.asked + [a]))
    {
      MoreAsked(book, a, earlier);
    }
  }

  lemma MoreAnswered(book: Book, a: Asked, r: Result, o: nat)
    requires Answered(r, book, o)
    ensures Answered(r, book.(asked := book.asked + [a]), o)
  {
  }

  lemma MoreAsked(book: Book, a: Asked, job: Job)
    requires AsksFor(job, book)
    ensures AsksFor(job, book.(asked := book.asked + [a]))
  {
  }

  lemma SubmitBook(w: World, book: Book, segment: CaptionSegment, source: string, target: string)
    requires WorldInv(w) && BookInv(w, book)
    ensures var e := SubmitCue(segment, source, target); BookInv(PipelineRuns.Next(w, e), NextBook(w, book, e))
  {
    hide Faithful, DeliveredPrefix, Answered, Sealed, JobsInOrder, DistinctKeys, InRange, HeldOnce, Bounded;
    hide EvictOldest, Open, AsksFor, NewJob, OpenTranslations;
    if Accepts(w.p, segment) {
      OpenCounts(w.p, book);
      var p, skip := w.p, w.p.active >= ACTIVE_BUDGET;
      var q, job := EvictOldest(p), NewJob(p, segment, source, target, skip);
      var a := Asked(segment, source, target, OpenTranslations(p) < 4);
      var middle := NextBook(w, book, SubmitCue(segment, source, target)).(asked := book.asked);
      EvictInv(p);
      if |p.jobs| >= QUEUE_CAPACITY {
        EvictBook(w, book);
      } else {
        NothingEvicted(p);
        assert middle == book;
      }
      NewJobAsks(p, middle, segment, source, target);
      AppendBook(q, w.log, middle, job, a);
    }
  }

  lemma NothingEvicted(p: Pipeline)
    requires |p.jobs| < QUEUE_CAPACITY
    ensures EvictOldest(p) == p
  {
  }

  lemma OpenCounts(p: Pipeline, book: Book)
    requires Open(p, book)
    ensures |book.asked| == p.nextSubmit - 1
  {
  }

  lemma NewJobAsks(p: Pipeline, book: Book, segment: CaptionSegment, source: string, target: string)
    requires Live(p) && |book.asked| == p.nextSubmit - 1
    ensures var a := Asked(segment, source, target, OpenTranslations(p) < 4);
            var job := NewJob(p, segment, source, target, p.active >= ACTIVE_BUDGET);
            && AsksFor(job, book.(asked := book.asked + [a]))
            && job.epoch == p.epoch && job.ordinal == p.nextSubmit && job.skip == (p.active >= ACTIVE_BUDGET)
  {
    LanguageIs(source, "auto");
    LanguageIs(target, "en");
  }

  lemma CompleteBook(w: World, book: Book, job: Job, outcome: Outcome)
    requires WorldInv(w) && BookInv(w, book) && job in w.p.inflight
    ensures var e := CompleteJob(job, outcome); BookInv(PipelineRuns.Next(w, e), NextBook(w, book, e))
  {
    hide Faithful, DeliveredPrefix, Sealed, ThreadResult, Answered, AsksFor, Unsettled;
    hide JobsInOrder, DistinctKeys, InRange, HeldOnce, Bounded;
    if !w.p.stopping && job.epoch == w.p.epoch {
      SettleOne(w, book, job, outcome);
    }
  }

  /** The result of a thread settles its ordinal, and no other. */
  lemma SettleOne(w: World, book: Book, job: Job, outcome: Outcome)
    requires WorldInv(w) && BookInv(w, book) && job in w.p.inflight && !w.p.stopping && job.epoch == w.p.epoch
    ensures var after := NextBook(w, book, CompleteJob(job, outcome));
            && |w.p.results| < RESULT_CAPACITY
            && Answered(ThreadResult(job, outcome), after, job.ordinal)
            && (forall k :: 0 <= k < |w.p.results| ==> Answered(w.p.results[k].result, after, w.p.results[k].ordinal))
            && DeliveredAnswered(w.log, after) && after.asked == book.asked
            && (forall i :: 0 <= i < |w.p.jobs| ==> AsksFor(w.p.jobs[i], after) && Unsettled(w.p.jobs[i].ordinal, after))
            && (forall other :: other in w.p.inflight - {job} && other.epoch == w.p.epoch ==>
                  AsksFor(other, after) && Unsettled(other.ordinal, after))
            && (forall o :: o in after.answers || o in after.evicted ==> 1 <= o < QueueStart(w.p))
  {
    hide DeliveredPrefix, Sealed, ActiveJobs, ActiveSet, ThreadResult, Faithful;
    var p, after := w.p, NextBook(w, book, CompleteJob(job, outcome));
    assert AsksFor(job, book);
    ThreadResultCompletes(job, outcome, book.asked[job.ordinal - 1].cue);
    ResultIsOf(job, outcome);
    assert InFlight(p.inflight, p.epoch, job.ordinal);
    forall k | 0 <= k < |p.results|
      ensures p.results[k].ordinal != job.ordinal
    {
      assert InResults(p.results, p.results[k].ordinal);
    }
    DeliveredBefore(w);
  }

  lemma ResultIsOf(job: Job, outcome: Outcome)
    ensures SameCue(ThreadResult(job, outcome).segment, job.segment)
  {
  }

  lemma DeliveredBefore(w: World)
    requires WorldInv(w) && !w.p.stopping
    ensures |w.log.delivered| == w.p.nextResult - 1
    ensures HasResult(w.p) ==> Deliver(w.p).1 == Some(w.p.results[FindNext(w.p.results, w.p.nextResult).value].result)
  {
    if HasResult(w.p) {
      NextIsFaithful(w.p, w.log, FindNext(w.p.results, w.p.nextResult).value);
    }
  }

  lemma DeliverBook(w: World, book: Book)
    requires WorldInv(w) && BookInv(w, book)
    ensures BookInv(PipelineRuns.Next(w, DeliverNext), book)
  {
    hide Faithful, DeliveredPrefix, Sealed, Answered;
    if !w.p.stopping && HasResult(w.p) {
      DeliveredBefore(w);
      var k, q := FindNext(w.p.results, w.p.nextResult).value, Deliver(w.p).0;
      forall i | 0 <= i < |q.results|
        ensures q.results[i] in w.p.results
      {
        assert q.results[i] == if i < k then w.p.results[i] else w.p.results[i + 1];
      }
      assert Answered(w.p.results[k].result, book, w.p.nextResult);
    }
  }

  lemma TakeBook(w: World, book: Book)
    requires WorldInv(w) && BookInv(w, book)
    ensures BookInv(PipelineRuns.Next(w, TakeJob), book)
  {
    hide Faithful, DeliveredPrefix, Sealed, Answered, AsksFor, Unsettled, DistinctKeys, InRange, HeldOnce, Bounded;
  }

  lemma NextLedgerInv(l: Ledger, e: Event)
    requires LedgerInv(l)
    ensures LedgerInv(NextLedger(l, e))
  {
    hide WorldInv, BookInv, DeliveredAnswered, PipelineRuns.Next, NextBook;
    PipelineRuns.NextInv(l.w, e);
    NextBookInv(l.w, l.book, e);
    PastIs(l.w, l.book, e);
  }

  lemma PastIs(w: World, book: Book, e: Event)
    requires BookInv(w, book)
    ensures PipelineRuns.Next(w, e).past == if e.InvalidateEpoch? then w.past + [w.log] else w.past
    ensures DeliveredAnswered(w.log, book)
  {
  }

  lemma NextBookInv(w: World, book: Book, e: Event)
    requires WorldInv(w) && BookInv(w, book)
    ensures BookInv(PipelineRuns.Next(w, e), NextBook(w, book, e))
  {
    hide Answered;
    match e
    case SubmitCue(segment, source, target) => SubmitBook(w, book, segment, source, target);
    case TakeJob => TakeBook(w, book);
    case CompleteJob(job, outcome) =>
      if job in w.p.inflight {
        CompleteBook(w, book, job, outcome);
      }
    case DeliverNext => DeliverBook(w, book);
    case InvalidateEpoch =>
    case DestroyAll =>
  }

  lemma {:induction false} RunLedgerInv(l: Ledger, events: seq<Event>)
    requires LedgerInv(l)
    ensures LedgerInv(RunLedger(l, events)) && RunLedger(l, events).w == PipelineRuns.Run(l.w, events)
    decreases |events|
  {
    hide LedgerInv, PipelineRuns.Next;
    if events != [] {
      NextLedgerInv(l, events[0]);
      RunLedgerInv(NextLedger(l, events[0]), events[1..]);
    }
  }

  // ----------------------------------------------------------- main results

  /**
    In every interleaving, each result delivered in the current epoch or an earlier one belongs to the cue accepted under
    its ordinal, and shows what the network answered for that ordinal; the network was asked for it exactly when the cue
    was accepted within the budget and not pushed out of the queue, and otherwise the source text is shown.
   */
  lemma AnswersReachTheirCue(events: seq<Event>)
    ensures var l := RunLedger(NewLedger, events);
            && l.w == PipelineRuns.Run(Start, events) && |l.past| == |l.w.past|
            && DeliveredAnswered(l.w.log, l.book)
            && forall i :: 0 <= i < |l.past| ==> DeliveredAnswered(l.w.past[i], l.past[i])
  {
    hide LedgerInv, PipelineRuns.Run, DeliveredAnswered;
    NewLedgerInv();
    RunLedgerInv(NewLedger, events);
    LedgerSays(RunLedger(NewLedger, events));
  }

  lemma LedgerSays(l: Ledger)
    requires LedgerInv(l)
    ensures |l.past| == |l.w.past| && DeliveredAnswered(l.w.log, l.book)
    ensures forall i :: 0 <= i < |l.past| ==> DeliveredAnswered(l.w.past[i], l.past[i])
  {
  }

  /** Whatever job a thread may be working on, it asks for the text of the cue accepted under its ordinal. */
  lemma ThreadsAskForTheCue(events: seq<Event>, job: Job)
    requires var p := PipelineRuns.Run(Start, events).p; !p.stopping && job in p.inflight && job.epoch == p.epoch
    ensures AsksFor(job, RunLedger(NewLedger, events).book)
  {
    hide LedgerInv, PipelineRuns.Run, AsksFor;
    NewLedgerInv();
    RunLedgerInv(NewLedger, events);
    ThreadAsks(RunLedger(NewLedger, events), job);
  }

  lemma NewLedgerInv()
    ensures LedgerInv(NewLedger)
  {
  }

  lemma ThreadAsks(l: Ledger, job: Job)
    requires LedgerInv(l) && !l.w.p.stopping && job in l.w.p.inflight && job.epoch == l.w.p.epoch
    ensures AsksFor(job, l.book)
  {
  }
}
