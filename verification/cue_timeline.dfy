/** What the segment builder decides about a recognised phrase. */
module CueTimeline {
  // Functions on values, and what every run of pushes, pops and clears keeps true of the captions it emits. Sequences
  // are oldest first.

  import opened Captions
  import opened CueText
  import Utf8

  const TOLERANCE_US: int := 500_000
  const HISTORY_CAPACITY: nat := 16
  const MAX_TEXT: nat := 1024

  datatype Cue = Cue(id: nat, startUs: int, endUs: int, text: string)

  /** A committed phrase kept for deduplication. */
  datatype Past = Past(startUs: int, endUs: int, text: string)

  datatype Emission = Emission(text: string, startUs: int, endUs: int)

  datatype Builder = Builder(nextId: nat, pending: seq<Cue>, history: seq<Past>, coveredEnd: int)

  const Empty := Builder(1, [], [], -1)

  datatype Trimmed = NotApplicable | Dropped | Remainder(e: Emission)

  datatype Verdict = Reject | Emit(e: Emission) | Pass

  function Abs(x: int): int { if x < 0 then -x else x }

  predicate TimeMatches(startUs: int, endUs: int, cueStart: int, cueEnd: int)
  {
    Abs(startUs - cueStart) <= TOLERANCE_US || (endUs > cueStart && startUs < cueEnd)
  }

  predicate NearCue(startUs: int, endUs: int, cueStart: int, cueEnd: int)
  {
    || (endUs > cueStart && startUs < cueEnd)
    || cueEnd - TOLERANCE_US <= startUs <= cueEnd + TOLERANCE_US
  }

  /** The partial-overlap trim of a candidate against one earlier cue. */
  function TailTrim(text: string, startUs: int, endUs: int, cue: Past): Trimmed
  {
    var m := TailPrefix(cue.text, text);
    if !NearCue(startUs, endUs, cue.startUs, cue.endUs) || m == 0 then NotApplicable
    else if m == |text| || cue.endUs >= endUs then Dropped
    else if SkipSpace(text, m) >= |text| then Dropped
    else Remainder(Emission(text[SkipSpace(text, m)..], cue.endUs, endUs))
  }

  function AgainstCue(text: string, startUs: int, endUs: int, cue: Past, timeMatches: bool): Verdict
  {
    if timeMatches && Occurs(text, cue.text) then Reject
    else match TailTrim(text, startUs, endUs, cue)
      case Dropped => Reject
      case Remainder(e) => Emit(e)
      case NotApplicable => if timeMatches && Occurs(cue.text, text) then Reject else Pass
  }

  function AgainstPending(b: Builder, text: string, startUs: int, endUs: int): Verdict
  {
    if b.pending == [] then Pass
    else
      var last := b.pending[|b.pending| - 1];
      AgainstCue(text, startUs, endUs, Past(last.startUs, last.endUs, last.text),
                 TimeMatches(startUs, endUs, last.startUs, last.endUs))
  }

  /** The committed history, newest first; an entry that does not match in time is passed over. */
  function AgainstHistory(history: seq<Past>, text: string, startUs: int, endUs: int): Verdict
  {
    if history == [] then Pass
    else
      var n := |history| - 1;
      var verdict := if TimeMatches(startUs, endUs, history[n].startUs, history[n].endUs)
                     then AgainstCue(text, startUs, endUs, history[n], true) else Pass;
      if verdict.Pass? then AgainstHistory(history[..n], text, startUs, endUs) else verdict
  }

  function Untrimmed(b: Builder, text: string, startUs: int, endUs: int): Option<Emission>
  {
    var emitStart := if b.coveredEnd > startUs then b.coveredEnd else startUs;
    if emitStart >= endUs then None else Some(Emission(text, emitStart, endUs))
  }

  predicate Usable(phantom: string -> bool, b: Builder, text: string, startUs: int, endUs: int)
  {
    && startUs >= 0 && startUs < endUs
    && 0 < |text| < MAX_TEXT
    && !phantom(text)
    && !(b.coveredEnd >= 0 && startUs < b.coveredEnd && endUs <= b.coveredEnd + TOLERANCE_US)
  }

  /** The caption a hypothesis leads to, if any. */
  function Decide(phantom: string -> bool, b: Builder, raw: string, startUs: int, endUs: int): Option<Emission>
  {
    var text := Trim(raw);
    if !Usable(phantom, b, text, startUs, endUs) then None
    else match AgainstPending(b, text, startUs, endUs)
      case Reject => None
      case Emit(e) => Some(e)
      case Pass =>
        match AgainstHistory(b.history, text, startUs, endUs)
        case Reject => None
        case Emit(e) => Some(e)
        case Pass => Untrimmed(b, text, startUs, endUs)
  }

  /** What the history keeps of a text: the longest valid UTF-8 prefix that fits its buffer. */
  function Kept(text: string): string
  {
    text[..Utf8.SafeLen(text, MAX_TEXT - 1)]
  }

  function LastEntries(history: seq<Past>): seq<Past>
  {
    if |history| > HISTORY_CAPACITY then history[|history| - HISTORY_CAPACITY..] else history
  }

  function Enqueue(b: Builder, e: Emission): Builder
  {
    b.(pending := b.pending + [Cue(b.nextId, e.startUs, e.endUs, e.text)], nextId := b.nextId + 1)
  }

  function Commit(b: Builder, e: Emission): Builder
  {
    b.(history := LastEntries(b.history + [Past(e.startUs, e.endUs, Kept(e.text))]),
       coveredEnd := if e.endUs > b.coveredEnd then e.endUs else b.coveredEnd)
  }

  function Push(phantom: string -> bool, b: Builder, raw: string, startUs: int, endUs: int): Builder
  {
    var e := Decide(phantom, b, raw, startUs, endUs);
    if e.None? then b else Commit(Enqueue(b, e.value), e.value)
  }

  function Pop(b: Builder): Builder
  {
    if b.pending == [] then b else b.(pending := b.pending[1..])
  }

  function Clear(b: Builder): Builder
  {
    Builder(b.nextId, [], [], -1)
  }

  // ------------------------------------------------------------------- runs

  datatype Event = Hypothesis(raw: string, startUs: int, endUs: int) | PopOldest | ClearAll

  /** The builder together with every cue it has emitted since the last clear. */
  datatype World = World(b: Builder, emitted: seq<Cue>)

  function Next(phantom: string -> bool, w: World, event: Event): World
  {
    match event
    case Hypothesis(raw, startUs, endUs) =>
      var e := Decide(phantom, w.b, raw, startUs, endUs);
      World(Push(phantom, w.b, raw, startUs, endUs),
            if e.None? then w.emitted
            else w.emitted + [Cue(w.b.nextId, e.value.startUs, e.value.endUs, e.value.text)])
    case PopOldest => World(Pop(w.b), w.emitted)
    case ClearAll => World(Clear(w.b), [])
  }

  function Run(phantom: string -> bool, w: World, events: seq<Event>): World
    decreases |events|
  {
    if events == [] then w else Run(phantom, Next(phantom, w, events[0]), events[1..])
  }

  // -------------------------------------------------------------- invariant

  /** End of the newest cue among the first n, or -1: the coverage frontier before cue n was emitted. */
  function Frontier(emitted: seq<Cue>, n: nat): int
    requires n <= |emitted|
  {
    if n == 0 then -1 else emitted[n - 1].endUs
  }

  /** A cue starts at or past the frontier, or exactly where an earlier cue ends. */
  ghost predicate StartsWell(emitted: seq<Cue>, i: nat)
    requires i < |emitted|
  {
    emitted[i].startUs >= Frontier(emitted, i) || exists j :: 0 <= j < i && emitted[i].startUs == emitted[j].endUs
  }

  ghost predicate OrderedCues(emitted: seq<Cue>)
  {
    && (forall i :: 0 <= i < |emitted| ==> 0 <= emitted[i].startUs < emitted[i].endUs)
    && (forall i, j :: 0 <= i < j < |emitted| ==> emitted[i].endUs < emitted[j].endUs)
    && (forall i :: 0 <= i < |emitted| ==> StartsWell(emitted, i))
  }

  function PastOf(cue: Cue): Past
  {
    Past(cue.startUs, cue.endUs, Kept(cue.text))
  }

  ghost predicate RecordsHistory(history: seq<Past>, emitted: seq<Cue>)
  {
    && |history| == (if |emitted| < HISTORY_CAPACITY then |emitted| else HISTORY_CAPACITY)
    && forall i :: 0 <= i < |history| ==> history[i] == PastOf(emitted[|emitted| - |history| + i])
  }

  ghost predicate Consecutive(emitted: seq<Cue>, nextId: nat)
  {
    |emitted| <= nextId && forall i :: 0 <= i < |emitted| ==> emitted[i].id == nextId - |emitted| + i
  }

  ghost predicate Inv(w: World)
  {
    && OrderedCues(w.emitted)
    && w.b.coveredEnd == Frontier(w.emitted, |w.emitted|)
    && |w.b.pending| <= |w.emitted| && w.b.pending == w.emitted[|w.emitted| - |w.b.pending|..]
    && Consecutive(w.emitted, w.b.nextId)
    && RecordsHistory(w.b.history, w.emitted)
  }

  /** What the deduplication lets through: a well-timed caption past the frontier that starts at it or at an old cue. */
  ghost predicate GoodEmission(emitted: seq<Cue>, e: Emission)
  {
    && 0 <= e.startUs < e.endUs
    && e.endUs > Frontier(emitted, |emitted|)
    && (e.startUs >= Frontier(emitted, |emitted|) || exists j :: 0 <= j < |emitted| && e.startUs == emitted[j].endUs)
  }

  lemma {:induction false} HistoryEmission(history: seq<Past>, text: string, startUs: int, endUs: int)
    ensures var v := AgainstHistory(history, text, startUs, endUs);
            v.Emit? ==> v.e.startUs < v.e.endUs == endUs &&
                        exists k :: 0 <= k < |history| && v.e.startUs == history[k].endUs
  {
    if history != [] {
      HistoryEmission(history[..|history| - 1], text, startUs, endUs);
    }
  }

  /** Where an emission's times come from. */
  ghost predicate Sourced(b: Builder, e: Emission)
  {
    && e.startUs < e.endUs && e.endUs > b.coveredEnd
    && (|| (e.startUs >= b.coveredEnd && e.startUs >= 0)
        || (b.pending != [] && e.startUs == b.pending[|b.pending| - 1].endUs)
        || exists k :: 0 <= k < |b.history| && e.startUs == b.history[k].endUs)
  }

  lemma DecideIsSourced(phantom: string -> bool, b: Builder, raw: string, startUs: int, endUs: int)
    requires b.coveredEnd >= -1 && Decide(phantom, b, raw, startUs, endUs).Some?
    ensures Sourced(b, Decide(phantom, b, raw, startUs, endUs).value)
  {
    HistoryEmission(b.history, Trim(raw), startUs, endUs);
  }

  lemma SourcedIsGood(w: World, e: Emission)
    requires Inv(w) && Sourced(w.b, e)
    ensures GoodEmission(w.emitted, e)
  {
  }

  lemma AppendGood(emitted: seq<Cue>, cue: Cue)
    requires OrderedCues(emitted) && GoodEmission(emitted, Emission(cue.text, cue.startUs, cue.endUs))
    ensures OrderedCues(emitted + [cue])
  {
    var longer := emitted + [cue];
    var n := |emitted|;
    forall i | 0 <= i < |longer|
      ensures StartsWell(longer, i)
    {
      assert Frontier(longer, i) == Frontier(emitted, i);
      if i < n {
        assert StartsWell(emitted, i);
        if emitted[i].startUs < Frontier(emitted, i) {
          var j :| 0 <= j < i && emitted[i].startUs == emitted[j].endUs;
          assert longer[i].startUs == longer[j].endUs;
        }
      } else if cue.startUs < Frontier(emitted, n) {
        var j :| 0 <= j < n && cue.startUs == emitted[j].endUs;
        assert longer[n].startUs == longer[j].endUs;
      }
    }
    forall i, j | 0 <= i < j < |longer|
      ensures longer[i].endUs < longer[j].endUs
    {
      if j == n {
        assert emitted[i].endUs <= Frontier(emitted, n);
      }
    }
  }

  lemma AppendRecords(b: Builder, emitted: seq<Cue>, e: Emission)
    requires RecordsHistory(b.history, emitted)
    ensures RecordsHistory(Commit(b, e).history, emitted + [Cue(b.nextId, e.startUs, e.endUs, e.text)])
  {
  }

  lemma EmitInv(w: World, e: Emission)
    requires Inv(w) && Sourced(w.b, e)
    ensures Inv(World(Commit(Enqueue(w.b, e), e), w.emitted + [Cue(w.b.nextId, e.startUs, e.endUs, e.text)]))
  {
    var cue := Cue(w.b.nextId, e.startUs, e.endUs, e.text);
    SourcedIsGood(w, e);
    AppendGood(w.emitted, cue);
    AppendRecords(w.b, w.emitted, e);
  }

  /** Every push, pop and clear keeps the invariant. */
  lemma NextInv(phantom: string -> bool, w: World, event: Event)
    requires Inv(w)
    ensures Inv(Next(phantom, w, event))
  {
    hide Decide, Sourced;
    match event
    case Hypothesis(raw, startUs, endUs) =>
      var e := Decide(phantom, w.b, raw, startUs, endUs);
      if e.Some? {
        DecideIsSourced(phantom, w.b, raw, startUs, endUs);
        EmitInv(w, e.value);
      }
    case PopOldest =>
    case ClearAll =>
  }

  lemma {:induction false} RunInv(phantom: string -> bool, w: World, events: seq<Event>)
    requires Inv(w)
    ensures Inv(Run(phantom, w, events))
    decreases |events|
  {
    if events != [] {
      NextInv(phantom, w, events[0]);
      RunInv(phantom, Next(phantom, w, events[0]), events[1..]);
    }
  }

  // ----------------------------------------------------------- main results

  /** Between clears, whatever is pushed and popped: the cues emitted, the frontier, the pending queue and the history. */
  lemma TimelineHolds(phantom: string -> bool, events: seq<Event>)
    ensures var w := Run(phantom, World(Empty, []), events);
            && OrderedCues(w.emitted)
            && w.b.coveredEnd == Frontier(w.emitted, |w.emitted|)
            && |w.b.pending| <= |w.emitted| && w.b.pending == w.emitted[|w.emitted| - |w.b.pending|..]
            && Consecutive(w.emitted, w.b.nextId)
            && RecordsHistory(w.b.history, w.emitted)
  {
    RunInv(phantom, World(Empty, []), events);
  }

  /** A trimmed caption and the cue it was trimmed against together read as the candidate did, each word once. */
  lemma RemainderShowsEachWordOnce(text: string, startUs: int, endUs: int, cue: Past)
    requires TailTrim(text, startUs, endUs, cue).Remainder?
    ensures var e := TailTrim(text, startUs, endUs, cue).e;
            var m := TailPrefix(cue.text, text);
            && e.startUs == cue.endUs < e.endUs == endUs
            && e.text != "" && !IsSpace(e.text[0])
            && cue.text[|cue.text| - m..] == text[..m]
            && |Words(text[..m])| >= 2
            && Words(cue.text) + Words(e.text) == Words(cue.text[..|cue.text| - m]) + Words(text)
  {
    TrimShowsEachWordOnce(cue.text, text);
  }

  /** Nothing of the candidate repeats an earlier phrase: neither contains the other, and no tail of it comes again. */
  predicate Novel(text: string, startUs: int, endUs: int, cue: Past, timeMatches: bool)
  {
    && (timeMatches ==> !Occurs(text, cue.text) && !Occurs(cue.text, text))
    && (NearCue(startUs, endUs, cue.startUs, cue.endUs) ==> TailPrefix(cue.text, text) == 0)
  }

  lemma PassIffNovel(text: string, startUs: int, endUs: int, cue: Past, timeMatches: bool)
    ensures AgainstCue(text, startUs, endUs, cue, timeMatches).Pass? <==> Novel(text, startUs, endUs, cue, timeMatches)
    ensures var v := AgainstCue(text, startUs, endUs, cue, timeMatches); v.Emit? ==> |v.e.text| < |text|
  {
  }

  predicate MatchesInTime(startUs: int, endUs: int, cue: Past)
  {
    TimeMatches(startUs, endUs, cue.startUs, cue.endUs)
  }

  /** The candidate repeats nothing of the newest pending caption. */
  predicate NewToPending(b: Builder, text: string, startUs: int, endUs: int)
  {
    b.pending != [] ==>
      var last := b.pending[|b.pending| - 1];
      Novel(text, startUs, endUs, Past(last.startUs, last.endUs, last.text),
            TimeMatches(startUs, endUs, last.startUs, last.endUs))
  }

  lemma NewToPendingPasses(b: Builder, text: string, startUs: int, endUs: int)
    ensures AgainstPending(b, text, startUs, endUs).Pass? <==> NewToPending(b, text, startUs, endUs)
  {
    if b.pending != [] {
      var last := b.pending[|b.pending| - 1];
      PassIffNovel(text, startUs, endUs, Past(last.startUs, last.endUs, last.text),
                   TimeMatches(startUs, endUs, last.startUs, last.endUs));
    }
  }

  lemma {:induction false} HistoryPassesIff(history: seq<Past>, text: string, startUs: int, endUs: int)
    ensures AgainstHistory(history, text, startUs, endUs).Pass? <==>
            forall i :: 0 <= i < |history| && MatchesInTime(startUs, endUs, history[i]) ==>
                          Novel(text, startUs, endUs, history[i], true)
    ensures var v := AgainstHistory(history, text, startUs, endUs); v.Emit? ==> |v.e.text| < |text|
  {
    hide AgainstCue, Novel, TimeMatches;
    if history != [] {
      var n := |history| - 1;
      PassIffNovel(text, startUs, endUs, history[n], true);
      HistoryPassesIff(history[..n], text, startUs, endUs);
    }
  }

  /**
    A hypothesis is shown whole exactly when it is usable, ends past the frontier, and repeats nothing: neither the
    newest pending caption nor, in whatever order they are compared, any remembered phrase that matches it in time.
   */
  lemma ShownWholeIff(phantom: string -> bool, b: Builder, raw: string, startUs: int, endUs: int)
    ensures var text, e := Trim(raw), Decide(phantom, b, raw, startUs, endUs);
            e.Some? && e.value.text == text <==>
            && Usable(phantom, b, text, startUs, endUs)
            && b.coveredEnd < endUs
            && NewToPending(b, text, startUs, endUs)
            && forall i :: 0 <= i < |b.history| && MatchesInTime(startUs, endUs, b.history[i]) ==>
                             Novel(text, startUs, endUs, b.history[i], true)
  {
    hide AgainstCue, Novel, TimeMatches;
    var text := Trim(raw);
    HistoryPassesIff(b.history, text, startUs, endUs);
    NewToPendingPasses(b, text, startUs, endUs);
    if b.pending != [] {
      var last := b.pending[|b.pending| - 1];
      PassIffNovel(text, startUs, endUs, Past(last.startUs, last.endUs, last.text),
                   TimeMatches(startUs, endUs, last.startUs, last.endUs));
    }
  }

  /**
    The candidate begins with the last words of an earlier phrase that does not contain it, and goes on after them, both
    in its text and in time.
   */
  predicate GoesOnFrom(text: string, startUs: int, endUs: int, cue: Past, timeMatches: bool)
  {
    && (timeMatches ==> !Occurs(text, cue.text))
    && NearCue(startUs, endUs, cue.startUs, cue.endUs)
    && 0 < TailPrefix(cue.text, text)
    && SkipSpace(text, TailPrefix(cue.text, text)) < |text|
    && cue.endUs < endUs
  }

  /** What is left of the candidate after the words it repeats. */
  function RemainderOf(text: string, cue: Past): string
  {
    text[SkipSpace(text, TailPrefix(cue.text, text))..]
  }

  lemma EmitsIffGoesOn(text: string, startUs: int, endUs: int, cue: Past, timeMatches: bool)
    ensures var v := AgainstCue(text, startUs, endUs, cue, timeMatches);
            && (v.Emit? <==> GoesOnFrom(text, startUs, endUs, cue, timeMatches))
            && (v.Emit? ==> v.e == Emission(RemainderOf(text, cue), cue.endUs, endUs))
  {
    SkipSpaceStays(text, TailPrefix(cue.text, text));
  }

  lemma SkipSpaceStays(s: string, i: nat)
    requires i <= |s|
    ensures i == |s| ==> SkipSpace(s, i) == |s|
  {
  }

  /** The candidate goes on from remembered phrase k and repeats none of the later ones that match it in time. */
  ghost predicate FirstToTrim(history: seq<Past>, k: nat, text: string, startUs: int, endUs: int)
  {
    && k < |history|
    && MatchesInTime(startUs, endUs, history[k])
    && GoesOnFrom(text, startUs, endUs, history[k], true)
    && forall i :: k < i < |history| && MatchesInTime(startUs, endUs, history[i]) ==>
         Novel(text, startUs, endUs, history[i], true)
  }

  lemma {:induction false} FirstToTrimEmits(history: seq<Past>, k: nat, text: string, startUs: int, endUs: int)
    requires FirstToTrim(history, k, text, startUs, endUs)
    ensures AgainstHistory(history, text, startUs, endUs) ==
            Emit(Emission(RemainderOf(text, history[k]), history[k].endUs, endUs))
  {
    hide AgainstCue, Novel, GoesOnFrom, RemainderOf;
    var n := |history| - 1;
    EmitsIffGoesOn(text, startUs, endUs, history[n], true);
    PassIffNovel(text, startUs, endUs, history[n], true);
    if k < n {
      FirstToTrimEmits(history[..n], k, text, startUs, endUs);
    }
  }

  lemma {:induction false} EmitsFromFirstToTrim(history: seq<Past>, text: string, startUs: int, endUs: int)
    returns (k: nat)
    requires AgainstHistory(history, text, startUs, endUs).Emit?
    ensures FirstToTrim(history, k, text, startUs, endUs)
    ensures AgainstHistory(history, text, startUs, endUs).e ==
            Emission(RemainderOf(text, history[k]), history[k].endUs, endUs)
  {
    hide AgainstCue, Novel, GoesOnFrom, TimeMatches, RemainderOf;
    k := |history| - 1;
    EmitsIffGoesOn(text, startUs, endUs, history[k], true);
    PassIffNovel(text, startUs, endUs, history[k], true);
    if !MatchesInTime(startUs, endUs, history[k]) || Novel(text, startUs, endUs, history[k], true) {
      var n := k;
      k := EmitsFromFirstToTrim(history[..n], text, startUs, endUs);
    }
  }

  /** The time of the caption intersects that of the newest one emitted. */
  predicate OverlapsNewest(emitted: seq<Cue>, e: Emission)
  {
    && emitted != []
    && emitted[|emitted| - 1].startUs < e.endUs
    && e.startUs < emitted[|emitted| - 1].endUs
  }

  /**
    Captions are not always disjoint. A hypothesis leads to a caption that overlaps the newest one exactly when it is
    usable, repeats nothing of the newest pending caption, and goes on from a remembered phrase that ended before the
    frontier, while repeating none of those remembered after it.
   */
  lemma OverlapsNewestIff(phantom: string -> bool, events: seq<Event>, raw: string, startUs: int, endUs: int)
    ensures var w, text := Run(phantom, World(Empty, []), events), Trim(raw);
            var b, e := w.b, Decide(phantom, w.b, raw, startUs, endUs);
            e.Some? && OverlapsNewest(w.emitted, e.value) <==>
            && Usable(phantom, b, text, startUs, endUs)
            && NewToPending(b, text, startUs, endUs)
            && exists k: nat :: FirstToTrim(b.history, k, text, startUs, endUs) && b.history[k].endUs < b.coveredEnd
  {
    hide Decide, Usable, NewToPending, FirstToTrim, OverlapsNewest;
    RunInv(phantom, World(Empty, []), events);
    var w := Run(phantom, World(Empty, []), events);
    if w.b.pending != [] {
      assert w.b.pending[|w.b.pending| - 1] == w.emitted[|w.emitted| - 1];
    }
    StartsBelowFrontierIff(phantom, w.b, raw, startUs, endUs);
    if Decide(phantom, w.b, raw, startUs, endUs).Some? {
      DecideIsSourced(phantom, w.b, raw, startUs, endUs);
      BelowFrontierOverlaps(w, Decide(phantom, w.b, raw, startUs, endUs).value);
    }
  }

  lemma BelowFrontierOverlaps(w: World, e: Emission)
    requires Inv(w) && Sourced(w.b, e)
    ensures OverlapsNewest(w.emitted, e) <==> e.startUs < w.b.coveredEnd
  {
    SourcedIsGood(w, e);
  }

  lemma StartsBelowFrontierIff(phantom: string -> bool, b: Builder, raw: string, startUs: int, endUs: int)
    requires b.pending != [] ==> b.pending[|b.pending| - 1].endUs == b.coveredEnd
    ensures var e, text := Decide(phantom, b, raw, startUs, endUs), Trim(raw);
            e.Some? && e.value.startUs < b.coveredEnd <==>
            && Usable(phantom, b, text, startUs, endUs)
            && NewToPending(b, text, startUs, endUs)
            && exists k: nat :: FirstToTrim(b.history, k, text, startUs, endUs) && b.history[k].endUs < b.coveredEnd
  {
    hide FirstToTrim, NewToPending, AgainstHistory;
    NewToPendingPasses(b, Trim(raw), startUs, endUs);
    TrimmedAgainstHistory(b.history, Trim(raw), startUs, endUs);
  }

  /** The history trims exactly against an entry that is first to trim, and what it leaves is told by that entry. */
  lemma TrimmedAgainstHistory(history: seq<Past>, text: string, startUs: int, endUs: int)
    ensures var v := AgainstHistory(history, text, startUs, endUs);
            v.Emit? <==> exists k: nat :: FirstToTrim(history, k, text, startUs, endUs)
    ensures forall k: nat :: FirstToTrim(history, k, text, startUs, endUs) ==>
              && k < |history|
              && AgainstHistory(history, text, startUs, endUs) ==
                 Emit(Emission(RemainderOf(text, history[k]), history[k].endUs, endUs))
  {
    hide FirstToTrim, AgainstHistory, RemainderOf;
    forall k: nat | FirstToTrim(history, k, text, startUs, endUs)
      ensures k < |history|
      ensures AgainstHistory(history, text, startUs, endUs) ==
              Emit(Emission(RemainderOf(text, history[k]), history[k].endUs, endUs))
    {
      FirstToTrimIsEntry(history, k, text, startUs, endUs);
      FirstToTrimEmits(history, k, text, startUs, endUs);
    }
    if AgainstHistory(history, text, startUs, endUs).Emit? {
      var k := EmitsFromFirstToTrim(history, text, startUs, endUs);
      assert FirstToTrim(history, k, text, startUs, endUs);
    }
  }

  /** The candidate goes on from the newest pending caption, and this is what is left of it. */
  predicate LeavesOfPending(b: Builder, text: string, startUs: int, endUs: int, rest: string)
  {
    && b.pending != []
    && var last := b.pending[|b.pending| - 1];
       var cue := Past(last.startUs, last.endUs, last.text);
       && GoesOnFrom(text, startUs, endUs, cue, MatchesInTime(startUs, endUs, cue))
       && rest == RemainderOf(text, cue)
  }

  /** The candidate goes on from remembered phrase k first, and this is what is left of it. */
  ghost predicate LeavesOfPhrase(b: Builder, k: nat, text: string, startUs: int, endUs: int, rest: string)
  {
    FirstToTrim(b.history, k, text, startUs, endUs) && k < |b.history| && rest == RemainderOf(text, b.history[k])
  }

  lemma PendingTrimsIff(b: Builder, text: string, startUs: int, endUs: int, rest: string)
    ensures var v := AgainstPending(b, text, startUs, endUs);
            v.Emit? && v.e.text == rest <==> LeavesOfPending(b, text, startUs, endUs, rest)
  {
    if b.pending != [] {
      var last := b.pending[|b.pending| - 1];
      var cue := Past(last.startUs, last.endUs, last.text);
      EmitsIffGoesOn(text, startUs, endUs, cue, MatchesInTime(startUs, endUs, cue));
    }
  }

  /**
    A phantom phrase is turned away, but what a trim leaves of a phrase is not looked at again. So a phantom text is
    queued exactly when a usable hypothesis leaves it: going on from the newest pending caption, or, if it repeats
    nothing of that, from the remembered phrase it is trimmed against.
   */
  lemma PhantomQueuedIff(phantom: string -> bool, b: Builder, raw: string, startUs: int, endUs: int)
    ensures var text, e := Trim(raw), Decide(phantom, b, raw, startUs, endUs);
            e.Some? && phantom(e.value.text) <==>
            && Usable(phantom, b, text, startUs, endUs)
            && (|| (exists rest :: LeavesOfPending(b, text, startUs, endUs, rest) && phantom(rest))
                || (&& NewToPending(b, text, startUs, endUs)
                    && exists k: nat, rest :: LeavesOfPhrase(b, k, text, startUs, endUs, rest) && phantom(rest)))
  {
    hide FirstToTrim, NewToPending, AgainstHistory, AgainstPending, RemainderOf, LeavesOfPending;
    var text := Trim(raw);
    NewToPendingPasses(b, text, startUs, endUs);
    TrimmedAgainstHistory(b.history, text, startUs, endUs);
    forall rest
      ensures var v := AgainstPending(b, text, startUs, endUs);
              v.Emit? && v.e.text == rest <==> LeavesOfPending(b, text, startUs, endUs, rest)
    {
      PendingTrimsIff(b, text, startUs, endUs, rest);
    }
    var v := AgainstHistory(b.history, text, startUs, endUs);
    if v.Emit? {
      var k: nat :| FirstToTrim(b.history, k, text, startUs, endUs);
      assert LeavesOfPhrase(b, k, text, startUs, endUs, v.e.text);
    }
  }

  lemma FirstToTrimIsEntry(history: seq<Past>, k: nat, text: string, startUs: int, endUs: int)
    requires FirstToTrim(history, k, text, startUs, endUs)
    ensures k < |history|
  {
  }

  lemma NoOverlap(cue: string, cand: string)
    requires cand != "" && cand[0] !in cue
    ensures TailPrefix(cue, cand) == 0
  {
  }

  lemma TrimClean(s: string)
    requires s != "" && !IsSpace(s[0]) && !IsSpace(s[|s| - 1])
    ensures Trim(s) == s
  {
  }

  lemma {:induction false} KeepsAscii(s: string, i: nat)
    requires i <= |s| < MAX_TEXT && forall k :: 0 <= k < |s| ==> 0 < s[k] as int < 0x80
    ensures Utf8.SafeFrom(s, i, MAX_TEXT - 1) == |s|
    decreases |s| - i
  {
    if i < |s| {
      KeepsAscii(s, i + 1);
    }
  }

  /** One thing the filter of phantom phrases turns away: a text without a letter or a digit. */
  predicate OnlyPunctuation(text: string)
  {
    forall c :: c in text ==> !('a' <= c <= 'z' || 'A' <= c <= 'Z' || '0' <= c <= '9') && c as int < 0x80
  }

  const FirstPast := Past(0, 1_000_000, "a b")
  const SecondPast := Past(1_000_000, 2_000_000, "x y")
  const FirstCue := Cue(1, 0, 1_000_000, "a b")
  const SecondCue := Cue(2, 1_000_000, 2_000_000, "x y")
  const ThirdCue := Cue(3, 1_000_000, 3_000_000, "...")
  const AfterFirst := World(Builder(2, [FirstCue], [FirstPast], 1_000_000), [FirstCue])
  const AfterSecond := World(Builder(3, [FirstCue, SecondCue], [FirstPast, SecondPast], 2_000_000),
                             [FirstCue, SecondCue])

  lemma NotOnlyPunctuation(text: string)
    requires text != "" && 'a' <= text[0] <= 'z'
    ensures !OnlyPunctuation(text)
  {
    assert text[0] in text;
  }

  lemma FirstStep()
    ensures Next(OnlyPunctuation, World(Empty, []), Hypothesis("a b", 0, 1_000_000)) == AfterFirst
  {
    hide OnlyPunctuation;
    TrimClean("a b");
    KeepsAscii("a b", 0);
    assert Kept("a b") == "a b";
    NotOnlyPunctuation("a b");
    assert Decide(OnlyPunctuation, Empty, "a b", 0, 1_000_000) == Some(Emission("a b", 0, 1_000_000));
  }

  lemma FirstPasses()
    ensures AgainstCue("x y", 1_000_000, 2_000_000, FirstPast, false) == Pass
  {
    NoOverlap("a b", "x y");
  }

  lemma SecondDecided()
    ensures Decide(OnlyPunctuation, AfterFirst.b, "x y", 1_000_000, 2_000_000) ==
            Some(Emission("x y", 1_000_000, 2_000_000))
  {
    hide OnlyPunctuation, AgainstCue;
    TrimClean("x y");
    NotOnlyPunctuation("x y");
    FirstPasses();
    assert [FirstPast][..0] == [];
    assert AgainstHistory([FirstPast], "x y", 1_000_000, 2_000_000) == Pass;
  }

  lemma SecondStep()
    ensures Next(OnlyPunctuation, AfterFirst, Hypothesis("x y", 1_000_000, 2_000_000)) == AfterSecond
  {
    hide Decide, AgainstCue;
    SecondDecided();
    KeepsAscii("x y", 0);
    assert Kept("x y") == "x y";
  }

  lemma NewestPasses()
    ensures AgainstCue("a b ...", 500_000, 3_000_000, SecondPast, true) == Pass
  {
    NoOverlap("x y", "a b ...");
    forall i: nat | i <= 7
      ensures !OccursAt("x y", "a b ...", i)
    {
      if i <= 4 {
        assert "a b ..."[i..i + 3][0] != 'x';
      }
    }
  }

  lemma OldestTrims()
    ensures AgainstCue("a b ...", 500_000, 3_000_000, FirstPast, true) == Emit(Emission("...", 1_000_000, 3_000_000))
  {
    var text := "a b ...";
    assert "a b"[0..] == text[..3];
    assert CountWords(text, 1) == 1 && CountWords(text, 2) == 1 && CountWords(text, 3) == 2;
    assert Overlaps("a b", text, 3);
    assert SkipSpace(text, 4) == 4 && SkipSpace(text, 3) == 4 && text[4..] == "...";
  }

  lemma ThirdStep()
    ensures Decide(OnlyPunctuation, AfterSecond.b, "a b ...", 500_000, 3_000_000) ==
            Some(Emission("...", 1_000_000, 3_000_000))
  {
    hide AgainstCue, OnlyPunctuation;
    TrimClean("a b ...");
    NewestPasses();
    OldestTrims();
    NotOnlyPunctuation("a b ...");
    var history := [FirstPast, SecondPast];
    assert history[..1] == [FirstPast] && history[..1][..0] == [];
    assert AgainstHistory([FirstPast], "a b ...", 500_000, 3_000_000) == Emit(Emission("...", 1_000_000, 3_000_000));
    assert AgainstHistory(history, "a b ...", 500_000, 3_000_000) == Emit(Emission("...", 1_000_000, 3_000_000));
  }

  /**
    A run in which the third caption (1 s to 3 s) overlaps the second (1 s to 2 s), trimmed against the first. Its text is
    one the filter of phantom phrases would have turned away.
   */
  lemma CaptionsCanOverlap()
    ensures Run(OnlyPunctuation, World(Empty, []),
                [Hypothesis("a b", 0, 1_000_000), Hypothesis("x y", 1_000_000, 2_000_000),
                 Hypothesis("a b ...", 500_000, 3_000_000)]).emitted == [FirstCue, SecondCue, ThirdCue]
    ensures OnlyPunctuation(ThirdCue.text)
  {
    hide Decide, OnlyPunctuation, Kept, Frontier, TimeMatches;
    var e1, e2, e3 := Hypothesis("a b", 0, 1_000_000), Hypothesis("x y", 1_000_000, 2_000_000),
                      Hypothesis("a b ...", 500_000, 3_000_000);
    FirstStep();
    SecondStep();
    ThirdStep();
    RunOfThree(OnlyPunctuation, World(Empty, []), e1, e2, e3);
    ThirdIsPunctuation();
  }

  lemma ThirdIsPunctuation()
    ensures OnlyPunctuation(ThirdCue.text)
  {
  }

  lemma RunOfThree(phantom: string -> bool, w: World, e1: Event, e2: Event, e3: Event)
    ensures Run(phantom, w, [e1, e2, e3]) == Next(phantom, Next(phantom, Next(phantom, w, e1), e2), e3)
  {
    var w2 := Next(phantom, Next(phantom, w, e1), e2);
    assert [e1, e2, e3][1..] == [e2, e3] && [e2, e3][1..] == [e3] && [e3][1..] == [];
    assert Run(phantom, w2, [e3]) == Run(phantom, Next(phantom, w2, e3), []);
    assert Run(phantom, Next(phantom, w, e1), [e2, e3]) == Run(phantom, w2, [e3]);
  }

  /** The history keeps the longest valid prefix of a text that fits: all of it exactly when the validator accepts it. */
  lemma HistoryKeepsValidTexts(text: string)
    requires |text| < MAX_TEXT && '\0' !in text
    ensures Kept(text) <= text && Utf8.IsValid(Kept(text))
    ensures forall k :: |Kept(text)| < k <= |text| ==> !Utf8.IsValid(text[..k])
    ensures Kept(text) == text <==> Utf8.IsValid(text)
  {
    Utf8.SafeLenIsLongestValidPrefix(text, MAX_TEXT - 1);
    Utf8.ScannersAgree(text, MAX_TEXT - 1);
  }

  /** A text whose last byte is a stray continuation byte loses it. */
  lemma HistoryShortensBrokenText()
    ensures var text := ['a', 0x80 as char]; Kept(text) == "a" && !Utf8.IsValid(text)
  {
    var text := ['a', 0x80 as char];
    assert Utf8.SequenceLength(text, 0) == 1 && Utf8.SequenceLength(text, 1) == 0;
    assert Utf8.SafeFrom(text, 1, MAX_TEXT - 1) == 1;
    assert !Utf8.ValidFrom(text, 1);
  }
}
