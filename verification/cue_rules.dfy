/**
  The deduplication rules of the segment builder in plain terms: times and lengths as numbers, texts as concatenations,
  overlaps as lists of words. Each rule is proved to be what the decision function does, in both directions.
 */
module CueRules {
  import opened Captions
  import opened CueText
  import opened CueTimeline

  predicate White(c: char) { c in " \t\n\r" }

  predicate AllWhite(s: string) { forall c :: c in s ==> White(c) }

  /** The text has no white space at its ends. */
  predicate Bare(text: string)
  {
    text == "" || (!White(text[0]) && !White(text[|text| - 1]))
  }

  ghost predicate Contains(text: string, part: string)
  {
    exists before, after :: text == before + part + after
  }

  /** The last words of the text. */
  predicate EndsIn(text: string, words: string)
  {
    var n := |text| - |words|;
    n >= 0 && text[n..] == words && (n > 0 ==> White(text[n - 1]))
  }

  /** The first words of the text. */
  predicate BeginsWith(text: string, words: string)
  {
    |words| <= |text| && text[..|words|] == words && (|words| < |text| ==> White(text[|words|]))
  }

  /** The texts overlap in `words`: whole words, at least two, with which the cue ends and the candidate begins. */
  ghost predicate SharesWords(cue: string, cand: string, words: string)
  {
    && EndsIn(cue, words) && BeginsWith(cand, words)
    && words != "" && !White(words[|words| - 1]) && |Words(words)| >= 2
  }

  ghost predicate LongestShared(cue: string, cand: string, words: string)
  {
    SharesWords(cue, cand, words) && forall longer :: SharesWords(cue, cand, longer) ==> |longer| <= |words|
  }

  /** The hypothesis starts within half a second of the cue's start, or their times intersect. */
  predicate InTime(startUs: int, endUs: int, cue: Past)
  {
    cue.startUs - 500_000 <= startUs <= cue.startUs + 500_000 || (startUs < cue.endUs && cue.startUs < endUs)
  }

  /** Their times intersect, or the hypothesis starts within half a second of the cue's end. */
  predicate Near(startUs: int, endUs: int, cue: Past)
  {
    (startUs < cue.endUs && cue.startUs < endUs) || cue.endUs - 500_000 <= startUs <= cue.endUs + 500_000
  }

  /** The audio was captioned before: the hypothesis starts inside it and ends at most half a second behind it. */
  predicate Covered(b: Builder, startUs: int, endUs: int)
  {
    0 <= b.coveredEnd && startUs < b.coveredEnd && endUs <= b.coveredEnd + 500_000
  }

  /** The hypothesis and the cue share nothing: neither contains the other, and no words of its end come again. */
  ghost predicate SharesNothing(text: string, startUs: int, endUs: int, cue: Past, inTime: bool)
  {
    && (inTime ==> !Contains(cue.text, text) && !Contains(text, cue.text))
    && (Near(startUs, endUs, cue) ==> forall words :: !SharesWords(cue.text, text, words))
  }

  /** The hypothesis goes on behind the words it shares with the cue: `rest` is what is new, until later than the cue. */
  ghost predicate GoesOnWith(text: string, startUs: int, endUs: int, cue: Past, inTime: bool, rest: string)
  {
    && (inTime ==> !Contains(cue.text, text)) && Near(startUs, endUs, cue) && cue.endUs < endUs
    && exists words, space ::
         && LongestShared(cue.text, text, words) && AllWhite(space)
         && text == words + space + rest && rest != "" && !White(rest[0])
  }

  // ----------------------------------------------------------------- texts

  lemma WhiteIs(c: char)
    ensures IsSpace(c) <==> White(c)
  {
  }

  /** Trimming leaves the bare text between the white space. */
  lemma TrimIs(before: string, text: string, after: string)
    requires AllWhite(before) && AllWhite(after) && Bare(text) && (text == "" ==> after == "")
    ensures Trim(before + text + after) == text
  {
    var s := before + text + after;
    SkipIs(s, 0, |before|);
    assert s[|before|..] == text + after;
    DropIs(text, after);
  }

  lemma {:induction false} SkipIs(s: string, i: nat, n: nat)
    requires i <= n <= |s| && (forall k :: i <= k < n ==> White(s[k])) && (n < |s| ==> !White(s[n]))
    ensures SkipSpace(s, i) == n
    decreases n - i
  {
    if i < n {
      SkipIs(s, i + 1, n);
    }
  }

  lemma {:induction false} DropIs(text: string, after: string)
    requires AllWhite(after) && (text == "" || !White(text[|text| - 1]))
    ensures DropTrailing(text + after) == text
    decreases |after|
  {
    if after == "" {
      assert text + after == text;
    } else {
      var n := |after| - 1;
      assert (text + after)[..|text + after| - 1] == text + after[..n];
      assert after[n] in after;
      DropIs(text, after[..n]);
    }
  }

  lemma OccursIs(part: string, text: string)
    ensures Occurs(part, text) <==> Contains(text, part)
  {
    if Occurs(part, text) {
      var i: nat :| i <= |text| && OccursAt(part, text, i);
      assert text == text[..i] + part + text[i + |part|..];
    }
    if Contains(text, part) {
      var before, after :| text == before + part + after;
      assert OccursAt(part, text, |before|);
    }
  }

  lemma OverlapShares(cue: string, cand: string, m: nat)
    requires m <= |cand| && Overlaps(cue, cand, m)
    ensures SharesWords(cue, cand, cand[..m])
  {
    hide Words, CountWords;
    CountIsNumberOfWords(cand, m);
    var words := cand[..m];
    assert words[m - 1] == cand[m - 1];
  }

  lemma SharedOverlaps(cue: string, cand: string, words: string)
    requires SharesWords(cue, cand, words)
    ensures |words| <= |cand| && words == cand[..|words|] && Overlaps(cue, cand, |words|)
  {
    hide Words, CountWords, EndsWord, Overlaps, EndsIn, BeginsWith;
    var m := |words|;
    WholeWords(cand, words);
    CountIsNumberOfWords(cand, m);
    Overlapping(cue, cand, words);
  }

  lemma WholeWords(cand: string, words: string)
    requires words != "" && !White(words[|words| - 1]) && BeginsWith(cand, words)
    ensures |words| <= |cand| && words == cand[..|words|] && EndsWord(cand, |words|)
  {
    assert cand[|words| - 1] == cand[..|words|][|words| - 1];
  }

  lemma Overlapping(cue: string, cand: string, words: string)
    requires words != "" && EndsIn(cue, words) && BeginsWith(cand, words) && EndsWord(cand, |words|)
    requires CountWords(cand, |words|) >= 2
    ensures Overlaps(cue, cand, |words|)
  {
    hide CountWords, EndsWord;
  }

  /** The overlap the loop finds is the longest list of words shared. */
  lemma OverlapIsLongest(cue: string, cand: string)
    ensures TailPrefix(cue, cand) == 0 <==> forall words :: !SharesWords(cue, cand, words)
    ensures forall words :: LongestShared(cue, cand, words) <==>
              TailPrefix(cue, cand) > 0 && words == cand[..TailPrefix(cue, cand)]
  {
    hide SharesWords, Overlaps, TailPrefix;
    var m := TailPrefix(cue, cand);
    forall words | SharesWords(cue, cand, words)
      ensures |words| <= m && words == cand[..|words|] && words != ""
    {
      SharedOverlaps(cue, cand, words);
      SharedIsLong(cue, cand, words);
    }
    if m > 0 {
      OverlapShares(cue, cand, m);
    }
  }

  lemma SharedIsLong(cue: string, cand: string, words: string)
    requires SharesWords(cue, cand, words)
    ensures words != ""
  {
  }

  // --------------------------------------------------- one earlier cue

  /** A candidate passes an earlier cue exactly if they share nothing. */
  lemma PassesIff(text: string, startUs: int, endUs: int, cue: Past, inTime: bool)
    ensures AgainstCue(text, startUs, endUs, cue, inTime).Pass? <==> SharesNothing(text, startUs, endUs, cue, inTime)
  {
    hide TailPrefix, Occurs, Contains, SharesWords, LongestShared;
    OccursIs(text, cue.text);
    OccursIs(cue.text, text);
    OverlapIsLongest(cue.text, text);
    PassIffNovel(text, startUs, endUs, cue, inTime);
  }

  /** What is queued against an earlier cue is what goes on behind it, from its end on. */
  lemma GoesOnIff(text: string, startUs: int, endUs: int, cue: Past, inTime: bool, rest: string)
    ensures AgainstCue(text, startUs, endUs, cue, inTime) == Emit(Emission(rest, cue.endUs, endUs)) <==>
            GoesOnWith(text, startUs, endUs, cue, inTime, rest)
  {
    hide GoesOnFrom, GoesOnWith, AgainstCue, RemainderOf;
    EmitsIffGoesOn(text, startUs, endUs, cue, inTime);
    if GoesOnFrom(text, startUs, endUs, cue, inTime) && rest == RemainderOf(text, cue) {
      RemainderGoesOn(text, startUs, endUs, cue, inTime);
    }
    if GoesOnWith(text, startUs, endUs, cue, inTime, rest) {
      GoesOnIsRemainder(text, startUs, endUs, cue, inTime, rest);
    }
  }

  lemma RemainderGoesOn(text: string, startUs: int, endUs: int, cue: Past, inTime: bool)
    requires GoesOnFrom(text, startUs, endUs, cue, inTime)
    ensures GoesOnWith(text, startUs, endUs, cue, inTime, RemainderOf(text, cue))
  {
    hide TailPrefix, Occurs, Contains, SharesWords;
    OccursIs(text, cue.text);
    OverlapIsLongest(cue.text, text);
    var m, rest := TailPrefix(cue.text, text), RemainderOf(text, cue);
    var k := SkipSpace(text, m);
    var space := text[m..k];
    assert text == text[..m] + space + rest;
    assert forall c :: c in space ==> White(c);
    assert LongestShared(cue.text, text, text[..m]);
  }

  lemma AfterWords(text: string, words: string, space: string, rest: string)
    requires text == words + space + rest && AllWhite(space) && rest != "" && !White(rest[0])
    ensures SkipSpace(text, |words|) == |words| + |space| < |text| && text[|words| + |space|..] == rest
  {
    assert forall k :: 0 <= k < |space| ==> space[k] in space;
    SkipIs(text, |words|, |words| + |space|);
  }

  lemma GoesOnIsRemainder(text: string, startUs: int, endUs: int, cue: Past, inTime: bool, rest: string)
    requires GoesOnWith(text, startUs, endUs, cue, inTime, rest)
    ensures GoesOnFrom(text, startUs, endUs, cue, inTime) && rest == RemainderOf(text, cue)
  {
    hide TailPrefix, Occurs, Contains, SharesWords, LongestShared, AllWhite, SkipSpace;
    OccursIs(text, cue.text);
    OverlapIsLongest(cue.text, text);
    var words, space :| LongestShared(cue.text, text, words) && AllWhite(space)
                        && text == words + space + rest && rest != "" && !White(rest[0]);
    AfterWords(text, words, space, rest);
  }

  // ----------------------------------------------------------- main results

  /** Whether the hypothesis is looked at at all: its times, its length, the phantom filter and the captioned audio. */
  predicate Considered(phantom: string -> bool, b: Builder, text: string, startUs: int, endUs: int)
  {
    0 <= startUs < endUs && 0 < |text| < 1024 && !phantom(text) && !Covered(b, startUs, endUs)
  }

  ghost predicate NewToAll(b: Builder, text: string, startUs: int, endUs: int)
  {
    && (b.pending != [] ==>
          var last := b.pending[|b.pending| - 1];
          var cue := Past(last.startUs, last.endUs, last.text);
          SharesNothing(text, startUs, endUs, cue, InTime(startUs, endUs, cue)))
    && forall i :: 0 <= i < |b.history| && InTime(startUs, endUs, b.history[i]) ==>
                     SharesNothing(text, startUs, endUs, b.history[i], true)
  }

  /** A hypothesis within the captioned audio, or at most half a second longer, queues nothing, whatever it says. */
  lemma CoveredIsDropped(phantom: string -> bool, b: Builder, raw: string, startUs: int, endUs: int)
    requires Covered(b, startUs, endUs)
    ensures Decide(phantom, b, raw, startUs, endUs) == None
  {
  }

  /**
    A hypothesis is shown whole exactly if it is considered, ends behind the captioned audio, and shares nothing with the
    newest pending cue or with a remembered phrase of its time; it is shown from its start, or from the end of the
    captioned audio if that is later.
   */
  lemma ShownWholeExactly(phantom: string -> bool, b: Builder, raw: string, startUs: int, endUs: int)
    ensures var text := Trim(raw);
            var shownUs := if startUs < b.coveredEnd then b.coveredEnd else startUs;
            Decide(phantom, b, raw, startUs, endUs) == Some(Emission(text, shownUs, endUs)) <==>
            && Considered(phantom, b, text, startUs, endUs) && b.coveredEnd < endUs
            && NewToAll(b, text, startUs, endUs)
  {
    hide AgainstCue, Novel, SharesNothing, TimeMatches, InTime, AgainstHistory, AgainstPending;
    var text := Trim(raw);
    ShownWholeIff(phantom, b, raw, startUs, endUs);
    forall cue: Past
      ensures TimeMatches(startUs, endUs, cue.startUs, cue.endUs) == InTime(startUs, endUs, cue)
    {
      InTimeIs(startUs, endUs, cue);
    }
    forall cue: Past, inTime: bool
      ensures Novel(text, startUs, endUs, cue, inTime) <==> SharesNothing(text, startUs, endUs, cue, inTime)
    {
      PassesIff(text, startUs, endUs, cue, inTime);
      PassIffNovel(text, startUs, endUs, cue, inTime);
    }
    WholeIsUntrimmed(phantom, b, raw, startUs, endUs);
  }

  lemma InTimeIs(startUs: int, endUs: int, cue: Past)
    ensures TimeMatches(startUs, endUs, cue.startUs, cue.endUs) == InTime(startUs, endUs, cue)
    ensures NearCue(startUs, endUs, cue.startUs, cue.endUs) == Near(startUs, endUs, cue)
  {
  }

  lemma WholeIsUntrimmed(phantom: string -> bool, b: Builder, raw: string, startUs: int, endUs: int)
    ensures var text, e := Trim(raw), Decide(phantom, b, raw, startUs, endUs);
            e.Some? && e.value.text == text ==>
              e.value == Emission(text, if startUs < b.coveredEnd then b.coveredEnd else startUs, endUs)
  {
    hide AgainstCue, Novel, TimeMatches;
    var text := Trim(raw);
    HistoryPassesIff(b.history, text, startUs, endUs);
    if b.pending != [] {
      var last := b.pending[|b.pending| - 1];
      PassIffNovel(text, startUs, endUs, Past(last.startUs, last.endUs, last.text),
                   TimeMatches(startUs, endUs, last.startUs, last.endUs));
    }
  }

  /** New audio is never turned away for its time: what is well-timed, not phantom and shares nothing is shown whole. */
  lemma NewAudioIsShown(phantom: string -> bool, b: Builder, raw: string, startUs: int, endUs: int)
    requires 0 <= startUs < endUs && 0 < |Trim(raw)| < 1024 && !phantom(Trim(raw)) && NewToAll(b, Trim(raw), startUs, endUs)
    requires b.coveredEnd <= startUs || b.coveredEnd + 500_000 < endUs
    ensures var shownUs := if startUs < b.coveredEnd then b.coveredEnd else startUs;
            Decide(phantom, b, raw, startUs, endUs) == Some(Emission(Trim(raw), shownUs, endUs))
  {
    ShownWholeExactly(phantom, b, raw, startUs, endUs);
  }

  /** What is left of the hypothesis behind remembered phrase k, the newest of its time with which it shares anything. */
  ghost predicate GoesOnFromPhrase(b: Builder, k: nat, text: string, startUs: int, endUs: int, rest: string)
  {
    && k < |b.history| && InTime(startUs, endUs, b.history[k])
    && GoesOnWith(text, startUs, endUs, b.history[k], true, rest)
    && forall i :: k < i < |b.history| && InTime(startUs, endUs, b.history[i]) ==>
                     SharesNothing(text, startUs, endUs, b.history[i], true)
  }

  ghost predicate GoesOnFromPending(b: Builder, text: string, startUs: int, endUs: int, rest: string)
  {
    && b.pending != []
    && var last := b.pending[|b.pending| - 1];
       var cue := Past(last.startUs, last.endUs, last.text);
       GoesOnWith(text, startUs, endUs, cue, InTime(startUs, endUs, cue), rest)
  }

  ghost predicate NewToNewest(b: Builder, text: string, startUs: int, endUs: int)
  {
    b.pending != [] ==>
      var last := b.pending[|b.pending| - 1];
      var cue := Past(last.startUs, last.endUs, last.text);
      SharesNothing(text, startUs, endUs, cue, InTime(startUs, endUs, cue))
  }

  lemma PendingIs(b: Builder, text: string, startUs: int, endUs: int, rest: string)
    ensures AgainstPending(b, text, startUs, endUs).Pass? <==> NewToNewest(b, text, startUs, endUs)
    ensures b.pending != [] ==>
              (AgainstPending(b, text, startUs, endUs) == Emit(Emission(rest, b.pending[|b.pending| - 1].endUs, endUs)) <==>
               GoesOnFromPending(b, text, startUs, endUs, rest))
  {
    hide AgainstCue, SharesNothing, GoesOnWith, TimeMatches, InTime;
    if b.pending != [] {
      var last := b.pending[|b.pending| - 1];
      var cue := Past(last.startUs, last.endUs, last.text);
      InTimeIs(startUs, endUs, cue);
      PassesIff(text, startUs, endUs, cue, InTime(startUs, endUs, cue));
      GoesOnIff(text, startUs, endUs, cue, InTime(startUs, endUs, cue), rest);
    }
  }

  lemma {:induction false} HistoryIs(b: Builder, n: nat, k: nat, text: string, startUs: int, endUs: int, rest: string)
    requires k < n <= |b.history|
    requires GoesOnFromPhrase(b.(history := b.history[..n]), k, text, startUs, endUs, rest)
    ensures AgainstHistory(b.history[..n], text, startUs, endUs) == Emit(Emission(rest, b.history[k].endUs, endUs))
    decreases n
  {
    hide AgainstCue, SharesNothing, GoesOnWith, TimeMatches, InTime;
    var cue := b.history[n - 1];
    assert b.history[..n][..n - 1] == b.history[..n - 1];
    InTimeIs(startUs, endUs, cue);
    PassesIff(text, startUs, endUs, cue, true);
    GoesOnIff(text, startUs, endUs, cue, true, rest);
    if k < n - 1 {
      HistoryIs(b, n - 1, k, text, startUs, endUs, rest);
    }
  }

  /**
    What is trimmed: a considered hypothesis that goes on from the newest pending cue shows what is new, from that cue's
    end; if it shares nothing with that, it is the newest phrase of its time with which it shares anything that decides.
   */
  lemma TrimmedIsShown(phantom: string -> bool, b: Builder, raw: string, startUs: int, endUs: int, rest: string)
    requires Considered(phantom, b, Trim(raw), startUs, endUs)
    ensures GoesOnFromPending(b, Trim(raw), startUs, endUs, rest) ==>
              Decide(phantom, b, raw, startUs, endUs) ==
              Some(Emission(rest, b.pending[|b.pending| - 1].endUs, endUs))
    ensures forall k: nat :: NewToNewest(b, Trim(raw), startUs, endUs) &&
                             GoesOnFromPhrase(b, k, Trim(raw), startUs, endUs, rest) ==>
              Decide(phantom, b, raw, startUs, endUs) == Some(Emission(rest, b.history[k].endUs, endUs))
  {
    hide AgainstHistory, AgainstPending, NewToNewest, GoesOnFromPending, GoesOnFromPhrase;
    var text := Trim(raw);
    PendingIs(b, text, startUs, endUs, rest);
    if GoesOnFromPending(b, text, startUs, endUs, rest) {
      PendingExists(b, text, startUs, endUs, rest);
    }
    forall k: nat | NewToNewest(b, text, startUs, endUs) && GoesOnFromPhrase(b, k, text, startUs, endUs, rest)
      ensures k < |b.history|
      ensures AgainstHistory(b.history, text, startUs, endUs) == Emit(Emission(rest, b.history[k].endUs, endUs))
    {
      PhraseExists(b, k, text, startUs, endUs, rest);
      assert b.history[..|b.history|] == b.history && b.(history := b.history) == b;
      HistoryIs(b, |b.history|, k, text, startUs, endUs, rest);
    }
  }

  /** And nothing else is trimmed: whatever is shown but not whole goes on from one of those two. */
  lemma OnlyThatIsTrimmed(phantom: string -> bool, b: Builder, raw: string, startUs: int, endUs: int)
    requires var e := Decide(phantom, b, raw, startUs, endUs); e.Some? && e.value.text != Trim(raw)
    ensures var e := Decide(phantom, b, raw, startUs, endUs).value;
            && Considered(phantom, b, Trim(raw), startUs, endUs) && e.endUs == endUs
            && (|| (GoesOnFromPending(b, Trim(raw), startUs, endUs, e.text) && e.startUs == b.pending[|b.pending| - 1].endUs)
                || (&& NewToNewest(b, Trim(raw), startUs, endUs)
                    && exists k: nat :: GoesOnFromPhrase(b, k, Trim(raw), startUs, endUs, e.text)
                                        && e.startUs == b.history[k].endUs))
  {
    hide AgainstCue, AgainstHistory, NewToNewest, GoesOnFromPending, GoesOnFromPhrase, FirstToTrim;
    var text, e := Trim(raw), Decide(phantom, b, raw, startUs, endUs).value;
    ConsideredIs(phantom, b, text, startUs, endUs);
    PendingIs(b, text, startUs, endUs, e.text);
    if AgainstPending(b, text, startUs, endUs).Emit? {
      PendingEmits(b, text, startUs, endUs);
      PendingExists(b, text, startUs, endUs, e.text);
    } else {
      var k := EmitsFromFirstToTrim(b.history, text, startUs, endUs);
      FirstIsPhrase(b, k, text, startUs, endUs);
    }
  }

  lemma ConsideredIs(phantom: string -> bool, b: Builder, text: string, startUs: int, endUs: int)
    ensures Usable(phantom, b, text, startUs, endUs) <==> Considered(phantom, b, text, startUs, endUs)
  {
  }

  lemma PendingEmits(b: Builder, text: string, startUs: int, endUs: int)
    requires AgainstPending(b, text, startUs, endUs).Emit?
    ensures var e := AgainstPending(b, text, startUs, endUs).e;
            b.pending != [] && e.startUs == b.pending[|b.pending| - 1].endUs && e.endUs == endUs
            && GoesOnFromPending(b, text, startUs, endUs, e.text)
  {
    hide AgainstCue, GoesOnWith, TimeMatches, InTime, GoesOnFrom;
    var last := b.pending[|b.pending| - 1];
    var cue := Past(last.startUs, last.endUs, last.text);
    InTimeIs(startUs, endUs, cue);
    EmitsIffGoesOn(text, startUs, endUs, cue, InTime(startUs, endUs, cue));
    GoesOnIff(text, startUs, endUs, cue, InTime(startUs, endUs, cue), RemainderOf(text, cue));
  }

  lemma FirstIsPhrase(b: Builder, k: nat, text: string, startUs: int, endUs: int)
    requires FirstToTrim(b.history, k, text, startUs, endUs)
    ensures k < |b.history| && GoesOnFromPhrase(b, k, text, startUs, endUs, RemainderOf(text, b.history[k]))
  {
    hide SharesNothing, Novel, GoesOnWith, TimeMatches, InTime, GoesOnFrom, AgainstCue, RemainderOf;
    var cue := b.history[k];
    InTimeIs(startUs, endUs, cue);
    EmitsIffGoesOn(text, startUs, endUs, cue, true);
    GoesOnIff(text, startUs, endUs, cue, true, RemainderOf(text, cue));
    forall i | k < i < |b.history| && InTime(startUs, endUs, b.history[i])
      ensures SharesNothing(text, startUs, endUs, b.history[i], true)
    {
      InTimeIs(startUs, endUs, b.history[i]);
      PassesIff(text, startUs, endUs, b.history[i], true);
      PassIffNovel(text, startUs, endUs, b.history[i], true);
    }
  }

  lemma PendingExists(b: Builder, text: string, startUs: int, endUs: int, rest: string)
    requires GoesOnFromPending(b, text, startUs, endUs, rest)
    ensures b.pending != []
  {
  }

  lemma PhraseExists(b: Builder, k: nat, text: string, startUs: int, endUs: int, rest: string)
    requires GoesOnFromPhrase(b, k, text, startUs, endUs, rest)
    ensures k < |b.history|
  {
  }

  /** The newest sixteen phrases are remembered. */
  lemma SixteenRemembered(phantom: string -> bool, events: seq<Event>)
    ensures var w := Run(phantom, World(Empty, []), events);
            && |w.b.history| == (if |w.emitted| < 16 then |w.emitted| else 16)
            && forall i :: 0 <= i < |w.b.history| ==>
                 var cue := w.emitted[|w.emitted| - |w.b.history| + i];
                 w.b.history[i].startUs == cue.startUs && w.b.history[i].endUs == cue.endUs
                 && w.b.history[i].text == Kept(cue.text)
  {
    TimelineHolds(phantom, events);
  }

  /** Captions leave in the order they came in, without a trace on what later ones are compared with. */
  lemma OldestIsPopped(b: Builder)
    ensures b.pending == [] ==> Pop(b) == b
    ensures b.pending != [] ==>
              && b.pending == [b.pending[0]] + Pop(b).pending
              && Pop(b).history == b.history && Pop(b).coveredEnd == b.coveredEnd && Pop(b).nextId == b.nextId
    ensures Clear(b).pending == [] && Clear(b).history == [] && Clear(b).coveredEnd == -1 && Clear(b).nextId == b.nextId
  {
  }
}
