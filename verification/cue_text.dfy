/**
  The text side of caption deduplication: whitespace trimming, substring tests and the word-aligned overlap between the
  end of a cue and the start of a candidate.
 */
module CueText {

  predicate IsSpace(c: char)
  {
    c == ' ' || c == '\t' || c == '\n' || c == '\r'
  }

  function SkipSpace(s: string, i: nat): (end: nat)
    requires i <= |s|
    ensures i <= end <= |s|
    ensures forall k :: i <= k < end ==> IsSpace(s[k])
    ensures end < |s| ==> !IsSpace(s[end])
    decreases |s| - i
  {
    if i < |s| && IsSpace(s[i]) then SkipSpace(s, i + 1) else i
  }

  function DropTrailing(s: string): (r: string)
    ensures r <= s && (r == "" || !IsSpace(r[|r| - 1]))
    ensures forall k :: |r| <= k < |s| ==> IsSpace(s[k])
  {
    if s != "" && IsSpace(s[|s| - 1]) then DropTrailing(s[..|s| - 1]) else s
  }

  function Trim(s: string): (r: string)
    ensures r == "" || (!IsSpace(r[0]) && !IsSpace(r[|r| - 1]))
  {
    DropTrailing(s[SkipSpace(s, 0)..])
  }

  /** `needle` occurs in `text`, as strstr finds it. */
  predicate Occurs(needle: string, text: string)
  {
    exists i: nat :: i <= |text| && OccursAt(needle, text, i)
  }

  predicate OccursAt(needle: string, text: string, i: nat)
  {
    i + |needle| <= |text| && text[i..i + |needle|] == needle
  }

  // ---------------------------------------------------------------- words

  predicate StartsWord(s: string, k: nat)
    requires k < |s|
  {
    !IsSpace(s[k]) && (k == 0 || IsSpace(s[k - 1]))
  }

  function CountWords(s: string, n: nat): nat
    requires n <= |s|
  {
    if n == 0 then 0 else CountWords(s, n - 1) + (if StartsWord(s, n - 1) then 1 else 0)
  }

  /** End of the run of non-space characters that starts at i. */
  function WordEnd(s: string, i: nat): (end: nat)
    requires i <= |s|
    ensures i <= end <= |s|
    ensures forall k :: i <= k < end ==> !IsSpace(s[k])
    ensures end < |s| ==> IsSpace(s[end])
    decreases |s| - i
  {
    if i < |s| && !IsSpace(s[i]) then WordEnd(s, i + 1) else i
  }

  /** The words of a text, in order. */
  function Words(s: string): (words: seq<string>)
    decreases |s|
  {
    if s == "" then []
    else if IsSpace(s[0]) then Words(s[1..])
    else [s[..WordEnd(s, 0)]] + Words(s[WordEnd(s, 0)..])
  }

  // -------------------------------------------------------------- overlap

  /** A complete word of `cand` ends at position m. */
  predicate EndsWord(cand: string, m: nat)
    requires m <= |cand|
  {
    0 < m && (m == |cand| || IsSpace(cand[m])) && !IsSpace(cand[m - 1])
  }

  /** The first m characters of `cand` are whole words, at least two, and are the last whole words of `cue`. */
  predicate Overlaps(cue: string, cand: string, m: nat)
  {
    && 0 < m <= |cand| && m <= |cue|
    && EndsWord(cand, m)
    && cue[|cue| - m..] == cand[..m]
    && (m == |cue| || IsSpace(cue[|cue| - m - 1]))
    && CountWords(cand, m) >= 2
  }

  function LongestOverlap(cue: string, cand: string, from: nat): (m: nat)
    ensures m <= from && (m > 0 ==> Overlaps(cue, cand, m))
    ensures forall k :: m < k <= from ==> !Overlaps(cue, cand, k)
  {
    if from == 0 then 0 else if Overlaps(cue, cand, from) then from else LongestOverlap(cue, cand, from - 1)
  }

  /** The longest overlap; 0 when there is none. */
  function TailPrefix(cue: string, cand: string): (m: nat)
    ensures m <= |cand| && m <= |cue|
    ensures m > 0 ==> Overlaps(cue, cand, m)
    ensures forall k :: m < k ==> !Overlaps(cue, cand, k)
  {
    LongestOverlap(cue, cand, |cand|)
  }

  method TailPrefixLen(cue: string, cand: string) returns (m: nat)
    ensures m == TailPrefix(cue, cand)
  {
    var clen, alen := |cue|, |cand|;
    if clen == 0 || alen == 0 {
      return 0;
    }
    var be := alen;
    while be > 0
      invariant 0 <= be <= alen
      invariant LongestOverlap(cue, cand, alen) == LongestOverlap(cue, cand, be)
    {
      var here := be;
      be := be - 1;
      if here < alen && !IsSpace(cand[here]) {
        continue;
      }
      if IsSpace(cand[be]) {
        continue;
      }
      if be + 1 > clen || cue[clen - (be + 1)..] != cand[..be + 1] {
        continue;
      }
      var cueStart := clen - (be + 1);
      if cueStart > 0 && !IsSpace(cue[cueStart - 1]) {
        continue;
      }
      var words := CountWordStarts(cand, be + 1);
      if words >= 2 {
        return be + 1;
      }
    }
    return 0;
  }

  method CountWordStarts(cand: string, n: nat) returns (words: nat)
    requires n <= |cand|
    ensures words == CountWords(cand, n)
  {
    words := 0;
    var k := 0;
    while k < n
      invariant k <= n
      invariant words == CountWords(cand, k)
    {
      if !IsSpace(cand[k]) && (k == 0 || IsSpace(cand[k - 1])) {
        words := words + 1;
      }
      k := k + 1;
    }
  }

  // ---------------------------------------------------------- main results

  lemma {:induction false} WordEndAppend(a: string, b: string, i: nat)
    requires i <= |a|
    requires WordEnd(a, i) < |a| || b == "" || IsSpace(b[0])
    ensures WordEnd(a + b, i) == WordEnd(a, i)
    decreases |a| - i
  {
    if i < |a| && !IsSpace(a[i]) {
      WordEndAppend(a, b, i + 1);
    }
  }

  /** Cutting a text at a word boundary cuts its list of words. */
  lemma {:induction false} WordsConcat(a: string, b: string)
    requires a == "" || b == "" || IsSpace(a[|a| - 1]) || IsSpace(b[0])
    ensures Words(a + b) == Words(a) + Words(b)
    decreases |a|
  {
    if a == "" {
      assert a + b == b;
    } else if IsSpace(a[0]) {
      assert (a + b)[1..] == a[1..] + b;
      WordsConcat(a[1..], b);
    } else {
      var end := WordEnd(a, 0);
      WordEndAppend(a, b, 0);
      assert (a + b)[..end] == a[..end] && (a + b)[end..] == a[end..] + b;
      WordsConcat(a[end..], b);
    }
  }

  lemma {:induction false} SpaceHasNoWords(s: string)
    requires forall k :: 0 <= k < |s| ==> IsSpace(s[k])
    ensures Words(s) == []
  {
    if s != "" {
      SpaceHasNoWords(s[1..]);
    }
  }

  /** Adding one character to a text that ends inside a word lengthens its last word. */
  lemma {:induction false} WordsExtend(a: string, c: char)
    requires a != "" && !IsSpace(a[|a| - 1]) && !IsSpace(c)
    ensures |Words(a + [c])| == |Words(a)|
    decreases |a|
  {
    if IsSpace(a[0]) {
      assert (a + [c])[1..] == a[1..] + [c];
      WordsExtend(a[1..], c);
    } else {
      var end := WordEnd(a, 0);
      if end < |a| {
        WordEndAppend(a, [c], 0);
        assert (a + [c])[end..] == a[end..] + [c];
        WordsExtend(a[end..], c);
      } else {
        WordEndFull(a, c, 0);
        assert (a + [c])[|a| + 1..] == "";
      }
    }
  }

  lemma {:induction false} WordEndFull(a: string, c: char, i: nat)
    requires i <= |a| && WordEnd(a, i) == |a| && !IsSpace(c)
    ensures WordEnd(a + [c], i) == |a| + 1
    decreases |a| - i
  {
  }

  /** Counting word starts counts the words. */
  lemma {:induction false} CountIsNumberOfWords(s: string, n: nat)
    requires n <= |s|
    ensures CountWords(s, n) == |Words(s[..n])|
  {
    if n > 0 {
      CountIsNumberOfWords(s, n - 1);
      var a, c := s[..n - 1], s[n - 1];
      assert s[..n] == a + [c];
      if IsSpace(c) {
        WordsConcat(a, [c]);
        SpaceHasNoWords([c]);
      } else if StartsWord(s, n - 1) {
        WordsConcat(a, [c]);
        assert WordEnd([c], 1) == 1 && [c][1..] == "" && [c][..1] == [c];
        assert Words([c]) == [[c]];
      } else {
        WordsExtend(a, c);
      }
    }
  }

  /**
    The trim loses no word and shows none twice: the cue's words followed by the remainder's words are the words before
    the overlap followed by all the candidate's words; the overlap itself is at least two whole words.
   */
  lemma TrimShowsEachWordOnce(cue: string, cand: string)
    requires TailPrefix(cue, cand) > 0
    ensures var m := TailPrefix(cue, cand);
            var before, shared, rest := cue[..|cue| - m], cand[..m], cand[SkipSpace(cand, m)..];
            && cue == before + shared
            && cand == shared + cand[m..SkipSpace(cand, m)] + rest
            && |Words(shared)| >= 2
            && Words(cue) == Words(before) + Words(shared)
            && Words(cand) == Words(shared) + Words(rest)
            && Words(cue) + Words(rest) == Words(before) + Words(cand)
  {
    var m := TailPrefix(cue, cand);
    var before, shared := cue[..|cue| - m], cand[..m];
    var gap, rest := cand[m..SkipSpace(cand, m)], cand[SkipSpace(cand, m)..];
    CountIsNumberOfWords(cand, m);
    assert cue == before + shared;
    ThreeParts(cand, m, SkipSpace(cand, m));
    SharedWords(before, shared, gap, rest);
  }

  lemma SharedWords(before: string, shared: string, gap: string, rest: string)
    requires before == "" || IsSpace(before[|before| - 1])
    requires forall k :: 0 <= k < |gap| ==> IsSpace(gap[k])
    requires gap == "" ==> rest == ""
    ensures Words(before + shared) == Words(before) + Words(shared)
    ensures Words(shared + gap + rest) == Words(shared) + Words(rest)
    ensures Words(before + shared) + Words(rest) == Words(before) + Words(shared + gap + rest)
  {
    WordsConcat(before, shared);
    GapWords(shared, gap, rest);
    Associative(Words(before), Words(shared), Words(rest));
  }

  lemma Associative<T>(a: seq<T>, b: seq<T>, c: seq<T>)
    ensures a + b + c == a + (b + c)
  {
  }

  lemma GapWords(shared: string, gap: string, rest: string)
    requires forall k :: 0 <= k < |gap| ==> IsSpace(gap[k])
    requires gap == "" ==> rest == ""
    ensures Words(shared + gap + rest) == Words(shared) + Words(rest)
  {
    if gap == "" {
      assert shared + gap + rest == shared;
    } else {
      TrailingSpace(shared, gap);
      WordsConcat(shared + gap, rest);
    }
  }

  lemma TrailingSpace(shared: string, gap: string)
    requires gap != "" && forall k :: 0 <= k < |gap| ==> IsSpace(gap[k])
    ensures Words(shared + gap) == Words(shared)
    ensures IsSpace((shared + gap)[|shared + gap| - 1])
  {
    WordsConcat(shared, gap);
    SpaceHasNoWords(gap);
    assert (shared + gap)[|shared + gap| - 1] == gap[|gap| - 1];
  }

  lemma ThreeParts(s: string, i: nat, j: nat)
    requires i <= j <= |s|
    ensures s == s[..i] + s[i..j] + s[j..]
  {
  }
}
