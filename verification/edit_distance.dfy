/** The benchmark's word and character error counts. */
module EditDistances {
  // A two-row edit distance over token lists, with the shorter list along the rows. An edit script is an independent
  // reference: the distance is the cost of the cheapest one.

  import opened Captions

  function Min(a: nat, b: nat): nat { if a < b then a else b }

  function Differ<T(==)>(x: T, y: T): nat { if x == y then 0 else 1 }

  /** The distance of Levenshtein, by the last tokens. */
  function Distance<T(==)>(a: seq<T>, b: seq<T>): nat
    decreases |a| + |b|
  {
    if a == [] then |b|
    else if b == [] then |a|
    else
      var a', b' := a[..|a| - 1], b[..|b| - 1];
      Min(Distance(a', b') + Differ(a[|a| - 1], b[|b| - 1]), Min(Distance(a, b') + 1, Distance(a', b) + 1))
  }

  // ------------------------------------------------------------- the program

  /** One row of the table: the distances from `longer` to every prefix of `shorter`. */
  ghost predicate Row<T>(row: seq<nat>, longer: seq<T>, shorter: seq<T>)
  {
    |row| <= |shorter| + 1 && forall j :: 0 <= j < |row| ==> row[j] == Distance(longer, shorter[..j])
  }

  method NextRow<T(==)>(previous: seq<nat>, shorter: seq<T>, longItem: T, i: nat, ghost longer: seq<T>)
    returns (current: seq<nat>)
    requires |longer| == i && i > 0 && longer[i - 1] == longItem
    requires |previous| == |shorter| + 1 && Row(previous, longer[..i - 1], shorter)
    ensures |current| == |shorter| + 1 && Row(current, longer, shorter)
  {
    current := [i];
    var j := 1;
    while j <= |shorter|
      invariant 1 <= j <= |shorter| + 1 && |current| == j
      invariant Row(current, longer, shorter)
    {
      assert shorter[..j][..j - 1] == shorter[..j - 1];
      var substitution := previous[j - 1] + Differ(longItem, shorter[j - 1]);
      var insertion := current[j - 1] + 1;
      var deletion := previous[j] + 1;
      current := current + [Min(substitution, Min(insertion, deletion))];
      j := j + 1;
    }
  }

  method EditDistance<T(==)>(reference: seq<T>, hypothesis: seq<T>) returns (distance: nat)
    ensures distance == Distance(reference, hypothesis)
  {
    var shorter, longer := hypothesis, reference;
    if |reference| < |hypothesis| {
      shorter, longer := reference, hypothesis;
    }
    var previous: seq<nat> := seq(|shorter| + 1, j => j);
    var i := 0;
    while i < |longer|
      invariant 0 <= i <= |longer| && |previous| == |shorter| + 1
      invariant Row(previous, longer[..i], shorter)
    {
      assert longer[..i + 1][..i] == longer[..i];
      previous := NextRow(previous, shorter, longer[i], i + 1, longer[..i + 1]);
      i := i + 1;
    }
    assert longer[..i] == longer && shorter[..|shorter|] == shorter;
    DistanceIsSymmetric(reference, hypothesis);
    return previous[|previous| - 1];
  }

  // ------------------------------------------------------------ edit scripts

  /**
    One edit: a token of the source, if any, becomes a token of the target, if any. Some to Some keeps or
    substitutes, Some to None deletes, None to Some inserts; it is free when both sides agree.
   */
  datatype Edit<T> = Edit(before: Option<T>, after: Option<T>)

  function Tokens<T>(x: Option<T>): seq<T> { if x.Some? then [x.value] else [] }

  function Source<T>(script: seq<Edit<T>>): seq<T>
  {
    if script == [] then [] else Source(script[..|script| - 1]) + Tokens(script[|script| - 1].before)
  }

  function Target<T>(script: seq<Edit<T>>): seq<T>
  {
    if script == [] then [] else Target(script[..|script| - 1]) + Tokens(script[|script| - 1].after)
  }

  function Cost<T(==)>(script: seq<Edit<T>>): nat
  {
    if script == [] then 0
    else Cost(script[..|script| - 1]) + Differ(script[|script| - 1].before, script[|script| - 1].after)
  }

  ghost predicate Turns<T>(script: seq<Edit<T>>, a: seq<T>, b: seq<T>)
  {
    Source(script) == a && Target(script) == b
  }

  /** One more token on either side, or on both, changes the distance as one edit costs. */
  lemma {:induction false} OneMoreToken<T>(a: seq<T>, b: seq<T>, e: Edit<T>)
    ensures Distance(a + Tokens(e.before), b + Tokens(e.after)) <= Distance(a, b) + Differ(e.before, e.after)
  {
    var a', b' := a + Tokens(e.before), b + Tokens(e.after);
    if e.before.Some? { assert a'[..|a|] == a; } else { assert a' == a; }
    if e.after.Some? { assert b'[..|b|] == b; } else { assert b' == b; }
    if b' == [] {
      assert Distance(a', b') == |a'| && Distance(a, b) == |a|;
    } else if a' == [] {
      assert Distance(a', b') == |b'| && Distance(a, b) == |b|;
    }
  }

  /** No script that turns a into b is cheaper than the distance. */
  lemma {:induction false} NoScriptIsCheaper<T>(script: seq<Edit<T>>)
    ensures Distance(Source(script), Target(script)) <= Cost(script)
    decreases |script|
  {
    if script != [] {
      var front := script[..|script| - 1];
      NoScriptIsCheaper(front);
      OneMoreToken(Source(front), Target(front), script[|script| - 1]);
    }
  }

  lemma Append<T>(script: seq<Edit<T>>, e: Edit<T>)
    ensures Source(script + [e]) == Source(script) + Tokens(e.before)
    ensures Target(script + [e]) == Target(script) + Tokens(e.after)
    ensures Cost(script + [e]) == Cost(script) + Differ(e.before, e.after)
  {
  }

  /** Some script costs exactly the distance. */
  lemma {:induction false} CheapestScript<T>(a: seq<T>, b: seq<T>) returns (script: seq<Edit<T>>)
    ensures Turns(script, a, b) && Cost(script) == Distance(a, b)
    decreases |a| + |b|
  {
    if a == [] && b == [] {
      return [];
    }
    var a', b', e := LastEdit(a, b);
    script := CheapestScript(a', b');
    Append(script, e);
    script := script + [e];
  }

  /** The last edit of a cheapest script, and what is left to do before it. */
  lemma LastEdit<T>(a: seq<T>, b: seq<T>) returns (a': seq<T>, b': seq<T>, e: Edit<T>)
    requires a != [] || b != []
    ensures |a'| + |b'| < |a| + |b| && a == a' + Tokens(e.before) && b == b' + Tokens(e.after)
    ensures Distance(a, b) == Distance(a', b') + Differ(e.before, e.after)
  {
    if a != [] && b != [] {
      OneOfThree(a, b);
    }
    LastToken(a);
    LastToken(b);
    hide Distance;
    EmptyDistance(a, b);
    if b == [] {
      a', b', e := a[..|a| - 1], b, Edit(Some(a[|a| - 1]), None);
    } else if a == [] {
      a', b', e := a, b[..|b| - 1], Edit(None, Some(b[|b| - 1]));
    } else if Distance(a, b) == Distance(a[..|a| - 1], b) + 1 {
      a', b', e := a[..|a| - 1], b, Edit(Some(a[|a| - 1]), None);
    } else if Distance(a, b) == Distance(a, b[..|b| - 1]) + 1 {
      a', b', e := a, b[..|b| - 1], Edit(None, Some(b[|b| - 1]));
    } else {
      a', b', e := a[..|a| - 1], b[..|b| - 1], Edit(Some(a[|a| - 1]), Some(b[|b| - 1]));
    }
  }

  lemma LastToken<T>(s: seq<T>)
    ensures s + [] == s && (s != [] ==> s == s[..|s| - 1] + [s[|s| - 1]])
  {
  }

  lemma EmptyDistance<T>(a: seq<T>, b: seq<T>)
    ensures a == [] ==> Distance(a, b) == |b| && (b != [] ==> Distance(a, b[..|b| - 1]) == |b| - 1)
    ensures b == [] ==> Distance(a, b) == |a| && (a != [] ==> Distance(a[..|a| - 1], b) == |a| - 1)
  {
  }

  lemma OneOfThree<T>(a: seq<T>, b: seq<T>)
    requires a != [] && b != []
    ensures var a', b' := a[..|a| - 1], b[..|b| - 1];
            || Distance(a, b) == Distance(a', b) + 1
            || Distance(a, b) == Distance(a, b') + 1
            || Distance(a, b) == Distance(a', b') + Differ(a[|a| - 1], b[|b| - 1])
  {
  }

  // ----------------------------------------------------------- main results

  /** The distance is the least number of insertions, deletions and substitutions that turn one list into the other. */
  lemma DistanceIsLeastCost<T>(a: seq<T>, b: seq<T>)
    ensures exists script :: Turns(script, a, b) && Cost(script) == Distance(a, b)
    ensures forall script :: Turns(script, a, b) ==> Distance(a, b) <= Cost(script)
  {
    var cheapest := CheapestScript(a, b);
    assert Turns(cheapest, a, b);
    forall script | Turns(script, a, b)
      ensures Distance(a, b) <= Cost(script)
    {
      NoScriptIsCheaper(script);
    }
  }

  /** The swap by length changes nothing. */
  lemma {:induction false} DistanceIsSymmetric<T>(a: seq<T>, b: seq<T>)
    ensures Distance(a, b) == Distance(b, a)
    decreases |a| + |b|
  {
    if a != [] && b != [] {
      DistanceIsSymmetric(a[..|a| - 1], b[..|b| - 1]);
      DistanceIsSymmetric(a, b[..|b| - 1]);
      DistanceIsSymmetric(a[..|a| - 1], b);
    }
  }

  lemma {:induction false} FreeScriptKeepsAll<T>(script: seq<Edit<T>>)
    requires Cost(script) == 0
    ensures Source(script) == Target(script)
    decreases |script|
  {
    if script != [] {
      FreeScriptKeepsAll(script[..|script| - 1]);
    }
  }

  lemma {:induction false} SameListIsAtDistanceZero<T>(a: seq<T>)
    ensures Distance(a, a) == 0
  {
    if a != [] {
      SameListIsAtDistanceZero(a[..|a| - 1]);
    }
  }

  /** Only a list itself can be reached for nothing. */
  lemma {:induction false} ZeroIffEqual<T>(a: seq<T>, b: seq<T>)
    ensures Distance(a, b) == 0 <==> a == b
  {
    SameListIsAtDistanceZero(a);
    var script := CheapestScript(a, b);
    if Cost(script) == 0 {
      FreeScriptKeepsAll(script);
    }
  }

  /** The script that does what two scripts do one after the other, at no more than their joint cost. */
  lemma {:induction false} Compose<T>(first: seq<Edit<T>>, second: seq<Edit<T>>) returns (both: seq<Edit<T>>)
    requires Target(first) == Source(second)
    ensures Turns(both, Source(first), Target(second)) && Cost(both) <= Cost(first) + Cost(second)
    decreases |first| + |second|
  {
    if first != [] && first[|first| - 1].after.None? {
      both := Compose(first[..|first| - 1], second);
      Append(both, first[|first| - 1]);
      both := both + [first[|first| - 1]];
    } else if second != [] && second[|second| - 1].before.None? {
      both := Compose(first, second[..|second| - 1]);
      Append(both, second[|second| - 1]);
      both := both + [second[|second| - 1]];
    } else if first == [] || second == [] {
      both := [];
    } else {
      var e, f := first[|first| - 1], second[|second| - 1];
      var first', second' := first[..|first| - 1], second[..|second| - 1];
      LastTokens(Target(first'), e.after.value, Source(second'), f.before.value);
      both := Compose(first', second');
      Append(both, Edit(e.before, f.after));
      both := both + [Edit(e.before, f.after)];
    }
  }

  lemma LastTokens<T>(a: seq<T>, x: T, b: seq<T>, y: T)
    requires a + [x] == b + [y]
    ensures a == b && x == y
  {
    var all := a + [x];
    assert all[..|a|] == a && all[|a|] == x && (b + [y])[..|b|] == b && (b + [y])[|b|] == y;
  }

  lemma TriangleInequality<T>(a: seq<T>, b: seq<T>, c: seq<T>)
    ensures Distance(a, c) <= Distance(a, b) + Distance(b, c)
  {
    var first := CheapestScript(a, b);
    var second := CheapestScript(b, c);
    var both := Compose(first, second);
    NoScriptIsCheaper(both);
  }
}
