/** The JSON scanners of the translation client. */
module JsonScan {
  // They never build a tree: they walk a NUL-terminated text with a depth counter and two string flags. A pointer into
  // the text is modelled by the suffix it points at; reaching the end of the suffix is reaching the NUL.

  import opened Captions
  import opened JsonText

  predicate IsSpace(c: char)
  {
    c == ' ' || 9 <= c as int <= 13
  }

  /** Space, and the controls from the horizontal tab to the carriage return. */
  lemma WhiteSpaceIs(c: char)
    ensures IsSpace(c) <==> c in " \t\n\U{0B}\U{0C}\r"
  {
  }

  function SkipSpace(s: string): (r: string)
    ensures |r| <= |s| && (r == "" || !IsSpace(r[0]))
  {
    if s != "" && IsSpace(s[0]) then SkipSpace(s[1..]) else s
  }

  // --------------------------------------------------------- end of a string

  /** Forward scan with an escape flag: position of the quote that ends the string. */
  function StringEnd(s: string, i: nat, escaped: bool): (end: Option<nat>)
    requires i <= |s|
    ensures end.Some? ==> i <= end.value < |s| && s[end.value] == '"'
    decreases |s| - i
  {
    if i == |s| then None
    else if escaped then StringEnd(s, i + 1, false)
    else if s[i] == '\\' then StringEnd(s, i + 1, true)
    else if s[i] == '"' then Some(i)
    else StringEnd(s, i + 1, false)
  }

  /** Number of backslashes directly before position i, not looking further back than `start`. */
  function Slashes(s: string, start: nat, i: nat): (n: nat)
    requires start <= i <= |s|
    ensures n <= i - start
  {
    if i > start && s[i - 1] == '\\' then 1 + Slashes(s, start, i - 1) else 0
  }

  /** The loop of the program: at each quote, count the backslashes before it and look at their parity. */
  method JsonStringEnd(s: string, start: nat) returns (end: Option<nat>)
    requires start <= |s|
    ensures end == StringEnd(s, start, false)
  {
    var p := start;
    while p < |s|
      invariant start <= p <= |s|
      invariant StringEnd(s, start, false) == StringEnd(s, p, Slashes(s, start, p) % 2 == 1)
    {
      if s[p] != '"' {
        p := p + 1;
        continue;
      }
      var slashes, q: nat := 0, p;
      while q > start && s[q - 1] == '\\'
        invariant start <= q <= p
        invariant slashes + Slashes(s, start, q) == Slashes(s, start, p)
      {
        slashes := slashes + 1;
        q := q - 1;
      }
      if slashes % 2 == 0 {
        return Some(p);
      }
      p := p + 1;
    }
    return None;
  }

  // -------------------------------------------------------- nested brackets

  /**
    The bracket walk of skip_json_value: only the opening and closing character of the value's own kind are counted,
    and nothing inside a string is.
   */
  function Nested(s: string, start: char, stop: char, depth: int, inString: bool, escaped: bool): (r: Option<string>)
    decreases |s|
  {
    if s == "" then None
    else
      var rest := s[1..];
      if inString then
        if escaped then Nested(rest, start, stop, depth, true, false)
        else if s[0] == '\\' then Nested(rest, start, stop, depth, true, true)
        else Nested(rest, start, stop, depth, s[0] != '"', false)
      else if s[0] == '"' then Nested(rest, start, stop, depth, true, escaped)
      else if s[0] == start then Nested(rest, start, stop, depth + 1, false, escaped)
      else if s[0] == stop then
        if depth - 1 == 0 then Some(rest) else Nested(rest, start, stop, depth - 1, false, escaped)
      else Nested(rest, start, stop, depth, false, escaped)
  }

  predicate EndsPrimitive(c: char)
  {
    c == ',' || c == ']' || c == '}' || IsSpace(c)
  }

  function SkipPrimitive(s: string): (r: string)
  {
    if s != "" && !EndsPrimitive(s[0]) then SkipPrimitive(s[1..]) else s
  }

  function SkipString(s: string): (r: Option<string>)
    requires s != ""
  {
    if s[0] != '"' then None
    else
      var end := StringEnd(s, 1, false);
      if end.None? then None else Some(s[end.value + 1..])
  }

  /** What follows the value at the front of the text; None when the text ends inside it. */
  function SkipValue(s: string): (r: Option<string>)
  {
    var t := SkipSpace(s);
    if t == "" then Some(t)
    else if t[0] == '"' then SkipString(t)
    else if t[0] == '[' then Nested(t, '[', ']', 0, false, false)
    else if t[0] == '{' then Nested(t, '{', '}', 0, false, false)
    else Some(SkipPrimitive(t))
  }

  /** Where the next element starts once the value at the front has been skipped; None at the end of the array. */
  function NextStart(t: string): (r: Option<string>)
  {
    var after := SkipValue(t);
    if after.None? then None
    else
      var u := SkipSpace(after.value);
      if u != "" && u[0] == ',' then Some(u[1..])
      else if u != "" && u[0] == ']' then None
      else Some(u)
  }

  /** From just after '[' or ',': the text at element k, or None past the end of the array. */
  function ElementFrom(s: string, k: nat): (r: Option<string>)
    decreases k
  {
    var t := SkipSpace(s);
    if t == "" || t[0] == ']' then None
    else if k == 0 then Some(t)
    else if NextStart(t).None? then None
    else ElementFrom(NextStart(t).value, k - 1)
  }

  function ArrayElement(s: string, k: nat): Option<string>
  {
    var t := SkipSpace(s);
    if t == "" || t[0] != '[' then None else ElementFrom(t[1..], k)
  }

  // ------------------------------------------------------------------ loops

  /** Positions stand for the pointers of the program. */
  method SkipJsonSpace(s: string, p: nat) returns (q: nat)
    requires p <= |s|
    ensures p <= q <= |s| && s[q..] == SkipSpace(s[p..])
  {
    q := p;
    while q < |s| && IsSpace(s[q])
      invariant p <= q <= |s| && SkipSpace(s[p..]) == SkipSpace(s[q..])
    {
      assert s[q..][1..] == s[q + 1..];
      q := q + 1;
    }
  }

  method SkipNested(s: string, p: nat, start: char, stop: char) returns (q: Option<nat>)
    requires p <= |s|
    ensures var r := Nested(s[p..], start, stop, 0, false, false);
            q.Some? == r.Some? && (q.Some? ==> p <= q.value <= |s| && s[q.value..] == r.value)
  {
    var i, depth, inString, escaped := p, 0, false, false;
    while i < |s|
      invariant p <= i <= |s|
      invariant Nested(s[p..], start, stop, 0, false, false) == Nested(s[i..], start, stop, depth, inString, escaped)
    {
      var c := s[i];
      assert s[i..][1..] == s[i + 1..];
      i := i + 1;
      if inString {
        if escaped {
          escaped := false;
        } else if c == '\\' {
          escaped := true;
        } else if c == '"' {
          inString := false;
        }
        continue;
      }
      if c == '"' {
        inString := true;
      } else if c == start {
        depth := depth + 1;
      } else if c == stop {
        depth := depth - 1;
        if depth == 0 {
          return Some(i);
        }
      }
    }
    return None;
  }

  method SkipJsonValue(s: string, p: nat) returns (q: Option<nat>)
    requires p <= |s|
    ensures var r := SkipValue(s[p..]);
            q.Some? == r.Some? && (q.Some? ==> p <= q.value <= |s| && s[q.value..] == r.value)
  {
    var i := SkipJsonSpace(s, p);
    if i == |s| {
      return Some(i);
    }
    if s[i] == '"' {
      var end := JsonStringEnd(s, i + 1);
      StringEndSuffix(s, i, i + 1, false);
      return if end.None? then None else Some(end.value + 1);
    }
    if s[i] == '[' || s[i] == '{' {
      q := SkipNested(s, i, s[i], if s[i] == '[' then ']' else '}');
      return;
    }
    var j := i;
    while j < |s| && !EndsPrimitive(s[j])
      invariant i <= j <= |s| && SkipPrimitive(s[i..]) == SkipPrimitive(s[j..])
    {
      assert s[j..][1..] == s[j + 1..];
      j := j + 1;
    }
    return Some(j);
  }

  /** Searching from a suffix finds the same quote. */
  lemma {:induction false} StringEndSuffix(s: string, i: nat, j: nat, escaped: bool)
    requires i <= j <= |s|
    ensures var here, there := StringEnd(s[i..], j - i, escaped), StringEnd(s, j, escaped);
            here.Some? == there.Some? && (there.Some? ==> here.value + i == there.value)
    decreases |s| - j
  {
    if j < |s| {
      StringEndSuffix(s, i, j + 1, true);
      StringEndSuffix(s, i, j + 1, false);
    }
  }

  method SkipElement(s: string, p: nat) returns (q: Option<nat>)
    requires p <= |s|
    ensures var r := NextStart(s[p..]);
            q.Some? == r.Some? && (q.Some? ==> p <= q.value <= |s| && s[q.value..] == r.value)
  {
    var after := SkipJsonValue(s, p);
    if after.None? {
      return None;
    }
    var a := SkipJsonSpace(s, after.value);
    if a < |s| && s[a] == ',' {
      assert s[a..][1..] == s[a + 1..];
      return Some(a + 1);
    } else if a < |s| && s[a] == ']' {
      return None;
    }
    return Some(a);
  }

  method GetJsonArrayElement(s: string, p: nat, target: nat) returns (q: Option<nat>)
    requires p <= |s|
    ensures var r := ArrayElement(s[p..], target);
            q.Some? == r.Some? && (q.Some? ==> p <= q.value <= |s| && s[q.value..] == r.value)
  {
    var a := SkipJsonSpace(s, p);
    if a == |s| || s[a] != '[' {
      return None;
    }
    assert s[a..][1..] == s[a + 1..];
    a := a + 1;
    var i := 0;
    ghost var wanted := ArrayElement(s[p..], target);
    while true
      invariant p <= a <= |s| && i <= target
      invariant wanted == ElementFrom(s[a..], target - i)
      decreases target - i
    {
      a := SkipJsonSpace(s, a);
      if a == |s| || s[a] == ']' {
        return None;
      }
      if i == target {
        return Some(a);
      }
      var next := SkipElement(s, a);
      if next.None? {
        return None;
      }
      a := next.value;
      i := i + 1;
    }
  }
}
