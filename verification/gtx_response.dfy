/**
  Reading a translation out of a response: the segment-list parser, which unescapes the first string of every segment
  into one bounded buffer, and the outer parser of the single-query response.
 */
module GtxResponse {
  import opened Captions
  import opened JsonText
  import opened JsonScan
  import opened JsonValues

  /** The rest of a segment array: up to its own closing bracket, nested arrays and strings stepped over. */
  function Segment(s: string, depth: nat, inString: bool, escaped: bool): (r: Option<string>)
    ensures r.Some? ==> |r.value| < |s|
    decreases |s|
  {
    if s == "" then None
    else
      var rest := s[1..];
      if inString then
        if escaped then Segment(rest, depth, true, false)
        else if s[0] == '\\' then Segment(rest, depth, true, true)
        else Segment(rest, depth, s[0] != '"', false)
      else if s[0] == '"' then Segment(rest, depth, true, escaped)
      else if s[0] == '[' then Segment(rest, depth + 1, false, escaped)
      else if s[0] == ']' then if depth == 0 then Some(rest) else Segment(rest, depth - 1, false, escaped)
      else Segment(rest, depth, false, escaped)
  }

  datatype Chunk = Chunk(text: string, rest: string)

  /** The string that opens a segment, still escaped, and what follows its closing quote. */
  function FirstString(p: string): (c: Option<Chunk>)
    requires p != ""
    ensures c.Some? ==> |c.value.rest| < |p|
  {
    var u := SkipSpace(p[1..]);
    if u == "" || u[0] != '"' then None
    else
      var end := StringEnd(u, 1, false);
      if end.None? then None else Some(Chunk(u[1..end.value], u[end.value + 1..]))
  }

  /** One segment: its first string unescaped, and what follows the segment. `p` points at the opening bracket. */
  function ReadSegment(p: string): (c: Option<Chunk>)
    requires p != ""
    ensures c.Some? ==> |c.value.rest| < |p|
  {
    var first := FirstString(p);
    if first.None? then None
    else
      var text := Unescape(first.value.text);
      var after := Segment(first.value.rest, 0, false, false);
      if text.None? || |text.value| > MAX_TEXT_BYTES || after.None? then None
      else Some(Chunk(text.value, after.value))
  }

  /** The segment loop: what has been collected is `acc`, the output buffer has `size` bytes. */
  function Collect(p: string, acc: string, size: nat): Option<string>
    decreases |p|, 1
  {
    var t := SkipSpace(p);
    if t == "" || t[0] != '[' then Some(acc) else CollectAt(t, acc, size)
  }

  function CollectAt(t: string, acc: string, size: nat): Option<string>
    requires t != ""
    decreases |t|, 0
  {
    var c := ReadSegment(t);
    if c.None? || |acc| + |c.value.text| >= size then None
    else
      var w := SkipSpace(c.value.rest);
      if w != "" && w[0] == ',' then Collect(w[1..], acc + c.value.text, size) else Some(acc + c.value.text)
  }

  function ParseList(p: string, size: nat): Option<string>
  {
    var t := SkipSpace(p);
    if t == "" || t[0] != '[' then None
    else
      var r := Collect(t[1..], "", size);
      if r.Some? && r.value != "" then r else None
  }

  function ParseGtx(raw: string, size: nat): Option<string>
  {
    var t := SkipSpace(raw);
    if size == 0 || t == "" || t[0] != '[' then None else ParseList(t[1..], size)
  }

  // ------------------------------------------------------------------ loops

  method SkipSegmentArray(s: string, p: nat) returns (q: Option<nat>)
    requires p <= |s|
    ensures var r := Segment(s[p..], 0, false, false);
            q.Some? == r.Some? && (q.Some? ==> p <= q.value <= |s| && s[q.value..] == r.value)
  {
    var i, inString, escaped := p, false, false;
    var depth: nat := 0;
    while i < |s|
      invariant p <= i <= |s|
      invariant Segment(s[p..], 0, false, false) == Segment(s[i..], depth, inString, escaped)
    {
      var c := s[i];
      assert s[i..][1..] == s[i + 1..];
      i := i + 1;
      if inString {
        if escaped {
          escaped := false;
        } else if c == '\\' {
          escaped := true;
        } else if c == '"' {
          inString := false;
        }
        continue;
      }
      if c == '"' {
        inString := true;
      } else if c == '[' {
        depth := depth + 1;
      } else if c == ']' {
        if depth == 0 {
          return Some(i);
        }
        depth := depth - 1;
      }
    }
    return None;
  }

  method FirstStringAt(s: string, p: nat) returns (found: bool, from: nat, to: nat)
    requires p < |s|
    ensures var c := FirstString(s[p..]);
            && found == c.Some?
            && (found ==> p < from <= to < |s| && c.value == Chunk(s[from..to], s[to + 1..]))
  {
    assert s[p..][1..] == s[p + 1..];
    var i := SkipJsonSpace(s, p + 1);
    if i == |s| || s[i] != '"' {
      return false, 0, 0;
    }
    var end := JsonStringEnd(s, i + 1);
    StringEndSuffix(s, i, i + 1, false);
    if end.None? {
      return false, 0, 0;
    }
    assert s[i..][1..end.value - i] == s[i + 1..end.value] && s[i..][end.value - i + 1..] == s[end.value + 1..];
    return true, i + 1, end.value;
  }

  /** Unescapes the first string of the segment at p into `chunk` and steps over the segment. */
  method ReadSegmentAt(s: string, p: nat, chunk: array<char>) returns (ok: bool, len: nat, next: nat)
    requires p < |s| && chunk.Length == MAX_TEXT_BYTES + 1
    modifies chunk
    ensures var c := ReadSegment(s[p..]);
            && ok == c.Some?
            && (ok ==> len == |c.value.text| <= MAX_TEXT_BYTES && chunk[..len] == c.value.text)
            && (ok ==> p < next <= |s| && s[next..] == c.value.rest)
  {
    var found, from, to := FirstStringAt(s, p);
    if !found {
      return false, 0, p;
    }
    ok, len := JsonUnescapeString(s[from..to], chunk);
    if !ok {
      return false, 0, p;
    }
    var after := SkipSegmentArray(s, to + 1);
    if after.None? {
      return false, 0, p;
    }
    next := after.value;
  }

  method ParseSegmentsList(s: string, start: nat, out: array<char>) returns (ok: bool, len: nat)
    requires start <= |s| && out.Length > 0
    modifies out
    ensures var r := ParseList(s[start..], out.Length);
            ok == r.Some? && (ok ==> len == |r.value| <= out.Length && out[..len] == r.value)
  {
    var chunk := new char[MAX_TEXT_BYTES + 1];
    var p := SkipJsonSpace(s, start);
    len := 0;
    if p == |s| || s[p] != '[' {
      return false, 0;
    }
    assert s[p..][1..] == s[p + 1..];
    p := p + 1;
    ok, len := CollectSegments(s, p, out, chunk);
    ok := ok && len > 0;
  }

  method CollectSegments(s: string, start: nat, out: array<char>, chunk: array<char>) returns (ok: bool, len: nat)
    requires start <= |s| && out.Length > 0 && chunk.Length == MAX_TEXT_BYTES + 1 && out != chunk
    modifies out, chunk
    ensures var r := Collect(s[start..], "", out.Length);
            ok == r.Some? && (ok ==> len == |r.value| <= out.Length && out[..len] == r.value)
  {
    var p, more := start, true;
    ok, len := true, 0;
    ghost var acc, wanted := "", Collect(s[start..], "", out.Length);
    while more
      invariant start <= p <= |s| && len < out.Length && out[..len] == acc
      invariant wanted == if more then Collect(s[p..], acc, out.Length) else if ok then Some(acc) else None
      decreases if more then |s| - p + 1 else 0
    {
      ok, more, p, len, acc := CollectTurn(s, p, out, chunk, len, acc);
    }
  }

  /** One turn of the segment loop: done, failed, or one segment further. */
  method CollectTurn(s: string, start: nat, out: array<char>, chunk: array<char>, len: nat, ghost acc: string)
    returns (ok: bool, more: bool, p: nat, len': nat, ghost acc': string)
    requires start <= |s| && len < out.Length && out[..len] == acc
    requires chunk.Length == MAX_TEXT_BYTES + 1 && out != chunk
    modifies out, chunk
    ensures start <= p <= |s| && len' < out.Length && out[..len'] == acc'
    ensures more ==> p > start
    ensures Collect(s[start..], acc, out.Length) ==
            if more then Collect(s[p..], acc', out.Length) else if ok then Some(acc') else None
  {
    p := SkipJsonSpace(s, start);
    if p == |s| || s[p] != '[' {
      return true, false, p, len, acc;
    }
    ok, more, p, len', acc' := CollectSegment(s, p, out, chunk, len, acc);
  }

  method CollectSegment(s: string, at: nat, out: array<char>, chunk: array<char>, len: nat, ghost acc: string)
    returns (ok: bool, more: bool, p: nat, len': nat, ghost acc': string)
    requires at < |s| && len < out.Length && out[..len] == acc
    requires chunk.Length == MAX_TEXT_BYTES + 1 && out != chunk
    modifies out, chunk
    ensures at <= p <= |s| && len' < out.Length && out[..len'] == acc'
    ensures more ==> p > at
    ensures CollectAt(s[at..], acc, out.Length) ==
            if more then Collect(s[p..], acc', out.Length) else if ok then Some(acc') else None
  {
    hide ReadSegment, Collect;
    var read, n, next := ReadSegmentAt(s, at, chunk);
    if !read || len + n >= out.Length {
      return false, false, at, len, acc;
    }
    acc' := AppendPiece(chunk[..n], out, len, acc);
    len' := len + n;
    p := SkipJsonSpace(s, next);
    if p < |s| && s[p] == ',' {
      assert s[p..][1..] == s[p + 1..];
      return true, true, p + 1, len', acc';
    }
    return true, false, p, len', acc';
  }

  method ParseGtxResponse(raw: string, out: array<char>) returns (ok: bool, len: nat)
    modifies out
    ensures var r := ParseGtx(raw, out.Length);
            ok == r.Some? && (ok ==> len == |r.value| <= out.Length && out[..len] == r.value)
  {
    if out.Length == 0 {
      return false, 0;
    }
    assert raw[0..] == raw;
    var p := SkipJsonSpace(raw, 0);
    if p == |raw| || raw[p] != '[' {
      return false, 0;
    }
    assert raw[p..][1..] == raw[p + 1..];
    ok, len := ParseSegmentsList(raw, p + 1, out);
  }

  // ----------------------------------------------------------- main results

  lemma {:induction false} SegmentIsNested(s: string, depth: nat, inString: bool, escaped: bool)
    ensures Segment(s, depth, inString, escaped) == Nested(s, '[', ']', depth + 1, inString, escaped)
    decreases |s|
  {
    if s != "" {
      var rest := s[1..];
      SegmentIsNested(rest, depth, true, false);
      SegmentIsNested(rest, depth, true, true);
      SegmentIsNested(rest, depth, false, false);
      SegmentIsNested(rest, depth, true, escaped);
      SegmentIsNested(rest, depth, false, escaped);
      SegmentIsNested(rest, depth + 1, false, escaped);
      if depth > 0 {
        SegmentIsNested(rest, depth - 1, false, escaped);
      }
    }
  }

  /** A translation segment: an array whose first element is a string. */
  predicate SegmentShape(i: Item)
  {
    i.value.Arr? && i.value.items != [] && i.value.items[0].value.Str?
  }

  function FirstBody(i: Item): string
    requires SegmentShape(i)
  {
    i.value.items[0].value.body
  }

  /** The unescaped first strings of the segments, one after the other, as long as each and the whole fit. */
  function Joined(segments: seq<Item>, acc: string, size: nat): Option<string>
    requires forall i :: 0 <= i < |segments| ==> SegmentShape(segments[i])
    decreases |segments|
  {
    if segments == [] then Some(acc)
    else
      var text := Unescape(FirstBody(segments[0]));
      if text.None? || |text.value| > MAX_TEXT_BYTES || |acc| + |text.value| >= size then None
      else Joined(segments[1..], acc + text.value, size)
  }

  /** The text of an array behind its opening bracket. */
  lemma ArrayText(v: Json, rest: string)
    requires v.Arr? && v.items != []
    ensures var first := v.items[0];
            (Render(v) + rest)[1..] ==
            first.before + (Render(first.value) + (first.after + (RenderTail(v.items[1..]) + ("]" + rest))))
  {
    Inside("[", RenderItems(v.items), "]", rest);
    ItemsText(v.items, rest);
  }

  /** Behind its first string, a rendered segment is stepped over to its end. */
  lemma StepOverSegment(items: seq<Item>, after: string, rest: string)
    requires Space(after) && forall i :: 0 <= i < |items| ==> WellFormedItem(items[i])
    ensures Segment(after + (RenderTail(items) + ("]" + rest)), 0, false, false) == Some(rest)
  {
    var close := "]" + rest;
    SegmentIsNested(after + (RenderTail(items) + close), 0, false, false);
    WalkInert(after, RenderTail(items) + close, '[', ']', 1);
    WalkTail(items, close, '[', ']', 1);
    assert close[1..] == rest;
  }

  lemma FirstRenderedString(i: Item, rest: string)
    requires WellFormedItem(i) && SegmentShape(i)
    ensures var items := i.value.items;
            FirstString(Render(i.value) + rest) ==
            Some(Chunk(FirstBody(i), items[0].after + (RenderTail(items[1..]) + ("]" + rest))))
  {
    var first, body := i.value.items[0], FirstBody(i);
    var tail := first.after + (RenderTail(i.value.items[1..]) + ("]" + rest));
    var quoted := "\"" + body + "\"" + tail;
    assert WellFormedItem(first) && WellFormed(first.value);
    ArrayText(i.value, rest);
    SkipSpaceOver(first.before, quoted);
    EndOfBody(body, tail, "\"");
    assert quoted[1..|body| + 1] == body && quoted[|body| + 2..] == tail;
  }

  lemma ReadRenderedSegment(i: Item, rest: string)
    requires WellFormedItem(i) && SegmentShape(i)
    ensures var text := Unescape(FirstBody(i));
            ReadSegment(Render(i.value) + rest) ==
            if text.None? || |text.value| > MAX_TEXT_BYTES then None else Some(Chunk(text.value, rest))
  {
    FirstRenderedString(i, rest);
    assert WellFormedItem(i.value.items[0]);
    StepOverSegment(i.value.items[1..], i.value.items[0].after, rest);
  }

  /** One turn of the segment loop on a rendered segment. */
  lemma CollectOne(i: Item, acc: string, size: nat, tail: string)
    requires WellFormedItem(i) && SegmentShape(i) && tail != "" && (tail[0] == ',' || tail[0] == ']')
    ensures var text := Unescape(FirstBody(i));
            Collect(i.before + (Render(i.value) + (i.after + tail)), acc, size) ==
            if text.None? || |text.value| > MAX_TEXT_BYTES || |acc| + |text.value| >= size then None
            else if tail[0] == ',' then Collect(tail[1..], acc + text.value, size)
            else Some(acc + text.value)
  {
    SkipSpaceOver(i.before, Render(i.value) + (i.after + tail));
    RenderIsSolid(i.value, i.after + tail);
    ReadRenderedSegment(i, i.after + tail);
    SkipSpaceOver(i.after, tail);
  }

  lemma {:induction false} CollectRendered(segments: seq<Item>, acc: string, size: nat, rest: string)
    requires segments != []
    requires forall i :: 0 <= i < |segments| ==> WellFormedItem(segments[i]) && SegmentShape(segments[i])
    ensures Collect(RenderItems(segments) + ("]" + rest), acc, size) == Joined(segments, acc, size)
    decreases |segments|
  {
    var first, tail := segments[0], RenderTail(segments[1..]) + ("]" + rest);
    assert WellFormedItem(first) && SegmentShape(first);
    ItemsText(segments, rest);
    CollectOne(first, acc, size, tail);
    var chunk := Unescape(FirstBody(first));
    if |segments| > 1 && chunk.Some? {
      CollectRendered(segments[1..], acc + chunk.value, size, rest);
    }
  }

  /** The segment list on its own. */
  lemma ListIsJoined(list: Json, before: string, after: string, size: nat)
    requires Space(before) && WellFormed(list) && list.Arr?
    requires forall i :: 0 <= i < |list.items| ==> SegmentShape(list.items[i])
    ensures var joined := Joined(list.items, "", size);
            ParseList(before + (Render(list) + after), size) ==
            if joined.Some? && joined.value != "" then joined else None
  {
    var inner := if list.items == [] then list.blank else RenderItems(list.items);
    SkipSpaceOver(before, Render(list) + after);
    RenderIsSolid(list, after);
    Inside("[", inner, "]", after);
    assert (Render(list) + after)[1..] == inner + ("]" + after);
    if list.items == [] {
      SkipSpaceOver(list.blank, "]" + after);
    } else {
      CollectRendered(list.items, "", size, after);
    }
  }

  /**
    For every well-formed response whose first element lists the segments, the parser returns the concatenation of the
    segments' first strings, exactly when they all unescape, fit and are not all empty.
   */
  lemma GtxReturnsConcatenation(lead: string, v: Json, rest: string, size: nat)
    requires Space(lead) && WellFormed(v) && v.Arr? && v.items != [] && v.items[0].value.Arr?
    requires forall i :: 0 <= i < |v.items[0].value.items| ==> SegmentShape(v.items[0].value.items[i])
    ensures var joined := Joined(v.items[0].value.items, "", size);
            ParseGtx(lead + (Render(v) + rest), size) ==
            if size > 0 && joined.Some? && joined.value != "" then joined else None
  {
    var first := v.items[0];
    assert WellFormedItem(first);
    SkipSpaceOver(lead, Render(v) + rest);
    RenderIsSolid(v, rest);
    ArrayText(v, rest);
    ListIsJoined(first.value, first.before, first.after + (RenderTail(v.items[1..]) + ("]" + rest)), size);
  }

  function Concat(texts: seq<string>): string
  {
    if texts == [] then "" else texts[0] + Concat(texts[1..])
  }

  /** When every first string unescapes and everything fits, the joined text is the plain concatenation. */
  lemma {:induction false} JoinedIsConcat(segments: seq<Item>, texts: seq<string>, acc: string, size: nat)
    requires |segments| == |texts| && |acc| + |Concat(texts)| < size
    requires forall i :: 0 <= i < |segments| ==> SegmentShape(segments[i])
    requires forall i :: 0 <= i < |segments| ==> Unescape(FirstBody(segments[i])) == Some(texts[i])
    requires forall i :: 0 <= i < |texts| ==> |texts[i]| <= MAX_TEXT_BYTES
    ensures Joined(segments, acc, size) == Some(acc + Concat(texts))
    decreases |segments|
  {
    if segments == [] {
      assert acc + "" == acc;
    } else {
      Regroup(acc, texts[0], Concat(texts[1..]));
      JoinedIsConcat(segments[1..], texts[1..], acc + texts[0], size);
    }
  }
}
