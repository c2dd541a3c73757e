/**
  The answer to the translation request: a JSON string behind the marker of the call holds another JSON text, whose
  element [1][0][0][5] is the list of translated segments. Two looser searches follow when that path fails.
 */
module RpcResponse {
  import opened Captions
  import opened GtxResponse
  import opened JsonScan
  import opened JsonText
  import opened JsonValues
  import opened RpcBody

  const MARKER: string := "\"wrb.fr\""
  const NULLS: string := "null,null,null,null,null,"

  /** The text from the first occurrence of a string on. */
  function FindText(needle: string, s: string): (r: Option<string>)
    ensures r.Some? ==> needle <= r.value && |r.value| <= |s|
    ensures needle <= s ==> r == Some(s)
  {
    if needle <= s then Some(s) else if s == "" then None else FindText(needle, s[1..])
  }

  function FindChar(c: char, s: string): (r: Option<string>)
    ensures r.Some? ==> r.value != "" && r.value[0] == c && |r.value| <= |s|
  {
    if s == "" then None else if s[0] == c then Some(s) else FindChar(c, s[1..])
  }

  /** The field after the marker, without the call's own id when that comes first. */
  function SkipCallId(t: string): Option<string>
  {
    if t == "" || t[0] != '"' then Some(t)
    else
      var after := SkipString(t);
      if after.None? then None
      else
        var u := SkipSpace(after.value);
        if u == "" || u[0] != ',' then None else Some(SkipSpace(u[1..]))
  }

  /** The text from the payload's field on. */
  function PayloadField(raw: string): Option<string>
  {
    var marker := FindText(MARKER, raw);
    var comma := if marker.None? then None else FindChar(',', marker.value);
    if comma.None? then None else SkipCallId(SkipSpace(comma.value[1..]))
  }

  /** The string at the front, unescaped. */
  function FrontString(field: string): Option<string>
  {
    if field == "" || field[0] != '"' then None
    else
      var end := StringEnd(field, 1, false);
      if end.None? then None else Unescape(field[1..end.value])
  }

  /** The payload string, unescaped. */
  function Payload(raw: string): Option<string>
  {
    if PayloadField(raw).None? then None else FrontString(PayloadField(raw).value)
  }

  function Path(u: string): Option<string>
  {
    var e1 := ArrayElement(u, 1);
    var e2 := if e1.None? then None else ArrayElement(e1.value, 0);
    var e3 := if e2.None? then None else ArrayElement(e2.value, 0);
    if e3.None? then None else ArrayElement(e3.value, 5)
  }

  function ByPath(u: string, size: nat): Option<string>
  {
    if Path(u).None? then None else ParseList(Path(u).value, size)
  }

  function ByPattern(u: string, size: nat): Option<string>
  {
    var nulls := FindText(NULLS, u);
    var list := if nulls.None? then None else FindChar('[', nulls.value);
    if list.None? then None else ParseList(list.value, size)
  }

  function FromPayload(u: string, size: nat): Option<string>
  {
    if ByPath(u, size).Some? then ByPath(u, size)
    else if ByPattern(u, size).Some? then ByPattern(u, size)
    else ParseGtx(u, size)
  }

  function ParseRpc(raw: string, size: nat): Option<string>
  {
    if size == 0 || Payload(raw).None? then None else FromPayload(Payload(raw).value, size)
  }

  // ------------------------------------------------------------------ loops

  method Strstr(s: string, p: nat, needle: string) returns (q: Option<nat>)
    requires p <= |s|
    ensures var r := FindText(needle, s[p..]);
            q.Some? == r.Some? && (q.Some? ==> p <= q.value <= |s| && s[q.value..] == r.value)
  {
    var i := p;
    while true
      invariant p <= i <= |s| && FindText(needle, s[p..]) == FindText(needle, s[i..])
      decreases |s| - i
    {
      if needle <= s[i..] {
        return Some(i);
      }
      if i == |s| {
        return None;
      }
      assert s[i..][1..] == s[i + 1..];
      i := i + 1;
    }
  }

  method Strchr(s: string, p: nat, c: char) returns (q: Option<nat>)
    requires p <= |s|
    ensures var r := FindChar(c, s[p..]);
            q.Some? == r.Some? && (q.Some? ==> p <= q.value < |s| && s[q.value..] == r.value)
  {
    var i := p;
    while i < |s| && s[i] != c
      invariant p <= i <= |s| && FindChar(c, s[p..]) == FindChar(c, s[i..])
    {
      assert s[i..][1..] == s[i + 1..];
      i := i + 1;
    }
    return if i < |s| then Some(i) else None;
  }

  method SkipIdField(s: string, p: nat) returns (q: Option<nat>)
    requires p <= |s|
    ensures var r := SkipCallId(s[p..]);
            q.Some? == r.Some? && (q.Some? ==> p <= q.value <= |s| && s[q.value..] == r.value)
  {
    hide StringEnd, SkipSpace;
    if p == |s| || s[p] != '"' {
      return Some(p);
    }
    var end := JsonStringEnd(s, p + 1);
    StringEndSuffix(s, p, p + 1, false);
    if end.None? {
      return None;
    }
    assert s[p..][end.value - p + 1..] == s[end.value + 1..];
    var u := SkipJsonSpace(s, end.value + 1);
    if u == |s| || s[u] != ',' {
      return None;
    }
    assert s[u..][1..] == s[u + 1..];
    var v := SkipJsonSpace(s, u + 1);
    return Some(v);
  }

  method FindPayloadField(raw: string) returns (q: Option<nat>)
    ensures var r := PayloadField(raw);
            q.Some? == r.Some? && (q.Some? ==> q.value <= |raw| && raw[q.value..] == r.value)
  {
    hide SkipCallId, SkipSpace, FindText, FindChar;
    assert raw[0..] == raw;
    var marker := Strstr(raw, 0, MARKER);
    if marker.None? {
      return None;
    }
    var comma := Strchr(raw, marker.value, ',');
    if comma.None? {
      return None;
    }
    assert raw[comma.value..][1..] == raw[comma.value + 1..];
    var p := SkipJsonSpace(raw, comma.value + 1);
    q := SkipIdField(raw, p);
  }

  method ReadStringAt(s: string, p: nat) returns (u: Option<string>)
    requires p <= |s|
    ensures u == FrontString(s[p..])
  {
    if p == |s| || s[p] != '"' {
      return None;
    }
    var end := JsonStringEnd(s, p + 1);
    StringEndSuffix(s, p, p + 1, false);
    if end.None? {
      return None;
    }
    assert s[p..][1..end.value - p] == s[p + 1..end.value];
    u := UnescapeWithin(s[p + 1..end.value]);
  }

  method ReadPayload(raw: string) returns (u: Option<string>)
    ensures u == Payload(raw)
  {
    var field := FindPayloadField(raw);
    if field.None? {
      return None;
    }
    u := ReadStringAt(raw, field.value);
  }

  /** Unescaping into a fresh buffer one longer than the escaped text, which is always long enough. */
  method UnescapeWithin(s: string) returns (u: Option<string>)
    ensures u == Unescape(s)
  {
    var buffer := new char[|s| + 1];
    UnescapeShrinks(s);
    var ok, n := JsonUnescapeString(s, buffer);
    return if ok then Some(buffer[..n]) else None;
  }

  method FollowPath(u: string) returns (q: Option<nat>)
    ensures q.Some? == Path(u).Some? && (q.Some? ==> q.value <= |u| && u[q.value..] == Path(u).value)
  {
    hide ArrayElement;
    assert u[0..] == u;
    q := GetJsonArrayElement(u, 0, 1);
    if q.Some? {
      q := GetJsonArrayElement(u, q.value, 0);
    }
    if q.Some? {
      q := GetJsonArrayElement(u, q.value, 0);
    }
    if q.Some? {
      q := GetJsonArrayElement(u, q.value, 5);
    }
  }

  method ParseByPattern(u: string, out: array<char>) returns (ok: bool, len: nat)
    requires out.Length > 0
    modifies out
    ensures var r := ByPattern(u, out.Length);
            ok == r.Some? && (ok ==> len == |r.value| <= out.Length && out[..len] == r.value)
  {
    assert u[0..] == u;
    var nulls := Strstr(u, 0, NULLS);
    if nulls.None? {
      return false, 0;
    }
    var list := Strchr(u, nulls.value, '[');
    if list.None? {
      return false, 0;
    }
    ok, len := ParseSegmentsList(u, list.value, out);
  }

  method ParseRpcResponse(raw: string, out: array<char>) returns (ok: bool, len: nat)
    modifies out
    ensures var r := ParseRpc(raw, out.Length);
            ok == r.Some? && (ok ==> len == |r.value| <= out.Length && out[..len] == r.value)
  {
    if out.Length == 0 {
      return false, 0;
    }
    var payload := ReadPayload(raw);
    if payload.None? {
      return false, 0;
    }
    var u := payload.value;
    var list := FollowPath(u);
    if list.Some? {
      ok, len := ParseSegmentsList(u, list.value, out);
      if ok {
        return;
      }
    }
    ok, len := ParseByPattern(u, out);
    if ok {
      return;
    }
    ok, len := ParseGtxResponse(u, out);
  }

  // ------------------------------------------------------------------ lemmas

  lemma {:induction false} UnescapeShrinks(s: string)
    ensures Unescape(s).Some? ==> |Unescape(s).value| <= |s|
    decreases |s|
  {
    if s != "" && Front(s).Some? {
      UnescapeShrinks(s[Front(s).value.consumed..]);
    }
  }

  lemma {:induction false} FirstComma(mid: string, rest: string)
    requires ',' !in mid
    ensures FindChar(',', mid + ("," + rest)) == Some("," + rest)
  {
    if mid == "" {
      assert mid + ("," + rest) == "," + rest;
    } else {
      assert (mid + ("," + rest))[1..] == mid[1..] + ("," + rest);
      FirstComma(mid[1..], rest);
    }
  }

  /** A JSON string in quotes, with what follows it. */
  function Quoted(body: string, rest: string): string { "\"" + body + "\"" + rest }

  lemma QuotedIsSolid(body: string, rest: string)
    ensures SkipSpace(Quoted(body, rest)) == Quoted(body, rest) && Quoted(body, rest)[0] == '"'
  {
  }

  /** The two fields behind the comma: the call's id and the payload. */
  function Fields(s1: string, id: string, s2: string, s3: string, body: string, after: string): string
  {
    s1 + Quoted(id, s2 + ("," + (s3 + Quoted(body, after))))
  }

  lemma IdIsSkipped(s1: string, id: string, s2: string, s3: string, body: string, after: string)
    requires Space(s1) && Space(s2) && Space(s3) && JsonValues.Body(id)
    ensures SkipCallId(SkipSpace(Fields(s1, id, s2, s3, body, after))) == Some(Quoted(body, after))
  {
    var more := s3 + Quoted(body, after);
    SkipSpaceOver(s1, Quoted(id, s2 + ("," + more)));
    QuotedIsSolid(id, s2 + ("," + more));
    SkipQuoted(id, s2 + ("," + more));
    SkipSpaceOver(s2, "," + more);
    assert ("," + more)[1..] == more;
    SkipSpaceOver(s3, Quoted(body, after));
    QuotedIsSolid(body, after);
  }

  lemma PayloadIsFound(raw: string, mid: string, fields: string, body: string, after: string)
    requires FindText(MARKER, raw) == Some(mid + ("," + fields)) && ',' !in mid
    requires SkipCallId(SkipSpace(fields)) == Some(Quoted(body, after)) && JsonValues.Body(body)
    ensures Payload(raw) == Unescape(body)
  {
    FirstComma(mid, fields);
    assert ("," + fields)[1..] == fields;
    EndOfBody(body, after, "\"");
    assert Quoted(body, after)[1..|body| + 1] == body;
  }

  predicate HasElement(v: Json, k: nat) { WellFormed(v) && v.Arr? && k < |v.items| }

  /** The list of segments in the shape the service documents by use: element [1][0][0][5]. */
  predicate Canonical(v: Json)
  {
    && HasElement(v, 1)
    && HasElement(v.items[1].value, 0)
    && HasElement(v.items[1].value.items[0].value, 0)
    && HasElement(v.items[1].value.items[0].value.items[0].value, 5)
    && var list := v.items[1].value.items[0].value.items[0].value.items[5].value;
       list.Arr? && forall i :: 0 <= i < |list.items| ==> SegmentShape(list.items[i])
  }

  function SegmentsOf(v: Json): seq<Item>
    requires Canonical(v)
    ensures forall i :: 0 <= i < |SegmentsOf(v)| ==> SegmentShape(SegmentsOf(v)[i])
  {
    v.items[1].value.items[0].value.items[0].value.items[5].value.items
  }

  lemma ElementText(v: Json, k: nat, rest: string) returns (after: string)
    requires HasElement(v, k)
    ensures ArrayElement(Render(v) + rest, k) == Some(Render(v.items[k].value) + after)
    ensures WellFormed(v.items[k].value)
  {
    ArrayElementIsFound(v, k, rest);
    after := v.items[k].after + (RenderTail(v.items[k + 1..]) + ("]" + rest));
    assert WellFormedItem(v.items[k]);
  }

  lemma PathFindsList(v: Json, size: nat)
    requires Canonical(v)
    ensures var joined := Joined(SegmentsOf(v), "", size);
            ByPath(Render(v), size) == if joined.Some? && joined.value != "" then joined else None
  {
    assert Render(v) + "" == Render(v);
    var r1 := ElementText(v, 1, "");
    var v1 := v.items[1].value;
    var r2 := ElementText(v1, 0, r1);
    var v2 := v1.items[0].value;
    var r3 := ElementText(v2, 0, r2);
    var v3 := v2.items[0].value;
    var r4 := ElementText(v3, 5, r3);
    var list := v3.items[5].value;
    assert "" + (Render(list) + r4) == Render(list) + r4;
    ListIsJoined(list, "", r4, size);
  }

  // ----------------------------------------------------------- main results

  /**
    For every answer whose payload string stands for a canonical JSON value, however that string is escaped, the parser
    returns the concatenated first strings of its segments, whenever they all unescape, fit and are not all empty.
   */
  lemma RpcReturnsConcatenation(raw: string, mid: string, s1: string, id: string, s2: string, s3: string,
                                body: string, v: Json, after: string, size: nat)
    requires ',' !in mid && Space(s1) && Space(s2) && Space(s3) && JsonValues.Body(id)
    requires Canonical(v) && JsonValues.Body(body) && Unescape(body) == Some(Render(v))
    requires FindText(MARKER, raw) == Some(mid + ("," + Fields(s1, id, s2, s3, body, after)))
    requires size > 0 && Joined(SegmentsOf(v), "", size).Some? && Joined(SegmentsOf(v), "", size).value != ""
    ensures ParseRpc(raw, size) == Joined(SegmentsOf(v), "", size)
  {
    IdIsSkipped(s1, id, s2, s3, body, after);
    PayloadIsFound(raw, mid, Fields(s1, id, s2, s3, body, after), body, after);
    PathFindsList(v, size);
  }

  /** The program's own escaping is one of the ways the payload string may be written. */
  lemma EscapedIsOneWay(v: Json)
    requires '\0' !in Render(v)
    ensures JsonValues.Body(Escape(Render(v))) && Unescape(Escape(Render(v))) == Some(Render(v))
  {
    EscapeIsBody(Render(v));
    UnescapeEscape(Render(v));
  }

  /**
    So it is for the answer that begins with the marker and carries any canonical value escaped as the program escapes:
    the parser undoes the escaping and finds the segments, for every value without a NUL.
   */
  lemma EscapedAnswerIsRead(mid: string, s1: string, id: string, s2: string, s3: string, v: Json, after: string,
                            size: nat)
    requires ',' !in mid && Space(s1) && Space(s2) && Space(s3) && JsonValues.Body(id)
    requires Canonical(v) && '\0' !in Render(v)
    requires size > 0 && Joined(SegmentsOf(v), "", size).Some? && Joined(SegmentsOf(v), "", size).value != ""
    ensures ParseRpc(MARKER + mid + ("," + Fields(s1, id, s2, s3, Escape(Render(v)), after)), size) ==
            Joined(SegmentsOf(v), "", size)
  {
    EscapedIsOneWay(v);
    assert ',' !in MARKER + mid;
    var raw := MARKER + mid + ("," + Fields(s1, id, s2, s3, Escape(Render(v)), after));
    assert raw[..|MARKER|] == MARKER;
    RpcReturnsConcatenation(raw, MARKER + mid, s1, id, s2, s3, Escape(Render(v)), v, after, size);
  }
}
