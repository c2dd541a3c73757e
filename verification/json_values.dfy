/**
  JSON documents with their insignificant whitespace, rendered as text, and what the scanners of the translation client
  make of that text. The rendering covers every value of RFC 8259 (and more: any run of plain characters counts as a
  literal, any backslash-balanced text as a string body), so the results hold for all well-formed responses.
 */
module JsonValues {
  import opened Captions
  import opened JsonText
  import opened JsonScan

  datatype Json =
    | Literal(text: string)
    | Str(body: string)
    | Arr(blank: string, items: seq<Item>)
    | Obj(space: string, members: seq<Member>)

  datatype Item = Item(before: string, value: Json, after: string)

  datatype Member = Member(key: string, colon: string, item: Item, lead: string)

  // -------------------------------------------------------------- rendering

  function Render(v: Json): string
    decreases v, 0
  {
    match v
    case Literal(text) => text
    case Str(body) => "\"" + body + "\""
    case Arr(blank, items) => "[" + (if items == [] then blank else RenderItems(items)) + "]"
    case Obj(space, members) => "{" + (if members == [] then space else RenderMembers(members)) + "}"
  }

  function RenderItem(i: Item): string
    decreases i, 1
  {
    i.before + Render(i.value) + i.after
  }

  function RenderItems(items: seq<Item>): string
    requires items != []
    decreases items, 2
  {
    RenderItem(items[0]) + RenderTail(items[1..])
  }

  /** The remaining items, each behind a comma. */
  function RenderTail(items: seq<Item>): string
    decreases items, 3
  {
    if items == [] then "" else "," + (RenderItem(items[0]) + RenderTail(items[1..]))
  }

  /** Optional whitespace, the key, a colon inside `colon`, the value. */
  function RenderMember(m: Member): string
    decreases m, 2
  {
    m.lead + ("\"" + m.key + "\"") + m.colon + RenderItem(m.item)
  }

  function RenderMembers(members: seq<Member>): string
    requires members != []
    decreases members, 3
  {
    RenderMember(members[0]) + RenderMemberTail(members[1..])
  }

  function RenderMemberTail(members: seq<Member>): string
    decreases members, 4
  {
    if members == [] then "" else "," + (RenderMember(members[0]) + RenderMemberTail(members[1..]))
  }

  // --------------------------------------------------------- well-formedness

  predicate Space(s: string)
  {
    forall i :: 0 <= i < |s| ==> IsSpace(s[i])
  }

  predicate PlainChar(c: char)
  {
    !EndsPrimitive(c) && c != '[' && c != '{' && c != '"'
  }

  predicate Plain(s: string)
  {
    s != "" && forall i :: 0 <= i < |s| ==> PlainChar(s[i])
  }

  /** No unescaped quote inside, and no escape left open at the end. */
  predicate Body(s: string)
    decreases |s|
  {
    || s == ""
    || (s[0] == '\\' && |s| >= 2 && Body(s[2..]))
    || (s[0] != '\\' && s[0] != '"' && Body(s[1..]))
  }

  /** A colon with whitespace around it. */
  predicate Colon(s: string)
  {
    exists i: nat :: i < |s| && s[i] == ':' && Space(s[..i]) && Space(s[i + 1..])
  }

  predicate WellFormed(v: Json)
    decreases v, 0
  {
    match v
    case Literal(text) => Plain(text)
    case Str(body) => Body(body)
    case Arr(blank, items) => Space(blank) && forall i :: 0 <= i < |items| ==> WellFormedItem(items[i])
    case Obj(space, members) => Space(space) && forall i :: 0 <= i < |members| ==> WellFormedMember(members[i])
  }

  predicate WellFormedItem(i: Item)
    decreases i, 1
  {
    Space(i.before) && WellFormed(i.value) && Space(i.after)
  }

  predicate WellFormedMember(m: Member)
    decreases m, 2
  {
    Space(m.lead) && Body(m.key) && Colon(m.colon) && WellFormedItem(m.item)
  }

  // ---------------------------------------------------- walking over a value

  lemma Four(a: string, b: string, c: string, d: string)
    ensures a + b + c + d == a + (b + (c + d))
  {
  }

  lemma Three(a: string, b: string, c: string)
    ensures a + b + c == a + (b + c)
  {
  }

  /** Behind the opening character of a bracketed text. */
  lemma Inside(a: string, inner: string, z: string, rest: string)
    requires |a| == 1
    ensures (a + inner + z + rest)[1..] == inner + (z + rest)
  {
  }

  /** A character that the bracket walk ignores outside strings. */
  predicate Inert(c: char)
  {
    c != '"' && c != '[' && c != ']' && c != '{' && c != '}'
  }

  predicate Kind(start: char, stop: char)
  {
    (start == '[' && stop == ']') || (start == '{' && stop == '}')
  }

  lemma {:induction false} WalkInert(t: string, rest: string, start: char, stop: char, depth: int)
    requires Kind(start, stop) && forall i :: 0 <= i < |t| ==> Inert(t[i])
    ensures Nested(t + rest, start, stop, depth, false, false) == Nested(rest, start, stop, depth, false, false)
  {
    if t == "" {
      assert t + rest == rest;
    } else {
      assert (t + rest)[1..] == t[1..] + rest;
      WalkInert(t[1..], rest, start, stop, depth);
    }
  }

  lemma {:induction false} WalkBody(body: string, rest: string, start: char, stop: char, depth: int)
    requires Body(body)
    ensures Nested(body + "\"" + rest, start, stop, depth, true, false) == Nested(rest, start, stop, depth, false, false)
    decreases |body|
  {
    var s := body + "\"" + rest;
    if body == "" {
      assert s == "\"" + rest && s[1..] == rest;
    } else if body[0] == '\\' {
      assert s[1..][1..] == body[2..] + "\"" + rest;
      WalkBody(body[2..], rest, start, stop, depth);
    } else {
      assert s[1..] == body[1..] + "\"" + rest;
      WalkBody(body[1..], rest, start, stop, depth);
    }
  }

  lemma WalkString(body: string, rest: string, start: char, stop: char, depth: int)
    requires Body(body) && Kind(start, stop)
    ensures Nested("\"" + body + "\"" + rest, start, stop, depth, false, false) ==
            Nested(rest, start, stop, depth, false, false)
  {
    assert ("\"" + body + "\"" + rest)[1..] == body + "\"" + rest;
    WalkBody(body, rest, start, stop, depth);
  }

  /** At depth one or more, walking over a rendered value changes nothing. */
  lemma {:induction false} WalkValue(v: Json, rest: string, start: char, stop: char, depth: int)
    requires WellFormed(v) && Kind(start, stop) && depth >= 1
    ensures Nested(Render(v) + rest, start, stop, depth, false, false) == Nested(rest, start, stop, depth, false, false)
    decreases v, 1
  {
    match v
    case Literal(text) => WalkInert(text, rest, start, stop, depth);
    case Str(body) => WalkString(body, rest, start, stop, depth);
    case Arr(_, _) => WalkArray(v, rest, start, stop, depth);
    case Obj(_, _) => WalkObject(v, rest, start, stop, depth);
  }

  lemma {:induction false} WalkArray(v: Json, rest: string, start: char, stop: char, depth: int)
    requires v.Arr? && WellFormed(v) && Kind(start, stop) && depth >= 1
    ensures Nested(Render(v) + rest, start, stop, depth, false, false) == Nested(rest, start, stop, depth, false, false)
    decreases v, 0
  {
    var inner := if v.items == [] then v.blank else RenderItems(v.items);
    var inside := if start == '[' then depth + 1 else depth;
    assert (Render(v) + rest)[1..] == inner + ("]" + rest);
    if v.items == [] {
      WalkInert(v.blank, "]" + rest, start, stop, inside);
    } else {
      WalkItems(v.items, "]" + rest, start, stop, inside);
    }
    assert ("]" + rest)[1..] == rest;
  }

  lemma {:induction false} WalkObject(v: Json, rest: string, start: char, stop: char, depth: int)
    requires v.Obj? && WellFormed(v) && Kind(start, stop) && depth >= 1
    ensures Nested(Render(v) + rest, start, stop, depth, false, false) == Nested(rest, start, stop, depth, false, false)
    decreases v, 0
  {
    var inner := if v.members == [] then v.space else RenderMembers(v.members);
    var inside := if start == '{' then depth + 1 else depth;
    assert (Render(v) + rest)[1..] == inner + ("}" + rest);
    if v.members == [] {
      WalkInert(v.space, "}" + rest, start, stop, inside);
    } else {
      WalkMembers(v.members, "}" + rest, start, stop, inside);
    }
    assert ("}" + rest)[1..] == rest;
  }

  lemma {:induction false} WalkItem(i: Item, rest: string, start: char, stop: char, depth: int)
    requires WellFormedItem(i) && Kind(start, stop) && depth >= 1
    ensures Nested(RenderItem(i) + rest, start, stop, depth, false, false) == Nested(rest, start, stop, depth, false, false)
    decreases i, 1
  {
    assert RenderItem(i) + rest == i.before + (Render(i.value) + (i.after + rest));
    WalkInert(i.before, Render(i.value) + (i.after + rest), start, stop, depth);
    WalkValue(i.value, i.after + rest, start, stop, depth);
    WalkInert(i.after, rest, start, stop, depth);
  }

  lemma {:induction false} WalkItems(items: seq<Item>, rest: string, start: char, stop: char, depth: int)
    requires items != [] && Kind(start, stop) && depth >= 1
    requires forall i :: 0 <= i < |items| ==> WellFormedItem(items[i])
    ensures Nested(RenderItems(items) + rest, start, stop, depth, false, false) ==
            Nested(rest, start, stop, depth, false, false)
    decreases items, 2
  {
    assert RenderItems(items) + rest == RenderItem(items[0]) + (RenderTail(items[1..]) + rest);
    WalkItem(items[0], RenderTail(items[1..]) + rest, start, stop, depth);
    WalkTail(items[1..], rest, start, stop, depth);
  }

  lemma {:induction false} WalkTail(items: seq<Item>, rest: string, start: char, stop: char, depth: int)
    requires Kind(start, stop) && depth >= 1
    requires forall i :: 0 <= i < |items| ==> WellFormedItem(items[i])
    ensures Nested(RenderTail(items) + rest, start, stop, depth, false, false) ==
            Nested(rest, start, stop, depth, false, false)
    decreases items, 3
  {
    if items == [] {
      assert RenderTail(items) + rest == rest;
    } else {
      assert RenderTail(items) + rest == "," + (RenderItem(items[0]) + (RenderTail(items[1..]) + rest));
      WalkInert(",", RenderItem(items[0]) + (RenderTail(items[1..]) + rest), start, stop, depth);
      WalkItem(items[0], RenderTail(items[1..]) + rest, start, stop, depth);
      WalkTail(items[1..], rest, start, stop, depth);
    }
  }

  lemma {:induction false} WalkMember(m: Member, rest: string, start: char, stop: char, depth: int)
    requires WellFormedMember(m) && Kind(start, stop) && depth >= 1
    ensures Nested(RenderMember(m) + rest, start, stop, depth, false, false) ==
            Nested(rest, start, stop, depth, false, false)
    decreases m, 2
  {
    var value := RenderItem(m.item) + rest;
    assert RenderMember(m) + rest == m.lead + ("\"" + m.key + "\"" + (m.colon + value));
    WalkInert(m.lead, "\"" + m.key + "\"" + (m.colon + value), start, stop, depth);
    WalkString(m.key, m.colon + value, start, stop, depth);
    ColonIsInert(m.colon);
    WalkInert(m.colon, value, start, stop, depth);
    WalkItem(m.item, rest, start, stop, depth);
  }

  lemma ColonIsInert(s: string)
    requires Colon(s)
    ensures forall i :: 0 <= i < |s| ==> Inert(s[i])
  {
  }

  lemma {:induction false} WalkMembers(members: seq<Member>, rest: string, start: char, stop: char, depth: int)
    requires members != [] && Kind(start, stop) && depth >= 1
    requires forall i :: 0 <= i < |members| ==> WellFormedMember(members[i])
    ensures Nested(RenderMembers(members) + rest, start, stop, depth, false, false) ==
            Nested(rest, start, stop, depth, false, false)
    decreases members, 3
  {
    assert RenderMembers(members) + rest == RenderMember(members[0]) + (RenderMemberTail(members[1..]) + rest);
    WalkMember(members[0], RenderMemberTail(members[1..]) + rest, start, stop, depth);
    WalkMemberTail(members[1..], rest, start, stop, depth);
  }

  lemma {:induction false} WalkMemberTail(members: seq<Member>, rest: string, start: char, stop: char, depth: int)
    requires Kind(start, stop) && depth >= 1
    requires forall i :: 0 <= i < |members| ==> WellFormedMember(members[i])
    ensures Nested(RenderMemberTail(members) + rest, start, stop, depth, false, false) ==
            Nested(rest, start, stop, depth, false, false)
    decreases members, 4
  {
    if members == [] {
      assert RenderMemberTail(members) + rest == rest;
    } else {
      var after := RenderMemberTail(members[1..]) + rest;
      assert RenderMemberTail(members) + rest == "," + (RenderMember(members[0]) + after);
      WalkInert(",", RenderMember(members[0]) + after, start, stop, depth);
      WalkMember(members[0], after, start, stop, depth);
      WalkMemberTail(members[1..], rest, start, stop, depth);
    }
  }

  // ----------------------------------------------------------- main results

  lemma {:induction false} SkipSpaceOver(blank: string, rest: string)
    requires Space(blank)
    ensures SkipSpace(blank + rest) == SkipSpace(rest)
  {
    if blank == "" {
      assert blank + rest == rest;
    } else {
      assert (blank + rest)[1..] == blank[1..] + rest;
      SkipSpaceOver(blank[1..], rest);
    }
  }

  lemma {:induction false} EndOfBody(body: string, rest: string, before: string)
    requires Body(body)
    ensures var s := before + body + "\"" + rest;
            StringEnd(s, |before|, false) == Some(|before| + |body|)
    decreases |body|
  {
    var s := before + body + "\"" + rest;
    if body != "" {
      if body[0] == '\\' {
        var longer := before + body[..2];
        assert s == longer + body[2..] + "\"" + rest;
        EndOfBody(body[2..], rest, longer);
      } else {
        var longer := before + body[..1];
        assert s == longer + body[1..] + "\"" + rest;
        EndOfBody(body[1..], rest, longer);
      }
    }
  }

  lemma {:induction false} SkipPlain(text: string, rest: string)
    requires (forall i :: 0 <= i < |text| ==> PlainChar(text[i])) && (rest == "" || EndsPrimitive(rest[0]))
    ensures SkipPrimitive(text + rest) == rest
  {
    if text == "" {
      assert text + rest == rest;
    } else {
      assert (text + rest)[1..] == text[1..] + rest;
      SkipPlain(text[1..], rest);
    }
  }

  lemma SkipArray(blank: string, items: seq<Item>, rest: string)
    requires WellFormed(Arr(blank, items))
    ensures Nested(Render(Arr(blank, items)) + rest, '[', ']', 0, false, false) == Some(rest)
  {
    var s := Render(Arr(blank, items)) + rest;
    var inner := if items == [] then blank else RenderItems(items);
    assert s[1..] == inner + ("]" + rest);
    if items == [] {
      WalkInert(blank, "]" + rest, '[', ']', 1);
    } else {
      WalkItems(items, "]" + rest, '[', ']', 1);
    }
    assert ("]" + rest)[1..] == rest;
  }

  lemma SkipObject(space: string, members: seq<Member>, rest: string)
    requires WellFormed(Obj(space, members))
    ensures Nested(Render(Obj(space, members)) + rest, '{', '}', 0, false, false) == Some(rest)
  {
    var s := Render(Obj(space, members)) + rest;
    var inner := if members == [] then space else RenderMembers(members);
    assert s[1..] == inner + ("}" + rest);
    if members == [] {
      WalkInert(space, "}" + rest, '{', '}', 1);
    } else {
      WalkMembers(members, "}" + rest, '{', '}', 1);
    }
    assert ("}" + rest)[1..] == rest;
  }

  lemma SkipQuoted(body: string, rest: string)
    requires Body(body)
    ensures SkipString("\"" + body + "\"" + rest) == Some(rest)
  {
    EndOfBody(body, rest, "\"");
    assert ("\"" + body + "\"" + rest)[|body| + 2..] == rest;
  }

  /** Skipping a rendered value stops exactly at its end, for every value followed by a delimiter or the end. */
  lemma SkipValueStopsAtEnd(v: Json, rest: string)
    requires WellFormed(v) && (rest == "" || EndsPrimitive(rest[0]))
    ensures SkipValue(Render(v) + rest) == Some(rest)
  {
    RenderIsSolid(v, rest);
    match v
    case Literal(text) => SkipPlain(text, rest);
    case Str(body) => SkipQuoted(body, rest);
    case Arr(blank, items) => SkipArray(blank, items, rest);
    case Obj(space, members) => SkipObject(space, members, rest);
  }

  lemma RenderIsSolid(v: Json, rest: string)
    requires WellFormed(v)
    ensures Render(v) != "" && !IsSpace(Render(v)[0]) && Render(v)[0] != ']' && Render(v)[0] != ','
    ensures SkipSpace(Render(v) + rest) == Render(v) + rest
  {
  }

  /** Skipping an element and the separator behind it. */
  lemma NextAfterItem(i: Item, tail: string)
    requires WellFormedItem(i) && tail != "" && (tail[0] == ',' || tail[0] == ']')
    ensures NextStart(Render(i.value) + (i.after + tail)) == if tail[0] == ',' then Some(tail[1..]) else None
  {
    assert (i.after + tail)[0] == if i.after == "" then tail[0] else i.after[0];
    SkipValueStopsAtEnd(i.value, i.after + tail);
    SkipSpaceOver(i.after, tail);
  }

  /** The text of an array behind its bracket, split after the first element. */
  lemma ItemsText(items: seq<Item>, rest: string)
    requires items != []
    ensures var first, tail := items[0], RenderTail(items[1..]) + ("]" + rest);
            && RenderItems(items) + ("]" + rest) == first.before + (Render(first.value) + (first.after + tail))
            && tail != "" && tail[0] == (if |items| > 1 then ',' else ']')
            && (|items| > 1 ==> tail[1..] == RenderItems(items[1..]) + ("]" + rest))
  {
    var first, close := items[0], "]" + rest;
    Three(RenderItem(first), RenderTail(items[1..]), close);
    Four(first.before, Render(first.value), first.after, RenderTail(items[1..]) + close);
    if |items| > 1 {
      TailText(items[1..], close);
    } else {
      assert RenderTail([]) + close == close;
    }
  }

  lemma TailText(items: seq<Item>, close: string)
    requires items != []
    ensures (RenderTail(items) + close)[0] == ',' && (RenderTail(items) + close)[1..] == RenderItems(items) + close
  {
  }

  /** From element 0 on: element k's own text comes first in what is returned, or nothing past the end. */
  lemma {:induction false} ElementsAreFound(items: seq<Item>, k: nat, rest: string)
    requires items != [] && forall i :: 0 <= i < |items| ==> WellFormedItem(items[i])
    ensures ElementFrom(RenderItems(items) + ("]" + rest), k) ==
            if k < |items|
            then Some(Render(items[k].value) + (items[k].after + (RenderTail(items[k + 1..]) + ("]" + rest))))
            else None
    decreases |items|
  {
    var first, tail := items[0], RenderTail(items[1..]) + ("]" + rest);
    var text := Render(first.value) + (first.after + tail);
    assert WellFormedItem(items[0]);
    ItemsText(items, rest);
    SkipSpaceOver(first.before, text);
    RenderIsSolid(first.value, first.after + tail);
    if k > 0 {
      NextAfterItem(first, tail);
      if |items| > 1 {
        var others := items[1..];
        ElementsAreFound(others, k - 1, rest);
        assert k < |items| ==> others[k - 1] == items[k] && others[k..] == items[k + 1..];
      }
    }
  }

  /** Looking up element k of a rendered array points at that element, and at nothing past the end. */
  lemma ArrayElementIsFound(v: Json, k: nat, rest: string)
    requires WellFormed(v) && v.Arr?
    ensures ArrayElement(Render(v) + rest, k) ==
            if k < |v.items|
            then Some(Render(v.items[k].value) + (v.items[k].after + (RenderTail(v.items[k + 1..]) + ("]" + rest))))
            else None
  {
    var inner := if v.items == [] then v.blank else RenderItems(v.items);
    RenderIsSolid(v, rest);
    Inside("[", inner, "]", rest);
    assert (Render(v) + rest)[1..] == inner + ("]" + rest);
    if v.items == [] {
      SkipSpaceOver(v.blank, "]" + rest);
    } else {
      ElementsAreFound(v.items, k, rest);
    }
  }
}
