/**
  The form body of the translation request: the text is JSON-escaped into an array, the array is JSON-escaped again into
  an envelope, and the envelope is percent-encoded. Every intermediate buffer is bounded, as in the program.
 */
module RpcBody {
  import opened Captions
  import opened JsonText
  import opened JsonScan
  import opened JsonValues

  const RPC_JSON_BYTES: nat := MAX_TEXT_BYTES * 8 + 512
  const RPC_BODY_BYTES: nat := 65536

  // The fixed parts of the two JSON layers, cut where the strings stand.
  const Open: string := "[[\""
  const Between: string := "\",\""
  const Close: string := "\",true],[null]]"
  const Head: string := "[[[\"MkEWBc\",\""
  const Foot: string := ",null,\"generic\"]]]"

  /** What follows the text's closing quote in the inner array. */
  function Tags(from: string, to: string): string
  {
    ",\"" + Escape(from) + Between + Escape(to) + Close
  }

  function Inner(text: string, from: string, to: string): string
  {
    Open + Escape(text) + "\"" + Tags(from, to)
  }

  function Envelope(inner: string): string
  {
    Head + Escape(inner) + "\"" + Foot
  }

  function Body(text: string, from: string, to: string): string
    requires Bytes(text) && Bytes(from) && Bytes(to)
  {
    EnvelopeBytes(text, from, to);
    "f.req=" + UrlEncode(Envelope(Inner(text, from, to)))
  }

  lemma {:induction false} EscapeBytes(s: string)
    requires Bytes(s)
    ensures Bytes(Escape(s))
  {
    hide EscapeChar, Bytes;
    if s != "" {
      RestBytes(s);
      EscapeBytes(s[1..]);
      BytesConcat(EscapeChar(s[0]), Escape(s[1..]));
    }
  }

  lemma RestBytes(s: string)
    requires Bytes(s) && s != ""
    ensures Bytes(s[1..]) && Bytes(EscapeChar(s[0]))
  {
  }

  lemma BytesConcat(a: string, b: string)
    requires Bytes(a) && Bytes(b)
    ensures Bytes(a + b)
  {
  }

  lemma TagsBytes(from: string, to: string)
    requires Bytes(from) && Bytes(to)
    ensures Bytes(Tags(from, to))
  {
    hide Escape;
    EscapeBytes(from);
    EscapeBytes(to);
    BytesConcat(",\"", Escape(from));
    BytesConcat(",\"" + Escape(from), Between);
    BytesConcat(",\"" + Escape(from) + Between, Escape(to));
    BytesConcat(",\"" + Escape(from) + Between + Escape(to), Close);
  }

  lemma InnerBytes(text: string, from: string, to: string)
    requires Bytes(text) && Bytes(from) && Bytes(to)
    ensures Bytes(Inner(text, from, to))
  {
    hide Escape, Tags;
    TagsBytes(from, to);
    EscapeBytes(text);
    BytesConcat(Open, Escape(text));
    BytesConcat(Open + Escape(text), "\"");
    BytesConcat(Open + Escape(text) + "\"", Tags(from, to));
  }

  lemma EnvelopeIsBytes(inner: string)
    requires Bytes(inner)
    ensures Bytes(Envelope(inner))
  {
    hide Escape;
    EscapeBytes(inner);
    BytesConcat(Head, Escape(inner));
    BytesConcat(Head + Escape(inner), "\"");
    BytesConcat(Head + Escape(inner) + "\"", Foot);
  }

  lemma EnvelopeBytes(text: string, from: string, to: string)
    requires Bytes(text) && Bytes(from) && Bytes(to)
    ensures Bytes(Envelope(Inner(text, from, to)))
  {
    InnerBytes(text, from, to);
    EnvelopeIsBytes(Inner(text, from, to));
  }

  /** Printable text at most doubles when escaped. */
  lemma {:induction false} EscapeDoubles(s: string)
    requires Printable(s)
    ensures |Escape(s)| <= 2 * |s|
  {
    if s != "" {
      EscapeDoubles(s[1..]);
    }
  }

  predicate Printable(s: string)
  {
    forall i :: 0 <= i < |s| ==> s[i] as int >= 0x20
  }

  lemma PrintableConcat(a: string, b: string)
    requires Printable(a) && Printable(b)
    ensures Printable(a + b)
  {
  }

  lemma InnerIsPrintable(text: string, from: string, to: string)
    ensures Printable(Inner(text, from, to))
    ensures |Inner(text, from, to)| == |Escape(text)| + |Escape(from)| + |Escape(to)| + 24
  {
    PrintableConcat(",\"", Escape(from));
    PrintableConcat(",\"" + Escape(from), Between);
    PrintableConcat(",\"" + Escape(from) + Between, Escape(to));
    PrintableConcat(",\"" + Escape(from) + Between + Escape(to), Close);
    PrintableConcat(Open, Escape(text));
    PrintableConcat(Open + Escape(text), "\"");
    PrintableConcat(Open + Escape(text) + "\"", Tags(from, to));
  }

  /** A text of at most 1024 bytes with tags of at most 15 fits every buffer on the way. */
  lemma EverythingFits(text: string, from: string, to: string)
    requires Bytes(text) && Bytes(from) && Bytes(to)
    requires |text| <= MAX_TEXT_BYTES && |from| <= 15 && |to| <= 15
    ensures |Escape(text)| < MAX_TEXT_BYTES * 6 + 1 && |Escape(from)| < 128 && |Escape(to)| < 128
    ensures |Inner(text, from, to)| < RPC_JSON_BYTES
    ensures |Escape(Inner(text, from, to))| < RPC_JSON_BYTES * 2
    ensures |Envelope(Inner(text, from, to))| < RPC_JSON_BYTES * 2 + 128
    ensures Bytes(Envelope(Inner(text, from, to)))
    ensures |UrlEncode(Envelope(Inner(text, from, to)))| < RPC_BODY_BYTES - 16
    ensures |Body(text, from, to)| < RPC_BODY_BYTES
  {
    EnvelopeBytes(text, from, to);
    InnerIsPrintable(text, from, to);
    EscapeDoubles(Inner(text, from, to));
  }

  /** The program's function; `size` is the size of the caller's buffer. */
  method BuildRpcBody(text: string, from: string, to: string, size: nat) returns (body: Option<string>)
    requires Bytes(text) && Bytes(from) && Bytes(to)
    ensures body.Some? ==> body.value == Body(text, from, to) && |body.value| < size
    ensures |text| <= MAX_TEXT_BYTES && |from| <= 15 && |to| <= 15 ==>
              (body.Some? <==> |Body(text, from, to)| < size)
  {
    EnvelopeBytes(text, from, to);
    if |text| <= MAX_TEXT_BYTES && |from| <= 15 && |to| <= 15 {
      EverythingFits(text, from, to);
    }
    if size == 0 {
      return None;
    }
    var escapedText := EscapeWithin(text, MAX_TEXT_BYTES * 6 + 1);
    var escapedFrom := EscapeWithin(from, 128);
    var escapedTo := EscapeWithin(to, 128);
    if escapedText.None? || escapedFrom.None? || escapedTo.None? {
      return None;
    }
    var tags := ",\"" + escapedFrom.value + Between + escapedTo.value + Close;
    var inner := Open + escapedText.value + "\"" + tags;
    if |inner| >= RPC_JSON_BYTES {
      return None;
    }
    var escapedInner := EscapeWithin(inner, RPC_JSON_BYTES * 2);
    if escapedInner.None? {
      return None;
    }
    var rpc := Head + escapedInner.value + "\"" + Foot;
    if |rpc| >= RPC_JSON_BYTES * 2 + 128 {
      return None;
    }
    var encoded := new char[RPC_BODY_BYTES - 16];
    var ok, n := UrlEncodeInto(rpc, encoded);
    if !ok {
      return None;
    }
    var result := "f.req=" + encoded[..n];
    return if |result| < size then Some(result) else None;
  }

  /** Escaping into a fresh buffer of the given size. */
  method EscapeWithin(s: string, size: nat) returns (r: Option<string>)
    requires size > 0
    ensures r == if |Escape(s)| < size then Some(Escape(s)) else None
  {
    var buffer := new char[size];
    var ok, n := JsonEscapeString(s, buffer);
    return if ok then Some(buffer[..n]) else None;
  }

  // ------------------------------------------------------------- round trip

  /** The string that starts at position `from`, unescaped. */
  function StringAt(s: string, from: nat): Option<string>
    requires from <= |s|
  {
    var end := StringEnd(s, from, false);
    if end.None? then None else Unescape(s[from..end.value])
  }

  /** Undoing the three layers: percent-decode, take the envelope's string, take the array's first string. */
  function Recover(body: string): Option<string>
  {
    if |body| < 6 then None
    else
      var rpc := UrlDecode(body[6..]);
      if rpc.None? || |rpc.value| < |Head| then None
      else
        var inner := StringAt(rpc.value, |Head|);
        if inner.None? || |inner.value| < 3 then None else StringAt(inner.value, 3)
  }

  lemma {:induction false} EscapeIsBody(s: string)
    requires '\0' !in s
    ensures JsonValues.Body(Escape(s))
  {
    if s != "" {
      EscapeIsBody(s[1..]);
      PieceIsBody(s[0], Escape(s[1..]));
    }
  }

  lemma {:induction false} PlainPrefixIsBody(plain: string, rest: string)
    requires JsonValues.Body(rest) && '\\' !in plain && '"' !in plain
    ensures JsonValues.Body(plain + rest)
  {
    if plain == "" {
      assert plain + rest == rest;
    } else {
      PlainPrefixIsBody(plain[1..], rest);
      assert (plain + rest)[1..] == plain[1..] + rest;
    }
  }

  lemma HexIsPlain(n: nat)
    requires n < 16
    ensures HexDigit(n) != '\\' && HexDigit(n) != '"'
  {
  }

  lemma PieceIsBody(c: char, rest: string)
    requires JsonValues.Body(rest)
    ensures JsonValues.Body(EscapeChar(c) + rest)
  {
    var piece := EscapeChar(c);
    if |piece| == 1 {
      PlainPrefixIsBody(piece, rest);
    } else {
      if |piece| == 6 {
        HexIsPlain(c as int / 16);
        HexIsPlain(c as int % 16);
      }
      PlainPrefixIsBody(piece[2..], rest);
      assert (piece + rest)[2..] == piece[2..] + rest;
    }
  }

  lemma StringAtEscape(before: string, text: string, after: string)
    requires '\0' !in text
    ensures StringAt(before + Escape(text) + "\"" + after, |before|) == Some(text)
  {
    EscapeIsBody(text);
    EndOfBody(Escape(text), after, before);
    UnescapeEscape(text);
    Middle(before, Escape(text), "\"" + after);
    Three(before + Escape(text), "\"", after);
  }

  lemma Middle(a: string, b: string, c: string)
    ensures (a + b + c)[|a|..|a| + |b|] == b
  {
  }

  /** Decoding the request body gives back the text exactly, for every NUL-free byte text and every pair of tags. */
  lemma RecoverBody(text: string, from: string, to: string)
    requires Bytes(text) && Bytes(from) && Bytes(to) && '\0' !in text
    ensures Recover(Body(text, from, to)) == Some(text)
  {
    var inner := Inner(text, from, to);
    EnvelopeBytes(text, from, to);
    InnerIsPrintable(text, from, to);
    UrlDecodeEncode(Envelope(inner));
    assert Body(text, from, to)[6..] == UrlEncode(Envelope(inner));
    StringAtEscape(Head, inner, Foot);
    StringAtEscape(Open, text, Tags(from, to));
  }
}
