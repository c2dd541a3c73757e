/** The text codecs of the translation client. */
module JsonText {
  // JSON string escaping, JSON string unescaping and percent-encoding, each as a loop that fills a bounded buffer,
  // against functions on texts. A text is a sequence of bytes written as characters below 256; the terminating NUL of a
  // C string is not part of it.

  import opened Captions

  // ------------------------------------------------------------ hexadecimal

  function HexDigit(n: nat): char
    requires n < 16
  {
    "0123456789ABCDEF"[n]
  }

  function HexValue(c: char): (n: int)
    ensures -1 <= n < 16
  {
    if '0' <= c <= '9' then c as int - '0' as int
    else if 'a' <= c <= 'f' then c as int - 'a' as int + 10
    else if 'A' <= c <= 'F' then c as int - 'A' as int + 10
    else -1
  }

  lemma HexInverse(n: nat)
    requires n < 16
    ensures HexValue(HexDigit(n)) == n
  {
  }

  /** The value of four hexadecimal digits, or -1. */
  function Hex4(s: string): (code: int)
    requires |s| == 4
    ensures -1 <= code < 0x1_0000
  {
    if exists i: nat | i < 4 :: HexValue(s[i]) < 0 then -1
    else HexValue(s[0]) * 4096 + HexValue(s[1]) * 256 + HexValue(s[2]) * 16 + HexValue(s[3])
  }

  // ----------------------------------------------------------------- escape

  function EscapeChar(c: char): (s: string)
    ensures 1 <= |s| <= 6
    ensures forall i :: 0 <= i < |s| ==> s[i] as int >= 0x20
  {
    if c == '"' then "\\\""
    else if c == '\\' then "\\\\"
    else if c == '\U{08}' then "\\b"
    else if c == '\U{0C}' then "\\f"
    else if c == '\n' then "\\n"
    else if c == '\r' then "\\r"
    else if c == '\t' then "\\t"
    else if c as int < 0x20 then "\\u00" + [HexDigit(c as int / 16), HexDigit(c as int % 16)]
    else [c]
  }

  function Escape(s: string): (r: string)
    ensures |s| <= |r| <= 6 * |s|
    ensures forall i :: 0 <= i < |r| ==> r[i] as int >= 0x20
  {
    if s == "" then "" else EscapeChar(s[0]) + Escape(s[1..])
  }

  /** Fills `dst` with the escaped text and a terminator, or fails when it does not fit. */
  method JsonEscapeString(src: string, dst: array<char>) returns (ok: bool, out: nat)
    requires dst.Length > 0
    modifies dst
    ensures ok == (|Escape(src)| < dst.Length)
    ensures ok ==> out == |Escape(src)| && dst[..out] == Escape(src) && dst[out] == '\0'
  {
    out := 0;
    ghost var done := "";
    var i := 0;
    while i < |src|
      invariant i <= |src| && out < dst.Length
      invariant dst[..out] == done && Escape(src) == done + Escape(src[i..])
    {
      var piece := EscapeChar(src[i]);
      EscapeStep(src, i);
      Regroup(done, piece, Escape(src[i + 1..]));
      if out + |piece| >= dst.Length {
        return false, out;
      }
      done := AppendPiece(piece, dst, out, done);
      out := out + |piece|;
      i := i + 1;
    }
    assert src[i..] == "";
    dst[out] := '\0';
    return true, out;
  }

  lemma EscapeStep(src: string, i: nat)
    requires i < |src|
    ensures Escape(src[i..]) == EscapeChar(src[i]) + Escape(src[i + 1..])
  {
  }

  lemma Regroup(done: string, piece: string, rest: string)
    ensures done + (piece + rest) == done + piece + rest
    ensures |done + (piece + rest)| >= |done| + |piece|
  {
  }

  /** The byte-by-byte stores of one piece behind what is already there. */
  method AppendPiece(piece: string, dst: array<char>, at: nat, ghost done: string) returns (ghost longer: string)
    requires at + |piece| <= dst.Length && dst[..at] == done
    modifies dst
    ensures longer == done + piece && dst[..at + |piece|] == longer
  {
    var k := 0;
    while k < |piece|
      invariant k <= |piece|
      invariant dst[..at + k] == done + piece[..k]
    {
      dst[at + k] := piece[k];
      k := k + 1;
    }
    longer := done + piece;
  }

  // --------------------------------------------------------------- unescape

  /** The UTF-8 bytes of a Unicode scalar value other than NUL. */
  function Utf8Bytes(code: int): (s: Option<string>)
    ensures s.Some? ==> 1 <= |s.value| <= 4
  {
    if code <= 0 || code > 0x10_FFFF || 0xD800 <= code <= 0xDFFF then None
    else if code <= 0x7F then Some([code as char])
    else if code <= 0x7FF then Some([(0xC0 + code / 64) as char, (0x80 + code % 64) as char])
    else if code <= 0xFFFF then
      Some([(0xE0 + code / 4096) as char, (0x80 + code / 64 % 64) as char, (0x80 + code % 64) as char])
    else
      Some([(0xF0 + code / 262144) as char, (0x80 + code / 4096 % 64) as char, (0x80 + code / 64 % 64) as char,
            (0x80 + code % 64) as char])
  }

  function Simple(c: char): Option<char>
  {
    if c == '"' || c == '\\' || c == '/' then Some(c)
    else if c == 'b' then Some('\U{08}')
    else if c == 'f' then Some('\U{0C}')
    else if c == 'n' then Some('\n')
    else if c == 'r' then Some('\r')
    else if c == 't' then Some('\t')
    else None
  }

  datatype Unit = Unit(text: string, consumed: nat)

  /** What the front of an escaped text stands for and how many characters it takes; None when it is malformed. */
  function Front(s: string): (u: Option<Unit>)
    requires s != ""
    ensures u.Some? ==> 1 <= u.value.consumed <= |s| && 1 <= |u.value.text|
  {
    if s[0] as int < 0x20 then None
    else if s[0] != '\\' then Some(Unit([s[0]], 1))
    else if |s| < 2 then None
    else if Simple(s[1]).Some? then Some(Unit([Simple(s[1]).value], 2))
    else if s[1] != 'u' || |s| < 6 || Hex4(s[2..6]) < 0 then None
    else
      var high := Hex4(s[2..6]);
      if 0xD800 <= high <= 0xDBFF then
        if |s| < 12 || s[6] != '\\' || s[7] != 'u' || !(0xDC00 <= Hex4(s[8..12]) <= 0xDFFF) then None
        else
          var pair := Utf8Bytes(0x1_0000 + (high - 0xD800) * 1024 + (Hex4(s[8..12]) - 0xDC00));
          if pair.None? then None else Some(Unit(pair.value, 12))
      else
        var bytes := Utf8Bytes(high);
        if bytes.None? then None else Some(Unit(bytes.value, 6))
  }

  function Unescape(s: string): (t: Option<string>)
    decreases |s|
  {
    if s == "" then Some("")
    else
      var u := Front(s);
      if u.None? then None
      else
        var rest := Unescape(s[u.value.consumed..]);
        if rest.None? then None else Some(u.value.text + rest.value)
  }

  function After(done: string, rest: Option<string>): Option<string>
  {
    if rest.None? then None else Some(done + rest.value)
  }

  lemma UnescapeStep(src: string, i: nat, done: string)
    requires i < |src| && Front(src[i..]).Some?
    ensures var u := Front(src[i..]).value;
            && After(done, Unescape(src[i..])) == After(done + u.text, Unescape(src[i + u.consumed..]))
            && (After(done, Unescape(src[i..])).Some? ==>
                  |After(done, Unescape(src[i..])).value| >= |done| + |u.text|)
  {
    var u := Front(src[i..]).value;
    assert src[i..][u.consumed..] == src[i + u.consumed..];
    var rest := Unescape(src[i + u.consumed..]);
    if rest.Some? {
      Regroup(done, u.text, rest.value);
    }
  }

  method JsonUnescapeString(src: string, dst: array<char>) returns (ok: bool, out: nat)
    requires dst.Length > 0
    modifies dst
    ensures ok == (Unescape(src).Some? && |Unescape(src).value| < dst.Length)
    ensures ok ==> out == |Unescape(src).value| && dst[..out] == Unescape(src).value && dst[out] == '\0'
  {
    out := 0;
    ghost var done := "";
    var i := 0;
    assert src[0..] == src && forall v: string :: "" + v == v;
    while i < |src|
      invariant i <= |src| && out < dst.Length
      invariant dst[..out] == done && Unescape(src) == After(done, Unescape(src[i..]))
      decreases |src| - i
    {
      var u := Front(src[i..]);
      if u.None? {
        return false, out;
      }
      var piece, consumed := u.value.text, u.value.consumed;
      UnescapeStep(src, i, done);
      if out + |piece| >= dst.Length {
        return false, out;
      }
      done := AppendPiece(piece, dst, out, done);
      out := out + |piece|;
      i := i + consumed;
    }
    assert src[i..] == "";
    dst[out] := '\0';
    return true, out;
  }

  // ------------------------------------------------------- percent-encoding

  predicate IsByte(c: char) { c as int < 256 }

  predicate Bytes(s: string) { forall i :: 0 <= i < |s| ==> IsByte(s[i]) }

  /** Section 2.3 of RFC 3986. */
  predicate Unreserved(c: char)
  {
    'a' <= c <= 'z' || 'A' <= c <= 'Z' || '0' <= c <= '9' || c == '-' || c == '_' || c == '.' || c == '~'
  }

  function PercentChar(c: char): (s: string)
    requires IsByte(c)
    ensures 1 <= |s| <= 3
  {
    if Unreserved(c) then [c] else ['%', HexDigit(c as int / 16), HexDigit(c as int % 16)]
  }

  function UrlEncode(s: string): (r: string)
    requires Bytes(s)
    ensures |r| <= 3 * |s|
  {
    if s == "" then "" else PercentChar(s[0]) + UrlEncode(s[1..])
  }

  /** Section 2.1 of RFC 3986: a percent sign and two hexadecimal digits stand for one byte. */
  function UrlDecode(s: string): Option<string>
    decreases |s|
  {
    if s == "" then Some("")
    else if s[0] != '%' then
      var rest := UrlDecode(s[1..]);
      if rest.None? then None else Some([s[0]] + rest.value)
    else if |s| < 3 || HexValue(s[1]) < 0 || HexValue(s[2]) < 0 then None
    else
      var rest := UrlDecode(s[3..]);
      if rest.None? then None else Some([(HexValue(s[1]) * 16 + HexValue(s[2])) as char] + rest.value)
  }

  method UrlEncodeInto(src: string, dst: array<char>) returns (ok: bool, out: nat)
    requires dst.Length > 0 && Bytes(src)
    modifies dst
    ensures ok == (|UrlEncode(src)| < dst.Length)
    ensures ok ==> out == |UrlEncode(src)| && dst[..out] == UrlEncode(src) && dst[out] == '\0'
  {
    out := 0;
    ghost var done := "";
    var i := 0;
    while i < |src|
      invariant i <= |src| && out < dst.Length
      invariant dst[..out] == done && UrlEncode(src) == done + UrlEncode(src[i..])
    {
      var piece := PercentChar(src[i]);
      assert src[i..][1..] == src[i + 1..];
      Regroup(done, piece, UrlEncode(src[i + 1..]));
      if out + |piece| >= dst.Length {
        return false, out;
      }
      done := AppendPiece(piece, dst, out, done);
      out := out + |piece|;
      i := i + 1;
    }
    assert src[i..] == "";
    dst[out] := '\0';
    return true, out;
  }

  // ------------------------------------------------------------ round trips

  lemma FrontOfEscape(c: char, rest: string)
    requires c != '\0'
    ensures Front(EscapeChar(c) + rest) == Some(Unit([c], |EscapeChar(c)|))
  {
    var s := EscapeChar(c) + rest;
    if c as int < 0x20 && |EscapeChar(c)| == 6 {
      var hi, lo := c as int / 16, c as int % 16;
      assert s[2..6] == ['0', '0', HexDigit(hi), HexDigit(lo)];
      HexInverse(hi);
      HexInverse(lo);
      assert Hex4(s[2..6]) == c as int;
    }
  }

  /** Unescaping undoes escaping, for every text without NUL. */
  lemma {:induction false} UnescapeEscape(s: string)
    requires '\0' !in s
    ensures Unescape(Escape(s)) == Some(s)
  {
    if s != "" {
      FrontOfEscape(s[0], Escape(s[1..]));
      UnescapeEscape(s[1..]);
      assert Escape(s)[|EscapeChar(s[0])|..] == Escape(s[1..]);
      assert [s[0]] + s[1..] == s;
    }
  }

  /** Percent-decoding undoes percent-encoding, for every byte text. */
  lemma {:induction false} UrlDecodeEncode(s: string)
    requires Bytes(s)
    ensures UrlDecode(UrlEncode(s)) == Some(s)
  {
    if s != "" {
      var c := s[0];
      UrlDecodeEncode(s[1..]);
      HexInverse(c as int / 16);
      HexInverse(c as int % 16);
      assert UrlEncode(s)[|PercentChar(c)|..] == UrlEncode(s[1..]);
      assert [c] + s[1..] == s;
    }
  }
}
