/** What the text of a JSON string means. */
module JsonEscapes {
  // By section 7 of RFC 8259 it is a row of pieces, each a character as it is, a short escape, a code in four
  // hexadecimal digits, or a surrogate pair. The bytes of a code are told by the grammar of section 4 of RFC 3629. The
  // unescaper of the translation client reads exactly such rows, and nothing else.

  import opened Captions
  import opened JsonText
  import Utf8

  // -------------------------------------------------------- codes and bytes

  /** The scalar value of one UTF8-char: the bits of its bytes put together, first byte first. */
  function ScalarOf(s: string): int
    requires 1 <= |s| <= 4
  {
    if |s| == 1 then s[0] as int
    else if |s| == 2 then 0x40 * (s[0] as int - 0xC0) + (s[1] as int - 0x80)
    else if |s| == 3 then 0x1000 * (s[0] as int - 0xE0) + 0x40 * (s[1] as int - 0x80) + (s[2] as int - 0x80)
    else
      0x4_0000 * (s[0] as int - 0xF0) + 0x1000 * (s[1] as int - 0x80) + 0x40 * (s[2] as int - 0x80) +
      (s[3] as int - 0x80)
  }

  /** The bytes are the one UTF8-char that stands for this code. */
  predicate Encodes(bytes: string, code: int)
  {
    1 <= |bytes| <= 4 && Utf8.RfcLength(bytes, 0) == |bytes| && ScalarOf(bytes) == code
  }

  predicate IsScalar(code: int)
  {
    0 <= code < 0xD800 || 0xE000 <= code < 0x11_0000
  }

  lemma TwoBytes(code: int, a: int, b: int)
    requires 0x80 <= code < 0x800 && code == a * 64 + b && 0 <= b < 64
    ensures 2 <= a < 32 && Encodes([(0xC0 + a) as char, (0x80 + b) as char], code)
  {
  }

  lemma ThreeBytes(code: int, a: int, b: int, c: int)
    requires 0x800 <= code < 0x1_0000 && IsScalar(code) && code == a * 4096 + b * 64 + c && 0 <= b < 64 && 0 <= c < 64
    ensures 0 <= a < 16 && Encodes([(0xE0 + a) as char, (0x80 + b) as char, (0x80 + c) as char], code)
  {
  }

  lemma FourBytes(code: int, a: int, b: int, c: int, d: int)
    requires 0x1_0000 <= code < 0x11_0000 && code == a * 262144 + b * 4096 + c * 64 + d
    requires 0 <= b < 64 && 0 <= c < 64 && 0 <= d < 64
    ensures 0 <= a < 5
    ensures Encodes([(0xF0 + a) as char, (0x80 + b) as char, (0x80 + c) as char, (0x80 + d) as char], code)
  {
  }

  lemma Sextets(code: int)
    requires 0 <= code
    ensures code == code / 64 * 64 + code % 64
    ensures code == code / 4096 * 4096 + code / 64 % 64 * 64 + code % 64
    ensures code == code / 262144 * 262144 + code / 4096 % 64 * 4096 + code / 64 % 64 * 64 + code % 64
  {
    assert code / 4096 == code / 64 / 64 && code / 262144 == code / 4096 / 64;
  }

  lemma BytesEncode(code: int)
    requires IsScalar(code) && code != 0
    ensures Utf8Bytes(code).Some? && Encodes(Utf8Bytes(code).value, code)
  {
    hide Encodes;
    Sextets(code);
    if code < 0x80 {
      OneByte(code);
    } else if code < 0x800 {
      TwoBytes(code, code / 64, code % 64);
    } else if code < 0x1_0000 {
      ThreeBytes(code, code / 4096, code / 64 % 64, code % 64);
    } else {
      FourBytes(code, code / 262144, code / 4096 % 64, code / 64 % 64, code % 64);
    }
  }

  /** Every scalar value but NUL is written as the one UTF8-char that stands for it, and nothing else is written. */
  lemma Utf8BytesIsRfc3629(code: int)
    ensures Utf8Bytes(code).Some? <==> IsScalar(code) && code != 0
    ensures Utf8Bytes(code).Some? ==> Encodes(Utf8Bytes(code).value, code) && Utf8.IsValid(Utf8Bytes(code).value)
  {
    hide Encodes, Utf8.IsValid;
    if IsScalar(code) && code != 0 {
      BytesEncode(code);
      OneIsValid(Utf8Bytes(code).value, code);
    }
  }

  lemma OneByte(code: int)
    requires 0 <= code < 0x80
    ensures Encodes([code as char], code)
  {
  }

  lemma OneIsValid(bytes: string, code: int)
    requires Encodes(bytes, code)
    ensures Utf8.IsValid(bytes)
  {
    Utf8.SequenceIsRfc(bytes, 0);
    assert Utf8.ValidFrom(bytes, |bytes|);
  }

  /** No two UTF8-chars stand for the same code. */
  lemma OneEncoding(bytes: string, other: string, code: int)
    requires Encodes(bytes, code) && Encodes(other, code)
    ensures bytes == other
  {
    LengthOf(bytes, code);
    LengthOf(other, code);
    hide Encodes, Utf8.RfcLength;
    SameBytes(bytes, other);
  }

  lemma SameBytes(s: string, t: string)
    requires 1 <= |s| == |t| <= 4 && ScalarOf(s) == ScalarOf(t)
    requires forall k :: 1 <= k < |s| ==> 0x80 <= s[k] as int < 0xC0 && 0x80 <= t[k] as int < 0xC0
    ensures s == t
  {
    var n := |s|;
    if n == 2 {
      SameSextets(s[0] as int, s[1] as int, t[0] as int, t[1] as int);
    } else if n == 3 {
      SameSextets(64 * s[0] as int + s[1] as int, s[2] as int, 64 * t[0] as int + t[1] as int, t[2] as int);
      SameSextets(s[0] as int, s[1] as int, t[0] as int, t[1] as int);
    } else if n == 4 {
      SameSextets(4096 * s[0] as int + 64 * s[1] as int + s[2] as int, s[3] as int,
                  4096 * t[0] as int + 64 * t[1] as int + t[2] as int, t[3] as int);
      SameSextets(64 * s[0] as int + s[1] as int, s[2] as int, 64 * t[0] as int + t[1] as int, t[2] as int);
      SameSextets(s[0] as int, s[1] as int, t[0] as int, t[1] as int);
    }
    assert forall k :: 0 <= k < n ==> s[k] == t[k];
  }

  lemma SameSextets(a: int, b: int, c: int, d: int)
    requires 0x80 <= b < 0xC0 && 0x80 <= d < 0xC0 && 64 * a + b == 64 * c + d
    ensures a == c && b == d
  {
  }

  lemma LengthOf(bytes: string, code: int)
    requires Encodes(bytes, code)
    ensures |bytes| == if code < 0x80 then 1 else if code < 0x800 then 2 else if code < 0x1_0000 then 3 else 4
    ensures IsScalar(code) && forall k :: 1 <= k < |bytes| ==> 0x80 <= bytes[k] as int < 0xC0
  {
  }

  // ------------------------------------------------------------- hexadecimal

  predicate IsHex(digit: char, value: int)
  {
    0 <= value < 16 && (digit == "0123456789abcdef"[value] || digit == "0123456789ABCDEF"[value])
  }

  /** The four digits, in either case, are those of the code. */
  predicate Digits(digits: string, code: int)
  {
    && |digits| == 4 && 0 <= code < 0x1_0000
    && IsHex(digits[0], code / 0x1000) && IsHex(digits[1], code / 0x100 % 0x10)
    && IsHex(digits[2], code / 0x10 % 0x10) && IsHex(digits[3], code % 0x10)
  }

  lemma HexIs(c: char, value: int)
    ensures HexValue(c) == value && value >= 0 <==> IsHex(c, value)
  {
  }

  lemma HexOf(c: char)
    ensures HexValue(c) >= 0 ==> IsHex(c, HexValue(c))
    ensures forall v :: IsHex(c, v) ==> HexValue(c) == v
  {
  }

  /** Four digits are read as the code they are the digits of. */
  lemma Hex4Is(digits: string, code: int)
    requires |digits| == 4
    ensures Hex4(digits) == code && code >= 0 <==> Digits(digits, code)
  {
    HexOf(digits[0]);
    HexOf(digits[1]);
    HexOf(digits[2]);
    HexOf(digits[3]);
    hide HexValue, IsHex;
    var a, b, c, d := HexValue(digits[0]), HexValue(digits[1]), HexValue(digits[2]), HexValue(digits[3]);
    if a >= 0 && b >= 0 && c >= 0 && d >= 0 {
      Positions(a, b, c, d);
    }
    if Digits(digits, code) {
      Positional(code);
    }
  }

  lemma Positions(a: int, b: int, c: int, d: int)
    requires 0 <= a < 16 && 0 <= b < 16 && 0 <= c < 16 && 0 <= d < 16
    ensures var code := a * 4096 + b * 256 + c * 16 + d;
            code / 0x1000 == a && code / 0x100 % 0x10 == b && code / 0x10 % 0x10 == c && code % 0x10 == d
  {
    var code := a * 4096 + b * 256 + c * 16 + d;
    assert code / 0x100 == a * 16 + b && code / 0x10 == (a * 16 + b) * 16 + c;
  }

  lemma Positional(code: int)
    requires 0 <= code < 0x1_0000
    ensures code == code / 0x1000 * 4096 + code / 0x100 % 0x10 * 256 + code / 0x10 % 0x10 * 16 + code % 0x10
  {
    assert code / 0x100 == code / 0x10 / 0x10 && code / 0x1000 == code / 0x100 / 0x10;
  }

  // ----------------------------------------------------------------- pieces

  /** A piece of the text of a JSON string. */
  datatype Piece =
    | Plain(c: char)                       // any character but a backslash and the control characters
    | Short(letter: char)
    | Code(digits: string)
    | Pair(high: string, low: string)

  function Written(p: Piece): string
  {
    match p
    case Plain(c) => [c]
    case Short(letter) => ['\\', letter]
    case Code(digits) => "\\u" + digits
    case Pair(high, low) => "\\u" + high + "\\u" + low
  }

  predicate ShortMeans(letter: char, c: char)
  {
    (letter, c) in {('"', '"'), ('\\', '\\'), ('/', '/'), ('b', '\U{08}'), ('f', '\U{0C}'), ('n', '\U{0A}'),
                    ('r', '\U{0D}'), ('t', '\U{09}')}
  }

  /** The bytes the piece stands for; NUL has none. */
  ghost predicate Means(p: Piece, bytes: string)
  {
    match p
    case Plain(c) => c as int >= 0x20 && c != '\\' && bytes == [c]
    case Short(letter) => |bytes| == 1 && ShortMeans(letter, bytes[0])
    case Code(digits) => exists code :: Digits(digits, code) && IsScalar(code) && code != 0 && Encodes(bytes, code)
    case Pair(high, low) =>
      exists h, l :: Digits(high, h) && Digits(low, l) && 0xD800 <= h < 0xDC00 && 0xDC00 <= l < 0xE000
                     && Encodes(bytes, 0x1_0000 + 0x400 * (h - 0xD800) + (l - 0xDC00))
  }

  ghost function WrittenAll(pieces: seq<Piece>): string
  {
    if pieces == [] then "" else Written(pieces[0]) + WrittenAll(pieces[1..])
  }

  ghost function Joined(texts: seq<string>): string
  {
    if texts == [] then "" else texts[0] + Joined(texts[1..])
  }

  ghost predicate MeanAll(pieces: seq<Piece>, texts: seq<string>)
  {
    |pieces| == |texts| && forall i :: 0 <= i < |pieces| ==> Means(pieces[i], texts[i])
  }

  /** The front of an escaped text is exactly one piece, read as what it means. */
  lemma FrontIsAPiece(s: string, p: Piece, bytes: string)
    requires Means(p, bytes) && Written(p) <= s
    ensures s != "" && Front(s) == Some(Unit(bytes, |Written(p)|))
  {
    var w := Written(p);
    assert forall k :: 0 <= k < |w| ==> s[k] == w[k];
    match p
    case Plain(c) => assert bytes == [s[0]];
    case Short(letter) =>
      assert s[0] == '\\' && s[1] == letter;
      assert bytes == [bytes[0]];
    case Code(digits) => CodeIsRead(s, digits, bytes);
    case Pair(high, low) => PairIsRead(s, high, low, bytes);
  }

  lemma CodeIsRead(s: string, digits: string, bytes: string)
    requires Means(Code(digits), bytes) && Written(Code(digits)) <= s
    ensures s != "" && Front(s) == Some(Unit(bytes, 6))
  {
    hide Encodes, Hex4, Utf8Bytes, Digits;
    var code :| Digits(digits, code) && IsScalar(code) && code != 0 && Encodes(bytes, code);
    FourDigits(digits, code);
    Hex4Is(digits, code);
    Utf8BytesIsRfc3629(code);
    OneEncoding(bytes, Utf8Bytes(code).value, code);
    var w := Written(Code(digits));
    assert s[..6] == w && s[2..6] == w[2..6] == digits && s[0] == w[0] && s[1] == w[1];
  }

  lemma FourDigits(digits: string, code: int)
    requires Digits(digits, code)
    ensures |digits| == 4 && 0 <= code < 0x1_0000
  {
  }

  lemma PairIsRead(s: string, high: string, low: string, bytes: string)
    requires Means(Pair(high, low), bytes) && Written(Pair(high, low)) <= s
    ensures s != "" && Front(s) == Some(Unit(bytes, 12))
  {
    hide Encodes, Hex4, Utf8Bytes, Digits;
    var h, l :| Digits(high, h) && Digits(low, l) && 0xD800 <= h < 0xDC00 && 0xDC00 <= l < 0xE000
                && Encodes(bytes, 0x1_0000 + 0x400 * (h - 0xD800) + (l - 0xDC00));
    var code := 0x1_0000 + 0x400 * (h - 0xD800) + (l - 0xDC00);
    FourDigits(high, h);
    FourDigits(low, l);
    Hex4Is(high, h);
    Hex4Is(low, l);
    Utf8BytesIsRfc3629(code);
    OneEncoding(bytes, Utf8Bytes(code).value, code);
    var w := Written(Pair(high, low));
    assert s[..12] == w && |w| == 12;
    assert s[2..6] == w[2..6] == high && s[8..12] == w[8..12] == low;
    assert s[0] == w[0] && s[1] == w[1] && s[6] == w[6] && s[7] == w[7];
  }

  /** And whatever is read at the front is such a piece. */
  lemma FrontIsOnlyPieces(s: string) returns (p: Piece)
    requires s != "" && Front(s).Some?
    ensures Means(p, Front(s).value.text) && Written(p) == s[..Front(s).value.consumed]
  {
    hide Hex4, Utf8Bytes, Digits, Encodes;
    var u := Front(s).value;
    if s[0] != '\\' {
      p := Plain(s[0]);
    } else if Simple(s[1]).Some? {
      p := Short(s[1]);
      assert s[..2] == ['\\', s[1]];
    } else {
      var high := Hex4(s[2..6]);
      Hex4Is(s[2..6], high);
      if 0xD800 <= high <= 0xDBFF {
        var low := Hex4(s[8..12]);
        Hex4Is(s[8..12], low);
        Utf8BytesIsRfc3629(0x1_0000 + (high - 0xD800) * 1024 + (low - 0xDC00));
        p := Pair(s[2..6], s[8..12]);
        assert s[..12] == Written(p);
        assert Digits(s[2..6], high) && Digits(s[8..12], low);
      } else {
        Utf8BytesIsRfc3629(high);
        p := Code(s[2..6]);
        assert s[..6] == Written(p);
        assert Digits(s[2..6], high);
      }
    }
  }

  // ----------------------------------------------------------- main results

  /** Every row of pieces is unescaped to what its pieces mean, joined. */
  lemma {:induction false} PiecesAreRead(pieces: seq<Piece>, texts: seq<string>)
    requires MeanAll(pieces, texts)
    ensures Unescape(WrittenAll(pieces)) == Some(Joined(texts))
    decreases |pieces|
  {
    hide Means, Front, Written;
    if pieces != [] {
      var w, rest := Written(pieces[0]), WrittenAll(pieces[1..]);
      PiecesAreRead(pieces[1..], texts[1..]);
      FrontIsAPiece(w + rest, pieces[0], texts[0]);
      assert (w + rest)[|w|..] == rest;
    }
  }

  /** And only such rows are: a text that unescapes is a row of pieces, and stands for what they mean. */
  lemma {:induction false} OnlyPiecesAreRead(s: string) returns (pieces: seq<Piece>, texts: seq<string>)
    requires Unescape(s).Some?
    ensures WrittenAll(pieces) == s && MeanAll(pieces, texts) && Joined(texts) == Unescape(s).value
    decreases |s|
  {
    hide Means, Front, Written;
    if s == "" {
      pieces, texts := [], [];
    } else {
      var u := Front(s).value;
      var p := FrontIsOnlyPieces(s);
      var more, rest := OnlyPiecesAreRead(s[u.consumed..]);
      pieces, texts := [p] + more, [u.text] + rest;
      assert s == s[..u.consumed] + s[u.consumed..];
      assert pieces[1..] == more && texts[1..] == rest;
    }
  }

  // ------------------------------------------------------------ what is written

  /**
    Characters are written as themselves but for quotes, backslashes and controls; of the controls those with a letter of
    their own take two characters, the others four hexadecimal digits.
   */
  lemma EscapedFormIs(c: char)
    ensures var e := EscapeChar(c);
            if c in "\"\\\U{08}\U{0C}\n\r\t" then |e| == 2 && e[0] == '\\' && e[1] in "\"\\bfnrt"
            else if c as int >= 32 then e == [c]
            else e[..4] == "\\u00" && |e| == 6 && e[4] in "01" && e[5] in "0123456789ABCDEF"
  {
  }

  /** The unreserved characters of RFC 3986, section 2.3, stand for themselves; others are written in capital hexadecimal. */
  lemma PercentFormIs(c: char)
    requires IsByte(c)
    ensures var e, hex := PercentChar(c), "0123456789ABCDEF";
            if c in "ABCDEFGHIJKLMNOPQRSTUVWXYZ" || c in "abcdefghijklmnopqrstuvwxyz" || c in "0123456789" || c in "-._~"
            then e == [c]
            else |e| == 3 && e[0] == '%' && e[1] in hex && e[2] in hex
  {
    hide HexDigit;
    CapitalsAre(c);
    SmallLettersAre(c);
    DigitsAre(c);
    HexIsCapital(c as int / 16);
    HexIsCapital(c as int % 16);
  }

  lemma CapitalsAre(c: char)
    ensures c in "ABCDEFGHIJKLMNOPQRSTUVWXYZ" <==> 'A' <= c <= 'Z'
  {
    if 'A' <= c <= 'Z' {
      assert "ABCDEFGHIJKLMNOPQRSTUVWXYZ"[c as int - 'A' as int] == c;
    }
  }

  lemma SmallLettersAre(c: char)
    ensures c in "abcdefghijklmnopqrstuvwxyz" <==> 'a' <= c <= 'z'
  {
    if 'a' <= c <= 'z' {
      assert "abcdefghijklmnopqrstuvwxyz"[c as int - 'a' as int] == c;
    }
  }

  lemma DigitsAre(c: char)
    ensures c in "0123456789" <==> '0' <= c <= '9'
  {
    if '0' <= c <= '9' {
      assert "0123456789"[c as int - '0' as int] == c;
    }
  }

  lemma HexIsCapital(n: nat)
    ensures n < 16 ==> HexDigit(n) in "0123456789ABCDEF"
  {
  }
}
