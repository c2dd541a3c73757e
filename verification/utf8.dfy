/** The two UTF-8 scanners. */
module Utf8 {
  // The protocol validator's test of a whole text and the prefix length used before a text is copied into a bounded
  // buffer. They are written independently in the program; here both are proved against one definition of a well-formed
  // byte sequence. A text is a sequence of bytes, written as characters below 256, and a C string is such a sequence
  // without NUL.

  /** The continuation bytes a lead byte calls for; -1 when the byte cannot lead a sequence. */
  function Extra(lead: int): (n: int)
  {
    if 0 <= lead <= 0x7F then 0
    else if 0xC0 <= lead < 0xE0 then 1   // 110xxxxx
    else if 0xE0 <= lead < 0xF0 then 2   // 1110xxxx
    else if 0xF0 <= lead < 0xF8 then 3   // 11110xxx
    else -1
  }

  function LeadBits(lead: int): int
  {
    if lead < 0xE0 then lead - 0xC0 else if lead < 0xF0 then lead - 0xE0 else lead - 0xF0
  }

  function Minimum(extra: int): int
  {
    if extra == 1 then 0x80 else if extra == 2 then 0x800 else 0x1_0000
  }

  predicate IsContinuation(c: char)
  {
    0x80 <= c as int < 0xC0
  }

  /** The code point after reading n continuation bytes at i. */
  function CodePoint(s: string, i: nat, n: nat): int
    requires i + n < |s|
  {
    if n == 0 then LeadBits(s[i] as int) else CodePoint(s, i, n - 1) * 64 + (s[i + n] as int - 0x80)
  }

  /** The n bytes after position i are continuation bytes. */
  predicate Continued(s: string, i: nat, n: nat)
    requires i + n < |s|
  {
    n == 0 || (Continued(s, i, n - 1) && IsContinuation(s[i + n]))
  }

  lemma {:induction false} ContinuedPrefix(s: string, i: nat, j: nat, n: nat)
    requires j <= n && i + n < |s| && Continued(s, i, n)
    ensures Continued(s, i, j)
  {
    if j < n {
      ContinuedPrefix(s, i, j, n - 1);
    }
  }

  predicate IsScalar(code: int, extra: int)
  {
    code >= Minimum(extra) && !(0xD800 <= code <= 0xDFFF) && code <= 0x10_FFFF
  }

  /** Length of the well-formed sequence at i, or 0 when there is none. */
  function SequenceLength(s: string, i: nat): (n: nat)
    requires i < |s|
    ensures n > 0 ==> i + n <= |s|
  {
    var extra := Extra(s[i] as int);
    if extra == 0 then 1
    else if extra < 0 || i + extra >= |s| then 0
    else if !Continued(s, i, extra) then 0
    else if IsScalar(CodePoint(s, i, extra), extra) then 1 + extra
    else 0
  }

  /** The text from i on is a concatenation of well-formed sequences. */
  predicate ValidFrom(s: string, i: nat)
    requires i <= |s|
    decreases |s| - i
  {
    i == |s| || (SequenceLength(s, i) > 0 && ValidFrom(s, i + SequenceLength(s, i)))
  }

  predicate IsValid(s: string)
  {
    ValidFrom(s, 0)
  }

  /** Where a scan that stops at `limit`, at a NUL or at the first ill-formed sequence ends up. */
  function SafeFrom(s: string, i: nat, limit: nat): (end: nat)
    requires i <= |s| && i <= limit
    ensures i <= end <= |s| && end <= limit
    decreases |s| - i
  {
    if i == limit || i == |s| || s[i] == '\0' then i
    else
      var n := SequenceLength(s, i);
      if n == 0 || i + n > limit then i else SafeFrom(s, i + n, limit)
  }

  function SafeLen(s: string, limit: nat): (len: nat)
    ensures len <= |s| && len <= limit
  {
    SafeFrom(s, 0, limit)
  }

  // ------------------------------------------------------------ the loops

  /** The validator's loop. */
  method IsValidUtf8(s: string) returns (valid: bool)
    ensures valid == IsValid(s)
  {
    var i := 0;
    while i < |s|
      invariant i <= |s|
      invariant ValidFrom(s, 0) == ValidFrom(s, i)
    {
      ghost var start := i;
      var c := s[i] as int;
      i := i + 1;
      if c <= 0x7F {
        continue;
      }
      var extra: nat, codePoint, minimum := 0, 0, 0;
      if 0xC0 <= c < 0xE0 {
        extra, codePoint, minimum := 1, c - 0xC0, 0x80;
      } else if 0xE0 <= c < 0xF0 {
        extra, codePoint, minimum := 2, c - 0xE0, 0x800;
      } else if 0xF0 <= c < 0xF8 {
        extra, codePoint, minimum := 3, c - 0xF0, 0x1_0000;
      } else {
        return false;
      }
      if i + extra > |s| {
        return false;
      }
      var j := 0;
      while j < extra
        invariant j <= extra && i == start + 1 + j
        invariant codePoint == CodePoint(s, start, j) && Continued(s, start, j)
      {
        var next := s[i];
        i := i + 1;
        if !IsContinuation(next) {
          if Continued(s, start, extra) {
            ContinuedPrefix(s, start, j + 1, extra);
          }
          return false;
        }
        codePoint := codePoint * 64 + (next as int - 0x80);
        j := j + 1;
      }
      if codePoint < minimum || 0xD800 <= codePoint <= 0xDFFF || codePoint > 0x10_FFFF {
        return false;
      }
    }
    return true;
  }

  /** The continuation bytes behind position i; past the last byte the scanner reads the terminating NUL. */
  method ReadContinuations(s: string, i: nat, extra: nat, lead: int) returns (complete: bool, codePoint: int)
    requires i < |s| && lead == CodePoint(s, i, 0)
    ensures complete == (i + extra < |s| && Continued(s, i, extra))
    ensures complete ==> codePoint == CodePoint(s, i, extra)
  {
    codePoint := lead;
    var k := 1;
    while k <= extra
      invariant 1 <= k <= extra + 1 && i + k <= |s|
      invariant codePoint == CodePoint(s, i, k - 1) && Continued(s, i, k - 1)
    {
      if i + k == |s| || !IsContinuation(s[i + k]) {
        if i + extra < |s| && Continued(s, i, extra) {
          ContinuedPrefix(s, i, k, extra);
        }
        return false, codePoint;
      }
      codePoint := codePoint * 64 + (s[i + k] as int - 0x80);
      k := k + 1;
    }
    return true, codePoint;
  }

  lemma SafeStep(s: string, i: nat, limit: nat)
    requires i <= |s| && i <= limit
    ensures SafeFrom(s, i, limit) ==
            if i == limit || i == |s| || s[i] == '\0' then i
            else if SequenceLength(s, i) == 0 || i + SequenceLength(s, i) > limit then i
            else SafeFrom(s, i + SequenceLength(s, i), limit)
  {
  }

  /** The prefix scanner's loop. */
  method Utf8SafeLen(s: string, limit: nat) returns (len: nat)
    ensures len == SafeLen(s, limit)
  {
    hide SafeFrom;
    len := 0;
    while len < limit && len < |s| && s[len] != '\0'
      invariant len <= |s| && len <= limit
      invariant SafeFrom(s, 0, limit) == SafeFrom(s, len, limit)
      decreases |s| - len
    {
      SafeStep(s, len, limit);
      var c := s[len] as int;
      if c <= 0x7F {
        len := len + 1;
        continue;
      }
      var extra: nat, codePoint, minimum := 0, 0, 0;
      if 0xC0 <= c < 0xE0 {
        extra, codePoint, minimum := 1, c - 0xC0, 0x80;
      } else if 0xE0 <= c < 0xF0 {
        extra, codePoint, minimum := 2, c - 0xE0, 0x800;
      } else if 0xF0 <= c < 0xF8 {
        extra, codePoint, minimum := 3, c - 0xF0, 0x1_0000;
      } else {
        return;
      }
      if len + 1 + extra > limit {
        break;
      }
      var complete;
      complete, codePoint := ReadContinuations(s, len, extra, codePoint);
      if !complete {
        return;
      }
      if codePoint < minimum || 0xD800 <= codePoint <= 0xDFFF || codePoint > 0x10_FFFF {
        return;
      }
      len := len + 1 + extra;
    }
    SafeStep(s, len, limit);
  }

  // ------------------------------------------------- the standard's grammar

  predicate ByteIn(s: string, k: nat, low: int, high: int)
  {
    k < |s| && low <= s[k] as int <= high
  }

  predicate Tail(s: string, k: nat)
  {
    ByteIn(s, k, 0x80, 0xBF)
  }

  /** Section 4 of RFC 3629, by its byte ranges: length of the UTF8-char that begins at i, or 0 when none does. */
  function RfcLength(s: string, i: nat): nat
    requires i < |s|
  {
    var lead := s[i] as int;
    if lead <= 0x7F then 1
    else if 0xC2 <= lead <= 0xDF && Tail(s, i + 1) then 2
    else if lead == 0xE0 && ByteIn(s, i + 1, 0xA0, 0xBF) && Tail(s, i + 2) then 3
    else if 0xE1 <= lead <= 0xEC && Tail(s, i + 1) && Tail(s, i + 2) then 3
    else if lead == 0xED && ByteIn(s, i + 1, 0x80, 0x9F) && Tail(s, i + 2) then 3
    else if 0xEE <= lead <= 0xEF && Tail(s, i + 1) && Tail(s, i + 2) then 3
    else if lead == 0xF0 && ByteIn(s, i + 1, 0x90, 0xBF) && Tail(s, i + 2) && Tail(s, i + 3) then 4
    else if 0xF1 <= lead <= 0xF3 && Tail(s, i + 1) && Tail(s, i + 2) && Tail(s, i + 3) then 4
    else if lead == 0xF4 && ByteIn(s, i + 1, 0x80, 0x8F) && Tail(s, i + 2) && Tail(s, i + 3) then 4
    else 0
  }

  /** The scanners' arithmetic accepts exactly the sequences of the standard. */
  lemma SequenceIsRfc(s: string, i: nat)
    requires i < |s|
    ensures SequenceLength(s, i) == RfcLength(s, i)
  {
    var extra := Extra(s[i] as int);
    if extra > 0 && i + extra < |s| {
      UnrollSequence(s, i, extra);
    }
  }

  lemma UnrollSequence(s: string, i: nat, n: nat)
    requires 1 <= n <= 3 && i + n < |s|
    ensures Continued(s, i, n) <==> Tail(s, i + 1) && (n >= 2 ==> Tail(s, i + 2)) && (n >= 3 ==> Tail(s, i + 3))
    ensures var b := LeadBits(s[i] as int) * 64 + (s[i + 1] as int - 0x80);
            CodePoint(s, i, n) ==
            if n == 1 then b
            else if n == 2 then b * 64 + (s[i + 2] as int - 0x80)
            else (b * 64 + (s[i + 2] as int - 0x80)) * 64 + (s[i + 3] as int - 0x80)
  {
    assert CodePoint(s, i, 0) == LeadBits(s[i] as int) && Continued(s, i, 0);
    assert CodePoint(s, i, 1) == CodePoint(s, i, 0) * 64 + (s[i + 1] as int - 0x80);
    if n >= 2 {
      assert CodePoint(s, i, 2) == CodePoint(s, i, 1) * 64 + (s[i + 2] as int - 0x80);
    }
  }

  /** The text from i on is a concatenation of the standard's UTF8-char. */
  predicate RfcFrom(s: string, i: nat)
    requires i <= |s|
    decreases |s| - i
  {
    i == |s| || (RfcLength(s, i) > 0 && i + RfcLength(s, i) <= |s| && RfcFrom(s, i + RfcLength(s, i)))
  }

  lemma {:induction false} ValidFromIsRfc(s: string, i: nat)
    requires i <= |s|
    ensures ValidFrom(s, i) <==> RfcFrom(s, i)
    decreases |s| - i
  {
    if i < |s| {
      SequenceIsRfc(s, i);
      if SequenceLength(s, i) > 0 {
        ValidFromIsRfc(s, i + SequenceLength(s, i));
      }
    }
  }

  // --------------------------------------------------------- main results

  /** What the validator accepts is what the standard calls well-formed. */
  lemma ValidIsRfc3629(s: string)
    ensures IsValid(s) <==> RfcFrom(s, 0)
  {
    ValidFromIsRfc(s, 0);
  }

  lemma SequenceInPrefix(s: string, i: nat, k: nat)
    requires i < k <= |s|
    ensures SequenceLength(s[..k], i) == if i + SequenceLength(s, i) <= k then SequenceLength(s, i) else 0
  {
    var extra := Extra(s[i] as int);
    if extra > 0 && i + extra < k {
      CodePointInPrefix(s, i, extra, k);
    }
  }

  lemma {:induction false} CodePointInPrefix(s: string, i: nat, n: nat, k: nat)
    requires i + n < k <= |s|
    ensures CodePoint(s[..k], i, n) == CodePoint(s, i, n)
    ensures Continued(s[..k], i, n) == Continued(s, i, n)
  {
    if n > 0 {
      CodePointInPrefix(s, i, n - 1, k);
    }
  }

  lemma {:induction false} SafeFromIsLongest(s: string, i: nat, limit: nat)
    requires i <= |s| && i <= limit
    ensures var end := SafeFrom(s, i, limit);
            && ValidFrom(s[..end], i)
            && forall k :: end < k <= |s| && k <= limit && '\0' !in s[..k] ==> !ValidFrom(s[..k], i)
    decreases |s| - i
  {
    var end := SafeFrom(s, i, limit);
    if i < end {
      var n := SequenceLength(s, i);
      SequenceInPrefix(s, i, end);
      SafeFromIsLongest(s, i + n, limit);
    }
    forall k | end < k <= |s| && k <= limit && '\0' !in s[..k]
      ensures !ValidFrom(s[..k], i)
    {
      assert s[i] == s[..k][i];
      SequenceInPrefix(s, i, k);
    }
  }

  lemma SequenceHasNoNul(s: string, i: nat, k: nat)
    requires i < |s| && s[i] != '\0' && i <= k < i + SequenceLength(s, i)
    ensures s[k] != '\0'
  {
    if i < k {
      ContinuedPrefix(s, i, k - i, Extra(s[i] as int));
    }
  }

  lemma {:induction false} SafeFromHasNoNul(s: string, i: nat, limit: nat, k: nat)
    requires i <= |s| && i <= limit && i <= k < SafeFrom(s, i, limit)
    ensures s[k] != '\0'
    decreases |s| - i
  {
    var n := SequenceLength(s, i);
    if k < i + n {
      SequenceHasNoNul(s, i, k);
    } else {
      SafeFromHasNoNul(s, i + n, limit, k);
    }
  }

  /** The prefix scanner returns the longest NUL-free valid prefix that fits, which is what its comment promises. */
  lemma SafeLenIsLongestValidPrefix(s: string, limit: nat)
    ensures IsValid(s[..SafeLen(s, limit)]) && '\0' !in s[..SafeLen(s, limit)]
    ensures forall k :: SafeLen(s, limit) < k <= |s| && k <= limit && '\0' !in s[..k] ==> !IsValid(s[..k])
  {
    SafeFromIsLongest(s, 0, limit);
    forall k | 0 <= k < SafeLen(s, limit)
      ensures s[k] != '\0'
    {
      SafeFromHasNoNul(s, 0, limit, k);
    }
  }

  /** The two scanners agree: a C string that fits is kept whole exactly when the validator accepts it. */
  lemma ScannersAgree(s: string, limit: nat)
    requires |s| <= limit && '\0' !in s
    ensures SafeLen(s, limit) == |s| <==> IsValid(s)
  {
    SafeLenIsLongestValidPrefix(s, limit);
    assert s[..|s|] == s;
  }
}
