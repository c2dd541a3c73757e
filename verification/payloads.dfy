/**
  Message payloads. A layout lists the fields of a message in wire order; a value holds a field of the C struct, with
  numbers as their bit patterns and character arrays in full. Pointers with a count are byte strings.
 */
module Payloads {
  import opened Captions
  import opened Frames
  import opened Wire

  datatype Field =
    | Num(width: nat)      // a number, least significant byte first
    | Raw(size: nat)       // bytes kept as they are: session ids and tokens
    | Fixed(size: nat)     // a character array sent whole; the decoder sets its last byte to NUL
    | Message(size: nat)   // a character array that must hold a NUL to be sent
    | Short(size: nat)     // a character array sent as a 16-bit count and the text up to its NUL
    | Counted(width: nat)  // a count and that many bytes
    | Url(size: nat)       // a counted text in a character array, last in its message and optional for the decoder
    | Translation          // the optional tail of a caption

  datatype Value =
    | N(n: nat)
    | B(bytes: seq<byte>)
    | U(length: nat, text: seq<byte>)
    | T(attempted: bool, translated: seq<byte>, latencyUs: nat, tier: nat)

  function Layout(msgType: nat): Option<seq<Field>>
  {
    match msgType
    case 1 => Some([Num(2), Num(2), Raw(32), Counted(2)])
    case 2 => Some([Num(2), Num(2), Num(4), Counted(2)])
    case 3 => Some([Raw(16), Num(8), Num(4), Num(2), Num(2), Short(64), Short(16), Num(2), Url(1024)])
    case 4 => Some([Raw(16), Num(8), Num(8), Counted(4)])
    case 5 => Some([Raw(16), Num(2)])
    case 6 => Some([Raw(16), Num(2)])
    case 7 => Some([Raw(16), Num(2)])
    case 8 => Some([Raw(16), Num(8), Num(8), Num(8), Num(1), Counted(2), Translation])
    case 9 => Some([Raw(16), Num(4), Num(8), Num(8), Num(8), Fixed(16)])
    case 10 => Some([Raw(16), Num(4), Num(1), Message(256)])
    case 11 => Some([])
    case 12 => Some([Raw(16), Num(1)])
    case 13 => Some([Raw(16), Num(8), Num(8), Num(4), Num(4)])
    case 14 => Some([Raw(16), Num(1), Fixed(32)])
    case 15 => Some([Raw(16), Num(1), Num(1), Num(8), Num(8), Fixed(32)])
    case 16 => Some([Raw(16), Num(1), Fixed(16), Fixed(16), Num(1)])
    case _ => None
  }

  /** v is a value the struct can hold in field f. */
  predicate Holds(f: Field, v: Value)
  {
    match f
    case Num(w) => v.N? && v.n < Power256(w)
    case Raw(k) => v.B? && |v.bytes| == k
    case Fixed(k) => v.B? && |v.bytes| == k
    case Message(k) => v.B? && |v.bytes| == k
    case Short(k) => v.B? && |v.bytes| == k && k < Power256(2)
    case Counted(w) => v.B? && |v.bytes| < Power256(w)
    case Url(k) => v.U? && |v.text| == k && v.length < Power256(2) && k < Power256(2)
    case Translation =>
      v.T? && |v.translated| < Power256(2) && v.latencyUs < Power256(4) && v.tier < Power256(1)
  }

  /** The bytes before the first NUL. */
  function CString(bytes: seq<byte>): (text: seq<byte>)
    ensures |text| <= |bytes| && text == bytes[..|text|]
    ensures |text| < |bytes| ==> bytes[|text|] == 0
    ensures forall i :: 0 <= i < |text| ==> text[i] != 0
  {
    if bytes == [] || bytes[0] == 0 then [] else [bytes[0]] + CString(bytes[1..])
  }

  function Padded(text: seq<byte>, size: nat): (bytes: seq<byte>)
    requires |text| <= size
    ensures |bytes| == size
  {
    text + Zeros(size - |text|)
  }

  /** At most size - 1 bytes, so that a NUL fits behind them. */
  function Clip(n: nat, size: nat): (k: nat)
    requires size > 0
    ensures k < size && (n < size ==> k == n)
  {
    if n >= size then size - 1 else n
  }

  function UrlLength(length: nat, text: seq<byte>): (k: nat)
    requires |text| > 0
    ensures k < |text|
  {
    Clip(if length > 0 then length else |CString(text)|, |text|)
  }

  // ----------------------------------------------------------------- encoding

  function EncodeField(f: Field, v: Value): Option<seq<byte>>
    requires Holds(f, v)
  {
    match f
    case Num(w) => Some(ToLe(v.n, w))
    case Raw(_) => Some(v.bytes)
    case Fixed(_) => Some(v.bytes)
    case Message(k) => if |CString(v.bytes)| >= k then None else Some(v.bytes)
    case Short(k) =>
      if k == 0 then None
      else
        var n := Clip(|CString(v.bytes)|, k);
        Some(ToLe(n, 2) + v.bytes[..n])
    case Counted(w) => Some(ToLe(|v.bytes|, w) + v.bytes)
    case Url(k) =>
      if k == 0 then None
      else
        var n := UrlLength(v.length, v.text);
        Some(ToLe(n, 2) + v.text[..n])
    case Translation =>
      if v.attempted || v.translated != [] then
        Some(ToLe(|v.translated|, 2) + v.translated + ToLe(v.latencyUs, 4) + ToLe(v.tier, 1))
      else Some([])
  }

  predicate AllHold(fields: seq<Field>, values: seq<Value>)
  {
    |fields| == |values| && forall i :: 0 <= i < |fields| ==> Holds(fields[i], values[i])
  }

  function EncodeFields(fields: seq<Field>, values: seq<Value>): Option<seq<byte>>
    requires AllHold(fields, values)
  {
    if fields == [] then Some([])
    else
      var first, rest := EncodeField(fields[0], values[0]), EncodeFields(fields[1..], values[1..]);
      if first.None? || rest.None? then None else Some(first.value + rest.value)
  }

  // ----------------------------------------------------------------- decoding

  /** A field read from the front of what is left, and the number of bytes it took. */
  function DecodeField(f: Field, bytes: seq<byte>): (r: Option<(Value, nat)>)
    ensures r.Some? ==> r.value.1 <= |bytes|
  {
    match f
    case Num(w) => if |bytes| < w then None else Some((N(FromLe(bytes[..w])), w))
    case Raw(k) => if |bytes| < k then None else Some((B(bytes[..k]), k))
    case Fixed(k) =>
      if |bytes| < k || k == 0 then None else Some((B(bytes[..k - 1] + [0]), k))
    case Message(k) =>
      if |bytes| < k || k == 0 then None
      else if 0 in bytes[..k] then Some((B(bytes[..k]), k)) else Some((B(bytes[..k - 1] + [0]), k))
    case Short(k) =>
      if |bytes| < 2 then None
      else
        var n := FromLe(bytes[..2]);
        if n >= k || |bytes| < 2 + n then None else Some((B(Padded(bytes[2..2 + n], k)), 2 + n))
    case Counted(w) =>
      if |bytes| < w then None
      else
        var n := FromLe(bytes[..w]);
        if |bytes| < w + n then None else Some((B(bytes[w..w + n]), w + n))
    case Url(k) =>
      if bytes == [] then Some((U(0, Zeros(k)), 0))
      else if |bytes| < 2 then None
      else
        var n := FromLe(bytes[..2]);
        if n >= k || |bytes| < 2 + n then None else Some((U(n, Padded(bytes[2..2 + n], k)), 2 + n))
    case Translation =>
      if bytes == [] then Some((T(false, [], 0, 0), 0))
      else if |bytes| < 7 then None
      else
        var n := FromLe(bytes[..2]);
        if |bytes| != 2 + n + 5 then None
        else Some((T(true, bytes[2..2 + n], FromLe(bytes[2 + n..6 + n]), FromLe(bytes[6 + n..7 + n])), 7 + n))
  }

  /** All fields in order; every byte must have been read. */
  function DecodeFields(fields: seq<Field>, bytes: seq<byte>): Option<seq<Value>>
  {
    if fields == [] then if bytes == [] then Some([]) else None
    else
      match DecodeField(fields[0], bytes)
      case None => None
      case Some((v, n)) =>
        match DecodeFields(fields[1..], bytes[n..])
        case None => None
        case Some(rest) => Some([v] + rest)
  }

  // older peers: a status without the backend, and a started message that is the flag alone
  const STATUS_BYTES: nat := 60

  function DecodePayload(msgType: nat, bytes: seq<byte>): Option<seq<Value>>
  {
    if msgType == STATUS && |bytes| < STATUS_BYTES then
      var short := DecodeFields([Raw(16), Num(4), Num(8), Num(8), Num(8)], bytes);
      if short.Some? then Some(short.value + [B(Zeros(16))]) else None
    else if msgType == STARTED && |bytes| == 1 then
      var flag := DecodeFields([Num(1)], bytes);
      if flag.Some? then Some([B(Zeros(16))] + flag.value) else None
    else
      var layout := Layout(msgType);
      if layout.None? then None else DecodeFields(layout.value, bytes)
  }

  // ---------------------------------------------------- when decoding undoes encoding

  /** What the decoder makes of an encoded field. */
  function Settled(f: Field, v: Value): (r: Value)
    requires Holds(f, v) && EncodeField(f, v).Some? && Sized(f)
  {
    match f
    case Fixed(k) => B(v.bytes[..k - 1] + [0])
    case Short(k) => B(Padded(v.bytes[..Clip(|CString(v.bytes)|, k)], k))
    case Url(k) =>
      var n := UrlLength(v.length, v.text);
      U(n, Padded(v.text[..n], k))
    case Translation => if v.attempted || v.translated != [] then v.(attempted := true) else T(false, [], 0, 0)
    case _ => v
  }

  predicate Sized(f: Field)
  {
    match f
    case Fixed(k) => k > 0
    case Message(k) => k > 0
    case Short(k) => k > 0
    case Url(k) => k > 0
    case _ => true
  }

  predicate LastOnly(f: Field) { f.Url? || f.Translation? }

  ghost predicate ZeroFrom(bytes: seq<byte>, k: nat)
  {
    forall i :: k <= i < |bytes| ==> bytes[i] == 0
  }

  /** The values that survive: character arrays end in NUL, counted ones are zero behind the text, no idle tail. */
  ghost predicate Clean(f: Field, v: Value)
    requires Holds(f, v)
  {
    match f
    case Fixed(k) => k > 0 && v.bytes[k - 1] == 0
    case Short(k) => k > 0 && v.bytes[k - 1] == 0 && ZeroFrom(v.bytes, |CString(v.bytes)|)
    case Url(k) => v.length < k && ZeroFrom(v.text, v.length)
    case Translation => v.attempted || (v.translated == [] && v.latencyUs == 0 && v.tier == 0)
    case _ => true
  }

  lemma NumFront(n: nat, w: nat, tail: seq<byte>)
    requires n < Power256(w)
    ensures var bytes := ToLe(n, w) + tail; |bytes| >= w && FromLe(bytes[..w]) == n && bytes[w..] == tail
  {
  }

  lemma CountedFront(n: nat, w: nat, text: seq<byte>, tail: seq<byte>)
    requires n == |text| < Power256(w)
    ensures var bytes := ToLe(n, w) + text + tail;
            && |bytes| >= w + n && FromLe(bytes[..w]) == n && bytes[w..w + n] == text && bytes[w + n..] == tail
  {
    assert ToLe(n, w) + text + tail == ToLe(n, w) + (text + tail);
    NumFront(n, w, text + tail);
  }

  lemma TailFront(v: Value)
    requires Holds(Translation, v)
    ensures var n := |v.translated|;
            var bytes := ToLe(n, 2) + v.translated + ToLe(v.latencyUs, 4) + ToLe(v.tier, 1);
            && |bytes| == 7 + n && FromLe(bytes[..2]) == n && bytes[2..2 + n] == v.translated
            && FromLe(bytes[2 + n..6 + n]) == v.latencyUs && FromLe(bytes[6 + n..7 + n]) == v.tier
  {
    LeRoundTrip(|v.translated|, 2);
    LeRoundTrip(v.latencyUs, 4);
    LeRoundTrip(v.tier, 1);
    FourSlices(ToLe(|v.translated|, 2), v.translated, ToLe(v.latencyUs, 4), ToLe(v.tier, 1));
  }

  lemma FourSlices(a: seq<byte>, b: seq<byte>, c: seq<byte>, d: seq<byte>)
    requires |a| == 2 && |c| == 4 && |d| == 1
    ensures var bytes, n := a + b + c + d, |b|;
            && |bytes| == 7 + n && bytes[..2] == a && bytes[2..2 + n] == b
            && bytes[2 + n..6 + n] == c && bytes[6 + n..7 + n] == d
  {
  }

  lemma CStringShort(bytes: seq<byte>)
    ensures |CString(bytes)| < |bytes| <==> 0 in bytes
  {
  }

  ghost predicate ComesBack(f: Field, v: Value, tail: seq<byte>)
    requires Holds(f, v) && Sized(f) && EncodeField(f, v).Some?
  {
    var enc := EncodeField(f, v).value;
    DecodeField(f, enc + tail) == Some((Settled(f, v), |enc|)) && (enc + tail)[|enc|..] == tail
  }

  lemma BytesComeBack(f: Field, v: Value, tail: seq<byte>)
    requires f.Fixed? || f.Message? || f.Raw?
    requires Holds(f, v) && Sized(f) && EncodeField(f, v).Some?
    ensures ComesBack(f, v, tail)
  {
    var bytes := v.bytes + tail;
    assert bytes[..f.size] == v.bytes;
    if f.Fixed? {
      assert bytes[..f.size - 1] == v.bytes[..f.size - 1];
    }
    CStringShort(v.bytes);
  }

  lemma ShortComesBack(f: Field, v: Value, tail: seq<byte>)
    requires f.Short? && Holds(f, v) && Sized(f) && EncodeField(f, v).Some?
    ensures ComesBack(f, v, tail)
  {
    var n := Clip(|CString(v.bytes)|, f.size);
    CountedFront(n, 2, v.bytes[..n], tail);
  }

  lemma UrlComesBack(f: Field, v: Value)
    requires f.Url? && Holds(f, v) && Sized(f) && EncodeField(f, v).Some?
    ensures ComesBack(f, v, [])
  {
    var n := UrlLength(v.length, v.text);
    CountedFront(n, 2, v.text[..n], []);
  }

  lemma TranslationComesBack(f: Field, v: Value)
    requires f.Translation? && Holds(f, v) && EncodeField(f, v).Some?
    ensures ComesBack(f, v, [])
  {
    var enc := EncodeField(f, v).value;
    assert enc + [] == enc;
    if v.attempted || v.translated != [] {
      TailFront(v);
    }
  }

  /** Decoding an encoded field gives its settled value and takes exactly its bytes, whatever follows. */
  lemma FieldComesBack(f: Field, v: Value, tail: seq<byte>)
    requires Holds(f, v) && Sized(f) && EncodeField(f, v).Some? && (LastOnly(f) ==> tail == [])
    ensures ComesBack(f, v, tail)
  {
    match f
    case Num(w) => NumFront(v.n, w, tail);
    case Counted(w) => CountedFront(|v.bytes|, w, v.bytes, tail);
    case Short(_) => ShortComesBack(f, v, tail);
    case Url(_) => UrlComesBack(f, v);
    case Translation => TranslationComesBack(f, v);
    case _ => BytesComeBack(f, v, tail);
  }

  /** A field comes back unchanged exactly when it is clean. */
  lemma SettledIffClean(f: Field, v: Value)
    requires Holds(f, v) && Sized(f) && EncodeField(f, v).Some?
    ensures Settled(f, v) == v <==> Clean(f, v)
  {
    match f
    case Fixed(k) => assert v.bytes == v.bytes[..k - 1] + [v.bytes[k - 1]];
    case Short(k) => PaddedIff(v.bytes, Clip(|CString(v.bytes)|, k));
    case Url(k) => PaddedIff(v.text, UrlLength(v.length, v.text));
    case _ =>
  }

  lemma PaddedIff(bytes: seq<byte>, n: nat)
    requires n <= |bytes|
    ensures Padded(bytes[..n], |bytes|) == bytes <==> ZeroFrom(bytes, n)
  {
  }

  // ------------------------------------------------------------ whole messages

  /** Every field has room, and only the last one may be optional. */
  ghost predicate WellShaped(fields: seq<Field>)
  {
    forall i :: 0 <= i < |fields| ==> Sized(fields[i]) && (i + 1 < |fields| ==> !LastOnly(fields[i]))
  }

  ghost predicate AllClean(fields: seq<Field>, values: seq<Value>)
    requires AllHold(fields, values)
  {
    forall i :: 0 <= i < |fields| ==> Clean(fields[i], values[i])
  }

  /** What the decoder makes of an encoded message. */
  ghost function AllSettled(fields: seq<Field>, values: seq<Value>): (r: seq<Value>)
    requires AllHold(fields, values) && WellShaped(fields) && EncodeFields(fields, values).Some?
    ensures |r| == |values|
  {
    if fields == [] then [] else [Settled(fields[0], values[0])] + AllSettled(fields[1..], values[1..])
  }

  lemma {:induction false} FieldsComeBack(fields: seq<Field>, values: seq<Value>)
    requires AllHold(fields, values) && WellShaped(fields) && EncodeFields(fields, values).Some?
    ensures DecodeFields(fields, EncodeFields(fields, values).value) == Some(AllSettled(fields, values))
    ensures AllSettled(fields, values) == values <==> AllClean(fields, values)
    decreases |fields|
  {
    if fields != [] {
      var f, v := fields[0], values[0];
      var rest := EncodeFields(fields[1..], values[1..]).value;
      FieldsComeBack(fields[1..], values[1..]);
      FieldComesBack(f, v, rest);
      SettledIffClean(f, v);
      var back := AllSettled(fields[1..], values[1..]);
      FirstAndRest(fields, values, Settled(f, v), back);
    }
  }

  lemma FirstAndRest(fields: seq<Field>, values: seq<Value>, v: Value, back: seq<Value>)
    requires AllHold(fields, values) && WellShaped(fields) && fields != [] && |back| == |values| - 1
    requires v == values[0] <==> Clean(fields[0], values[0])
    requires back == values[1..] <==> AllClean(fields[1..], values[1..])
    ensures [v] + back == values <==> AllClean(fields, values)
  {
  }
}
