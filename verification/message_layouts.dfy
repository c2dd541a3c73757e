/**
  The bytes of every message, written out field by field: what the payload encoder has to put on the wire. Numbers are
  little-endian; `Le` is the number of a value, `Bytes` its byte string.
 */
module MessageLayouts {
  import opened Captions
  import opened Payloads
  import opened Wire

  function Le(v: Value, width: nat): seq<byte>
  {
    if v.N? then ToLe(v.n, width) else []
  }

  function Bytes(v: Value): seq<byte>
  {
    if v.B? then v.bytes else []
  }

  /** A count of this width and the bytes. */
  function WithCount(bytes: seq<byte>, width: nat): seq<byte>
  {
    ToLe(|bytes|, width) + bytes
  }

  /** The text up to its first NUL, or as much of it as leaves room for one, after a 16-bit count. */
  function Text(bytes: seq<byte>, size: nat): seq<byte>
  {
    var n := |CString(bytes)|;
    WithCount(bytes[..if n < size && n < |bytes| then n else if size > 0 && size - 1 < |bytes| then size - 1 else 0], 2)
  }

  /** A URL has its own length; 0 says that it ends at its NUL. */
  function UrlText(v: Value): seq<byte>
  {
    if !v.U? || v.text == [] then []
    else
      var n := if v.length > 0 then v.length else |CString(v.text)|;
      WithCount(v.text[..if n < |v.text| then n else |v.text| - 1], 2)
  }

  /** A translation is sent only when there was an attempt at one. */
  function Tail(v: Value): seq<byte>
  {
    if v.T? && (v.attempted || v.translated != [])
    then WithCount(v.translated, 2) + ToLe(v.latencyUs, 4) + ToLe(v.tier, 1) else []
  }

  /** The parts of a message in the order in which they are sent, by type. */
  function Parts(msgType: nat, v: seq<Value>): seq<seq<byte>>
    requires Layout(msgType).Some? && |v| == |Layout(msgType).value|
  {
    match msgType
    case 1 => [Le(v[0], 2), Le(v[1], 2), Bytes(v[2]), WithCount(Bytes(v[3]), 2)]
    case 2 => [Le(v[0], 2), Le(v[1], 2), Le(v[2], 4), WithCount(Bytes(v[3]), 2)]
    case 3 =>
      [Bytes(v[0]), Le(v[1], 8), Le(v[2], 4), Le(v[3], 2), Le(v[4], 2), Text(Bytes(v[5]), 64), Text(Bytes(v[6]), 16),
       Le(v[7], 2), UrlText(v[8])]
    case 4 => [Bytes(v[0]), Le(v[1], 8), Le(v[2], 8), WithCount(Bytes(v[3]), 4)]
    case 5 => [Bytes(v[0]), Le(v[1], 2)]
    case 6 => [Bytes(v[0]), Le(v[1], 2)]
    case 7 => [Bytes(v[0]), Le(v[1], 2)]
    case 8 =>
      [Bytes(v[0]), Le(v[1], 8), Le(v[2], 8), Le(v[3], 8), Le(v[4], 1), WithCount(Bytes(v[5]), 2), Tail(v[6])]
    case 9 => [Bytes(v[0]), Le(v[1], 4), Le(v[2], 8), Le(v[3], 8), Le(v[4], 8), Bytes(v[5])]
    case 10 => [Bytes(v[0]), Le(v[1], 4), Le(v[2], 1), Bytes(v[3])]
    case 11 => []
    case 12 => [Bytes(v[0]), Le(v[1], 1)]
    case 13 => [Bytes(v[0]), Le(v[1], 8), Le(v[2], 8), Le(v[3], 4), Le(v[4], 4)]
    case 14 => [Bytes(v[0]), Le(v[1], 1), Bytes(v[2])]
    case 15 => [Bytes(v[0]), Le(v[1], 1), Le(v[2], 1), Le(v[3], 8), Le(v[4], 8), Bytes(v[5])]
    case _ => [Bytes(v[0]), Le(v[1], 1), Bytes(v[2]), Bytes(v[3]), Le(v[4], 1)]
  }

  function Joined(parts: seq<seq<byte>>): seq<byte>
  {
    if parts == [] then [] else parts[0] + Joined(parts[1..])
  }

  lemma {:induction false} FieldsJoin(fields: seq<Field>, values: seq<Value>, parts: seq<seq<byte>>)
    requires AllHold(fields, values) && |parts| == |fields| && EncodeFields(fields, values).Some?
    requires forall i :: 0 <= i < |fields| && EncodeField(fields[i], values[i]).Some? ==>
               EncodeField(fields[i], values[i]).value == parts[i]
    ensures EncodeFields(fields, values).value == Joined(parts)
    decreases |fields|
  {
    hide EncodeField, Holds;
    if fields != [] {
      FieldsJoin(fields[1..], values[1..], parts[1..]);
    }
  }

  /** The part that stands for a field. */
  function Part(f: Field, v: Value): seq<byte>
  {
    match f
    case Num(w) => Le(v, w)
    case Raw(_) => Bytes(v)
    case Fixed(_) => Bytes(v)
    case Message(_) => Bytes(v)
    case Short(k) => Text(Bytes(v), k)
    case Counted(w) => WithCount(Bytes(v), w)
    case Url(_) => UrlText(v)
    case Translation => Tail(v)
  }

  lemma FieldIs(f: Field, v: Value)
    requires Holds(f, v)
    ensures EncodeField(f, v).Some? ==> EncodeField(f, v).value == Part(f, v)
  {
    hide ToLe;
  }

  lemma PartsAre(msgType: nat, v: seq<Value>)
    requires Layout(msgType).Some? && |v| == |Layout(msgType).value|
    ensures var fields, parts := Layout(msgType).value, Parts(msgType, v);
            |parts| == |fields| && forall i :: 0 <= i < |fields| ==> parts[i] == Part(fields[i], v[i])
  {
    hide Le, Bytes, WithCount, Text, UrlText, Tail;
  }

  /** What the encoder writes of any message, if it writes it, is these parts one after another. */
  lemma BytesOnTheWire(msgType: nat, values: seq<Value>)
    requires Layout(msgType).Some? && AllHold(Layout(msgType).value, values)
    requires EncodeFields(Layout(msgType).value, values).Some?
    ensures EncodeFields(Layout(msgType).value, values).value == Joined(Parts(msgType, values))
  {
    hide EncodeField, EncodeFields, Holds, Part, Layout, Parts;
    var fields := Layout(msgType).value;
    PartsAre(msgType, values);
    forall i | 0 <= i < |fields|
      ensures EncodeField(fields[i], values[i]).Some? ==> EncodeField(fields[i], values[i]).value == Part(fields[i], values[i])
    {
      FieldIs(fields[i], values[i]);
    }
    FieldsJoin(fields, values, Parts(msgType, values));
  }

  /** Of every message about a session the first sixteen bytes are its id. */
  lemma SessionComesFirst(msgType: nat, values: seq<Value>)
    requires 3 <= msgType <= 16 && msgType != 11 && AllHold(Layout(msgType).value, values)
    requires EncodeFields(Layout(msgType).value, values).Some?
    ensures |Bytes(values[0])| == 16 && Bytes(values[0]) <= EncodeFields(Layout(msgType).value, values).value
  {
    hide EncodeFields;
    BytesOnTheWire(msgType, values);
    assert Parts(msgType, values)[0] == Bytes(values[0]);
  }

  // ---------------------------------------------------------------- what is read

  /**
    The counted parts are read exactly when they are all there: a text shorter than its array, a URL likewise or nothing at
    all, and a translation as the whole rest of its message or nothing at all.
   */
  lemma CountedPartsAreReadIff(size: nat, bytes: seq<byte>)
    ensures var n := if |bytes| >= 2 then FromLe(bytes[..2]) else 0;
            && (DecodeField(Short(size), bytes).Some? <==> |bytes| >= 2 && n < size && 2 + n <= |bytes|)
            && (DecodeField(Url(size), bytes).Some? <==> bytes == [] || (|bytes| >= 2 && n < size && 2 + n <= |bytes|))
            && (DecodeField(Translation, bytes).Some? <==> bytes == [] || (|bytes| >= 2 && |bytes| == 2 + n + 4 + 1))
  {
    hide FromLe;
  }

  /** Older workers send a STARTED (12) that is the flag alone, of a session without an id. */
  lemma FlagAloneIsRead(flag: byte)
    ensures DecodePayload(12, [flag]) == Some([B(Zeros(16)), N(flag as nat)])
  {
    assert [Num(1)][1..] == [] && [flag][..1] == [flag] && [flag][1..] == [];
    assert FromLe([flag]) == flag as nat by {
      assert FromLe([]) == 0;
    }
    var value := N(FromLe([flag]));
    assert DecodeFields([Num(1)], [flag]) == Some([value] + []);
    assert [value] + [] == [value] && [B(Zeros(16))] + [value] == [B(Zeros(16)), value];
  }

  /** Older workers send a STATUS (9) without its last part: 44 bytes, whose backend is then empty. */
  lemma ShortStatusIsReadIff(bytes: seq<byte>)
    requires |bytes| < 60
    ensures DecodePayload(9, bytes).Some? <==> |bytes| == 44
    ensures |bytes| == 44 ==>
              DecodePayload(9, bytes) == Some([B(bytes[..16]), N(FromLe(bytes[16..20])), N(FromLe(bytes[20..28])),
                                               N(FromLe(bytes[28..36])), N(FromLe(bytes[36..44])), B(Zeros(16))])
  {
    hide FromLe, DecodeFields;
    assert [Raw(16)] + [Num(4), Num(8), Num(8), Num(8)] == [Raw(16), Num(4), Num(8), Num(8), Num(8)];
    assert [Num(4)] + [Num(8), Num(8), Num(8)] == [Num(4), Num(8), Num(8), Num(8)];
    assert [Num(8)] + [Num(8), Num(8)] == [Num(8), Num(8), Num(8)] && [Num(8)] + [Num(8)] == [Num(8), Num(8)];
    assert [Num(8)] + [] == [Num(8)];
    FirstIsRead(Raw(16), [Num(4), Num(8), Num(8), Num(8)], bytes);
    if |bytes| >= 16 {
      FirstIsRead(Num(4), [Num(8), Num(8), Num(8)], bytes[16..]);
    }
    if |bytes| >= 20 {
      assert bytes[16..][4..] == bytes[20..] && bytes[16..][..4] == bytes[16..20];
      FirstIsRead(Num(8), [Num(8), Num(8)], bytes[20..]);
    }
    if |bytes| >= 28 {
      assert bytes[20..][8..] == bytes[28..] && bytes[20..][..8] == bytes[20..28];
      FirstIsRead(Num(8), [Num(8)], bytes[28..]);
    }
    if |bytes| >= 36 {
      assert bytes[28..][8..] == bytes[36..] && bytes[28..][..8] == bytes[28..36];
      FirstIsRead(Num(8), [], bytes[36..]);
    }
    if |bytes| >= 44 {
      assert bytes[36..][8..] == bytes[44..] && bytes[36..][..8] == bytes[36..44];
      NothingIsRead(bytes[44..]);
      InOrder(B(bytes[..16]), N(FromLe(bytes[16..20])), N(FromLe(bytes[20..28])), N(FromLe(bytes[28..36])),
              N(FromLe(bytes[36..44])), B(Zeros(16)));
    }
  }

  lemma InOrder(a: Value, b: Value, c: Value, d: Value, e: Value, last: Value)
    ensures [a] + ([b] + ([c] + ([d] + ([e] + [])))) + [last] == [a, b, c, d, e, last]
  {
  }

  lemma FirstIsRead(f: Field, rest: seq<Field>, bytes: seq<byte>)
    ensures var first := DecodeField(f, bytes);
            DecodeFields([f] + rest, bytes) ==
            if first.None? then None
            else
              var more := DecodeFields(rest, bytes[first.value.1..]);
              if more.None? then None else Some([first.value.0] + more.value)
  {
    hide DecodeField;
    assert ([f] + rest)[1..] == rest;
  }

  lemma NothingIsRead(bytes: seq<byte>)
    ensures DecodeFields([], bytes) == if bytes == [] then Some([]) else None
  {
  }
}
