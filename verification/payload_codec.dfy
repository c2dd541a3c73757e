/**
  The payload encoder and decoder with their moving cursors, and the theorem that joins them to the frame stream:
  messages encoded by one process are decoded by the other. A message's fields are a table; one walk over it writes them
  and another reads them back.
 */
module PayloadCodec {
  import opened Captions
  import opened Frames
  import opened Payloads
  import opened Wire

  // ------------------------------------------------------------- the program

  method CopyBytes(buffer: array<byte>, at: nat, piece: seq<byte>)
    requires at + |piece| <= buffer.Length
    modifies buffer
    ensures buffer[..at + |piece|] == old(buffer[..at]) + piece
    ensures buffer[at + |piece|..] == old(buffer[at + |piece|..])
  {
    forall i | 0 <= i < |piece| { buffer[at + i] := piece[i]; }
  }

  /** What is encoded from field i on. */
  ghost function From(fields: seq<Field>, values: seq<Value>, i: nat): Option<seq<byte>>
    requires AllHold(fields, values) && i <= |fields|
  {
    EncodeFields(fields[i..], values[i..])
  }

  lemma FromStep(fields: seq<Field>, values: seq<Value>, i: nat)
    requires AllHold(fields, values) && i < |fields|
    ensures var first, rest := EncodeField(fields[i], values[i]), From(fields, values, i + 1);
            From(fields, values, i) == if first.None? || rest.None? then None else Some(first.value + rest.value)
  {
  }

  lemma FromEnd(fields: seq<Field>, values: seq<Value>)
    requires AllHold(fields, values)
    ensures From(fields, values, |fields|) == Some([])
  {
  }

  lemma Joined(done: seq<byte>, piece: seq<byte>, rest: seq<byte>)
    ensures done + (piece + rest) == done + piece + rest
  {
  }

  method EncodeLayout(fields: seq<Field>, values: seq<Value>, buffer: array<byte>) returns (ok: bool, written: nat)
    requires AllHold(fields, values)
    modifies buffer
    ensures var enc := EncodeFields(fields, values);
            && (ok <==> enc.Some? && |enc.value| <= buffer.Length)
            && (ok ==> written == |enc.value| && buffer[..written] == enc.value
                       && buffer[written..] == old(buffer[written..]))
  {
    hide EncodeField, EncodeFields, Holds;
    written := 0;
    ghost var enc := EncodeFields(fields, values);
    assert fields[0..] == fields && values[0..] == values;
    assert enc.Some? ==> buffer[..0] + enc.value == enc.value;
    var i := 0;
    while i < |fields|
      invariant 0 <= i <= |fields| && written <= buffer.Length
      invariant enc.Some? <==> From(fields, values, i).Some?
      invariant enc.Some? ==> enc.value == buffer[..written] + From(fields, values, i).value
      invariant buffer[written..] == old(buffer[written..])
    {
      FromStep(fields, values, i);
      var piece := EncodeField(fields[i], values[i]);
      if piece.None? {
        return false, written;
      }
      if written + |piece.value| > buffer.Length {
        return false, written;
      }
      ghost var done, rest, tail := buffer[..written], From(fields, values, i + 1), buffer[written..];
      CopyBytes(buffer, written, piece.value);
      if rest.Some? {
        Joined(done, piece.value, rest.value);
      }
      assert buffer[written + |piece.value|..] == tail[|piece.value|..];
      written := written + |piece.value|;
      i := i + 1;
    }
    FromEnd(fields, values);
    return true, written;
  }

  method EncodePayload(msgType: nat, values: seq<Value>, buffer: array<byte>) returns (ok: bool, written: nat)
    requires Layout(msgType).Some? ==> AllHold(Layout(msgType).value, values)
    modifies buffer
    ensures Layout(msgType).None? ==> !ok
    ensures Layout(msgType).Some? ==>
              var enc := EncodeFields(Layout(msgType).value, values);
              && (ok <==> enc.Some? && |enc.value| <= buffer.Length)
              && (ok ==> written == |enc.value| && buffer[..written] == enc.value
                         && buffer[written..] == old(buffer[written..]))
  {
    var layout := Layout(msgType);
    if layout.None? {
      return false, 0;
    }
    ok, written := EncodeLayout(layout.value, values, buffer);
  }

  lemma DecodeStep(fields: seq<Field>, i: nat, left: seq<byte>)
    requires i < |fields|
    ensures var next := DecodeField(fields[i], left);
            DecodeFields(fields[i..], left) ==
            if next.None? then None
            else
              var more := DecodeFields(fields[i + 1..], left[next.value.1..]);
              if more.None? then None else Some([next.value.0] + more.value)
  {
  }

  ghost function Prepended(got: seq<Value>, rest: Option<seq<Value>>): Option<seq<Value>>
  {
    if rest.None? then None else Some(got + rest.value)
  }

  lemma PrependTwice(got: seq<Value>, v: Value, rest: Option<seq<Value>>)
    ensures Prepended(got, Prepended([v], rest)) == Prepended(got + [v], rest)
  {
    if rest.Some? {
      assert got + ([v] + rest.value) == got + [v] + rest.value;
    }
  }

  lemma DecodeDone(left: seq<byte>)
    ensures DecodeFields([], left) == if left == [] then Some([]) else None
  {
  }

  method DecodeLayout(fields: seq<Field>, buffer: seq<byte>) returns (values: Option<seq<Value>>)
    ensures values == DecodeFields(fields, buffer)
  {
    hide DecodeField, DecodeFields;
    var readPos := 0;
    var got: seq<Value> := [];
    ghost var whole := DecodeFields(fields, buffer);
    assert fields[0..] == fields && buffer[0..] == buffer;
    assert whole.Some? ==> got + whole.value == whole.value;
    var i := 0;
    while i < |fields|
      invariant 0 <= i <= |fields| && 0 <= readPos <= |buffer|
      invariant whole == Prepended(got, DecodeFields(fields[i..], buffer[readPos..]))
    {
      ghost var left := buffer[readPos..];
      DecodeStep(fields, i, left);
      var next := DecodeField(fields[i], buffer[readPos..]);
      if next.None? {
        return None;
      }
      assert left[next.value.1..] == buffer[readPos + next.value.1..];
      PrependTwice(got, next.value.0, DecodeFields(fields[i + 1..], buffer[readPos + next.value.1..]));
      got := got + [next.value.0];
      readPos := readPos + next.value.1;
      i := i + 1;
    }
    DecodeDone(buffer[readPos..]);
    assert fields[i..] == [];
    if readPos != |buffer| {
      return None;
    }
    assert got + [] == got;
    return Some(got);
  }

  method DecodeMessage(msgType: nat, buffer: seq<byte>) returns (values: Option<seq<Value>>)
    ensures values == DecodePayload(msgType, buffer)
  {
    hide DecodeFields;
    if msgType == STATUS && |buffer| < STATUS_BYTES {
      values := DecodeLayout([Raw(16), Num(4), Num(8), Num(8), Num(8)], buffer);
      return if values.Some? then Some(values.value + [B(Zeros(16))]) else None;
    }
    if msgType == STARTED && |buffer| == 1 {
      values := DecodeLayout([Num(1)], buffer);
      return if values.Some? then Some([B(Zeros(16))] + values.value) else None;
    }
    var layout := Layout(msgType);
    if layout.None? {
      return None;
    }
    values := DecodeLayout(layout.value, buffer);
  }

  // ------------------------------------------------------------------ lemmas

  lemma LayoutsAreWellShaped(msgType: nat)
    ensures Layout(msgType).Some? <==> HELLO <= msgType <= TRANSLATE_CTRL
    ensures Layout(msgType).Some? ==> WellShaped(Layout(msgType).value)
  {
  }

  lemma {:induction false} FieldBytesAtLeast(fields: seq<Field>, values: seq<Value>)
    requires AllHold(fields, values) && EncodeFields(fields, values).Some?
    ensures |EncodeFields(fields, values).value| >= Least(fields)
    decreases |fields|
  {
    if fields != [] {
      FieldBytesAtLeast(fields[1..], values[1..]);
    }
  }

  /** The bytes a layout takes at least. */
  function Least(fields: seq<Field>): nat
  {
    if fields == [] then 0
    else
      (match fields[0]
       case Num(w) => w
       case Raw(k) => k
       case Fixed(k) => k
       case Message(k) => k
       case _ => 0) + Least(fields[1..])
  }

  /** The older forms of a status and a started message are never what the encoder writes. */
  lemma NewFormsAreLong(msgType: nat, values: seq<Value>)
    requires Layout(msgType).Some? && AllHold(Layout(msgType).value, values)
    requires EncodeFields(Layout(msgType).value, values).Some?
    ensures var n := |EncodeFields(Layout(msgType).value, values).value|;
            (msgType == STATUS ==> n >= STATUS_BYTES) && (msgType == STARTED ==> n > 1)
  {
    FieldBytesAtLeast(Layout(msgType).value, values);
    if msgType == STATUS {
      var l := Layout(msgType).value;
      assert Least(l[5..]) == 16 && Least(l[4..]) == 24 && Least(l[3..]) == 32 && Least(l[2..]) == 40;
      assert Least(l[1..]) == 44;
    } else if msgType == STARTED {
      var l := Layout(msgType).value;
      assert Least(l[1..]) == 1;
    }
  }

  // ----------------------------------------------------------- main results

  function TextOf(v: Value): seq<byte> { if v.B? then v.bytes else [] }

  /** The encoder refuses a message exactly when a character array that must be terminated, an error text, has no NUL. */
  lemma {:induction false} EncodableIff(fields: seq<Field>, values: seq<Value>)
    requires AllHold(fields, values) && WellShaped(fields)
    ensures EncodeFields(fields, values).Some? <==>
            forall i :: 0 <= i < |fields| && fields[i].Message? ==> 0 in TextOf(values[i])
    decreases |fields|
  {
    if fields != [] {
      var f, v := fields[0], values[0];
      EncodableIff(fields[1..], values[1..]);
      if f.Message? {
        CStringShort(v.bytes);
      }
      assert EncodeField(f, v).Some? <==> (f.Message? ==> 0 in v.bytes);
      assert forall i :: 1 <= i < |fields| ==> fields[i] == fields[1..][i - 1] && values[i] == values[1..][i - 1];
    }
  }

  /** Every encoded message decodes, and to the same struct exactly when its character arrays are clean. */
  lemma PayloadRoundTrip(msgType: nat, values: seq<Value>)
    requires Layout(msgType).Some? && AllHold(Layout(msgType).value, values)
    requires EncodeFields(Layout(msgType).value, values).Some?
    ensures var fields := Layout(msgType).value;
            var back := DecodePayload(msgType, EncodeFields(fields, values).value);
            && WellShaped(fields) && back == Some(AllSettled(fields, values))
            && (back.value == values <==> AllClean(fields, values))
  {
    LayoutsAreWellShaped(msgType);
    FieldsComeBack(Layout(msgType).value, values);
    NewFormsAreLong(msgType, values);
  }

  const FullName: seq<byte> := seq(32, _ => 65)

  /** A model name that fills its array comes back without its last byte. */
  lemma FullArrayIsCut()
    ensures var values := [B(Zeros(16)), N(1), B(FullName)];
            && AllHold(Layout(14).value, values) && EncodeFields(Layout(14).value, values).Some?
            && DecodePayload(14, EncodeFields(Layout(14).value, values).value) ==
               Some([B(Zeros(16)), N(1), B(FullName[..31] + [0])])
  {
    var values := [B(Zeros(16)), N(1), B(FullName)];
    LastIsCut();
    assert [Raw(16), Num(1), Fixed(32)][1..] == [Num(1), Fixed(32)] && values[1..] == [N(1), B(FullName)];
    assert EncodeFields([Raw(16), Num(1), Fixed(32)], values).Some?;
    PayloadRoundTrip(14, values);
    assert AllSettled([Raw(16), Num(1), Fixed(32)], values) == [B(Zeros(16)), N(1), B(FullName[..31] + [0])];
  }

  lemma LastIsCut()
    ensures AllHold([Num(1), Fixed(32)], [N(1), B(FullName)]) && WellShaped([Num(1), Fixed(32)])
    ensures EncodeFields([Num(1), Fixed(32)], [N(1), B(FullName)]).Some?
    ensures AllSettled([Num(1), Fixed(32)], [N(1), B(FullName)]) == [N(1), B(FullName[..31] + [0])]
  {
    var fields, values := [Num(1), Fixed(32)], [N(1), B(FullName)];
    assert fields[1..] == [Fixed(32)] && fields[1..][1..] == [] && values[1..] == [B(FullName)];
    assert EncodeFields([Fixed(32)], [B(FullName)]).Some?;
    assert AllSettled([Fixed(32)], [B(FullName)]) == [B(FullName[..31] + [0])];
  }

  datatype Sent = Sent(msgType: nat, sequence: nat, values: seq<Value>)

  ghost predicate Encodable(m: Sent)
  {
    && Layout(m.msgType).Some? && AllHold(Layout(m.msgType).value, m.values)
    && EncodeFields(Layout(m.msgType).value, m.values).Some?
  }

  ghost function FrameOf(m: Sent): Frame
    requires Encodable(m)
  {
    Frame(m.msgType, m.sequence, EncodeFields(Layout(m.msgType).value, m.values).value)
  }

  /** A message a peer may send and expect back unchanged. */
  ghost predicate Proper(m: Sent)
  {
    Encodable(m) && Sendable(FrameOf(m)) && AllClean(Layout(m.msgType).value, m.values)
  }

  ghost predicate AllProper(messages: seq<Sent>)
  {
    messages == [] || (Proper(messages[0]) && AllProper(messages[1..]))
  }

  ghost function FramesOf(messages: seq<Sent>): (frames: seq<Frame>)
    requires AllProper(messages)
    ensures |frames| == |messages|
  {
    if messages == [] then [] else [FrameOf(messages[0])] + FramesOf(messages[1..])
  }

  lemma {:induction false} FramesOfAt(messages: seq<Sent>, i: nat)
    requires AllProper(messages) && i < |messages|
    ensures Proper(messages[i]) && FramesOf(messages)[i] == FrameOf(messages[i])
    decreases |messages|
  {
    if i > 0 {
      FramesOfAt(messages[1..], i - 1);
    }
  }

  lemma ProperRoundTrip(m: Sent)
    requires Proper(m)
    ensures DecodePayload(m.msgType, FrameOf(m).payload) == Some(m.values)
    ensures FrameOf(m).msgType == m.msgType && FrameOf(m).sequence == m.sequence && Sendable(FrameOf(m))
  {
    PayloadRoundTrip(m.msgType, m.values);
  }

  ghost predicate Arrived(f: Frame, m: Sent)
  {
    f.msgType == m.msgType && f.sequence == m.sequence && DecodePayload(f.msgType, f.payload) == Some(m.values)
  }

  /** Messages encoded with increasing sequence numbers, framed and concatenated, are read and decoded unchanged. */
  lemma MessagesArrive(messages: seq<Sent>)
    requires AllProper(messages)
    requires forall i, j :: 0 <= i < j < |messages| ==> messages[i].sequence < messages[j].sequence
    ensures var frames := ParseStream(EncodeAll(FramesOf(messages)), None).0;
            |frames| == |messages| && forall i :: 0 <= i < |frames| ==> Arrived(frames[i], messages[i])
  {
    hide Proper, Arrived, Sendable;
    var frames := FramesOf(messages);
    forall i | 0 <= i < |messages|
      ensures frames[i].sequence == messages[i].sequence && Sendable(frames[i]) && Arrived(frames[i], messages[i])
    {
      ProperArrives(messages, i);
    }
    SentIsReceived(frames);
  }

  lemma ProperArrives(messages: seq<Sent>, i: nat)
    requires AllProper(messages) && i < |messages|
    ensures var f := FramesOf(messages)[i];
            f.sequence == messages[i].sequence && Sendable(f) && Arrived(f, messages[i])
  {
    FramesOfAt(messages, i);
    ProperRoundTrip(messages[i]);
  }

  // ---------------------------------------------------------------- wire sizes

  /** The bytes of a value beyond the fixed part of its message. */
  function Extra(f: Field, v: Value): nat
    requires Holds(f, v)
  {
    match f
    case Counted(w) => |v.bytes|
    case Translation => if v.attempted || v.translated != [] then 7 + |v.translated| else 0
    case _ => 0
  }

  predicate Measured(f: Field) { !f.Short? && !f.Url? }

  function FixedPart(f: Field): nat
  {
    match f
    case Num(w) => w
    case Raw(k) => k
    case Fixed(k) => k
    case Message(k) => k
    case Counted(w) => w
    case _ => 0
  }

  function FixedBytes(fields: seq<Field>): nat
  {
    if fields == [] then 0 else FixedPart(fields[0]) + FixedBytes(fields[1..])
  }

  function ExtraBytes(fields: seq<Field>, values: seq<Value>): nat
    requires AllHold(fields, values)
  {
    if fields == [] then 0 else Extra(fields[0], values[0]) + ExtraBytes(fields[1..], values[1..])
  }

  lemma {:induction false} EncodedLength(fields: seq<Field>, values: seq<Value>)
    requires AllHold(fields, values) && EncodeFields(fields, values).Some?
    requires forall i :: 0 <= i < |fields| ==> Measured(fields[i])
    ensures |EncodeFields(fields, values).value| == FixedBytes(fields) + ExtraBytes(fields, values)
    decreases |fields|
  {
    if fields != [] {
      EncodedLength(fields[1..], values[1..]);
    }
  }

  lemma Head(f: Field, rest: seq<Field>)
    ensures FixedBytes([f] + rest) == FixedPart(f) + FixedBytes(rest)
  {
  }

  lemma Two(a: Field, b: Field)
    ensures FixedBytes([a, b]) == FixedPart(a) + FixedPart(b)
  {
    Head(b, []);
    Head(a, [b]);
    assert [b] + [] == [b] && [a] + [b] == [a, b];
  }

  lemma Four(a: Field, b: Field, c: Field, d: Field, rest: seq<Field>)
    ensures FixedBytes([a, b, c, d] + rest) == FixedPart(a) + FixedPart(b) + FixedPart(c) + FixedPart(d) + FixedBytes(rest)
  {
    Head(d, rest);
    Head(c, [d] + rest);
    Head(b, [c, d] + rest);
    Head(a, [b, c, d] + rest);
    assert [c] + ([d] + rest) == [c, d] + rest && [b] + ([c, d] + rest) == [b, c, d] + rest;
    assert [a] + ([b, c, d] + rest) == [a, b, c, d] + rest;
  }

  /** The fixed part of a message. */
  function SizeOf(msgType: nat): nat
  {
    if Layout(msgType).Some? then FixedBytes(Layout(msgType).value) else 0
  }

  lemma AudioSize()
    ensures SizeOf(AUDIO_PCM) == 36
  {
  }

  lemma CaptionSize()
    ensures SizeOf(8) == 43
  {
  }

  lemma StatusSize()
    ensures SizeOf(STATUS) == STATUS_BYTES
  {
  }

  lemma StartedSize()
    ensures SizeOf(STARTED) == 17
  {
    Two(Raw(16), Num(1));
  }

  lemma ModelCtrlSize()
    ensures SizeOf(14) == 49
  {
    Two(Num(1), Fixed(32));
    Head(Raw(16), [Num(1), Fixed(32)]);
    assert [Raw(16)] + [Num(1), Fixed(32)] == Layout(14).value;
  }

  lemma ModelProgressSize()
    ensures SizeOf(15) == 66
  {
    Two(Num(8), Fixed(32));
    Four(Raw(16), Num(1), Num(1), Num(8), [Num(8), Fixed(32)]);
    assert [Raw(16), Num(1), Num(1), Num(8)] + [Num(8), Fixed(32)] == Layout(15).value;
  }

  lemma TranslateCtrlSize()
    ensures SizeOf(TRANSLATE_CTRL) == 50
  {
    Head(Num(1), []);
    Four(Raw(16), Num(1), Fixed(16), Fixed(16), [Num(1)]);
    assert [Num(1)] + [] == [Num(1)] && FixedBytes([]) == 0;
    assert [Raw(16), Num(1), Fixed(16), Fixed(16)] + [Num(1)] == Layout(16).value;
  }

  /** The fixed sizes the program declares for its messages are the sizes of what it writes. */
  lemma DocumentedSizes()
    ensures SizeOf(AUDIO_PCM) == 36 && SizeOf(8) == 43 && SizeOf(STATUS) == 60 && SizeOf(STARTED) == 17
    ensures SizeOf(14) == 49 && SizeOf(15) == 66 && SizeOf(TRANSLATE_CTRL) == 50
  {
    hide SizeOf;
    AudioSize();
    CaptionSize();
    StatusSize();
    StartedSize();
    ModelCtrlSize();
    ModelProgressSize();
    TranslateCtrlSize();
  }

  // ----------------------------------------------- the frame queue's own reader

  /** The duration of a decoded audio payload, 0 when it does not decode or is not positive. */
  function DecodedDurationUs(payload: seq<byte>): nat
  {
    var values := DecodePayload(AUDIO_PCM, payload);
    if values.None? || |values.value| < 3 || !values.value[2].N? then 0
    else
      var n := values.value[2].n;
      if n < TWO_63 then n else 0
  }

  lemma DecodeFirst(f: Field, rest: seq<Field>, bytes: seq<byte>)
    ensures DecodeFields([f] + rest, bytes) ==
            var first := DecodeField(f, bytes);
            if first.None? then None
            else
              var more := DecodeFields(rest, bytes[first.value.1..]);
              if more.None? then None else Some([first.value.0] + more.value)
  {
  }

  /** What is left of an audio payload after its numbers: a count and exactly that many bytes. */
  lemma PcmIsLast(bytes: seq<byte>)
    ensures var r := DecodeFields([Counted(4)], bytes);
            r.Some? <==> |bytes| >= 4 && 4 + FromLe(bytes[..4]) == |bytes|
  {
  }

  lemma AudioFields(payload: seq<byte>)
    ensures var r := DecodePayload(AUDIO_PCM, payload);
            && (r.Some? <==> |payload| >= 36 && 36 + FromLe(payload[32..36]) == |payload|)
            && (r.Some? ==> |r.value| >= 3 && r.value[2] == N(FromLe(payload[24..32])))
  {
    var l := [Raw(16), Num(8), Num(8), Counted(4)];
    assert Layout(AUDIO_PCM).value == l;
    assert l == [Raw(16)] + [Num(8), Num(8), Counted(4)];
    assert [Num(8), Num(8), Counted(4)] == [Num(8)] + [Num(8), Counted(4)];
    assert [Num(8), Counted(4)] == [Num(8)] + [Counted(4)];
    DecodeFirst(Raw(16), [Num(8), Num(8), Counted(4)], payload);
    if |payload| >= 32 {
      var p1, p2, p3 := payload[16..], payload[24..], payload[32..];
      assert p1[8..] == p2 && p2[8..] == p3 && p2[..8] == payload[24..32];
      DecodeFirst(Num(8), [Num(8), Counted(4)], p1);
      DecodeFirst(Num(8), [Counted(4)], p2);
      PcmIsLast(p3);
      if |payload| >= 36 {
        assert p3[..4] == payload[32..36];
      }
    } else if |payload| >= 16 {
      var p1 := payload[16..];
      DecodeFirst(Num(8), [Num(8), Counted(4)], p1);
      if |p1| >= 8 {
        DecodeFirst(Num(8), [Counted(4)], p1[8..]);
      }
    }
  }

  /** The duration the frame queue counts a payload with is the duration the codec decodes from it. */
  lemma QueueCountsDecodedDuration(payload: seq<byte>)
    ensures AudioDurationUs(payload) == DecodedDurationUs(payload)
  {
    hide DecodePayload;
    AudioFields(payload);
    if |payload| >= 36 {
      FromLeBound(payload[24..32]);
      Power256Of8();
    }
  }
}
