/** What a frame read while the plugin waits for STARTED means, byte by byte. */
module StartAnswers {
  import opened Captions
  import opened ClientReaders
  import opened Frames
  import opened Payloads
  import opened Wire

  lemma OneRaw(bytes: seq<byte>, rest: seq<Field>)
    ensures DecodeFields([Raw(16)] + rest, bytes) ==
            if |bytes| < 16 then None
            else
              var more := DecodeFields(rest, bytes[16..]);
              if more.None? then None else Some([B(bytes[..16])] + more.value)
  {
    assert ([Raw(16)] + rest)[1..] == rest;
  }

  lemma OneNum(w: nat, bytes: seq<byte>, rest: seq<Field>)
    ensures DecodeFields([Num(w)] + rest, bytes) ==
            if |bytes| < w then None
            else
              var more := DecodeFields(rest, bytes[w..]);
              if more.None? then None else Some([N(FromLe(bytes[..w]))] + more.value)
  {
    assert ([Num(w)] + rest)[1..] == rest;
  }

  lemma OneByte(b: byte)
    ensures FromLe([b]) == b as nat
  {
    assert [b][1..] == [] && FromLe([]) == 0;
  }

  /** A flag that ends the payload. */
  lemma LastFlag(bytes: seq<byte>)
    ensures DecodeFields([Num(1)], bytes) == if |bytes| == 1 then Some([N(bytes[0] as nat)]) else None
  {
    assert [Num(1)] + [] == [Num(1)];
    OneNum(1, bytes, []);
    if |bytes| >= 1 {
      assert bytes[..1] == [bytes[0]];
      OneByte(bytes[0]);
      assert [N(bytes[0] as nat)] + [] == [N(bytes[0] as nat)];
    }
  }

  lemma StartedDecodes(payload: seq<byte>)
    requires |payload| != 1
    ensures DecodePayload(12, payload) ==
            if |payload| == 17 then Some([B(payload[..16]), N(payload[16] as nat)]) else None
  {
    assert [Raw(16)] + [Num(1)] == Layout(12).value;
    OneRaw(payload, [Num(1)]);
    if |payload| >= 16 {
      LastFlag(payload[16..]);
      if |payload| == 17 {
        assert [B(payload[..16])] + [N(payload[16] as nat)] == [B(payload[..16]), N(payload[16] as nat)];
      }
    }
  }

  /**
    A STARTED (12) confirms when it is empty, when it is one byte, or when its first sixteen bytes of seventeen are the
    session's; the last byte says 1 if the worker decodes the file itself. Anything else breaks the connection.
   */
  lemma StartedConfirmsIff(payload: seq<byte>, session: seq<byte>)
    requires |session| == 16
    ensures JudgeStarted(payload, session) ==
            if payload == [] then Confirmed(false)
            else if |payload| == 1 then Confirmed(payload[0] == 1)
            else if |payload| == 17 && payload[..16] == session then Confirmed(payload[16] == 1)
            else Broken
  {
    hide DecodeFields;
    if |payload| == 1 {
      LastFlag(payload);
    } else {
      StartedDecodes(payload);
      if |payload| == 17 {
        var values := [B(payload[..16]), N(payload[16] as nat)];
        assert values[..1] == [B(payload[..16])];
        assert values[..1] == [B(session)] <==> payload[..16] == session by {
          assert values[..1][0] == B(payload[..16]);
        }
      }
    }
  }

  /** The message text of an error: 256 bytes that end the payload. */
  lemma LastMessage(bytes: seq<byte>)
    ensures var r := DecodeFields([Message(256)], bytes); (r.Some? <==> |bytes| == 256) && (r.Some? ==> |r.value| == 1)
  {
    assert [Message(256)][1..] == [];
  }

  lemma ErrorDecodes(payload: seq<byte>)
    ensures var values := DecodePayload(10, payload);
            && (values.Some? <==> |payload| == 277)
            && (values.Some? ==> |values.value| == 4 && values.value[0] == B(payload[..16]) &&
                                 values.value[1] == N(FromLe(payload[16..20])) && values.value[2] == N(payload[20] as nat))
  {
    hide DecodeFields;
    assert [Raw(16)] + ([Num(4)] + ([Num(1)] + [Message(256)])) == Layout(10).value;
    OneRaw(payload, [Num(4)] + ([Num(1)] + [Message(256)]));
    if |payload| >= 16 {
      var rest := payload[16..];
      OneNum(4, rest, [Num(1)] + [Message(256)]);
      if |payload| >= 20 {
        assert rest[..4] == payload[16..20] && rest[4..] == payload[20..];
        OneNum(1, payload[20..], [Message(256)]);
        if |payload| >= 21 {
          assert payload[20..][..1] == [payload[20]] && payload[20..][1..] == payload[21..];
          OneByte(payload[20]);
          LastMessage(payload[21..]);
          assert payload[16..][4..] == payload[20..];
        }
      }
    }
  }

  /**
    An ERROR (10) refuses the start when it is empty. Of 277 bytes, with a code from 1 to 15, it is passed over when the
    worker can recover from it and it is the notice that the file could not be opened (10), or one of the translation's
    (11 to 15) about another session; otherwise it refuses. Anything else breaks the connection.
   */
  lemma ErrorRefusesUnless(payload: seq<byte>, session: seq<byte>)
    requires |session| == 16
    ensures JudgeError(payload, session) ==
            if payload == [] then Refused
            else if |payload| != 277 then Broken
            else
              var code, recoverable := FromLe(payload[16..20]), payload[20] != 0;
              if code < 1 || code > 15 then Broken
              else if recoverable && (code == 10 || (code >= 11 && payload[..16] != session)) then Continue
              else Refused
  {
    hide DecodePayload;
    ErrorDecodes(payload);
    if |payload| == 277 {
      var values := DecodePayload(10, payload).value;
      assert values[..1] == [values[0]];
      assert values[..1] != [B(session)] <==> payload[..16] != session by {
        assert values[..1][0] == B(payload[..16]);
      }
    }
  }

  /**
    The first frame that decides ends the wait, whatever follows it; the frames before it are passed over. A confirmation
    whose number is not new, or whose size the current protocol does not know, breaks the connection unread.
   */
  lemma {:induction false} FirstAnswerDecides(frames: seq<Frame>, f: Frame, rest: seq<byte>, session: seq<byte>,
                                              last: Option<nat>, minor: nat)
    requires AllSendable(frames) && Sendable(f)
    requires forall i :: 0 <= i < |frames| ==> frames[i].msgType != 12 && Judge(frames[i], session) == Continue
    ensures Handshake(EncodeAll(frames) + Encode(f) + rest, session, last, minor) ==
            if f.msgType == 12 && ((last.Some? && f.sequence <= last.value) || (minor >= 6 && |f.payload| != 17)) then Broken
            else if Judge(f, session) == Continue then Handshake(rest, session, last, minor)
            else Judge(f, session)
    decreases |frames|
  {
    hide Handshake, Judge, Encode;
    if frames == [] {
      assert EncodeAll(frames) + Encode(f) + rest == Encode(f) + rest;
      HandshakeFront(f, rest, session, last, minor);
    } else {
      var more := EncodeAll(frames[1..]) + Encode(f) + rest;
      assert EncodeAll(frames) + Encode(f) + rest == Encode(frames[0]) + more;
      HandshakeFront(frames[0], more, session, last, minor);
      FirstAnswerDecides(frames[1..], f, rest, session, last, minor);
    }
  }
}
