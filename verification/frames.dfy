/**
  Frames on the pipe: a 20-byte little-endian header and a payload. `ParseStream` is what a byte stream means; the readers
  of both processes are proved against it for every way the bytes may arrive.
 */
module Frames {
  import opened Captions
  import opened Wire

  const MAGIC: nat := 0x564C4357
  const VERSION_MAJOR: nat := 1
  const MAX_PAYLOAD_BYTES: nat := 1048576
  const HEADER_BYTES: nat := 20

  datatype Header = Header(magic: nat, major: nat, msgType: nat, payloadLength: nat, sequence: nat)

  predicate ValidateHeader(h: Header)
  {
    && h.magic == MAGIC
    && h.major == VERSION_MAJOR
    && h.payloadLength <= MAX_PAYLOAD_BYTES
    && HELLO <= h.msgType <= TRANSLATE_CTRL
  }

  function EncodeHeader(h: Header): (bytes: seq<byte>)
    ensures |bytes| == HEADER_BYTES
  {
    ToLe(h.magic, 4) + ToLe(h.major, 2) + ToLe(h.msgType, 2) + ToLe(h.payloadLength, 4) + ToLe(h.sequence, 8)
  }

  function DecodeHeader(bytes: seq<byte>): Option<Header>
  {
    if |bytes| < HEADER_BYTES then None
    else
      var h := Header(FromLe(bytes[..4]), FromLe(bytes[4..6]), FromLe(bytes[6..8]), FromLe(bytes[8..12]),
                      FromLe(bytes[12..20]));
      if ValidateHeader(h) then Some(h) else None
  }

  datatype Frame = Frame(msgType: nat, sequence: nat, payload: seq<byte>)

  function HeaderOf(f: Frame): Header
  {
    Header(MAGIC, VERSION_MAJOR, f.msgType, |f.payload|, f.sequence)
  }

  function Encode(f: Frame): seq<byte> { EncodeHeader(HeaderOf(f)) + f.payload }

  function EncodeAll(frames: seq<Frame>): seq<byte>
  {
    if frames == [] then [] else Encode(frames[0]) + EncodeAll(frames[1..])
  }

  /** A frame a peer may send: a known type, at most a megabyte, a 64-bit sequence number. */
  predicate Sendable(f: Frame)
  {
    HELLO <= f.msgType <= TRANSLATE_CTRL && |f.payload| <= MAX_PAYLOAD_BYTES && f.sequence < TWO_64
  }

  ghost predicate AllSendable(frames: seq<Frame>) { forall i :: 0 <= i < |frames| ==> Sendable(frames[i]) }

  predicate Stale(sequence: nat, last: Option<nat>) { last.Some? && sequence <= last.value }

  /** The frames accepted from a byte stream that ends after `bytes`, and the newest sequence number accepted. */
  function ParseStream(bytes: seq<byte>, last: Option<nat>): (seq<Frame>, Option<nat>)
    decreases |bytes|
  {
    var header := DecodeHeader(bytes);
    if header.None? || |bytes| < HEADER_BYTES + header.value.payloadLength then ([], last)
    else
      var h, rest := header.value, bytes[HEADER_BYTES + header.value.payloadLength..];
      if Stale(h.sequence, last) then ParseStream(rest, last)
      else
        var (frames, newest) := ParseStream(rest, Some(h.sequence));
        ([Frame(h.msgType, h.sequence, bytes[HEADER_BYTES..HEADER_BYTES + h.payloadLength])] + frames, newest)
  }

  /** The frames with a sequence number above all accepted before them. */
  function Increasing(frames: seq<Frame>, last: Option<nat>): (seq<Frame>, Option<nat>)
  {
    if frames == [] then ([], last)
    else if Stale(frames[0].sequence, last) then Increasing(frames[1..], last)
    else
      var (rest, newest) := Increasing(frames[1..], Some(frames[0].sequence));
      ([frames[0]] + rest, newest)
  }

  // ------------------------------------------------------------------ lemmas

  lemma HeaderFieldsFit(h: Header)
    requires ValidateHeader(h) && h.sequence < TWO_64
    ensures h.magic < Power256(4) && h.major < Power256(2) && h.msgType < Power256(2)
    ensures h.payloadLength < Power256(4) && h.sequence < Power256(8)
  {
  }

  /** A header is valid with the program's magic number and version, a type from 1 to 16, and at most a megabyte to come. */
  lemma HeaderIsValidIff(h: Header)
    ensures ValidateHeader(h) <==>
            h.magic == 0x564C_4357 && h.major == 1 && 1 <= h.msgType <= 16 && h.payloadLength <= 1_048_576
  {
  }

  lemma HeaderSlices(a: seq<byte>, b: seq<byte>, c: seq<byte>, d: seq<byte>, e: seq<byte>, tail: seq<byte>)
    requires |a| == 4 && |b| == 2 && |c| == 2 && |d| == 4 && |e| == 8
    ensures var bytes := a + b + c + d + e + tail;
            && bytes[..4] == a && bytes[4..6] == b && bytes[6..8] == c && bytes[8..12] == d && bytes[12..20] == e
            && bytes[20..] == tail
  {
  }

  /** A valid header read back is the header written. */
  lemma HeaderRoundTrip(h: Header, tail: seq<byte>)
    requires ValidateHeader(h) && h.sequence < TWO_64
    ensures DecodeHeader(EncodeHeader(h) + tail) == Some(h)
  {
    HeaderFieldsFit(h);
    HeaderSlices(ToLe(h.magic, 4), ToLe(h.major, 2), ToLe(h.msgType, 2), ToLe(h.payloadLength, 4), ToLe(h.sequence, 8),
                 tail);
    LeRoundTrip(h.magic, 4);
    LeRoundTrip(h.major, 2);
    LeRoundTrip(h.msgType, 2);
    LeRoundTrip(h.payloadLength, 4);
    LeRoundTrip(h.sequence, 8);
  }

  /** Every accepted header is the encoding of what it decodes to. */
  lemma HeaderBytes(bytes: seq<byte>)
    requires |bytes| == HEADER_BYTES && DecodeHeader(bytes).Some?
    ensures EncodeHeader(DecodeHeader(bytes).value) == bytes
    ensures DecodeHeader(bytes).value.sequence < TWO_64
  {
    LeBytesRoundTrip(bytes[..4]);
    LeBytesRoundTrip(bytes[4..6]);
    LeBytesRoundTrip(bytes[6..8]);
    LeBytesRoundTrip(bytes[8..12]);
    LeBytesRoundTrip(bytes[12..20]);
    FromLeBound(bytes[12..20]);
    Power256Of8();
    assert bytes == bytes[..4] + bytes[4..6] + bytes[6..8] + bytes[8..12] + bytes[12..20];
  }

  lemma Power256Of8()
    ensures Power256(8) == TWO_64
  {
  }

  /** The frame at the front of a stream, by its header. */
  lemma FrameBytes(header: seq<byte>, payload: seq<byte>)
    requires |header| == HEADER_BYTES && DecodeHeader(header).Some?
    requires |payload| == DecodeHeader(header).value.payloadLength
    ensures var h := DecodeHeader(header).value;
            var f := Frame(h.msgType, h.sequence, payload);
            Sendable(f) && Encode(f) == header + payload
  {
    HeaderBytes(header);
  }

  lemma FrameFront(f: Frame, tail: seq<byte>)
    requires Sendable(f)
    ensures var bytes := Encode(f) + tail;
            && DecodeHeader(bytes) == Some(HeaderOf(f))
            && |bytes| >= HEADER_BYTES + |f.payload|
            && bytes[HEADER_BYTES..HEADER_BYTES + |f.payload|] == f.payload
            && bytes[HEADER_BYTES + |f.payload|..] == tail
  {
    assert Encode(f) + tail == EncodeHeader(HeaderOf(f)) + (f.payload + tail);
    HeaderRoundTrip(HeaderOf(f), f.payload + tail);
  }

  lemma ParseFront(f: Frame, rest: seq<byte>, last: Option<nat>)
    requires Sendable(f)
    ensures ParseStream(Encode(f) + rest, last) ==
            if Stale(f.sequence, last) then ParseStream(rest, last)
            else ([f] + ParseStream(rest, Some(f.sequence)).0, ParseStream(rest, Some(f.sequence)).1)
  {
    FrameFront(f, rest);
  }

  /**
    Frames of any sequence numbers, written one after another, are read back exactly: a stale one is skipped without
    losing the boundary of the next, and whatever follows them is read as if they had not been there.
   */
  lemma {:induction false} StaleFramesAreSkipped(frames: seq<Frame>, last: Option<nat>, tail: seq<byte>)
    requires AllSendable(frames)
    ensures var (accepted, newest) := Increasing(frames, last);
            var (more, end) := ParseStream(tail, newest);
            ParseStream(EncodeAll(frames) + tail, last) == (accepted + more, end)
    decreases |frames|
  {
    hide ParseStream, Encode, Sendable;
    if frames == [] {
      assert EncodeAll(frames) + tail == tail;
      assert [] + ParseStream(tail, last).0 == ParseStream(tail, last).0;
    } else {
      var f, rest := frames[0], EncodeAll(frames[1..]) + tail;
      assert EncodeAll(frames) + tail == Encode(f) + rest;
      ParseFront(f, rest, last);
      var last' := if Stale(f.sequence, last) then last else Some(f.sequence);
      StaleFramesAreSkipped(frames[1..], last', tail);
      var (accepted, newest) := Increasing(frames[1..], last');
      var (more, end) := ParseStream(tail, newest);
      assert [f] + accepted + more == [f] + (accepted + more);
    }
  }

  ghost predicate InOrder(frames: seq<Frame>, last: Option<nat>)
  {
    && (forall i :: 0 <= i < |frames| ==> !Stale(frames[i].sequence, last))
    && forall i, j :: 0 <= i < j < |frames| ==> frames[i].sequence < frames[j].sequence
  }

  lemma {:induction false} IncreasingKeepsAll(frames: seq<Frame>, last: Option<nat>)
    requires InOrder(frames, last)
    ensures Increasing(frames, last).0 == frames
  {
    if frames != [] {
      assert InOrder(frames[1..], Some(frames[0].sequence));
      IncreasingKeepsAll(frames[1..], Some(frames[0].sequence));
    }
  }

  /** What one peer sends with increasing sequence numbers is what the other reads. */
  lemma SentIsReceived(frames: seq<Frame>)
    requires AllSendable(frames) && InOrder(frames, None)
    ensures ParseStream(EncodeAll(frames), None).0 == frames
  {
    StaleFramesAreSkipped(frames, None, []);
    assert EncodeAll(frames) + [] == EncodeAll(frames);
    IncreasingKeepsAll(frames, None);
  }

  /** Whatever the bytes, the accepted frames have strictly increasing sequence numbers. */
  lemma {:induction false} AcceptedInOrder(bytes: seq<byte>, last: Option<nat>)
    ensures InOrder(ParseStream(bytes, last).0, last)
    decreases |bytes|
  {
    var header := DecodeHeader(bytes);
    if header.Some? && |bytes| >= HEADER_BYTES + header.value.payloadLength {
      var h, rest := header.value, bytes[HEADER_BYTES + header.value.payloadLength..];
      if Stale(h.sequence, last) {
        AcceptedInOrder(rest, last);
      } else {
        AcceptedInOrder(rest, Some(h.sequence));
      }
    }
  }
}
