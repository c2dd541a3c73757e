/**
  The streaming hash the worker checks downloaded models with: bytes are collected into one 64-byte block, which is
  compressed in place whenever it is full; the last one or two blocks are padded in that buffer.
 */
module Sha256 {
  import opened Fips180
  import opened Wire

  class Context {
    const state: array<bv32>
    const data: array<byte>
    var datalen: nat
    var bitlen: nat

    // the part of the message that has been compressed
    ghost var compressed: seq<byte>

    predicate Shape()
    {
      state.Length == 8 && data.Length == 64
    }

    function State(): Words
      requires Shape()
      reads state
    {
      Words(state[0], state[1], state[2], state[3], state[4], state[5], state[6], state[7])
    }

    ghost predicate Valid()
      reads this, state, data
    {
      && Shape()
      && datalen < 64
      && |compressed| % 64 == 0
      && bitlen == 8 * |compressed|
      && State() == HashBlocks(compressed)
    }

    /** Every byte given so far. */
    ghost function Message(): seq<byte>
      requires Shape() && datalen < 64
      reads this, data
    {
      compressed + data[..datalen]
    }

    constructor ()
      ensures Valid() && Message() == [] && fresh(state) && fresh(data)
    {
      state := new bv32[8];
      data := new byte[64];
      datalen, bitlen, compressed := 0, 0, [];
      new;
      state[0], state[1], state[2], state[3] := 0x6a09e667, 0xbb67ae85, 0x3c6ef372, 0xa54ff53a;
      state[4], state[5], state[6], state[7] := 0x510e527f, 0x9b05688c, 0x1f83d9ab, 0x5be0cd19;
    }

    method Transform()
      requires Shape()
      modifies state
      ensures State() == Compress(old(State()), data[..])
    {
      var w := MessageSchedule(data);
      var v := WorkingVariables(State(), w);
      AddToState(v);
    }

    method AddToState(v: Words)
      requires Shape()
      modifies state
      ensures State() == Sum(old(State()), v)
    {
      hide Plus;
      state[0] := Plus(state[0], v.a);
      state[1] := Plus(state[1], v.b);
      state[2] := Plus(state[2], v.c);
      state[3] := Plus(state[3], v.d);
      state[4] := Plus(state[4], v.e);
      state[5] := Plus(state[5], v.f);
      state[6] := Plus(state[6], v.g);
      state[7] := Plus(state[7], v.h);
    }

    method Update(bytes: seq<byte>)
      requires Valid()
      modifies this, state, data
      ensures Valid() && Message() == old(Message()) + bytes
    {
      hide State, HashBlocks;
      ghost var before := Message();
      var i := 0;
      while i < |bytes|
        invariant 0 <= i <= |bytes| && Valid()
        invariant Message() == before + bytes[..i]
      {
        AddByte(bytes[i]);
        assert bytes[..i + 1] == bytes[..i] + [bytes[i]];
        i := i + 1;
      }
      assert bytes[..i] == bytes;
    }

    method AddByte(x: byte)
      requires Valid()
      modifies this, state, data
      ensures Valid() && Message() == old(Message()) + [x]
    {
      hide State, HashBlocks;
      ghost var held := data[..datalen];
      data[datalen] := x;
      datalen := datalen + 1;
      assert data[..datalen] == held + [x];
      if datalen == 64 {
        CompressBlock();
      }
    }

    method CompressBlock()
      requires Shape() && datalen == 64
      requires |compressed| % 64 == 0 && bitlen == 8 * |compressed| && State() == HashBlocks(compressed)
      modifies this, state
      ensures Valid() && Message() == old(compressed + data[..])
    {
      hide State, Compress, HashBlocks;
      TransformAfter(compressed);
      compressed := compressed + data[..];
      bitlen := bitlen + 512;
      datalen := 0;
    }

    /** Pads the message up to its length field; `blocks` is what has been compressed by then. */
    method PadBlock() returns (ghost blocks: seq<byte>)
      requires Valid()
      modifies state, data
      ensures Shape() && |blocks| % 64 == 0 && State() == HashBlocks(blocks)
      ensures Padded(old(Message())) == blocks + data[..56] + BigEndian(8 * |old(Message())|, 8)
    {
      hide State, Compress, HashBlocks;
      ghost var held, message := data[..datalen], Message();
      data[datalen] := 0x80;
      var i := datalen + 1;
      assert data[..i] == held + [0x80];
      if datalen < 56 {
        FillZeros(data, i, 56);
        assert data[..56] == held + [0x80] + Zeros(56 - i);
        PaddedInOne(compressed, held);
        return compressed;
      }
      FillZeros(data, i, 64);
      assert data[..] == held + [0x80] + Zeros(64 - i);
      blocks := compressed + data[..];
      PaddedInTwo(compressed, held);
      TransformAfter(compressed);
      FillZeros(data, 0, 56);
      assert data[..56] == Zeros(56);
    }

    method TransformAfter(ghost blocks: seq<byte>)
      requires Shape() && |blocks| % 64 == 0 && State() == HashBlocks(blocks)
      modifies state
      ensures |blocks + data[..]| == |blocks| + 64 && (|blocks| + 64) % 64 == 0
      ensures State() == HashBlocks(blocks + data[..])
    {
      hide State, Compress, HashBlocks;
      OneMoreBlock(blocks, data[..]);
      Transform();
    }

    /** Pads and compresses what is left of the message. */
    method Finish()
      requires Valid()
      modifies this, state, data
      ensures State() == Hash(old(Message()))
    {
      hide State, Compress, HashBlocks, Padded;
      ghost var message := Message();
      ghost var blocks := PadBlock();
      bitlen := bitlen + datalen * 8;
      assert bitlen == 8 * |message|;
      ghost var start := data[..56];
      WriteLength(data, bitlen);
      assert Padded(message) == blocks + data[..] by {
        assert data[..] == start + BigEndian(bitlen, 8);
        assert blocks + (start + BigEndian(bitlen, 8)) == blocks + start + BigEndian(bitlen, 8);
      }
      TransformAfter(blocks);
    }

    method Final(hash: array<byte>)
      requires Valid() && hash.Length >= 32 && hash != data
      modifies this, state, data, hash
      ensures hash[..32] == Digest(Hash(old(Message()))) && hash[32..] == old(hash[32..])
    {
      hide Digest, Hash;
      Finish();
      WriteDigest(state[..], hash);
    }
  }

  /** The digest of a message given in one piece. */
  method HashOf(message: seq<byte>, hash: array<byte>)
    requires hash.Length >= 32
    modifies hash
    ensures hash[..32] == Digest(Hash(message)) && hash[32..] == old(hash[32..])
  {
    hide Digest, Hash;
    var context := new Context();
    context.Update(message);
    assert context.Message() == message;
    context.Final(hash);
  }

  /** Byte i of every state word. */
  method WriteColumn(words: seq<bv32>, hash: array<byte>, i: nat)
    requires |words| == 8 && hash.Length >= 32 && i < 4
    modifies hash
    ensures forall j :: 0 <= j < 8 ==> hash[i + j * 4] == WordByte(words[j], i)
    ensures forall k :: 0 <= k < hash.Length && (k >= 32 || k % 4 != i) ==> hash[k] == old(hash[k])
  {
    hide WordByte;
    var j := 0;
    while j < 8
      invariant 0 <= j <= 8
      invariant forall m :: 0 <= m < j ==> hash[i + m * 4] == WordByte(words[m], i)
      invariant forall k :: 0 <= k < hash.Length && (k >= 32 || k % 4 != i) ==> hash[k] == old(hash[k])
    {
      hash[i + j * 4] := WordByte(words[j], i);
      j := j + 1;
    }
  }

  method WriteDigest(words: seq<bv32>, hash: array<byte>)
    requires |words| == 8 && hash.Length >= 32
    modifies hash
    ensures hash[32..] == old(hash[32..])
    ensures hash[..32] ==
            Digest(Words(words[0], words[1], words[2], words[3], words[4], words[5], words[6], words[7]))
  {
    hide WordByte, Digest;
    var i := 0;
    while i < 4
      invariant 0 <= i <= 4
      invariant forall k, j :: 0 <= k < i && 0 <= j < 8 ==> hash[k + j * 4] == WordByte(words[j], k)
      invariant forall k :: 32 <= k < hash.Length ==> hash[k] == old(hash[k])
    {
      WriteColumn(words, hash, i);
      i := i + 1;
    }
    DigestIs(words, hash[..32]);
  }

  lemma DigestIs(w: seq<bv32>, bytes: seq<byte>)
    requires |w| == 8 && |bytes| == 32
    requires forall k, j :: 0 <= k < 4 && 0 <= j < 8 ==> bytes[k + j * 4] == WordByte(w[j], k)
    ensures bytes == Digest(Words(w[0], w[1], w[2], w[3], w[4], w[5], w[6], w[7]))
  {
    hide WordByte, WordBytes;
    forall j | 0 <= j < 8
      ensures bytes[4 * j..4 * j + 4] == WordBytes(w[j])
    {
      FourBytes(bytes, j, w[j]);
    }
    EightWords(w, bytes);
  }

  lemma EightWords(w: seq<bv32>, bytes: seq<byte>)
    requires |w| == 8 && |bytes| == 32
    requires forall j :: 0 <= j < 8 ==> bytes[4 * j..4 * j + 4] == WordBytes(w[j])
    ensures bytes == Digest(Words(w[0], w[1], w[2], w[3], w[4], w[5], w[6], w[7]))
  {
    hide WordBytes;
    InFours(bytes);
    assert bytes[0..4] == WordBytes(w[0]) && bytes[4..8] == WordBytes(w[1]);
    assert bytes[8..12] == WordBytes(w[2]) && bytes[12..16] == WordBytes(w[3]);
    assert bytes[16..20] == WordBytes(w[4]) && bytes[20..24] == WordBytes(w[5]);
    assert bytes[24..28] == WordBytes(w[6]) && bytes[28..32] == WordBytes(w[7]);
  }

  lemma FourBytes(bytes: seq<byte>, j: nat, x: bv32)
    requires 4 * j + 4 <= |bytes|
    requires forall k :: 0 <= k < 4 ==> bytes[k + j * 4] == WordByte(x, k)
    ensures bytes[4 * j..4 * j + 4] == WordBytes(x)
  {
  }

  lemma InFours(bytes: seq<byte>)
    requires |bytes| == 32
    ensures bytes == bytes[0..4] + bytes[4..8] + bytes[8..12] + bytes[12..16] + bytes[16..20] + bytes[20..24]
                     + bytes[24..28] + bytes[28..32]
  {
  }

  lemma PaddedInOne(compressed: seq<byte>, held: seq<byte>)
    requires |compressed| % 64 == 0 && |held| < 56
    ensures Padded(compressed + held) ==
            compressed + (held + [0x80] + Zeros(55 - |held|)) + BigEndian(8 * |compressed + held|, 8)
  {
    assert |compressed + held| % 64 == |held|;
    Regroup(compressed, held, [0x80], Zeros(55 - |held|), BigEndian(8 * |compressed + held|, 8));
  }

  lemma Regroup(a: seq<byte>, b: seq<byte>, c: seq<byte>, d: seq<byte>, e: seq<byte>)
    ensures a + b + c + d + e == a + (b + c + d) + e
  {
  }

  lemma RegroupTwo(a: seq<byte>, b: seq<byte>, c: seq<byte>, d: seq<byte>, e: seq<byte>, f: seq<byte>)
    ensures a + b + c + (d + e) + f == a + (b + c + d) + e + f
  {
  }

  lemma PaddedInTwo(compressed: seq<byte>, held: seq<byte>)
    requires |compressed| % 64 == 0 && 56 <= |held| < 64
    ensures Padded(compressed + held) ==
            compressed + (held + [0x80] + Zeros(63 - |held|)) + Zeros(56) + BigEndian(8 * |compressed + held|, 8)
  {
    assert |compressed + held| % 64 == |held|;
    ZerosJoin(63 - |held|, 56);
    RegroupTwo(compressed, held, [0x80], Zeros(63 - |held|), Zeros(56), BigEndian(8 * |compressed + held|, 8));
  }

  lemma {:induction false} ZerosJoin(a: nat, b: nat)
    ensures Zeros(a + b) == Zeros(a) + Zeros(b)
  {
  }

  // ------------------------------------------------------------- finishing

  method FillZeros(data: array<byte>, start: nat, end: nat)
    requires start <= end <= data.Length
    modifies data
    ensures data[..] == old(data[..start]) + Zeros(end - start) + old(data[end..])
  {
    var i := start;
    while i < end
      invariant start <= i <= end
      invariant forall j :: start <= j < i ==> data[j] == 0
      invariant forall j :: 0 <= j < data.Length && !(start <= j < i) ==> data[j] == old(data[j])
    {
      data[i] := 0;
      i := i + 1;
    }
  }

  method WriteLength(data: array<byte>, bitlen: nat)
    requires data.Length == 64
    modifies data
    ensures data[..] == old(data[..56]) + BigEndian(bitlen, 8)
  {
    data[63] := LowByte(bitlen);
    data[62] := LowByte(bitlen / 0x100);
    data[61] := LowByte(bitlen / 0x1_0000);
    data[60] := LowByte(bitlen / 0x100_0000);
    data[59] := LowByte(bitlen / 0x1_0000_0000);
    data[58] := LowByte(bitlen / 0x100_0000_0000);
    data[57] := LowByte(bitlen / 0x1_0000_0000_0000);
    data[56] := LowByte(bitlen / 0x100_0000_0000_0000);
    LengthField(bitlen);
    assert data[56..] == BigEndian(bitlen, 8);
    assert data[..] == data[..56] + data[56..];
  }

  lemma LengthField(n: nat)
    ensures BigEndian(n, 8) ==
            [LowByte(n / 0x100_0000_0000_0000), LowByte(n / 0x1_0000_0000_0000), LowByte(n / 0x100_0000_0000),
             LowByte(n / 0x1_0000_0000), LowByte(n / 0x100_0000), LowByte(n / 0x1_0000), LowByte(n / 0x100), LowByte(n)]
  {
    var n1, n2 := n / 0x100, n / 0x1_0000;
    var n3, n4 := n / 0x100_0000, n / 0x1_0000_0000;
    var n5, n6 := n / 0x100_0000_0000, n / 0x1_0000_0000_0000;
    var n7 := n / 0x100_0000_0000_0000;
    assert n1 / 256 == n2 && n2 / 256 == n3 && n3 / 256 == n4 && n4 / 256 == n5 && n5 / 256 == n6 && n6 / 256 == n7;
    assert BigEndian(n7, 1) == [LowByte(n7)];
    assert BigEndian(n6, 2) == [LowByte(n7), LowByte(n6)];
    assert BigEndian(n5, 3) == [LowByte(n7), LowByte(n6), LowByte(n5)];
    assert BigEndian(n4, 4) == [LowByte(n7), LowByte(n6), LowByte(n5), LowByte(n4)];
    assert BigEndian(n3, 5) == [LowByte(n7), LowByte(n6), LowByte(n5), LowByte(n4), LowByte(n3)];
    assert BigEndian(n2, 6) == [LowByte(n7), LowByte(n6), LowByte(n5), LowByte(n4), LowByte(n3), LowByte(n2)];
  }

  // ------------------------------------------------------------- one block

  method MessageSchedule(data: array<byte>) returns (w: array<bv32>)
    requires data.Length == 64
    ensures fresh(w) && w.Length == 64 && w[..] == Schedule(data[..], 64)
  {
    hide Word, NextWord;
    w := new bv32[64];
    var i := 0;
    while i < 16
      invariant 0 <= i <= 16
      invariant w[..i] == FirstWords(data[..], i)
    {
      ghost var done := w[..i];
      w[i] := BlockWord(data, i);
      assert w[..i + 1] == done + [w[i]];
      i := i + 1;
    }
    while i < 64
      invariant 16 <= i <= 64
      invariant w[..i] == Schedule(data[..], i)
    {
      ghost var done := w[..i];
      w[i] := ScheduleWord(w, i);
      assert w[..i + 1] == done + [w[i]];
      i := i + 1;
    }
    assert w[..i] == w[..];
  }

  method BlockWord(data: array<byte>, i: nat) returns (x: bv32)
    requires data.Length == 64 && i < 16
    ensures x == Word(data[..], i)
  {
    x := ((data[i * 4] as bv32) << 24) | ((data[i * 4 + 1] as bv32) << 16) | ((data[i * 4 + 2] as bv32) << 8)
      | (data[i * 4 + 3] as bv32);
  }

  // Rotations are written as pairs of shifts.

  method ShiftBig0(x: bv32) returns (y: bv32)
    ensures y == BigSigma0(x)
  {
    y := ((x >> 2) | (x << 30)) ^ ((x >> 13) | (x << 19)) ^ ((x >> 22) | (x << 10));
  }

  method ShiftBig1(x: bv32) returns (y: bv32)
    ensures y == BigSigma1(x)
  {
    y := ((x >> 6) | (x << 26)) ^ ((x >> 11) | (x << 21)) ^ ((x >> 25) | (x << 7));
  }

  method ShiftSmall0(x: bv32) returns (y: bv32)
    ensures y == SmallSigma0(x)
  {
    y := ((x >> 7) | (x << 25)) ^ ((x >> 18) | (x << 14)) ^ (x >> 3);
  }

  method ShiftSmall1(x: bv32) returns (y: bv32)
    ensures y == SmallSigma1(x)
  {
    y := ((x >> 17) | (x << 15)) ^ ((x >> 19) | (x << 13)) ^ (x >> 10);
  }

  method ScheduleWord(w: array<bv32>, i: nat) returns (x: bv32)
    requires 16 <= i < w.Length
    ensures x == NextWord(w[..i])
  {
    hide Plus4, SmallSigma0, SmallSigma1;
    var s0 := ShiftSmall0(w[i - 15]);
    var s1 := ShiftSmall1(w[i - 2]);
    x := Plus4(w[i - 16], s0, w[i - 7], s1);
    AnyOrder(w[i - 16], s0, w[i - 7], s1);
  }

  lemma AnyOrder(a: bv32, b: bv32, c: bv32, d: bv32)
    ensures Plus4(a, b, c, d) == Plus4(d, c, b, a)
  {
  }

  method WorkingVariables(start: Words, w: array<bv32>) returns (v: Words)
    requires w.Length == 64
    ensures v == Rounds(start, w[..], 64)
  {
    v := start;
    var i := 0;
    while i < 64
      invariant 0 <= i <= 64
      invariant v == Rounds(start, w[..], i)
    {
      v := Turn(v, K[i], w[i]);
      i := i + 1;
    }
  }

  method Turn(v: Words, k: bv32, w: bv32) returns (r: Words)
    ensures r == Round(v, k, w)
  {
    hide Plus, BigSigma0, BigSigma1, Ch, Maj;
    var a, b, c, d := v.a, v.b, v.c, v.d;
    var e, f, g, h := v.e, v.f, v.g, v.h;
    var s1 := ShiftBig1(e);
    var temp1 := Plus(Plus(Plus(Plus(h, s1), Ch(e, f, g)), k), w);
    var s0 := ShiftBig0(a);
    var temp2 := Plus(s0, Maj(a, b, c));
    h := g;
    g := f;
    f := e;
    e := Plus(d, temp1);
    d := c;
    c := b;
    b := a;
    a := Plus(temp1, temp2);
    r := Words(a, b, c, d, e, f, g, h);
  }

  lemma OneMoreBlock(blocks: seq<byte>, block: seq<byte>)
    requires |blocks| % 64 == 0 && |block| == 64
    ensures HashBlocks(blocks + block) == Compress(HashBlocks(blocks), block)
  {
  }
}
