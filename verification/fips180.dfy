/**
  SHA-256 for messages of whole bytes, as sections 4.1.2, 4.2.2, 5.1.1, 5.3.3 and 6.2 of FIPS 180-4 define it.
 */
module Fips180 {
  import opened Wire

  const K: seq<bv32> :=
    (([0x428a2f98, 0x71374491, 0xb5c0fbcf, 0xe9b5dba5, 0x3956c25b, 0x59f111f1, 0x923f82a4, 0xab1c5ed5] +
    [0xd807aa98, 0x12835b01, 0x243185be, 0x550c7dc3, 0x72be5d74, 0x80deb1fe, 0x9bdc06a7, 0xc19bf174]) +
    ([0xe49b69c1, 0xefbe4786, 0x0fc19dc6, 0x240ca1cc, 0x2de92c6f, 0x4a7484aa, 0x5cb0a9dc, 0x76f988da] +
    [0x983e5152, 0xa831c66d, 0xb00327c8, 0xbf597fc7, 0xc6e00bf3, 0xd5a79147, 0x06ca6351, 0x14292967])) +
    (([0x27b70a85, 0x2e1b2138, 0x4d2c6dfc, 0x53380d13, 0x650a7354, 0x766a0abb, 0x81c2c92e, 0x92722c85] +
    [0xa2bfe8a1, 0xa81a664b, 0xc24b8b70, 0xc76c51a3, 0xd192e819, 0xd6990624, 0xf40e3585, 0x106aa070]) +
    ([0x19a4c116, 0x1e376c08, 0x2748774c, 0x34b0bcb5, 0x391c0cb3, 0x4ed8aa4a, 0x5b9cca4f, 0x682e6ff3] +
    [0x748f82ee, 0x78a5636f, 0x84c87814, 0x8cc70208, 0x90befffa, 0xa4506ceb, 0xbef9a3f7, 0xc67178f2]))

  /** Addition modulo 2^32. */
  function Plus(x: bv32, y: bv32): bv32 { x + y }

  function Plus4(x: bv32, y: bv32, z: bv32, w: bv32): bv32 { x + y + z + w }

  function Ch(x: bv32, y: bv32, z: bv32): bv32 { (x & y) ^ (!x & z) }

  function Maj(x: bv32, y: bv32, z: bv32): bv32 { (x & y) ^ (x & z) ^ (y & z) }

  function BigSigma0(x: bv32): bv32 { x.RotateRight(2) ^ x.RotateRight(13) ^ x.RotateRight(22) }

  function BigSigma1(x: bv32): bv32 { x.RotateRight(6) ^ x.RotateRight(11) ^ x.RotateRight(25) }

  function SmallSigma0(x: bv32): bv32 { x.RotateRight(7) ^ x.RotateRight(18) ^ (x >> 3) }

  function SmallSigma1(x: bv32): bv32 { x.RotateRight(17) ^ x.RotateRight(19) ^ (x >> 10) }

  /** A block is 64 bytes; its words are big-endian. */
  function Word(block: seq<byte>, t: nat): bv32
    requires |block| == 64 && t < 16
  {
    ((block[4 * t] as bv32) << 24) | ((block[4 * t + 1] as bv32) << 16) | ((block[4 * t + 2] as bv32) << 8)
      | (block[4 * t + 3] as bv32)
  }

  function FirstWords(block: seq<byte>, n: nat): (w: seq<bv32>)
    requires |block| == 64 && n <= 16
    ensures |w| == n
  {
    if n == 0 then [] else FirstWords(block, n - 1) + [Word(block, n - 1)]
  }

  function NextWord(w: seq<bv32>): bv32
    requires |w| >= 16
  {
    var t := |w|;
    Plus4(SmallSigma1(w[t - 2]), w[t - 7], SmallSigma0(w[t - 15]), w[t - 16])
  }

  /** The first n words of the message schedule, step 1 of section 6.2.2. */
  function Schedule(block: seq<byte>, n: nat): (w: seq<bv32>)
    requires |block| == 64 && 16 <= n <= 64
    ensures |w| == n
  {
    if n == 16 then FirstWords(block, 16)
    else
      var w := Schedule(block, n - 1);
      w + [NextWord(w)]
  }

  /** The eight hash words, and the eight working variables. */
  datatype Words = Words(a: bv32, b: bv32, c: bv32, d: bv32, e: bv32, f: bv32, g: bv32, h: bv32)

  const Initial := Words(0x6a09e667, 0xbb67ae85, 0x3c6ef372, 0xa54ff53a, 0x510e527f, 0x9b05688c, 0x1f83d9ab, 0x5be0cd19)

  function Temp1(v: Words, k: bv32, w: bv32): bv32
  {
    Plus(Plus(Plus(Plus(v.h, BigSigma1(v.e)), Ch(v.e, v.f, v.g)), k), w)
  }

  function Temp2(v: Words): bv32 { Plus(BigSigma0(v.a), Maj(v.a, v.b, v.c)) }

  /** One turn of step 3. */
  function Round(v: Words, k: bv32, w: bv32): Words
  {
    Words(Plus(Temp1(v, k, w), Temp2(v)), v.a, v.b, v.c, Plus(v.d, Temp1(v, k, w)), v.e, v.f, v.g)
  }

  function Rounds(v: Words, w: seq<bv32>, t: nat): Words
    requires |w| == 64 && t <= 64
  {
    if t == 0 then v else Round(Rounds(v, w, t - 1), K[t - 1], w[t - 1])
  }

  function Sum(v: Words, w: Words): Words
  {
    Words(Plus(v.a, w.a), Plus(v.b, w.b), Plus(v.c, w.c), Plus(v.d, w.d),
          Plus(v.e, w.e), Plus(v.f, w.f), Plus(v.g, w.g), Plus(v.h, w.h))
  }

  function Compress(v: Words, block: seq<byte>): Words
    requires |block| == 64
  {
    Sum(v, Rounds(v, Schedule(block, 64), 64))
  }

  function HashBlocks(blocks: seq<byte>): Words
    requires |blocks| % 64 == 0
  {
    if blocks == [] then Initial
    else Compress(HashBlocks(blocks[..|blocks| - 64]), blocks[|blocks| - 64..])
  }

  function LowByte(n: nat): byte { (n % 256) as byte }

  /** The k bytes of n, most significant first. */
  function BigEndian(n: nat, k: nat): (bytes: seq<byte>)
    ensures |bytes| == k
  {
    if k == 0 then [] else BigEndian(n / 256, k - 1) + [LowByte(n)]
  }

  /** The zero bytes up to the length field. */
  function ZeroCount(length: nat): (k: nat)
    ensures k < 64 && (length + 1 + k) % 64 == 56
  {
    var used := length % 64;
    if used < 56 then 55 - used else 119 - used
  }

  /** Section 5.1.1. */
  function Padded(message: seq<byte>): (blocks: seq<byte>)
    ensures |blocks| % 64 == 0 && message <= blocks
  {
    message + [0x80] + Zeros(ZeroCount(|message|)) + BigEndian(8 * |message|, 8)
  }

  function Hash(message: seq<byte>): Words { HashBlocks(Padded(message)) }

  /** Byte i of a word, the most significant first. */
  function WordByte(w: bv32, i: nat): byte
    requires i < 4
  {
    ((w >> (24 - 8 * i)) & 0xff) as bv8 as byte
  }

  function WordBytes(w: bv32): (bytes: seq<byte>)
    ensures |bytes| == 4
  {
    [WordByte(w, 0), WordByte(w, 1), WordByte(w, 2), WordByte(w, 3)]
  }

  /** The 32 bytes of a digest. */
  function Digest(v: Words): (bytes: seq<byte>)
    ensures |bytes| == 32
  {
    WordBytes(v.a) + WordBytes(v.b) + WordBytes(v.c) + WordBytes(v.d)
      + WordBytes(v.e) + WordBytes(v.f) + WordBytes(v.g) + WordBytes(v.h)
  }

  // ------------------------------------------------------------------ lemmas

  /** Section 5.1.1 asks for the smallest number of zeros that leaves room for the length field. */
  lemma ZeroCountIsLeast(length: nat, j: nat)
    requires (length + 1 + j) % 64 == 56
    ensures ZeroCount(length) <= j
  {
  }

  function FromBigEndian(bytes: seq<byte>): nat
  {
    if bytes == [] then 0 else 256 * FromBigEndian(bytes[..|bytes| - 1]) + bytes[|bytes| - 1] as nat
  }

  lemma {:induction false} BigEndianRoundTrip(n: nat, k: nat)
    requires n < Power256(k)
    ensures FromBigEndian(BigEndian(n, k)) == n
  {
    if k > 0 {
      BigEndianRoundTrip(n / 256, k - 1);
      assert BigEndian(n, k)[..k - 1] == BigEndian(n / 256, k - 1);
    }
  }

  lemma LengthFits(length: nat)
    requires length < 0x2000_0000_0000_0000
    ensures 8 * length < Power256(8)
  {
  }

  lemma LengthFieldAtEnd(message: seq<byte>)
    ensures var p := Padded(message); |p| >= 8 && p[|p| - 8..] == BigEndian(8 * |message|, 8)
  {
  }

  /** Different messages below 2^61 bytes, the size the standard allows, are padded differently. */
  lemma PaddingIsInjective(a: seq<byte>, b: seq<byte>)
    requires |a| < 0x2000_0000_0000_0000 && |b| < 0x2000_0000_0000_0000
    requires Padded(a) == Padded(b)
    ensures a == b
  {
    LengthFits(|a|);
    LengthFits(|b|);
    LengthFieldAtEnd(a);
    LengthFieldAtEnd(b);
    BigEndianRoundTrip(8 * |a|, 8);
    BigEndianRoundTrip(8 * |b|, 8);
    assert a == Padded(a)[..|a|] && b == Padded(b)[..|b|];
  }
}
