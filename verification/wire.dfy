/** Bytes on the pipe: message types, little-endian numbers, and the duration field of an audio payload. */
module Wire {

  newtype byte = x: int | 0 <= x < 256

  // Message types of the protocol.
  const HELLO: nat := 1
  const START_SESSION: nat := 3
  const AUDIO_PCM: nat := 4
  const PAUSE: nat := 5
  const RESUME: nat := 6
  const STOP_SESSION: nat := 7
  const CAPTION_SEGMENT: nat := 8
  const STATUS: nat := 9
  const ERROR: nat := 10
  const SHUTDOWN: nat := 11
  const STARTED: nat := 12
  const MODEL_PROGRESS: nat := 15
  const TRANSLATE_CTRL: nat := 16

  function Zeros(k: nat): (zeros: seq<byte>)
    ensures |zeros| == k && forall i :: 0 <= i < k ==> zeros[i] == 0
  {
    if k == 0 then [] else Zeros(k - 1) + [0]
  }

  function Power256(k: nat): nat { if k == 0 then 1 else 256 * Power256(k - 1) }

  /** The k bytes of n, least significant first. */
  function ToLe(n: nat, k: nat): (bytes: seq<byte>)
    ensures |bytes| == k
  {
    if k == 0 then [] else [(n % 256) as byte] + ToLe(n / 256, k - 1)
  }

  function FromLe(bytes: seq<byte>): nat
  {
    if bytes == [] then 0 else bytes[0] as nat + 256 * FromLe(bytes[1..])
  }

  lemma {:induction false} LeRoundTrip(n: nat, k: nat)
    requires n < Power256(k)
    ensures FromLe(ToLe(n, k)) == n
  {
    if k > 0 {
      LeRoundTrip(n / 256, k - 1);
      assert ToLe(n, k)[1..] == ToLe(n / 256, k - 1);
    }
  }

  lemma {:induction false} LeBytesRoundTrip(bytes: seq<byte>)
    ensures ToLe(FromLe(bytes), |bytes|) == bytes
  {
    if bytes != [] {
      LeBytesRoundTrip(bytes[1..]);
      assert FromLe(bytes) % 256 == bytes[0] as nat && FromLe(bytes) / 256 == FromLe(bytes[1..]);
    }
  }

  lemma {:induction false} FromLeBound(bytes: seq<byte>)
    ensures FromLe(bytes) < Power256(|bytes|)
  {
    if bytes != [] {
      FromLeBound(bytes[1..]);
    }
  }

  const TWO_63: nat := 0x8000_0000_0000_0000
  const TWO_64: nat := 0x1_0000_0000_0000_0000

  /** A 64-bit two's complement number read from its eight bytes. */
  function SignedFromLe(bytes: seq<byte>): int
    requires |bytes| == 8
  {
    var n := FromLe(bytes);
    if n >= TWO_63 then n - TWO_64 else n
  }

  /** session id 16, start 8, duration 8, byte count 4, then exactly that many bytes; 0 for anything else. */
  function AudioDurationUs(payload: seq<byte>): nat
  {
    if |payload| < 36 || 36 + FromLe(payload[32..36]) != |payload| then 0
    else
      var duration := SignedFromLe(payload[24..32]);
      if duration > 0 then duration else 0
  }
}
