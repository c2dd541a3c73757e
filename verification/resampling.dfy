/** The plugin's rational resampler as functions. */
module Resampling {
  // An accumulator gains the target rate for each input frame and pays the source rate for each output sample. A frame
  // holds one sample for each channel, in one of three formats; floating point samples are real numbers here, so the
  // rounding of a product is not modelled, nor are numbers that are none.

  const MAX_CHUNK_FRAMES: nat := 8192
  const TARGET_RATE: nat := 16000

  /** C division: towards zero. */
  function TruncDiv(a: int, b: nat): int
    requires b > 0
  {
    if a >= 0 then a / b else -((-a) / b)
  }

  datatype Sample = FL32(x: real) | S16(v: int) | S32(w: int)

  /** A sample as a 16-bit number: a float clipped to [-1, 1] and cut towards zero, the high half of a 32-bit one. */
  function ToPcm16(s: Sample): int
  {
    match s
    case FL32(x) =>
      var clipped := if x > 1.0 then 1.0 else if x < -1.0 then -1.0 else x;
      if clipped >= 0.0 then (clipped * 32767.0).Floor else -((-clipped) * 32767.0).Floor
    case S16(v) => v
    case S32(w) => w / 65536
  }

  function ChannelSum(frame: seq<Sample>): int
  {
    if frame == [] then 0 else ChannelSum(frame[..|frame| - 1]) + ToPcm16(frame[|frame| - 1])
  }

  function Clamp(x: int): int { if x > 32767 then 32767 else if x < -32768 then -32768 else x }

  /** The mono sample of a frame. */
  function Mono(frame: seq<Sample>): int
  {
    if frame == [] then 0 else Clamp(TruncDiv(ChannelSum(frame), |frame|))
  }

  /** Output samples paid for by an accumulator, each a copy of x, and what is left. */
  function Pay(acc: nat, rate: nat, x: int): (r: (seq<int>, nat))
    requires rate > 0
    ensures r.1 < rate
  {
    if acc < rate then ([], acc)
    else
      var (rest, left) := Pay(acc - rate, rate, x);
      ([x] + rest, left)
  }

  /** Resampling a list of frames from a phase: the output and the phase after it. */
  function Resample(acc: nat, rate: nat, target: nat, frames: seq<seq<Sample>>): (r: (seq<int>, nat))
    requires acc < rate
    ensures r.1 < rate
  {
    if frames == [] then ([], acc)
    else
      var (front, phase) := Resample(acc, rate, target, frames[..|frames| - 1]);
      var (last, phase') := Pay(phase + target, rate, Mono(frames[|frames| - 1]));
      (front + last, phase')
  }

  /** A new source rate starts a new phase. */
  function InitialPhase(rate: nat, target: nat): nat { if rate > target then rate - target else 0 }

  datatype Chunk = Chunk(startUs: int, durationUs: nat, pcm: seq<int>)

  /** Whole microseconds of n samples, rounded up. */
  function DurationUs(n: nat, target: nat): nat
    requires target > 0
  {
    (n * 1000000 + target - 1) / target
  }

  /** The output of one block cut into chunks of at most MAX_CHUNK_FRAMES, each starting where the last one ended. */
  function Chunks(pcm: seq<int>, startUs: int, target: nat): seq<Chunk>
    requires target > 0
  {
    if pcm == [] then []
    else if |pcm| <= MAX_CHUNK_FRAMES then [Chunk(startUs, DurationUs(|pcm|, target), pcm)]
    else
      var d := DurationUs(MAX_CHUNK_FRAMES, target);
      [Chunk(startUs, d, pcm[..MAX_CHUNK_FRAMES])] + Chunks(pcm[MAX_CHUNK_FRAMES..], startUs + d, target)
  }

  function Total(chunks: seq<Chunk>): nat
  {
    if chunks == [] then 0 else chunks[0].durationUs + Total(chunks[1..])
  }

  function PcmOf(chunks: seq<Chunk>): seq<int>
  {
    if chunks == [] then [] else chunks[0].pcm + PcmOf(chunks[1..])
  }

  // ------------------------------------------------------------------ lemmas

  lemma {:induction false} PayConserves(acc: nat, rate: nat, x: int)
    requires rate > 0
    ensures var (out, left) := Pay(acc, rate, x);
            && |out| * rate + left == acc
            && forall i :: 0 <= i < |out| ==> out[i] == x
  {
    if acc >= rate {
      PayConserves(acc - rate, rate, x);
    }
  }

  /** No drift: what was emitted, at the source rate, plus the phase is what came in at the target rate. */
  lemma {:induction false} ResampleConserves(acc: nat, rate: nat, target: nat, frames: seq<seq<Sample>>)
    requires acc < rate
    ensures var (out, phase) := Resample(acc, rate, target, frames);
            |out| * rate + phase == acc + |frames| * target
  {
    if frames != [] {
      var front, x := frames[..|frames| - 1], Mono(frames[|frames| - 1]);
      ResampleConserves(acc, rate, target, front);
      var (out, phase) := Resample(acc, rate, target, front);
      PayConserves(phase + target, rate, x);
      var last := Pay(phase + target, rate, x).0;
      Distribute(|out|, |last|, rate);
      Distribute(|front|, 1, target);
    }
  }

  /** How the input is split into blocks does not matter. */
  lemma {:induction false} BlocksDoNotMatter(acc: nat, rate: nat, target: nat, a: seq<seq<Sample>>, b: seq<seq<Sample>>)
    requires acc < rate
    ensures var (first, phase) := Resample(acc, rate, target, a);
            var (second, end) := Resample(phase, rate, target, b);
            Resample(acc, rate, target, a + b) == (first + second, end)
    decreases |b|
  {
    var (first, phase) := Resample(acc, rate, target, a);
    if b == [] {
      assert a + b == a && first + [] == first;
    } else {
      var b' := b[..|b| - 1];
      BlocksDoNotMatter(acc, rate, target, a, b');
      assert (a + b)[..|a + b| - 1] == a + b' && (a + b)[|a + b| - 1] == b[|b| - 1];
      var (second, phase') := Resample(phase, rate, target, b');
      var last := Pay(phase' + target, rate, Mono(b[|b| - 1])).0;
      assert first + second + last == first + (second + last);
    }
  }

  /**
    Which frame an output sample is taken from: sample j is due when the input, counted at the target rate from the
    initial phase, reaches j + 1 source periods, and it is the frame then current that is copied.
   */
  lemma {:induction false} SampleComesFrom(acc: nat, rate: nat, target: nat, frames: seq<seq<Sample>>, i: nat, j: nat)
    requires acc < rate && i < |frames|
    requires acc + i * target < (j + 1) * rate <= acc + (i + 1) * target
    ensures j < |Resample(acc, rate, target, frames).0|
    ensures Resample(acc, rate, target, frames).0[j] == Mono(frames[i])
    decreases |frames|
  {
    var front, x := frames[..|frames| - 1], Mono(frames[|frames| - 1]);
    var (out, phase) := Resample(acc, rate, target, front);
    ResampleConserves(acc, rate, target, front);
    if i < |front| {
      SampleComesFrom(acc, rate, target, front, i, j);
    } else {
      PayConserves(phase + target, rate, x);
      var (last, left) := Pay(phase + target, rate, x);
      Distribute(i, 1, target);
      Distribute(|out|, |last|, rate);
      Below(|out|, j + 1, rate);
      Distribute(|out| + |last|, 1, rate);
      Below(j + 1, |out| + |last| + 1, rate);
    }
  }

  /** The blocks of one phase, resampled one after another. */
  function ResampleBlocks(acc: nat, rate: nat, target: nat, blocks: seq<seq<seq<Sample>>>): (r: (seq<int>, nat))
    requires acc < rate
    ensures r.1 < rate
  {
    if blocks == [] then ([], acc)
    else
      var (front, phase) := ResampleBlocks(acc, rate, target, blocks[..|blocks| - 1]);
      var (last, phase') := Resample(phase, rate, target, blocks[|blocks| - 1]);
      (front + last, phase')
  }

  function Joined(blocks: seq<seq<seq<Sample>>>): seq<seq<Sample>>
  {
    if blocks == [] then [] else Joined(blocks[..|blocks| - 1]) + blocks[|blocks| - 1]
  }

  /** Any two ways to split the same frames into blocks give the same samples and the same phase. */
  lemma {:induction false} OutputDependsOnFramesOnly(acc: nat, rate: nat, target: nat, blocks: seq<seq<seq<Sample>>>)
    requires acc < rate
    ensures ResampleBlocks(acc, rate, target, blocks) == Resample(acc, rate, target, Joined(blocks))
    decreases |blocks|
  {
    if blocks != [] {
      var front := blocks[..|blocks| - 1];
      OutputDependsOnFramesOnly(acc, rate, target, front);
      BlocksDoNotMatter(acc, rate, target, Joined(front), blocks[|blocks| - 1]);
    }
  }

  predicate Sample16(x: int) { -32768 <= x <= 32767 }

  /** The number fits its format. */
  predicate Fits(s: Sample)
  {
    match s
    case FL32(_) => true
    case S16(v) => Sample16(v)
    case S32(w) => -0x8000_0000 <= w <= 0x7fff_ffff
  }

  /** Conversion keeps every sample in range, whatever a float holds, and cuts off less than one unit of its scale. */
  lemma ConversionInRange(s: Sample)
    requires Fits(s)
    ensures Sample16(ToPcm16(s))
    ensures s.FL32? && 0.0 <= s.x <= 1.0 ==> 0.0 <= s.x * 32767.0 - ToPcm16(s) as real < 1.0
    ensures s.FL32? && -1.0 <= s.x < 0.0 ==> 0.0 <= ToPcm16(s) as real - s.x * 32767.0 < 1.0
    ensures s.FL32? && s.x > 1.0 ==> ToPcm16(s) == 32767
    ensures s.FL32? && s.x < -1.0 ==> ToPcm16(s) == -32767
    ensures s.S16? ==> ToPcm16(s) == s.v
    ensures s.S32? ==> 0 <= s.w - ToPcm16(s) * 65536 < 65536
  {
    if s.FL32? {
      var clipped := if s.x > 1.0 then 1.0 else if s.x < -1.0 then -1.0 else s.x;
      var scaled := if clipped >= 0.0 then clipped * 32767.0 else (-clipped) * 32767.0;
      assert 0.0 <= scaled <= 32767.0;
      assert scaled.Floor as real <= scaled < scaled.Floor as real + 1.0;
    }
  }

  lemma {:induction false} SumInRange(frame: seq<Sample>)
    requires forall i :: 0 <= i < |frame| ==> Fits(frame[i])
    ensures -32768 * |frame| <= ChannelSum(frame) <= 32767 * |frame|
  {
    if frame != [] {
      ConversionInRange(frame[|frame| - 1]);
      SumInRange(frame[..|frame| - 1]);
    }
  }

  lemma Quotient(a: nat, n: nat, high: nat) returns (p: nat)
    requires n > 0 && a <= high * n
    ensures p == a / n && p <= high && 0 <= a - p * n < n
  {
    p := a / n;
    assert a == p * n + a % n;
    Distribute(high, 1, n);
    Below(p, high + 1, n);
  }

  lemma Mirror(a: int, q: int, p: nat, n: nat)
    requires q == -(p as int) && 0 <= -a - p * n < n
    ensures 0 <= q * n - a < n
  {
  }

  /** Division towards zero: the quotient times n is within n of a, on the side of zero. */
  lemma QuotientIsTowardsZero(a: int, n: nat, low: nat, high: nat) returns (q: int)
    requires n > 0 && 0 - low * n <= a <= high * n
    ensures q == TruncDiv(a, n) && 0 - low <= q <= high
    ensures a >= 0 ==> 0 <= a - q * n < n
    ensures a < 0 ==> 0 <= q * n - a < n
  {
    if a >= 0 {
      q := Quotient(a, n, high);
    } else {
      var p := Quotient(-a, n, low);
      q := -(p as int);
      Mirror(a, q, p, n);
    }
  }

  /** The mono sample is the mean of the channels, cut towards zero; it is in range, so nothing is clipped. */
  lemma MonoIsMean(frame: seq<Sample>)
    requires frame != [] && forall i :: 0 <= i < |frame| ==> Fits(frame[i])
    ensures var sum, mono := ChannelSum(frame), Mono(frame);
            && Sample16(mono)
            && (sum >= 0 ==> 0 <= sum - mono * |frame| < |frame|)
            && (sum < 0 ==> 0 <= mono * |frame| - sum < |frame|)
  {
    SumInRange(frame);
    var _ := QuotientIsTowardsZero(ChannelSum(frame), |frame|, 32768, 32767);
  }

  // ------------------------------------------------------------------ chunks

  /** Every chunk holds 1 to MAX_CHUNK_FRAMES samples, lasts as long as they do, and starts where the last one ended. */
  ghost predicate Contiguous(chunks: seq<Chunk>, startUs: int, target: nat)
    requires target > 0
    decreases |chunks|
  {
    chunks == [] ||
    (&& 0 < |chunks[0].pcm| <= MAX_CHUNK_FRAMES
     && chunks[0].startUs == startUs
     && chunks[0].durationUs == DurationUs(|chunks[0].pcm|, target)
     && Contiguous(chunks[1..], startUs + chunks[0].durationUs, target))
  }

  lemma {:induction false} ChunksHoldPcm(pcm: seq<int>, startUs: int, target: nat)
    requires target > 0
    ensures PcmOf(Chunks(pcm, startUs, target)) == pcm && Contiguous(Chunks(pcm, startUs, target), startUs, target)
    decreases |pcm|
  {
    if pcm == [] {
    } else if |pcm| <= MAX_CHUNK_FRAMES {
      var all := Chunks(pcm, startUs, target);
      assert all[1..] == [];
      assert PcmOf(all[1..]) == [] && pcm + [] == pcm;
    } else {
      var d := DurationUs(MAX_CHUNK_FRAMES, target);
      var all := Chunks(pcm, startUs, target);
      assert all[1..] == Chunks(pcm[MAX_CHUNK_FRAMES..], startUs + d, target);
      ChunksHoldPcm(pcm[MAX_CHUNK_FRAMES..], startUs + d, target);
    }
  }

  /** The least number of whole microseconds in which n samples have been played. */
  ghost predicate LastsFor(n: nat, durationUs: int, target: nat)
  {
    (durationUs - 1) * target < n * 1_000_000 <= durationUs * target
  }

  lemma DurationIsLeast(n: nat, target: nat)
    requires target > 0
    ensures LastsFor(n, DurationUs(n, target), target)
  {
    var a := n * 1_000_000 + target - 1;
    assert DurationUs(n, target) == a / target;
    assert (a / target) * target + a % target == a;
    Distribute(a / target - 1, 1, target);
  }

  /** Every chunk but the last is full, with 8192 samples, and each is timed to the microsecond its samples end in. */
  lemma {:induction false} ChunksAreFull(pcm: seq<int>, startUs: int, target: nat, i: nat)
    requires target > 0 && i < |Chunks(pcm, startUs, target)|
    ensures var chunks := Chunks(pcm, startUs, target);
            && 1 <= |chunks[i].pcm| <= 8192 && (i < |chunks| - 1 ==> |chunks[i].pcm| == 8192)
            && LastsFor(|chunks[i].pcm|, chunks[i].durationUs, target)
    decreases |pcm|
  {
    DurationIsLeast(if |pcm| <= MAX_CHUNK_FRAMES then |pcm| else MAX_CHUNK_FRAMES, target);
    if i > 0 {
      var d := DurationUs(MAX_CHUNK_FRAMES, target);
      ChunksAreFull(pcm[MAX_CHUNK_FRAMES..], startUs + d, target, i - 1);
    }
  }

  /** What the worker accepts as an AUDIO_PCM payload: the byte count must match the duration to within one byte. */
  predicate ValidAudio(durationUs: int, pcmBytes: nat)
  {
    && 0 < durationUs <= 30_000_000
    && pcmBytes % 2 == 0
    && var expected := durationUs * 32 / 1000;
       expected <= pcmBytes + 1 && pcmBytes <= expected + 1
  }

  /** At 16 kHz every chunk of every block passes, with a byte count that is exact and not merely within tolerance. */
  lemma {:induction false} ChunksPassValidation(chunks: seq<Chunk>, startUs: int, i: nat)
    requires Contiguous(chunks, startUs, TARGET_RATE) && i < |chunks|
    ensures ValidAudio(chunks[i].durationUs, 2 * |chunks[i].pcm|)
    ensures 2 * |chunks[i].pcm| == chunks[i].durationUs * 32 / 1000
    decreases |chunks|
  {
    if i > 0 {
      ChunksPassValidation(chunks[1..], startUs + chunks[0].durationUs, i - 1);
    }
  }

  /** A rate that is new: of a faster one the first frame is taken and no remainder is left, a slower one begins at 0. */
  lemma NewRateBegins(rate: nat, target: nat, frame: seq<Sample>)
    requires rate > 0 && target > 0
    ensures rate > target ==> Resample(InitialPhase(rate, target), rate, target, [frame]) == ([Mono(frame)], 0)
    ensures rate <= target ==> InitialPhase(rate, target) == 0
  {
    if rate > target {
      var frames, phase, x := [frame], InitialPhase(rate, target), Mono(frame);
      assert frames[..|frames| - 1] == [] && frames[|frames| - 1] == frame && phase + target == rate;
      assert Pay(0, rate, x) == ([], 0);
      assert Pay(rate, rate, x) == ([x] + [], 0);
      assert Resample(phase, rate, target, []) == ([], phase);
      var (last, left) := Pay(rate, rate, x);
      assert last == [x] && [] + last == [x] && left == 0;
      assert Resample(phase, rate, target, frames) == ([] + last, left);
    }
  }

  // -------------------------------------------------------------- arithmetic

  lemma Distribute(a: int, b: int, c: int)
    ensures (a + b) * c == a * c + b * c
  {
  }

  lemma Below(a: nat, b: nat, rate: nat)
    requires a * rate < b * rate
    ensures a < b
  {
  }
}
