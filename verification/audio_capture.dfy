/**
  The audio callback of the plugin: resamples a block sample by sample into a chunk buffer and hands each full chunk,
  and the remainder, to the queue.
 */
module AudioCaptures {
  import opened Resampling

  const MAX_PLAYBACK_RATE: real := 4.0

  class AudioCapture {
    const targetSampleRate: nat
    var resampleAcc: nat
    var resampleSourceRate: nat
    var sampleRemainder: nat
    var totalInputFrames: nat
    var totalSamplesProcessed: nat
    var lastPtsUs: int
    var resetPending: bool

    /** The phase belongs to the source rate it was left by. */
    ghost predicate Valid()
      reads this
    {
      targetSampleRate > 0 && (resampleSourceRate > 0 ==> resampleAcc < resampleSourceRate)
    }

    constructor (targetSampleRate: nat)
      ensures Valid() && resampleSourceRate == 0 && !resetPending && totalInputFrames == 0
      ensures this.targetSampleRate == if targetSampleRate > 0 then targetSampleRate else TARGET_RATE
    {
      this.targetSampleRate := if targetSampleRate > 0 then targetSampleRate else TARGET_RATE;
      resampleAcc, resampleSourceRate, sampleRemainder, totalInputFrames, totalSamplesProcessed := 0, 0, 0, 0, 0;
      lastPtsUs, resetPending := 0, false;
    }

    /** The phase a block at `rate` starts from. */
    ghost function PhaseFor(rate: nat): nat
      reads this
    {
      if resetPending || resampleSourceRate != rate then InitialPhase(rate, targetSampleRate) else resampleAcc
    }

    /** Resets and rate changes that take effect before a block; `throttled` blocks are counted and dropped. */
    method Prepare(rate: nat, throttled: bool)
      requires Valid() && rate > 0
      modifies this
      ensures Valid() && !resetPending && lastPtsUs == (if old(resetPending) then 0 else old(lastPtsUs))
      ensures totalInputFrames == (if old(resetPending) then 0 else old(totalInputFrames))
      ensures totalSamplesProcessed == old(totalSamplesProcessed)
      ensures !throttled ==> resampleSourceRate == rate && resampleAcc == old(PhaseFor(rate)) < rate
      ensures throttled ==> PhaseFor(rate) == old(PhaseFor(rate))
    {
      if resetPending {
        resampleAcc, sampleRemainder, totalInputFrames, resampleSourceRate, lastPtsUs := 0, 0, 0, 0, 0;
        resetPending := false;
      }
      if throttled {
        return;
      }
      if resampleSourceRate != rate {
        resampleSourceRate := rate;
        resampleAcc := if rate > targetSampleRate then rate - targetSampleRate else 0;
      }
    }

    /** One block. Returns the chunks pushed to the queue, in order. */
    method ProcessBlock(frames: seq<seq<Sample>>, ptsUs: int, rate: nat, channels: nat, playbackRate: real)
      returns (ok: bool, pushed: seq<Chunk>)
      requires Valid() && forall i :: 0 <= i < |frames| ==> |frames[i]| == channels
      modifies this
      ensures Valid()
      ensures ok == (frames != [] && rate > 0 && channels > 0)
      ensures !ok ==> pushed == [] && unchanged(this)
      ensures ok && playbackRate > MAX_PLAYBACK_RATE ==>
                pushed == [] && PhaseFor(rate) == old(PhaseFor(rate)) && lastPtsUs == ptsUs
      ensures ok && playbackRate <= MAX_PLAYBACK_RATE ==>
                var phase := old(PhaseFor(rate));
                && phase < rate
                && var (pcm, phase') := Resample(phase, rate, targetSampleRate, frames);
                   && pushed == Chunks(pcm, ptsUs, targetSampleRate)
                   && resampleSourceRate == rate && resampleAcc == sampleRemainder == phase'
                   && lastPtsUs == ptsUs + Total(pushed)
                   && totalSamplesProcessed == old(totalSamplesProcessed) + |pcm|
      ensures ok ==> !resetPending
      ensures ok ==> totalInputFrames == (if old(resetPending) then 0 else old(totalInputFrames)) + |frames|
    {
      pushed := [];
      if |frames| == 0 || rate == 0 || channels == 0 {
        return false, [];
      }
      var throttled := playbackRate > MAX_PLAYBACK_RATE;
      Prepare(rate, throttled);
      if throttled {
        totalInputFrames := totalInputFrames + |frames|;
        lastPtsUs := ptsUs;
        return true, [];
      }
      var chunker := new Chunker(targetSampleRate, ptsUs);
      var acc := ResampleInto(chunker, frames, rate, resampleAcc);
      var endUs;
      pushed, endUs := chunker.Finish();
      resampleAcc, sampleRemainder := acc, acc;
      totalInputFrames := totalInputFrames + |frames|;
      lastPtsUs := endUs;
      totalSamplesProcessed := totalSamplesProcessed + chunker.totalEmitted;
      return true, pushed;
    }
  }

  /** Every output sample of every frame goes to the chunk under construction. */
  method ResampleInto(chunker: Chunker, frames: seq<seq<Sample>>, rate: nat, phase: nat) returns (acc: nat)
    requires chunker.Valid() && chunker.Given() == [] && phase < rate
    modifies chunker, chunker.outPcm
    ensures chunker.Valid()
    ensures (chunker.Given(), acc) == Resample(phase, rate, chunker.target, frames)
  {
    hide Pay, Mono;
    acc := phase;
    var inIdx := 0;
    while inIdx < |frames|
      invariant 0 <= inIdx <= |frames| && acc < rate && chunker.Valid()
      invariant (chunker.Given(), acc) == Resample(phase, rate, chunker.target, frames[..inIdx])
    {
      assert frames[..inIdx + 1][..inIdx] == frames[..inIdx];
      acc := EmitFrame(chunker, frames[inIdx], rate, acc + chunker.target);
      inIdx := inIdx + 1;
    }
    assert frames[..inIdx] == frames;
  }

  /** One frame is copied for as long as the accumulator holds a source period. */
  method EmitFrame(chunker: Chunker, frame: seq<Sample>, rate: nat, due: nat) returns (acc: nat)
    requires chunker.Valid() && rate > 0
    modifies chunker, chunker.outPcm
    ensures chunker.Valid()
    ensures chunker.Given() == old(chunker.Given()) + Pay(due, rate, Mono(frame)).0 && acc == Pay(due, rate, Mono(frame)).1
  {
    acc := due;
    ghost var whole := chunker.Given() + Pay(due, rate, Mono(frame)).0;
    while acc >= rate
      invariant chunker.Valid()
      invariant whole == chunker.Given() + Pay(acc, rate, Mono(frame)).0
      invariant Pay(due, rate, Mono(frame)).1 == Pay(acc, rate, Mono(frame)).1
    {
      ghost var given := chunker.Given();
      acc := acc - rate;
      var sample := MixFrame(frame);
      chunker.Put(sample);
      ghost var more := Pay(acc, rate, Mono(frame)).0;
      assert given + ([sample] + more) == given + [sample] + more;
    }
    assert whole == chunker.Given() + [] == chunker.Given();
  }

  /** C conversion of a real number to a whole one. */
  function TowardsZero(x: real): int { if x >= 0.0 then x.Floor else -(-x).Floor }

  /** The mono sample of one frame: the channel sum divided towards zero and clamped. */
  method MixFrame(frame: seq<Sample>) returns (sample: int)
    ensures sample == Mono(frame)
  {
    if |frame| == 0 {
      return 0;
    }
    var sum := 0;
    var ch := 0;
    while ch < |frame|
      invariant 0 <= ch <= |frame| && sum == ChannelSum(frame[..ch])
    {
      assert frame[..ch + 1][..ch] == frame[..ch];
      match frame[ch] {
        case FL32(x) =>
          var sample := x;
          if sample > 1.0 { sample := 1.0; }
          if sample < -1.0 { sample := -1.0; }
          sum := sum + TowardsZero(sample * 32767.0);
        case S16(v) => sum := sum + v;
        case S32(w) => sum := sum + w / 65536;
      }
      ch := ch + 1;
    }
    assert frame[..ch] == frame;
    sample := TruncDiv(sum, |frame|);
    if sample > 32767 { sample := 32767; }
    if sample < -32768 { sample := -32768; }
  }

  /** The chunk under construction: samples are collected until the buffer is full, then pushed with their time. */
  class Chunker {
    const target: nat
    const outPcm: array<int>
    ghost const first: int
    var chunkFrames: nat
    var startUs: int
    var currentPtsUs: int
    var totalEmitted: nat
    var pushed: seq<Chunk>

    ghost predicate Valid()
      reads this, outPcm
    {
      && target > 0 && outPcm.Length == MAX_CHUNK_FRAMES && chunkFrames < MAX_CHUNK_FRAMES
      && startUs == currentPtsUs == first + Total(pushed)
      && (forall i :: 0 <= i < |pushed| ==> |pushed[i].pcm| == MAX_CHUNK_FRAMES)
      && Contiguous(pushed, first, target)
      && totalEmitted == |PcmOf(pushed)| + chunkFrames
    }

    /** Every sample given so far. */
    ghost function Given(): seq<int>
      requires outPcm.Length == MAX_CHUNK_FRAMES && chunkFrames <= MAX_CHUNK_FRAMES
      reads this, outPcm
    {
      PcmOf(pushed) + outPcm[..chunkFrames]
    }

    constructor (target: nat, ptsUs: int)
      requires target > 0
      ensures Valid() && fresh(outPcm) && this.target == target && first == ptsUs && Given() == []
    {
      this.target, first := target, ptsUs;
      outPcm := new int[MAX_CHUNK_FRAMES];
      chunkFrames, startUs, currentPtsUs, totalEmitted, pushed := 0, ptsUs, ptsUs, 0, [];
    }

    method PushChunk()
      requires target > 0 && outPcm.Length == MAX_CHUNK_FRAMES && 0 < chunkFrames <= MAX_CHUNK_FRAMES
      modifies this
      ensures outPcm.Length == MAX_CHUNK_FRAMES && chunkFrames == old(chunkFrames) && totalEmitted == old(totalEmitted)
      ensures var chunk := Chunk(old(startUs), DurationUs(chunkFrames, target), outPcm[..chunkFrames]);
              pushed == old(pushed) + [chunk] && currentPtsUs == old(currentPtsUs) + chunk.durationUs
      ensures startUs == old(startUs)
    {
      var durationUs := (chunkFrames * 1000000 + target - 1) / target;
      pushed := pushed + [Chunk(startUs, durationUs, outPcm[..chunkFrames])];
      currentPtsUs := currentPtsUs + durationUs;
    }

    method Put(sample: int)
      requires Valid()
      modifies this, outPcm
      ensures Valid() && Given() == old(Given()) + [sample]
    {
      ghost var held, before := outPcm[..chunkFrames], pushed;
      outPcm[chunkFrames] := sample;
      chunkFrames := chunkFrames + 1;
      totalEmitted := totalEmitted + 1;
      assert outPcm[..chunkFrames] == held + [sample];
      assert PcmOf(before) + (held + [sample]) == PcmOf(before) + held + [sample];
      if chunkFrames == outPcm.Length {
        PushChunk();
        OneMoreChunk(before, first, target, pushed[|pushed| - 1]);
        startUs := currentPtsUs;
        chunkFrames := 0;
      }
    }

    /** Pushes what is left and returns all chunks and the time they end. */
    method Finish() returns (chunks: seq<Chunk>, endUs: int)
      requires Valid()
      modifies this
      ensures chunks == Chunks(old(Given()), first, target) && endUs == first + Total(chunks)
      ensures totalEmitted == |old(Given())|
    {
      ghost var before, tail := pushed, outPcm[..chunkFrames];
      if chunkFrames > 0 {
        PushChunk();
        OneMoreChunk(before, first, target, pushed[|pushed| - 1]);
      }
      FullThenRest(before, first, target, tail);
      return pushed, currentPtsUs;
    }
  }

  lemma {:induction false} OneMoreChunk(chunks: seq<Chunk>, first: int, target: nat, chunk: Chunk)
    requires target > 0 && Contiguous(chunks, first, target)
    requires 0 < |chunk.pcm| <= MAX_CHUNK_FRAMES && chunk.startUs == first + Total(chunks)
    requires chunk.durationUs == DurationUs(|chunk.pcm|, target)
    ensures Contiguous(chunks + [chunk], first, target)
    ensures Total(chunks + [chunk]) == Total(chunks) + chunk.durationUs
    ensures PcmOf(chunks + [chunk]) == PcmOf(chunks) + chunk.pcm
    decreases |chunks|
  {
    if chunks == [] {
      assert [chunk][1..] == [];
    } else {
      OneMoreChunk(chunks[1..], first + chunks[0].durationUs, target, chunk);
      assert (chunks + [chunk])[1..] == chunks[1..] + [chunk];
    }
  }

  /** Full chunks followed by a shorter one are the chunks of their samples. */
  lemma {:induction false} FullThenRest(full: seq<Chunk>, first: int, target: nat, tail: seq<int>)
    requires target > 0 && Contiguous(full, first, target) && |tail| < MAX_CHUNK_FRAMES
    requires forall i :: 0 <= i < |full| ==> |full[i].pcm| == MAX_CHUNK_FRAMES
    ensures Chunks(PcmOf(full) + tail, first, target) ==
            full + (if tail == [] then [] else [Chunk(first + Total(full), DurationUs(|tail|, target), tail)])
    decreases |full|
  {
    if full == [] {
      assert PcmOf(full) + tail == tail;
    } else {
      var pcm := PcmOf(full) + tail;
      assert pcm == full[0].pcm + (PcmOf(full[1..]) + tail);
      FullThenRest(full[1..], first + full[0].durationUs, target, tail);
      assert pcm[..MAX_CHUNK_FRAMES] == full[0].pcm && pcm[MAX_CHUNK_FRAMES..] == PcmOf(full[1..]) + tail;
    }
  }
}
