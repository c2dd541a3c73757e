/** Where the worker cuts its audio window. */
module ChunkCutter {
  // In a pause between two speech intervals when there is one, at a fixed size when there is not, and never in the
  // padding around speech if a pause can be used. The voice detector and the energy test are inputs; speech intervals
  // are whole sample positions in the window.

  import opened Captions

  const MIN_SAMPLES: nat := 96000
  const MAX_SAMPLES: nat := 384000
  const PAD: nat := 2400
  const MIN_SILENCE_GAP: nat := 4800
  const MAX_TRAILING_SILENCE: nat := 4800
  const LEADING_SILENCE: nat := 16000

  datatype Speech = Speech(first: nat, end: nat)

  /** What is known about a window: the detector's intervals, or only whether it is loud when there is no detector. */
  datatype Hearing = Intervals(speech: seq<Speech>) | Energy(loud: bool)

  datatype Boundary = Wait | Cut(samples: nat) | Silence(samples: nat)

  function Min(a: nat, b: nat): nat { if a < b then a else b }

  /** The pause after interval i is long enough, and cutting there makes a chunk of an allowed size. */
  predicate Pause(n: nat, speech: seq<Speech>, eof: bool, i: nat)
    requires i < |speech|
  {
    && MIN_SAMPLES <= speech[i].end + PAD <= MAX_SAMPLES
    && if i + 1 < |speech| then speech[i + 1].first >= speech[i].end + MIN_SILENCE_GAP
       else n >= speech[i].end + MIN_SILENCE_GAP || eof
  }

  /** The middle of a pause between two intervals; after the last one, at most MAX_TRAILING_SILENCE behind it. */
  function PauseCut(n: nat, speech: seq<Speech>, i: nat): nat
    requires i < |speech|
  {
    var end := speech[i].end;
    if i + 1 < |speech| then Min(n, (end + speech[i + 1].first) / 2)
    else if n <= end + PAD then n
    else Min((end + PAD + n) / 2, end + MAX_TRAILING_SILENCE)
  }

  function FirstPause(n: nat, speech: seq<Speech>, eof: bool, i: nat): (found: Option<nat>)
    requires i <= |speech|
    ensures found.Some? ==> i <= found.value < |speech| && Pause(n, speech, eof, found.value)
    ensures forall j :: i <= j < |speech| && Pause(n, speech, eof, j) ==> found.Some? && found.value <= j
    decreases |speech| - i
  {
    if i == |speech| then None
    else if Pause(n, speech, eof, i) then Some(i)
    else FirstPause(n, speech, eof, i + 1)
  }

  predicate Fits(s: Speech) { MIN_SAMPLES <= s.end + PAD <= MAX_SAMPLES }

  /** With no usable pause in a full window: behind the last interval that ends in time, or the largest chunk. */
  function ForcedCut(speech: seq<Speech>): nat
  {
    if speech == [] then MAX_SAMPLES
    else
      var last := speech[|speech| - 1];
      if Fits(last) then last.end + PAD else ForcedCut(speech[..|speech| - 1])
  }

  function SilentBoundary(n: nat, eof: bool): Boundary
  {
    if eof then Silence(n) else if n >= MIN_SAMPLES then Silence(n - PAD) else Wait
  }

  function FindBoundary(n: nat, hearing: Hearing, eof: bool): Boundary
  {
    if n == 0 then Wait
    else
      match hearing
      case Energy(loud) =>
        var target := (MIN_SAMPLES + MAX_SAMPLES) / 2;
        if !loud then SilentBoundary(n, eof) else if n >= target || eof then Cut(Min(n, target)) else Wait
      case Intervals(speech) =>
        if speech == [] then SilentBoundary(n, eof)
        else if speech[0].first > LEADING_SILENCE + PAD then Silence(speech[0].first - PAD)
        else
          match FirstPause(n, speech, eof, 0)
          case Some(i) => Cut(PauseCut(n, speech, i))
          case None => if n >= MAX_SAMPLES then Cut(ForcedCut(speech)) else if eof then Cut(n) else Wait
  }

  // ------------------------------------------------------------- the program

  method CutInPause(n: nat, speech: seq<Speech>, eof: bool) returns (chosenCut: int)
    ensures var pause := FirstPause(n, speech, eof, 0);
            if pause.None? then chosenCut == 0
            else chosenCut > 0 && (if n < chosenCut then n else chosenCut) == PauseCut(n, speech, pause.value)
  {
    chosenCut := 0;
    var i := 0;
    while i < |speech|
      invariant i <= |speech|
      invariant chosenCut == 0 && FirstPause(n, speech, eof, 0) == FirstPause(n, speech, eof, i)
    {
      var rawSegEnd := speech[i].end;
      var segEndSample := rawSegEnd + PAD;
      if segEndSample >= MIN_SAMPLES {
        if segEndSample <= MAX_SAMPLES {
          if i + 1 < |speech| {
            var nextStartSample := speech[i + 1].first;
            if nextStartSample >= rawSegEnd + MIN_SILENCE_GAP {
              var nextPaddedStart := if nextStartSample > PAD then nextStartSample - PAD else nextStartSample;
              chosenCut := (segEndSample + nextPaddedStart) / 2;
              if chosenCut < segEndSample { chosenCut := segEndSample; }
              break;
            }
          } else {
            if n >= rawSegEnd + MIN_SILENCE_GAP || eof {
              var maxCut := rawSegEnd + MAX_TRAILING_SILENCE;
              chosenCut := (segEndSample + n) / 2;
              if chosenCut > maxCut { chosenCut := maxCut; }
              if chosenCut > n { chosenCut := n; }
              if chosenCut < segEndSample { chosenCut := segEndSample; }
              break;
            }
          }
        }
      }
      i := i + 1;
    }
  }

  method CutAtLimit(speech: seq<Speech>) returns (chosenCut: nat)
    ensures chosenCut == ForcedCut(speech)
  {
    var i := |speech|;
    assert speech[..i] == speech;
    while i > 0
      invariant 0 <= i <= |speech| && ForcedCut(speech[..i]) == ForcedCut(speech)
    {
      i := i - 1;
      assert speech[..i + 1][..i] == speech[..i];
      var segEnd := speech[i].end + PAD;
      if segEnd <= MAX_SAMPLES && segEnd >= MIN_SAMPLES {
        return segEnd;
      }
    }
    return MAX_SAMPLES;
  }

  ghost predicate Returned(b: Boundary, found: bool, cutSamples: nat, silenceDrain: nat)
  {
    match b
    case Wait => !found && cutSamples == 0 && silenceDrain == 0
    case Cut(k) => found && cutSamples == k && silenceDrain == 0
    case Silence(k) => found && cutSamples == 0 && silenceDrain == k
  }

  method FindChunkBoundary(n: nat, hearing: Hearing, eof: bool)
    returns (found: bool, cutSamples: nat, silenceDrain: nat)
    ensures Returned(FindBoundary(n, hearing, eof), found, cutSamples, silenceDrain)
  {
    cutSamples, silenceDrain := 0, 0;
    if n == 0 {
      return false, 0, 0;
    }
    match hearing {
      case Intervals(speech) =>
        if |speech| == 0 {
          if n >= MIN_SAMPLES || eof {
            silenceDrain := if eof || n <= PAD then n else n - PAD;
            return true, 0, silenceDrain;
          }
          return false, 0, 0;
        }
        var firstSpeechSample := speech[0].first;
        if firstSpeechSample > LEADING_SILENCE + PAD {
          return true, 0, firstSpeechSample - PAD;
        }
        var chosenCut := CutInPause(n, speech, eof);
        if chosenCut == 0 && n >= MAX_SAMPLES {
          chosenCut := CutAtLimit(speech);
          ForcedCutInRange(speech);
        } else if chosenCut == 0 && eof {
          chosenCut := n;
        }
        if chosenCut > 0 {
          if chosenCut > n { chosenCut := n; }
          return true, chosenCut, 0;
        }
        return false, 0, 0;
      case Energy(loud) =>
        if !loud {
          if n >= MIN_SAMPLES || eof {
            silenceDrain := if eof || n <= PAD then n else n - PAD;
            return true, 0, silenceDrain;
          }
          return false, 0, 0;
        }
        var targetSamples := (MIN_SAMPLES + MAX_SAMPLES) / 2;
        if n >= targetSamples || eof {
          return true, if n > targetSamples then targetSamples else n, 0;
        }
        return false, 0, 0;
    }
  }

  // ------------------------------------------------------------------ lemmas

  lemma {:induction false} ForcedCutInRange(speech: seq<Speech>)
    ensures MIN_SAMPLES <= ForcedCut(speech) <= MAX_SAMPLES
    ensures ForcedCut(speech) == MAX_SAMPLES || exists i :: 0 <= i < |speech| && ForcedCut(speech) == speech[i].end + PAD
  {
    if speech != [] && !Fits(speech[|speech| - 1]) {
      ForcedCutInRange(speech[..|speech| - 1]);
    }
  }

  /** The detector reports intervals in order and inside the window of n samples. */
  ghost predicate Within(n: nat, speech: seq<Speech>)
  {
    && (forall i :: 0 <= i < |speech| ==> speech[i].first <= speech[i].end <= n)
    && forall i, j :: 0 <= i < j < |speech| ==> speech[i].end <= speech[j].first
  }

  ghost predicate InWindow(n: nat, hearing: Hearing)
  {
    hearing.Intervals? ==> Within(n, hearing.speech)
  }

  /** k keeps the padding away from every interval, on both sides. */
  ghost predicate ClearOf(speech: seq<Speech>, k: nat)
  {
    forall j :: 0 <= j < |speech| ==> speech[j].end + PAD <= k || k + PAD <= speech[j].first
  }

  /** At the end of the audio, and in a full window, something is always taken: at least one sample, at most all. */
  lemma AlwaysTakes(n: nat, hearing: Hearing, eof: bool)
    requires n > 0 && (eof || n >= MAX_SAMPLES)
    ensures FindBoundary(n, hearing, eof) != Wait
    ensures FindBoundary(n, hearing, eof).samples >= 1
    ensures FindBoundary(n, hearing, eof).Cut? || InWindow(n, hearing) ==> FindBoundary(n, hearing, eof).samples <= n
  {
    if hearing.Intervals? {
      ForcedCutInRange(hearing.speech);
    }
  }

  /** The window waits exactly when more audio may come, it is not full, and nothing in it can be taken yet. */
  lemma WaitsExactlyWhen(n: nat, speech: seq<Speech>, eof: bool)
    requires n > 0
    ensures FindBoundary(n, Intervals(speech), eof) == Wait <==>
            && !eof
            && if speech == [] then n < MIN_SAMPLES
               else
                 && n < MAX_SAMPLES
                 && speech[0].first <= LEADING_SILENCE + PAD
                 && forall i :: 0 <= i < |speech| ==> !Pause(n, speech, eof, i)
  {
  }

  /** A cut before the end of the window stays clear of all speech whenever some pause can be used. */
  lemma CutsInPausesAreClear(n: nat, speech: seq<Speech>, eof: bool, i: nat)
    requires Within(n, speech) && i < |speech| && Pause(n, speech, eof, i)
    requires FindBoundary(n, Intervals(speech), eof).Cut? && FindBoundary(n, Intervals(speech), eof).samples < n
    ensures var k := FindBoundary(n, Intervals(speech), eof).samples;
            && ClearOf(speech, k)
            && MIN_SAMPLES <= k
            && exists j :: 0 <= j <= i && Pause(n, speech, eof, j)
                           && speech[j].end + PAD <= k
                           && if j + 1 < |speech| then k + PAD <= speech[j + 1].first
                              else k <= speech[j].end + MAX_TRAILING_SILENCE
  {
    var j := FirstPause(n, speech, eof, 0).value;
    var k := FindBoundary(n, Intervals(speech), eof).samples;
    assert Pause(n, speech, eof, j) && speech[j].end + PAD <= k;
    forall m | 0 <= m < |speech|
      ensures speech[m].end + PAD <= k || k + PAD <= speech[m].first
    {
      if m < j {
        assert speech[m].end <= speech[j].first;
      } else if m > j + 1 {
        assert speech[j + 1].end <= speech[m].first;
      }
    }
  }

  /** Without a usable pause the window is cut only at the end of the audio or when it is full, and then in range. */
  lemma ForcedCuts(n: nat, speech: seq<Speech>, eof: bool)
    requires n > 0 && speech != [] && FindBoundary(n, Intervals(speech), eof).Cut?
    requires forall i :: 0 <= i < |speech| ==> !Pause(n, speech, eof, i)
    ensures var k := FindBoundary(n, Intervals(speech), eof).samples;
            if n < MAX_SAMPLES then eof && k == n
            else MIN_SAMPLES <= k <= MAX_SAMPLES
                 && (k == MAX_SAMPLES || exists i :: 0 <= i < |speech| && k == speech[i].end + PAD)
  {
    ForcedCutInRange(speech);
  }

  /** What is dropped as silence holds no speech, nor the padding before the next interval. */
  lemma SilenceHoldsNoSpeech(n: nat, speech: seq<Speech>, eof: bool, j: nat)
    requires Within(n, speech) && FindBoundary(n, Intervals(speech), eof).Silence? && j < |speech|
    ensures FindBoundary(n, Intervals(speech), eof).samples + PAD <= speech[j].first
  {
  }

  // ------------------------------------------- the rules in samples of 16 kHz

  /** A window without speech waits below 6 s, is dropped but for its last 150 ms above, and dropped whole at the end. */
  lemma SilentWindow(n: nat, hearing: Hearing, eof: bool)
    requires n > 0 && (hearing == Energy(false) || hearing == Intervals([]))
    ensures FindBoundary(n, hearing, eof) == Wait <==> !eof && n < 96_000
    ensures !eof && n >= 96_000 ==> FindBoundary(n, hearing, eof) == Silence(n - 2_400)
    ensures eof ==> FindBoundary(n, hearing, eof) == Silence(n)
  {
  }

  /** Without a detector a loud window is cut at 15 s, or at the end of the audio, and is never dropped. */
  lemma LoudWindow(n: nat, eof: bool)
    requires n > 0
    ensures FindBoundary(n, Energy(true), eof) == Wait <==> !eof && n < 240_000
    ensures eof || n >= 240_000 ==> FindBoundary(n, Energy(true), eof) == Cut(if n < 240_000 then n else 240_000)
  {
  }

  /** Silence is dropped before speech exactly if speech begins later than 1.15 s, up to 150 ms before it. */
  lemma LateSpeech(n: nat, speech: seq<Speech>, eof: bool)
    requires n > 0 && speech != []
    ensures FindBoundary(n, Intervals(speech), eof).Silence? <==> speech[0].first > 18_400
    ensures speech[0].first > 18_400 ==>
              FindBoundary(n, Intervals(speech), eof) == Silence(speech[0].first - 2_400)
  {
  }

  /** At least 300 ms of silence behind interval i, in a place where the chunk before it takes 6 s to 24 s. */
  predicate SilenceBehind(n: nat, speech: seq<Speech>, eof: bool, i: nat)
    requires i < |speech|
  {
    && 93_600 <= speech[i].end <= 381_600
    && if i + 1 < |speech| then speech[i + 1].first - speech[i].end >= 4_800 else eof || n - speech[i].end >= 4_800
  }

  /**
    The window is cut behind the first interval with enough silence behind it: in the middle of a pause, and behind the
    last interval in the middle between its padding and the end, but at most 300 ms behind it.
   */
  lemma CutBehindFirst(n: nat, speech: seq<Speech>, eof: bool, i: nat)
    requires n > 0 && i < |speech| && speech[0].first <= 18_400 && SilenceBehind(n, speech, eof, i)
    requires forall j :: 0 <= j < i ==> !SilenceBehind(n, speech, eof, j)
    ensures var b, end := FindBoundary(n, Intervals(speech), eof), speech[i].end;
            && b.Cut?
            && (i + 1 < |speech| ==>
                  b.samples == n < (end + speech[i + 1].first) / 2 ||
                  (b.samples <= n && 2 * b.samples <= end + speech[i + 1].first <= 2 * b.samples + 1))
            && (i + 1 == |speech| ==>
                  if n <= end + 2_400 then b.samples == n
                  else if n >= end + 7_200 then b.samples == end + 4_800
                  else 2 * b.samples <= end + 2_400 + n <= 2 * b.samples + 1)
  {
    forall j | 0 <= j < |speech|
      ensures Pause(n, speech, eof, j) <==> SilenceBehind(n, speech, eof, j)
    {
    }
    assert FirstPause(n, speech, eof, 0) == Some(i);
  }

  /**
    With no such interval the window waits until it holds 24 s or the audio ends; at the end it is cut whole, and at 24 s
    150 ms behind the last interval that ends in 6 s to 24 s, or at 24 s.
   */
  lemma {:induction false} CutWithoutSilence(n: nat, speech: seq<Speech>, eof: bool)
    requires n > 0 && speech != [] && speech[0].first <= 18_400
    requires forall j :: 0 <= j < |speech| ==> !SilenceBehind(n, speech, eof, j)
    ensures FindBoundary(n, Intervals(speech), eof) == Wait <==> !eof && n < 384_000
    ensures eof && n < 384_000 ==> FindBoundary(n, Intervals(speech), eof) == Cut(n)
    ensures n >= 384_000 ==>
              FindBoundary(n, Intervals(speech), eof).Cut? &&
              BehindLast(speech, FindBoundary(n, Intervals(speech), eof).samples)
  {
    forall j | 0 <= j < |speech|
      ensures Pause(n, speech, eof, j) <==> SilenceBehind(n, speech, eof, j)
    {
    }
    assert FirstPause(n, speech, eof, 0) == None;
    ForcedCutIsLast(speech);
  }

  /** Speech that ends where a chunk may end: between 93_600 and 381_600 samples in. */
  predicate EndsInTime(s: Speech)
  {
    93_600 <= s.end <= 381_600
  }

  ghost predicate LastInTime(speech: seq<Speech>, i: nat)
  {
    i < |speech| && EndsInTime(speech[i]) && forall j :: i < j < |speech| ==> !EndsInTime(speech[j])
  }

  ghost predicate BehindLast(speech: seq<Speech>, k: nat)
  {
    || (k == 384_000 && forall i :: 0 <= i < |speech| ==> !EndsInTime(speech[i]))
    || exists i: nat :: LastInTime(speech, i) && k == speech[i].end + 2_400
  }

  lemma {:induction false} ForcedCutIsLast(speech: seq<Speech>)
    ensures BehindLast(speech, ForcedCut(speech))
  {
    if speech != [] {
      var n := |speech| - 1;
      if Fits(speech[n]) {
        assert LastInTime(speech, n);
      } else {
        ForcedCutIsLast(speech[..n]);
        OneBehind(speech, ForcedCut(speech[..n]));
      }
    }
  }

  lemma OneBehind(speech: seq<Speech>, k: nat)
    requires speech != [] && !EndsInTime(speech[|speech| - 1]) && BehindLast(speech[..|speech| - 1], k)
    ensures BehindLast(speech, k)
  {
    var n := |speech| - 1;
    var front := speech[..n];
    assert forall i :: 0 <= i < n ==> front[i] == speech[i];
    if !(k == 384_000 && forall i :: 0 <= i < n ==> !EndsInTime(front[i])) {
      var i: nat :| LastInTime(front, i) && k == front[i].end + 2_400;
      assert LastInTime(speech, i) && speech[i] == front[i];
    }
  }
}
