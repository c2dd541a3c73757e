/**
  Where the player is and how far the worker has decoded a session's own file: the variables that pace the look-ahead and
  decide when a position report makes the decoder seek.
 */
module Playbacks {
  import opened TailFlush

  const LEAD_TARGET_US: int := 30_000_000
  const BACKWARD_US: int := 500_000
  const FORWARD_US: int := 1_000_000
  const SAMPLE_RATE: nat := 16_000

  class Playback {
    var sourceEof: bool
    var seekFailedPending: bool
    var currentPtsUs: int
    var lastPtsUs: int
    var decodedPtsUs: int

    constructor ()
      ensures !sourceEof && !seekFailedPending && currentPtsUs == decodedPtsUs == 0 && lastPtsUs == -1
    {
      sourceEof, seekFailedPending, currentPtsUs, lastPtsUs, decodedPtsUs := false, false, 0, -1, 0;
    }

    /** A session begins; no report has come yet. */
    method BeginAt(originUs: int)
      modifies this
      ensures !sourceEof && !seekFailedPending && currentPtsUs == decodedPtsUs == originUs && lastPtsUs == -1
    {
      sourceEof, seekFailedPending := false, false;
      currentPtsUs, lastPtsUs, decodedPtsUs := originUs, -1, originUs;
    }

    method OpenAt(originUs: int)
      modifies this
      ensures !sourceEof && currentPtsUs == lastPtsUs == decodedPtsUs == originUs
      ensures seekFailedPending == old(seekFailedPending)
    {
      sourceEof := false;
      currentPtsUs, lastPtsUs, decodedPtsUs := originUs, originUs, originUs;
    }

    method End()
      modifies this`seekFailedPending, this`lastPtsUs
      ensures !seekFailedPending && lastPtsUs == -1
    {
      seekFailedPending, lastPtsUs := false, -1;
    }

    /** The decoder has been sought to where the player resumes. */
    method ResumeAt(ptsUs: int)
      modifies this
      ensures currentPtsUs == decodedPtsUs == lastPtsUs == ptsUs && !sourceEof
      ensures seekFailedPending == old(seekFailedPending)
    {
      currentPtsUs, decodedPtsUs, lastPtsUs, sourceEof := ptsUs, ptsUs, ptsUs, false;
    }

    /** A report of a session that hears live audio. */
    method ReportAt(ptsUs: int)
      modifies this`currentPtsUs
      ensures currentPtsUs == ptsUs
    {
      currentPtsUs := ptsUs;
    }

    /** A jump against the playback so far, unless the last such seek failed, or a seek that is asked for. */
    predicate MustSeek(ptsUs: int, seekFlag: bool)
      reads this
    {
      var backwardJump := lastPtsUs >= 0 && ptsUs < SaturatingAdd(lastPtsUs, -BACKWARD_US);
      var forwardPastDecoded := ptsUs > SaturatingAdd(decodedPtsUs, FORWARD_US);
      || seekFlag
      || ((backwardJump || forwardPastDecoded) && ptsUs != lastPtsUs && !seekFailedPending)
    }

    /** A report of a session that decodes its own file; `seeks` says whether the decoder can be sought. */
    method Follow(ptsUs: int, seekFlag: bool, seeks: bool) returns (mustSeek: bool)
      modifies this
      ensures mustSeek == old(MustSeek(ptsUs, seekFlag)) && (seekFlag ==> mustSeek)
      ensures mustSeek && seeks ==>
                decodedPtsUs == currentPtsUs == lastPtsUs == ptsUs && !sourceEof && !seekFailedPending
      ensures !mustSeek ==>
                && currentPtsUs == lastPtsUs == ptsUs
                && decodedPtsUs == old(decodedPtsUs) && sourceEof == old(sourceEof)
                && seekFailedPending == old(seekFailedPending)
      ensures mustSeek && !seeks ==>
                && decodedPtsUs == old(decodedPtsUs) && sourceEof == old(sourceEof) && seekFailedPending == !seekFlag
                && currentPtsUs == old(currentPtsUs)
                && lastPtsUs == if old(currentPtsUs) == ptsUs then ptsUs else old(lastPtsUs)
    {
      mustSeek := MustSeek(ptsUs, seekFlag);
      if mustSeek {
        if !seeks {
          seekFailedPending := !seekFlag;
        } else {
          seekFailedPending := false;
          currentPtsUs, decodedPtsUs, sourceEof := ptsUs, ptsUs, false;
        }
      }
      if !mustSeek || currentPtsUs == ptsUs {
        currentPtsUs, lastPtsUs := ptsUs, ptsUs;
      }
    }

    /** There is more of the file, and decoding is not far enough ahead of the player. */
    predicate WantsMore()
      reads this
    {
      !sourceEof && decodedPtsUs < SaturatingAdd(currentPtsUs, LEAD_TARGET_US)
    }

    /** A decoded block of this many samples, with its own time unless it has none; returns the time it counts from. */
    method Decode(count: nat, ptsUs: int) returns (actualPtsUs: int)
      modifies this`decodedPtsUs
      ensures actualPtsUs == if ptsUs >= 0 then ptsUs else old(decodedPtsUs)
      ensures decodedPtsUs == actualPtsUs + count * 1_000_000 / SAMPLE_RATE
    {
      actualPtsUs := if ptsUs >= 0 then ptsUs else decodedPtsUs;
      decodedPtsUs := actualPtsUs + count * 1_000_000 / SAMPLE_RATE;
    }

    method ReachEnd()
      modifies this`sourceEof
      ensures sourceEof
    {
      sourceEof := true;
    }
  }

  /** Where the decoder has just been sought to, only a seek that is asked for follows. */
  lemma ResumedThere(p: Playback, ptsUs: int, seekFlag: bool)
    ensures ptsUs >= 0 && p.currentPtsUs == p.decodedPtsUs == p.lastPtsUs == ptsUs ==> p.MustSeek(ptsUs, seekFlag) == seekFlag
  {
  }

  /**
    When a report makes the decoder seek: when it asks for it, or when it is more than half a second before the last one or
    more than a second past what is decoded, unless it repeats the last one or the last such seek failed.
   */
  lemma SeeksIff(p: Playback, ptsUs: int, seekFlag: bool)
    requires -9_223_372_036_854_775_808 <= p.lastPtsUs <= 9_223_372_036_854_775_807
    requires -9_223_372_036_854_775_808 <= p.decodedPtsUs <= 9_223_372_036_854_775_807
    requires -9_223_372_036_854_775_808 <= ptsUs <= 9_223_372_036_854_775_807
    ensures p.MustSeek(ptsUs, seekFlag) <==>
            || seekFlag
            || (&& !p.seekFailedPending && ptsUs != p.lastPtsUs
                && ((p.lastPtsUs >= 0 && p.lastPtsUs - ptsUs > 500_000) || ptsUs - p.decodedPtsUs > 1_000_000))
  {
  }

  /** The file is decoded on while it is not at its end and less than 30 s ahead of the player. */
  lemma LooksThirtySecondsAhead(p: Playback)
    requires -9_223_372_036_854_775_808 <= p.currentPtsUs <= 9_223_372_036_824_775_807
    ensures p.WantsMore() <==> !p.sourceEof && p.decodedPtsUs - p.currentPtsUs < 30_000_000
  {
  }

  /** After a seek that worked no further report near it asks for another one: it would have to jump again. */
  lemma SeekSettles(p: Playback, ptsUs: int, nextUs: int)
    requires p.decodedPtsUs == p.lastPtsUs == ptsUs
    requires 0 <= ptsUs <= INT64_MAX - FORWARD_US && ptsUs - BACKWARD_US <= nextUs <= ptsUs + FORWARD_US
    ensures !p.MustSeek(nextUs, false)
  {
  }
}
