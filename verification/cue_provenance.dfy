/**
  The builder's pending cues seen with the tags of the audio they stem from: pushing the phrases of one window into the
  segment builder queues, in the session model, the captions the builder decides to emit.
 */
module CueProvenance {
  import opened Captions
  import CueTimeline
  import opened TailFlush
  import opened WorkerSession

  function Stamp(cue: CueTimeline.Cue, origin: set<nat>): Waiting
  {
    Waiting(cue.id, CueTimeline.Emission(cue.text, cue.startUs, cue.endUs), origin)
  }

  /** The pending cues, each with its origin. */
  function Stamped(pending: seq<CueTimeline.Cue>, origins: seq<set<nat>>): (waiting: seq<Waiting>)
    requires |pending| == |origins|
    ensures |waiting| == |pending|
    ensures forall i :: 0 <= i < |pending| ==> waiting[i] == Stamp(pending[i], origins[i])
  {
    if pending == [] then []
    else Stamped(pending[..|pending| - 1], origins[..|origins| - 1]) +
         [Stamp(pending[|pending| - 1], origins[|origins| - 1])]
  }

  lemma StampedOneMore(pending: seq<CueTimeline.Cue>, origins: seq<set<nat>>, cue: CueTimeline.Cue, origin: set<nat>)
    requires |pending| == |origins|
    ensures Stamped(pending + [cue], origins + [origin]) == Stamped(pending, origins) + [Stamp(cue, origin)]
  {
  }

  lemma StampedRest(pending: seq<CueTimeline.Cue>, origins: seq<set<nat>>)
    requires |pending| == |origins| && pending != []
    ensures Stamped(pending, origins)[0] == Stamp(pending[0], origins[0])
    ensures Stamped(pending[1..], origins[1..]) == Stamped(pending, origins)[1..]
  {
  }

  lemma StampedNone()
    ensures Stamped([], []) == []
  {
  }

  /** The captions the builder decides to emit for the phrases, in order. */
  function Emissions(phantom: string -> bool, b: CueTimeline.Builder, pushed: seq<Hypothesis>): seq<CueTimeline.Emission>
  {
    if pushed == [] then []
    else
      var front, p := pushed[..|pushed| - 1], pushed[|pushed| - 1];
      var e := CueTimeline.Decide(phantom, PushEach(phantom, b, front), p.text, p.startUs, p.endUs);
      Emissions(phantom, b, front) + (if e.Some? then [e.value] else [])
  }

  /** The origins of the pending cues after `count` more captions of a window, with what was remembered before. */
  function OriginsAfter(origins: seq<set<nat>>, origin: set<nat>, count: nat): (after: seq<set<nat>>)
    ensures |after| == |origins| + count
  {
    if count == 0 then origins else OriginsAfter(origins, origin, count - 1) + [origin]
  }

  function RememberedAfter(remembered: set<nat>, origin: set<nat>, count: nat): set<nat>
  {
    if count == 0 then remembered else remembered + origin
  }

  lemma {:induction false} QueueOneMore(w: Worker, captions: seq<CueTimeline.Emission>, e: CueTimeline.Emission,
                                        origin: set<nat>)
    ensures Queue(w, captions + [e], origin) == QueueOne(Queue(w, captions, origin), e, origin)
    decreases |captions|
  {
    if captions == [] {
      assert [e][1..] == [];
      assert captions + [e] == [e];
      assert Queue(QueueOne(w, e, origin), [], origin) == QueueOne(w, e, origin);
    } else {
      assert (captions + [e])[1..] == captions[1..] + [e];
      QueueOneMore(QueueOne(w, captions[0], origin), captions[1..], e, origin);
    }
  }

  /** The session's part of the builder: the pending captions with their origins, what is remembered, the next id. */
  function WithBuilder(w: Worker, b: CueTimeline.Builder, origins: seq<set<nat>>, remembered: set<nat>): Worker
    requires |b.pending| == |origins|
  {
    w.(pending := Stamped(b.pending, origins), remembered := remembered, nextSegmentId := b.nextId)
  }

  lemma PushGrows(phantom: string -> bool, b: CueTimeline.Builder, raw: string, startUs: int, endUs: int)
    ensures var e, after := CueTimeline.Decide(phantom, b, raw, startUs, endUs),
                            CueTimeline.Push(phantom, b, raw, startUs, endUs);
            if e.None? then after == b
            else
              && after.pending == b.pending + [CueTimeline.Cue(b.nextId, e.value.startUs, e.value.endUs, e.value.text)]
              && after.nextId == b.nextId + 1
  {
    hide CueTimeline.Decide;
  }

  /**
    Pushing the phrases of a window into the builder, its new cues stamped with the window's tags and everything
    remembered before, is queueing the emitted captions in the session model.
   */
  lemma {:induction false} PushingIsQueueing(phantom: string -> bool, w: Worker, b: CueTimeline.Builder,
                                             origins: seq<set<nat>>, remembered: set<nat>, origin: set<nat>,
                                             pushed: seq<Hypothesis>)
    requires |b.pending| == |origins|
    ensures var captions, after := Emissions(phantom, b, pushed), PushEach(phantom, b, pushed);
            var origins' := OriginsAfter(origins, origin + remembered, |captions|);
            && |after.pending| == |origins'|
            && WithBuilder(w, after, origins', RememberedAfter(remembered, origin, |captions|)) ==
               Queue(WithBuilder(w, b, origins, remembered), captions, origin)
    decreases |pushed|
  {
    hide CueTimeline.Decide, CueTimeline.Push, Stamped;
    if pushed != [] {
      var front, p := pushed[..|pushed| - 1], pushed[|pushed| - 1];
      PushingIsQueueing(phantom, w, b, origins, remembered, origin, front);
      var before, captions := PushEach(phantom, b, front), Emissions(phantom, b, front);
      var origins' := OriginsAfter(origins, origin + remembered, |captions|);
      var remembered' := RememberedAfter(remembered, origin, |captions|);
      PushGrows(phantom, before, p.text, p.startUs, p.endUs);
      var e := CueTimeline.Decide(phantom, before, p.text, p.startUs, p.endUs);
      if e.Some? {
        var cue := CueTimeline.Cue(before.nextId, e.value.startUs, e.value.endUs, e.value.text);
        QueueOneMore(WithBuilder(w, b, origins, remembered), captions, e.value, origin);
        assert origin + remembered' == origin + remembered && remembered' + origin == remembered + origin;
        StampedOneMore(before.pending, origins', cue, origin + remembered);
      } else {
        assert captions + [] == captions;
      }
    }
  }

  function HypothesisEvents(pushed: seq<Hypothesis>): seq<CueTimeline.Event>
    decreases |pushed|
  {
    if pushed == [] then []
    else [CueTimeline.Hypothesis(pushed[0].text, pushed[0].startUs, pushed[0].endUs)] + HypothesisEvents(pushed[1..])
  }

  /** The captions as cues numbered from `id` on. */
  function Numbered(id: nat, captions: seq<CueTimeline.Emission>): seq<CueTimeline.Cue>
  {
    seq(|captions|, i requires 0 <= i < |captions| =>
      CueTimeline.Cue(id + i, captions[i].startUs, captions[i].endUs, captions[i].text))
  }

  /** Pushing one more hypothesis is one more event. */
  lemma {:induction false} EventsOneMore(phantom: string -> bool, w: CueTimeline.World, pushed: seq<Hypothesis>,
                                         p: Hypothesis)
    ensures CueTimeline.Run(phantom, w, HypothesisEvents(pushed + [p])) ==
            CueTimeline.Next(phantom, CueTimeline.Run(phantom, w, HypothesisEvents(pushed)),
                             CueTimeline.Hypothesis(p.text, p.startUs, p.endUs))
    decreases |pushed|
  {
    hide CueTimeline.Next;
    var e := CueTimeline.Hypothesis(p.text, p.startUs, p.endUs);
    if pushed == [] {
      assert pushed + [p] == [p] && [p][1..] == [] && [e][1..] == [];
      assert HypothesisEvents([p]) == [e];
      assert CueTimeline.Run(phantom, CueTimeline.Next(phantom, w, e), []) == CueTimeline.Next(phantom, w, e);
    } else {
      assert (pushed + [p])[1..] == pushed[1..] + [p];
      var first := CueTimeline.Hypothesis(pushed[0].text, pushed[0].startUs, pushed[0].endUs);
      assert ([first] + HypothesisEvents(pushed[1..]))[1..] == HypothesisEvents(pushed[1..]);
      assert ([first] + HypothesisEvents(pushed[1..] + [p]))[1..] == HypothesisEvents(pushed[1..] + [p]);
      EventsOneMore(phantom, CueTimeline.Next(phantom, w, first), pushed[1..], p);
    }
  }

  /**
    The phrases of a window take the builder through a run of cue_timeline.dfy, one hypothesis after another; the captions
    are the cues of that run, and they are what becomes pending.
   */
  lemma {:induction false} PushingIsARun(phantom: string -> bool, b: CueTimeline.Builder, pushed: seq<Hypothesis>)
    ensures var captions, after := Emissions(phantom, b, pushed), PushEach(phantom, b, pushed);
            && CueTimeline.Run(phantom, CueTimeline.World(b, []), HypothesisEvents(pushed)) ==
               CueTimeline.World(after, Numbered(b.nextId, captions))
            && after.pending == b.pending + Numbered(b.nextId, captions)
            && after.nextId == b.nextId + |captions|
    decreases |pushed|
  {
    hide CueTimeline.Decide, CueTimeline.Push;
    if pushed == [] {
      assert b.pending + [] == b.pending;
    } else {
      var front, p := pushed[..|pushed| - 1], pushed[|pushed| - 1];
      PushingIsARun(phantom, b, front);
      assert pushed == front + [p];
      EventsOneMore(phantom, CueTimeline.World(b, []), front, p);
      var before, captions := PushEach(phantom, b, front), Emissions(phantom, b, front);
      PushGrows(phantom, before, p.text, p.startUs, p.endUs);
      var e := CueTimeline.Decide(phantom, before, p.text, p.startUs, p.endUs);
      if e.Some? {
        assert Numbered(b.nextId, captions + [e.value]) == Numbered(b.nextId, captions) +
               [CueTimeline.Cue(before.nextId, e.value.startUs, e.value.endUs, e.value.text)];
        assert Emissions(phantom, b, pushed) == captions + [e.value];
      } else {
        assert Emissions(phantom, b, pushed) == captions;
      }
    }
  }
}
