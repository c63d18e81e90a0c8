/** The state machine behind SmileEvaluator, BrowUpEvaluator and
    MouthPuckerEvaluator, as functions on values: one stored flag, a reading
    that may be missing, a level-change callback on every change of
    classification and an edge callback on every rise. The classes in
    ThresholdEvaluators are proved against Step; the lemmas here follow the
    machine over a whole stream of frames. */
module SingleThreshold {
  import opened FaceEvents

  /** The stored flag after a frame, and the callbacks the frame attempted. */
  datatype Outcome = Outcome(state: bool, events: seq<Event>)

  /** The smile reading: the mean of the two mouth-corner intensities, and
      no reading at all unless both corners are present. */
  function SmileReading(s: Snapshot): (r: Option<real>)
    ensures r.Some? <==> mouthSmileLeft in s && mouthSmileRight in s
    ensures r.Some? ==> r.value - s[mouthSmileLeft] == s[mouthSmileRight] - r.value
  {
    if mouthSmileLeft in s && mouthSmileRight in s then
      Some((s[mouthSmileLeft] + s[mouthSmileRight]) / 2.0)
    else
      None
  }

  /** The reading of a single tracked key (browInnerUp, mouthPucker). */
  function KeyReading(s: Snapshot, k: Key): (r: Option<real>)
    ensures r.Some? <==> k in s
    ensures r.Some? ==> r.value == s[k]
  {
    if k in s then Some(s[k]) else None
  }

  /** The callbacks for classification `level` when the stored flag is
      `previous`: nothing if they agree, else the level change carrying
      `level`, followed by the edge callback when `level` is true. */
  function Transition(c: Condition, previous: bool, level: bool): (es: seq<Event>)
    ensures es == [] <==> level == previous
    ensures forall e :: e in es ==> e.cond == c
    ensures forall v :: DidChange(c, v) in es ==> v == level
    ensures Edge(c) in es <==> level && !previous
    ensures level != previous ==> es[0] == DidChange(c, level)
    ensures Edge(c) in es ==> es == [DidChange(c, true), Edge(c)]
    ensures |es| == if level == previous then 0 else if level then 2 else 1
  {
    if level != previous then
      [DidChange(c, level)] + (if level then [Edge(c)] else [])
    else
      []
  }

  /** One call of `evaluate`: a missing reading skips the frame (no callback,
      flag kept); otherwise the frame is classified with `>=` against the
      threshold, the transition's callbacks are attempted, and the
      classification becomes the stored flag. */
  function Step(c: Condition, threshold: real, previous: bool, reading: Option<real>): (o: Outcome)
    ensures reading.None? ==> o == Outcome(previous, [])
    ensures reading.Some? ==> o.state == (reading.value >= threshold)
    ensures o.events == Transition(c, previous, o.state)
  {
    match reading
    case None => Outcome(previous, [])
    case Some(x) =>
      var level := x >= threshold;
      Outcome(level, Transition(c, previous, level))
  }

  /** A single-key evaluator looks at its own key only: changing any other
      key of the frame changes neither the stored flag nor the calls. */
  lemma OtherKeysIgnored(c: Condition, threshold: real, previous: bool, s: Snapshot, k: Key, other: Key, x: real)
    requires other != k
    ensures Step(c, threshold, previous, KeyReading(s[other := x], k))
         == Step(c, threshold, previous, KeyReading(s, k))
  {
  }

  /** A missing reading is not a low reading: with the flag set, a frame
      without the reading calls nothing and keeps the flag, while a frame
      whose reading is below the threshold reports the fall. */
  lemma MissingIsNotLow(c: Condition, threshold: real, x: real)
    requires x < threshold
    ensures Step(c, threshold, true, None) == Outcome(true, [])
    ensures Step(c, threshold, true, Some(x)) == Outcome(false, [DidChange(c, false)])
  {
  }

  /** Successive calls of `evaluate` on one evaluator, starting from the
      stored flag `previous`. */
  function Run(c: Condition, threshold: real, previous: bool, readings: seq<Option<real>>): (o: Outcome)
    ensures forall e :: e in o.events ==> e.cond == c
    ensures |o.events| <= 2 * |readings|
    decreases |readings|
  {
    if readings == [] then
      Outcome(previous, [])
    else
      var first := Step(c, threshold, previous, readings[0]);
      var rest := Run(c, threshold, first.state, readings[1..]);
      Outcome(rest.state, first.events + rest.events)
  }

  /** The classifications of the frames that carry a reading, in order. */
  function Levels(threshold: real, readings: seq<Option<real>>): seq<bool>
  {
    if readings == [] then
      []
    else
      (match readings[0] case None => [] case Some(x) => [x >= threshold])
      + Levels(threshold, readings[1..])
  }

  /** The last classification, or `previous` if there is none. */
  function Last(previous: bool, levels: seq<bool>): bool
  {
    if levels == [] then previous else levels[|levels| - 1]
  }

  /** Each classification that differs from the one before it (the first is
      compared with `previous`): the crossings of the threshold. */
  function Crossings(previous: bool, levels: seq<bool>): seq<bool>
    decreases |levels|
  {
    if levels == [] then
      []
    else
      (if levels[0] != previous then [levels[0]] else [])
      + Crossings(levels[0], levels[1..])
  }

  /** The values carried by the level-change callbacks, in order. */
  function ChangeValues(es: seq<Event>): seq<bool>
  {
    if es == [] then
      []
    else
      (if es[0].DidChange? then [es[0].value] else []) + ChangeValues(es[1..])
  }

  /** The number of edge callbacks. */
  function EdgeCount(es: seq<Event>): nat
  {
    if es == [] then 0 else (if es[0].Edge? then 1 else 0) + EdgeCount(es[1..])
  }

  /** `vs` alternates, starting with `start`. */
  predicate Alternates(start: bool, vs: seq<bool>)
    decreases |vs|
  {
    vs == [] || (vs[0] == start && Alternates(!start, vs[1..]))
  }

  lemma {:induction false} ChangeValuesAppend(a: seq<Event>, b: seq<Event>)
    ensures ChangeValues(a + b) == ChangeValues(a) + ChangeValues(b)
  {
    if a == [] {
      assert a + b == b;
    } else {
      assert (a + b)[0] == a[0];
      assert (a + b)[1..] == a[1..] + b;
      ChangeValuesAppend(a[1..], b);
    }
  }

  lemma {:induction false} EdgeCountAppend(a: seq<Event>, b: seq<Event>)
    ensures EdgeCount(a + b) == EdgeCount(a) + EdgeCount(b)
  {
    if a == [] {
      assert a + b == b;
    } else {
      assert (a + b)[0] == a[0];
      assert (a + b)[1..] == a[1..] + b;
      EdgeCountAppend(a[1..], b);
    }
  }

  /** Over any stream of frames, the level-change callbacks fire exactly at
      the crossings of the threshold, each carrying the new classification,
      and the stored flag ends as the last classification made (frames
      without a reading change nothing). */
  lemma {:induction false} RunReportsCrossings(c: Condition, threshold: real, previous: bool, readings: seq<Option<real>>)
    ensures ChangeValues(Run(c, threshold, previous, readings).events)
         == Crossings(previous, Levels(threshold, readings))
    ensures Run(c, threshold, previous, readings).state
         == Last(previous, Levels(threshold, readings))
    decreases |readings|
  {
    if readings != [] {
      var first := Step(c, threshold, previous, readings[0]);
      var rest := readings[1..];
      RunReportsCrossings(c, threshold, first.state, rest);
      ChangeValuesAppend(first.events, Run(c, threshold, first.state, rest).events);
      var levels := Levels(threshold, rest);
      match readings[0]
      case None =>
        assert Levels(threshold, readings) == levels;
      case Some(x) =>
        var level := x >= threshold;
        assert Levels(threshold, readings) == [level] + levels;
        assert ([level] + levels)[0] == level && ([level] + levels)[1..] == levels;
        assert ChangeValues(first.events) == if level != previous then [level] else [];
        if levels != [] {
          assert ([level] + levels)[|levels|] == levels[|levels| - 1];
        }
    }
  }

  /** A frame without a reading is invisible: inserting it anywhere in a
      stream changes neither the calls nor the final flag. */
  lemma {:induction false} SkippedFrameIsInvisible(c: Condition, threshold: real, previous: bool, a: seq<Option<real>>, b: seq<Option<real>>)
    ensures Run(c, threshold, previous, a + [None] + b) == Run(c, threshold, previous, a + b)
    decreases |a|
  {
    if a == [] {
      assert a + [None] + b == [None] + b && ([None] + b)[1..] == b;
      assert a + b == b;
      assert [] + Run(c, threshold, previous, b).events == Run(c, threshold, previous, b).events;
    } else {
      var first := Step(c, threshold, previous, a[0]);
      var withSkip, without := a + [None] + b, a + b;
      assert withSkip[0] == a[0] && withSkip[1..] == a[1..] + [None] + b;
      assert without[0] == a[0] && without[1..] == a[1..] + b;
      SkippedFrameIsInvisible(c, threshold, first.state, a[1..], b);
      var rest := Run(c, threshold, first.state, a[1..] + b);
      assert Run(c, threshold, previous, withSkip) == Outcome(rest.state, first.events + rest.events);
      assert Run(c, threshold, previous, without) == Outcome(rest.state, first.events + rest.events);
    }
  }

  /** The threshold crossings alternate, starting with the opposite of
      `previous`. */
  lemma {:induction false} CrossingsAlternate(previous: bool, levels: seq<bool>)
    ensures Alternates(!previous, Crossings(previous, levels))
    decreases |levels|
  {
    if levels != [] {
      CrossingsAlternate(levels[0], levels[1..]);
      var tail := Crossings(levels[0], levels[1..]);
      if levels[0] != previous {
        var vs := [levels[0]] + tail;
        assert Crossings(previous, levels) == vs;
        assert vs[0] == !previous && vs[1..] == tail;
      } else {
        assert Crossings(previous, levels) == [] + tail;
        assert [] + tail == tail;
      }
    }
  }

  /** So the level-change callbacks of one evaluator alternate: the first
      one reports the opposite of the initial flag, and no two consecutive
      ones carry the same value. */
  lemma LevelChangesAlternate(c: Condition, threshold: real, previous: bool, readings: seq<Option<real>>)
    ensures Alternates(!previous, ChangeValues(Run(c, threshold, previous, readings).events))
  {
    RunReportsCrossings(c, threshold, previous, readings);
    CrossingsAlternate(previous, Levels(threshold, readings));
  }

  /** One transition has as many edge callbacks as level changes to true. */
  lemma TransitionEdgesCountRises(c: Condition, previous: bool, level: bool)
    ensures EdgeCount(Transition(c, previous, level))
         == multiset(ChangeValues(Transition(c, previous, level)))[true]
  {
    var es := Transition(c, previous, level);
    if level == previous {
      assert es == [];
    } else if level {
      assert es == [DidChange(c, true), Edge(c)];
      assert es[1..] == [Edge(c)] && es[1..][1..] == [];
      assert ChangeValues(es[1..]) == [] + ChangeValues(es[1..][1..]) == [];
      assert EdgeCount(es[1..]) == 1 + EdgeCount(es[1..][1..]) == 1;
      assert ChangeValues(es) == [true] + ChangeValues(es[1..]) == [true];
      assert EdgeCount(es) == 0 + EdgeCount(es[1..]);
    } else {
      assert es == [DidChange(c, false)];
      assert es[1..] == [];
      assert ChangeValues(es) == [false] + ChangeValues(es[1..]) == [false];
      assert EdgeCount(es) == 0 + EdgeCount(es[1..]) == 0;
    }
  }

  /** Over any stream of frames, there are exactly as many edge callbacks as
      level changes to true. */
  lemma {:induction false} EdgesCountRises(c: Condition, threshold: real, previous: bool, readings: seq<Option<real>>)
    ensures EdgeCount(Run(c, threshold, previous, readings).events)
         == multiset(ChangeValues(Run(c, threshold, previous, readings).events))[true]
    decreases |readings|
  {
    if readings != [] {
      var first := Step(c, threshold, previous, readings[0]);
      var rest := Run(c, threshold, first.state, readings[1..]);
      EdgesCountRises(c, threshold, first.state, readings[1..]);
      ChangeValuesAppend(first.events, rest.events);
      EdgeCountAppend(first.events, rest.events);
      TransitionEdgesCountRises(c, previous, first.state);
      var whole := Run(c, threshold, previous, readings).events;
      assert whole == first.events + rest.events;
      var vf, vr := ChangeValues(first.events), ChangeValues(rest.events);
      assert ChangeValues(whole) == vf + vr;
      assert multiset(vf + vr) == multiset(vf) + multiset(vr);
      assert EdgeCount(whole) == EdgeCount(first.events) + EdgeCount(rest.events);
    }
  }

  /** Holding one frame: the first call attempts whatever the frame changes,
      and every repeat of the identical frame attempts nothing. */
  lemma {:induction false} RepeatedFrameIsSilent(c: Condition, threshold: real, previous: bool, reading: Option<real>, readings: seq<Option<real>>)
    requires |readings| > 0
    requires forall i :: 0 <= i < |readings| ==> readings[i] == reading
    ensures Run(c, threshold, previous, readings) == Step(c, threshold, previous, reading)
    decreases |readings|
  {
    var first := Step(c, threshold, previous, reading);
    if |readings| > 1 {
      RepeatedFrameIsSilent(c, threshold, first.state, reading, readings[1..]);
      assert Step(c, threshold, first.state, reading) == Outcome(first.state, []);
      assert first.events + [] == first.events;
    } else {
      assert readings[1..] == [];
      assert first.events + [] == first.events;
    }
  }
}
