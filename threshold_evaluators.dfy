/** The three single-threshold evaluators of FaceTrigger.swift. Each keeps a
    private `oldValue` flag, false at construction, that only its own
    `Evaluate` updates. `Evaluate` returns the calls the delegate received,
    in order; a callback the delegate does not implement is not received. */
module ThresholdEvaluators {
  import opened FaceEvents
  import opened SingleThreshold

  class SmileEvaluator {
    var oldValue: bool
    const threshold: real

    constructor (threshold: real)
      ensures this.threshold == threshold && !oldValue
    {
      this.threshold := threshold;
      oldValue := false;
    }

    /** Classifies the mean of the two mouth corners; skips the frame unless
        both are present. */
    method Evaluate(blendShapes: Snapshot, delegate: Delegate) returns (calls: seq<Event>)
      modifies this`oldValue
      ensures oldValue == Step(Smile, threshold, old(oldValue), SmileReading(blendShapes)).state
      ensures calls == Deliver(delegate, Step(Smile, threshold, old(oldValue), SmileReading(blendShapes)).events)
    {
      calls := [];
      if mouthSmileLeft in blendShapes && mouthSmileRight in blendShapes {
        var left, right := blendShapes[mouthSmileLeft], blendShapes[mouthSmileRight];
        var newValue := (left + right) / 2.0 >= threshold;
        if newValue != oldValue {
          calls := calls + Call(delegate, DidChange(Smile, newValue));
          if newValue {
            calls := calls + Call(delegate, Edge(Smile));
          }
        }
        oldValue := newValue;
      }
      DeliverTransition(delegate, Smile, old(oldValue), oldValue);
    }
  }

  class BrowUpEvaluator {
    var oldValue: bool
    const threshold: real

    constructor (threshold: real)
      ensures this.threshold == threshold && !oldValue
    {
      this.threshold := threshold;
      oldValue := false;
    }

    /** Classifies `browInnerUp`; skips the frame when it is absent. */
    method Evaluate(blendShapes: Snapshot, delegate: Delegate) returns (calls: seq<Event>)
      modifies this`oldValue
      ensures oldValue == Step(BrowUp, threshold, old(oldValue), KeyReading(blendShapes, browInnerUp)).state
      ensures calls == Deliver(delegate, Step(BrowUp, threshold, old(oldValue), KeyReading(blendShapes, browInnerUp)).events)
    {
      calls := [];
      if browInnerUp in blendShapes {
        var newValue := blendShapes[browInnerUp] >= threshold;
        if newValue != oldValue {
          calls := calls + Call(delegate, DidChange(BrowUp, newValue));
          if newValue {
            calls := calls + Call(delegate, Edge(BrowUp));
          }
        }
        oldValue := newValue;
      }
      DeliverTransition(delegate, BrowUp, old(oldValue), oldValue);
    }
  }

  class MouthPuckerEvaluator {
    var oldValue: bool
    const threshold: real

    constructor (threshold: real)
      ensures this.threshold == threshold && !oldValue
    {
      this.threshold := threshold;
      oldValue := false;
    }

    /** Classifies `mouthPucker`; skips the frame when it is absent. */
    method Evaluate(blendShapes: Snapshot, delegate: Delegate) returns (calls: seq<Event>)
      modifies this`oldValue
      ensures oldValue == Step(MouthPucker, threshold, old(oldValue), KeyReading(blendShapes, mouthPucker)).state
      ensures calls == Deliver(delegate, Step(MouthPucker, threshold, old(oldValue), KeyReading(blendShapes, mouthPucker)).events)
    {
      calls := [];
      if mouthPucker in blendShapes {
        var newValue := blendShapes[mouthPucker] >= threshold;
        if newValue != oldValue {
          calls := calls + Call(delegate, DidChange(MouthPucker, newValue));
          if newValue {
            calls := calls + Call(delegate, Edge(MouthPucker));
          }
        }
        oldValue := newValue;
      }
      DeliverTransition(delegate, MouthPucker, old(oldValue), oldValue);
    }
  }

  /** The calls that reach the delegate for one transition: the level change
      if implemented, then the edge callback if the level rose and the edge
      callback is implemented. */
  lemma DeliverTransition(d: Delegate, c: Condition, previous: bool, level: bool)
    ensures Deliver(d, Transition(c, previous, level))
         == if level != previous then
              Call(d, DidChange(c, level)) + (if level then Call(d, Edge(c)) else [])
            else []
  {
  }

  /** A smile held over two frames, against threshold 0.6: a frame at
      0.5/0.5 (mean below threshold) calls nothing from the initial state;
      a frame at 0.7/0.7 calls `onSmileDidChange(true)` then `onSmile()`;
      repeating that frame calls nothing. */
  method SmileScenario() returns (low: seq<Event>, high: seq<Event>, again: seq<Event>)
    ensures low == []
    ensures high == [DidChange(Smile, true), Edge(Smile)]
    ensures again == []
  {
    var delegate := {OnDidChange(Smile), OnEdge(Smile)};
    var smile := new SmileEvaluator(0.6);
    low := smile.Evaluate(map[mouthSmileLeft := 0.5, mouthSmileRight := 0.5], delegate);
    high := smile.Evaluate(map[mouthSmileLeft := 0.7, mouthSmileRight := 0.7], delegate);
    again := smile.Evaluate(map[mouthSmileLeft := 0.7, mouthSmileRight := 0.7], delegate);
  }

  /** A frame without `browInnerUp` leaves a raised brow raised: lowering is
      reported only by the next frame that carries the key. */
  method BrowUpSkipScenario() returns (raised: seq<Event>, missing: seq<Event>, lowered: seq<Event>)
    ensures raised == [DidChange(BrowUp, true), Edge(BrowUp)]
    ensures missing == []
    ensures lowered == [DidChange(BrowUp, false)]
  {
    var delegate := {OnDidChange(BrowUp), OnEdge(BrowUp)};
    var brow := new BrowUpEvaluator(0.3);
    raised := brow.Evaluate(map[browInnerUp := 0.8], delegate);
    missing := brow.Evaluate(map[mouthPucker := 0.0], delegate);
    lowered := brow.Evaluate(map[browInnerUp := 0.1], delegate);
  }

  /** A delegate that implements only `onMouthPuckerDidChange` receives the
      level changes and no edge callback; the evaluator's flag still moves. */
  method MouthPuckerPartialDelegate() returns (first: seq<Event>, second: seq<Event>)
    ensures first == [DidChange(MouthPucker, true)]
    ensures second == [DidChange(MouthPucker, false)]
  {
    var delegate := {OnDidChange(MouthPucker)};
    var pucker := new MouthPuckerEvaluator(0.5);
    first := pucker.Evaluate(map[mouthPucker := 0.5], delegate);
    second := pucker.Evaluate(map[mouthPucker := 0.2], delegate);
  }
}
