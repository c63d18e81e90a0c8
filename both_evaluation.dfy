/** BothEvaluator and its subclasses BlinkEvaluator, BrowDownEvaluator and
    SquintEvaluator. Their fields (threshold, left key, right key) are
    constants, and `evaluate` keeps nothing from one frame to the next: it
    classifies each side, picks at most one hook by priority, and the hook
    the subclass overrides makes its calls. Being a function, Evaluate
    changes no state. */
module BothEvaluation {
  import opened FaceEvents

  /** The three subclasses; each fixes its pair of keys and its overrides. */
  datatype BothKind = BlinkEvaluator | BrowDownEvaluator | SquintEvaluator

  /** The overridable hooks of BothEvaluator. */
  datatype Hook = OnBoth | OnLeft | OnRight

  function LeftKey(k: BothKind): Key
  {
    match k
    case BlinkEvaluator => eyeBlinkLeft
    case BrowDownEvaluator => browDownLeft
    case SquintEvaluator => eyeSquintLeft
  }

  function RightKey(k: BothKind): Key
  {
    match k
    case BlinkEvaluator => eyeBlinkRight
    case BrowDownEvaluator => browDownRight
    case SquintEvaluator => eyeSquintRight
  }

  /** One side's classification: an absent key counts as false, and the
      frame is evaluated anyway. */
  function Side(s: Snapshot, key: Key, threshold: real): (on: bool)
    ensures on <==> key in s && s[key] >= threshold
  {
    if key in s then s[key] >= threshold else false
  }

  /** The hook `evaluate` calls: `onBoth` when both sides are on, otherwise
      `onLeft` when the left side is, otherwise `onRight` when the right side
      is, otherwise none. */
  function SelectHook(newLeft: bool, newRight: bool): (h: Option<Hook>)
    ensures h == Some(OnBoth) <==> newLeft && newRight
    ensures h == Some(OnLeft) <==> newLeft && !newRight
    ensures h == Some(OnRight) <==> !newLeft && newRight
    ensures h == None <==> !newLeft && !newRight
  {
    var newBoth := newLeft && newRight;
    if newBoth then Some(OnBoth)
    else if newLeft then Some(OnLeft)
    else if newRight then Some(OnRight)
    else None
  }

  /** The condition a subclass reports from a hook, or None where the hook
      is the base class's empty method (brow-down and squint override
      `onBoth` only). */
  function HookCondition(k: BothKind, h: Hook): Option<Condition>
  {
    match (k, h)
    case (BlinkEvaluator, OnBoth) => Some(Blink)
    case (BlinkEvaluator, OnLeft) => Some(BlinkLeft)
    case (BlinkEvaluator, OnRight) => Some(BlinkRight)
    case (BrowDownEvaluator, OnBoth) => Some(BrowDown)
    case (SquintEvaluator, OnBoth) => Some(Squint)
    case _ => None
  }

  /** The body of an overriding hook called with `value`: the level change
      carrying `value`, then the edge callback if `value` is true. No
      previous value is consulted. */
  function HookEvents(k: BothKind, h: Hook, value: bool): (es: seq<Event>)
    ensures HookCondition(k, h).None? ==> es == []
    ensures HookCondition(k, h).Some? ==>
              var c := HookCondition(k, h).value;
              |es| >= 1 && es[0] == DidChange(c, value) && (Edge(c) in es <==> value)
    ensures HookCondition(k, h).Some? ==> |es| == if value then 2 else 1
  {
    match HookCondition(k, h)
    case None => []
    case Some(c) => [DidChange(c, value)] + (if value then [Edge(c)] else [])
  }

  /** The callbacks one frame attempts. */
  function Evaluate(k: BothKind, threshold: real, s: Snapshot): (r: seq<Event>)
    // at most one hook: nothing, or one level change to true and its edge
    ensures r == [] || (|r| == 2 && r[0] == DidChange(r[1].cond, true) && r[1] == Edge(r[1].cond))
    // no level change to false is ever attempted
    ensures forall e :: e in r && e.DidChange? ==> e.value
    // the priority rule, with absent keys as false
    ensures var l, rt := Side(s, LeftKey(k), threshold), Side(s, RightKey(k), threshold);
            r != [] ==> SelectHook(l, rt).Some? && HookCondition(k, SelectHook(l, rt).value) == Some(r[1].cond)
    // which frames call anything at all
    ensures k == BlinkEvaluator ==>
              (r != [] <==> Side(s, eyeBlinkLeft, threshold) || Side(s, eyeBlinkRight, threshold))
    ensures k != BlinkEvaluator ==>
              (r != [] <==> Side(s, LeftKey(k), threshold) && Side(s, RightKey(k), threshold))
  {
    var newLeft := Side(s, LeftKey(k), threshold);
    var newRight := Side(s, RightKey(k), threshold);
    match SelectHook(newLeft, newRight)
    case None => []
    case Some(OnBoth) => HookEvents(k, OnBoth, newLeft && newRight)
    case Some(OnLeft) => HookEvents(k, OnLeft, newLeft)
    case Some(OnRight) => HookEvents(k, OnRight, newRight)
  }

  /** The condition each subclass reports when both sides are on. */
  function BothCondition(k: BothKind): (c: Condition)
    ensures HookCondition(k, OnBoth) == Some(c)
  {
    HookCondition(k, OnBoth).value
  }

  /** A frame with the left key absent and the right side on is not
      skipped: it calls the `onRight` hook. */
  lemma MissingLeftCallsRight(k: BothKind, threshold: real, s: Snapshot)
    requires LeftKey(k) !in s && RightKey(k) in s && s[RightKey(k)] >= threshold
    ensures Evaluate(k, threshold, s) == HookEvents(k, OnRight, true)
  {
  }

  /** An absent side counts as off, not as a reason to skip the frame: the
      frame calls exactly what it would call with that side present below
      the threshold. */
  lemma AbsentSideIsOff(k: BothKind, threshold: real, s: Snapshot, key: Key, x: real)
    requires key == LeftKey(k) || key == RightKey(k)
    requires key !in s && x < threshold
    ensures Evaluate(k, threshold, s) == Evaluate(k, threshold, s[key := x])
  {
  }

  /** The calls attempted over a stream of frames. */
  function EvaluateAll(k: BothKind, threshold: real, frames: seq<Snapshot>): seq<Event>
    decreases |frames|
  {
    if frames == [] then [] else Evaluate(k, threshold, frames[0]) + EvaluateAll(k, threshold, frames[1..])
  }

  /** The number of frames with both sides on. */
  function BothFrames(k: BothKind, threshold: real, frames: seq<Snapshot>): nat
    decreases |frames|
  {
    if frames == [] then 0
    else
      (if Side(frames[0], LeftKey(k), threshold) && Side(frames[0], RightKey(k), threshold) then 1 else 0)
      + BothFrames(k, threshold, frames[1..])
  }

  /** One frame attempts the both-sides pair once if both sides are on, and
      otherwise not at all. */
  lemma FrameFiresBoth(k: BothKind, threshold: real, s: Snapshot)
    ensures var c, es, n := BothCondition(k), Evaluate(k, threshold, s),
                            if Side(s, LeftKey(k), threshold) && Side(s, RightKey(k), threshold) then 1 else 0;
            multiset(es)[DidChange(c, true)] == n && multiset(es)[Edge(c)] == n
            && multiset(es)[DidChange(c, false)] == 0
  {
  }

  /** With no previous state, the both-sides callbacks are not edge
      triggered: over any stream, `on<X>DidChange(true)` and `on<X>()` are
      each attempted once for every frame with both sides on (so on every
      frame of a held blink), and `on<X>DidChange(false)` never. */
  lemma {:induction false} BothFiresEveryFrame(k: BothKind, threshold: real, frames: seq<Snapshot>)
    ensures var c, es := BothCondition(k), EvaluateAll(k, threshold, frames);
            multiset(es)[DidChange(c, true)] == BothFrames(k, threshold, frames)
            && multiset(es)[Edge(c)] == BothFrames(k, threshold, frames)
            && multiset(es)[DidChange(c, false)] == 0
    decreases |frames|
  {
    if frames != [] {
      BothFiresEveryFrame(k, threshold, frames[1..]);
      FrameFiresBoth(k, threshold, frames[0]);
      var first, rest := Evaluate(k, threshold, frames[0]), EvaluateAll(k, threshold, frames[1..]);
      assert multiset(first + rest) == multiset(first) + multiset(rest);
    }
  }

  /** Blinking the left eye only, then both: the first frame calls
      `onBlinkLeftDidChange(true)` and `onBlinkLeft()`, the second
      `onBlinkDidChange(true)` and `onBlink()`; opening the right eye again
      calls the left pair again and never `onBlinkDidChange(false)`. */
  lemma BlinkScenario()
    ensures var frames: seq<Snapshot> := [
              map[eyeBlinkLeft := 0.9, eyeBlinkRight := 0.1],
              map[eyeBlinkLeft := 0.9, eyeBlinkRight := 0.9],
              map[eyeBlinkLeft := 0.9, eyeBlinkRight := 0.1]];
            EvaluateAll(BlinkEvaluator, 0.5, frames)
            == [DidChange(BlinkLeft, true), Edge(BlinkLeft),
                DidChange(Blink, true), Edge(Blink),
                DidChange(BlinkLeft, true), Edge(BlinkLeft)]
  {
  }

  /** Brow-down reports nothing for one lowered brow, whatever the delegate
      implements. */
  lemma BrowDownOneSideIsSilent(threshold: real, s: Snapshot, d: Delegate)
    requires Side(s, browDownLeft, threshold) != Side(s, browDownRight, threshold)
    ensures Deliver(d, Evaluate(BrowDownEvaluator, threshold, s)) == []
  {
  }
}
