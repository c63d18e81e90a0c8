/** Vocabulary shared by every evaluator: the blend-shape keys a frame can
    carry, the callbacks an evaluator makes on its delegate, and the
    optional-method dispatch of those callbacks (`delegate.m?(…)`). */
module FaceEvents {

  datatype Option<+T> = None | Some(value: T)

  /** The ARKit blend-shape locations the evaluators look up, under ARKit's own
      case names. The jaw keys may appear in a frame; no evaluator reads them. */
  datatype Key =
    | mouthSmileLeft | mouthSmileRight
    | eyeBlinkLeft | eyeBlinkRight
    | browDownLeft | browDownRight
    | browInnerUp
    | mouthPucker
    | eyeSquintLeft | eyeSquintRight
    | jawOpen | jawLeft | jawRight

  /** One frame: the intensity of every blend shape the tracker reported.
      A key may be absent. Intensities are not range-checked. */
  type Snapshot = map<Key, real>

  /** The conditions for which the delegate protocol has a callback pair
      `on<X>DidChange(Bool)` / `on<X>()`. */
  datatype Condition =
    | Smile | Blink | BlinkLeft | BlinkRight | BrowDown | BrowUp | MouthPucker | Squint

  /** One delegate call: `on<X>DidChange(value)` or the argument-less `on<X>()`. */
  datatype Event = DidChange(cond: Condition, value: bool) | Edge(cond: Condition)

  /** A delegate method, without its argument. */
  datatype Handler = OnDidChange(Condition) | OnEdge(Condition)

  /** Every delegate method is optional: a delegate is the set it implements. */
  type Delegate = set<Handler>

  function HandlerOf(e: Event): Handler
  {
    match e
    case DidChange(c, _) => OnDidChange(c)
    case Edge(c) => OnEdge(c)
  }

  /** Optional chaining on one delegate method: the call reaches the delegate
      only when it implements the method, and is otherwise dropped silently. */
  function Call(d: Delegate, e: Event): seq<Event>
  {
    if HandlerOf(e) in d then [e] else []
  }

  /** The calls a delegate receives when an evaluator attempts `es` in order. */
  function Deliver(d: Delegate, es: seq<Event>): (r: seq<Event>)
    ensures |r| <= |es|
    ensures forall e :: e in r <==> e in es && HandlerOf(e) in d
    ensures (forall e :: e in es ==> HandlerOf(e) in d) ==> r == es
    ensures (forall e :: e in es ==> HandlerOf(e) !in d) ==> r == []
  {
    if es == [] then [] else Call(d, es[0]) + Deliver(d, es[1..])
  }

  /** Attempting two batches of calls one after the other delivers the two
      filtered batches one after the other: filtering keeps the call order. */
  lemma {:induction false} DeliverAppend(d: Delegate, a: seq<Event>, b: seq<Event>)
    ensures Deliver(d, a + b) == Deliver(d, a) + Deliver(d, b)
  {
    if a == [] {
      assert a + b == b;
    } else {
      assert (a + b)[0] == a[0];
      assert (a + b)[1..] == a[1..] + b;
      DeliverAppend(d, a[1..], b);
    }
  }
}
