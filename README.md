# FaceTrigger evaluators in Dafny

FaceTrigger turns ARKit face tracking into discrete delegate callbacks. For
each frame, every evaluator receives the frame's blend-shape map (key to
intensity) and calls zero or more optional methods of a `FaceTriggerDelegate`.
This project models those evaluators from `FaceTrigger/FaceTrigger/FaceTrigger.swift`
and proves what they call and when.

- `face_events.dfy` (module `FaceEvents`): the blend-shape keys, a frame as
  `map<Key, real>`, the delegate callbacks as an `Event` datatype, and the
  delegate as the set of optional methods it implements. `Deliver` is Swift's
  optional chaining `delegate.m?(…)`: a call to a method the delegate does not
  implement is dropped.
- `single_threshold.dfy` (module `SingleThreshold`): the state machine shared by
  `SmileEvaluator`, `BrowUpEvaluator` and `MouthPuckerEvaluator`, as functions.
  A frame without the tracked reading is skipped. Otherwise the reading is
  classified with `>=` against the threshold. A level change is reported when
  the classification differs from the stored flag, and an edge callback
  follows when the new classification is true. The classification is then
  stored. Lemmas follow the machine over a whole stream of frames.
- `threshold_evaluators.dfy` (module `ThresholdEvaluators`): the three classes,
  each with its mutable `oldValue` field (false at construction) and an
  `Evaluate` method written like the Swift code. Each method is proved against
  `SingleThreshold.Step`. It returns the calls the delegate received.
- `both_evaluation.dfy` (module `BothEvaluation`): the subclasses
  `BlinkEvaluator`, `BrowDownEvaluator` and `SquintEvaluator` of
  `BothEvaluator`, with the base class's `evaluate` and empty hooks. Their
  fields are all constants, so `evaluate` is a function. An absent side counts
  as false. At most one hook is chosen: both, else left, else right. Each
  overriding hook reports its condition with the value it is given, which is
  always `true`. `Evaluate` returns the calls attempted; `Deliver` gives the
  calls a delegate receives.

The bilateral evaluators keep no state between frames
(`FaceTrigger.swift:114-161`), so their callbacks are not edge-triggered:
`BlinkEvaluator` calls `onBlinkDidChange(true)` and `onBlink()` on every
frame with both eyes closed, and never calls `onBlinkDidChange(false)`.
`BothEvaluation.BothFiresEveryFrame` and `BothEvaluation.BlinkScenario` state
this behaviour.

## Model

| member | source | states |
|---|---|---|
| `FaceEvents.Deliver` | FaceTrigger/FaceTrigger/FaceTrigger.swift:28-33 | the delegate receives exactly the attempted calls whose optional method it implements; a delegate implementing all of them receives all, one implementing none receives none |
| `FaceEvents.DeliverAppend` | FaceTrigger/FaceTrigger/FaceTrigger.swift:29-31 | dropping unimplemented calls keeps the order of the remaining calls |
| `SingleThreshold.SmileReading` | FaceTrigger/FaceTrigger/FaceTrigger.swift:26-27 | a smile reading exists exactly when both mouth-corner keys are present, and it is their mean (equidistant from both) |
| `SingleThreshold.OtherKeysIgnored` | FaceTrigger/FaceTrigger/FaceTrigger.swift:88-89 | a single-key evaluator depends on its own key only: changing any other key of the frame changes neither the stored flag nor the calls |
| `SingleThreshold.Transition` | FaceTrigger/FaceTrigger/FaceTrigger.swift:28-33 | nothing is called iff the classification equals the stored flag; a level change carries the new classification and comes first; the edge callback is called iff the classification rose from false to true, and then the calls are exactly level change(true) followed by the edge; exactly two calls on a rise, one on a fall, none otherwise |
| `SingleThreshold.MissingIsNotLow` | FaceTrigger/FaceTrigger/FaceTrigger.swift:88-97 | with the flag set, a frame without the reading calls nothing and keeps the flag, while a frame below the threshold clears it and reports the fall |
| `SingleThreshold.SkippedFrameIsInvisible` | FaceTrigger/FaceTrigger/FaceTrigger.swift:25-36 | inserting a frame without the reading anywhere in a stream changes neither the calls nor the final flag |
| `SingleThreshold.Run` | FaceTrigger/FaceTrigger/FaceTrigger.swift:25-36 | over successive frames an evaluator only reports its own condition, with at most twice as many calls as frames |
| `SingleThreshold.RunReportsCrossings` | FaceTrigger/FaceTrigger/FaceTrigger.swift:26-35 | over any stream of frames, the level changes are exactly the threshold crossings of the frames that carry a reading, each with the new value, and the final flag is the last classification made |
| `SingleThreshold.CrossingsAlternate` | FaceTrigger/FaceTrigger/FaceTrigger.swift:28-34 | threshold crossings alternate in value, starting with the opposite of the initial flag |
| `SingleThreshold.LevelChangesAlternate` | FaceTrigger/FaceTrigger/FaceTrigger.swift:28-34 | an evaluator's level changes alternate true/false, starting with the opposite of its initial flag |
| `SingleThreshold.TransitionEdgesCountRises` | FaceTrigger/FaceTrigger/FaceTrigger.swift:28-33 | one frame makes as many edge callbacks as level changes to true |
| `SingleThreshold.EdgesCountRises` | FaceTrigger/FaceTrigger/FaceTrigger.swift:29-32 | over any stream of frames, there are exactly as many edge callbacks as level changes to true |
| `SingleThreshold.RepeatedFrameIsSilent` | FaceTrigger/FaceTrigger/FaceTrigger.swift:28-34 | feeding the same frame repeatedly produces the first frame's calls and nothing more |
| `ThresholdEvaluators.SmileEvaluator.constructor` | FaceTrigger/FaceTrigger/FaceTrigger.swift:18-23 | the threshold is the one given and the stored flag starts false |
| `ThresholdEvaluators.SmileEvaluator.Evaluate` | FaceTrigger/FaceTrigger/FaceTrigger.swift:25-36 | the new `oldValue` and the calls received are those of `Step` on the smile reading, filtered by the delegate |
| `ThresholdEvaluators.BrowUpEvaluator.constructor` | FaceTrigger/FaceTrigger/FaceTrigger.swift:80-85 | the threshold is the one given and the stored flag starts false |
| `ThresholdEvaluators.BrowUpEvaluator.Evaluate` | FaceTrigger/FaceTrigger/FaceTrigger.swift:87-98 | the new `oldValue` and the calls received are those of `Step` on `browInnerUp`, filtered by the delegate |
| `ThresholdEvaluators.MouthPuckerEvaluator.constructor` | FaceTrigger/FaceTrigger/FaceTrigger.swift:165-170 | the threshold is the one given and the stored flag starts false |
| `ThresholdEvaluators.MouthPuckerEvaluator.Evaluate` | FaceTrigger/FaceTrigger/FaceTrigger.swift:172-183 | the new `oldValue` and the calls received are those of `Step` on `mouthPucker`, filtered by the delegate |
| `ThresholdEvaluators.DeliverTransition` | FaceTrigger/FaceTrigger/FaceTrigger.swift:28-33 | the calls received for one transition are the level change if implemented, then the edge callback if the level rose and it is implemented |
| `ThresholdEvaluators.SmileScenario` | FaceTrigger/FaceTrigger/FaceTrigger.swift:25-36 | with threshold 0.6, a 0.5/0.5 frame calls nothing from the initial state, a 0.7/0.7 frame calls `onSmileDidChange(true)` then `onSmile()`, and repeating it calls nothing |
| `ThresholdEvaluators.BrowUpSkipScenario` | FaceTrigger/FaceTrigger/FaceTrigger.swift:87-98 | a frame without `browInnerUp` calls nothing and keeps the raised flag, so the next low frame reports `onBrowUpDidChange(false)` |
| `ThresholdEvaluators.MouthPuckerPartialDelegate` | FaceTrigger/FaceTrigger/FaceTrigger.swift:172-183 | a delegate implementing only the level-change method receives only level changes, and the flag still follows the frames |
| `BothEvaluation.AbsentSideIsOff` | FaceTrigger/FaceTrigger/FaceTrigger.swift:126-137 | a frame missing one side's key is still evaluated, and calls exactly what it would call with that side present below the threshold |
| `BothEvaluation.SelectHook` | FaceTrigger/FaceTrigger/FaceTrigger.swift:139-148 | `onBoth` iff both sides are on, `onLeft` iff only the left is, `onRight` iff only the right is, no hook iff neither |
| `BothEvaluation.HookEvents` | FaceTrigger/FaceTrigger/FaceTrigger.swift:40-59 | an overridden hook reports its condition's level change with the value given, plus the edge callback iff that value is true, so exactly two calls for true and one for false; a hook the subclass does not override calls nothing |
| `BothEvaluation.Evaluate` | FaceTrigger/FaceTrigger/FaceTrigger.swift:125-148 | one frame calls nothing or exactly one level change to true followed by its edge, from the hook the priority rule selects; blink calls something iff either eye is on, brow-down and squint iff both sides are on |
| `BothEvaluation.MissingLeftCallsRight` | FaceTrigger/FaceTrigger/FaceTrigger.swift:126-147 | a frame missing the left key with the right side on is evaluated and calls the `onRight` hook with true |
| `BothEvaluation.FrameFiresBoth` | FaceTrigger/FaceTrigger/FaceTrigger.swift:139-148 | one frame calls the both-sides level change(true) and edge once if both sides are on and never otherwise, and never the level change(false) |
| `BothEvaluation.BothFiresEveryFrame` | FaceTrigger/FaceTrigger/FaceTrigger.swift:114-148 | over any stream of frames, the both-sides level change(true) and edge are each called once per frame with both sides on, and level change(false) never |
| `BothEvaluation.BlinkScenario` | FaceTrigger/FaceTrigger/FaceTrigger.swift:39-59 | left eye, both eyes, left eye again calls the left pair, the blink pair, the left pair again, and never `onBlinkDidChange(false)` |
| `BothEvaluation.BrowDownOneSideIsSilent` | FaceTrigger/FaceTrigger/FaceTrigger.swift:151-161 | brow-down with only one brow lowered calls nothing, whatever the delegate implements |

## Left out

- The ARKit session, the `FaceTrigger` host object (start, pause, unpause, preview view) and the loop that feeds frames to the evaluators are I/O. `Run` and `EvaluateAll` stand in for successive calls on one evaluator.
- `FaceTriggerExample/FaceTriggerExample/ViewController.swift` is UI glue and is not part of this model: notification wiring, the asynchronous log view, and delegate methods that only log.
- The jaw callbacks that the example delegate implements have no evaluator in `FaceTrigger.swift`. The jaw keys exist in `Key`, and no condition is modelled for them.
- Intensities and thresholds are `real`. IEEE `Float` rounding in the mean, NaN comparisons and the `NSNumber.floatValue` conversion are not modelled.
- The delegate is a set of implemented optional methods, and what it does with a call is not modelled. The three class methods `Evaluate` return the calls the delegate receives, in order, instead of making them. `BothEvaluation.Evaluate` returns the calls a bilateral evaluator attempts; `Deliver(d, Evaluate(k, threshold, s))` gives the calls delegate `d` receives.
- The `FaceTriggerDelegate` protocol declaration is not part of this model. Its method names are taken from the calls in `FaceTrigger.swift`.
- A plain `BothEvaluator` built with arbitrary keys is not modelled: its hooks are all empty, so it calls nothing; `BothKind` covers only the three subclasses.
- The bilateral evaluators are modelled as functions, not as classes: their fields never change, so there is no state to keep.
- Concurrent calls on one evaluator are not modelled. The source gives them no meaning.
