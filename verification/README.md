# Direct Manipulation handler — a Dafny model

This project models `DirectManipulationHandler` of the RotaryPlayground app: the
key and generic-motion listener that lets a focused view enter *Direct
Manipulation* mode on a `KEYCODE_DPAD_CENTER` key-up, leave it on a
`KEYCODE_BACK` key-up, and in between route nudges (other keys) to a nudge
delegate and rotations (generic motion events) to a rotation delegate.

The mode is a two-state machine held in a shared `DirectManipulationState`
object: inactive, or active with a recorded starting view. In the model:

- `Toolkit` (toolkit.dfy) reduces the Android surface to values: a `View` is an
  opaque id plus whether it is a `ViewGroup`; a key event carries its action;
  a motion event an opaque payload. Key codes and actions keep Android's values
  (`KEYCODE_DPAD_CENTER` = 23, `KEYCODE_BACK` = 4, `ACTION_UP` = 1). The
  handler's side effects become an ordered `Effect` log: background marker on
  or off, `enableDirectManipulationMode(view, enable)`,
  `setDescendantFocusability(FOCUS_BLOCK_DESCENDANTS)`, and each call of a
  delegate.
- `DirectManipulationState` (dm_state.dfy) is the mode, `DmState(startingView:
  Option<View>)`, with `IsActive` defined as "a starting view is recorded".
  **Assumption:** the `DirectManipulationState` class is not part of this
  model; its contract is assumed to be exactly this (active iff a starting view
  is set, `setStartingView(null)` deactivates).
- `DirectManipulationHandler` (dm_handler.dfy) holds the `Builder` (a value each
  setter replaces), the private constructor, and `onKey` / `onGenericMotion` as
  pure step functions `(handler, mode, event) -> (consumed, mode', effects)`.
  Java `null` arguments are `Option.None`; the exceptions are `Result.Failure`
  (`NullPointer` for `Preconditions.checkNotNull`, `IllegalState` for `build()`
  without delegates). A delegate is an arbitrary function returning the
  delegate's boolean answer.
- `Sessions` (sessions.dfy) delivers sequences of events to a group of handlers
  sharing one mode, and to a store of several shared mode objects, and proves
  what holds across events: the helper is toggled in whole sessions, each exit
  undoing the preceding entry on the same view; at most one session is open at a
  time; every toggle is paired with its background marker; center presses while
  active are idempotent; handlers sharing a state object behave as one group;
  and, however the events to several groups interleave, each state object
  changes only through the events sent to its own handlers.

The handler does not store the mode itself but refers to a shared object
(`StateRef`); the event functions take that object's current value and return
its new one, and `Sessions.RunIn` threads a whole `Store` of such objects.

`onKey` returns `true` for `KEYCODE_BACK` in every mode and action, including
while inactive, when it performs no transition
(DirectManipulationHandler.java:138-161), and so does `OnKey`.

## Model

| member | source | states |
|---|---|---|
| DirectManipulationHandler.NewBuilder | RotaryPlayground/src/com/android/car/rotaryplayground/DirectManipulationHandler.java:78-81 | The builder is refused (null pointer) exactly when the shared state is null; otherwise it records that state and starts with no delegates. |
| DirectManipulationHandler.SetNudgeHandler | RotaryPlayground/src/com/android/car/rotaryplayground/DirectManipulationHandler.java:83-87 | A null nudge delegate is refused; otherwise the nudge slot becomes that delegate and the state and rotation slot are unchanged. |
| DirectManipulationHandler.SetRotationHandler | RotaryPlayground/src/com/android/car/rotaryplayground/DirectManipulationHandler.java:89-93 | A null rotation delegate is refused; otherwise the rotation slot becomes that delegate and the state and nudge slot are unchanged. |
| DirectManipulationHandler.Build | RotaryPlayground/src/com/android/car/rotaryplayground/DirectManipulationHandler.java:95-100 | `build()` fails with IllegalStateException("At least one delegate must be provided.") if and only if both delegates are absent; a built handler keeps exactly the state and delegates that were set. |
| DirectManipulationHandler.NewHandler | RotaryPlayground/src/com/android/car/rotaryplayground/DirectManipulationHandler.java:103-110 | The private constructor refuses only a null state; delegates may be null and are kept as given. |
| DirectManipulationHandler.BuildWith | RotaryPlayground/src/com/android/car/rotaryplayground/DirectManipulationHandler.java:78-100 | Builder, setters for the delegates one has, then build: succeeds iff the state is non-null and at least one delegate is given, fails with the matching exception otherwise, and an unset delegate stays absent. |
| DirectManipulationHandler.OnKey | RotaryPlayground/src/com/android/car/rotaryplayground/DirectManipulationHandler.java:112-174 | CENTER and BACK are always consumed; the mode flips iff CENTER key-up while inactive or BACK key-up while active; entering records the argument view and emits one in-mode marker and one enable(view, true); any other CENTER/BACK event changes nothing; leaving acts only on the recorded starting view; other keys never change the mode, are unconsumed and never reach the delegate while inactive, are unconsumed without a delegate, and otherwise return exactly the delegate's answer after one delegate call. |
| DirectManipulationHandler.ExitEffects | RotaryPlayground/src/com/android/car/rotaryplayground/DirectManipulationHandler.java:144-157 | Leaving the mode blocks descendant focus iff the starting view is a ViewGroup, then clears the marker and disables the helper, every effect on the starting view. |
| DirectManipulationHandler.OnGenericMotion | RotaryPlayground/src/com/android/car/rotaryplayground/DirectManipulationHandler.java:176-188 | Rotations never change the mode; they are unconsumed and reach no delegate while inactive or without a rotation delegate, and otherwise return exactly the rotation delegate's answer. |
| DirectManipulationHandler.NudgeOnlyIgnoresRotation | RotaryPlayground/src/com/android/car/rotaryplayground/DirectManipulationHandler.java:176-188 | A handler built with only a nudge delegate builds successfully and never consumes a rotation event. |
| DirectManipulationHandler.RotationOnlyIgnoresNudges | RotaryPlayground/src/com/android/car/rotaryplayground/DirectManipulationHandler.java:162-172 | A handler built with only a rotation delegate builds successfully and never consumes a key other than CENTER or BACK, leaving the mode unchanged. |
| Sessions.FoldAppend | RotaryPlayground/src/com/android/car/rotaryplayground/DirectManipulationHandler.java:112-188 | Events fed in two batches give the same final mode, effects and answers as one batch, for any listener step. |
| Sessions.ModeKeysAlwaysConsumed | RotaryPlayground/src/com/android/car/rotaryplayground/DirectManipulationHandler.java:120-161 | Across any event sequence on handlers sharing one mode, every CENTER or BACK event is answered consumed, including BACK while inactive. |
| Sessions.RunAppend | RotaryPlayground/src/com/android/car/rotaryplayground/DirectManipulationHandler.java:112-188 | Events delivered in two batches give the same final mode, effects and answers as one batch. |
| Sessions.DeliverWellNested | RotaryPlayground/src/com/android/car/rotaryplayground/DirectManipulationHandler.java:125-159 | A single event enables the helper only when it opens a session on the recorded view, and disables it only for the view that opened the current one. |
| Sessions.EnterToggles | RotaryPlayground/src/com/android/car/rotaryplayground/DirectManipulationHandler.java:135 | Entering the mode calls the helper exactly once, enabling the entering view. |
| Sessions.ExitToggles | RotaryPlayground/src/com/android/car/rotaryplayground/DirectManipulationHandler.java:157 | Leaving the mode calls the helper exactly once, disabling the starting view. |
| Sessions.RunWellNested | RotaryPlayground/src/com/android/car/rotaryplayground/DirectManipulationHandler.java:125-159 | Over any event sequence on handlers sharing one mode, helper calls form whole sessions: from inactive only an enable, from active only the disable of the recorded starting view, whichever view BACK arrived on, ending in the final mode. |
| Sessions.SessionBalance | RotaryPlayground/src/com/android/car/rotaryplayground/DirectManipulationHandler.java:135-157 | In well-nested helper calls, enables minus disables equals the change, from start to end, in whether a session is open (0 or 1 each). |
| Sessions.AtMostOneOpenSession | RotaryPlayground/src/com/android/car/rotaryplayground/DirectManipulationHandler.java:125-159 | From the inactive mode, after every prefix of any event sequence, enables equal disables, plus one exactly when the mode is active. |
| Sessions.ExitMarkersPaired | RotaryPlayground/src/com/android/car/rotaryplayground/DirectManipulationHandler.java:149-157 | The exit's marker change is immediately followed by the matching disable, on the same view. |
| Sessions.DeliverMarkersPaired | RotaryPlayground/src/com/android/car/rotaryplayground/DirectManipulationHandler.java:134-157 | Each event's effects pair every background marker with the helper toggle right after it. |
| Sessions.RunMarkersPaired | RotaryPlayground/src/com/android/car/rotaryplayground/DirectManipulationHandler.java:134-157 | Over any event sequence, every helper toggle directly follows the matching marker on the same view and every marker directly precedes it. |
| Sessions.CenterWhileActiveIdempotent | RotaryPlayground/src/com/android/car/rotaryplayground/DirectManipulationHandler.java:121-137 | While active, any number of CENTER events (up or down, any handler, any view) are all consumed and leave the mode and the starting view unchanged with no effects. |
| Sessions.EnterIsExclusive | RotaryPlayground/src/com/android/car/rotaryplayground/DirectManipulationHandler.java:121-161 | Two handlers sharing a mode: after the first enters from view a, a CENTER key-up on the second from view b does not re-enter, and a BACK key-up on the second disables a, not b. |
| Sessions.EnterNudgeExitScenario | RotaryPlayground/src/com/android/car/rotaryplayground/DirectManipulationHandler.java:120-172 | Enter on a, a nudge the delegate consumes, then BACK: all three consumed, the mode ends inactive, and descendant focus on a is blocked iff a is a ViewGroup. |
| Sessions.RunIn | RotaryPlayground/src/com/android/car/rotaryplayground/DirectManipulationHandler.java:66 | Delivering events against a store of shared state objects keeps the same objects and leaves every object no dispatched handler refers to unchanged. |
| Sessions.RunInSharedState | RotaryPlayground/src/com/android/car/rotaryplayground/DirectManipulationHandler.java:103-110 | Handlers built on the same state object, run against the store, behave exactly as one group run over that object's mode. |
| Sessions.Isolation | RotaryPlayground/src/com/android/car/rotaryplayground/DirectManipulationHandler.java:66 | With events to handlers on several state objects interleaved in any order, each object ends exactly where the events sent to its own handlers alone take it. |

## Left out

- Logging (`Log.d` in `onKey`): it has no effect on behaviour.
- Colour values: `Color.BLUE` and `Color.TRANSPARENT` are the two abstract markers `InModeMarker` and `NotInModeMarker`.
- `DirectManipulationHelper.enableDirectManipulationMode`: it belongs to the car-ui library, which is not part of this model; only the fact and arguments of each call are recorded.
- The `DirectManipulationState` class is not part of this model; only its assumed contract (active iff a starting view is recorded) is.
- The Android `View`, `ViewGroup`, `KeyEvent` and `MotionEvent` classes: replaced by opaque ids with a ViewGroup flag, an action code and an opaque payload. The key code the handler switches on is the `keyCode` argument, as in the source.
- What the delegates do: they are arbitrary functions of their arguments; side effects of their own and answers that change from call to call are not modelled.
- Thread confinement and event dispatch order: the toolkit delivers events one at a time on the UI thread, which the sequential `Run` models.
