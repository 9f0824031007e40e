/**
 * The parts of the Android toolkit the Direct Manipulation handler touches,
 * reduced to values: views, key and motion events, and the side effects the
 * handler performs on views and on the car-ui helper.
 */
module Toolkit {

  /** `KeyEvent.KEYCODE_DPAD_CENTER`: the signal to enter Direct Manipulation mode. */
  const KEYCODE_DPAD_CENTER: int := 23
  /** `KeyEvent.KEYCODE_BACK`: the signal to leave Direct Manipulation mode. */
  const KEYCODE_BACK: int := 4
  /** `KeyEvent.KEYCODE_DPAD_LEFT`: a nudge, an example of a key the handler forwards. */
  const KEYCODE_DPAD_LEFT: int := 21

  /** `KeyEvent.ACTION_DOWN` and `KeyEvent.ACTION_UP`. */
  const ACTION_DOWN: int := 0
  const ACTION_UP: int := 1

  /**
   * A view, identified by an opaque id. `isViewGroup` says whether the view
   * is a `ViewGroup` (a container), which only matters when the mode is left.
   */
  datatype View = View(id: nat, isViewGroup: bool)

  /** A key event; only its action is inspected, the rest is passed on verbatim. */
  datatype KeyEvent = KeyEvent(action: int) {
    predicate IsActionUp() {
      action == ACTION_UP
    }
  }

  /** A generic motion (rotation) event, whose payload the handler never inspects. */
  datatype MotionEvent = MotionEvent(payload: int)

  /** The two background markers: "in Direct Manipulation mode" and "not in it". */
  datatype Marker = InModeMarker | NotInModeMarker

  /** One externally visible action of the handler, in the order it is performed. */
  datatype Effect =
    | SetBackground(view: View, marker: Marker)
      /** `DirectManipulationHelper.enableDirectManipulationMode(view, enable)` */
    | EnableDirectManipulationMode(view: View, enable: bool)
      /** `setDescendantFocusability(FOCUS_BLOCK_DESCENDANTS)` on a view group */
    | BlockDescendants(view: View)
      /** a call of the nudge delegate's `onKey` */
    | NudgeDelegated(view: View, keyCode: int, keyEvent: KeyEvent)
      /** a call of the rotation delegate's `onGenericMotion` */
    | RotationDelegated(view: View, motionEvent: MotionEvent)

  /** The marker that accompanies a mode toggle: entering shows it, leaving clears it. */
  function MarkerFor(enable: bool): (m: Marker)
    ensures m.InModeMarker? <==> enable
  {
    if enable then InModeMarker else NotInModeMarker
  }
}
