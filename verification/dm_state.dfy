/**
 * The shared Direct Manipulation mode. The class behind it is not part of
 * this model; it is assumed to hold only the starting view, with the mode
 * active exactly when a starting view is recorded.
 */
module DirectManipulationState {
  import opened Wrappers
  import opened Toolkit

  /** The mode: inactive (`None`) or active, remembering the view that entered it. */
  datatype DmState = DmState(startingView: Option<View>) {

    predicate IsActive() {
      startingView.Some?
    }

    function GetStartingView(): Option<View> {
      startingView
    }

    /** Recording a view activates the mode; recording `null` deactivates it. */
    function SetStartingView(v: Option<View>): (s: DmState)
      ensures s.IsActive() <==> v.Some?
      ensures s.GetStartingView() == v
    {
      DmState(v)
    }
  }

  /** The mode as the owning application first creates it. */
  const Inactive: DmState := DmState(None)

  /** A reference to one shared `DirectManipulationState` object. */
  type StateRef = nat

  /** All shared mode objects, by reference: several handlers may point at one. */
  type Store = map<StateRef, DmState>
}
