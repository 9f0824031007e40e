/**
 * `DirectManipulationHandler`: the key and generic-motion listener that lets a
 * view enter Direct Manipulation mode on a center press, leave it on a back
 * press, and route nudges and rotations to per-view delegates in between.
 *
 * The handler itself is immutable; the mode it reads and changes lives in a
 * shared state object, so each event function takes the current `DmState` of
 * the object the handler refers to and returns the new one together with the
 * ordered list of side effects it performed.
 */
module DirectManipulationHandler {
  import opened Wrappers
  import opened Toolkit
  import opened DirectManipulationState

  /** `View.OnKeyListener`: handles a nudge, answering whether it consumed it. */
  type NudgeDelegate = (View, int, KeyEvent) -> bool

  /** `View.OnGenericMotionListener`: handles a rotation, answering whether it consumed it. */
  type RotationDelegate = (View, MotionEvent) -> bool

  /** The exceptions construction can throw. */
  datatype HandlerError =
    | NullPointer                   // Preconditions.checkNotNull
    | IllegalState(message: string) // Builder.build with no delegate

  const NO_DELEGATE_MESSAGE: string := "At least one delegate must be provided."

  /** A built handler: the shared mode it uses and its optional delegates. */
  datatype Handler = Handler(
    dmState: StateRef,
    nudgeDelegate: Option<NudgeDelegate>,
    rotationDelegate: Option<RotationDelegate>)

  /** `DirectManipulationHandler.Builder`, as a value that each setter replaces. */
  datatype Builder = Builder(
    dmState: StateRef,
    nudgeDelegate: Option<NudgeDelegate>,
    rotationDelegate: Option<RotationDelegate>)

  /** What one event does: whether it was consumed, the new mode, the effects in order. */
  datatype Reaction = Reaction(consumed: bool, state: DmState, effects: seq<Effect>)

  /** The builder's constructor: the shared state must not be null. */
  function NewBuilder(dmState: Option<StateRef>): (r: Result<Builder, HandlerError>)
    ensures r.Failure? <==> dmState.None?
    ensures r.Failure? ==> r.error == NullPointer
    ensures r.Success? ==> r.value.dmState == dmState.value
    ensures r.Success? ==> r.value.nudgeDelegate.None? && r.value.rotationDelegate.None?
  {
    if dmState.None? then Failure(NullPointer)
    else Success(Builder(dmState.value, None, None))
  }

  /** `Builder.setNudgeHandler`: a null delegate is rejected; otherwise only the nudge slot changes. */
  function SetNudgeHandler(b: Builder, directionalDelegate: Option<NudgeDelegate>): (r: Result<Builder, HandlerError>)
    ensures r.Failure? <==> directionalDelegate.None?
    ensures r.Failure? ==> r.error == NullPointer
    ensures r.Success? ==> r.value.nudgeDelegate == directionalDelegate
    ensures r.Success? ==> r.value.dmState == b.dmState && r.value.rotationDelegate == b.rotationDelegate
  {
    if directionalDelegate.None? then Failure(NullPointer)
    else Success(b.(nudgeDelegate := directionalDelegate))
  }

  /** `Builder.setRotationHandler`: a null delegate is rejected; otherwise only the rotation slot changes. */
  function SetRotationHandler(b: Builder, motionDelegate: Option<RotationDelegate>): (r: Result<Builder, HandlerError>)
    ensures r.Failure? <==> motionDelegate.None?
    ensures r.Failure? ==> r.error == NullPointer
    ensures r.Success? ==> r.value.rotationDelegate == motionDelegate
    ensures r.Success? ==> r.value.dmState == b.dmState && r.value.nudgeDelegate == b.nudgeDelegate
  {
    if motionDelegate.None? then Failure(NullPointer)
    else Success(b.(rotationDelegate := motionDelegate))
  }

  /** The private constructor: it checks the shared state only, not the delegates. */
  function NewHandler(dmState: Option<StateRef>, nudgeDelegate: Option<NudgeDelegate>,
                      rotationDelegate: Option<RotationDelegate>): (r: Result<Handler, HandlerError>)
    ensures r.Failure? <==> dmState.None?
    ensures r.Failure? ==> r.error == NullPointer
    ensures r.Success? ==> r.value.dmState == dmState.value
    ensures r.Success? ==> r.value.nudgeDelegate == nudgeDelegate && r.value.rotationDelegate == rotationDelegate
  {
    if dmState.None? then Failure(NullPointer)
    else Success(Handler(dmState.value, nudgeDelegate, rotationDelegate))
  }

  /**
   * `Builder.build`: refuses a handler with no delegate at all, and otherwise
   * builds one that keeps exactly the shared state and delegates that were set.
   */
  function Build(b: Builder): (r: Result<Handler, HandlerError>)
    ensures r.Failure? <==> b.nudgeDelegate.None? && b.rotationDelegate.None?
    ensures r.Failure? ==> r.error == IllegalState(NO_DELEGATE_MESSAGE)
    ensures r.Success? ==> r.value.dmState == b.dmState
    ensures r.Success? ==> r.value.nudgeDelegate == b.nudgeDelegate && r.value.rotationDelegate == b.rotationDelegate
  {
    if b.nudgeDelegate.None? && b.rotationDelegate.None? then
      Failure(IllegalState(NO_DELEGATE_MESSAGE))
    else
      NewHandler(Some(b.dmState), b.nudgeDelegate, b.rotationDelegate)
  }

  /**
   * The usual way a handler is made: a builder on the shared state, the
   * setters for whichever delegates the caller has, then `build`. It succeeds
   * exactly when the state is non-null and at least one delegate is given,
   * and a delegate left unset stays absent in the handler.
   */
  function BuildWith(dmState: Option<StateRef>, nudge: Option<NudgeDelegate>,
                     rotation: Option<RotationDelegate>): (r: Result<Handler, HandlerError>)
    ensures r.Success? <==> dmState.Some? && (nudge.Some? || rotation.Some?)
    ensures dmState.None? ==> r == Failure(NullPointer)
    ensures dmState.Some? && nudge.None? && rotation.None? ==> r == Failure(IllegalState(NO_DELEGATE_MESSAGE))
    ensures r.Success? ==> r.value == Handler(dmState.value, nudge, rotation)
  {
    match NewBuilder(dmState)
    case Failure(e) => Failure(e)
    case Success(b0) =>
      var b1 := if nudge.Some? then SetNudgeHandler(b0, nudge).value else b0;
      var b2 := if rotation.Some? then SetRotationHandler(b1, rotation).value else b1;
      Build(b2)
  }

  /** True for the two key codes the handler owns rather than forwarding. */
  predicate IsModeKey(keyCode: int) {
    keyCode == KEYCODE_DPAD_CENTER || keyCode == KEYCODE_BACK
  }

  /** The effects of entering the mode from `view`: its marker, then the helper call. */
  function EnterEffects(view: View): seq<Effect> {
    [SetBackground(view, InModeMarker), EnableDirectManipulationMode(view, true)]
  }

  /** The effects of leaving the mode, all on the view that entered it. */
  function ExitEffects(startingView: View): (es: seq<Effect>)
    ensures |es| == if startingView.isViewGroup then 3 else 2
    ensures BlockDescendants(startingView) in es <==> startingView.isViewGroup
    ensures es[|es| - 2..] == [SetBackground(startingView, NotInModeMarker),
                               EnableDirectManipulationMode(startingView, false)]
    ensures forall i :: 0 <= i < |es| ==> es[i].view == startingView
  {
    (if startingView.isViewGroup then [BlockDescendants(startingView)] else [])
    + [SetBackground(startingView, NotInModeMarker),
       EnableDirectManipulationMode(startingView, false)]
  }

  /**
   * `onKey`. A center press enters the mode on its key-up while inactive; a
   * back press leaves it on its key-up while active, undoing the entry on the
   * RECORDED starting view, which need not be `view`. Both key codes are
   * always consumed. Any other key goes to the nudge delegate, and only while
   * the mode is active.
   */
  function OnKey(h: Handler, s: DmState, view: View, keyCode: int, keyEvent: KeyEvent): (r: Reaction)
    // center and back are consumed whatever the mode or the action
    ensures IsModeKey(keyCode) ==> r.consumed
    // the mode flips exactly on a center key-up while inactive or a back key-up while active
    ensures r.state.IsActive() != s.IsActive() <==>
              keyEvent.IsActionUp() &&
              ((keyCode == KEYCODE_DPAD_CENTER && !s.IsActive()) || (keyCode == KEYCODE_BACK && s.IsActive()))
    // a center key-up while inactive enters the mode from `view`
    ensures keyCode == KEYCODE_DPAD_CENTER && !s.IsActive() && keyEvent.IsActionUp() ==>
              && r.state.GetStartingView() == Some(view)
              && r.effects == EnterEffects(view)
    // any other center event never overwrites the starting view and does nothing
    ensures keyCode == KEYCODE_DPAD_CENTER && (s.IsActive() || !keyEvent.IsActionUp()) ==>
              r.state == s && r.effects == []
    // a back key-up while active leaves the mode, acting on the recorded view only
    ensures keyCode == KEYCODE_BACK && s.IsActive() && keyEvent.IsActionUp() ==>
              && !r.state.IsActive()
              && r.effects == ExitEffects(s.GetStartingView().value)
    ensures keyCode == KEYCODE_BACK && (!s.IsActive() || !keyEvent.IsActionUp()) ==>
              r.state == s && r.effects == []
    // any other key leaves the mode alone
    ensures !IsModeKey(keyCode) ==> r.state == s
    // ... is ignored while inactive, without reaching the delegate
    ensures !IsModeKey(keyCode) && !s.IsActive() ==> !r.consumed && r.effects == []
    // ... is ignored while active without a nudge delegate
    ensures !IsModeKey(keyCode) && s.IsActive() && h.nudgeDelegate.None? ==>
              !r.consumed && r.effects == []
    // ... and otherwise gets exactly the delegate's answer, after one delegate call
    ensures !IsModeKey(keyCode) && s.IsActive() && h.nudgeDelegate.Some? ==>
              && r.consumed == h.nudgeDelegate.value(view, keyCode, keyEvent)
              && r.effects == [NudgeDelegated(view, keyCode, keyEvent)]
  {
    var isActionUp := keyEvent.IsActionUp();
    if keyCode == KEYCODE_DPAD_CENTER then
      if !s.IsActive() && isActionUp then
        Reaction(true, s.SetStartingView(Some(view)), EnterEffects(view))
      else
        Reaction(true, s, [])
    else if keyCode == KEYCODE_BACK then
      if s.IsActive() && isActionUp then
        var dmStartingView := s.GetStartingView().value;
        Reaction(true, s.SetStartingView(None), ExitEffects(dmStartingView))
      else
        Reaction(true, s, [])
    else if !s.IsActive() then
      Reaction(false, s, [])
    else if h.nudgeDelegate.None? then
      Reaction(false, s, [])
    else
      Reaction(h.nudgeDelegate.value(view, keyCode, keyEvent), s,
               [NudgeDelegated(view, keyCode, keyEvent)])
  }

  /**
   * `onGenericMotion`: a rotation reaches the rotation delegate only while the
   * mode is active, and the handler answers exactly what the delegate answers.
   * The mode is never changed on this path.
   */
  function OnGenericMotion(h: Handler, s: DmState, v: View, event: MotionEvent): (r: Reaction)
    ensures r.state == s
    ensures !s.IsActive() ==> !r.consumed && r.effects == []
    ensures s.IsActive() && h.rotationDelegate.None? ==> !r.consumed && r.effects == []
    ensures s.IsActive() && h.rotationDelegate.Some? ==>
              && r.consumed == h.rotationDelegate.value(v, event)
              && r.effects == [RotationDelegated(v, event)]
  {
    if !s.IsActive() then
      Reaction(false, s, [])
    else if h.rotationDelegate.None? then
      Reaction(false, s, [])
    else
      Reaction(h.rotationDelegate.value(v, event), s, [RotationDelegated(v, event)])
  }

  /** A handler built with only a nudge delegate never consumes a rotation. */
  lemma NudgeOnlyIgnoresRotation(dmState: StateRef, nudge: NudgeDelegate, s: DmState, v: View, event: MotionEvent)
    ensures BuildWith(Some(dmState), Some(nudge), None).Success?
    ensures var r := OnGenericMotion(BuildWith(Some(dmState), Some(nudge), None).value, s, v, event);
            !r.consumed && r.effects == []
  {
  }

  /** A handler built with only a rotation delegate never consumes a nudge. */
  lemma RotationOnlyIgnoresNudges(dmState: StateRef, rotation: RotationDelegate, s: DmState,
                                  view: View, keyCode: int, keyEvent: KeyEvent)
    requires !IsModeKey(keyCode)
    ensures BuildWith(Some(dmState), None, Some(rotation)).Success?
    ensures var r := OnKey(BuildWith(Some(dmState), None, Some(rotation)).value, s, view, keyCode, keyEvent);
            !r.consumed && r.state == s && r.effects == []
  {
  }
}
