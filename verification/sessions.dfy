/**
 * Sequences of events delivered to a group of handlers that share one
 * Direct Manipulation mode, and what the mode guarantees across them: every
 * exit closes the session the last entry opened, on the same view; at most
 * one session is open at a time; each toggle of the car-ui helper comes with
 * its background marker.
 */
module Sessions {
  import opened Wrappers
  import opened Toolkit
  import opened DirectManipulationState
  import opened DirectManipulationHandler

  /** One event as the toolkit hands it to one handler. */
  datatype Dispatch =
    | KeyDispatch(handler: Handler, view: View, keyCode: int, keyEvent: KeyEvent)
    | MotionDispatch(handler: Handler, view: View, motionEvent: MotionEvent)

  /** The listener method the toolkit calls for a dispatch. */
  function Deliver(s: DmState, d: Dispatch): Reaction {
    match d
    case KeyDispatch(h, v, k, e) => OnKey(h, s, v, k, e)
    case MotionDispatch(h, v, e) => OnGenericMotion(h, s, v, e)
  }

  /** The outcome of a sequence of dispatches: final mode, all effects, each answer. */
  datatype Trace = Trace(state: DmState, effects: seq<Effect>, results: seq<bool>)

  /** Feeds the dispatches one by one to `step`, threading the mode through them. */
  function Fold(step: (DmState, Dispatch) -> Reaction, s: DmState, ds: seq<Dispatch>): (t: Trace)
    ensures |t.results| == |ds|
    decreases |ds|
  {
    if ds == [] then Trace(s, [], [])
    else
      var r := step(s, ds[0]);
      var t := Fold(step, r.state, ds[1..]);
      Trace(t.state, r.effects + t.effects, [r.consumed] + t.results)
  }

  /** Delivers the dispatches in order to their handlers, all sharing one mode. */
  function Run(s: DmState, ds: seq<Dispatch>): Trace {
    Fold(Deliver, s, ds)
  }

  /**
   * A non-empty fold is the first step followed by the fold of the rest. This only
   * unfolds `Fold`; it is kept as a hint so that callers need not unfold it themselves.
   */
  lemma FoldCons(step: (DmState, Dispatch) -> Reaction, s: DmState, ds: seq<Dispatch>)
    requires ds != []
    ensures var r := step(s, ds[0]);
            var t := Fold(step, r.state, ds[1..]);
            Fold(step, s, ds) == Trace(t.state, r.effects + t.effects, [r.consumed] + t.results)
  {
  }

  /** A fold over three dispatches is the three steps in turn. */
  lemma FoldThree(step: (DmState, Dispatch) -> Reaction, s: DmState, d1: Dispatch, d2: Dispatch, d3: Dispatch)
    ensures var r1 := step(s, d1);
            var r2 := step(r1.state, d2);
            var r3 := step(r2.state, d3);
            Fold(step, s, [d1, d2, d3])
              == Trace(r3.state, r1.effects + r2.effects + r3.effects, [r1.consumed, r2.consumed, r3.consumed])
  {
    var r1 := step(s, d1);
    var r2 := step(r1.state, d2);
    var r3 := step(r2.state, d3);
    assert [d1, d2, d3][1..] == [d2, d3];
    assert [d2, d3][1..] == [d3];
    assert [d3][1..] == [];
    FoldCons(step, r2.state, [d3]);
    FoldCons(step, r1.state, [d2, d3]);
    FoldCons(step, s, [d1, d2, d3]);
    AppendAssoc(r1.effects, r2.effects, r3.effects + []);
  }

  /** Regrouping a concatenation; kept as an explicit hint that keeps `FoldAppend` cheap for the solver. */
  lemma AppendAssoc<T>(x: seq<T>, y: seq<T>, z: seq<T>)
    ensures x + (y + z) == (x + y) + z
  {
  }

  /** Folding two sequences one after the other is folding their concatenation. */
  lemma {:induction false} FoldAppend(step: (DmState, Dispatch) -> Reaction, s: DmState,
                                      a: seq<Dispatch>, b: seq<Dispatch>)
    ensures var ta := Fold(step, s, a);
            var tb := Fold(step, ta.state, b);
            Fold(step, s, a + b) == Trace(tb.state, ta.effects + tb.effects, ta.results + tb.results)
    decreases |a|
  {
    if a == [] {
      assert a + b == b;
    } else {
      var r := step(s, a[0]);
      var ta := Fold(step, r.state, a[1..]);
      var tb := Fold(step, ta.state, b);
      assert (a + b)[0] == a[0];
      assert (a + b)[1..] == a[1..] + b;
      FoldAppend(step, r.state, a[1..], b);
      FoldCons(step, s, a);
      FoldCons(step, s, a + b);
      AppendAssoc(r.effects, ta.effects, tb.effects);
      AppendAssoc([r.consumed], ta.results, tb.results);
    }

  }

  /** Events delivered in two batches act as one batch: same final mode, effects and answers. */
  lemma RunAppend(s: DmState, a: seq<Dispatch>, b: seq<Dispatch>)
    ensures var ta := Run(s, a);
            var tb := Run(ta.state, b);
            Run(s, a + b) == Trace(tb.state, ta.effects + tb.effects, ta.results + tb.results)
  {
    FoldAppend(Deliver, s, a, b);
  }

  /**
   * Running a non-empty sequence delivers its first dispatch, then runs the rest.
   * This only unfolds `Run`; it is kept as a hint for the scenario and induction proofs.
   */
  lemma RunCons(s: DmState, d: Dispatch, ds: seq<Dispatch>)
    ensures var r := Deliver(s, d);
            var t := Run(r.state, ds);
            Run(s, [d] + ds) == Trace(t.state, r.effects + t.effects, [r.consumed] + t.results)
  {
    assert ([d] + ds)[0] == d;
    assert ([d] + ds)[1..] == ds;
    FoldCons(Deliver, s, [d] + ds);
  }

  /** Across any sequence of events, every CENTER or BACK event is answered consumed. */
  lemma {:induction false} ModeKeysAlwaysConsumed(s: DmState, ds: seq<Dispatch>)
    ensures forall i :: 0 <= i < |ds| && ds[i].KeyDispatch? && IsModeKey(ds[i].keyCode) ==> Run(s, ds).results[i]
    decreases |ds|
  {
    if ds != [] {
      var r := Deliver(s, ds[0]);
      ModeKeysAlwaysConsumed(r.state, ds[1..]);
      RunCons(s, ds[0], ds[1..]);
      assert ds == [ds[0]] + ds[1..];
      forall i | 1 <= i < |ds| ensures Run(s, ds).results[i] == Run(r.state, ds[1..]).results[i - 1] {
      }
    }
  }

  // ---------------------------------------------------------------------------
  // Toggles of the car-ui helper and the sessions they delimit

  /** One `enableDirectManipulationMode(view, enable)` call. */
  datatype Toggle = Toggle(view: View, enable: bool)

  /** The helper calls in an effect log, in order. */
  function Toggles(es: seq<Effect>): (ts: seq<Toggle>)
    ensures |ts| <= |es|
    ensures forall i :: 0 <= i < |ts| ==> EnableDirectManipulationMode(ts[i].view, ts[i].enable) in es
    decreases |es|
  {
    if es == [] then []
    else
      var head := if es[0].EnableDirectManipulationMode? then [Toggle(es[0].view, es[0].enable)] else [];
      var rest := Toggles(es[1..]);
      assert forall i :: 0 <= i < |rest| ==> EnableDirectManipulationMode(rest[i].view, rest[i].enable) in es by {
        forall i | 0 <= i < |rest|
          ensures EnableDirectManipulationMode(rest[i].view, rest[i].enable) in es
        {
          assert EnableDirectManipulationMode(rest[i].view, rest[i].enable) in es[1..];
        }
      }
      head + rest
  }

  lemma {:induction false} TogglesAppend(a: seq<Effect>, b: seq<Effect>)
    ensures Toggles(a + b) == Toggles(a) + Toggles(b)
    decreases |a|
  {
    if a == [] {
      assert a + b == b;
    } else {
      assert (a + b)[0] == a[0];
      assert (a + b)[1..] == a[1..] + b;
      TogglesAppend(a[1..], b);
    }
  }

  /**
   * The toggles lead from mode `start` to mode `end` through whole sessions:
   * from inactive only an enable can come, and it opens a session on its view;
   * from active only the disable of the recorded view can come, and it closes it.
   */
  predicate WellNested(start: Option<View>, ts: seq<Toggle>, end: Option<View>)
    decreases |ts|
  {
    if ts == [] then start == end
    else match start
      case None => ts[0].enable && WellNested(Some(ts[0].view), ts[1..], end)
      case Some(v) => ts[0] == Toggle(v, false) && WellNested(None, ts[1..], end)
  }

  lemma {:induction false} WellNestedAppend(start: Option<View>, a: seq<Toggle>, mid: Option<View>,
                                            b: seq<Toggle>, end: Option<View>)
    requires WellNested(start, a, mid)
    requires WellNested(mid, b, end)
    ensures WellNested(start, a + b, end)
    decreases |a|
  {
    if a == [] {
      assert a + b == b;
    } else {
      assert (a + b)[0] == a[0];
      assert (a + b)[1..] == a[1..] + b;
      var next := if start.None? then Some(a[0].view) else None;
      WellNestedAppend(next, a[1..], mid, b, end);
    }
  }

  /** Entering the mode toggles the helper exactly once, on, for the entering view. */
  lemma EnterToggles(v: View)
    ensures Toggles(EnterEffects(v)) == [Toggle(v, true)]
  {
    assert EnterEffects(v)[1..] == [EnableDirectManipulationMode(v, true)];
    assert EnterEffects(v)[1..][1..] == [];
  }

  /** Leaving the mode toggles the helper exactly once, off, on the starting view. */
  lemma ExitToggles(v: View)
    ensures Toggles(ExitEffects(v)) == [Toggle(v, false)]
  {
    var tail := [SetBackground(v, NotInModeMarker), EnableDirectManipulationMode(v, false)];
    assert Toggles(tail) == [Toggle(v, false)] by {
      assert tail[1..] == [EnableDirectManipulationMode(v, false)];
      assert tail[1..][1..] == [];
    }
    if v.isViewGroup {
      TogglesAppend([BlockDescendants(v)], tail);
    } else {
      assert ExitEffects(v) == tail;
    }
  }

  /** A single event toggles the helper only to enter or leave a session. */
  lemma DeliverWellNested(s: DmState, d: Dispatch)
    ensures WellNested(s.startingView, Toggles(Deliver(s, d).effects), Deliver(s, d).state.startingView)
  {
    match d
    case MotionDispatch(h, v, e) =>
      var r := OnGenericMotion(h, s, v, e);
      assert r.state == s;
      assert r.effects == [] || r.effects == [RotationDelegated(v, e)];
    case KeyDispatch(h, v, k, e) =>
      var r := OnKey(h, s, v, k, e);
      if k == KEYCODE_DPAD_CENTER && !s.IsActive() && e.IsActionUp() {
        EnterToggles(v);
      } else if k == KEYCODE_BACK && s.IsActive() && e.IsActionUp() {
        ExitToggles(s.startingView.value);
      } else {
        assert r.state == s;
        assert r.effects == [] || r.effects == [NudgeDelegated(v, k, e)];
      }
  }

  /**
   * Whatever events a group of handlers sharing one mode receives, the helper
   * is toggled in whole sessions: each exit disables the view the preceding
   * entry enabled: the recorded starting view, whichever view the back press
   * arrived on.
   */
  lemma {:induction false} RunWellNested(s: DmState, ds: seq<Dispatch>)
    ensures WellNested(s.startingView, Toggles(Run(s, ds).effects), Run(s, ds).state.startingView)
    decreases |ds|
  {
    if ds == [] {
    } else {
      var r := Deliver(s, ds[0]);
      var t := Run(r.state, ds[1..]);
      DeliverWellNested(s, ds[0]);
      RunWellNested(r.state, ds[1..]);
      TogglesAppend(r.effects, t.effects);
      WellNestedAppend(s.startingView, Toggles(r.effects), r.state.startingView,
                       Toggles(t.effects), t.state.startingView);
    }
  }

  /** How many toggles enable (or disable) the mode. */
  function CountToggles(ts: seq<Toggle>, enable: bool): (n: nat)
    ensures n <= |ts|
    decreases |ts|
  {
    if ts == [] then 0
    else (if ts[0].enable == enable then 1 else 0) + CountToggles(ts[1..], enable)
  }

  /** 1 while a session is open, 0 otherwise. */
  function Open(mode: Option<View>): (n: nat)
    ensures n == 1 <==> mode.Some?
    ensures n <= 1
  {
    if mode.Some? then 1 else 0
  }

  /** Well-nested toggles enable once more than they disable per session they leave open. */
  lemma {:induction false} SessionBalance(start: Option<View>, ts: seq<Toggle>, end: Option<View>)
    requires WellNested(start, ts, end)
    ensures CountToggles(ts, true) - CountToggles(ts, false) == Open(end) - Open(start)
    decreases |ts|
  {
    if ts != [] {
      var next := if start.None? then Some(ts[0].view) else None;
      SessionBalance(next, ts[1..], end);
    }
  }

  /**
   * Starting from the inactive mode, after any prefix of any sequence of
   * events, the helper has been enabled as often as disabled, or once more
   * exactly when a session is still open: at most one session is ever open.
   */
  lemma AtMostOneOpenSession(ds: seq<Dispatch>, k: nat)
    requires k <= |ds|
    ensures var t := Run(Inactive, ds[..k]);
            var ts := Toggles(t.effects);
            CountToggles(ts, true) == CountToggles(ts, false) + Open(t.state.startingView)
  {
    var t := Run(Inactive, ds[..k]);
    RunWellNested(Inactive, ds[..k]);
    SessionBalance(Inactive.startingView, Toggles(t.effects), t.state.startingView);
  }

  // ---------------------------------------------------------------------------
  // Background markers accompany the toggles

  /**
   * Every helper toggle is immediately preceded by the matching background
   * marker on the same view, and every marker is immediately followed by it.
   */
  predicate MarkersPaired(es: seq<Effect>) {
    && (forall i :: 0 <= i < |es| && es[i].EnableDirectManipulationMode? ==>
          0 < i && es[i - 1] == SetBackground(es[i].view, MarkerFor(es[i].enable)))
    && (forall i :: 0 <= i < |es| && es[i].SetBackground? ==>
          i + 1 < |es| && es[i + 1] == EnableDirectManipulationMode(es[i].view, es[i].marker == InModeMarker))
  }

  lemma MarkersPairedAppend(a: seq<Effect>, b: seq<Effect>)
    requires MarkersPaired(a) && MarkersPaired(b)
    ensures MarkersPaired(a + b)
  {
  }

  lemma ExitMarkersPaired(v: View)
    ensures MarkersPaired(ExitEffects(v))
  {
  }

  lemma DeliverMarkersPaired(s: DmState, d: Dispatch)
    ensures MarkersPaired(Deliver(s, d).effects)
  {
    match d
    case MotionDispatch(h, v, e) =>
      var r := OnGenericMotion(h, s, v, e);
      assert r.effects == [] || r.effects == [RotationDelegated(v, e)];
    case KeyDispatch(h, v, k, e) =>
      var r := OnKey(h, s, v, k, e);
      if k == KEYCODE_DPAD_CENTER && !s.IsActive() && e.IsActionUp() {
        assert r.effects == EnterEffects(v);
      } else if k == KEYCODE_BACK && s.IsActive() && e.IsActionUp() {
        ExitMarkersPaired(s.startingView.value);
      } else {
        assert r.effects == [] || r.effects == [NudgeDelegated(v, k, e)];
      }
  }

  /** Over any sequence of events, markers and helper toggles come in matching pairs. */
  lemma {:induction false} RunMarkersPaired(s: DmState, ds: seq<Dispatch>)
    ensures MarkersPaired(Run(s, ds).effects)
    decreases |ds|
  {
    if ds != [] {
      var r := Deliver(s, ds[0]);
      DeliverMarkersPaired(s, ds[0]);
      RunMarkersPaired(r.state, ds[1..]);
      MarkersPairedAppend(r.effects, Run(r.state, ds[1..]).effects);
    }
  }

  // ---------------------------------------------------------------------------
  // Idempotence, exclusivity and a worked scenario

  /** Every dispatch is a center press, with any action, to any handler and view. */
  predicate AllCenter(ds: seq<Dispatch>) {
    forall i :: 0 <= i < |ds| ==> ds[i].KeyDispatch? && ds[i].keyCode == KEYCODE_DPAD_CENTER
  }

  /**
   * While the mode is active, any number of center presses are all consumed
   * and change nothing: the starting view is never overwritten and the helper
   * is never re-enabled.
   */
  lemma {:induction false} CenterWhileActiveIdempotent(s: DmState, ds: seq<Dispatch>)
    requires s.IsActive()
    requires AllCenter(ds)
    ensures Run(s, ds) == Trace(s, [], seq(|ds|, _ => true))
    decreases |ds|
  {
    if ds != [] {
      CenterWhileActiveIdempotent(s, ds[1..]);
      assert [true] + seq(|ds| - 1, _ => true) == seq(|ds|, _ => true);
    }
  }

  /** A center key-up while inactive enters the mode from its view. */
  lemma CenterUpEnters(s: DmState, h: Handler, v: View, e: KeyEvent)
    requires !s.IsActive() && e.IsActionUp()
    ensures Deliver(s, KeyDispatch(h, v, KEYCODE_DPAD_CENTER, e)) == Reaction(true, DmState(Some(v)), EnterEffects(v))
  {
  }

  /** A center event while active is consumed and does nothing. */
  lemma CenterWhileActiveNoOp(s: DmState, h: Handler, v: View, e: KeyEvent)
    requires s.IsActive()
    ensures Deliver(s, KeyDispatch(h, v, KEYCODE_DPAD_CENTER, e)) == Reaction(true, s, [])
  {
  }

  /** A back key-up while active leaves the mode, undoing the entry on the recorded view. */
  lemma BackUpExits(s: DmState, h: Handler, v: View, e: KeyEvent)
    requires s.IsActive() && e.IsActionUp()
    ensures Deliver(s, KeyDispatch(h, v, KEYCODE_BACK, e)) == Reaction(true, Inactive, ExitEffects(s.startingView.value))
  {
  }

  /** While active, a key other than center or back goes to the nudge delegate and gets its answer. */
  lemma NudgeForwarded(s: DmState, h: Handler, v: View, k: int, e: KeyEvent)
    requires s.IsActive() && !IsModeKey(k) && h.nudgeDelegate.Some?
    ensures Deliver(s, KeyDispatch(h, v, k, e)) == Reaction(h.nudgeDelegate.value(v, k, e), s, [NudgeDelegated(v, k, e)])
  {
  }

  /** One whole session on `a`, with nothing toggled in between, enables then disables `a`. */
  lemma SessionToggles(a: View, between: seq<Effect>)
    requires Toggles(between) == []
    ensures Toggles(EnterEffects(a) + between + ExitEffects(a)) == [Toggle(a, true), Toggle(a, false)]
  {
    TogglesAppend(EnterEffects(a), between);
    TogglesAppend(EnterEffects(a) + between, ExitEffects(a));
    EnterToggles(a);
    ExitToggles(a);
  }

  /**
   * Two handlers sharing one mode: once the first enters from view `a`, a
   * center key-up on the second, from view `b`, does not re-enter, and a back
   * key-up on the second leaves the session on `a`, not on `b`.
   */
  lemma EnterIsExclusive(h1: Handler, h2: Handler, a: View, b: View, up: KeyEvent)
    requires up.IsActionUp()
    ensures var t := Run(Inactive, [KeyDispatch(h1, a, KEYCODE_DPAD_CENTER, up),
                                    KeyDispatch(h2, b, KEYCODE_DPAD_CENTER, up),
                                    KeyDispatch(h2, b, KEYCODE_BACK, up)]);
            && t.state == Inactive
            && t.results == [true, true, true]
            && Toggles(t.effects) == [Toggle(a, true), Toggle(a, false)]
  {
    var s1 := DmState(Some(a));
    CenterUpEnters(Inactive, h1, a, up);
    CenterWhileActiveNoOp(s1, h2, b, up);
    BackUpExits(s1, h2, b, up);
    FoldThree(Deliver, Inactive, KeyDispatch(h1, a, KEYCODE_DPAD_CENTER, up),
              KeyDispatch(h2, b, KEYCODE_DPAD_CENTER, up), KeyDispatch(h2, b, KEYCODE_BACK, up));
    SessionToggles(a, []);
  }

  /**
   * Enter on view `a`, nudge left with a delegate that consumes it, leave:
   * all three are consumed, the mode ends inactive, and the exit blocks
   * descendant focus on `a` exactly when `a` is a view group.
   */
  lemma EnterNudgeExitScenario(h: Handler, a: View)
    requires h.nudgeDelegate.Some? && h.nudgeDelegate.value(a, KEYCODE_DPAD_LEFT, KeyEvent(ACTION_DOWN))
    ensures var t := Run(Inactive, [KeyDispatch(h, a, KEYCODE_DPAD_CENTER, KeyEvent(ACTION_UP)),
                                    KeyDispatch(h, a, KEYCODE_DPAD_LEFT, KeyEvent(ACTION_DOWN)),
                                    KeyDispatch(h, a, KEYCODE_BACK, KeyEvent(ACTION_UP))]);
            && t.state == Inactive
            && t.results == [true, true, true]
            && (BlockDescendants(a) in t.effects <==> a.isViewGroup)
  {
    var up := KeyEvent(ACTION_UP);
    var down := KeyEvent(ACTION_DOWN);
    var s1 := DmState(Some(a));
    CenterUpEnters(Inactive, h, a, up);
    NudgeForwarded(s1, h, a, KEYCODE_DPAD_LEFT, down);
    BackUpExits(s1, h, a, up);
    FoldThree(Deliver, Inactive, KeyDispatch(h, a, KEYCODE_DPAD_CENTER, up),
              KeyDispatch(h, a, KEYCODE_DPAD_LEFT, down), KeyDispatch(h, a, KEYCODE_BACK, up));
    NudgedSessionBlocksIffGroup(a, KEYCODE_DPAD_LEFT, down,
                                Run(Inactive, [KeyDispatch(h, a, KEYCODE_DPAD_CENTER, up),
                                               KeyDispatch(h, a, KEYCODE_DPAD_LEFT, down),
                                               KeyDispatch(h, a, KEYCODE_BACK, up)]).effects);
  }

  /**
   * The effects of a session on `a` with one nudge in between block
   * descendant focus on `a` iff `a` is a view group: entry and nudge never do.
   */
  lemma NudgedSessionBlocksIffGroup(a: View, k: int, e: KeyEvent, es: seq<Effect>)
    requires es == EnterEffects(a) + [NudgeDelegated(a, k, e)] + ExitEffects(a)
    ensures BlockDescendants(a) in es <==> a.isViewGroup
  {
    assert BlockDescendants(a) !in EnterEffects(a) + [NudgeDelegated(a, k, e)];
  }

  // ---------------------------------------------------------------------------
  // Handlers on a store of shared mode objects

  /** The result of delivering events against every shared mode object at once. */
  datatype StoreTrace = StoreTrace(store: Store, effects: seq<Effect>, results: seq<bool>)

  /** Each handler reads and writes the mode object it was built with. */
  predicate RefsIn(store: Store, ds: seq<Dispatch>) {
    forall i :: 0 <= i < |ds| ==> ds[i].handler.dmState in store
  }

  /** Delivers the dispatches in order, each against its own handler's shared mode. */
  function RunIn(store: Store, ds: seq<Dispatch>): (t: StoreTrace)
    requires RefsIn(store, ds)
    ensures t.store.Keys == store.Keys
    ensures forall ref :: ref in store && (forall i :: 0 <= i < |ds| ==> ds[i].handler.dmState != ref) ==>
              t.store[ref] == store[ref]
    decreases |ds|
  {
    if ds == [] then StoreTrace(store, [], [])
    else
      var ref := ds[0].handler.dmState;
      var r := Deliver(store[ref], ds[0]);
      var store' := store[ref := r.state];
      assert RefsIn(store', ds[1..]) by {
        forall i | 0 <= i < |ds[1..]| ensures ds[1..][i].handler.dmState in store' {
          assert ds[1..][i] == ds[i + 1];
        }
      }
      var t := RunIn(store', ds[1..]);
      assert forall ref' :: ref' in store && (forall i :: 0 <= i < |ds| ==> ds[i].handler.dmState != ref') ==>
               t.store[ref'] == store[ref'] by {
        forall ref' | ref' in store && (forall i :: 0 <= i < |ds| ==> ds[i].handler.dmState != ref')
          ensures t.store[ref'] == store[ref']
        {
          assert ref' != ds[0].handler.dmState;
          forall i | 0 <= i < |ds[1..]| ensures ds[1..][i].handler.dmState != ref' {
            assert ds[1..][i] == ds[i + 1];
          }
        }
      }
      StoreTrace(t.store, r.effects + t.effects, [r.consumed] + t.results)
  }

  /**
   * Handlers built on the same state object behave as one group over one
   * mode: running them against the store is running them on that mode.
   */
  lemma {:induction false} RunInSharedState(store: Store, ref: StateRef, ds: seq<Dispatch>)
    requires ref in store
    requires forall i :: 0 <= i < |ds| ==> ds[i].handler.dmState == ref
    ensures RefsIn(store, ds)
    ensures var t := Run(store[ref], ds);
            RunIn(store, ds) == StoreTrace(store[ref := t.state], t.effects, t.results)
    decreases |ds|
  {
    if ds != [] {
      var r := Deliver(store[ref], ds[0]);
      var store' := store[ref := r.state];
      RunInSharedState(store', ref, ds[1..]);
      assert store'[ref := Run(r.state, ds[1..]).state] == store[ref := Run(r.state, ds[1..]).state];
    }
  }

  /** The dispatches, in order, whose handlers were built on state object `ref`. */
  function OnRef(ds: seq<Dispatch>, ref: StateRef): (r: seq<Dispatch>)
    ensures |r| <= |ds|
    ensures forall i :: 0 <= i < |r| ==> r[i].handler.dmState == ref && r[i] in ds
    decreases |ds|
  {
    if ds == [] then []
    else
      var rest := OnRef(ds[1..], ref);
      assert forall i :: 0 <= i < |rest| ==> rest[i] in ds by {
        forall i | 0 <= i < |rest| ensures rest[i] in ds {
          assert rest[i] in ds[1..];
        }
      }
      (if ds[0].handler.dmState == ref then [ds[0]] else []) + rest
  }

  /**
   * Groups of handlers on different state objects do not interfere, however
   * their events interleave: each object ends where the events sent to its
   * own handlers alone would take it.
   */
  lemma {:induction false} Isolation(store: Store, ref: StateRef, ds: seq<Dispatch>)
    requires RefsIn(store, ds) && ref in store
    ensures RunIn(store, ds).store[ref] == Run(store[ref], OnRef(ds, ref)).state
    decreases |ds|
  {
    if ds != [] {
      var ref0 := ds[0].handler.dmState;
      var store' := store[ref0 := Deliver(store[ref0], ds[0]).state];
      RunInCons(store, ds);
      Isolation(store', ref, ds[1..]);
      if ref0 == ref {
        assert OnRef(ds, ref) == [ds[0]] + OnRef(ds[1..], ref);
        RunCons(store[ref], ds[0], OnRef(ds[1..], ref));
      } else {
        assert OnRef(ds, ref) == OnRef(ds[1..], ref) by {
          assert OnRef(ds, ref) == [] + OnRef(ds[1..], ref);
        }
        assert store'[ref] == store[ref];
      }
    }
  }

  /** Running against a store delivers the first dispatch to its handler's object, then runs the rest. */
  lemma RunInCons(store: Store, ds: seq<Dispatch>)
    requires RefsIn(store, ds) && ds != []
    ensures var ref0 := ds[0].handler.dmState;
            var store' := store[ref0 := Deliver(store[ref0], ds[0]).state];
            RefsIn(store', ds[1..]) && RunIn(store, ds).store == RunIn(store', ds[1..]).store
  {
    var ref0 := ds[0].handler.dmState;
    var store' := store[ref0 := Deliver(store[ref0], ds[0]).state];
    forall i | 0 <= i < |ds[1..]| ensures ds[1..][i].handler.dmState in store' {
      assert ds[1..][i] == ds[i + 1];
    }
  }
}
