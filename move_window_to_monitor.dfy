/**
 * MoveWindowToMonitorTransform: move a window (by default the last focused one) to the
 * workspace shown on a monitor, by dispatching MoveWindowToWorkspaceTransform.
 */
module MapTransforms {
  import opened Results
  import opened Store

  datatype MoveWindowToMonitorTransform =
    MoveWindowToMonitorTransform(monitorHandle: MonitorHandle, windowHandle: Hwnd := NullHwnd)

  /**
   * Dispatching MoveWindowToWorkspaceTransform(workspaceId, window) against a state. Its body is
   * not part of this model; the predicates below state what the lemmas assume of it.
   */
  type MoveWindowToWorkspace = (RootState, WorkspaceId, Hwnd) -> Step<Unit>

  /** A failed dispatch leaves the state as it was. */
  ghost predicate AtomicOnFailure(dispatch: MoveWindowToWorkspace) {
    forall st, id, h :: dispatch(st, id, h).result.Err? ==> dispatch(st, id, h).state == st
  }

  /** A successful dispatch from a valid state yields a valid state in which `h` is in workspace `id`. */
  ghost predicate PlacesWindow(dispatch: MoveWindowToWorkspace) {
    forall st, id, h :: Valid(st) && dispatch(st, id, h).result.Ok? ==> Placed(st, dispatch(st, id, h).state, id, h)
  }

  /** `st'` is valid, maps `h` to `id`, and keeps the monitors and what they show. */
  ghost predicate Placed(st: RootState, st': RootState, id: WorkspaceId, h: Hwnd) {
    && Valid(st')
    && h in st'.windowWorkspace && st'.windowWorkspace[h] == id
    && st'.monitors == st.monitors
    && st'.monitorWorkspace == st.monitorWorkspace
  }

  /**
   * Execute: resolve the window, pick the target monitor's workspace, then the window's current
   * monitor; succeed without change when they coincide, otherwise delegate. The state changes
   * only through the delegated dispatch, which receives the target monitor's workspace.
   */
  function Execute(t: MoveWindowToMonitorTransform, st: RootState, dispatch: MoveWindowToWorkspace)
    : (s: Step<Unit>)
    ensures OrLastFocusedWindow(t.windowHandle, st) == NullHwnd ==> s == Step(Err(NoValidWindow), st)
    ensures s.state == st
            || (PickWorkspaceByMonitor(st, t.monitorHandle).Ok?
                && s == dispatch(st, PickWorkspaceByMonitor(st, t.monitorHandle).value.id,
                                 OrLastFocusedWindow(t.windowHandle, st)))
  {
    var windowHandle := OrLastFocusedWindow(t.windowHandle, st);
    if windowHandle == NullHwnd then Step(Err(NoValidWindow), st)
    else
      var workspaceResult := PickWorkspaceByMonitor(st, t.monitorHandle);
      if workspaceResult.Err? then Step(Err(workspaceResult.error), st)
      else
        var workspace := workspaceResult.value;
        var oldMonitorResult := PickMonitorByWindow(st, windowHandle);
        if oldMonitorResult.Err? then Step(Err(oldMonitorResult.error), st)
        else if oldMonitorResult.value == t.monitorHandle then Step(Ok(Unit), st)
        else dispatch(st, workspace.id, windowHandle)
  }

  /** The default handle stands for the last focused window; any other handle is used as given. */
  lemma DefaultHandleMeansLastFocused(t: MoveWindowToMonitorTransform, st: RootState, dispatch: MoveWindowToWorkspace)
    ensures t.windowHandle == NullHwnd ==>
      Execute(t, st, dispatch) == Execute(MoveWindowToMonitorTransform(t.monitorHandle, st.lastFocusedWindow), st, dispatch)
  {
  }

  /**
   * A window on another monitor: the result and the new state are exactly those of dispatching
   * MoveWindowToWorkspaceTransform for the target monitor's workspace and the resolved window.
   */
  lemma DelegatesWhenOnOtherMonitor(t: MoveWindowToMonitorTransform, st: RootState, dispatch: MoveWindowToWorkspace)
    requires OrLastFocusedWindow(t.windowHandle, st) != NullHwnd
    requires PickWorkspaceByMonitor(st, t.monitorHandle).Ok?
    requires PickMonitorByWindow(st, OrLastFocusedWindow(t.windowHandle, st)).Ok?
    requires PickMonitorByWindow(st, OrLastFocusedWindow(t.windowHandle, st)).value != t.monitorHandle
    ensures Execute(t, st, dispatch)
            == dispatch(st, PickWorkspaceByMonitor(st, t.monitorHandle).value.id, OrLastFocusedWindow(t.windowHandle, st))
  {
  }

  /** The target monitor's workspace is looked up first: its error wins and nothing changes. */
  lemma WorkspaceErrorReturnedUnchanged(t: MoveWindowToMonitorTransform, st: RootState, dispatch: MoveWindowToWorkspace)
    requires OrLastFocusedWindow(t.windowHandle, st) != NullHwnd
    requires PickWorkspaceByMonitor(st, t.monitorHandle).Err?
    ensures Execute(t, st, dispatch) == Step(Err(PickWorkspaceByMonitor(st, t.monitorHandle).error), st)
  {
  }

  /** When the target has a workspace but the window has no monitor, that error is returned and nothing changes. */
  lemma MonitorErrorReturnedUnchanged(t: MoveWindowToMonitorTransform, st: RootState, dispatch: MoveWindowToWorkspace)
    requires OrLastFocusedWindow(t.windowHandle, st) != NullHwnd
    requires PickWorkspaceByMonitor(st, t.monitorHandle).Ok?
    requires PickMonitorByWindow(st, OrLastFocusedWindow(t.windowHandle, st)).Err?
    ensures Execute(t, st, dispatch)
            == Step(Err(PickMonitorByWindow(st, OrLastFocusedWindow(t.windowHandle, st)).error), st)
  {
  }

  /** A window already on the target monitor: success, no dispatch, no change. */
  lemma AlreadyOnMonitorIsNoOp(t: MoveWindowToMonitorTransform, st: RootState, dispatch: MoveWindowToWorkspace)
    requires OrLastFocusedWindow(t.windowHandle, st) != NullHwnd
    requires PickWorkspaceByMonitor(st, t.monitorHandle).Ok?
    requires PickMonitorByWindow(st, OrLastFocusedWindow(t.windowHandle, st)) == Ok(t.monitorHandle)
    ensures Execute(t, st, dispatch) == Step(Ok(Unit), st)
  {
  }

  /** A failing MoveWindowToMonitor changes nothing, provided the delegate is atomic. */
  lemma ExecuteIsAtomic(t: MoveWindowToMonitorTransform, st: RootState, dispatch: MoveWindowToWorkspace)
    requires AtomicOnFailure(dispatch)
    ensures Execute(t, st, dispatch).result.Err? ==> Execute(t, st, dispatch).state == st
  {
    // Execute's ensures: the state is either unchanged or the delegate's.
  }

  /**
   * After a successful move from a valid state, the state is valid and the window is on the
   * target monitor, provided the delegate places windows as it should.
   */
  lemma ExecuteMovesWindowToMonitor(
    t: MoveWindowToMonitorTransform, st: RootState, dispatch: MoveWindowToWorkspace)
    requires Valid(st) && PlacesWindow(dispatch)
    requires Execute(t, st, dispatch).result.Ok?
    ensures Valid(Execute(t, st, dispatch).state)
    ensures PickMonitorByWindow(Execute(t, st, dispatch).state, OrLastFocusedWindow(t.windowHandle, st))
            == Ok(t.monitorHandle)
  {
    // After a delegated move, Placed keeps the monitor map, so MonitorShowing's ensures and
    // OneMonitorPerWorkspace single out the target monitor.
  }

  /**
   * Idempotence: moving the same window to the same monitor again succeeds and changes nothing.
   */
  lemma MoveTwiceIsMoveOnce(
    t: MoveWindowToMonitorTransform, st: RootState, dispatch: MoveWindowToWorkspace)
    requires Valid(st) && PlacesWindow(dispatch)
    requires Execute(t, st, dispatch).result.Ok?
    ensures var s := Execute(t, st, dispatch);
            var again := MoveWindowToMonitorTransform(t.monitorHandle, OrLastFocusedWindow(t.windowHandle, st));
            Execute(again, s.state, dispatch) == Step(Ok(Unit), s.state)
  {
    ExecuteMovesWindowToMonitor(t, st, dispatch);
  }
}
