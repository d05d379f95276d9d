/**
 * WindowMinimizeStartedTransform: when a window starts minimizing, its workspace records the
 * minimize and relayouts, and the WindowSector queues one WindowMinimizeStarted event.
 */
module WindowTransforms {
  import opened Results
  import opened Store

  /** Events the WindowSector queues; only the one this transform raises is modelled. */
  datatype WindowEvent = WindowMinimizeStarted(window: Window)

  /**
   * The root sector during a transform: the state it updates in place and the WindowSector's
   * queue of events still to be delivered.
   */
  class MutableRootSector {
    var state: RootState
    var windowSectorEvents: seq<WindowEvent>

    constructor (st: RootState)
      ensures state == st && windowSectorEvents == []
    {
      state := st;
      windowSectorEvents := [];
    }

    /** Replaces the workspace stored under `id`. */
    method SetWorkspace(id: WorkspaceId, workspace: Workspace)
      requires id in state.workspaces
      modifies this
      ensures state == old(state).(workspaces := old(state).workspaces[id := workspace])
      ensures windowSectorEvents == old(windowSectorEvents)
    {
      state := state.(workspaces := state.workspaces[id := workspace]);
    }

    /** Appends an event to the WindowSector's queue. */
    method QueueEvent(e: WindowEvent)
      modifies this
      ensures windowSectorEvents == old(windowSectorEvents) + [e]
      ensures state == old(state)
    {
      windowSectorEvents := windowSectorEvents + [e];
    }
  }

  /** IWorkspace.MinimizeWindowStart: the workspace records that `window` started minimizing. */
  function MinimizeWindowStart(workspace: Workspace, window: Window): (r: Workspace)
    ensures r.id == workspace.id && r.windows == workspace.windows
    ensures r.operations == workspace.operations + [MinimizeStart(window)]
  {
    workspace.(operations := workspace.operations + [MinimizeStart(window)])
  }

  /** IWorkspace.DoLayout: the workspace records a relayout. */
  function DoLayout(workspace: Workspace): (r: Workspace)
    ensures r.id == workspace.id && r.windows == workspace.windows
    ensures r.operations == workspace.operations + [Layout]
  {
    workspace.(operations := workspace.operations + [Layout])
  }

  /**
   * Execute: find the window's workspace; on failure return the picker's error with nothing
   * changed; otherwise apply MinimizeWindowStart then DoLayout to that workspace, queue one
   * WindowMinimizeStarted event for the window, and return Unit.
   */
  method ExecuteWindowMinimizeStarted(window: Window, root: MutableRootSector) returns (r: Result<Unit>)
    modifies root
    ensures var picked := PickWorkspaceByWindow(old(root.state), window.handle);
            picked.Err? ==> && r == Err(picked.error)
                            && root.state == old(root.state)
                            && root.windowSectorEvents == old(root.windowSectorEvents)
    ensures var picked := PickWorkspaceByWindow(old(root.state), window.handle);
            picked.Ok? ==> r == Ok(Unit)
    ensures var picked := PickWorkspaceByWindow(old(root.state), window.handle);
            picked.Ok? ==> root.windowSectorEvents == old(root.windowSectorEvents) + [WindowMinimizeStarted(window)]
    ensures var picked := PickWorkspaceByWindow(old(root.state), window.handle);
            picked.Ok? ==>
              var id := old(root.state).windowWorkspace[window.handle];
              root.state == old(root.state).(workspaces := old(root.state).workspaces
                              [id := DoLayout(MinimizeWindowStart(picked.value, window))])
    ensures Valid(old(root.state)) ==> Valid(root.state)
  {
    var workspaceResult := PickWorkspaceByWindow(root.state, window.handle);
    if workspaceResult.Err? {
      return Err(workspaceResult.error);
    }
    var id := root.state.windowWorkspace[window.handle];
    var workspace := workspaceResult.value;

    workspace := MinimizeWindowStart(workspace, window);
    root.SetWorkspace(id, workspace);
    workspace := DoLayout(workspace);
    root.SetWorkspace(id, workspace);

    root.QueueEvent(WindowMinimizeStarted(window));
    r := Ok(Unit);
  }

  /** The number of WindowMinimizeStarted events for `window` in a queue. */
  function MinimizeEventsFor(events: seq<WindowEvent>, window: Window): (n: nat)
    ensures n == multiset(events)[WindowMinimizeStarted(window)]
  {
    if events == [] then 0
    else
      var init, last := events[..|events| - 1], events[|events| - 1];
      assert events == init + [last];
      MinimizeEventsFor(init, window) + (if last == WindowMinimizeStarted(window) then 1 else 0)
  }

  /** A successful run adds exactly one event for the window and none for any other window. */
  lemma OneEventPerMinimize(before: seq<WindowEvent>, window: Window, other: Window)
    ensures MinimizeEventsFor(before + [WindowMinimizeStarted(window)], window) == MinimizeEventsFor(before, window) + 1
    ensures other != window ==>
      MinimizeEventsFor(before + [WindowMinimizeStarted(window)], other) == MinimizeEventsFor(before, other)
  {
    var after := before + [WindowMinimizeStarted(window)];
    assert after[..|after| - 1] == before;
  }

  /**
   * The updated workspace differs from the original only in its operations, which gain the
   * minimize of `window` followed by one relayout.
   */
  lemma MinimizeThenLayout(workspace: Workspace, window: Window)
    ensures var w := DoLayout(MinimizeWindowStart(workspace, window));
            && w.id == workspace.id && w.windows == workspace.windows
            && |w.operations| == |workspace.operations| + 2
            && w.operations[..|workspace.operations|] == workspace.operations
            && w.operations[|workspace.operations|] == MinimizeStart(window)
            && w.operations[|workspace.operations| + 1] == Layout
  {
    var w := DoLayout(MinimizeWindowStart(workspace, window));
    assert w.operations == workspace.operations + [MinimizeStart(window), Layout];
  }
}
