/**
 * The store's root state: the window, workspace, monitor and map sectors as one value,
 * the Map sector's referential-integrity invariant, and the pickers the transforms query.
 */
module Store {
  import opened Results

  /** A native window handle (HWND); 0 is the default (null) handle. */
  type Hwnd = nat
  const NullHwnd: Hwnd := 0

  /** A native monitor handle (HMONITOR). */
  type MonitorHandle = nat

  /** A store-generated workspace identifier. */
  type WorkspaceId = nat

  /** A tracked window. Title, process and geometry are not part of this model. */
  datatype Window = Window(handle: Hwnd)

  /** An operation applied to a workspace; what it does to the layout is not part of this model. */
  datatype WorkspaceOp = MinimizeStart(window: Window) | Layout

  /**
   * A workspace: its id, the windows placed in it, and the operations applied to it, oldest first.
   */
  datatype Workspace = Workspace(id: WorkspaceId, windows: set<Hwnd>, operations: seq<WorkspaceOp>)

  /**
   * One snapshot of every sector:
   * - windows: the WindowSector's tracked windows, by handle;
   * - workspaces: the WorkspaceSector's workspaces, by id;
   * - monitors: the MonitorSector's monitors, in enumeration order;
   * - windowWorkspace, monitorWorkspace: the MapSector's two maps;
   * - lastFocusedWindow: the last focused window, NullHwnd when there is none.
   */
  datatype RootState = RootState(
    windows: map<Hwnd, Window>,
    workspaces: map<WorkspaceId, Workspace>,
    monitors: seq<MonitorHandle>,
    windowWorkspace: map<Hwnd, WorkspaceId>,
    monitorWorkspace: map<MonitorHandle, WorkspaceId>,
    lastFocusedWindow: Hwnd)

  /** The result of running a transform against a state: its result and the state it leaves. */
  datatype Step<+T> = Step(result: Result<T>, state: RootState)

  /**
   * Referential integrity: the map sector names only tracked windows, existing workspaces and
   * enumerated monitors, and no workspace is shown on two monitors.
   */
  ghost predicate Valid(st: RootState) {
    && (forall h :: h in st.windows ==> st.windows[h].handle == h)
    && (forall id :: id in st.workspaces ==> st.workspaces[id].id == id)
    && (forall h :: h in st.windowWorkspace ==> h in st.windows && st.windowWorkspace[h] in st.workspaces)
    && (forall m :: m in st.monitorWorkspace ==> m in st.monitors && st.monitorWorkspace[m] in st.workspaces)
    && OneMonitorPerWorkspace(st.monitorWorkspace)
  }

  ghost predicate OneMonitorPerWorkspace(mw: map<MonitorHandle, WorkspaceId>) {
    forall m1, m2 :: m1 in mw && m2 in mw && mw[m1] == mw[m2] ==> m1 == m2
  }

  /** The handle a transform acts on: the given one, or the last focused window for the default handle. */
  function OrLastFocusedWindow(handle: Hwnd, st: RootState): (r: Hwnd)
    ensures handle != NullHwnd ==> r == handle
    ensures handle == NullHwnd ==> r == st.lastFocusedWindow
  {
    if handle == NullHwnd then st.lastFocusedWindow else handle
  }

  /** The workspace shown on monitor `m`. */
  function PickWorkspaceByMonitor(st: RootState, m: MonitorHandle): (r: Result<Workspace>)
    ensures r.Ok? <==> m in st.monitorWorkspace && st.monitorWorkspace[m] in st.workspaces
    ensures r.Ok? ==> r.value == st.workspaces[st.monitorWorkspace[m]]
  {
    if m !in st.monitorWorkspace then Err(NoWorkspaceForMonitor(m))
    else
      var id := st.monitorWorkspace[m];
      if id !in st.workspaces then Err(WorkspaceNotFound(id)) else Ok(st.workspaces[id])
  }

  /** The workspace that window `h` is mapped to. */
  function PickWorkspaceByWindow(st: RootState, h: Hwnd): (r: Result<Workspace>)
    ensures r.Ok? <==> h in st.windowWorkspace && st.windowWorkspace[h] in st.workspaces
    ensures r.Ok? ==> r.value == st.workspaces[st.windowWorkspace[h]]
  {
    if h !in st.windowWorkspace then Err(NoWorkspaceForWindow(h))
    else
      var id := st.windowWorkspace[h];
      if id !in st.workspaces then Err(WorkspaceNotFound(id)) else Ok(st.workspaces[id])
  }

  /** The first monitor in `monitors` that shows workspace `id`. */
  function MonitorShowing(monitors: seq<MonitorHandle>, mw: map<MonitorHandle, WorkspaceId>, id: WorkspaceId)
    : (r: Option<MonitorHandle>)
    ensures r.Some? ==> r.value in monitors && r.value in mw && mw[r.value] == id
    ensures r.None? ==> forall m :: m in monitors && m in mw ==> mw[m] != id
  {
    if monitors == [] then None
    else if monitors[0] in mw && mw[monitors[0]] == id then Some(monitors[0])
    else MonitorShowing(monitors[1..], mw, id)
  }

  /** The monitor showing the workspace that window `h` is mapped to. */
  function PickMonitorByWindow(st: RootState, h: Hwnd): (r: Result<MonitorHandle>)
    ensures r.Ok? ==> h in st.windowWorkspace && r.value in st.monitorWorkspace
                      && st.monitorWorkspace[r.value] == st.windowWorkspace[h]
  {
    if h !in st.windowWorkspace then Err(WindowNotFound(h))
    else
      var id := st.windowWorkspace[h];
      match MonitorShowing(st.monitors, st.monitorWorkspace, id)
      case None => Err(NoMonitorForWorkspace(id))
      case Some(m) => Ok(m)
  }

  /** When each workspace is on at most one monitor, the monitor showing it is the one the map names. */
  lemma MonitorShowingIsUnique(
    monitors: seq<MonitorHandle>, mw: map<MonitorHandle, WorkspaceId>, m: MonitorHandle)
    requires OneMonitorPerWorkspace(mw)
    requires m in mw && m in monitors
    ensures MonitorShowing(monitors, mw, mw[m]) == Some(m)
  {
  }

  /** Under the invariant, a window is on exactly the monitor whose workspace it is mapped to. */
  lemma WindowOnMonitor(st: RootState, h: Hwnd, m: MonitorHandle)
    requires Valid(st)
    requires h in st.windowWorkspace && m in st.monitorWorkspace
    requires st.monitorWorkspace[m] == st.windowWorkspace[h]
    ensures PickMonitorByWindow(st, h) == Ok(m)
  {
    // MonitorShowing's ensures and OneMonitorPerWorkspace single out `m`.
  }
}
