/**
 * BaseWorkspaceWindowTransform: a workspace transform that first validates a window and then
 * runs the subclass's window operation on the validated window and the same workspace.
 */
module WorkspaceTransforms {
  import opened Results
  import opened Store

  datatype WorkspaceWindowTransform = WorkspaceWindowTransform(
    workspaceId: WorkspaceId,
    windowHandle: Hwnd,
    defaultToLastFocusedWindow: bool,
    isWindowRequiredInWorkspace: bool,
    skipDoLayout: bool)

  /**
   * WorkspaceUtils.GetValidWorkspaceWindow(workspace, handle, defaultToLastFocusedWindow,
   * isWindowRequiredInWorkspace). Its body is not part of this model.
   */
  type WindowValidator = (RootState, Workspace, Hwnd, bool, bool) -> Result<Window>

  /** The subclass's WindowOperation: the updated workspace, or an error. */
  type WindowOperation = (RootState, Workspace, Window) -> Result<Workspace>

  /** The handle validation should try: the last focused window replaces a null handle only when asked. */
  function HandleToValidate(handle: Hwnd, defaultToLastFocusedWindow: bool, st: RootState): (r: Hwnd)
    ensures handle != NullHwnd ==> r == handle
    ensures handle == NullHwnd && !defaultToLastFocusedWindow ==> r == NullHwnd
    ensures handle == NullHwnd && defaultToLastFocusedWindow ==> r == st.lastFocusedWindow
  {
    if handle == NullHwnd && defaultToLastFocusedWindow then st.lastFocusedWindow else handle
  }

  /**
   * What the two flags promise of a validator: a validated window is the tracked window with the
   * handle to try, and it is in the workspace whenever that is required.
   */
  ghost predicate HonoursFlags(validate: WindowValidator) {
    forall st, workspace, handle, defaultToLast, required ::
      validate(st, workspace, handle, defaultToLast, required).Ok? ==>
        var w := validate(st, workspace, handle, defaultToLast, required).value;
        && w.handle == HandleToValidate(handle, defaultToLast, st)
        && w.handle != NullHwnd
        && w.handle in st.windows
        && (required ==> w.handle in workspace.windows)
  }

  /**
   * A reference validator: a null handle to try is NoValidWindow, an untracked window is
   * WindowNotFound, and a required window outside the workspace is WindowNotFoundInWorkspace.
   */
  function GetValidWorkspaceWindow(st: RootState, workspace: Workspace, handle: Hwnd,
                                   defaultToLastFocusedWindow: bool, isWindowRequiredInWorkspace: bool)
    : (r: Result<Window>)
    ensures r.Ok? <==> var h := HandleToValidate(handle, defaultToLastFocusedWindow, st);
                       h != NullHwnd && h in st.windows
                       && (isWindowRequiredInWorkspace ==> h in workspace.windows)
  {
    var h := HandleToValidate(handle, defaultToLastFocusedWindow, st);
    if h == NullHwnd then Err(NoValidWindow)
    else if h !in st.windows then Err(WindowNotFound(h))
    else if isWindowRequiredInWorkspace && h !in workspace.windows then Err(WindowNotFoundInWorkspace(h, workspace.id))
    else Ok(Window(h))
  }

  /** The reference validator keeps the flags' promise. */
  lemma ReferenceValidatorHonoursFlags()
    ensures HonoursFlags(GetValidWorkspaceWindow)
  {
  }

  /** WorkspaceOperation: validate the window, then run the window operation on it. */
  function WorkspaceOperation(t: WorkspaceWindowTransform, st: RootState, workspace: Workspace,
                              validate: WindowValidator, operation: WindowOperation)
    : (r: Result<Workspace>)
    ensures validate(st, workspace, t.windowHandle, t.defaultToLastFocusedWindow, t.isWindowRequiredInWorkspace).Err?
            ==> r.Err? && r.error
                 == validate(st, workspace, t.windowHandle, t.defaultToLastFocusedWindow, t.isWindowRequiredInWorkspace).error
    ensures var v := validate(st, workspace, t.windowHandle, t.defaultToLastFocusedWindow, t.isWindowRequiredInWorkspace);
            v.Ok? ==> r == operation(st, workspace, v.value)
  {
    var result := validate(st, workspace, t.windowHandle, t.defaultToLastFocusedWindow, t.isWindowRequiredInWorkspace);
    if result.Ok? then operation(st, workspace, result.value) else Err(result.error)
  }

  /** When validation fails, the window operation is never consulted: any two give the same error. */
  lemma FailedValidationSkipsOperation(t: WorkspaceWindowTransform, st: RootState, workspace: Workspace,
                                       validate: WindowValidator, op1: WindowOperation, op2: WindowOperation)
    requires validate(st, workspace, t.windowHandle, t.defaultToLastFocusedWindow, t.isWindowRequiredInWorkspace).Err?
    ensures WorkspaceOperation(t, st, workspace, validate, op1) == WorkspaceOperation(t, st, workspace, validate, op2)
  {
  }

  /**
   * On successful validation, the result is exactly the window operation's result on the validated
   * window and the same workspace: two operations that agree there give the same result.
   */
  lemma OperationSeesOnlyValidatedWindow(t: WorkspaceWindowTransform, st: RootState, workspace: Workspace,
                                         validate: WindowValidator, op1: WindowOperation, op2: WindowOperation)
    requires validate(st, workspace, t.windowHandle, t.defaultToLastFocusedWindow, t.isWindowRequiredInWorkspace).Ok?
    requires var w := validate(st, workspace, t.windowHandle, t.defaultToLastFocusedWindow, t.isWindowRequiredInWorkspace).value;
             op1(st, workspace, w) == op2(st, workspace, w)
    ensures WorkspaceOperation(t, st, workspace, validate, op1) == WorkspaceOperation(t, st, workspace, validate, op2)
  {
  }

  /**
   * With a validator that honours its flags, a successful WorkspaceOperation is the window
   * operation's result on a tracked window with the resolved handle, which belongs to the
   * workspace whenever the transform requires it.
   */
  lemma OperatesOnResolvedWindow(t: WorkspaceWindowTransform, st: RootState, workspace: Workspace,
                                 validate: WindowValidator, operation: WindowOperation)
    requires HonoursFlags(validate)
    requires WorkspaceOperation(t, st, workspace, validate, operation).Ok?
    ensures var w := Window(HandleToValidate(t.windowHandle, t.defaultToLastFocusedWindow, st));
            && w.handle != NullHwnd && w.handle in st.windows
            && (t.isWindowRequiredInWorkspace ==> w.handle in workspace.windows)
            && WorkspaceOperation(t, st, workspace, validate, operation) == operation(st, workspace, w)
  {
    // WorkspaceOperation's ensures give the operation's result on the validated window,
    // and HonoursFlags describes that window.
  }
}
