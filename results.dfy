/** Success-or-typed-error values returned by every fallible store operation. */
module Results {

  /** The unit value a transform returns when it has no other result. */
  datatype Unit = Unit

  /** Store errors. Only the variants that the modelled transforms and pickers produce are listed. */
  datatype StoreError =
    | NoValidWindow
    | WindowNotFound(window: nat)
    | WindowNotFoundInWorkspace(window: nat, workspace: nat)
    | WorkspaceNotFound(workspace: nat)
    | NoWorkspaceForMonitor(monitor: nat)
    | NoWorkspaceForWindow(window: nat)
    | NoMonitorForWorkspace(workspace: nat)

  datatype Result<+T> = Ok(value: T) | Err(error: StoreError)

  datatype Option<+T> = None | Some(value: T)
}
