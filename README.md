# Whim store transforms and keyboard hook, modelled in Dafny

This project models four parts of Whim, a tiling window manager for Windows:

- **MoveWindowToMonitorTransform** (module `MapTransforms`). It moves a window to the workspace
  shown on a monitor. The default handle stands for the last focused window. It succeeds without
  change when the window is already on that monitor. Otherwise it dispatches
  MoveWindowToWorkspaceTransform. Every lookup error is returned unchanged.
- **BaseWorkspaceWindowTransform.WorkspaceOperation** (module `WorkspaceTransforms`). It
  validates the window and runs the subclass's `WindowOperation` only on a validated window.
- **WindowMinimizeStartedTransform** (module `WindowTransforms`). It applies `MinimizeWindowStart`
  and then `DoLayout` to the window's workspace. It queues one `WindowMinimizeStarted` event on
  the WindowSector and returns `Unit`. If the window has no workspace, it fails and changes nothing.
- **KeybindHook** (module `KeybindHooks`). This is the low-level keyboard hook. It passes an event on
  to the next hook without looking it up when nCode is not 0, the message is not WM_KEYDOWN or
  WM_SYSKEYDOWN, the KBDLLHOOKSTRUCT cannot be read, or the key is a configured modifier.
  Otherwise it builds the keybind from the
  pressed modifiers, in configured order, and runs the commands bound to it. It suppresses the
  event (LRESULT 1) exactly when some command ran. Its wrapper reports exceptions and passes the
  event on. The class also models `Dispose`, which takes effect only once.

The store state is one value, `Store.RootState`. It holds the tracked windows, the workspaces,
the monitors in enumeration order, the map sector's two maps (window to workspace and monitor to
workspace) and the last focused window. `Store.Valid` is the map sector's referential-integrity
invariant: map entries name only tracked windows, existing workspaces and enumerated monitors,
and no workspace is on two monitors. The pickers `PickWorkspaceByMonitor`,
`PickWorkspaceByWindow` and `PickMonitorByWindow` are stand-ins: lookups in those maps. The
MoveWindowToWorkspace dispatch, `GetValidWorkspaceWindow` and `WindowOperation` are
function-typed parameters. Ghost predicates (`AtomicOnFailure`, `PlacesWindow`, `HonoursFlags`)
state what the lemmas assume of them. `WorkspaceTransforms.GetValidWorkspaceWindow` is a
reference validator that meets `HonoursFlags`.

Two modelling choices follow Whim's code directly:
- WindowMinimizeStartedTransform updates the workspace in place. `MutableRootSector` models
  that: the transform is a method that updates the sector's state and event queue.
- A transform returns a picker's error exactly as the picker produced it.

## Model

| member | source | states |
|---|---|---|
| `Store.OrLastFocusedWindow` | src/Whim/Store/MapSector/Transforms/MoveWindowToMonitorTransform.cs:18 | A non-default handle is used as given; the default handle becomes the last focused window |
| `Store.PickWorkspaceByMonitor` | src/Whim/Store/MapSector/Transforms/MoveWindowToMonitorTransform.cs:26 | Stand-in: succeeds exactly when the monitor is mapped to an existing workspace, and returns that workspace |
| `Store.PickMonitorByWindow` | src/Whim/Store/MapSector/Transforms/MoveWindowToMonitorTransform.cs:32 | Stand-in: a monitor it returns shows the workspace the window is mapped to |
| `Store.PickWorkspaceByWindow` | src/Whim/Store/WindowSector/Transforms/WindowMinimizeStartedTransform.cs:11 | Stand-in: succeeds exactly when the window is mapped to an existing workspace, and returns that workspace |
| `MapTransforms.Execute` | src/Whim/Store/MapSector/Transforms/MoveWindowToMonitorTransform.cs:14-45 | A resolved default handle gives NoValidWindow with the state unchanged; otherwise the state is either unchanged or exactly what dispatching MoveWindowToWorkspace(target monitor's workspace, resolved window) leaves |
| `MapTransforms.DefaultHandleMeansLastFocused` | src/Whim/Store/MapSector/Transforms/MoveWindowToMonitorTransform.cs:10-18 | A transform with the default handle behaves as one naming the last focused window |
| `MapTransforms.WorkspaceErrorReturnedUnchanged` | src/Whim/Store/MapSector/Transforms/MoveWindowToMonitorTransform.cs:26-30 | When the target monitor has no workspace, that picker's error is returned and the state is unchanged, whatever the window's monitor lookup would say |
| `MapTransforms.MonitorErrorReturnedUnchanged` | src/Whim/Store/MapSector/Transforms/MoveWindowToMonitorTransform.cs:32-36 | When the target has a workspace but the window's monitor cannot be found, that error is returned and the state is unchanged |
| `MapTransforms.AlreadyOnMonitorIsNoOp` | src/Whim/Store/MapSector/Transforms/MoveWindowToMonitorTransform.cs:38-42 | A window already on the target monitor gives Ok(Unit), with no dispatch and no state change |
| `MapTransforms.DelegatesWhenOnOtherMonitor` | src/Whim/Store/MapSector/Transforms/MoveWindowToMonitorTransform.cs:26-44 | A window on another monitor gives exactly the result and state of dispatching MoveWindowToWorkspace for the target monitor's workspace and the resolved window |
| `MapTransforms.ExecuteIsAtomic` | src/Whim/Store/MapSector/Transforms/MoveWindowToMonitorTransform.cs:14-45 | If the delegate changes nothing when it fails, a failing move changes nothing |
| `MapTransforms.ExecuteMovesWindowToMonitor` | src/Whim/Store/MapSector/Transforms/MoveWindowToMonitorTransform.cs:38-44 | After a successful move from a valid state, the state is valid and the window is on the target monitor, given a delegate that places the window |
| `MapTransforms.MoveTwiceIsMoveOnce` | src/Whim/Store/MapSector/Transforms/MoveWindowToMonitorTransform.cs:38-42 | Repeating a successful move of the same window to the same monitor succeeds with no state change |
| `Store.MonitorShowingIsUnique` | src/Whim/Store/MapSector/Transforms/MoveWindowToMonitorTransform.cs:32-38 | When no workspace is on two monitors, the monitor found for a workspace is the one the map names, which is what the same-monitor comparison relies on |
| `WorkspaceTransforms.WorkspaceOperation` | src/Whim/Store/WorkspaceSector/Transforms/BaseWorkspaceWindowTransform.cs:29-47 | A validation error is returned unchanged as a failure of the workspace result; after a successful validation the result is exactly the window operation's result for the validated window and the same workspace, so the base adds nothing |
| `WorkspaceTransforms.FailedValidationSkipsOperation` | src/Whim/Store/WorkspaceSector/Transforms/BaseWorkspaceWindowTransform.cs:44-46 | When validation fails, the window operation is not consulted: any two operations give the same result |
| `WorkspaceTransforms.OperationSeesOnlyValidatedWindow` | src/Whim/Store/WorkspaceSector/Transforms/BaseWorkspaceWindowTransform.cs:44-45 | On successful validation the result depends on the window operation only through its result for the validated window and the same workspace |
| `WorkspaceTransforms.OperatesOnResolvedWindow` | src/Whim/Store/WorkspaceSector/Transforms/BaseWorkspaceWindowTransform.cs:11-45 | With a validator that honours the flags, a success is the window operation's result on the tracked window with the resolved handle, which is in the workspace when that is required |
| `WorkspaceTransforms.HandleToValidate` | src/Whim/Store/WorkspaceSector/Transforms/BaseWorkspaceWindowTransform.cs:11-13 | A null handle becomes the last focused window only when DefaultToLastFocusedWindow is set |
| `WorkspaceTransforms.GetValidWorkspaceWindow` | src/Whim/Store/WorkspaceSector/Transforms/BaseWorkspaceWindowTransform.cs:36-42 | The reference validator succeeds exactly when the handle to try is non-null and tracked, and is in the workspace if that is required |
| `WorkspaceTransforms.ReferenceValidatorHonoursFlags` | src/Whim/Store/WorkspaceSector/Transforms/BaseWorkspaceWindowTransform.cs:11-16 | The reference validator keeps the promise of the two flags |
| `WindowTransforms.ExecuteWindowMinimizeStarted` | src/Whim/Store/WindowSector/Transforms/WindowMinimizeStartedTransform.cs:5-23 | With no workspace for the window, the picker's error is returned and the state and event queue are unchanged; otherwise the result is Unit, only the window's workspace changes (to DoLayout after MinimizeWindowStart), one WindowMinimizeStarted event for the window is appended, and validity is preserved |
| `WindowTransforms.MinimizeWindowStart` | src/Whim/Store/WindowSector/Transforms/WindowMinimizeStartedTransform.cs:17 | Stand-in for IWorkspace.MinimizeWindowStart: the workspace keeps its id and windows and records the minimize of the window as its latest operation |
| `WindowTransforms.DoLayout` | src/Whim/Store/WindowSector/Transforms/WindowMinimizeStartedTransform.cs:18 | Stand-in for IWorkspace.DoLayout: the workspace keeps its id and windows and records one relayout as its latest operation |
| `WindowTransforms.MutableRootSector.SetWorkspace` | src/Whim/Store/WindowSector/Transforms/WindowMinimizeStartedTransform.cs:17-18 | Updating a workspace in place replaces only the workspace under that id and leaves the event queue alone |
| `WindowTransforms.MinimizeEventsFor` | src/Whim/Store/WindowSector/Transforms/WindowMinimizeStartedTransform.cs:20 | The count of minimize events for a window is the number of times that event occurs in the queue |
| `WindowTransforms.MutableRootSector.QueueEvent` | src/Whim/Store/WindowSector/Transforms/WindowMinimizeStartedTransform.cs:20 | Queueing appends the event to the WindowSector queue and leaves the state alone |
| `WindowTransforms.MinimizeThenLayout` | src/Whim/Store/WindowSector/Transforms/WindowMinimizeStartedTransform.cs:17-18 | The workspace keeps its id and windows and gains exactly two operations: the minimize of the window, then one relayout |
| `WindowTransforms.OneEventPerMinimize` | src/Whim/Store/WindowSector/Transforms/WindowMinimizeStartedTransform.cs:20 | The queued event adds exactly one minimize event for the window and none for any other window |
| `KeybindHooks.KeybindHook.constructor` | src/Whim/Keybind/KeybindHook.cs:19-24 | A new hook is not installed and not disposed |
| `KeybindHooks.KeybindHook.PostInitialize` | src/Whim/Keybind/KeybindHook.cs:26-35 | The hook keeps the handle the native SetWindowsHookEx returned |
| `KeybindHooks.KeybindHook.LowLevelKeyboardProcWrapper` | src/Whim/Keybind/KeybindHook.cs:37-48 | The result is always suppress or pass-on; an event the proc rejects before the lookup is passed on with no command run; an exception from the proc is reported under the proc's name and the event is passed on; suppression happens exactly when a command ran |
| `KeybindHooks.KeybindHook.LowLevelKeyboardProc` | src/Whim/Keybind/KeybindHook.cs:57-84 | Events the chain rejects are passed on with no command run; a lookup exception propagates; otherwise the looked-up commands all run, and the event is suppressed exactly when there was at least one |
| `KeybindHooks.EventKey` | src/Whim/Keybind/KeybindHook.cs:60-76 | An event is looked up only for nCode 0, a WM_KEYDOWN or WM_SYSKEYDOWN message, a readable hook struct and a key that is not a modifier; the key is the vkCode narrowed to 16 bits |
| `KeybindHooks.KeyDownIsLookedUp` | src/Whim/Keybind/KeybindHook.cs:60-78 | Conversely, every such key-down is looked up under its narrowed key |
| `KeybindHooks.KeybindHook.GetKeybindForKey` | src/Whim/Keybind/KeybindHook.cs:86-98 | The keybind is the event key with the pressed modifiers |
| `KeybindHooks.PressedModifiers` | src/Whim/Keybind/KeybindHook.cs:88-95 | Each pressed modifier occurs as often as it is configured, and an unpressed one not at all (with `PressedModifiersInOrder` this fixes the list) |
| `KeybindHooks.PressedModifiersMembers` | src/Whim/Keybind/KeybindHook.cs:88-95 | A key is among the pressed modifiers exactly when it is a configured modifier whose key state has bit 0x8000 set |
| `KeybindHooks.PressedModifiersInOrder` | src/Whim/Keybind/KeybindHook.cs:88-95 | The pressed modifiers are a subsequence of the configured modifiers, in their order |
| `KeybindHooks.IsModifierPressed` | src/Whim/Keybind/KeybindHook.cs:100-101 | The `& 0x8000` test holds exactly when the top bit of the SHORT key state is set |
| `KeybindHooks.ModifierPressedIffNegative` | src/Whim/Keybind/KeybindHook.cs:100-101 | Bit 0x8000 of GetKeyState's SHORT is set exactly when that SHORT is negative |
| `KeybindHooks.KeybindHook.DoKeyboardEvent` | src/Whim/Keybind/KeybindHook.cs:103-120 | A lookup exception propagates with no command run; otherwise every command runs, in order, and the event counts as handled exactly when there was at least one |
| `KeybindHooks.KeybindHook.DisposeCore` | src/Whim/Keybind/KeybindHook.cs:122-136 | The first call marks the hook disposed and, when disposing, releases the keyboard hook; later calls change nothing |
| `KeybindHooks.Release` | src/Whim/Keybind/KeybindHook.cs:129 | Disposing the unhook handle unhooks an installed hook and changes nothing otherwise |
| `KeybindHooks.KeybindHook.Dispose` | src/Whim/Keybind/KeybindHook.cs:138-143 | Dispose is DisposeCore(true) |
| `KeybindHooks.DisposeTwice` | src/Whim/Keybind/KeybindHook.cs:122-143 | Disposing twice leaves the hook as disposing once does |

## Left out

- Logging (`Logger.Debug`, `Logger.Verbose`) is not modelled. It has no effect on results.
- The picker bodies (`PickWorkspaceByMonitor`, `PickMonitorByWindow`, `PickWorkspaceByWindow`) are not part of this model. They are stand-ins that look up the map sector's maps, so their error variants are the model's choice.
- `OrLastFocusedWindow` is not part of this model. It is a stand-in that returns `RootState.lastFocusedWindow` for the default handle and never fails.
- MoveWindowToWorkspaceTransform, `WorkspaceUtils.GetValidWorkspaceWindow` and the subclasses' `WindowOperation` are not part of this model. They are abstract parameters, and lemmas state the contract they assume.
- HandleToValidate: the last focused window that replaces a null handle is the store-wide one (`RootState.lastFocusedWindow`). This is the model's choice, because the validator's code is not part of this model. If Whim's validator uses the workspace's own last focused window, `HonoursFlags` does not describe it.
- BaseWorkspaceTransform, which calls `WorkspaceOperation` and handles `SkipDoLayout`, is not part of this model. `SkipDoLayout` is carried but unused.
- The effects of `MinimizeWindowStart`, `DoLayout` and `ICommand.TryExecute` are not modelled. A workspace records the operations applied to it, and the hook returns the commands it ran, in order.
- ExecuteWindowMinimizeStarted: workspaces are values in the sector's map, so aliasing of `IWorkspace` objects is not modelled.
- LowLevelKeyboardProcWrapper: only the keybind manager's `GetCommands` lookup is modelled as able to throw. Exceptions from the native calls, from `Keybind` construction or from a command are not modelled.
- `CallNextHookEx` returns the next hook's LRESULT, which is not modelled. `CallNextHook(nCode, wParam, lParam)` stands for it.
- `GetKeyState` and `PtrToStructure` are not modelled. The hook takes them as functions in `HookContext`, and `SetWindowsHookEx` is a handle given to `PostInitialize`.
- The `Keybind` constructor is not modelled. A keybind is the modifier list as built, plus the key.
- `GC.SuppressFinalize`, the finalizer and the OS callback thread of the hook are not modelled.
- Store dispatch is not modelled: committing state, flushing the event queues to subscribers, and serialising concurrent dispatches.
- Context.cs and InternalContext.cs only construct, initialise and dispose the managers. They are not part of this model.
