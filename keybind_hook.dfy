/**
 * KeybindHook: the low-level keyboard hook. For each key-down event it builds the keybind from
 * the pressed modifiers and the key, runs the commands bound to it, and suppresses the event
 * exactly when some command ran; every other event is passed on to the next hook.
 */
module KeybindHooks {
  import opened Results

  /** VIRTUAL_KEY, an unsigned 16-bit key code. */
  type VirtualKey = k: nat | k < 0x1_0000

  /** A 32-bit unsigned word (DWORD). */
  type Dword = x: nat | x < 0x1_0000_0000

  const WM_KEYDOWN: nat := 0x0100
  const WM_SYSKEYDOWN: nat := 0x0104

  /** The part of KBDLLHOOKSTRUCT the hook reads. */
  datatype KbdLlHookStruct = KbdLlHookStruct(vkCode: Dword)

  /** A key chord: the pressed modifiers, in configured order, and the key. */
  datatype Keybind = Keybind(modifiers: seq<VirtualKey>, key: VirtualKey)

  /** A command bound to a keybind; what running it does is not part of this model. */
  datatype Command = Command(id: string)

  datatype Exception = Exception(message: string)

  /** The outcome of a call that may throw. */
  datatype Thrown<+T> = Returned(value: T) | Threw(exception: Exception)

  /** What the hook returns: LRESULT 1 to suppress, or whatever CallNextHookEx returns for these arguments. */
  datatype HookResult = Suppress | CallNextHook(nCode: int, wParam: nat, lParam: int)

  /** A report to the context's HandleUncaughtException. */
  datatype UncaughtException = UncaughtException(procName: string, exception: Exception)

  /**
   * What the hook reads from its collaborators at the time of the event: the keybind manager's
   * modifiers and commands, and the native GetKeyState (a SHORT, as its 16 bits) and
   * PtrToStructure (None when lParam does not hold a KBDLLHOOKSTRUCT).
   */
  datatype HookContext = HookContext(
    modifiers: seq<VirtualKey>,
    getKeyState: VirtualKey -> bv16,
    getCommands: Keybind -> Thrown<seq<Command>>,
    ptrToStructure: int -> Option<KbdLlHookStruct>)

  /** GetKeyState's SHORT read as a signed number. */
  function AsShort(state: bv16): (r: int)
    ensures r < 0 <==> state >= 0x8000
  {
    if state < 0x8000 then state as int else state as int - 0x1_0000
  }

  /** IsModifierPressed: bit 0x8000 of the key state is set, the top bit of the SHORT. */
  predicate IsModifierPressed(getKeyState: VirtualKey -> bv16, key: VirtualKey): (pressed: bool)
    ensures pressed <==> getKeyState(key) >= 0x8000
  {
    (getKeyState(key) & 0x8000) == 0x8000
  }

  /** A modifier is pressed exactly when GetKeyState returns a negative SHORT. */
  lemma ModifierPressedIffNegative(getKeyState: VirtualKey -> bv16, key: VirtualKey)
    ensures IsModifierPressed(getKeyState, key) <==> AsShort(getKeyState(key)) < 0
  {
  }

  /** The modifiers, in order, whose key state says they are pressed. */
  function PressedModifiers(modifiers: seq<VirtualKey>, getKeyState: VirtualKey -> bv16): (r: seq<VirtualKey>)
    ensures forall k :: multiset(r)[k] == if IsModifierPressed(getKeyState, k) then multiset(modifiers)[k] else 0
  {
    if modifiers == [] then []
    else
      var init, last := modifiers[..|modifiers| - 1], modifiers[|modifiers| - 1];
      assert modifiers == init + [last];
      PressedModifiers(init, getKeyState) + (if IsModifierPressed(getKeyState, last) then [last] else [])
  }

  /** `r` is `s` with some elements dropped, the rest kept in order. */
  predicate IsSubsequence(r: seq<VirtualKey>, s: seq<VirtualKey>)
    decreases |s|
  {
    if r == [] then true
    else if s == [] then false
    else (r[|r| - 1] == s[|s| - 1] && IsSubsequence(r[..|r| - 1], s[..|s| - 1]))
         || IsSubsequence(r, s[..|s| - 1])
  }

  /** The pressed modifiers are exactly the configured modifiers whose key is down. */
  lemma PressedModifiersMembers(modifiers: seq<VirtualKey>, getKeyState: VirtualKey -> bv16, k: VirtualKey)
    ensures k in PressedModifiers(modifiers, getKeyState) <==> k in modifiers && IsModifierPressed(getKeyState, k)
  {
    // A key is in a sequence exactly when its multiplicity is positive: PressedModifiers' ensures.
  }

  /** The pressed modifiers keep the configured order. */
  lemma {:induction false} PressedModifiersInOrder(modifiers: seq<VirtualKey>, getKeyState: VirtualKey -> bv16)
    ensures IsSubsequence(PressedModifiers(modifiers, getKeyState), modifiers)
  {
    if modifiers != [] {
      var init := modifiers[..|modifiers| - 1];
      var last := modifiers[|modifiers| - 1];
      var rest := PressedModifiers(init, getKeyState);
      PressedModifiersInOrder(init, getKeyState);
      if IsModifierPressed(getKeyState, last) {
        var r := rest + [last];
        assert r[..|r| - 1] == rest;
      } else {
        DropLastKeepsSubsequence(rest, init, last);
        assert modifiers == init + [last];
        assert PressedModifiers(modifiers, getKeyState) == rest + [] == rest;
      }
    }
  }

  lemma DropLastKeepsSubsequence(r: seq<VirtualKey>, s: seq<VirtualKey>, x: VirtualKey)
    requires IsSubsequence(r, s)
    ensures IsSubsequence(r, s + [x])
  {
    var t := s + [x];
    assert t[..|t| - 1] == s;
  }

  /**
   * The key of a key-down event that the hook goes on to look up, or None when the event is
   * passed on straight away: nCode is not 0, the message is not a (system) key-down, the
   * hook struct cannot be read, or the key is itself a modifier. The DWORD vkCode is narrowed
   * to a 16-bit VIRTUAL_KEY.
   */
  function EventKey(ctx: HookContext, nCode: int, wParam: nat, lParam: int): (r: Option<VirtualKey>)
    ensures r.Some? ==> nCode == 0 && (wParam == WM_KEYDOWN || wParam == WM_SYSKEYDOWN)
    ensures r.Some? ==> r.value !in ctx.modifiers
    ensures r.Some? ==> ctx.ptrToStructure(lParam).Some?
                        && r.value == ctx.ptrToStructure(lParam).value.vkCode % 0x1_0000
  {
    if nCode != 0 || (wParam != WM_KEYDOWN && wParam != WM_SYSKEYDOWN) then None
    else match ctx.ptrToStructure(lParam)
      case None => None
      case Some(kbdll) =>
        var key := (kbdll.vkCode % 0x1_0000) as VirtualKey;
        if key in ctx.modifiers then None else Some(key)
  }

  /** The command lookup the hook makes for an event, if it gets that far. */
  function CommandLookup(ctx: HookContext, nCode: int, wParam: nat, lParam: int): Option<Thrown<seq<Command>>> {
    match EventKey(ctx, nCode, wParam, lParam)
    case None => None
    case Some(key) => Some(ctx.getCommands(Keybind(PressedModifiers(ctx.modifiers, ctx.getKeyState), key)))
  }

  /** A key-down of a key whose struct can be read and that is not a modifier is always looked up. */
  lemma KeyDownIsLookedUp(ctx: HookContext, nCode: int, wParam: nat, lParam: int)
    requires nCode == 0 && (wParam == WM_KEYDOWN || wParam == WM_SYSKEYDOWN)
    requires ctx.ptrToStructure(lParam).Some?
    requires ctx.ptrToStructure(lParam).value.vkCode % 0x1_0000 !in ctx.modifiers
    ensures EventKey(ctx, nCode, wParam, lParam) == Some(ctx.ptrToStructure(lParam).value.vkCode % 0x1_0000)
  {
  }

  datatype KeyboardHook = NotInstalled | Installed(handle: nat) | Unhooked(handle: nat)

  /** Disposing the hook's handle unhooks an installed hook and does nothing otherwise. */
  function Release(hook: KeyboardHook): (r: KeyboardHook)
    ensures hook.Installed? ==> r == Unhooked(hook.handle)
    ensures !hook.Installed? ==> r == hook
  {
    match hook
    case Installed(h) => Unhooked(h)
    case _ => hook
  }

  class KeybindHook {
    /** The handle that unhooks the keyboard hook (_unhookKeyboardHook). */
    var keyboardHook: KeyboardHook
    var disposedValue: bool

    constructor ()
      ensures keyboardHook == NotInstalled && !disposedValue
    {
      keyboardHook := NotInstalled;
      disposedValue := false;
    }

    /** Stores the handle returned by SetWindowsHookEx for the low-level keyboard hook. */
    method PostInitialize(handle: nat)
      modifies this
      ensures keyboardHook == Installed(handle) && disposedValue == old(disposedValue)
    {
      keyboardHook := Installed(handle);
    }

    /**
     * The hook procedure proper. An exception from a collaborator is returned as Threw.
     * The event is suppressed exactly when the keybind's commands were looked up, were not
     * empty, and all ran in order; otherwise it goes to the next hook.
     */
    method LowLevelKeyboardProc(ctx: HookContext, nCode: int, wParam: nat, lParam: int)
      returns (outcome: Thrown<HookResult>, executed: seq<Command>)
      ensures match CommandLookup(ctx, nCode, wParam, lParam)
              case None => outcome == Returned(CallNextHook(nCode, wParam, lParam)) && executed == []
              case Some(Threw(e)) => outcome == Threw(e) && executed == []
              case Some(Returned(commands)) => outcome.Returned? && executed == commands
      ensures outcome == Returned(Suppress) <==> executed != []
      ensures outcome.Returned? && outcome.value != Suppress ==> outcome.value == CallNextHook(nCode, wParam, lParam)
    {
      if nCode != 0 || (wParam != WM_KEYDOWN && wParam != WM_SYSKEYDOWN) {
        return Returned(CallNextHook(nCode, wParam, lParam)), [];
      }

      var read := ctx.ptrToStructure(lParam);
      if read.None? {
        return Returned(CallNextHook(nCode, wParam, lParam)), [];
      }
      var key := (read.value.vkCode % 0x1_0000) as VirtualKey;

      if key in ctx.modifiers {
        return Returned(CallNextHook(nCode, wParam, lParam)), [];
      }

      var keybind := GetKeybindForKey(ctx, key);
      var handled;
      handled, executed := DoKeyboardEvent(ctx, keybind);
      if handled.Threw? {
        return Threw(handled.exception), executed;
      }
      if handled.value {
        return Returned(Suppress), executed;
      }
      outcome := Returned(CallNextHook(nCode, wParam, lParam));
    }

    /**
     * The procedure registered with the OS: it never throws. An exception is reported to the
     * context and the event is passed on.
     */
    method LowLevelKeyboardProcWrapper(ctx: HookContext, nCode: int, wParam: nat, lParam: int)
      returns (r: HookResult, reported: Option<UncaughtException>, executed: seq<Command>)
      ensures r == Suppress || r == CallNextHook(nCode, wParam, lParam)
      ensures r == Suppress <==> executed != []
      ensures CommandLookup(ctx, nCode, wParam, lParam).None? ==> r == CallNextHook(nCode, wParam, lParam) && executed == []
      ensures reported.Some? <==> CommandLookup(ctx, nCode, wParam, lParam).Some?
                                  && CommandLookup(ctx, nCode, wParam, lParam).value.Threw?
      ensures reported.Some? ==>
                reported.value == UncaughtException("LowLevelKeyboardProc", CommandLookup(ctx, nCode, wParam, lParam).value.exception)
                && r == CallNextHook(nCode, wParam, lParam)
      ensures CommandLookup(ctx, nCode, wParam, lParam).Some? && CommandLookup(ctx, nCode, wParam, lParam).value.Returned?
              ==> executed == CommandLookup(ctx, nCode, wParam, lParam).value.value
    {
      var outcome;
      outcome, executed := LowLevelKeyboardProc(ctx, nCode, wParam, lParam);
      match outcome
      case Returned(result) =>
        r, reported := result, None;
      case Threw(e) =>
        r, reported := CallNextHook(nCode, wParam, lParam), Some(UncaughtException("LowLevelKeyboardProc", e));
    }

    /** The keybind for an event key: the pressed modifiers, in configured order, and the key. */
    method GetKeybindForKey(ctx: HookContext, eventKey: VirtualKey) returns (keybind: Keybind)
      ensures keybind.key == eventKey
      ensures keybind.modifiers == PressedModifiers(ctx.modifiers, ctx.getKeyState)
    {
      var pressedModifiers: seq<VirtualKey> := [];
      for i := 0 to |ctx.modifiers|
        invariant pressedModifiers == PressedModifiers(ctx.modifiers[..i], ctx.getKeyState)
      {
        var modifier := ctx.modifiers[i];
        if IsModifierPressed(ctx.getKeyState, modifier) {
          pressedModifiers := pressedModifiers + [modifier];
        }
        assert ctx.modifiers[..i + 1][..i] == ctx.modifiers[..i];
      }
      assert ctx.modifiers[..|ctx.modifiers|] == ctx.modifiers;
      keybind := Keybind(pressedModifiers, eventKey);
    }

    /**
     * Looks up the keybind's commands and runs each, in order; reports whether there was any.
     * An exception from the lookup is returned as Threw, before any command runs.
     */
    method DoKeyboardEvent(ctx: HookContext, keybind: Keybind) returns (handled: Thrown<bool>, executed: seq<Command>)
      ensures ctx.getCommands(keybind).Threw? ==> handled == Threw(ctx.getCommands(keybind).exception) && executed == []
      ensures ctx.getCommands(keybind).Returned? ==> executed == ctx.getCommands(keybind).value
      ensures handled == Returned(true) <==> executed != []
      ensures ctx.getCommands(keybind).Returned? ==> handled.Returned?
    {
      var lookup := ctx.getCommands(keybind);
      if lookup.Threw? {
        return Threw(lookup.exception), [];
      }
      var commands := lookup.value;
      if |commands| == 0 {
        return Returned(false), [];
      }
      executed := [];
      for i := 0 to |commands|
        invariant executed == commands[..i]
      {
        executed := executed + [commands[i]];
      }
      assert commands[..|commands|] == commands;
      handled := Returned(true);
    }

    /**
     * Dispose(bool): the first call marks the hook disposed and, when disposing managed state,
     * releases the keyboard hook; every later call does nothing.
     */
    method DisposeCore(disposing: bool)
      modifies this
      ensures disposedValue
      ensures old(disposedValue) ==> keyboardHook == old(keyboardHook)
      ensures !old(disposedValue) ==> keyboardHook == (if disposing then Release(old(keyboardHook)) else old(keyboardHook))
    {
      if !disposedValue {
        if disposing {
          keyboardHook := Release(keyboardHook);
        }
        disposedValue := true;
      }
    }

    /** Dispose(): Dispose(disposing: true). */
    method Dispose()
      modifies this
      ensures disposedValue
      ensures keyboardHook == if old(disposedValue) then old(keyboardHook) else Release(old(keyboardHook))
    {
      DisposeCore(true);
    }
  }

  /** Disposing twice leaves the hook as disposing once does. */
  method DisposeTwice(hook: KeybindHook)
    modifies hook
    ensures hook.disposedValue
    ensures hook.keyboardHook == if old(hook.disposedValue) then old(hook.keyboardHook) else Release(old(hook.keyboardHook))
  {
    hook.Dispose();
    ghost var once := hook.keyboardHook;
    hook.Dispose();
    assert hook.keyboardHook == once;
  }
}
