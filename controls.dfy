/*
 * A hand controller: the tools it carries (one of them active), and the focus
 * lock that halts the active tool while something else — a menu, a gesture —
 * owns the controller's input.  Tools are engine components, named by id; the
 * controller keeps their types, their enabled flags and which of them are
 * still alive (the engine's overloaded null test).
 */
module Controls {
  import opened Engine

  type ToolId = nat

  // ---------------------------------------------------------------------
  // The active tool and its enabled flag, on values
  // ---------------------------------------------------------------------

  /** `ActiveTool`: the tool at the tool index, or none when the index is past the end. */
  function Active(tools: seq<ToolId>, index: nat): Option<ToolId> {
    if index >= |tools| then None else Some(tools[index])
  }

  /** The `ToolEnabled` getter: there is a live active tool and it is enabled. */
  predicate IsEnabled(tools: seq<ToolId>, index: nat, live: set<ToolId>, enabled: map<ToolId, bool>) {
    match Active(tools, index)
    case None => false
    case Some(t) => t in live && t in enabled && enabled[t]
  }

  /** The enabled flags after the `ToolEnabled` setter stores `value`. */
  function Switched(tools: seq<ToolId>, index: nat, live: set<ToolId>, enabled: map<ToolId, bool>, value: bool): map<ToolId, bool> {
    match Active(tools, index)
    case None => enabled
    case Some(t) => if t in live then enabled[t := value] else enabled
  }

  /** Every tool of the list has an enabled flag. */
  predicate Flagged(tools: seq<ToolId>, enabled: map<ToolId, bool>) {
    forall k | 0 <= k < |tools| :: tools[k] in enabled
  }

  /**
   * The setter reaches the active tool only: afterwards `ToolEnabled` reads
   * back `value` exactly when there is a live active tool, and every other
   * flag is as it was.  Without a live active tool the setter does nothing.
   */
  lemma SwitchedSets(tools: seq<ToolId>, index: nat, live: set<ToolId>, enabled: map<ToolId, bool>, value: bool)
    requires Flagged(tools, enabled)
    ensures var r := Switched(tools, index, live, enabled, value);
            && r.Keys == enabled.Keys
            && (forall t | t in enabled && Active(tools, index) != Some(t) :: r[t] == enabled[t])
            && (IsEnabled(tools, index, live, r) <==> value && index < |tools| && tools[index] in live)
            && (index >= |tools| || tools[index] !in live ==> r == enabled)
  {
  }

  /**
   * Halting the tool for a lock and resuming it on release leaves the active
   * tool enabled whatever it was before; when it was enabled before, the
   * flags are exactly as they were.
   */
  lemma HaltResume(tools: seq<ToolId>, index: nat, live: set<ToolId>, enabled: map<ToolId, bool>)
    requires Flagged(tools, enabled)
    ensures var halted := Switched(tools, index, live, enabled, false);
            && !IsEnabled(tools, index, live, halted)
            && Switched(tools, index, live, halted, true) == Switched(tools, index, live, enabled, true)
            && (IsEnabled(tools, index, live, enabled) ==> Switched(tools, index, live, halted, true) == enabled)
  {
    if index < |tools| && tools[index] in live {
      var t := tools[index];
      var halted := enabled[t := false];
      assert halted[t := true] == enabled[t := true];
    }
  }

  // ---------------------------------------------------------------------
  // Starting up: which tools end up enabled
  // ---------------------------------------------------------------------

  /**
   * The start-up pass over `tools[i..]`, as meant: every live tool is
   * disabled except the one at `index`, which is enabled; destroyed tools
   * are skipped.
   */
  function StartFrom(tools: seq<ToolId>, live: set<ToolId>, enabled: map<ToolId, bool>, index: nat, i: nat): map<ToolId, bool>
    decreases |tools| - i
  {
    if i >= |tools| then enabled
    else
      var t := tools[i];
      StartFrom(tools, live, if t in live then enabled[t := i == index] else enabled, index, i + 1)
  }

  /**
   * After the pass exactly the live tool at the index is enabled among the
   * live tools it visits; destroyed tools and tools it does not visit keep
   * their flags.
   */
  lemma {:induction false} StartEnablesActiveOnly(tools: seq<ToolId>, live: set<ToolId>, enabled: map<ToolId, bool>, index: nat, i: nat)
    requires NoDup(tools) && Flagged(tools, enabled) && i <= |tools|
    ensures var r := StartFrom(tools, live, enabled, index, i);
            && r.Keys == enabled.Keys
            && (forall k | i <= k < |tools| && tools[k] in live :: r[tools[k]] == (k == index))
            && (forall t | t in enabled && (t !in live || t !in tools[i..]) :: r[t] == enabled[t])
    decreases |tools| - i
  {
    if i < |tools| {
      var t := tools[i];
      var e := if t in live then enabled[t := i == index] else enabled;
      StartEnablesActiveOnly(tools, live, e, index, i + 1);
      var r := StartFrom(tools, live, e, index, i + 1);
      assert tools[i..] == [t] + tools[i + 1..];
      assert t !in tools[i + 1..] by {
        forall k | i + 1 <= k < |tools| ensures tools[k] != t { }
      }
    }
  }

  /** What the start-up pass leaves behind as written, and whether it threw. */
  datatype Start = Start(enabled: map<ToolId, bool>, threw: bool)

  /**
   * The start-up pass over `tools[i..]` as written: a tool that fails the
   * "not active and alive" test takes the enabling branch, and there a
   * destroyed tool is dereferenced, which throws and ends the pass.
   */
  function StartFromAsWritten(tools: seq<ToolId>, live: set<ToolId>, enabled: map<ToolId, bool>, index: nat, i: nat): Start
    decreases |tools| - i
  {
    if i >= |tools| then Start(enabled, false)
    else
      var t := tools[i];
      if i != index && t in live then StartFromAsWritten(tools, live, enabled[t := false], index, i + 1)
      else if t !in live then Start(enabled, true)
      else StartFromAsWritten(tools, live, enabled[t := true], index, i + 1)
  }

  /**
   * The pass as written throws exactly when some visited tool is destroyed,
   * whether or not it is the active one; when none is, it agrees with the
   * intended pass.
   */
  lemma {:induction false} StartAsWrittenThrows(tools: seq<ToolId>, live: set<ToolId>, enabled: map<ToolId, bool>, index: nat, i: nat)
    requires i <= |tools|
    ensures var r := StartFromAsWritten(tools, live, enabled, index, i);
            && (r.threw <==> exists k | i <= k < |tools| :: tools[k] !in live)
            && (!r.threw ==> r.enabled == StartFrom(tools, live, enabled, index, i))
    decreases |tools| - i
  {
    if i < |tools| {
      var t := tools[i];
      if t in live {
        StartAsWrittenThrows(tools, live, enabled[t := i == index], index, i + 1);
        if exists k | i <= k < |tools| :: tools[k] !in live {
          var k :| i <= k < |tools| && tools[k] !in live;
          assert k != i;
        }
      }
    }
  }

  /**
   * When every tool is alive the pass as written does not throw, and
   * afterwards exactly the tool at the index is enabled.
   */
  lemma AllLiveStartEnablesActiveOnly(tools: seq<ToolId>, live: set<ToolId>, enabled: map<ToolId, bool>, index: nat)
    requires NoDup(tools) && Flagged(tools, enabled)
    requires forall k | 0 <= k < |tools| :: tools[k] in live
    ensures var r := StartFromAsWritten(tools, live, enabled, index, 0);
            && !r.threw && r.enabled.Keys == enabled.Keys
            && forall k | 0 <= k < |tools| :: r.enabled[tools[k]] == (k == index)
  {
    StartAsWrittenThrows(tools, live, enabled, index, 0);
    StartEnablesActiveOnly(tools, live, enabled, index, 0);
  }

  /**
   * Two tools, the first active and the second destroyed: the pass as
   * written throws on the second, which the liveness test was there to
   * skip, while the intended pass just enables the first.
   */
  lemma DestroyedIdleToolAbortsStart(a: ToolId, b: ToolId, enabled: map<ToolId, bool>)
    requires a != b
    ensures StartFromAsWritten([a, b], {a}, enabled, 0, 0) == Start(enabled[a := true], true)
    ensures StartFrom([a, b], {a}, enabled, 0, 0) == enabled[a := true]
  {
    var e := enabled[a := true];
    assert StartFromAsWritten([a, b], {a}, enabled, 0, 0) == StartFromAsWritten([a, b], {a}, e, 0, 1);
    assert StartFrom([a, b], {a}, enabled, 0, 0) == StartFrom([a, b], {a}, e, 0, 1) == StartFrom([a, b], {a}, e, 0, 2);
  }

  /** `Tools.Any(tool => toolType.IsAssignableFrom(tool.GetType()))`. */
  predicate HasAssignable(tools: seq<ToolId>, toolType: map<ToolId, TypeId>, t: TypeId, types: Types) {
    exists k | 0 <= k < |tools| :: tools[k] in toolType && types.isAssignableFrom(t, toolType[tools[k]])
  }

  // ---------------------------------------------------------------------
  // The focus lock
  // ---------------------------------------------------------------------

  class Lock {
    var isInvalidating: bool
    var isValid: bool
    var keepsTool: bool
    const controller: Controller?

    /** `Lock.Invalid`: never valid, bound to no controller. */
    constructor Invalid()
      ensures !isValid && !isInvalidating && !keepsTool && controller == null
    {
      isValid := false;
      isInvalidating := false;
      keepsTool := false;
      controller := null;
    }

    /** Takes the focus: installs itself as the controller's lock, then halts the active tool unless `keepTool`. */
    constructor (controller: Controller, keepTool: bool)
      requires controller.Valid()
      modifies controller`lock, controller`enabled
      ensures isValid && !isInvalidating && keepsTool == keepTool && this.controller == controller
      ensures controller.lock == this && controller.Valid()
      ensures controller.enabled ==
              if keepTool then old(controller.enabled)
              else Switched(controller.tools, controller.toolIndex, controller.live, old(controller.enabled), false)
    {
      isValid := true;
      isInvalidating := false;
      keepsTool := keepTool;
      this.controller := controller;
      new;
      controller.lock := this;
      controller.OnLock(keepTool);
    }

    /**
     * A valid lock detaches from its controller, resumes the active tool
     * unless it kept it, and becomes invalid; releasing an invalid lock
     * changes nothing.
     */
    method Release()
      requires isValid ==> controller != null && controller.Valid()
      modifies this`isValid, ({controller} - {null})`lock, ({controller} - {null})`enabled
      ensures !isValid
      ensures old(isValid) ==>
                && controller.lock == null && controller.Valid() && controller.CanAcquireFocus()
                && controller.tools == old(controller.tools) && controller.toolIndex == old(controller.toolIndex)
                && controller.live == old(controller.live) && controller.toolType == old(controller.toolType)
                && controller.enabled ==
                   if keepsTool then old(controller.enabled)
                   else Switched(controller.tools, controller.toolIndex, controller.live, old(controller.enabled), true)
      ensures !old(isValid) && controller != null ==> unchanged(controller)
    {
      if isValid {
        controller.lock := null;
        controller.OnUnlock(keepsTool);
        isValid := false;
      }
    }

    /** Asks for a release once no button is held: a valid lock only marks itself as invalidating. */
    method SafeRelease()
      modifies this`isInvalidating
      ensures isInvalidating == (old(isInvalidating) || isValid)
    {
      if isValid {
        isInvalidating := true;
      }
    }
  }

  // ---------------------------------------------------------------------
  // The controller
  // ---------------------------------------------------------------------

  class Controller {
    const types: Types
    const invalid: Lock                  // the shared `Lock.Invalid`
    var lock: Lock?
    var tools: seq<ToolId>
    var toolType: map<ToolId, TypeId>
    var enabled: map<ToolId, bool>
    var live: set<ToolId>
    var toolIndex: nat
    var started: bool

    /**
     * Each tool is listed once and has a type and an enabled flag; the
     * shared invalid lock stays invalid; the installed lock is this
     * controller's (or the invalid one), and a valid one certainly is.
     */
    ghost predicate Valid()
      reads this, lock, invalid
    {
      && NoDup(tools)
      && Flagged(tools, enabled)
      && (forall k | 0 <= k < |tools| :: tools[k] in toolType)
      && !invalid.isValid && invalid.controller == null
      && (lock != null ==> lock.controller == this || lock.controller == null)
      && (lock != null && lock.isValid ==> lock.controller == this)
    }

    /** A fresh controller: no tools, index 0, the invalid lock installed. */
    constructor (types: Types, invalid: Lock)
      requires !invalid.isValid && invalid.controller == null
      ensures Valid() && CanAcquireFocus() && !ToolEnabled()
      ensures this.types == types && this.invalid == invalid && lock == invalid
      ensures tools == [] && toolIndex == 0 && !started
    {
      this.types := types;
      this.invalid := invalid;
      lock := invalid;
      tools := [];
      toolType := map[];
      enabled := map[];
      live := {};
      toolIndex := 0;
      started := false;
    }

    /** Nobody holds a valid lock on this controller. */
    predicate CanAcquireFocus()
      reads this, lock
    {
      lock == null || !lock.isValid
    }

    function ActiveTool(): Option<ToolId>
      reads this`tools, this`toolIndex
    {
      Active(tools, toolIndex)
    }

    predicate ToolEnabled()
      reads this`tools, this`toolIndex, this`live, this`enabled
    {
      IsEnabled(tools, toolIndex, live, enabled)
    }

    /** The `ToolEnabled` setter: reaches the active tool when it is alive. */
    method SetToolEnabled(value: bool)
      requires Valid()
      modifies this`enabled
      ensures Valid()
      ensures enabled == Switched(tools, toolIndex, live, old(enabled), value)
      ensures enabled.Keys == old(enabled).Keys
    {
      match ActiveTool()
      case Some(t) =>
        if t in live {
          enabled := enabled[t := value];
        }
      case None =>
    }

    method OnLock(keepTool: bool)
      requires Valid()
      modifies this`enabled
      ensures Valid()
      ensures enabled == if keepTool then old(enabled) else Switched(tools, toolIndex, live, old(enabled), false)
    {
      if !keepTool {
        SetToolEnabled(false);
      }
    }

    method OnUnlock(keepTool: bool)
      requires Valid()
      modifies this`enabled
      ensures Valid()
      ensures enabled == if keepTool then old(enabled) else Switched(tools, toolIndex, live, old(enabled), true)
    {
      if !keepTool {
        SetToolEnabled(true);
      }
    }

    /**
     * Succeeds exactly when nobody holds the focus; then a new valid lock,
     * bound to this controller, is installed and the focus is taken.  On
     * failure there is no lock and nothing changes.
     */
    method TryAcquireFocus(keepTool: bool) returns (ok: bool, lockObj: Lock?)
      requires Valid()
      modifies this`lock, this`enabled
      ensures Valid()
      ensures ok == old(CanAcquireFocus())
      ensures ok ==>
                && lockObj != null && fresh(lockObj) && lock == lockObj && !CanAcquireFocus()
                && lockObj.isValid && !lockObj.isInvalidating && lockObj.keepsTool == keepTool && lockObj.controller == this
                && enabled == if keepTool then old(enabled) else Switched(tools, toolIndex, live, old(enabled), false)
      ensures !ok ==> lockObj == null && lock == old(lock) && enabled == old(enabled)
    {
      lockObj := null;
      if CanAcquireFocus() {
        lockObj := new Lock(this, keepTool);
        ok := true;
      } else {
        ok := false;
      }
    }

    /** The obsolete `AcquireFocus(out Lock)`: `TryAcquireFocus` that halts the tool. */
    method AcquireFocusOut() returns (ok: bool, lockObj: Lock?)
      requires Valid()
      modifies this`lock, this`enabled
      ensures Valid()
      ensures ok == old(CanAcquireFocus())
      ensures ok ==>
                && lockObj != null && fresh(lockObj) && lock == lockObj && lockObj.isValid && !lockObj.keepsTool
                && enabled == Switched(tools, toolIndex, live, old(enabled), false)
      ensures !ok ==> lockObj == null && lock == old(lock) && enabled == old(enabled)
    {
      ok, lockObj := TryAcquireFocus(false);
    }

    /** Always returns a lock: a new valid one when the focus was free, the invalid one otherwise. */
    method AcquireFocus(keepTool: bool) returns (l: Lock)
      requires Valid()
      modifies this`lock, this`enabled
      ensures Valid()
      ensures l.isValid == old(CanAcquireFocus())
      ensures old(CanAcquireFocus()) ==>
                && fresh(l) && lock == l && l.controller == this && l.keepsTool == keepTool
                && enabled == if keepTool then old(enabled) else Switched(tools, toolIndex, live, old(enabled), false)
      ensures !old(CanAcquireFocus()) ==> l == invalid && lock == old(lock) && enabled == old(enabled)
    {
      var ok, lockObj := TryAcquireFocus(keepTool);
      if ok {
        l := lockObj;
      } else {
        l := invalid;
      }
    }

    /**
     * Adds one new, disabled tool of type `t` unless `t` is not a tool type
     * or a tool of a type assignable to `t` is already there; `component` is
     * the component the engine attaches.  Afterwards a tool of an assignable
     * type is present, so adding the same type again does nothing.
     */
    method AddTool(t: TypeId, component: ToolId)
      requires Valid() && component !in toolType
      modifies this`tools, this`toolType, this`enabled, this`live
      ensures Valid()
      ensures if types.isToolSubclass(t) && !HasAssignable(old(tools), old(toolType), t, types) then
                && tools == old(tools) + [component] && toolType == old(toolType)[component := t]
                && enabled == old(enabled)[component := false] && live == old(live) + {component}
              else
                tools == old(tools) && toolType == old(toolType) && enabled == old(enabled) && live == old(live)
      ensures types.isToolSubclass(t) && types.isAssignableFrom(t, t) ==> HasAssignable(tools, toolType, t, types)
    {
      if types.isToolSubclass(t) && !HasAssignable(tools, toolType, t, types) {
        tools := tools + [component];
        toolType := toolType[component := t];
        live := live + {component};
        enabled := enabled[component := false];
        assert tools[|tools| - 1] == component;
      }
    }

    /**
     * The start-up pass as meant: every live tool but the active one is
     * disabled, the active one is enabled, destroyed tools are skipped.
     */
    method OnStart()
      requires Valid()
      modifies this`enabled, this`started
      ensures Valid() && started
      ensures enabled == StartFrom(tools, live, old(enabled), toolIndex, 0)
    {
      var i := 0;
      while i < |tools|
        invariant i <= |tools|
        invariant StartFrom(tools, live, enabled, toolIndex, i) == StartFrom(tools, live, old(enabled), toolIndex, 0)
        invariant enabled.Keys == old(enabled).Keys
      {
        var t := tools[i];
        if i != toolIndex {
          if t in live {
            enabled := enabled[t := false];
          }
        } else if t in live {
          enabled := enabled[t := true];
        }
        i := i + 1;
      }
      started := true;
    }

    /**
     * The start-up pass as written: `threw` says whether it dereferenced a
     * destroyed tool, after which nothing else is changed and the controller
     * is not marked as started.
     */
    method OnStartAsWritten() returns (threw: bool)
      requires Valid()
      modifies this`enabled, this`started
      ensures Valid()
      ensures Start(enabled, threw) == StartFromAsWritten(tools, live, old(enabled), toolIndex, 0)
      ensures started == (old(started) || !threw)
    {
      threw := false;
      var i := 0;
      while i < |tools|
        invariant i <= |tools|
        invariant StartFromAsWritten(tools, live, enabled, toolIndex, i) == StartFromAsWritten(tools, live, old(enabled), toolIndex, 0)
        invariant enabled.Keys == old(enabled).Keys
        invariant started == old(started)
      {
        var t := tools[i];
        if i != toolIndex && t in live {
          enabled := enabled[t := false];
        } else if t !in live {
          threw := true;
          return;
        } else {
          enabled := enabled[t := true];
        }
        i := i + 1;
      }
      started := true;
    }

    /**
     * Releases the lock unless a button is held; `anyPressed` stands for the
     * scan over the controller's buttons.
     */
    method TryReleaseLock(anyPressed: bool)
      requires Valid() && lock != null
      modifies this`lock, this`enabled, lock`isValid
      ensures Valid() && started == old(started)
      ensures old(lock).keepsTool == old(lock.keepsTool) && old(lock).isInvalidating == old(lock.isInvalidating)
      ensures tools == old(tools) && toolIndex == old(toolIndex) && live == old(live) && toolType == old(toolType)
      ensures anyPressed ==> lock == old(lock) && enabled == old(enabled) && lock.isValid == old(lock.isValid)
      ensures !anyPressed && old(lock.isValid) ==>
                && lock == null && !old(lock).isValid
                && enabled == if old(lock.keepsTool) then old(enabled) else Switched(tools, toolIndex, live, old(enabled), true)
      ensures !anyPressed && !old(lock.isValid) ==> lock == old(lock) && enabled == old(enabled) && !lock.isValid
    {
      if anyPressed {
        return;
      }
      lock.Release();
    }

    /**
     * Each frame: an invalidating lock is released once no button is held;
     * otherwise the lock and the tools stay as they are.
     */
    method OnUpdate(anyPressed: bool)
      requires Valid()
      modifies this`lock, this`enabled, ({lock} - {null})`isValid
      ensures Valid() && started == old(started)
      ensures old(lock) != null ==>
                old(lock).keepsTool == old(lock.keepsTool) && old(lock).isInvalidating == old(lock.isInvalidating)
      ensures tools == old(tools) && toolIndex == old(toolIndex) && live == old(live) && toolType == old(toolType)
      ensures var releases := old(lock) != null && old(lock.isInvalidating) && old(lock.isValid) && !anyPressed;
              && (releases ==>
                    && lock == null && !old(lock).isValid && CanAcquireFocus()
                    && enabled == if old(lock.keepsTool) then old(enabled) else Switched(tools, toolIndex, live, old(enabled), true))
              && (!releases ==> lock == old(lock) && enabled == old(enabled) && (lock != null ==> lock.isValid == old(lock.isValid)))
    {
      if lock != null && lock.isInvalidating {
        TryReleaseLock(anyPressed);
      }
    }
  }
}
