/*
 * VRManager, the plug-in's entry point: it boots the headset, watches the
 * scene for cameras it has not judged yet and hands each one, as the game's
 * interpreter judges it, to the VR camera (to copy) or to VRGUI (to capture);
 * it also owns the image-effects switch and the current control mode.  The
 * static `VR` helper's cached quitting flag lives here too.
 */
module Manager {
  import opened Engine
  import opened Synthesis
  import opened GuiCapture
  import opened StereoCamera
  import opened ManagerRules

  // ---------------------------------------------------------------------
  // The headset and the quitting flag
  // ---------------------------------------------------------------------

  datatype HmdType = Oculus | Vive | Other

  /** OnAwake's reading of the tracking system's name. */
  function HmdOf(trackingSystem: string): (h: HmdType)
    ensures h == Oculus <==> trackingSystem == "oculus"
    ensures h == Vive <==> trackingSystem == "lighthouse"
    ensures h == Other <==> trackingSystem != "oculus" && trackingSystem != "lighthouse"
  {
    if trackingSystem == "oculus" then Oculus
    else if trackingSystem == "lighthouse" then Vive
    else Other
  }

  /** The static `VR` helper, as far as it keeps state of its own. */
  class VR {
    var quitting: bool                   // _Quitting

    constructor ()
      ensures !quitting
    {
      quitting := false;
    }

    /**
     * `VR.Quitting`: the cached flag, or else the interpreter's answer, which
     * is cached so that it outlives the interpreter.
     */
    method Quitting(applicationIsQuitting: bool) returns (q: bool)
      modifies this`quitting
      ensures q == (old(quitting) || applicationIsQuitting)
      ensures quitting == q
    {
      if !quitting {
        quitting := applicationIsQuitting;
      }
      q := quitting;
    }
  }

  /**
   * The answers of successive `VR.Quitting` reads, starting from the cached
   * flag `cached`, when the interpreter would answer `asked[k]` at read `k`.
   */
  function QuittingAnswers(cached: bool, asked: seq<bool>): (r: seq<bool>)
    ensures |r| == |asked|
    decreases |asked|
  {
    if asked == [] then []
    else
      var q := cached || asked[0];
      [q] + QuittingAnswers(q, asked[1..])
  }

  /** Read `k` answers true exactly when the flag was cached or the interpreter said so at some read up to `k`. */
  lemma {:induction false} QuittingAnswersAre(cached: bool, asked: seq<bool>, k: nat)
    requires k < |asked|
    ensures QuittingAnswers(cached, asked)[k] <==> cached || true in asked[..k + 1]
    decreases k
  {
    if k > 0 {
      QuittingAnswersAre(cached || asked[0], asked[1..], k - 1);
      assert asked[..k + 1] == [asked[0]] + asked[1..][..k];
    }
  }

  /** Once `VR.Quitting` has answered true, it answers true for good. */
  lemma QuittingSticks(cached: bool, asked: seq<bool>, i: nat, j: nat)
    requires i <= j < |asked|
    requires QuittingAnswers(cached, asked)[i]
    ensures QuittingAnswers(cached, asked)[j]
  {
    QuittingAnswersAre(cached, asked, i);
    QuittingAnswersAre(cached, asked, j);
    assert asked[..j + 1][..i + 1] == asked[..i + 1];
  }

  // ---------------------------------------------------------------------
  // The camera buffer
  // ---------------------------------------------------------------------

  /** `Camera.GetAllCameras`: the engine writes the enabled cameras into the first slots of the buffer. */
  method GetAllCameras(all: seq<CameraId>, buffer: array<Option<CameraId>>)
    requires |all| <= buffer.Length
    modifies buffer
    ensures forall i | 0 <= i < |all| :: buffer[i] == Some(all[i])
    ensures forall i | |all| <= i < buffer.Length :: buffer[i] == old(buffer[i])
  {
    forall i | 0 <= i < |all| {
      buffer[i] := Some(all[i]);
    }
  }

  /** The buffer while an update walks it: the slots from `i` on hold the listed cameras, every other slot is empty. */
  ghost predicate Slots(buf: array<Option<CameraId>>, all: seq<CameraId>, i: nat)
    reads buf
  {
    && |all| <= buf.Length
    && forall k | 0 <= k < buf.Length :: buf[k] == if i <= k < |all| then Some(all[k]) else None
  }

  /** Read slot `i` of the buffer and clear it. */
  method Take(buf: array<Option<CameraId>>, all: seq<CameraId>, i: nat) returns (cam: CameraId)
    requires i < |all| && Slots(buf, all, i)
    modifies buf
    ensures cam == all[i] && Slots(buf, all, i + 1)
  {
    cam := buf[i].value;
    buf[i] := None;
  }

  // ---------------------------------------------------------------------
  // The manager
  // ---------------------------------------------------------------------

  class VRManager {
    const scene: Scene
    const camera: VRCamera               // VR.Camera
    const gui: VRGUI                     // VR.GUI, the _Gui it makes sure exists
    const globals: VR
    const interpreter: Interpreter       // Interpreter
    const types: Types

    var hmd: HmdType                     // HMD
    var checked: set<CameraId>           // _CheckedCameras
    var buffer: array<Option<CameraId>>  // _cameraBuffer
    var effectsEnabled: bool             // _IsEnabledEffects
    var mode: Option<TypeId>             // the type of Mode, the current ControlMode component
    var modeType: Option<TypeId>         // ModeType
    ghost var dispatched: seq<Action>    // every call made on the VR camera and VRGUI, in order

    /** The manager, the VR camera and VRGUI share one scene and one interpreter, and each is consistent. */
    ghost predicate Ready()
      reads this, scene, camera`blueprint, camera`slaves, camera`events, gui
    {
      && camera.scene == scene && gui.scene == scene && camera.gui == gui
      && camera.interpreter == interpreter && gui.interpreter == interpreter
      && gui.Valid() && camera.Valid()
    }

    /** Between updates the scratch buffer holds no camera. */
    ghost predicate Valid()
      reads this, scene, camera`blueprint, camera`slaves, camera`events, gui, buffer
    {
      && Ready()
      && forall i | 0 <= i < buffer.Length :: buffer[i].None?
    }

    /**
     * Create<T> with the OnAwake it triggers: the headset is read from the
     * tracking system's name, no camera is checked, the buffer is empty and,
     * when the settings ask for it, effects are enabled.
     */
    constructor (scene: Scene, camera: VRCamera, gui: VRGUI, globals: VR, interpreter: Interpreter, types: Types,
                 trackingSystem: string, applyEffects: bool)
      requires camera.scene == scene && gui.scene == scene && camera.gui == gui
      requires camera.interpreter == interpreter && gui.interpreter == interpreter
      requires gui.Valid() && camera.Valid()
      ensures Valid()
      ensures this.scene == scene && this.camera == camera && this.gui == gui && this.globals == globals
      ensures this.interpreter == interpreter && this.types == types
      ensures hmd == HmdOf(trackingSystem) && checked == {} && buffer.Length == 0
      ensures effectsEnabled == applyEffects && mode.None? && modeType.None?
      ensures dispatched == if applyEffects && !BlueprintThrows(camera.Inputs(), camera.State())
                               && BlueprintView(camera.Inputs(), camera.State()).Some?
                            then [EffectsApplied] else []
    {
      this.scene := scene;
      this.camera := camera;
      this.gui := gui;
      this.globals := globals;
      this.interpreter := interpreter;
      this.types := types;
      hmd := HmdOf(trackingSystem);
      checked := {};
      buffer := new Option<CameraId>[0];
      effectsEnabled := false;
      mode := None;
      modeType := None;
      dispatched := [];
      new;
      if applyEffects {
        // an exception of the getter ends Create after the manager exists
        var _ := EnableEffects();
      }
    }

    /**
     * ApplyEffects: the image effects are copied from the camera the
     * Blueprint getter returns.  The getter's exception, or a null blueprint
     * dereferenced by CopyFX, ends it before anything is copied.
     */
    method ApplyEffects() returns (threw: bool)
      requires Ready()
      modifies this`dispatched
      ensures threw <==> BlueprintThrows(camera.Inputs(), camera.State()) || BlueprintView(camera.Inputs(), camera.State()).None?
      ensures dispatched == old(dispatched) + if threw then [] else [EffectsApplied]
    {
      var b, failed := camera.Blueprint();
      threw := failed || b.None?;
      if !threw {
        dispatched := dispatched + [EffectsApplied];
      }
    }

    /**
     * EnableEffects: switch effects on, and apply them at once when the
     * Blueprint getter returns a camera; the getter's exception ends it.
     */
    method EnableEffects() returns (threw: bool)
      requires Ready()
      modifies this`effectsEnabled, this`dispatched
      ensures effectsEnabled
      ensures threw == BlueprintThrows(camera.Inputs(), camera.State())
      ensures dispatched == old(dispatched) + if !threw && BlueprintView(camera.Inputs(), camera.State()).Some?
                                             then [EffectsApplied] else []
    {
      effectsEnabled := true;
      var b, failed := camera.Blueprint();
      threw := failed;
      if !failed && b.Some? {
        var _ := ApplyEffects();
      }
    }

    /** DisableEffects: switch effects off; nothing is undone. */
    method DisableEffects()
      modifies this`effectsEnabled
      ensures !effectsEnabled
    {
      effectsEnabled := false;
    }

    /** ToggleEffects: flip the switch, applying effects when it turns on. */
    method ToggleEffects() returns (threw: bool)
      requires Ready()
      modifies this`effectsEnabled, this`dispatched
      ensures effectsEnabled == !old(effectsEnabled)
      ensures threw <==> effectsEnabled && BlueprintThrows(camera.Inputs(), camera.State())
      ensures dispatched == old(dispatched) + if effectsEnabled && !threw && BlueprintView(camera.Inputs(), camera.State()).Some?
                                             then [EffectsApplied] else []
    {
      threw := false;
      if effectsEnabled {
        DisableEffects();
      } else {
        threw := EnableEffects();
      }
    }

    /** SetMode<T>: replace the mode component unless it already is a `t`, remembering `t` as ModeType. */
    method SetMode(t: TypeId)
      modifies this`mode, this`modeType
      ensures mode == ModeAfter(old(mode), t, types)
      ensures mode != old(mode) ==> modeType == Some(t)
      ensures old(mode).Some? && types.isAssignableFrom(t, old(mode).value) ==> modeType == old(modeType)
    {
      if mode.None? || !types.isAssignableFrom(t, mode.value) {
        modeType := Some(t);
        mode := Some(t);
      }
    }

    /** OnDisable: from now on `VR.Quitting` answers true. */
    method OnDisable()
      modifies globals`quitting
      ensures globals.quitting
    {
      globals.quitting := true;
    }

    /** OnLevelWasLoaded: forget which cameras were judged. */
    method OnLevelWasLoaded()
      modifies this`checked
      ensures checked == {}
    {
      checked := {};
    }

    /**
     * VR.Camera.Copy of a live, enabled camera.  With the Skybox copy
     * corrected it throws only for a main-camera candidate whose Blueprint
     * getter meets a destroyed slave, so never while every slave is alive,
     * and every slave stays alive; without an exception the camera ends a
     * slave.
     */
    method CopyCamera(cam: CameraId, canBeMain: bool, hasOtherConsumers: bool) returns (threw: bool)
      requires Ready() && cam in scene.live && cam in scene.cams && scene.cams[cam].enabled
      modifies this`dispatched, camera`blueprint, camera`slaves, camera`events, scene`cams, scene`slaves, scene`killers
      ensures Ready()
      ensures dispatched == old(dispatched) + [Copied(cam, canBeMain, hasOtherConsumers)]
      ensures SameCameras(old(scene.cams), scene.cams)
      ensures old(scene.slaves.Keys) <= scene.slaves.Keys
      ensures threw ==> canBeMain
      ensures !threw ==> cam in scene.slaves
      ensures old(SlavesLive(camera.Inputs(), camera.State())) ==> !threw && SlavesLive(camera.Inputs(), camera.State())
    {
      ghost var env, s := camera.Inputs(), camera.State();
      CopyGuards(env, s, cam, canBeMain, hasOtherConsumers, interpreter.isIrrelevantCamera(cam));
      CopyKeeps(env, s, cam, canBeMain, hasOtherConsumers, interpreter.isIrrelevantCamera(cam));
      threw := camera.Copy(cam, canBeMain, hasOtherConsumers);
      assert camera.Inputs() == env;
      assert Wf(camera.Inputs(), camera.State());
      assert scene.slaves.Keys <= scene.cams.Keys && scene.killers <= scene.cams.Keys;
      assert CamerasKnown(scene.canvases, scene.cams);
      assert scene.Valid();
      dispatched := dispatched + [Copied(cam, canBeMain, hasOtherConsumers)];
    }

    /**
     * VR.GUI.AddCamera of a camera this update found alive, so that its log
     * line cannot throw: only the GUI camera's depth changes in the scene.
     */
    method AddGuiCamera(cam: CameraId)
      requires Ready() && cam in scene.live && cam in scene.cams
      modifies this`dispatched, gui`mappings, gui`checked, scene`cams
      ensures Ready()
      ensures dispatched == old(dispatched) + [GuiAdded(cam)]
      ensures SameCameras(old(scene.cams), scene.cams)
      ensures gui.checked == old(gui.checked) + {cam}
      ensures old(SlavesLive(camera.Inputs(), camera.State())) ==> SlavesLive(camera.Inputs(), camera.State())
    {
      ghost var env, s := camera.Inputs(), camera.State();
      var threw := gui.AddCamera(cam);
      assert !threw;
      assert camera.State() == s.(cams := scene.cams);
      dispatched := dispatched + [GuiAdded(cam)];
    }

    /**
     * The MainCamera case: copy the camera as a main-camera candidate, then
     * apply effects if they are on.  While every slave is alive only the
     * effects can throw, exactly when the getter then returns null.
     */
    method CopyMain(cam: CameraId) returns (threw: bool)
      requires Ready() && cam in scene.live && cam in scene.cams && scene.cams[cam].enabled
      modifies this`dispatched, camera`blueprint, camera`slaves, camera`events, scene`cams, scene`slaves, scene`killers
      ensures Ready()
      ensures !threw ==> dispatched == old(dispatched) + Dispatch(cam, MainCamera, effectsEnabled)
      ensures threw ==> dispatched == old(dispatched) + [Copied(cam, true, false)]
      ensures SameCameras(old(scene.cams), scene.cams)
      ensures old(scene.slaves.Keys) <= scene.slaves.Keys
      ensures !threw ==> cam in scene.slaves
      ensures old(SlavesLive(camera.Inputs(), camera.State())) ==>
                SlavesLive(camera.Inputs(), camera.State())
                && (threw <==> effectsEnabled && BlueprintView(camera.Inputs(), camera.State()).None?)
    {
      threw := CopyCamera(cam, true, false);
      if !threw && effectsEnabled {
        BlueprintViewIs(camera.Inputs(), camera.State());
        threw := ApplyEffects();
      }
    }

    /** The GUIAndCamera case: copy the camera, telling it others consume it, then hand it to VRGUI. */
    method CopyAndShow(cam: CameraId)
      requires Ready() && cam in scene.live && cam in scene.cams && scene.cams[cam].enabled
      modifies this`dispatched, camera`blueprint, camera`slaves, camera`events,
               scene`cams, scene`slaves, scene`killers, gui`mappings, gui`checked
      ensures Ready()
      ensures dispatched == old(dispatched) + Dispatch(cam, GUIAndCamera, effectsEnabled)
      ensures SameCameras(old(scene.cams), scene.cams)
      ensures old(scene.slaves.Keys) <= scene.slaves.Keys && cam in scene.slaves
      ensures gui.checked == old(gui.checked) + {cam}
      ensures old(SlavesLive(camera.Inputs(), camera.State())) ==> SlavesLive(camera.Inputs(), camera.State())
    {
      var _ := CopyCamera(cam, false, true);
      AddGuiCamera(cam);
    }

    /**
     * OnUpdate's switch on a judgement: carry out its actions.  Only a main
     * camera can throw, and while every slave is alive only through its
     * effects.
     */
    method Act(cam: CameraId, judgement: Judgement) returns (threw: bool)
      requires Ready() && cam in scene.live && cam in scene.cams && scene.cams[cam].enabled
      modifies this`dispatched, camera`blueprint, camera`slaves, camera`events,
               scene`cams, scene`slaves, scene`killers, gui`mappings, gui`checked
      ensures Ready()
      ensures !threw ==> dispatched == old(dispatched) + Dispatch(cam, judgement, effectsEnabled)
      ensures SameCameras(old(scene.cams), scene.cams)
      ensures old(scene.slaves.Keys) <= scene.slaves.Keys && old(gui.checked) <= gui.checked
      ensures !threw && Copies(judgement) ==> cam in scene.slaves
      ensures Shows(judgement) ==> cam in gui.checked
      ensures threw ==> judgement == MainCamera
      ensures old(SlavesLive(camera.Inputs(), camera.State())) ==>
                SlavesLive(camera.Inputs(), camera.State()) && (threw ==> effectsEnabled)
    {
      threw := false;
      match judgement {
        case MainCamera => threw := CopyMain(cam);
        case SubCamera => threw := CopyCamera(cam, false, false);
        case GUI => AddGuiCamera(cam);
        case GUIAndCamera => CopyAndShow(cam);
        case Ignore =>
      }
    }

    /** One camera OnUpdate has not checked yet: check it, judge it and act on the judgement. */
    method JudgeNew(cam: CameraId) returns (threw: bool)
      requires Ready() && cam in scene.live && cam in scene.cams && scene.cams[cam].enabled && cam !in checked
      modifies this`checked, this`dispatched, camera`blueprint, camera`slaves, camera`events,
               scene`cams, scene`slaves, scene`killers, gui`mappings, gui`checked
      ensures Ready()
      ensures checked == old(checked) + {cam}
      ensures !threw ==> dispatched == old(dispatched) + Dispatch(cam, interpreter.judgeCamera(cam), effectsEnabled)
      ensures SameCameras(old(scene.cams), scene.cams)
      ensures old(scene.slaves.Keys) <= scene.slaves.Keys && old(gui.checked) <= gui.checked
      ensures !threw && Copies(interpreter.judgeCamera(cam)) ==> cam in scene.slaves
      ensures Shows(interpreter.judgeCamera(cam)) ==> cam in gui.checked
      ensures threw ==> interpreter.judgeCamera(cam) == MainCamera
      ensures old(SlavesLive(camera.Inputs(), camera.State())) ==>
                SlavesLive(camera.Inputs(), camera.State()) && (threw ==> effectsEnabled)
    {
      checked := checked + {cam};
      threw := Act(cam, interpreter.judgeCamera(cam));
    }

    /**
     * Part way through an update's list: the cameras listed so far are
     * checked (`listed`), the plan for those judged (`judged`) is carried out
     * (`plan`), and every camera of the list is still live and enabled.
     */
    ghost predicate Sweeping(all: seq<CameraId>, judged: seq<CameraId>, plan: seq<Action>, listed: set<CameraId>,
                             checked0: set<CameraId>, dispatched0: seq<Action>, keys0: set<CameraId>)
      reads this, scene, camera`blueprint, camera`slaves, camera`events, gui
    {
      && Ready()
      && checked == checked0 + listed
      && dispatched == dispatched0 + plan
      && scene.cams.Keys == keys0
      && Usable(all, scene.live, scene.cams)
      && HandledBy(judged, interpreter.judgeCamera, scene.slaves.Keys, gui.checked)
    }

    /** The body of OnUpdate's loop for a camera read from the buffer that is not checked yet. */
    method Visit(cam: CameraId, ghost all: seq<CameraId>, ghost judged: seq<CameraId>, ghost plan: seq<Action>,
                 ghost listed: set<CameraId>, ghost checked0: set<CameraId>, ghost dispatched0: seq<Action>,
                 ghost keys0: set<CameraId>) returns (threw: bool)
      requires cam in all && cam !in checked && Sweeping(all, judged, plan, listed, checked0, dispatched0, keys0)
      modifies this`checked, this`dispatched, camera`blueprint, camera`slaves, camera`events,
               scene`cams, scene`slaves, scene`killers, gui`mappings, gui`checked
      ensures !threw ==> Sweeping(all, judged + [cam], plan + Dispatch(cam, interpreter.judgeCamera(cam), effectsEnabled),
                                  listed + {cam}, checked0, dispatched0, keys0)
      ensures threw ==> Ready()
      ensures old(SlavesLive(camera.Inputs(), camera.State())) ==>
                SlavesLive(camera.Inputs(), camera.State()) && (threw ==> effectsEnabled)
    {
      ghost var cams, slaves, shown := scene.cams, scene.slaves.Keys, gui.checked;
      threw := JudgeNew(cam);
      if threw {
        return;
      }
      UsableKept(all, scene.live, cams, scene.cams);
      HandledGrows(judged, [cam], interpreter.judgeCamera, slaves, shown, scene.slaves.Keys, gui.checked);
    }

    /** One turn of OnUpdate's loop: take the camera out of slot `i` and judge it unless it is checked. */
    method Step(buf: array<Option<CameraId>>, all: seq<CameraId>, i: nat, ghost judged: seq<CameraId>,
                ghost plan: seq<Action>, ghost listed: set<CameraId>, ghost checked0: set<CameraId>,
                ghost dispatched0: seq<Action>, ghost keys0: set<CameraId>)
      returns (ghost judged': seq<CameraId>, ghost plan': seq<Action>, ghost listed': set<CameraId>, threw: bool)
      requires i < |all| && Slots(buf, all, i)
      requires Sweeping(all, judged, plan, listed, checked0, dispatched0, keys0)
      requires Tracks(checked0, all, i, judged, plan, listed, interpreter.judgeCamera, effectsEnabled)
      modifies this`checked, this`dispatched, buf, camera`blueprint, camera`slaves, camera`events,
               scene`cams, scene`slaves, scene`killers, gui`mappings, gui`checked
      ensures Slots(buf, all, i + 1)
      ensures !threw ==> Sweeping(all, judged', plan', listed', checked0, dispatched0, keys0)
      ensures !threw ==> Tracks(checked0, all, i + 1, judged', plan', listed', interpreter.judgeCamera, effectsEnabled)
      ensures threw ==> Ready()
      ensures old(SlavesLive(camera.Inputs(), camera.State())) ==>
                SlavesLive(camera.Inputs(), camera.State()) && (threw ==> effectsEnabled)
    {
      var cam := Take(buf, all, i);
      JudgedStep(checked0, all, i);
      judged', plan', listed' := judged, plan, listed + {cam};
      threw := false;
      if cam !in checked {
        threw := Visit(cam, all, judged, plan, listed, checked0, dispatched0, keys0);
        judged', plan' := judged + [cam], plan + Dispatch(cam, interpreter.judgeCamera(cam), effectsEnabled);
        assert judged'[..|judged|] == judged;
      }
    }

    /** The loop of OnUpdate over the `|all|` slots the buffer was filled with, clearing each as it goes. */
    method Sweep(all: seq<CameraId>, buf: array<Option<CameraId>>, ghost checked0: set<CameraId>,
                 ghost dispatched0: seq<Action>, ghost keys0: set<CameraId>)
      returns (ghost judged: seq<CameraId>, ghost plan: seq<Action>, ghost listed: set<CameraId>, threw: bool)
      requires buffer == buf && Slots(buf, all, 0) && Sweeping(all, [], [], {}, checked0, dispatched0, keys0)
      modifies this`checked, this`dispatched, buf, camera`blueprint, camera`slaves, camera`events,
               scene`cams, scene`slaves, scene`killers, gui`mappings, gui`checked
      ensures buffer == buf
      ensures !threw ==> Slots(buf, all, |all|) && Sweeping(all, judged, plan, listed, checked0, dispatched0, keys0)
      ensures !threw ==> Tracks(checked0, all, |all|, judged, plan, listed, interpreter.judgeCamera, effectsEnabled)
      ensures threw ==> Ready()
      ensures old(SlavesLive(camera.Inputs(), camera.State())) && threw ==> effectsEnabled
    {
      ghost var live0 := SlavesLive(camera.Inputs(), camera.State());
      judged, plan, listed, threw := [], [], {}, false;
      var i := 0;
      while i < |all|
        invariant i <= |all| && buffer == buf && Slots(buf, all, i)
        invariant Sweeping(all, judged, plan, listed, checked0, dispatched0, keys0)
        invariant Tracks(checked0, all, i, judged, plan, listed, interpreter.judgeCamera, effectsEnabled)
        invariant live0 ==> SlavesLive(camera.Inputs(), camera.State())
      {
        judged, plan, listed, threw := Step(buf, all, i, judged, plan, listed, checked0, dispatched0, keys0);
        if threw {
          return;
        }
        i := i + 1;
      }
    }

    /**
     * OnUpdate: list the enabled cameras into the buffer (grown only when too
     * small), and for each one not checked yet, in order, check it, judge it
     * and act on the judgement, clearing every slot as it goes.  An exception
     * ends the update where it is raised; with the Skybox copy corrected it
     * can only come from a main camera, and while every slave is alive only
     * from applying effects.
     */
    method OnUpdate(all: seq<CameraId>) returns (threw: bool)
      requires Valid() && Usable(all, scene.live, scene.cams)
      modifies this`buffer, this`checked, this`dispatched, buffer, camera`blueprint, camera`slaves, camera`events,
               scene`cams, scene`slaves, scene`killers, gui`mappings, gui`checked
      ensures !threw ==> Valid()
      ensures threw ==> Ready()
      ensures !threw ==> checked == old(checked) + Listed(all)
      ensures !threw ==> dispatched == old(dispatched) + Plan(old(checked), all, interpreter.judgeCamera, effectsEnabled)
      ensures buffer.Length == if |all| <= old(buffer.Length) then old(buffer.Length) else |all|
      ensures |all| <= old(buffer.Length) ==> buffer == old(buffer)
      ensures !threw ==> HandledBy(Judged(old(checked), all), interpreter.judgeCamera, scene.slaves.Keys, gui.checked)
      ensures old(SlavesLive(camera.Inputs(), camera.State())) && !effectsEnabled ==> !threw
    {
      if buffer.Length < |all| {
        buffer := new Option<CameraId>[|all|](_ => None);
      }
      GetAllCameras(all, buffer);
      ghost var judged, plan, listed;
      judged, plan, listed, threw := Sweep(all, buffer, checked, dispatched, scene.cams.Keys);
      if !threw {
        assert all[..|all|] == all;
        assert Slots(buffer, all, |all|);
      }
    }
  }
}
