/*
 * VRCamera, CameraSlave and CameraKiller as the engine runs them: the VR
 * camera's fields are updated in place and the scene's cameras and
 * components are written through `Scene`.  Every step is proved to leave
 * exactly the state the matching function of `Synthesis` describes, so the
 * lemmas proved there hold of these methods.
 */
module StereoCamera {
  import opened Engine
  import opened Synthesis
  import opened GuiCapture

  class VRCamera {
    const scene: Scene
    const gui: VRGUI                     // VR.GUI, asked whether it owns a camera
    const self: CameraId                 // the VR camera's own Camera component
    const interpreter: Interpreter       // VR.Interpreter
    const ctx: Context                   // VR.Context

    var blueprint: Option<CameraId>      // _Blueprint
    var slaves: seq<CameraId>            // Slaves
    var events: seq<CameraEvent>         // the InitializeCamera and CopiedCamera events raised

    /** OnAwake: the VR camera's own Camera component exists; no blueprint, no slaves, no events yet. */
    constructor (scene: Scene, gui: VRGUI, self: CameraId, interpreter: Interpreter, ctx: Context)
      requires scene.Valid() && self in scene.cams
      requires forall c | c in scene.slaves :: c in scene.cams
      ensures Valid()
      ensures this.scene == scene && this.gui == gui && this.self == self
      ensures this.interpreter == interpreter && this.ctx == ctx
      ensures blueprint.None? && slaves == [] && events == []
    {
      this.scene := scene;
      this.gui := gui;
      this.self := self;
      this.interpreter := interpreter;
      this.ctx := ctx;
      blueprint := None;
      slaves := [];
      events := [];
    }

    /** What the synthesiser only reads. */
    ghost function Inputs(): Synthesis.Env
      reads scene`live, gui`mappings
    {
      Synthesis.Env(self, scene.live, gui.mappings.Keys, ctx)
    }

    /** What the synthesiser writes, as a value. */
    ghost function State(): Synth
      reads this`blueprint, this`slaves, this`events, scene`cams, scene`slaves, scene`killers
    {
      Synth(blueprint, slaves, events, scene.cams, scene.slaves, scene.killers)
    }

    ghost predicate Valid()
      reads this`blueprint, this`slaves, this`events, scene`cams, scene`slaves, scene`killers, scene`live, gui`mappings
    {
      Wf(Inputs(), State())
    }

    /**
     * The `Blueprint` getter: the blueprint while it is alive and enabled,
     * otherwise a scan of the slaves' cameras for one the GUI does not own,
     * which throws at a destroyed slave.
     */
    method Blueprint() returns (r: Option<CameraId>, threw: bool)
      requires Valid()
      ensures threw == BlueprintThrows(Inputs(), State())
      ensures !threw ==> r == BlueprintView(Inputs(), State())
      ensures threw ==> r.None?
    {
      if blueprint.Some? && blueprint.value in scene.live && scene.cams[blueprint.value].enabled {
        return blueprint, false;
      }
      var i := 0;
      while i < |slaves|
        invariant 0 <= i <= |slaves|
        invariant FirstUnowned(slaves[i..], gui.mappings.Keys) == FirstUnowned(slaves, gui.mappings.Keys)
        invariant ScanThrows(slaves[i..], gui.mappings.Keys, scene.live) == ScanThrows(slaves, gui.mappings.Keys, scene.live)
      {
        if slaves[i] !in scene.live {
          return None, true;
        }
        if !gui.Owns(slaves[i]) {
          return Some(slaves[i]), false;
        }
        assert slaves[i..][1..] == slaves[i + 1..];
        i := i + 1;
      }
      return None, false;
    }

    /**
     * ChangeBlueprint: elect `b`, set the near clip, then copy the
     * configuration of the camera the Blueprint getter now returns; when the
     * getter throws or returns null the first read of it throws.
     */
    method ChangeBlueprint(b: CameraId) returns (threw: bool)
      requires Valid() && b in scene.cams
      modifies this`blueprint, scene`cams
      ensures Valid() && scene.cams.Keys == old(scene.cams.Keys)
      ensures Outcome(State(), threw) == Synthesis.ChangeBlueprint(old(Inputs()), old(State()), b)
    {
      ghost var env, s0 := Inputs(), State();
      blueprint := Some(b);
      scene.SetCam(self, scene.cams[self].(nearClip := ctx.nearClipPlane));
      ghost var s1 := State();
      ChangeBlueprintSteps(env, s0, b, s1, None, true, Outcome(s1, true));
      var src, failed := Blueprint();
      threw := failed || src.None?;
      if !threw {
        scene.SetCam(self, BlueprintConfig(scene.cams[self], scene.cams[src.value], ctx.nearClipPlane));
      }
      ChangeBlueprintSteps(env, s0, b, s1, src, failed, Outcome(State(), threw));
    }

    /** `Slaves.Aggregate(0, (cull, s) => cull | s.cullingMask)`: the union of the slaves' snapshot masks. */
    method SlaveMask() returns (mask: bv32)
      requires Valid()
      ensures mask == AggregateMask(slaves, scene.slaves)
    {
      mask := 0;
      var i := 0;
      while i < |slaves|
        invariant 0 <= i <= |slaves|
        invariant mask == AggregateMask(slaves[..i], scene.slaves)
      {
        assert slaves[..i + 1][..i] == slaves[..i];
        mask := mask | scene.slaves[slaves[i]].cullingMask;
        i := i + 1;
      }
      assert slaves[..i] == slaves;
    }

    /** `Slaves.LastOrDefault(s => s.canBeMainCamera)`: the most recently registered eligible slave. */
    method LastEligibleSlave() returns (best: Option<CameraId>)
      requires Valid()
      ensures best == MostRecentEligible(slaves, scene.slaves)
    {
      best := None;
      var k := |slaves|;
      assert slaves[..k] == slaves;
      while k > 0
        invariant 0 <= k <= |slaves|
        invariant MostRecentEligible(slaves[..k], scene.slaves) == MostRecentEligible(slaves, scene.slaves)
      {
        assert slaves[..k][..k - 1] == slaves[..k - 1];
        if scene.slaves[slaves[k - 1]].canBeMainCamera {
          return Some(slaves[k - 1]);
        }
        k := k - 1;
      }
      assert slaves[..0] == [];
    }

    /**
     * `Slaves.Select(s => s.name)` of the log line: reads every slave's name
     * in order, and fails at the first slave that was destroyed.
     */
    method SlaveNamesReadable() returns (readable: bool)
      requires Valid()
      ensures readable <==> SlavesLive(Inputs(), State())
    {
      var i := 0;
      while i < |slaves|
        invariant 0 <= i <= |slaves|
        invariant forall k | 0 <= k < i :: slaves[k] in scene.live
      {
        if slaves[i] !in scene.live {
          return false;
        }
        i := i + 1;
      }
      return true;
    }

    /**
     * UpdateCameraConfig: the culling mask from the slaves' snapshots, the
     * log line naming every slave (which throws for a destroyed one), then
     * the mask is written and a new blueprint elected when the current one
     * is no longer a registered slave.
     */
    method UpdateCameraConfig() returns (threw: bool)
      requires Valid()
      modifies this`blueprint, scene`cams
      ensures Valid() && scene.cams.Keys == old(scene.cams.Keys)
      ensures Outcome(State(), threw) == Synthesis.UpdateCameraConfig(old(Inputs()), old(State()))
    {
      ghost var env, s0 := Inputs(), State();
      var aggregate := SlaveMask();
      var mask := VisibleMask(aggregate, ctx);
      var readable := SlaveNamesReadable();
      if !readable {
        return true;
      }
      scene.SetCam(self, scene.cams[self].(cullingMask := mask));
      var best := None;
      if !(blueprint.Some? && blueprint.value in slaves) {
        best := LastEligibleSlave();
      }
      ghost var s1 := State();
      threw := false;
      if best.Some? {
        threw := ChangeBlueprint(best.value);
      }
      UpdateCameraConfigSteps(env, s0, mask, s1, best, Outcome(State(), threw));
    }

    /** RegisterSlave: append the slave unless it is already registered, then recompute. */
    method RegisterSlave(cam: CameraId) returns (threw: bool)
      requires Valid() && cam in scene.slaves
      modifies this`blueprint, this`slaves, scene`cams
      ensures Valid() && scene.cams.Keys == old(scene.cams.Keys)
      ensures Outcome(State(), threw) == Synthesis.RegisterSlave(old(Inputs()), old(State()), cam)
    {
      if cam !in slaves {
        slaves := slaves + [cam];
      }
      threw := UpdateCameraConfig();
    }

    /** UnregisterSlave: remove the slave, and recompute only if it was registered. */
    method UnregisterSlave(cam: CameraId) returns (threw: bool)
      requires Valid()
      modifies this`blueprint, this`slaves, scene`cams
      ensures Valid() && scene.cams.Keys == old(scene.cams.Keys)
      ensures Outcome(State(), threw) == Synthesis.UnregisterSlave(old(Inputs()), old(State()), cam)
    {
      threw := false;
      if cam in slaves {
        slaves := Without(slaves, cam);
        threw := UpdateCameraConfig();
      }
    }

    /** CameraSlave.OnEnable: register with the VR camera, logging any exception. */
    method OnSlaveEnable(cam: CameraId)
      requires Valid() && cam in scene.slaves
      modifies this`blueprint, this`slaves, scene`cams
      ensures Valid() && scene.cams.Keys == old(scene.cams.Keys)
      ensures State() == Synthesis.RegisterSlave(old(Inputs()), old(State()), cam).state
    {
      var _ := RegisterSlave(cam);
    }

    /** CameraSlave.OnDisable: unregister unless the application is quitting, logging any exception. */
    method OnSlaveDisable(cam: CameraId, quitting: bool)
      requires Valid()
      modifies this`blueprint, this`slaves, scene`cams
      ensures Valid() && scene.cams.Keys == old(scene.cams.Keys)
      ensures quitting ==> State() == old(State())
      ensures !quitting ==> State() == Synthesis.UnregisterSlave(old(Inputs()), old(State()), cam).state
    {
      if quitting {
        return;
      }
      var _ := UnregisterSlave(cam);
    }

    /**
     * `AddComponent<CameraSlave>().canBeMainCamera = canBeMain`: Awake takes
     * the snapshot, OnEnable registers the slave, then the flag is set.
     */
    method Enslave(cam: CameraId, canBeMain: bool)
      requires Valid() && cam in scene.cams
      modifies this`blueprint, this`slaves, scene`cams, scene`slaves
      ensures Valid() && scene.cams.Keys == old(scene.cams.Keys)
      ensures State() == Synthesis.Enslave(old(Inputs()), old(State()), cam, canBeMain)
    {
      ghost var env, s0 := Inputs(), State();
      EnslaveSteps(env, s0, cam, canBeMain, s0);
      scene.slaves := scene.slaves[cam := Snapshot(scene.cams[cam])];
      OnSlaveEnable(cam);
      EnslaveSteps(env, s0, cam, canBeMain, State());
      scene.slaves := scene.slaves[cam := scene.slaves[cam].(canBeMainCamera := canBeMain)];
    }

    /** The part of Copy for a live camera: slave, listener, stereo targeting and perhaps a killer. */
    method Attach(cam: CameraId, canBeMain: bool, hasOtherConsumers: bool)
      requires Valid() && cam in scene.cams
      modifies this`blueprint, this`slaves, scene`cams, scene`slaves, scene`killers
      ensures Valid() && scene.cams.Keys == old(scene.cams.Keys)
      ensures State() == Synthesis.Attach(old(Inputs()), old(State()), cam, canBeMain, hasOtherConsumers,
                                          interpreter.isIrrelevantCamera(cam))
    {
      ghost var env, s0 := Inputs(), State();
      Enslave(cam, canBeMain);
      ghost var s2 := State();
      var camera := scene.cams[cam];
      // only one audio listener may exist, and the engine must not move the camera
      scene.SetCam(cam, camera.(hasListener := false, stereoTargeted := false));
      if !hasOtherConsumers && camera.targetTexture.None? && interpreter.isIrrelevantCamera(cam) {
        scene.killers := scene.killers + {cam};
      }
      AttachSteps(env, s0, cam, canBeMain, hasOtherConsumers, interpreter.isIrrelevantCamera(cam), s2, State());
    }

    /**
     * The end of Copy: attach a live camera, then raise InitializeCamera (for
     * a candidate, with the getter's answer) and CopiedCamera.
     */
    method CopyRest(cam: CameraId, canBeMain: bool, hasOtherConsumers: bool) returns (threw: bool)
      requires Valid() && cam in scene.cams
      modifies this`blueprint, this`slaves, this`events, scene`cams, scene`slaves, scene`killers
      ensures Valid() && scene.cams.Keys == old(scene.cams.Keys)
      ensures Outcome(State(), threw) == Synthesis.CopyRest(old(Inputs()), old(State()), cam, canBeMain, hasOtherConsumers,
                                                            interpreter.isIrrelevantCamera(cam))
    {
      ghost var env, s0 := Inputs(), State();
      if cam in scene.live {
        Attach(cam, canBeMain, hasOtherConsumers);
      }
      ghost var s2 := State();
      CopyRestSteps(env, s0, cam, canBeMain, hasOtherConsumers, interpreter.isIrrelevantCamera(cam), s2);
      ghost var raised: seq<CameraEvent> := [];
      if canBeMain {
        var bp, failed := Blueprint();
        if failed {
          return true;
        }
        events := events + [InitializeCamera(self, bp)];
        raised := [InitializeCamera(self, bp)];
      }
      assert events == s2.events + raised;
      events := events + [CopiedCamera(cam)];
      threw := false;
    }

    /**
     * Copy(blueprint, canBeMain, hasOtherConsumers): adopt a game camera.  A
     * camera that already has a slave is left alone; a candidate the
     * election accepts becomes the blueprint; a live camera is enslaved; the
     * events are raised last.
     */
    method Copy(cam: CameraId, canBeMain: bool, hasOtherConsumers: bool) returns (threw: bool)
      requires Valid() && cam in scene.cams
      modifies this`blueprint, this`slaves, this`events, scene`cams, scene`slaves, scene`killers
      ensures Valid() && scene.cams.Keys == old(scene.cams.Keys)
      ensures Outcome(State(), threw) == Synthesis.Copy(old(Inputs()), old(State()), cam, canBeMain, hasOtherConsumers,
                                                        interpreter.isIrrelevantCamera(cam))
    {
      if cam in scene.live && cam in scene.slaves {
        return false;
      }
      var use := false;
      if canBeMain {
        use := !(blueprint.Some? && scene.Alive(blueprint.value) && blueprint.value != self
                 && blueprint.value != cam && scene.cams[blueprint.value].name == MainCameraName);
        assert use == UseNewCamera(Inputs(), blueprint, scene.cams, cam);
        if !use && cam !in scene.live {
          // the refusal is logged with the destroyed candidate's name
          return true;
        }
      }
      threw := false;
      if use {
        threw := ChangeBlueprint(cam);
      }
      if !threw {
        threw := CopyRest(cam, canBeMain, hasOtherConsumers);
      }
    }
  }

  /** CameraKiller: keeps an irrelevant camera from drawing anything. */
  class CameraKiller {
    const scene: Scene
    const cam: CameraId

    constructor (scene: Scene, cam: CameraId)
      ensures this.scene == scene && this.cam == cam
    {
      this.scene := scene;
      this.cam := cam;
    }

    /** OnStart: nothing culled, drawn first, no occlusion culling, nothing cleared. */
    method OnStart()
      requires cam in scene.cams
      modifies scene`cams
      ensures scene.cams == old(scene.cams)[cam := old(scene.cams)[cam].(cullingMask := 0, depth := -9999.0,
                                                                         useOcclusionCulling := false, clearFlags := Nothing)]
      ensures var k := scene.cams[cam];
              k.cullingMask == 0 && k.depth == -9999.0 && !k.useOcclusionCulling && k.clearFlags == Nothing
    {
      scene.cams := scene.cams[cam := scene.cams[cam].(cullingMask := 0, depth := -9999.0,
                                                        useOcclusionCulling := false, clearFlags := Nothing)];
    }
  }
}
