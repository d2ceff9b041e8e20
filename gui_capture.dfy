/*
 * VRGUI, the GUI capture: it keeps an ordered list of screen grabbers, a
 * dictionary from cameras to the grabber that owns them and the set of
 * cameras it has judged, redirects canvases into its GUI camera while anyone
 * listens, and diverts the legacy GUI into a texture during repaints.
 */
module GuiCapture {
  import opened Engine
  import opened GuiRules

  class VRGUI {
    const scene: Scene
    const guiCamera: CameraId            // _VRGUICamera
    const uGuiTexture: TextureId
    const imGuiTexture: TextureId        // IMGuiTexture
    const interpreter: Interpreter
    const foreign: Foreign
    const ctx: Context

    var grabbers: seq<Grabber>           // _ScreenGrabbers
    var mappings: map<CameraId, Grabber> // _CameraMappings
    var checked: set<CameraId>           // _CheckedCameras
    var listeners: int                   // _Listeners
    var prevRT: Option<TextureId>        // _PrevRT

    ghost predicate Valid()
      reads this, scene
    {
      && scene.Valid()
      && guiCamera in scene.live
      && mappings.Keys <= scene.cams.Keys
      && checked <= scene.cams.Keys
      && NoDup(grabbers)
    }

    /** OnAwake: the GUI camera sees the UI layers only and renders into the uGUI texture. */
    constructor (scene: Scene, guiCamera: CameraId, uGuiTexture: TextureId, imGuiTexture: TextureId,
                 interpreter: Interpreter, foreign: Foreign, ctx: Context)
      requires scene.Valid() && guiCamera in scene.live
      modifies scene`cams
      ensures Valid()
      ensures this.scene == scene && this.guiCamera == guiCamera && this.uGuiTexture == uGuiTexture
      ensures this.imGuiTexture == imGuiTexture && this.interpreter == interpreter
      ensures this.foreign == foreign && this.ctx == ctx
      ensures grabbers == [] && mappings == map[] && checked == {} && listeners == 0 && prevRT == None
      ensures scene.cams == old(scene.cams)[guiCamera := old(scene.cams)[guiCamera].(
                cullingMask := ctx.uiLayerMask, depth := 1.0,
                nearClip := ctx.guiNearClipPlane, farClip := ctx.guiFarClipPlane,
                targetTexture := Some(uGuiTexture), backgroundColor := 0,
                clearFlags := SolidColor, useOcclusionCulling := false)]
    {
      this.scene := scene;
      this.guiCamera := guiCamera;
      this.uGuiTexture := uGuiTexture;
      this.imGuiTexture := imGuiTexture;
      this.interpreter := interpreter;
      this.foreign := foreign;
      this.ctx := ctx;
      grabbers := [];
      mappings := map[];
      checked := {};
      listeners := 0;
      prevRT := None;
      new;
      var cam := scene.cams[guiCamera];
      scene.cams := scene.cams[guiCamera := cam.(
        cullingMask := ctx.uiLayerMask, depth := 1.0,
        nearClip := ctx.guiNearClipPlane, farClip := ctx.guiFarClipPlane,
        targetTexture := Some(uGuiTexture), backgroundColor := 0,
        clearFlags := SolidColor, useOcclusionCulling := false)];
    }

    /** Owns: whether the dictionary maps the camera to a grabber. */
    predicate Owns(cam: CameraId)
      reads this
    {
      cam in mappings
    }

    /** IsInterested: whether some grabber, or VRGUI itself, would own the camera. */
    function IsInterested(cam: CameraId): (r: bool)
      reads this
      ensures r <==> interpreter.isUICamera(cam)
                     || exists i | 0 <= i < |grabbers| :: Check(grabbers[i], cam, interpreter.isUICamera, foreign)
    {
      OwnerIsFirstMatch(grabbers, cam, interpreter.isUICamera, foreign);
      Owner(grabbers, cam, interpreter.isUICamera, foreign).Some?
    }

    /** FindCameraMapping: ask the grabbers in order, then VRGUI itself. */
    method FindCameraMapping(cam: CameraId) returns (r: Option<Grabber>)
      ensures r == Owner(grabbers, cam, interpreter.isUICamera, foreign)
    {
      var i := 0;
      while i < |grabbers|
        invariant 0 <= i <= |grabbers|
        invariant FirstAccepting(grabbers[i..], cam, interpreter.isUICamera, foreign)
                  == FirstAccepting(grabbers, cam, interpreter.isUICamera, foreign)
      {
        var g := grabbers[i];
        var accepts := match g case Gui => interpreter.isUICamera(cam) case External(id) => foreign.check(id, cam);
        if accepts {
          return Some(g);
        }
        assert grabbers[i..][1..] == grabbers[i + 1..];
        i := i + 1;
      }
      if interpreter.isUICamera(cam) {
        return Some(Gui);
      }
      return None;
    }

    /** OnAssign of VRGUI: pull the GUI camera in front of the assigned camera. */
    method OnAssign(cam: CameraId)
      requires Valid() && cam in scene.cams
      modifies scene`cams
      ensures Valid()
      ensures scene.cams == WithDepth(old(scene.cams), guiCamera,
                                      AssignDepth(old(scene.cams)[guiCamera].depth, old(scene.cams)[cam].depth))
    {
      var gui := scene.cams[guiCamera];
      scene.cams := scene.cams[guiCamera := gui.(depth := AssignDepth(gui.depth, scene.cams[cam].depth))];
    }

    /**
     * AddCamera: map the camera to its owner when it has one (and let the
     * owner know), then remember that the camera was judged.  Its first step
     * logs the camera's name, which throws for a destroyed camera before
     * anything changes: `threw` reports that abort.
     */
    method AddCamera(cam: CameraId) returns (threw: bool)
      requires Valid() && cam in scene.cams
      modifies this`mappings, this`checked, scene`cams
      ensures Valid()
      ensures threw <==> cam !in scene.live
      ensures threw ==> checked == old(checked) && mappings == old(mappings) && scene.cams == old(scene.cams)
      ensures !threw ==> checked == old(checked) + {cam}
      ensures !threw ==> mappings == match Owner(grabbers, cam, interpreter.isUICamera, foreign)
                                     case Some(g) => old(mappings)[cam := g]
                                     case None => old(mappings)
      ensures !threw ==> scene.cams == WithDepth(old(scene.cams), guiCamera,
                                          if Owner(grabbers, cam, interpreter.isUICamera, foreign) == Some(Gui)
                                          then AssignDepth(old(scene.cams)[guiCamera].depth, old(scene.cams)[cam].depth)
                                          else old(scene.cams)[guiCamera].depth)
    {
      if cam !in scene.live {
        return true;
      }
      threw := false;
      var grabber := FindCameraMapping(cam);
      assert WithDepth(scene.cams, guiCamera, scene.cams[guiCamera].depth) == scene.cams;
      if grabber.Some? {
        mappings := mappings[cam := grabber.value];
        if grabber.value == Gui {
          OnAssign(cam);
        }
      }
      checked := checked + {cam};
    }

    /**
     * RejudgeAll: AddCamera of every judged camera, in the order of a list
     * taken of the set, until one of them throws for a destroyed camera.
     * `judged` are the cameras judged again before that; when none was
     * destroyed they are all of them.  The GUI camera ends no deeper than
     * before and in front of every camera VRGUI owns among them.
     */
    method RejudgeAll() returns (threw: bool, ghost judged: set<CameraId>)
      requires Valid()
      modifies this`mappings, this`checked, scene`cams
      ensures Valid()
      ensures checked == old(checked)
      ensures threw <==> !(checked <= scene.live)
      ensures judged <= checked && judged <= scene.live && (!threw ==> judged == checked)
      ensures mappings == Rejudged(old(mappings), judged, grabbers, interpreter.isUICamera, foreign)
      ensures scene.cams == WithDepth(old(scene.cams), guiCamera, scene.cams[guiCamera].depth)
      ensures InFront(scene.cams[guiCamera].depth, old(scene.cams)[guiCamera].depth, old(scene.cams), judged, guiCamera,
                      grabbers, interpreter.isUICamera, foreign)
    {
      var cameras := ToList(checked);
      ghost var cams0 := scene.cams;
      assert WithDepth(cams0, guiCamera, cams0[guiCamera].depth) == cams0;
      threw := false;
      var i := 0;
      while i < |cameras|
        invariant 0 <= i <= |cameras|
        invariant Valid() && checked == old(checked) && scene.live == old(scene.live)
        invariant forall k | 0 <= k < i :: cameras[k] in scene.live
        invariant mappings == RejudgedList(old(mappings), cameras[..i], grabbers, interpreter.isUICamera, foreign)
        invariant scene.cams == WithDepth(cams0, guiCamera, FrontDepth(cams0[guiCamera].depth, cams0, guiCamera,
                                                                       cameras[..i], grabbers, interpreter.isUICamera, foreign))
      {
        ghost var m, cams := mappings, scene.cams;
        threw := AddCamera(cameras[i]);
        if threw {
          break;
        }
        RejudgeRound(old(mappings), cameras, i, m, mappings, grabbers, interpreter.isUICamera, foreign);
        DepthRound(cams0, guiCamera, cameras, i, cams, scene.cams, grabbers, interpreter.isUICamera, foreign);
        i := i + 1;
      }
      judged := set c | c in cameras[..i];
      if !threw {
        assert cameras[..i] == cameras;
      }
      RejudgeDone(old(mappings), judged, cameras[..i], grabbers, interpreter.isUICamera, foreign);
      DepthDone(cams0, guiCamera, judged, cameras[..i], scene.cams[guiCamera].depth, grabbers, interpreter.isUICamera, foreign);
    }

    /**
     * AddGrabber: a new grabber goes to the front and everything judged is
     * judged again (up to a destroyed camera, as RejudgeAll says).
     */
    method AddGrabber(g: Grabber) returns (threw: bool, ghost judged: set<CameraId>)
      requires Valid()
      modifies this`grabbers, this`mappings, this`checked, scene`cams
      ensures checked == old(checked)
      ensures Valid()
      ensures g in old(grabbers) ==>
                !threw && grabbers == old(grabbers) && mappings == old(mappings) && scene.cams == old(scene.cams)
      ensures g !in old(grabbers) ==>
                && grabbers == [g] + old(grabbers)
                && (threw <==> !(checked <= scene.live))
                && judged <= checked && judged <= scene.live && (!threw ==> judged == checked)
                && mappings == Rejudged(old(mappings), judged, grabbers, interpreter.isUICamera, foreign)
                && scene.cams == WithDepth(old(scene.cams), guiCamera, scene.cams[guiCamera].depth)
                && InFront(scene.cams[guiCamera].depth, old(scene.cams)[guiCamera].depth, old(scene.cams), judged,
                           guiCamera, grabbers, interpreter.isUICamera, foreign)
      ensures g !in old(grabbers) ==> forall c | c in judged && Check(g, c, interpreter.isUICamera, foreign) ::
                mappings[c] == g
    {
      threw, judged := false, {};
      if g !in grabbers {
        grabbers := [g] + grabbers;
        threw, judged := RejudgeAll();
        forall c | c in judged && Check(g, c, interpreter.isUICamera, foreign)
          ensures mappings[c] == g
        {
          FrontGrabberWins(g, old(grabbers), c, interpreter.isUICamera, foreign);
        }
      }
    }

    /**
     * RemoveGrabber: drop the grabber (if present) and judge everything again
     * regardless (up to a destroyed camera, as RejudgeAll says).
     */
    method RemoveGrabber(g: Grabber) returns (threw: bool, ghost judged: set<CameraId>)
      requires Valid()
      modifies this`grabbers, this`mappings, this`checked, scene`cams
      ensures checked == old(checked)
      ensures Valid()
      ensures grabbers == Without(old(grabbers), g) && g !in grabbers
      ensures threw <==> !(checked <= scene.live)
      ensures judged <= checked && judged <= scene.live && (!threw ==> judged == checked)
      ensures mappings == Rejudged(old(mappings), judged, grabbers, interpreter.isUICamera, foreign)
      ensures scene.cams == WithDepth(old(scene.cams), guiCamera, scene.cams[guiCamera].depth)
      ensures InFront(scene.cams[guiCamera].depth, old(scene.cams)[guiCamera].depth, old(scene.cams), judged, guiCamera,
                      grabbers, interpreter.isUICamera, foreign)
    {
      grabbers := Without(grabbers, g);
      threw, judged := RejudgeAll();
    }

    /**
     * EnsureCameraTargets: forget the cameras that were destroyed and point
     * every other mapped camera at the first texture of its grabber.
     */
    method EnsureCameraTargets()
      requires Valid()
      modifies this`mappings, scene`cams
      ensures Valid()
      ensures mappings == LiveMappings(old(mappings), scene.live)
      ensures scene.cams == Retargeted(old(scene.cams), old(mappings), scene.live, uGuiTexture, foreign)
      ensures forall c | c in mappings :: scene.cams[c].targetTexture == FirstTexture(mappings[c], uGuiTexture, foreign)
    {
      var keys := ToList(mappings.Keys);
      var removal := RetargetPass(keys);
      RetargetedListIsRetargeted(old(scene.cams), mappings, scene.live, keys, uGuiTexture, foreign);
      RemovePass(removal);
      RemovedDeadIsLive(old(mappings), keys, scene.live);
    }

    /**
     * The first pass of EnsureCameraTargets over the dictionary's keys:
     * collect the destroyed cameras, repair the targets of the others.
     */
    method RetargetPass(keys: seq<CameraId>) returns (removal: seq<CameraId>)
      requires Valid() && forall c | c in keys :: c in mappings
      modifies scene`cams
      ensures Valid() && removal == DeadKeys(keys, scene.live)
      ensures scene.cams == RetargetedList(old(scene.cams), mappings, scene.live, keys, uGuiTexture, foreign)
    {
      removal := [];
      var i := 0;
      while i < |keys|
        invariant 0 <= i <= |keys|
        invariant Valid() && scene.cams.Keys == old(scene.cams).Keys
        invariant removal == DeadKeys(keys[..i], scene.live)
        invariant scene.cams == RetargetedList(old(scene.cams), mappings, scene.live, keys[..i], uGuiTexture, foreign)
      {
        var c := keys[i];
        ghost var cams := scene.cams;
        assert keys[..i + 1][..i] == keys[..i];
        if c !in scene.live {
          removal := removal + [c];
        } else {
          var first := FirstTexture(mappings[c], uGuiTexture, foreign);
          if scene.cams[c].targetTexture != first {
            scene.cams := scene.cams[c := scene.cams[c].(targetTexture := first)];
          }
        }
        RetargetRound(old(scene.cams), mappings, scene.live, keys, i, cams, scene.cams, uGuiTexture, foreign);
        i := i + 1;
      }
      assert keys[..i] == keys;
    }

    /** The second pass of EnsureCameraTargets: `Remove` each collected camera from the dictionary. */
    method RemovePass(removal: seq<CameraId>)
      requires Valid()
      modifies this`mappings
      ensures Valid() && mappings == RemovedAll(old(mappings), removal)
    {
      var j := 0;
      while j < |removal|
        invariant 0 <= j <= |removal|
        invariant Valid()
        invariant mappings == RemovedAll(old(mappings), removal[..j])
      {
        assert removal[..j + 1][..j] == removal[..j];
        mappings := mappings - {removal[j]};
        j := j + 1;
      }
      assert removal[..j] == removal;
    }

    /** Listen: one more consumer of the GUI texture. */
    method Listen()
      modifies this`listeners
      ensures listeners == old(listeners) + 1
    {
      listeners := listeners + 1;
    }

    /** Unlisten: one consumer fewer; nothing stops the count from going negative. */
    method Unlisten()
      modifies this`listeners
      ensures listeners == old(listeners) - 1
    {
      listeners := listeners - 1;
    }

    /**
     * CatchCanvas: point the GUI camera at the uGUI texture again, then catch
     * every live registered canvas that is unprocessed and not ignored.
     */
    method CatchCanvas()
      requires Valid()
      modifies scene`cams, scene`canvases
      ensures Valid()
      ensures scene.cams == old(scene.cams)[guiCamera := old(scene.cams)[guiCamera].(targetTexture := Some(uGuiTexture))]
      ensures scene.canvases == CatchAll(old(scene.canvases), scene.registry, scene.liveCanvases, guiCamera,
                                         scene.cams, scene.live, ctx, interpreter.isIgnoredCanvas)
    {
      scene.cams := scene.cams[guiCamera := scene.cams[guiCamera].(targetTexture := Some(uGuiTexture))];
      CatchPass();
    }

    /** The loop of CatchCanvas over the registry, in its order. */
    method CatchPass()
      requires Valid()
      modifies scene`canvases
      ensures Valid()
      ensures scene.canvases == CatchAll(old(scene.canvases), scene.registry, scene.liveCanvases, guiCamera,
                                         scene.cams, scene.live, ctx, interpreter.isIgnoredCanvas)
    {
      var i := 0;
      while i < |scene.registry|
        invariant 0 <= i <= |scene.registry|
        invariant Valid()
        invariant scene.canvases == CatchAll(old(scene.canvases), scene.registry[..i], scene.liveCanvases, guiCamera,
                                             scene.cams, scene.live, ctx, interpreter.isIgnoredCanvas)
      {
        var k := scene.registry[i];
        ghost var canvases := scene.canvases;
        if k in scene.liveCanvases {
          var c := scene.canvases[k];
          if IsUnprocessed(c, guiCamera, scene.cams, scene.live) && !interpreter.isIgnoredCanvas(k) {
            scene.canvases := scene.canvases[k := Caught(c, guiCamera, ctx)];
          }
        }
        CatchRound(old(scene.canvases), scene.registry, i, scene.liveCanvases, guiCamera, scene.cams, scene.live, ctx,
                   interpreter.isIgnoredCanvas, canvases, scene.canvases);
        i := i + 1;
      }
      assert scene.registry[..i] == scene.registry;
    }

    /** OnUpdate: repair the camera targets every frame; catch canvases only while someone listens. */
    method OnUpdate()
      requires Valid()
      modifies this`mappings, scene`cams, scene`canvases
      ensures Valid()
      ensures mappings == LiveMappings(old(mappings), scene.live)
      ensures listeners <= 0 ==>
                scene.canvases == old(scene.canvases)
                && scene.cams == Retargeted(old(scene.cams), old(mappings), scene.live, uGuiTexture, foreign)
      ensures listeners > 0 ==>
                var retargeted := Retargeted(old(scene.cams), old(mappings), scene.live, uGuiTexture, foreign);
                scene.cams == retargeted[guiCamera := retargeted[guiCamera].(targetTexture := Some(uGuiTexture))]
                && scene.canvases == CatchAll(old(scene.canvases), scene.registry, scene.liveCanvases, guiCamera,
                                              scene.cams, scene.live, ctx, interpreter.isIgnoredCanvas)
    {
      EnsureCameraTargets();
      if listeners > 0 {
        CatchCanvas();
      }
    }

    /** OnLevelWasLoaded: forget every judgement and every mapping. */
    method OnLevelWasLoaded()
      modifies this`checked, this`mappings
      ensures checked == {} && mappings == map[]
    {
      checked := {};
      mappings := map[];
    }

    /** OnBeforeGUI: on a repaint, remember the active render target and divert the legacy GUI. */
    method OnBeforeGUI(repaint: bool)
      modifies this`prevRT, scene`activeRT
      ensures repaint ==> prevRT == old(scene.activeRT) && scene.activeRT == Some(imGuiTexture)
      ensures !repaint ==> prevRT == old(prevRT) && scene.activeRT == old(scene.activeRT)
    {
      if repaint {
        prevRT := scene.activeRT;
        scene.activeRT := Some(imGuiTexture);
      }
    }

    /** OnAfterGUI: on a repaint, restore the render target remembered by OnBeforeGUI. */
    method OnAfterGUI(repaint: bool)
      modifies scene`activeRT
      ensures repaint ==> scene.activeRT == prevRT
      ensures !repaint ==> scene.activeRT == old(scene.activeRT)
    {
      if repaint {
        scene.activeRT := prevRT;
      }
    }

    /**
     * One legacy GUI event: FastGUI sends OnBeforeGUI first, the game draws
     * (seeing the render target `during` and leaving `drawn` active), and
     * SlowGUI sends OnAfterGUI last.  On a repaint the game draws into the
     * legacy GUI texture and, whatever render target its drawing leaves
     * active, the one before the event is active again afterwards.
     */
    method LegacyGuiEvent(repaint: bool, drawn: Option<TextureId>) returns (ghost during: Option<TextureId>)
      modifies this`prevRT, scene`activeRT
      ensures repaint ==> during == Some(imGuiTexture) && scene.activeRT == old(scene.activeRT)
      ensures !repaint ==> during == old(scene.activeRT) && scene.activeRT == drawn
    {
      OnBeforeGUI(repaint);
      during := scene.activeRT;
      scene.activeRT := drawn;
      OnAfterGUI(repaint);
    }
  }
}
