/*
 * The host engine as the plug-in sees it: opaque object identities, the
 * attributes of cameras and canvases, the components the plug-in attaches to
 * them, and the answers of the game-specific interpreter.  Everything the
 * plug-in reads from or writes into the engine lives in a `Scene`.
 */
module Engine {

  type CameraId = nat
  type CanvasId = nat
  type TextureId = nat
  type MaterialId = nat

  datatype Option<T> = None | Some(value: T)

  /** A visibility layer; the engine has 32 of them. */
  newtype Layer = x: int | 0 <= x < 32

  /** The culling-mask bit that stands for layer `l` (`1 << l`). */
  function LayerBit(l: Layer): bv32 {
    (1 as bv32) << (l as int)
  }

  /** `sub` names no layer that `sup` does not name. */
  predicate SubMask(sub: bv32, sup: bv32) {
    sub & !sup == 0
  }

  /** No element occurs twice. */
  predicate NoDup<T(==)>(s: seq<T>) {
    forall i, j | 0 <= i < j < |s| :: s[i] != s[j]
  }

  /** The position of the first occurrence of `x` in `s`. */
  function FirstIndex<T(==)>(s: seq<T>, x: T): (k: nat)
    requires x in s
    ensures k < |s| && s[k] == x && x !in s[..k]
  {
    if s[0] == x then 0
    else
      var k := 1 + FirstIndex(s[1..], x);
      assert s[..k] == [s[0]] + s[1..][..k - 1];
      k
  }

  /** `List.Remove`: `s` without the first occurrence of `x`, if there is one. */
  function Without<T(==)>(s: seq<T>, x: T): (r: seq<T>)
    ensures x !in s ==> r == s
    ensures x in s ==> |r| == |s| - 1 && forall i | 0 <= i < |r| :: r[i] == s[if i < FirstIndex(s, x) then i else i + 1]
    ensures forall i | 0 <= i < |r| :: r[i] in s
    ensures forall i | 0 <= i < |s| && s[i] != x :: s[i] in r
    ensures NoDup(s) ==> NoDup(r) && x !in r
  {
    if x in s then
      var k := FirstIndex(s, x);
      var r := s[..k] + s[k+1..];
      assert forall i | 0 <= i < |r| :: r[i] == if i < k then s[i] else s[i + 1];
      assert forall i | 0 <= i < |s| && i != k :: s[i] == r[if i < k then i else i - 1];
      r
    else s
  }

  /** `HashSet.ToList`, or the enumeration of a dictionary's keys: every element once, in some order. */
  method ToList<T>(s: set<T>) returns (r: seq<T>)
    ensures NoDup(r)
    ensures forall x :: x in r <==> x in s
  {
    r := [];
    var rest := s;
    while rest != {}
      invariant NoDup(r)
      invariant forall x :: x in s <==> x in r || x in rest
      invariant forall x | x in r :: x !in rest
      decreases |rest|
    {
      var x :| x in rest;
      r := r + [x];
      rest := rest - {x};
    }
  }

  datatype ClearFlags = Skybox | SolidColor | DepthOnly | Nothing

  /** The attributes of one camera component that the plug-in reads or writes. */
  datatype Cam = Cam(
    name: string,
    enabled: bool,                 // isActiveAndEnabled
    nearClip: real,
    farClip: real,
    clearFlags: ClearFlags,
    renderingPath: int,
    clearStencilAfterLightingPass: bool,
    depthTextureMode: int,
    layerCullDistances: seq<real>,
    layerCullSpherical: bool,
    useOcclusionCulling: bool,
    allowHDR: bool,
    backgroundColor: int,
    cullingMask: bv32,
    depth: real,
    targetTexture: Option<TextureId>,
    stereoTargeted: bool,          // stereoTargetEye != None
    hasListener: bool,             // an AudioListener sits on the camera's object
    // a Skybox component on the camera's object, if it has one, and its material (None when unset)
    skybox: Option<Option<MaterialId>>)

  /**
   * A CameraSlave component: the snapshot its Awake takes of the host
   * camera, and whether the camera may become the blueprint.
   */
  datatype Slave = Slave(
    nearClip: real,
    farClip: real,
    clearFlags: ClearFlags,
    renderingPath: int,
    clearStencilAfterLightingPass: bool,
    depthTextureMode: int,
    layerCullDistances: seq<real>,
    layerCullSpherical: bool,
    useOcclusionCulling: bool,
    backgroundColor: int,
    cullingMask: bv32,
    canBeMainCamera: bool)

  /**
   * CameraSlave.OnAwake: the snapshot of all eleven camera settings it
   * records, not yet allowed to be main.
   */
  function Snapshot(c: Cam): (s: Slave)
    ensures s.nearClip == c.nearClip && s.farClip == c.farClip && s.clearFlags == c.clearFlags
    ensures s.renderingPath == c.renderingPath && s.clearStencilAfterLightingPass == c.clearStencilAfterLightingPass
    ensures s.depthTextureMode == c.depthTextureMode && s.layerCullDistances == c.layerCullDistances
    ensures s.layerCullSpherical == c.layerCullSpherical && s.useOcclusionCulling == c.useOcclusionCulling
    ensures s.backgroundColor == c.backgroundColor && s.cullingMask == c.cullingMask
    ensures !s.canBeMainCamera
  {
    Slave(c.nearClip, c.farClip, c.clearFlags, c.renderingPath, c.clearStencilAfterLightingPass,
          c.depthTextureMode, c.layerCullDistances, c.layerCullSpherical, c.useOcclusionCulling,
          c.backgroundColor, c.cullingMask, false)
  }

  datatype RenderMode = ScreenSpaceOverlay | ScreenSpaceCamera | WorldSpace

  datatype Raycaster = NoRaycaster | GraphicRaycaster | SortingAwareGraphicRaycaster

  /**
   * One object below a canvas: its layer, whether it is active in the
   * hierarchy, and whether the Graphic on it (if it has one) uses its
   * default material.
   */
  datatype Node = Node(layer: Layer, active: bool, defaultMaterial: bool)

  /** The attributes of one canvas (and of the objects below it) that the plug-in touches. */
  datatype Canvas = Canvas(
    renderMode: RenderMode,
    worldCamera: Option<CameraId>,
    layer: Layer,
    descendants: seq<Node>,        // every object below the canvas, active or not
    sortingOrder: int,
    raycaster: Raycaster)

  /** The judgements the interpreter hands out for a camera. */
  datatype Judgement = MainCamera | SubCamera | GUI | GUIAndCamera | Ignore

  /** The game-specific interpreter: foreign code, consulted through its answers. */
  datatype Interpreter = Interpreter(
    judgeCamera: CameraId -> Judgement,
    isIrrelevantCamera: CameraId -> bool,
    isUICamera: CameraId -> bool,
    isIgnoredCanvas: CanvasId -> bool,
    applicationIsQuitting: bool)

  /** Every canvas that names a camera names a known one. */
  ghost predicate CamerasKnown(canvases: map<CanvasId, Canvas>, cams: map<CameraId, Cam>) {
    forall k | k in canvases && canvases[k].worldCamera.Some? :: canvases[k].worldCamera.value in cams
  }

  /** The read-only configuration of the plug-in (the context and the interpreter's masks). */
  datatype Context = Context(
    nearClipPlane: real,
    guiNearClipPlane: real,
    guiFarClipPlane: real,
    defaultCullingMask: bv32,      // Interpreter.DefaultCullingMask
    uiInvisibleMask: bv32,         // LayerMask.GetMask(UILayer, InvisibleLayer)
    ignoreMask: bv32,
    uiLayerMask: bv32,
    uiLayer: Layer,                // LayerMask.NameToLayer(UILayer)
    enforceDefaultGUIMaterials: bool,
    guiAlternativeSortingMode: bool)

  /** The type hierarchy, as far as `Type.IsSubclassOf` and `IsAssignableFrom` reveal it. */
  type TypeId = nat
  datatype Types = Types(
    isToolSubclass: TypeId -> bool,
    isAssignableFrom: (TypeId, TypeId) -> bool)

  /**
   * The engine's state.  Identities stay in `cams` and `canvases` after the
   * host destroys the object; `live` and `liveCanvases` say which ones are
   * still alive (the engine's overloaded null test).
   */
  class Scene {
    var cams: map<CameraId, Cam>
    var live: set<CameraId>
    var slaves: map<CameraId, Slave>     // CameraSlave components, by the camera that carries them
    var killers: set<CameraId>           // cameras carrying a CameraKiller
    var canvases: map<CanvasId, Canvas>
    var liveCanvases: set<CanvasId>
    var registry: seq<CanvasId>          // the canvases of the graphic registry, in its order (its keys: no repeats)
    var activeRT: Option<TextureId>      // RenderTexture.active

    ghost predicate Valid()
      reads this
    {
      && live <= cams.Keys
      && slaves.Keys <= cams.Keys
      && killers <= cams.Keys
      && liveCanvases <= canvases.Keys
      && (forall i | 0 <= i < |registry| :: registry[i] in canvases)
      && NoDup(registry)
      && CamerasKnown(canvases, cams)
    }

    /** Write one camera's attributes; no camera appears or disappears. */
    method SetCam(c: CameraId, v: Cam)
      requires c in cams
      modifies this`cams
      ensures cams == old(cams)[c := v] && cams.Keys == old(cams.Keys)
      ensures old(Valid()) ==> Valid()
    {
      cams := cams[c := v];
    }

    /** The engine's null test on a camera reference. */
    predicate Alive(c: CameraId)
      reads this
    {
      c in live
    }
  }
}
