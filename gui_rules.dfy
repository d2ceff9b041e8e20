/*
 * The pure rules of the GUI capture (VRGUI): which screen grabber owns a
 * camera, which texture a grabber renders into, which canvases still have to
 * be redirected into the GUI texture and what redirecting does to a canvas,
 * and the priority the sorting-aware raycaster reports.
 */
module GuiRules {
  import opened Engine

  type GrabberId = nat

  /** A screen grabber: the VRGUI object itself, or one registered from outside. */
  datatype Grabber = Gui | External(id: GrabberId)

  /** What the grabbers registered from outside answer: foreign code, consulted through its answers. */
  datatype Foreign = Foreign(
    check: (GrabberId, CameraId) -> bool,
    firstTexture: GrabberId -> Option<TextureId>)   // GetTextures().FirstOrDefault()

  /** `grabber.Check(camera)`: VRGUI's own Check asks the interpreter whether the camera draws UI. */
  predicate Check(g: Grabber, cam: CameraId, isUI: CameraId -> bool, foreign: Foreign) {
    match g
    case Gui => isUI(cam)
    case External(id) => foreign.check(id, cam)
  }

  /** `grabber.GetTextures().FirstOrDefault()`: VRGUI yields the uGUI texture first. */
  function FirstTexture(g: Grabber, uGuiTexture: TextureId, foreign: Foreign): (r: Option<TextureId>)
    ensures g == Gui ==> r == Some(uGuiTexture)
    ensures g.External? ==> r == foreign.firstTexture(g.id)
  {
    match g
    case Gui => Some(uGuiTexture)
    case External(id) => foreign.firstTexture(id)
  }

  /** The first grabber in `grabbers` whose Check accepts the camera. */
  function FirstAccepting(grabbers: seq<Grabber>, cam: CameraId, isUI: CameraId -> bool, foreign: Foreign): Option<Grabber> {
    if grabbers == [] then None
    else if Check(grabbers[0], cam, isUI, foreign) then Some(grabbers[0])
    else FirstAccepting(grabbers[1..], cam, isUI, foreign)
  }

  /** FirstAccepting finds an accepting grabber with none before it, or there is none. */
  lemma {:induction false} FirstAcceptingIsFirst(grabbers: seq<Grabber>, cam: CameraId, isUI: CameraId -> bool, foreign: Foreign)
    ensures var r := FirstAccepting(grabbers, cam, isUI, foreign);
            r.Some? ==> exists i | 0 <= i < |grabbers| :: grabbers[i] == r.value && Check(grabbers[i], cam, isUI, foreign)
                          && forall j | 0 <= j < i :: !Check(grabbers[j], cam, isUI, foreign)
    ensures FirstAccepting(grabbers, cam, isUI, foreign).None? <==>
              forall i | 0 <= i < |grabbers| :: !Check(grabbers[i], cam, isUI, foreign)
  {
    if grabbers != [] && !Check(grabbers[0], cam, isUI, foreign) {
      FirstAcceptingIsFirst(grabbers[1..], cam, isUI, foreign);
      assert forall i | 1 <= i < |grabbers| :: grabbers[i] == grabbers[1..][i - 1];
      var r := FirstAccepting(grabbers, cam, isUI, foreign);
      if r.Some? {
        var i :| 0 <= i < |grabbers[1..]| && grabbers[1..][i] == r.value && Check(grabbers[1..][i], cam, isUI, foreign)
                 && forall j | 0 <= j < i :: !Check(grabbers[1..][j], cam, isUI, foreign);
        assert grabbers[i + 1] == r.value;
      }
    }
  }

  /**
   * FindCameraMapping: the first registered grabber whose Check accepts the
   * camera; failing that VRGUI itself when the camera draws UI; else none.
   */
  function Owner(grabbers: seq<Grabber>, cam: CameraId, isUI: CameraId -> bool, foreign: Foreign): Option<Grabber> {
    match FirstAccepting(grabbers, cam, isUI, foreign)
    case Some(g) => Some(g)
    case None => if isUI(cam) then Some(Gui) else None
  }

  /** Ownership is first-match-wins over the grabber list, with VRGUI as the fallback for UI cameras. */
  lemma OwnerIsFirstMatch(grabbers: seq<Grabber>, cam: CameraId, isUI: CameraId -> bool, foreign: Foreign)
    ensures var r := Owner(grabbers, cam, isUI, foreign);
            (exists i | 0 <= i < |grabbers| :: Check(grabbers[i], cam, isUI, foreign)) ==>
              r.Some? && exists i | 0 <= i < |grabbers| :: grabbers[i] == r.value && Check(grabbers[i], cam, isUI, foreign)
                                   && forall j | 0 <= j < i :: !Check(grabbers[j], cam, isUI, foreign)
    ensures (forall i | 0 <= i < |grabbers| :: !Check(grabbers[i], cam, isUI, foreign)) ==>
              Owner(grabbers, cam, isUI, foreign) == if isUI(cam) then Some(Gui) else None
    ensures Owner(grabbers, cam, isUI, foreign).None? <==>
              !isUI(cam) && forall i | 0 <= i < |grabbers| :: !Check(grabbers[i], cam, isUI, foreign)
  {
    FirstAcceptingIsFirst(grabbers, cam, isUI, foreign);
  }

  /**
   * IsUnprocessed, as intended: an overlay canvas, or a screen-space-camera
   * canvas that is not drawn by the GUI camera and whose camera is missing,
   * destroyed, or renders to the screen.
   */
  predicate IsUnprocessed(c: Canvas, guiCamera: CameraId, cams: map<CameraId, Cam>, live: set<CameraId>)
    requires c.worldCamera.Some? ==> c.worldCamera.value in cams
  {
    || c.renderMode == ScreenSpaceOverlay
    || (c.renderMode == ScreenSpaceCamera && c.worldCamera != Some(guiCamera)
        && (c.worldCamera.None? || c.worldCamera.value !in live || cams[c.worldCamera.value].targetTexture.None?))
  }

  /**
   * IsUnprocessed as written: it reads the target texture of the canvas's
   * camera without testing the camera, so a screen-space-camera canvas whose
   * camera is missing or destroyed raises an exception (None).
   */
  function IsUnprocessedAsWritten(c: Canvas, guiCamera: CameraId, cams: map<CameraId, Cam>, live: set<CameraId>): (r: Option<bool>)
    requires c.worldCamera.Some? ==> c.worldCamera.value in cams
    requires guiCamera in live
    ensures r.None? <==> c.renderMode == ScreenSpaceCamera && (c.worldCamera.None? || c.worldCamera.value !in live)
    ensures r.Some? ==> r.value == IsUnprocessed(c, guiCamera, cams, live)
  {
    if c.renderMode == ScreenSpaceOverlay then Some(true)
    else if c.renderMode != ScreenSpaceCamera then Some(false)
    // the engine's comparison: a missing or destroyed camera is unequal to the live GUI camera
    else if c.worldCamera.None? || c.worldCamera.value !in live then None
    else if c.worldCamera.value == guiCamera then Some(false)
    else Some(cams[c.worldCamera.value].targetTexture.None?)
  }

  /** `1 << layer & UILayerMask`: whether the layer is one of the UI layers. */
  predicate InUILayers(l: Layer, ctx: Context) {
    LayerBit(l) & ctx.uiLayerMask != 0
  }

  /**
   * What CatchCanvas does to one object below a canvas.  The object is reached
   * only when it is active: `GetComponentsInChildren` skips inactive objects.
   * Then it moves to the UI layer when the canvas moves (`moving`), and its
   * graphic falls back to its default material when the context asks for it.
   */
  function Reached(n: Node, moving: bool, ctx: Context): Node {
    if !n.active then n
    else n.(layer := if moving then ctx.uiLayer else n.layer,
            defaultMaterial := n.defaultMaterial || ctx.enforceDefaultGUIMaterials)
  }

  /** What CatchCanvas does to the objects below a canvas, one by one. */
  function ReachedAll(nodes: seq<Node>, moving: bool, ctx: Context): (r: seq<Node>)
    ensures |r| == |nodes|
  {
    if nodes == [] then [] else [Reached(nodes[0], moving, ctx)] + ReachedAll(nodes[1..], moving, ctx)
  }

  lemma {:induction false} ReachedAllPointwise(nodes: seq<Node>, moving: bool, ctx: Context)
    ensures forall i | 0 <= i < |nodes| :: ReachedAll(nodes, moving, ctx)[i] == Reached(nodes[i], moving, ctx)
  {
    if nodes != [] {
      ReachedAllPointwise(nodes[1..], moving, ctx);
    }
  }

  /**
   * What CatchCanvas does to one canvas: it is drawn by the GUI camera in
   * screen-space-camera mode; a canvas outside the UI layers is moved, with
   * every active object below it, to the UI layer; the active graphics fall
   * back to their default materials when the context asks for it; inactive
   * objects are not touched; and in the alternative sorting mode a graphic
   * raycaster is replaced by a sorting-aware one.
   */
  function Caught(c: Canvas, guiCamera: CameraId, ctx: Context): (r: Canvas)
    ensures r.renderMode == ScreenSpaceCamera && r.worldCamera == Some(guiCamera)
    ensures r.sortingOrder == c.sortingOrder && |r.descendants| == |c.descendants|
    ensures r.layer == if InUILayers(c.layer, ctx) then c.layer else ctx.uiLayer
    ensures r.raycaster == if ctx.guiAlternativeSortingMode && c.raycaster != NoRaycaster
                           then SortingAwareGraphicRaycaster else c.raycaster
  {
    var moving := !InUILayers(c.layer, ctx);
    c.(renderMode := ScreenSpaceCamera,
       worldCamera := Some(guiCamera),
       layer := if moving then ctx.uiLayer else c.layer,
       descendants := ReachedAll(c.descendants, moving, ctx),
       // a sorting-aware raycaster is itself a graphic raycaster, so it is replaced too
       raycaster := if ctx.guiAlternativeSortingMode && c.raycaster != NoRaycaster
                    then SortingAwareGraphicRaycaster else c.raycaster)
  }

  /**
   * Catching a canvas reaches exactly its active objects: an inactive one is
   * left as it was; an active one moves with the canvas to the UI layer and
   * falls back to its default material when the context asks for it.
   */
  lemma CaughtReachesActiveOnly(c: Canvas, guiCamera: CameraId, ctx: Context)
    ensures var r := Caught(c, guiCamera, ctx);
            && (forall i | 0 <= i < |c.descendants| && !c.descendants[i].active :: r.descendants[i] == c.descendants[i])
            && forall i | 0 <= i < |c.descendants| && c.descendants[i].active ::
                 && r.descendants[i].active
                 && r.descendants[i].layer == (if InUILayers(c.layer, ctx) then c.descendants[i].layer else ctx.uiLayer)
                 && r.descendants[i].defaultMaterial == (c.descendants[i].defaultMaterial || ctx.enforceDefaultGUIMaterials)
  {
    ReachedAllPointwise(c.descendants, !InUILayers(c.layer, ctx), ctx);
  }

  /** A caught canvas is no longer unprocessed. */
  lemma CaughtIsProcessed(c: Canvas, guiCamera: CameraId, ctx: Context, cams: map<CameraId, Cam>, live: set<CameraId>)
    requires guiCamera in cams
    ensures !IsUnprocessed(Caught(c, guiCamera, ctx), guiCamera, cams, live)
  {
  }

  /** Whether CatchCanvas rewrites canvas `k` of the registry `targets`. */
  predicate Catches(canvases: map<CanvasId, Canvas>, k: CanvasId, targets: seq<CanvasId>, liveCanvases: set<CanvasId>,
                    guiCamera: CameraId, cams: map<CameraId, Cam>, live: set<CameraId>, ignored: CanvasId -> bool)
    requires k in canvases
    requires canvases[k].worldCamera.Some? ==> canvases[k].worldCamera.value in cams
  {
    k in targets && k in liveCanvases && IsUnprocessed(canvases[k], guiCamera, cams, live) && !ignored(k)
  }


  /**
   * CatchCanvas over the canvases of the registry: every live registered
   * canvas that is unprocessed and not ignored is caught; nothing else changes.
   */
  function CatchAll(canvases: map<CanvasId, Canvas>, targets: seq<CanvasId>, liveCanvases: set<CanvasId>,
                    guiCamera: CameraId, cams: map<CameraId, Cam>, live: set<CameraId>, ctx: Context,
                    ignored: CanvasId -> bool): (r: map<CanvasId, Canvas>)
    requires CamerasKnown(canvases, cams) && guiCamera in cams
    ensures r.Keys == canvases.Keys && CamerasKnown(r, cams)
    ensures forall k | k in canvases && (ignored(k) || k !in targets || k !in liveCanvases) :: r[k] == canvases[k]
    ensures forall k | k in canvases && k in targets && k in liveCanvases && !ignored(k) ::
              !IsUnprocessed(r[k], guiCamera, cams, live)
  {
    map k | k in canvases ::
      if Catches(canvases, k, targets, liveCanvases, guiCamera, cams, live, ignored) then Caught(canvases[k], guiCamera, ctx)
      else canvases[k]
  }

  /** Catching canvases twice is catching them once. */
  lemma CatchAllIdempotent(canvases: map<CanvasId, Canvas>, targets: seq<CanvasId>, liveCanvases: set<CanvasId>,
                           guiCamera: CameraId, cams: map<CameraId, Cam>, live: set<CameraId>, ctx: Context,
                           ignored: CanvasId -> bool)
    requires CamerasKnown(canvases, cams) && guiCamera in cams
    ensures var once := CatchAll(canvases, targets, liveCanvases, guiCamera, cams, live, ctx, ignored);
            CatchAll(once, targets, liveCanvases, guiCamera, cams, live, ctx, ignored) == once
  {
    var once := CatchAll(canvases, targets, liveCanvases, guiCamera, cams, live, ctx, ignored);
    var twice := CatchAll(once, targets, liveCanvases, guiCamera, cams, live, ctx, ignored);
    forall k | k in once ensures twice[k] == once[k] {
      assert !Catches(once, k, targets, liveCanvases, guiCamera, cams, live, ignored);
    }
  }

  /**
   * CatchCanvas as written, following the registry in order: it stops at the
   * first canvas whose IsUnprocessed raises, leaving that canvas and every
   * later one as they were.  The flag says whether an exception escaped.
   */
  function CatchAllAsWritten(canvases: map<CanvasId, Canvas>, targets: seq<CanvasId>, liveCanvases: set<CanvasId>,
                             guiCamera: CameraId, cams: map<CameraId, Cam>, live: set<CameraId>, ctx: Context,
                             ignored: CanvasId -> bool): (r: (map<CanvasId, Canvas>, bool))
    requires CamerasKnown(canvases, cams) && guiCamera in cams && guiCamera in live
    requires forall i | 0 <= i < |targets| :: targets[i] in canvases
    ensures r.0.Keys == canvases.Keys && CamerasKnown(r.0, cams)
    ensures !r.1 ==> r.0 == CatchAll(canvases, targets, liveCanvases, guiCamera, cams, live, ctx, ignored)
    decreases |targets|
  {
    if targets == [] then (canvases, false)
    else
      var k := targets[0];
      if k !in liveCanvases then CatchAllAsWritten(canvases, targets[1..], liveCanvases, guiCamera, cams, live, ctx, ignored)
      else
        match IsUnprocessedAsWritten(canvases[k], guiCamera, cams, live)
        case None => (canvases, true)
        case Some(unprocessed) =>
          var next := if unprocessed && !ignored(k) then canvases[k := Caught(canvases[k], guiCamera, ctx)] else canvases;
          var rest := CatchAllAsWritten(next, targets[1..], liveCanvases, guiCamera, cams, live, ctx, ignored);
          CatchAllAsWrittenStep(canvases, next, targets, liveCanvases, guiCamera, cams, live, ctx, ignored);
          rest
  }

  /**
   * The pass as written raises exactly when some live canvas of the registry
   * raises in IsUnprocessed: catching a canvas never makes it raise, so the
   * canvases before the first raising one do not change the answer.
   */
  lemma {:induction false} CatchAllAsWrittenRaises(canvases: map<CanvasId, Canvas>, targets: seq<CanvasId>,
                                                   liveCanvases: set<CanvasId>, guiCamera: CameraId,
                                                   cams: map<CameraId, Cam>, live: set<CameraId>, ctx: Context,
                                                   ignored: CanvasId -> bool)
    requires CamerasKnown(canvases, cams) && guiCamera in cams && guiCamera in live
    requires forall i | 0 <= i < |targets| :: targets[i] in canvases
    ensures CatchAllAsWritten(canvases, targets, liveCanvases, guiCamera, cams, live, ctx, ignored).1
            <==> exists i | 0 <= i < |targets| ::
                   targets[i] in liveCanvases && IsUnprocessedAsWritten(canvases[targets[i]], guiCamera, cams, live).None?
    decreases |targets|
  {
    if targets != [] {
      var k, rest := targets[0], targets[1..];
      if k in liveCanvases && IsUnprocessedAsWritten(canvases[k], guiCamera, cams, live).None? {
        assert targets[0] == k;
      } else {
        var next := if k in liveCanvases && IsUnprocessedAsWritten(canvases[k], guiCamera, cams, live) == Some(true) && !ignored(k)
                    then canvases[k := Caught(canvases[k], guiCamera, ctx)] else canvases;
        assert CamerasKnown(next, cams);
        CatchAllAsWrittenRaises(next, rest, liveCanvases, guiCamera, cams, live, ctx, ignored);
        forall j | 0 <= j < |rest|
          ensures IsUnprocessedAsWritten(next[rest[j]], guiCamera, cams, live).None?
                  <==> IsUnprocessedAsWritten(canvases[rest[j]], guiCamera, cams, live).None?
        {
          assert rest[j] == targets[j + 1];
        }
        if exists i | 0 <= i < |targets| ::
             targets[i] in liveCanvases && IsUnprocessedAsWritten(canvases[targets[i]], guiCamera, cams, live).None? {
          var i :| 0 <= i < |targets| && targets[i] in liveCanvases
                   && IsUnprocessedAsWritten(canvases[targets[i]], guiCamera, cams, live).None?;
          assert rest[i - 1] == targets[i];
        }
      }
    }
  }

  lemma CatchAllAsWrittenStep(canvases: map<CanvasId, Canvas>, next: map<CanvasId, Canvas>, targets: seq<CanvasId>,
                              liveCanvases: set<CanvasId>, guiCamera: CameraId, cams: map<CameraId, Cam>,
                              live: set<CameraId>, ctx: Context, ignored: CanvasId -> bool)
    requires CamerasKnown(canvases, cams) && guiCamera in cams && guiCamera in live
    requires targets != [] && targets[0] in canvases && targets[0] in liveCanvases
    requires IsUnprocessedAsWritten(canvases[targets[0]], guiCamera, cams, live).Some?
    requires next == if Catches(canvases, targets[0], [targets[0]], liveCanvases, guiCamera, cams, live, ignored)
                     then canvases[targets[0] := Caught(canvases[targets[0]], guiCamera, ctx)] else canvases
    ensures CamerasKnown(next, cams)
    ensures CatchAll(next, targets[1..], liveCanvases, guiCamera, cams, live, ctx, ignored)
            == CatchAll(canvases, targets, liveCanvases, guiCamera, cams, live, ctx, ignored)
  {
    var k := targets[0];
    var a := CatchAll(next, targets[1..], liveCanvases, guiCamera, cams, live, ctx, ignored);
    var b := CatchAll(canvases, targets, liveCanvases, guiCamera, cams, live, ctx, ignored);
    forall j | j in canvases ensures a[j] == b[j] {
      if j == k {
        CaughtIsProcessed(canvases[k], guiCamera, ctx, cams, live);
      } else if j in targets[1..] {
        assert j in targets;
      } else {
        assert j in targets <==> j == k;
      }
    }
  }

  /**
   * A registry whose first canvas draws through a camera it does not have,
   * followed by an overlay canvas: as written the pass raises on the first
   * and leaves every canvas as it was, while the intended pass catches the
   * overlay canvas.
   */
  lemma MissingCameraAbortsCatch(canvases: map<CanvasId, Canvas>, a: CanvasId, b: CanvasId, liveCanvases: set<CanvasId>,
                                 guiCamera: CameraId, cams: map<CameraId, Cam>, live: set<CameraId>, ctx: Context,
                                 ignored: CanvasId -> bool)
    requires CamerasKnown(canvases, cams) && guiCamera in cams && guiCamera in live
    requires a in canvases && b in canvases && a in liveCanvases && b in liveCanvases && !ignored(b)
    requires canvases[a].renderMode == ScreenSpaceCamera && canvases[a].worldCamera.None?
    requires canvases[b].renderMode == ScreenSpaceOverlay
    ensures CatchAllAsWritten(canvases, [a, b], liveCanvases, guiCamera, cams, live, ctx, ignored) == (canvases, true)
    ensures CatchAll(canvases, [a, b], liveCanvases, guiCamera, cams, live, ctx, ignored)[b].renderMode == ScreenSpaceCamera
  {
    assert Catches(canvases, b, [a, b], liveCanvases, guiCamera, cams, live, ignored);
  }

  /**
   * The sorting-aware raycaster's priority, sort-order priority and
   * render-order priority: the negated sorting order of its canvas, in
   * 32-bit arithmetic, where negating the least value gives it back.
   */
  function GetOrder(sortingOrder: int): (r: int)
    requires -0x8000_0000 <= sortingOrder < 0x8000_0000
    ensures -0x8000_0000 <= r < 0x8000_0000
    ensures sortingOrder != -0x8000_0000 ==> r + sortingOrder == 0
    ensures sortingOrder == -0x8000_0000 ==> r == sortingOrder
  {
    if sortingOrder == -0x8000_0000 then sortingOrder else -sortingOrder
  }

  /** A canvas sorted later is raycast earlier, except at the least sorting order. */
  lemma GetOrderReversesSorting(a: int, b: int)
    requires -0x8000_0000 < a < b < 0x8000_0000
    ensures GetOrder(a) > GetOrder(b)
  {
  }

  /**
   * CatchCanvas visits the registry in order; visiting one more canvas `k`
   * catches it exactly when it is live, unprocessed and not ignored at that
   * point (a repeated canvas has already been caught).
   */
  lemma CatchAllStep(canvases: map<CanvasId, Canvas>, prefix: seq<CanvasId>, k: CanvasId, liveCanvases: set<CanvasId>,
                     guiCamera: CameraId, cams: map<CameraId, Cam>, live: set<CameraId>, ctx: Context,
                     ignored: CanvasId -> bool)
    requires CamerasKnown(canvases, cams) && guiCamera in cams && k in canvases
    ensures var m := CatchAll(canvases, prefix, liveCanvases, guiCamera, cams, live, ctx, ignored);
            CatchAll(canvases, prefix + [k], liveCanvases, guiCamera, cams, live, ctx, ignored)
            == if Catches(m, k, [k], liveCanvases, guiCamera, cams, live, ignored) then m[k := Caught(m[k], guiCamera, ctx)] else m
  {
    var m := CatchAll(canvases, prefix, liveCanvases, guiCamera, cams, live, ctx, ignored);
    var a := CatchAll(canvases, prefix + [k], liveCanvases, guiCamera, cams, live, ctx, ignored);
    var b := if Catches(m, k, [k], liveCanvases, guiCamera, cams, live, ignored) then m[k := Caught(m[k], guiCamera, ctx)] else m;
    forall j | j in canvases ensures a[j] == b[j] {
      assert j in prefix + [k] <==> j in prefix || j == k;
      if j == k && k in prefix && Catches(canvases, k, prefix, liveCanvases, guiCamera, cams, live, ignored) {
        CaughtIsProcessed(canvases[k], guiCamera, ctx, cams, live);
      }
    }
  }

  /** One round of CatchCanvas: catching the next registered canvas extends CatchAll by it. */
  lemma CatchRound(canvases: map<CanvasId, Canvas>, registry: seq<CanvasId>, i: nat, liveCanvases: set<CanvasId>,
                   guiCamera: CameraId, cams: map<CameraId, Cam>, live: set<CameraId>, ctx: Context,
                   ignored: CanvasId -> bool, m: map<CanvasId, Canvas>, m': map<CanvasId, Canvas>)
    requires CamerasKnown(canvases, cams) && guiCamera in cams && i < |registry| && registry[i] in canvases
    requires m == CatchAll(canvases, registry[..i], liveCanvases, guiCamera, cams, live, ctx, ignored)
    requires var k := registry[i];
             m' == if k in liveCanvases && IsUnprocessed(m[k], guiCamera, cams, live) && !ignored(k)
                   then m[k := Caught(m[k], guiCamera, ctx)] else m
    ensures m' == CatchAll(canvases, registry[..i + 1], liveCanvases, guiCamera, cams, live, ctx, ignored)
  {
    assert registry[..i + 1] == registry[..i] + [registry[i]];
    CatchAllStep(canvases, registry[..i], registry[i], liveCanvases, guiCamera, cams, live, ctx, ignored);
  }

  /**
   * OnAssign of VRGUI: the GUI camera's depth becomes the smaller of its own
   * depth and one less than the assigned camera's, so it draws first.
   */
  function AssignDepth(guiDepth: real, camDepth: real): (r: real)
    ensures r <= guiDepth && r <= camDepth - 1.0
    ensures r == guiDepth || r == camDepth - 1.0
  {
    if guiDepth < camDepth - 1.0 then guiDepth else camDepth - 1.0
  }

  /**
   * `d`, the GUI camera's depth after judging the cameras `judged` starting
   * from depth `d0`, is no deeper than `d0`, in front of every other judged
   * camera VRGUI owns, and (unless the GUI camera judged itself) either `d0`
   * or just in front of one of them: the minimum OnAssign computes.
   */
  ghost predicate InFront(d: real, d0: real, cams0: map<CameraId, Cam>, judged: set<CameraId>, guiCamera: CameraId,
                          grabbers: seq<Grabber>, isUI: CameraId -> bool, foreign: Foreign)
  {
    && d <= d0
    && (forall c | c in judged && c in cams0 && c != guiCamera && Owner(grabbers, c, isUI, foreign) == Some(Gui) ::
          d <= cams0[c].depth - 1.0)
    && (guiCamera !in judged ==>
          d == d0 || exists c | c in judged && c in cams0 && Owner(grabbers, c, isUI, foreign) == Some(Gui) ::
                       d == cams0[c].depth - 1.0)
  }

  /** Judging one more camera keeps the GUI camera in front. */
  lemma InFrontStep(d: real, d0: real, cams0: map<CameraId, Cam>, judged: set<CameraId>, c: CameraId, guiCamera: CameraId,
                    grabbers: seq<Grabber>, isUI: CameraId -> bool, foreign: Foreign)
    requires InFront(d, d0, cams0, judged, guiCamera, grabbers, isUI, foreign)
    requires c in cams0
    ensures var camDepth := if c == guiCamera then d else cams0[c].depth;
            var d' := if Owner(grabbers, c, isUI, foreign) == Some(Gui) then AssignDepth(d, camDepth) else d;
            InFront(d', d0, cams0, judged + {c}, guiCamera, grabbers, isUI, foreign)
  {
  }

  /** The cameras with the depth of camera `g` replaced. */
  function WithDepth(cams: map<CameraId, Cam>, g: CameraId, d: real): (r: map<CameraId, Cam>)
    requires g in cams
    ensures r.Keys == cams.Keys && r[g].depth == d
    ensures forall c | c in cams && c != g :: r[c] == cams[c]
  {
    cams[g := cams[g].(depth := d)]
  }

  lemma WithDepthTwice(cams: map<CameraId, Cam>, g: CameraId, d: real, d': real)
    requires g in cams
    ensures WithDepth(WithDepth(cams, g, d), g, d') == WithDepth(cams, g, d')
  {
    var c := cams[g];
    assert c.(depth := d).(depth := d') == c.(depth := d');
  }

  /**
   * The camera-to-grabber dictionary after AddCamera of every camera in
   * `judged`: a camera some grabber now owns is mapped to it; every other
   * entry is kept, including entries nobody owns any more.
   */
  function Rejudged(mappings: map<CameraId, Grabber>, judged: set<CameraId>, grabbers: seq<Grabber>,
                    isUI: CameraId -> bool, foreign: Foreign): map<CameraId, Grabber>
  {
    map c | c in mappings.Keys + (set c | c in judged && Owner(grabbers, c, isUI, foreign).Some?) ::
      if c in judged && Owner(grabbers, c, isUI, foreign).Some? then Owner(grabbers, c, isUI, foreign).value else mappings[c]
  }

  /**
   * After the rejudgement every judged camera that has an owner is mapped to
   * it, and every other entry of the dictionary is kept as it was.
   */
  lemma RejudgedMaps(mappings: map<CameraId, Grabber>, judged: set<CameraId>, grabbers: seq<Grabber>,
                     isUI: CameraId -> bool, foreign: Foreign)
    ensures var r := Rejudged(mappings, judged, grabbers, isUI, foreign);
            && r.Keys == mappings.Keys + (set c | c in judged && Owner(grabbers, c, isUI, foreign).Some?)
            && (forall c | c in judged && Owner(grabbers, c, isUI, foreign).Some? :: r[c] == Owner(grabbers, c, isUI, foreign).value)
            && (forall c | c in mappings && (c !in judged || Owner(grabbers, c, isUI, foreign).None?) :: r[c] == mappings[c])
  {
  }

  /** AddCamera of one more camera extends a rejudgement by that camera. */
  lemma RejudgedStep(mappings: map<CameraId, Grabber>, judged: set<CameraId>, c: CameraId, grabbers: seq<Grabber>,
                     isUI: CameraId -> bool, foreign: Foreign)
    ensures var m := Rejudged(mappings, judged, grabbers, isUI, foreign);
            Rejudged(mappings, judged + {c}, grabbers, isUI, foreign)
            == match Owner(grabbers, c, isUI, foreign) case Some(g) => m[c := g] case None => m
  {
  }

  /**
   * The dictionary after AddCamera of each camera of `cameras`, in that
   * order: the later camera's owner overrides.
   */
  function RejudgedList(mappings: map<CameraId, Grabber>, cameras: seq<CameraId>, grabbers: seq<Grabber>,
                        isUI: CameraId -> bool, foreign: Foreign): map<CameraId, Grabber>
  {
    if cameras == [] then mappings
    else
      var m := RejudgedList(mappings, cameras[..|cameras| - 1], grabbers, isUI, foreign);
      var c := cameras[|cameras| - 1];
      match Owner(grabbers, c, isUI, foreign) case Some(g) => m[c := g] case None => m
  }

  /** Judging a list of cameras one by one is the rejudgement of its set, whatever the order. */
  lemma {:induction false} RejudgedListIsRejudged(mappings: map<CameraId, Grabber>, cameras: seq<CameraId>,
                                                  grabbers: seq<Grabber>, isUI: CameraId -> bool, foreign: Foreign)
    ensures RejudgedList(mappings, cameras, grabbers, isUI, foreign)
            == Rejudged(mappings, (set c | c in cameras), grabbers, isUI, foreign)
  {
    if cameras == [] {
      assert Rejudged(mappings, {}, grabbers, isUI, foreign) == mappings;
    } else {
      var prefix, c := cameras[..|cameras| - 1], cameras[|cameras| - 1];
      var judged, judged' := (set x | x in prefix), (set x | x in cameras);
      assert cameras == prefix + [c];
      assert judged' == judged + {c};
      var m := RejudgedList(mappings, prefix, grabbers, isUI, foreign);
      calc {
        RejudgedList(mappings, cameras, grabbers, isUI, foreign);
        match Owner(grabbers, c, isUI, foreign) case Some(g) => m[c := g] case None => m;
        { RejudgedListIsRejudged(mappings, prefix, grabbers, isUI, foreign); }
        match Owner(grabbers, c, isUI, foreign)
        case Some(g) => Rejudged(mappings, judged, grabbers, isUI, foreign)[c := g]
        case None => Rejudged(mappings, judged, grabbers, isUI, foreign);
        { RejudgedStep(mappings, judged, c, grabbers, isUI, foreign); }
        Rejudged(mappings, judged + {c}, grabbers, isUI, foreign);
      }
    }
  }

  /**
   * The GUI camera's depth after AddCamera of each camera of `cameras`, in
   * that order, starting from `d0`: OnAssign of every camera VRGUI owns.
   */
  function FrontDepth(d0: real, cams0: map<CameraId, Cam>, guiCamera: CameraId, cameras: seq<CameraId>,
                      grabbers: seq<Grabber>, isUI: CameraId -> bool, foreign: Foreign): real
    requires forall c | c in cameras :: c in cams0
  {
    if cameras == [] then d0
    else
      var d := FrontDepth(d0, cams0, guiCamera, cameras[..|cameras| - 1], grabbers, isUI, foreign);
      var c := cameras[|cameras| - 1];
      var camDepth := if c == guiCamera then d else cams0[c].depth;
      if Owner(grabbers, c, isUI, foreign) == Some(Gui) then AssignDepth(d, camDepth) else d
  }

  /** Whatever the order of the cameras, OnAssign leaves the GUI camera in front of all it owns. */
  lemma {:induction false} FrontDepthInFront(d0: real, cams0: map<CameraId, Cam>, guiCamera: CameraId, cameras: seq<CameraId>,
                                             grabbers: seq<Grabber>, isUI: CameraId -> bool, foreign: Foreign)
    requires forall c | c in cameras :: c in cams0
    ensures InFront(FrontDepth(d0, cams0, guiCamera, cameras, grabbers, isUI, foreign), d0, cams0,
                    (set c | c in cameras), guiCamera, grabbers, isUI, foreign)
  {
    if cameras != [] {
      var prefix, c := cameras[..|cameras| - 1], cameras[|cameras| - 1];
      assert cameras == prefix + [c];
      assert (set x | x in cameras) == (set x | x in prefix) + {c};
      FrontDepthInFront(d0, cams0, guiCamera, prefix, grabbers, isUI, foreign);
      InFrontStep(FrontDepth(d0, cams0, guiCamera, prefix, grabbers, isUI, foreign), d0, cams0,
                  (set x | x in prefix), c, guiCamera, grabbers, isUI, foreign);
    }
  }

  /** One round of RejudgeAll: AddCamera of the next camera of the list extends the dictionary fold by it. */
  lemma RejudgeRound(m0: map<CameraId, Grabber>, cameras: seq<CameraId>, i: nat,
                     m: map<CameraId, Grabber>, m': map<CameraId, Grabber>,
                     grabbers: seq<Grabber>, isUI: CameraId -> bool, foreign: Foreign)
    requires i < |cameras|
    requires m == RejudgedList(m0, cameras[..i], grabbers, isUI, foreign)
    requires m' == match Owner(grabbers, cameras[i], isUI, foreign) case Some(g) => m[cameras[i] := g] case None => m
    ensures m' == RejudgedList(m0, cameras[..i + 1], grabbers, isUI, foreign)
  {
    assert cameras[..i + 1][..i] == cameras[..i];
  }

  /** One round of RejudgeAll: AddCamera of the next camera of the list extends the depth fold by it. */
  lemma DepthRound(cams0: map<CameraId, Cam>, guiCamera: CameraId, cameras: seq<CameraId>, i: nat,
                   cams: map<CameraId, Cam>, cams': map<CameraId, Cam>,
                   grabbers: seq<Grabber>, isUI: CameraId -> bool, foreign: Foreign)
    requires i < |cameras| && guiCamera in cams0 && forall c | c in cameras :: c in cams0
    requires cams == WithDepth(cams0, guiCamera, FrontDepth(cams0[guiCamera].depth, cams0, guiCamera, cameras[..i], grabbers, isUI, foreign))
    requires cams' == WithDepth(cams, guiCamera,
                                if Owner(grabbers, cameras[i], isUI, foreign) == Some(Gui)
                                then AssignDepth(cams[guiCamera].depth, cams[cameras[i]].depth)
                                else cams[guiCamera].depth)
    ensures cams' == WithDepth(cams0, guiCamera, FrontDepth(cams0[guiCamera].depth, cams0, guiCamera, cameras[..i + 1], grabbers, isUI, foreign))
  {
    var c, d0 := cameras[i], cams0[guiCamera].depth;
    assert cameras[..i + 1][..i] == cameras[..i];
    var d := FrontDepth(d0, cams0, guiCamera, cameras[..i], grabbers, isUI, foreign);
    assert cams[guiCamera].depth == d;
    assert cams[c].depth == if c == guiCamera then d else cams0[c].depth;
    assert cams'[guiCamera].depth == FrontDepth(d0, cams0, guiCamera, cameras[..i + 1], grabbers, isUI, foreign);
    WithDepthTwice(cams0, guiCamera, d, cams'[guiCamera].depth);
  }

  /** After the last round, the dictionary is the rejudgement of the judged set. */
  lemma RejudgeDone(m0: map<CameraId, Grabber>, judged: set<CameraId>, cameras: seq<CameraId>,
                    grabbers: seq<Grabber>, isUI: CameraId -> bool, foreign: Foreign)
    requires forall c :: c in cameras <==> c in judged
    ensures RejudgedList(m0, cameras, grabbers, isUI, foreign) == Rejudged(m0, judged, grabbers, isUI, foreign)
  {
    var s := set c | c in cameras;
    assert s == judged;
    RejudgedListIsRejudged(m0, cameras, grabbers, isUI, foreign);
  }

  /** After the last round, the GUI camera's depth is in front of every judged camera VRGUI owns. */
  lemma DepthDone(cams0: map<CameraId, Cam>, guiCamera: CameraId, judged: set<CameraId>, cameras: seq<CameraId>,
                  d: real, grabbers: seq<Grabber>, isUI: CameraId -> bool, foreign: Foreign)
    requires guiCamera in cams0 && (forall c :: c in cameras <==> c in judged) && judged <= cams0.Keys
    requires d == FrontDepth(cams0[guiCamera].depth, cams0, guiCamera, cameras, grabbers, isUI, foreign)
    ensures InFront(d, cams0[guiCamera].depth, cams0, judged, guiCamera, grabbers, isUI, foreign)
  {
    var s := set c | c in cameras;
    assert s == judged;
    FrontDepthInFront(cams0[guiCamera].depth, cams0, guiCamera, cameras, grabbers, isUI, foreign);
  }

  /** The dictionary after EnsureCameraTargets: the entries of destroyed cameras are gone. */
  function LiveMappings(mappings: map<CameraId, Grabber>, live: set<CameraId>): (r: map<CameraId, Grabber>)
    ensures r.Keys == mappings.Keys * live
    ensures forall c | c in r :: r[c] == mappings[c]
  {
    map c | c in mappings && c in live :: mappings[c]
  }

  /**
   * The cameras after EnsureCameraTargets: every live mapped camera renders
   * into the first texture of its grabber; nothing else changes.
   */
  function Retargeted(cams: map<CameraId, Cam>, mappings: map<CameraId, Grabber>, live: set<CameraId>,
                      uGuiTexture: TextureId, foreign: Foreign): (r: map<CameraId, Cam>)
    ensures r.Keys == cams.Keys
    ensures forall c | c in cams && c in mappings && c in live ::
              r[c] == cams[c].(targetTexture := FirstTexture(mappings[c], uGuiTexture, foreign))
    ensures forall c | c in cams && !(c in mappings && c in live) :: r[c] == cams[c]
  {
    map c | c in cams ::
      if c in mappings && c in live then cams[c].(targetTexture := FirstTexture(mappings[c], uGuiTexture, foreign)) else cams[c]
  }

  /**
   * The cameras after the first pass of EnsureCameraTargets over the keys
   * `keys`, in that order: each live one is pointed at its grabber's first
   * texture.
   */
  function RetargetedList(cams: map<CameraId, Cam>, mappings: map<CameraId, Grabber>, live: set<CameraId>,
                          keys: seq<CameraId>, uGuiTexture: TextureId, foreign: Foreign): map<CameraId, Cam>
    requires forall c | c in keys :: c in mappings
  {
    if keys == [] then cams
    else
      var r := RetargetedList(cams, mappings, live, keys[..|keys| - 1], uGuiTexture, foreign);
      var c := keys[|keys| - 1];
      if c in live && c in r then r[c := r[c].(targetTexture := FirstTexture(mappings[c], uGuiTexture, foreign))] else r
  }

  /**
   * One round of the first pass of EnsureCameraTargets: a live camera whose
   * target differs from its grabber's first texture is pointed at it.
   */
  lemma RetargetRound(cams0: map<CameraId, Cam>, mappings: map<CameraId, Grabber>, live: set<CameraId>,
                      keys: seq<CameraId>, i: nat, cams: map<CameraId, Cam>, cams': map<CameraId, Cam>,
                      uGuiTexture: TextureId, foreign: Foreign)
    requires i < |keys| && forall c | c in keys :: c in mappings
    requires cams == RetargetedList(cams0, mappings, live, keys[..i], uGuiTexture, foreign)
    requires var c := keys[i];
             var first := FirstTexture(mappings[c], uGuiTexture, foreign);
             cams' == if c in live && c in cams && cams[c].targetTexture != first
                      then cams[c := cams[c].(targetTexture := first)] else cams
    ensures cams' == RetargetedList(cams0, mappings, live, keys[..i + 1], uGuiTexture, foreign)
  {
    var c := keys[i];
    assert keys[..i + 1][..i] == keys[..i];
    if c in live && c in cams && cams[c].targetTexture == FirstTexture(mappings[c], uGuiTexture, foreign) {
      assert cams[c].(targetTexture := FirstTexture(mappings[c], uGuiTexture, foreign)) == cams[c];
      assert cams[c := cams[c]] == cams;
    }
  }

  /** The first pass changes exactly the live cameras among the keys visited so far. */
  lemma {:induction false} RetargetedListPointwise(cams: map<CameraId, Cam>, mappings: map<CameraId, Grabber>,
                                                   live: set<CameraId>, keys: seq<CameraId>,
                                                   uGuiTexture: TextureId, foreign: Foreign)
    requires forall c | c in keys :: c in mappings
    ensures var r := RetargetedList(cams, mappings, live, keys, uGuiTexture, foreign);
            && r.Keys == cams.Keys
            && forall c | c in cams ::
                 r[c] == if c in keys && c in live
                         then cams[c].(targetTexture := FirstTexture(mappings[c], uGuiTexture, foreign))
                         else cams[c]
  {
    if keys != [] {
      var prefix, last := keys[..|keys| - 1], keys[|keys| - 1];
      assert keys == prefix + [last];
      RetargetedListPointwise(cams, mappings, live, prefix, uGuiTexture, foreign);
      var r0 := RetargetedList(cams, mappings, live, prefix, uGuiTexture, foreign);
      var r := RetargetedList(cams, mappings, live, keys, uGuiTexture, foreign);
      forall c | c in cams
        ensures r[c] == if c in keys && c in live
                        then cams[c].(targetTexture := FirstTexture(mappings[c], uGuiTexture, foreign))
                        else cams[c]
      {
        if c == last && c in live {
          RetargetTwice(cams[c], FirstTexture(mappings[c], uGuiTexture, foreign));
        } else if c != last {
          assert (c in keys) == (c in prefix);
        }
      }
    }
  }

  lemma RetargetTwice(c: Cam, t: Option<TextureId>)
    ensures c.(targetTexture := t).(targetTexture := t) == c.(targetTexture := t)
  {
  }

  /** A pass over every key of the dictionary is Retargeted, whatever the order. */
  lemma RetargetedListIsRetargeted(cams: map<CameraId, Cam>, mappings: map<CameraId, Grabber>, live: set<CameraId>,
                                   keys: seq<CameraId>, uGuiTexture: TextureId, foreign: Foreign)
    requires forall c :: c in keys <==> c in mappings
    ensures RetargetedList(cams, mappings, live, keys, uGuiTexture, foreign)
            == Retargeted(cams, mappings, live, uGuiTexture, foreign)
  {
    RetargetedListPointwise(cams, mappings, live, keys, uGuiTexture, foreign);
  }

  /** `removalList`: the keys of `keys` whose camera was destroyed, in that order. */
  function DeadKeys(keys: seq<CameraId>, live: set<CameraId>): seq<CameraId> {
    if keys == [] then []
    else
      var c := keys[|keys| - 1];
      DeadKeys(keys[..|keys| - 1], live) + if c in live then [] else [c]
  }

  /** The removal list holds exactly the destroyed keys. */
  lemma {:induction false} DeadKeysAreDead(keys: seq<CameraId>, live: set<CameraId>)
    ensures forall c :: c in DeadKeys(keys, live) <==> c in keys && c !in live
  {
    if keys != [] {
      var prefix := keys[..|keys| - 1];
      assert keys == prefix + [keys[|keys| - 1]];
      DeadKeysAreDead(prefix, live);
    }
  }

  /** The dictionary after `Remove` of each key of `keys`, in that order. */
  function RemovedAll(mappings: map<CameraId, Grabber>, keys: seq<CameraId>): map<CameraId, Grabber> {
    if keys == [] then mappings else RemovedAll(mappings, keys[..|keys| - 1]) - {keys[|keys| - 1]}
  }

  /** Removing keys one by one leaves exactly the other entries. */
  lemma {:induction false} RemovedAllIsFilter(mappings: map<CameraId, Grabber>, keys: seq<CameraId>)
    ensures RemovedAll(mappings, keys) == map c | c in mappings && c !in keys :: mappings[c]
  {
    if keys != [] {
      var prefix := keys[..|keys| - 1];
      assert forall c | c in keys :: c in prefix || c == keys[|keys| - 1];
      RemovedAllIsFilter(mappings, prefix);
    }
  }

  /** Removing the destroyed keys of every key of the dictionary leaves its live entries. */
  lemma RemovedDeadIsLive(mappings: map<CameraId, Grabber>, keys: seq<CameraId>, live: set<CameraId>)
    requires forall c :: c in keys <==> c in mappings
    ensures RemovedAll(mappings, DeadKeys(keys, live)) == LiveMappings(mappings, live)
  {
    DeadKeysAreDead(keys, live);
    RemovedAllIsFilter(mappings, DeadKeys(keys, live));
  }

  /** Repairing the targets twice is repairing them once. */
  lemma RetargetedIdempotent(cams: map<CameraId, Cam>, mappings: map<CameraId, Grabber>, live: set<CameraId>,
                             uGuiTexture: TextureId, foreign: Foreign)
    ensures var once := Retargeted(cams, mappings, live, uGuiTexture, foreign);
            Retargeted(once, LiveMappings(mappings, live), live, uGuiTexture, foreign) == once
  {
  }

  /**
   * The most recently added grabber is consulted first: a grabber put in
   * front of the list owns every camera its Check accepts.
   */
  lemma FrontGrabberWins(g: Grabber, grabbers: seq<Grabber>, cam: CameraId, isUI: CameraId -> bool, foreign: Foreign)
    requires Check(g, cam, isUI, foreign)
    ensures Owner([g] + grabbers, cam, isUI, foreign) == Some(g)
  {
    assert ([g] + grabbers)[0] == g;
  }
}
