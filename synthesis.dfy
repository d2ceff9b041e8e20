/*
 * The stereo camera synthesiser (VRCamera) as a state machine over values:
 * the current blueprint, the ordered list of registered camera slaves, the
 * events raised so far, and the parts of the scene it writes.  The class
 * `StereoCamera.VRCamera` performs these steps in place and is proved equal
 * to them.  Each step's function promises only that it keeps the state
 * well formed; what it does is stated by the lemma that follows it.
 */
module Synthesis {
  import opened Engine

  /** MIN_FAR_CLIP_PLANE: the VR camera never sees less far than this. */
  const MinFarClipPlane: real := 10.0

  /** The name that makes an elected blueprint stick. */
  const MainCameraName: string := "Main Camera"

  /** The two events of VRCamera, in the order they are raised. */
  datatype CameraEvent =
    | InitializeCamera(camera: CameraId, blueprint: Option<CameraId>)
    | CopiedCamera(camera: CameraId)

  /**
   * What the synthesiser reads and never writes: the VR camera's own
   * identity, which cameras are alive, which cameras the GUI owns
   * (`VR.GUI.Owns`), and the configuration.
   */
  datatype Env = Env(self: CameraId, live: set<CameraId>, owned: set<CameraId>, ctx: Context)

  /** What the synthesiser writes. */
  datatype Synth = Synth(
    blueprint: Option<CameraId>,         // _Blueprint
    slaves: seq<CameraId>,               // Slaves, each named by the camera carrying it
    events: seq<CameraEvent>,            // InitializeCamera / CopiedCamera, in order
    cams: map<CameraId, Cam>,
    records: map<CameraId, Slave>,       // CameraSlave components
    killers: set<CameraId>)              // CameraKiller components

  /** The state after a step, and whether the step ended in an exception. */
  datatype Outcome = Outcome(state: Synth, threw: bool)

  ghost predicate Wf(env: Env, s: Synth) {
    && env.self in s.cams
    && env.live <= s.cams.Keys
    && NoDup(s.slaves)
    && (forall i | 0 <= i < |s.slaves| :: s.slaves[i] in s.records)
    && s.records.Keys <= s.cams.Keys
    && (s.blueprint.Some? ==> s.blueprint.value in s.cams)
    && s.killers <= s.cams.Keys
  }

  /**
   * Between `a` and `b` only the VR camera's configuration changed: every
   * other camera is as it was, and no camera changed name, enabledness,
   * target texture or depth.
   */
  ghost predicate OnlySelfConfigured(a: map<CameraId, Cam>, b: map<CameraId, Cam>, self: CameraId) {
    && a.Keys == b.Keys
    && (forall c | c in a && c != self :: b[c] == a[c])
    && (forall c | c in a ::
          b[c].name == a[c].name && b[c].enabled == a[c].enabled
          && b[c].targetTexture == a[c].targetTexture && b[c].depth == a[c].depth)
  }

  lemma UpdateTwice<K, V>(m: map<K, V>, k: K, a: V, b: V)
    ensures m[k := a][k := b] == m[k := b]
  {
  }

  lemma OnlySelfConfiguredTransitive(a: map<CameraId, Cam>, b: map<CameraId, Cam>, c: map<CameraId, Cam>, self: CameraId)
    requires OnlySelfConfigured(a, b, self) && OnlySelfConfigured(b, c, self)
    ensures OnlySelfConfigured(a, c, self)
  {
  }

  // ---------------------------------------------------------------------
  // Pure rules
  // ---------------------------------------------------------------------

  /** `FirstOrDefault(c => !owned)` over the slaves' cameras. */
  function FirstUnowned(slaves: seq<CameraId>, owned: set<CameraId>): (r: Option<CameraId>)
    ensures r.Some? ==> r.value in slaves
  {
    if slaves == [] then None
    else if slaves[0] !in owned then Some(slaves[0])
    else FirstUnowned(slaves[1..], owned)
  }

  /** FirstUnowned finds the first camera the GUI does not own, and finds none only when it owns them all. */
  lemma {:induction false} FirstUnownedIsFirst(slaves: seq<CameraId>, owned: set<CameraId>)
    ensures var r := FirstUnowned(slaves, owned);
            r.Some? ==> exists i | 0 <= i < |slaves| :: slaves[i] == r.value && r.value !in owned
                                                        && forall j | 0 <= j < i :: slaves[j] in owned
    ensures FirstUnowned(slaves, owned).None? <==> forall i | 0 <= i < |slaves| :: slaves[i] in owned
  {
    if slaves != [] && slaves[0] in owned {
      var tail := slaves[1..];
      FirstUnownedIsFirst(tail, owned);
      assert forall i | 1 <= i < |slaves| :: slaves[i] == tail[i - 1];
      var r := FirstUnowned(tail, owned);
      if r.Some? {
        var k :| 0 <= k < |tail| && tail[k] == r.value && r.value !in owned && forall j | 0 <= j < k :: tail[j] in owned;
        assert slaves[k + 1] == r.value;
        assert forall j | 0 <= j < k + 1 :: slaves[j] in owned by {
          forall j | 0 <= j < k + 1 ensures slaves[j] in owned {
            if j > 0 {
              assert slaves[j] == tail[j - 1];
            }
          }
        }
      }
    }
  }

  /**
   * The fallback scan `Slaves.Select(s => s.Camera).FirstOrDefault(...)`
   * throws: reading the camera of a destroyed slave fails, and the scan
   * reaches one before it finds a live camera the GUI does not own.
   */
  predicate ScanThrows(slaves: seq<CameraId>, owned: set<CameraId>, live: set<CameraId>)
  {
    slaves != [] && (slaves[0] !in live || (slaves[0] in owned && ScanThrows(slaves[1..], owned, live)))
  }

  /**
   * The scan throws exactly when some slave is destroyed and every slave
   * before it is alive and owned by the GUI; when it does not throw, the
   * camera it finds is alive, and finding none means every slave is alive.
   */
  lemma {:induction false} ScanThrowsAt(slaves: seq<CameraId>, owned: set<CameraId>, live: set<CameraId>)
    ensures ScanThrows(slaves, owned, live) <==>
              exists k | 0 <= k < |slaves| :: slaves[k] !in live && forall j | 0 <= j < k :: slaves[j] in live && slaves[j] in owned
    ensures !ScanThrows(slaves, owned, live) && FirstUnowned(slaves, owned).Some? ==> FirstUnowned(slaves, owned).value in live
    ensures !ScanThrows(slaves, owned, live) && FirstUnowned(slaves, owned).None? ==>
              forall i | 0 <= i < |slaves| :: slaves[i] in live
  {
    if slaves != [] {
      var tail := slaves[1..];
      ScanThrowsAt(tail, owned, live);
      assert forall i | 1 <= i < |slaves| :: slaves[i] == tail[i - 1];
      if ScanThrows(slaves, owned, live) && slaves[0] in live {
        var k :| 0 <= k < |tail| && tail[k] !in live && forall j | 0 <= j < k :: tail[j] in live && tail[j] in owned;
        assert slaves[k + 1] !in live;
        assert forall j | 0 <= j < k + 1 :: slaves[j] in live && slaves[j] in owned by {
          forall j | 0 <= j < k + 1 ensures slaves[j] in live && slaves[j] in owned {
            if j > 0 {
              assert slaves[j] == tail[j - 1];
            }
          }
        }
      }
      if !ScanThrows(slaves, owned, live) {
        forall k | 0 <= k < |slaves| && slaves[k] !in live
          ensures exists j | 0 <= j < k :: !(slaves[j] in live && slaves[j] in owned)
        {
          assert k > 0;
          if slaves[0] in owned {
            assert tail[k - 1] !in live;
            var j :| 0 <= j < k - 1 && !(tail[j] in live && tail[j] in owned);
            assert slaves[j + 1] == tail[j];
          }
        }
      }
    }
  }

  /** The elected blueprint is alive and enabled, so that the getter returns it. */
  predicate BlueprintKept(env: Env, s: Synth)
    requires Wf(env, s)
  {
    s.blueprint.Some? && s.blueprint.value in env.live && s.cams[s.blueprint.value].enabled
  }

  /**
   * The `Blueprint` getter: the elected blueprint while it is alive and
   * enabled, otherwise the first slave camera the GUI does not own.  This is
   * its value when `BlueprintThrows` does not hold.
   */
  function BlueprintView(env: Env, s: Synth): (r: Option<CameraId>)
    requires Wf(env, s)
    ensures r.Some? ==> r.value in s.cams
  {
    if BlueprintKept(env, s) then s.blueprint
    else FirstUnowned(s.slaves, env.owned)
  }

  /** Reading the `Blueprint` getter throws: the blueprint is not kept and the fallback scan throws. */
  predicate BlueprintThrows(env: Env, s: Synth)
    requires Wf(env, s)
  {
    !BlueprintKept(env, s) && ScanThrows(s.slaves, env.owned, env.live)
  }

  /**
   * The getter returns the blueprint or a slave the GUI does not own, and
   * returns null exactly when the blueprint is gone, destroyed or disabled and
   * the GUI owns every slave.  It throws exactly when the blueprint is not
   * kept and a destroyed slave comes before any live slave the GUI does not
   * own, so never while every slave is alive; a camera it returns is alive.
   */
  lemma BlueprintViewIs(env: Env, s: Synth)
    requires Wf(env, s)
    ensures var r := BlueprintView(env, s);
            r.Some? ==> r == s.blueprint || (r.value in s.slaves && r.value !in env.owned)
    ensures BlueprintView(env, s).None? <==>
              (s.blueprint.None? || s.blueprint.value !in env.live || !s.cams[s.blueprint.value].enabled)
              && forall i | 0 <= i < |s.slaves| :: s.slaves[i] in env.owned
    ensures BlueprintThrows(env, s) <==>
              (s.blueprint.None? || s.blueprint.value !in env.live || !s.cams[s.blueprint.value].enabled)
              && exists k | 0 <= k < |s.slaves| :: s.slaves[k] !in env.live
                                                 && forall j | 0 <= j < k :: s.slaves[j] in env.live && s.slaves[j] in env.owned
    ensures SlavesLive(env, s) ==> !BlueprintThrows(env, s)
    ensures !BlueprintThrows(env, s) && BlueprintView(env, s).Some? ==> BlueprintView(env, s).value in env.live
  {
    FirstUnownedIsFirst(s.slaves, env.owned);
    ScanThrowsAt(s.slaves, env.owned, env.live);
  }

  /** The Blueprint getter reads only the blueprint, the slaves and whether the blueprint is enabled. */
  lemma SameView(env: Env, a: Synth, b: Synth)
    requires Wf(env, a) && Wf(env, b)
    requires a.blueprint == b.blueprint && a.slaves == b.slaves
    requires a.blueprint.Some? ==> a.cams[a.blueprint.value].enabled == b.cams[b.blueprint.value].enabled
    ensures BlueprintView(env, a) == BlueprintView(env, b)
    ensures BlueprintThrows(env, a) == BlueprintThrows(env, b)
  {
  }

  /**
   * UseNewCamera: a candidate for main camera is refused exactly when the
   * current blueprint is alive, is not the VR camera, is not the candidate
   * and is called "Main Camera".
   */
  predicate UseNewCamera(env: Env, current: Option<CameraId>, cams: map<CameraId, Cam>, candidate: CameraId)
    requires current.Some? ==> current.value in cams
  {
    !(current.Some? && current.value in env.live && current.value != env.self
      && current.value != candidate && cams[current.value].name == MainCameraName)
  }

  /**
   * The configuration ChangeBlueprint gives the VR camera `vr` from the
   * blueprint `src`.  When the blueprint has a Skybox component (whatever
   * its material, an unset one included) the VR camera gets a Skybox with
   * that material, whether or not it already had one (see
   * BlueprintConfigAsWritten); otherwise its own Skybox, if any, stays.
   */
  function BlueprintConfig(vr: Cam, src: Cam, near: real): Cam {
    vr.(nearClip := near,
        farClip := if src.farClip > MinFarClipPlane then src.farClip else MinFarClipPlane,
        clearFlags := if src.clearFlags == Skybox then Skybox else SolidColor,
        renderingPath := src.renderingPath,
        clearStencilAfterLightingPass := src.clearStencilAfterLightingPass,
        depthTextureMode := src.depthTextureMode,
        layerCullDistances := src.layerCullDistances,
        layerCullSpherical := src.layerCullSpherical,
        useOcclusionCulling := src.useOcclusionCulling,
        allowHDR := src.allowHDR,
        backgroundColor := src.backgroundColor,
        skybox := if src.skybox.Some? then src.skybox else vr.skybox)
  }

  /**
   * ChangeBlueprint's copy as written: when the blueprint carries a Skybox
   * and the VR camera does not, the missing component is dereferenced to
   * add one, so the copy throws after every camera attribute was assigned
   * and before any Skybox changed.
   */
  function BlueprintConfigAsWritten(vr: Cam, src: Cam, near: real): (Cam, bool) {
    var c := BlueprintConfig(vr, src, near);
    if src.skybox.Some? && vr.skybox.None? then (c.(skybox := vr.skybox), true) else (c, false)
  }

  /**
   * As written, the copy throws exactly when the blueprint has a Skybox
   * component (with or without a material) and the VR camera has none, and
   * the VR camera is then left without the blueprint's Skybox, which the
   * corrected copy gives it.
   */
  lemma BlueprintConfigAsWrittenThrows(vr: Cam, src: Cam, near: real)
    ensures var (c, threw) := BlueprintConfigAsWritten(vr, src, near);
            && (threw <==> src.skybox.Some? && vr.skybox.None?)
            && (!threw ==> c == BlueprintConfig(vr, src, near))
            && (threw ==> c.skybox.None? && BlueprintConfig(vr, src, near).skybox == src.skybox
                          && c == BlueprintConfig(vr, src, near).(skybox := None))
  {
  }

  /**
   * Near clip from the context, far clip at least MIN_FAR_CLIP_PLANE, clear
   * flags Skybox or SolidColor, the rendering attributes and a blueprint's
   * Skybox (its material, possibly unset) copied; the mask, depth, target,
   * name and enabledness of the VR camera are its own.
   */
  lemma BlueprintConfigCopies(vr: Cam, src: Cam, near: real)
    ensures var r := BlueprintConfig(vr, src, near);
            && r.nearClip == near
            && r.farClip >= MinFarClipPlane && r.farClip >= src.farClip
            && (r.farClip == src.farClip || r.farClip == MinFarClipPlane)
            && (r.clearFlags == Skybox <==> src.clearFlags == Skybox)
            && (r.clearFlags != Skybox ==> r.clearFlags == SolidColor)
            && r.backgroundColor == src.backgroundColor && r.useOcclusionCulling == src.useOcclusionCulling
            && r.allowHDR == src.allowHDR && r.renderingPath == src.renderingPath
            && r.clearStencilAfterLightingPass == src.clearStencilAfterLightingPass
            && r.depthTextureMode == src.depthTextureMode
            && r.layerCullDistances == src.layerCullDistances && r.layerCullSpherical == src.layerCullSpherical
            && r.cullingMask == vr.cullingMask && r.depth == vr.depth && r.targetTexture == vr.targetTexture
            && r.name == vr.name && r.enabled == vr.enabled
            && r.stereoTargeted == vr.stereoTargeted && r.hasListener == vr.hasListener
            && r.skybox == (if src.skybox.Some? then src.skybox else vr.skybox)
  {
  }

  /** BlueprintConfig reads neither camera's near clip. */
  lemma BlueprintConfigIgnoresNear(vr: Cam, src: Cam, near: real)
    ensures BlueprintConfig(vr.(nearClip := near), src, near) == BlueprintConfig(vr, src, near)
    ensures BlueprintConfig(vr.(nearClip := near), src.(nearClip := near), near) == BlueprintConfig(vr, src, near)
  {
  }

  /** `Slaves.Aggregate(0, (cull, cam) => cull | cam.cullingMask)`, folded from the left. */
  function AggregateMask(slaves: seq<CameraId>, records: map<CameraId, Slave>): bv32
    requires forall i | 0 <= i < |slaves| :: slaves[i] in records
  {
    if slaves == [] then 0
    else AggregateMask(slaves[..|slaves| - 1], records) | records[slaves[|slaves| - 1]].cullingMask
  }

  /** The fold contains the snapshot mask of every slave. */
  lemma {:induction false} AggregateMaskIsUpperBound(slaves: seq<CameraId>, records: map<CameraId, Slave>, i: nat)
    requires forall i | 0 <= i < |slaves| :: slaves[i] in records
    requires i < |slaves|
    ensures SubMask(records[slaves[i]].cullingMask, AggregateMask(slaves, records))
  {
    var init := slaves[..|slaves| - 1];
    var p, q := AggregateMask(init, records), records[slaves[|slaves| - 1]].cullingMask;
    OrIsUpperBound(p, q);
    if i < |slaves| - 1 {
      assert init[i] == slaves[i];
      AggregateMaskIsUpperBound(init, records, i);
      SubMaskTransitive(records[slaves[i]].cullingMask, p, p | q);
    }
  }

  /** The fold names no layer that some slave's snapshot mask does not name. */
  lemma {:induction false} AggregateMaskIsLeast(slaves: seq<CameraId>, records: map<CameraId, Slave>, m: bv32)
    requires forall i | 0 <= i < |slaves| :: slaves[i] in records
    requires forall i | 0 <= i < |slaves| :: SubMask(records[slaves[i]].cullingMask, m)
    ensures SubMask(AggregateMask(slaves, records), m)
  {
    if slaves != [] {
      var init := slaves[..|slaves| - 1];
      assert forall i | 0 <= i < |slaves| - 1 :: init[i] == slaves[i];
      AggregateMaskIsLeast(init, records, m);
      OrIsLeast(AggregateMask(init, records), records[slaves[|slaves| - 1]].cullingMask, m);
    }
  }

  lemma OrIsUpperBound(a: bv32, b: bv32)
    ensures SubMask(a, a | b) && SubMask(b, a | b)
  {
  }

  lemma OrIsLeast(a: bv32, b: bv32, m: bv32)
    requires SubMask(a, m) && SubMask(b, m)
    ensures SubMask(a | b, m)
  {
  }

  lemma SubMaskTransitive(a: bv32, b: bv32, c: bv32)
    requires SubMask(a, b) && SubMask(b, c)
    ensures SubMask(a, c)
  {
  }

  lemma SubMaskAntisymmetric(a: bv32, b: bv32)
    requires SubMask(a, b) && SubMask(b, a)
    ensures a == b
  {
  }

  /**
   * The mask depends only on which cameras are registered, not on their
   * order or on how often they were registered.
   */
  lemma SameSlavesSameMask(a: seq<CameraId>, b: seq<CameraId>, records: map<CameraId, Slave>)
    requires forall i | 0 <= i < |a| :: a[i] in records
    requires forall c :: c in a <==> c in b
    ensures forall i | 0 <= i < |b| :: b[i] in records
    ensures AggregateMask(a, records) == AggregateMask(b, records)
  {
    assert forall i | 0 <= i < |b| :: b[i] in a;
    var ma, mb := AggregateMask(a, records), AggregateMask(b, records);
    forall i | 0 <= i < |a| ensures SubMask(records[a[i]].cullingMask, mb) {
      assert a[i] in b;
      var j :| 0 <= j < |b| && b[j] == a[i];
      AggregateMaskIsUpperBound(b, records, j);
    }
    forall i | 0 <= i < |b| ensures SubMask(records[b[i]].cullingMask, ma) {
      assert b[i] in a;
      var j :| 0 <= j < |a| && a[j] == b[i];
      AggregateMaskIsUpperBound(a, records, j);
    }
    AggregateMaskIsLeast(a, records, mb);
    AggregateMaskIsLeast(b, records, ma);
    SubMaskAntisymmetric(ma, mb);
  }

  /**
   * The culling mask of the VR camera for an aggregate `agg`: the default
   * mask added, the UI and invisible layers and the ignore mask removed.
   */
  function VisibleMask(agg: bv32, ctx: Context): bv32 {
    ((agg | ctx.defaultCullingMask) & !ctx.uiInvisibleMask) & !ctx.ignoreMask
  }

  /**
   * The VR camera never sees the UI, invisible or ignored layers, sees
   * nothing outside the slaves' layers and the default mask, and sees every
   * other layer of those.
   */
  lemma VisibleMaskExcludes(agg: bv32, ctx: Context)
    ensures VisibleMask(agg, ctx) & ctx.uiInvisibleMask == 0 && VisibleMask(agg, ctx) & ctx.ignoreMask == 0
    ensures SubMask(VisibleMask(agg, ctx), agg | ctx.defaultCullingMask)
    ensures SubMask((agg | ctx.defaultCullingMask) & !(ctx.uiInvisibleMask | ctx.ignoreMask), VisibleMask(agg, ctx))
  {
    VisibleMaskHidesRemoved(agg, ctx);
    VisibleMaskWithinSources(agg, ctx);
    VisibleMaskKeepsTheRest(agg, ctx);
  }

  lemma VisibleMaskHidesRemoved(agg: bv32, ctx: Context)
    ensures VisibleMask(agg, ctx) & ctx.uiInvisibleMask == 0 && VisibleMask(agg, ctx) & ctx.ignoreMask == 0
  {
  }

  lemma VisibleMaskWithinSources(agg: bv32, ctx: Context)
    ensures SubMask(VisibleMask(agg, ctx), agg | ctx.defaultCullingMask)
  {
  }

  lemma VisibleMaskKeepsTheRest(agg: bv32, ctx: Context)
    ensures SubMask((agg | ctx.defaultCullingMask) & !(ctx.uiInvisibleMask | ctx.ignoreMask), VisibleMask(agg, ctx))
  {
  }


  /** `Slaves.LastOrDefault(s => s.canBeMainCamera)`: the most recently registered slave that may become the main camera. */
  function MostRecentEligible(slaves: seq<CameraId>, records: map<CameraId, Slave>): (r: Option<CameraId>)
    requires forall i | 0 <= i < |slaves| :: slaves[i] in records
    ensures r.Some? ==> r.value in records
  {
    if slaves == [] then None
    else if records[slaves[|slaves| - 1]].canBeMainCamera then Some(slaves[|slaves| - 1])
    else MostRecentEligible(slaves[..|slaves| - 1], records)
  }

  /** MostRecentEligible finds the last eligible slave, and finds none only when no slave is eligible. */
  lemma {:induction false} MostRecentEligibleIsLast(slaves: seq<CameraId>, records: map<CameraId, Slave>)
    requires forall i | 0 <= i < |slaves| :: slaves[i] in records
    ensures var r := MostRecentEligible(slaves, records);
            r.Some? ==> exists i | 0 <= i < |slaves| :: slaves[i] == r.value && records[r.value].canBeMainCamera
                                                        && forall j | i < j < |slaves| :: !records[slaves[j]].canBeMainCamera
    ensures MostRecentEligible(slaves, records).None? <==> forall i | 0 <= i < |slaves| :: !records[slaves[i]].canBeMainCamera
  {
    if slaves != [] && !records[slaves[|slaves| - 1]].canBeMainCamera {
      var init := slaves[..|slaves| - 1];
      assert forall i | 0 <= i < |init| :: init[i] == slaves[i];
      MostRecentEligibleIsLast(init, records);
    }
  }

  // ---------------------------------------------------------------------
  // Steps
  // ---------------------------------------------------------------------

  /**
   * ChangeBlueprint(b): elect `b`, set the near clip from the context, then
   * copy the configuration of whatever the Blueprint getter now returns.  When
   * the getter throws or returns null the copy throws after the near clip was
   * set.
   */
  function ChangeBlueprint(env: Env, s: Synth, b: CameraId): (r: Outcome)
    requires Wf(env, s) && b in s.cams
    ensures Wf(env, r.state)
  {
    var s1 := s.(blueprint := Some(b), cams := s.cams[env.self := s.cams[env.self].(nearClip := env.ctx.nearClipPlane)]);
    var src := BlueprintView(env, s1);
    if BlueprintThrows(env, s1) || src.None? then Outcome(s1, true)
    else Outcome(s1.(cams := s1.cams[env.self := BlueprintConfig(s.cams[env.self], s.cams[src.value], env.ctx.nearClipPlane)]), false)
  }

  /** ChangeBlueprint elects `b`, sets the near clip from the context and keeps everything but the VR camera's configuration. */
  lemma ChangeBlueprintElects(env: Env, s: Synth, b: CameraId)
    requires Wf(env, s) && b in s.cams
    ensures var r := ChangeBlueprint(env, s, b);
            && r.state.blueprint == Some(b)
            && r.state.slaves == s.slaves && r.state.records == s.records
            && r.state.events == s.events && r.state.killers == s.killers
            && OnlySelfConfigured(s.cams, r.state.cams, env.self)
            && r.state.cams[env.self].nearClip == env.ctx.nearClipPlane
            && r.state.cams[env.self].cullingMask == s.cams[env.self].cullingMask
  {
    var near := env.ctx.nearClipPlane;
    var s1 := s.(blueprint := Some(b), cams := s.cams[env.self := s.cams[env.self].(nearClip := near)]);
    assert Wf(env, s1);
    var src := BlueprintView(env, s1);
    if src.Some? {
      BlueprintConfigCopies(s.cams[env.self], s.cams[src.value], near);
    }
  }

  /**
   * ChangeBlueprint throws exactly when the getter, asked after the
   * election, throws or returns null; otherwise the VR camera takes the
   * configuration of the camera it returns.  A live, enabled `b` is that
   * camera, and then nothing throws.
   */
  lemma ChangeBlueprintCopies(env: Env, s: Synth, b: CameraId)
    requires Wf(env, s) && b in s.cams
    ensures var r := ChangeBlueprint(env, s, b);
            && (r.threw <==> BlueprintThrows(env, r.state) || BlueprintView(env, r.state).None?)
            && (!r.threw ==> r.state.cams[env.self]
                             == BlueprintConfig(s.cams[env.self], s.cams[BlueprintView(env, r.state).value], env.ctx.nearClipPlane))
    ensures b in env.live && s.cams[b].enabled ==>
              var r := ChangeBlueprint(env, s, b);
              !r.threw && BlueprintView(env, r.state) == Some(b)
  {
    var near := env.ctx.nearClipPlane;
    var s1 := s.(blueprint := Some(b), cams := s.cams[env.self := s.cams[env.self].(nearClip := near)]);
    assert Wf(env, s1);
    var src := BlueprintView(env, s1);
    if src.Some? {
      var c := BlueprintConfig(s.cams[env.self], s.cams[src.value], near);
      BlueprintConfigCopies(s.cams[env.self], s.cams[src.value], near);
      var r := s1.(cams := s1.cams[env.self := c]);
      assert Wf(env, r);
      SameView(env, s1, r);
    }
  }

  /**
   * ChangeBlueprint as the VR camera performs it: the election and the near
   * clip first, then the configuration copied from the camera the getter
   * returns, read after the near clip was written.
   */
  lemma ChangeBlueprintSteps(env: Env, s: Synth, b: CameraId, s1: Synth, src: Option<CameraId>, thrown: bool, o: Outcome)
    requires Wf(env, s) && b in s.cams
    requires s1 == s.(blueprint := Some(b), cams := s.cams[env.self := s.cams[env.self].(nearClip := env.ctx.nearClipPlane)])
    ensures Wf(env, s1)
    ensures thrown == BlueprintThrows(env, s1) && (thrown || (src == BlueprintView(env, s1) && src.None?)) && o == Outcome(s1, true)
            ==> ChangeBlueprint(env, s, b) == o
    ensures !thrown && thrown == BlueprintThrows(env, s1) && src == BlueprintView(env, s1) && src.Some? && src.value in s1.cams
            && o == Outcome(s1.(cams := s1.cams[env.self := BlueprintConfig(s1.cams[env.self], s1.cams[src.value],
                                                                            env.ctx.nearClipPlane)]), false)
            ==> ChangeBlueprint(env, s, b) == o
  {
    assert Wf(env, s1);
    var src' := BlueprintView(env, s1);
    if src'.Some? {
      var vr := s.cams[env.self];
      BlueprintConfigIgnoresNear(vr, s.cams[src'.value], env.ctx.nearClipPlane);
      UpdateTwice(s.cams, env.self, vr.(nearClip := env.ctx.nearClipPlane),
                  BlueprintConfig(vr, s.cams[src'.value], env.ctx.nearClipPlane));
    }
  }

  /**
   * Every registered slave is alive, so that the log line of
   * UpdateCameraConfig, which names all of them, can read their names.
   */
  predicate SlavesLive(env: Env, s: Synth) {
    forall i | 0 <= i < |s.slaves| :: s.slaves[i] in env.live
  }

  /**
   * UpdateCameraConfig: recompute the VR camera's culling mask from all
   * slaves, then, when the blueprint is no longer a registered slave, elect
   * the most recently registered eligible slave if there is one.  Before
   * the mask is written a log line reads every slave's name, which throws
   * when a registered slave was destroyed.
   */
  function UpdateCameraConfig(env: Env, s: Synth): (r: Outcome)
    requires Wf(env, s)
    ensures Wf(env, r.state)
  {
    if !SlavesLive(env, s) then Outcome(s, true)
    else
    var mask := VisibleMask(AggregateMask(s.slaves, s.records), env.ctx);
    var s1 := s.(cams := s.cams[env.self := s.cams[env.self].(cullingMask := mask)]);
    if s.blueprint.Some? && s.blueprint.value in s.slaves then Outcome(s1, false)
    else
      match MostRecentEligible(s.slaves, s.records)
      case None => Outcome(s1, false)
      case Some(best) => ChangeBlueprint(env, s1, best)
  }

  /**
   * A destroyed registered slave makes UpdateCameraConfig throw before it
   * changes anything.  Otherwise the VR camera gets the visible mask of all
   * slaves; a registered blueprint stays, otherwise the last eligible slave
   * is elected, and only that election can throw.
   */
  lemma UpdateCameraConfigFacts(env: Env, s: Synth)
    requires Wf(env, s)
    ensures var r := UpdateCameraConfig(env, s);
            var best := MostRecentEligible(s.slaves, s.records);
            var kept := s.blueprint.Some? && s.blueprint.value in s.slaves;
            && r.state.slaves == s.slaves && r.state.records == s.records
            && r.state.events == s.events && r.state.killers == s.killers
            && OnlySelfConfigured(s.cams, r.state.cams, env.self)
            && (!SlavesLive(env, s) ==> r == Outcome(s, true))
            && (SlavesLive(env, s) ==>
                  && r.state.cams[env.self].cullingMask == VisibleMask(AggregateMask(s.slaves, s.records), env.ctx)
                  && (kept ==> r == Outcome(s.(cams := r.state.cams), false))
                  && (!kept && best.Some? ==> r.state.blueprint == best)
                  && (best.None? ==> r.state.blueprint == s.blueprint && !r.threw))
            && (r.threw <==> !SlavesLive(env, s) || (!kept && best.Some? && BlueprintView(env, r.state).None?))
  {
    if !SlavesLive(env, s) {
      return;
    }
    var mask := VisibleMask(AggregateMask(s.slaves, s.records), env.ctx);
    var s1 := s.(cams := s.cams[env.self := s.cams[env.self].(cullingMask := mask)]);
    assert OnlySelfConfigured(s.cams, s1.cams, env.self);
    var best := MostRecentEligible(s.slaves, s.records);
    if !(s.blueprint.Some? && s.blueprint.value in s.slaves) && best.Some? {
      assert Wf(env, s1);
      ChangeBlueprintElects(env, s1, best.value);
      ChangeBlueprintCopies(env, s1, best.value);
      BlueprintViewIs(env, ChangeBlueprint(env, s1, best.value).state);
      OnlySelfConfiguredTransitive(s.cams, s1.cams, ChangeBlueprint(env, s1, best.value).state.cams, env.self);
    }
  }

  /**
   * When the blueprint is no longer registered and the last eligible slave
   * is alive and enabled, UpdateCameraConfig elects it without an exception,
   * unless another registered slave was destroyed: then it throws and
   * changes nothing.
   */
  lemma UpdateCameraConfigElects(env: Env, s: Synth)
    requires Wf(env, s) && !(s.blueprint.Some? && s.blueprint.value in s.slaves)
    requires var best := MostRecentEligible(s.slaves, s.records);
             best.Some? && best.value in env.live && s.cams[best.value].enabled
    ensures var r := UpdateCameraConfig(env, s);
            && (SlavesLive(env, s) ==>
                  r.state.blueprint == MostRecentEligible(s.slaves, s.records) && r.state.slaves == s.slaves && !r.threw)
            && (!SlavesLive(env, s) ==> r == Outcome(s, true))
  {
    UpdateCameraConfigFacts(env, s);
  }

  /** UpdateCameraConfig as its two phases: the new culling mask, then perhaps a new blueprint. */
  lemma UpdateCameraConfigSteps(env: Env, s: Synth, mask: bv32, s1: Synth, best: Option<CameraId>, o: Outcome)
    requires Wf(env, s)
    requires mask == VisibleMask(AggregateMask(s.slaves, s.records), env.ctx)
    requires s1 == s.(cams := s.cams[env.self := s.cams[env.self].(cullingMask := mask)])
    requires best == if s.blueprint.Some? && s.blueprint.value in s.slaves then None
                     else MostRecentEligible(s.slaves, s.records)
    requires SlavesLive(env, s)
    requires best.Some? ==> Wf(env, s1) && best.value in s1.cams && o == ChangeBlueprint(env, s1, best.value)
    requires best.None? ==> o == Outcome(s1, false)
    ensures UpdateCameraConfig(env, s) == o
  {
  }

  /** RegisterSlave: append the slave unless it is already registered, then recompute. */
  function RegisterSlave(env: Env, s: Synth, cam: CameraId): (r: Outcome)
    requires Wf(env, s) && cam in s.records
    ensures Wf(env, r.state)
  {
    var s1 := if cam in s.slaves then s else s.(slaves := s.slaves + [cam]);
    UpdateCameraConfig(env, s1)
  }

  /**
   * After RegisterSlave the slave is registered once and the earlier slaves
   * keep their order.  With every slave alive the mask covers the new list
   * and a registered blueprint stays without an exception; a destroyed slave
   * makes it throw with the mask and blueprint as they were.
   */
  lemma RegisterSlaveFacts(env: Env, s: Synth, cam: CameraId)
    requires Wf(env, s) && cam in s.records
    ensures var r := RegisterSlave(env, s, cam);
            && cam in r.state.slaves
            && (forall c :: c in r.state.slaves <==> c in s.slaves || c == cam)
            && |s.slaves| <= |r.state.slaves| && r.state.slaves[..|s.slaves|] == s.slaves
            && r.state.records == s.records && r.state.events == s.events && r.state.killers == s.killers
            && OnlySelfConfigured(s.cams, r.state.cams, env.self)
            && (SlavesLive(env, r.state) ==>
                  r.state.cams[env.self].cullingMask == VisibleMask(AggregateMask(r.state.slaves, s.records), env.ctx))
            && (!SlavesLive(env, r.state) ==> r.threw && r.state.cams == s.cams && r.state.blueprint == s.blueprint)
            && (s.blueprint.Some? && s.blueprint.value in r.state.slaves ==>
                  r.state.blueprint == s.blueprint && (r.threw <==> !SlavesLive(env, r.state)))
  {
    var s1 := if cam in s.slaves then s else s.(slaves := s.slaves + [cam]);
    assert forall c :: c in s1.slaves <==> c in s.slaves || c == cam;
    assert s1.slaves[..|s.slaves|] == s.slaves;
    UpdateCameraConfigFacts(env, s1);
  }

  /** UnregisterSlave: remove the slave; recompute only if it was registered. */
  function UnregisterSlave(env: Env, s: Synth, cam: CameraId): (r: Outcome)
    requires Wf(env, s)
    ensures Wf(env, r.state)
  {
    if cam in s.slaves then UpdateCameraConfig(env, s.(slaves := Without(s.slaves, cam)))
    else Outcome(s, false)
  }

  /**
   * After UnregisterSlave the slave is gone and the others stay in their
   * order.  When the slave had been registered the mask covers what is
   * left, unless a remaining slave was destroyed: then it throws with the
   * mask and blueprint as they were.
   */
  lemma UnregisterSlaveFacts(env: Env, s: Synth, cam: CameraId)
    requires Wf(env, s)
    ensures var r := UnregisterSlave(env, s, cam);
            && cam !in r.state.slaves
            && (forall c | c != cam :: c in r.state.slaves <==> c in s.slaves)
            && (cam !in s.slaves ==> r == Outcome(s, false))
            && (cam in s.slaves ==> r.state.slaves == Without(s.slaves, cam))
            && r.state.records == s.records && r.state.events == s.events && r.state.killers == s.killers
            && OnlySelfConfigured(s.cams, r.state.cams, env.self)
            && (cam in s.slaves && SlavesLive(env, r.state) ==>
                  r.state.cams[env.self].cullingMask == VisibleMask(AggregateMask(r.state.slaves, s.records), env.ctx))
            && (cam in s.slaves && !SlavesLive(env, r.state) ==>
                  r.threw && r.state.cams == s.cams && r.state.blueprint == s.blueprint)
  {
    if cam in s.slaves {
      UpdateCameraConfigFacts(env, s.(slaves := Without(s.slaves, cam)));
    }
  }

  /**
   * `AddComponent<CameraSlave>()` followed by `canBeMainCamera = canBeMain`:
   * the slave's Awake takes the snapshot and its OnEnable registers it
   * (logging any exception) before the flag is set.
   */
  function Enslave(env: Env, s: Synth, cam: CameraId, canBeMain: bool): (r: Synth)
    requires Wf(env, s) && cam in s.cams
    ensures Wf(env, r)
  {
    var snap := Snapshot(s.cams[cam]);
    var s1 := s.(records := s.records[cam := snap]);
    RegisterSlaveFacts(env, s1, cam);
    var s2 := RegisterSlave(env, s1, cam).state;
    s2.(records := s2.records[cam := s2.records[cam].(canBeMainCamera := canBeMain)])
  }

  /** Enslave registers the camera with its snapshot and the flag, and configures nothing but the VR camera. */
  lemma EnslaveFacts(env: Env, s: Synth, cam: CameraId, canBeMain: bool)
    requires Wf(env, s) && cam in s.cams
    ensures var r := Enslave(env, s, cam, canBeMain);
            && (forall c :: c in r.slaves <==> c in s.slaves || c == cam)
            && r.records == s.records[cam := Snapshot(s.cams[cam]).(canBeMainCamera := canBeMain)]
            && r.killers == s.killers && r.events == s.events
            && OnlySelfConfigured(s.cams, r.cams, env.self)
            && (s.blueprint.Some? && (s.blueprint.value in s.slaves || s.blueprint.value == cam) ==> r.blueprint == s.blueprint)
  {
    var snap := Snapshot(s.cams[cam]);
    var s1 := s.(records := s.records[cam := snap]);
    RegisterSlaveFacts(env, s1, cam);
    UpdateTwice(s.records, cam, snap, snap.(canBeMainCamera := canBeMain));
  }

  /** Enslave as the VR camera performs it: snapshot, registration, then the flag. */
  lemma EnslaveSteps(env: Env, s: Synth, cam: CameraId, canBeMain: bool, s2: Synth)
    requires Wf(env, s) && cam in s.cams
    ensures Wf(env, s.(records := s.records[cam := Snapshot(s.cams[cam])]))
    ensures Enslave(env, s, cam, canBeMain).cams.Keys == s.cams.Keys
    ensures s2 == RegisterSlave(env, s.(records := s.records[cam := Snapshot(s.cams[cam])]), cam).state ==>
              cam in s2.records &&
              Enslave(env, s, cam, canBeMain) == s2.(records := s2.records[cam := s2.records[cam].(canBeMainCamera := canBeMain)])
  {
    assert Wf(env, s.(records := s.records[cam := Snapshot(s.cams[cam])]));
    EnslaveFacts(env, s, cam, canBeMain);
    RegisterSlaveFacts(env, s.(records := s.records[cam := Snapshot(s.cams[cam])]), cam);
  }

  /**
   * The part of Copy that runs when the camera is alive: the slave is
   * attached, the audio listener removed, stereo targeting switched off and,
   * when nothing else consumes the camera, it has no target texture and the
   * interpreter calls it irrelevant, a CameraKiller attached.
   */
  function Attach(env: Env, s: Synth, cam: CameraId, canBeMain: bool, hasOtherConsumers: bool, irrelevant: bool): (r: Synth)
    requires Wf(env, s) && cam in s.cams
    ensures Wf(env, r)
  {
    EnslaveFacts(env, s, cam, canBeMain);
    var s2 := Enslave(env, s, cam, canBeMain);
    var s3 := s2.(cams := s2.cams[cam := s2.cams[cam].(hasListener := false, stereoTargeted := false)]);
    if !hasOtherConsumers && s3.cams[cam].targetTexture.None? && irrelevant then s3.(killers := s3.killers + {cam})
    else s3
  }

  /** Attach registers the camera, silences and untargets it, and kills it exactly when nothing needs it. */
  lemma AttachFacts(env: Env, s: Synth, cam: CameraId, canBeMain: bool, hasOtherConsumers: bool, irrelevant: bool)
    requires Wf(env, s) && cam in s.cams
    ensures var r := Attach(env, s, cam, canBeMain, hasOtherConsumers, irrelevant);
            && (forall c :: c in r.slaves <==> c in s.slaves || c == cam)
            && r.records == s.records[cam := Snapshot(s.cams[cam]).(canBeMainCamera := canBeMain)]
            && r.killers == (if !hasOtherConsumers && s.cams[cam].targetTexture.None? && irrelevant
                             then s.killers + {cam} else s.killers)
            && r.events == s.events
            && !r.cams[cam].hasListener && !r.cams[cam].stereoTargeted
            && (s.blueprint.Some? && (s.blueprint.value in s.slaves || s.blueprint.value == cam) ==> r.blueprint == s.blueprint)
  {
    EnslaveFacts(env, s, cam, canBeMain);
  }

  /** Attach neither enables nor disables any camera and forgets no CameraSlave. */
  lemma AttachKeeps(env: Env, s: Synth, cam: CameraId, canBeMain: bool, hasOtherConsumers: bool, irrelevant: bool)
    requires Wf(env, s) && cam in s.cams
    ensures var r := Attach(env, s, cam, canBeMain, hasOtherConsumers, irrelevant);
            && r.cams.Keys == s.cams.Keys
            && (forall c | c in s.cams :: r.cams[c].enabled == s.cams[c].enabled)
            && s.records.Keys <= r.records.Keys && cam in r.records
  {
    EnslaveFacts(env, s, cam, canBeMain);
    var s2 := Enslave(env, s, cam, canBeMain);
    var r := Attach(env, s, cam, canBeMain, hasOtherConsumers, irrelevant);
    var quiet := s2.cams[cam].(hasListener := false, stereoTargeted := false);
    assert r.cams == s2.cams[cam := quiet];
    forall c | c in s.cams
      ensures r.cams[c].enabled == s.cams[c].enabled
    {
      assert s2.cams[c].enabled == s.cams[c].enabled;
      if c == cam {
        assert r.cams[c] == quiet;
      } else {
        assert r.cams[c] == s2.cams[c];
      }
    }
  }

  /** Attach as the VR camera performs it: enslave, switch off listener and stereo targeting, perhaps a killer. */
  lemma AttachSteps(env: Env, s: Synth, cam: CameraId, canBeMain: bool, hasOtherConsumers: bool, irrelevant: bool,
                    s2: Synth, r: Synth)
    requires Wf(env, s) && cam in s.cams
    requires s2 == Enslave(env, s, cam, canBeMain) && cam in s2.cams
    requires r.cams == s2.cams[cam := s2.cams[cam].(hasListener := false, stereoTargeted := false)]
    requires r.killers == if !hasOtherConsumers && s2.cams[cam].targetTexture.None? && irrelevant
                          then s2.killers + {cam} else s2.killers
    requires r == s2.(cams := r.cams, killers := r.killers)
    ensures Attach(env, s, cam, canBeMain, hasOtherConsumers, irrelevant) == r && Wf(env, r)
  {
  }

  /**
   * Copy after the blueprint question is settled: attach a live camera, then
   * raise the events.  A candidate's InitializeCamera reads the Blueprint
   * getter, so a throwing getter ends Copy before any event is raised.
   */
  function CopyRest(env: Env, s: Synth, cam: CameraId, canBeMain: bool, hasOtherConsumers: bool, irrelevant: bool): (r: Outcome)
    requires Wf(env, s) && cam in s.cams
    ensures Wf(env, r.state)
  {
    var s2 := if cam in env.live then Attach(env, s, cam, canBeMain, hasOtherConsumers, irrelevant) else s;
    if canBeMain && BlueprintThrows(env, s2) then Outcome(s2, true)
    else
      var init := if canBeMain then [InitializeCamera(env.self, BlueprintView(env, s2))] else [];
      Outcome(s2.(events := s2.events + init + [CopiedCamera(cam)]), false)
  }

  /**
   * CopyRest enslaves a live camera and adds no other slave; then it raises
   * InitializeCamera (with the blueprint as it is then) for a candidate and
   * CopiedCamera for every camera, unless the candidate's getter read throws,
   * which it never does while every slave is alive.
   */
  lemma CopyRestFacts(env: Env, s: Synth, cam: CameraId, canBeMain: bool, hasOtherConsumers: bool, irrelevant: bool)
    requires Wf(env, s) && cam in s.cams
    ensures var r := CopyRest(env, s, cam, canBeMain, hasOtherConsumers, irrelevant);
            && (r.threw <==> canBeMain && BlueprintThrows(env, r.state))
            && (r.threw ==> r.state.events == s.events)
            && (!r.threw ==> r.state.events == s.events + (if canBeMain then [InitializeCamera(env.self, BlueprintView(env, r.state))] else [])
                                                        + [CopiedCamera(cam)])
            && (forall c :: c in r.state.slaves ==> c in s.slaves || c == cam)
            && (cam in env.live ==> cam in r.state.slaves && cam in r.state.records && r.state.records[cam].canBeMainCamera == canBeMain)
            && (cam !in env.live ==> r.state.slaves == s.slaves && r.state.blueprint == s.blueprint)
            && r.state.killers == (if cam in env.live && !hasOtherConsumers && s.cams[cam].targetTexture.None? && irrelevant
                                   then s.killers + {cam} else s.killers)
            && (s.blueprint.Some? && (s.blueprint.value in s.slaves || s.blueprint.value == cam) ==> r.state.blueprint == s.blueprint)
            && (SlavesLive(env, s) ==> !r.threw && SlavesLive(env, r.state))
  {
    if cam in env.live {
      AttachFacts(env, s, cam, canBeMain, hasOtherConsumers, irrelevant);
    }
    var s2 := if cam in env.live then Attach(env, s, cam, canBeMain, hasOtherConsumers, irrelevant) else s;
    var r := CopyRest(env, s, cam, canBeMain, hasOtherConsumers, irrelevant);
    SameView(env, s2, r.state);
    if SlavesLive(env, s) {
      assert SlavesLive(env, s2) by {
        forall i | 0 <= i < |s2.slaves| ensures s2.slaves[i] in env.live {
          assert s2.slaves[i] in s.slaves || s2.slaves[i] == cam;
        }
      }
      BlueprintViewIs(env, s2);
    }
  }

  /** CopyRest as the VR camera performs it: attach a live camera, read the getter for a candidate, then raise the events. */
  lemma CopyRestSteps(env: Env, s: Synth, cam: CameraId, canBeMain: bool, hasOtherConsumers: bool, irrelevant: bool, s2: Synth)
    requires Wf(env, s) && cam in s.cams
    requires s2 == if cam in env.live then Attach(env, s, cam, canBeMain, hasOtherConsumers, irrelevant) else s
    ensures Wf(env, s2)
    ensures canBeMain && BlueprintThrows(env, s2) ==> CopyRest(env, s, cam, canBeMain, hasOtherConsumers, irrelevant) == Outcome(s2, true)
    ensures !(canBeMain && BlueprintThrows(env, s2)) ==>
              CopyRest(env, s, cam, canBeMain, hasOtherConsumers, irrelevant)
              == Outcome(s2.(events := s2.events + (if canBeMain then [InitializeCamera(env.self, BlueprintView(env, s2))] else [])
                                                 + [CopiedCamera(cam)]), false)
  {
  }

  /** Copy(cam, canBeMain, hasOtherConsumers), with the interpreter's IsIrrelevantCamera answer. */
  function Copy(env: Env, s: Synth, cam: CameraId, canBeMain: bool, hasOtherConsumers: bool, irrelevant: bool): (r: Outcome)
    requires Wf(env, s) && cam in s.cams
    ensures Wf(env, r.state)
  {
    if cam in env.live && cam in s.records then Outcome(s, false)
    else if canBeMain && cam !in env.live && !UseNewCamera(env, s.blueprint, s.cams, cam) then
      // the refusal is logged with the candidate's name, which a destroyed camera cannot give
      Outcome(s, true)
    else if canBeMain && UseNewCamera(env, s.blueprint, s.cams, cam) then
      var o := ChangeBlueprint(env, s, cam);
      if o.threw then o
      else CopyRest(env, o.state, cam, canBeMain, hasOtherConsumers, irrelevant)
    else CopyRest(env, s, cam, canBeMain, hasOtherConsumers, irrelevant)
  }

  /** Copy elects a candidate and the election throws, so nothing is attached. */
  predicate ElectionThrows(env: Env, s: Synth, cam: CameraId, canBeMain: bool)
    requires Wf(env, s) && cam in s.cams
  {
    canBeMain && UseNewCamera(env, s.blueprint, s.cams, cam) && ChangeBlueprint(env, s, cam).threw
  }

  /**
   * A camera that already carries a CameraSlave is left alone.  Copy throws
   * only for a main-camera candidate: exactly when a destroyed candidate is
   * refused, when the election throws, or when the getter read for
   * InitializeCamera throws; an exception raises no event and adds no slave
   * for a destroyed camera.  A live, enabled camera is copied without one
   * while every slave is alive, and every slave stays alive.
   */
  lemma CopyGuards(env: Env, s: Synth, cam: CameraId, canBeMain: bool, hasOtherConsumers: bool, irrelevant: bool)
    requires Wf(env, s) && cam in s.cams
    ensures var r := Copy(env, s, cam, canBeMain, hasOtherConsumers, irrelevant);
            && (cam in env.live && cam in s.records ==> r == Outcome(s, false))
            && (r.threw <==> !(cam in env.live && cam in s.records)
                             && (|| (canBeMain && cam !in env.live && !UseNewCamera(env, s.blueprint, s.cams, cam))
                                 || ElectionThrows(env, s, cam, canBeMain)
                                 || (canBeMain && BlueprintThrows(env, r.state))))
            && (r.threw ==> canBeMain && r.state.events == s.events)
            && (r.threw && cam !in env.live ==> r.state.slaves == s.slaves)
            && (cam in env.live && s.cams[cam].enabled && SlavesLive(env, s) ==> !r.threw)
            && (cam in env.live && SlavesLive(env, s) ==> SlavesLive(env, r.state))
  {
    if !(cam in env.live && cam in s.records) {
      if canBeMain && UseNewCamera(env, s.blueprint, s.cams, cam) {
        ChangeBlueprintElects(env, s, cam);
        ChangeBlueprintCopies(env, s, cam);
        var o := ChangeBlueprint(env, s, cam);
        if !o.threw {
          CopyRestFacts(env, o.state, cam, canBeMain, hasOtherConsumers, irrelevant);
        }
        if cam in env.live && SlavesLive(env, s) {
          assert SlavesLive(env, o.state);
        }
      } else if !(canBeMain && cam !in env.live) {
        CopyRestFacts(env, s, cam, canBeMain, hasOtherConsumers, irrelevant);
      }
    }
  }

  /** Copy announces the camera: InitializeCamera only for a main-camera candidate, then CopiedCamera once. */
  lemma CopyAnnounces(env: Env, s: Synth, cam: CameraId, canBeMain: bool, hasOtherConsumers: bool, irrelevant: bool)
    requires Wf(env, s) && cam in s.cams
    ensures var r := Copy(env, s, cam, canBeMain, hasOtherConsumers, irrelevant);
            !(cam in env.live && cam in s.records) && !r.threw ==>
              && r.state.events == s.events + (if canBeMain then [InitializeCamera(env.self, BlueprintView(env, r.state))] else [])
                                            + [CopiedCamera(cam)]
              && (cam in env.live ==> cam in r.state.slaves && r.state.records[cam].canBeMainCamera == canBeMain)
  {
    if !(cam in env.live && cam in s.records) {
      if canBeMain && UseNewCamera(env, s.blueprint, s.cams, cam) {
        ChangeBlueprintElects(env, s, cam);
        var o := ChangeBlueprint(env, s, cam);
        if !o.threw {
          CopyRestFacts(env, o.state, cam, canBeMain, hasOtherConsumers, irrelevant);
        }
      } else {
        CopyRestFacts(env, s, cam, canBeMain, hasOtherConsumers, irrelevant);
      }
    }
  }

  /**
   * A CameraKiller is added exactly to a live, irrelevant camera nobody else
   * consumes and that renders to the screen, once the election (if any) has
   * not thrown; a later exception of the getter does not take it back.
   */
  lemma CopyKills(env: Env, s: Synth, cam: CameraId, canBeMain: bool, hasOtherConsumers: bool, irrelevant: bool)
    requires Wf(env, s) && cam in s.cams
    ensures var r := Copy(env, s, cam, canBeMain, hasOtherConsumers, irrelevant);
            cam in r.state.killers <==>
              cam in s.killers || (!(cam in env.live && cam in s.records) && !ElectionThrows(env, s, cam, canBeMain)
                                   && cam in env.live && !hasOtherConsumers && s.cams[cam].targetTexture.None? && irrelevant)
  {
    if !(cam in env.live && cam in s.records) {
      if canBeMain && UseNewCamera(env, s.blueprint, s.cams, cam) {
        ChangeBlueprintElects(env, s, cam);
        var o := ChangeBlueprint(env, s, cam);
        if !o.threw {
          CopyRestFacts(env, o.state, cam, canBeMain, hasOtherConsumers, irrelevant);
        }
      } else {
        CopyRestFacts(env, s, cam, canBeMain, hasOtherConsumers, irrelevant);
      }
    }
  }

  /**
   * An accepted candidate becomes the blueprint unless the election throws,
   * and stays it through an exception of the later getter read; a
   * registered blueprint that is not displaced stays.
   */
  lemma CopyElects(env: Env, s: Synth, cam: CameraId, canBeMain: bool, hasOtherConsumers: bool, irrelevant: bool)
    requires Wf(env, s) && cam in s.cams
    ensures var r := Copy(env, s, cam, canBeMain, hasOtherConsumers, irrelevant);
            !(cam in env.live && cam in s.records) && canBeMain && UseNewCamera(env, s.blueprint, s.cams, cam)
            && !ElectionThrows(env, s, cam, canBeMain) ==>
              r.state.blueprint == Some(cam)
    ensures var r := Copy(env, s, cam, canBeMain, hasOtherConsumers, irrelevant);
            s.blueprint.Some? && s.blueprint.value in s.slaves && !(canBeMain && UseNewCamera(env, s.blueprint, s.cams, cam)) ==>
              r.state.blueprint == s.blueprint
  {
    if !(cam in env.live && cam in s.records) {
      if canBeMain && UseNewCamera(env, s.blueprint, s.cams, cam) {
        ChangeBlueprintElects(env, s, cam);
        var o := ChangeBlueprint(env, s, cam);
        if !o.threw {
          CopyRestFacts(env, o.state, cam, canBeMain, hasOtherConsumers, irrelevant);
        }
      } else {
        CopyRestFacts(env, s, cam, canBeMain, hasOtherConsumers, irrelevant);
      }
    }
  }

  /** CopyRest neither enables nor disables any camera and forgets no CameraSlave. */
  lemma CopyRestKeeps(env: Env, s: Synth, cam: CameraId, canBeMain: bool, hasOtherConsumers: bool, irrelevant: bool)
    requires Wf(env, s) && cam in s.cams
    ensures var r := CopyRest(env, s, cam, canBeMain, hasOtherConsumers, irrelevant).state;
            && r.cams.Keys == s.cams.Keys
            && (forall c | c in s.cams :: r.cams[c].enabled == s.cams[c].enabled)
            && s.records.Keys <= r.records.Keys
            && (cam in env.live ==> cam in r.records)
  {
    if cam in env.live {
      AttachKeeps(env, s, cam, canBeMain, hasOtherConsumers, irrelevant);
    }
  }

  /**
   * Copy neither enables nor disables any camera, forgets no CameraSlave and
   * registers no slave but `cam`; a live camera carries one afterwards unless
   * the election threw.
   */
  lemma CopyKeeps(env: Env, s: Synth, cam: CameraId, canBeMain: bool, hasOtherConsumers: bool, irrelevant: bool)
    requires Wf(env, s) && cam in s.cams
    ensures var r := Copy(env, s, cam, canBeMain, hasOtherConsumers, irrelevant);
            && r.state.cams.Keys == s.cams.Keys
            && (forall c | c in s.cams :: r.state.cams[c].enabled == s.cams[c].enabled)
            && s.records.Keys <= r.state.records.Keys
            && (forall c :: c in r.state.slaves ==> c in s.slaves || c == cam)
            && (cam in env.live && !ElectionThrows(env, s, cam, canBeMain) ==> cam in r.state.records)
  {
    if !(cam in env.live && cam in s.records) {
      if canBeMain && UseNewCamera(env, s.blueprint, s.cams, cam) {
        ChangeBlueprintElects(env, s, cam);
        var o := ChangeBlueprint(env, s, cam);
        if !o.threw {
          CopyRestKeeps(env, o.state, cam, canBeMain, hasOtherConsumers, irrelevant);
          CopyRestFacts(env, o.state, cam, canBeMain, hasOtherConsumers, irrelevant);
        }
      } else {
        CopyRestKeeps(env, s, cam, canBeMain, hasOtherConsumers, irrelevant);
        CopyRestFacts(env, s, cam, canBeMain, hasOtherConsumers, irrelevant);
      }
    }
  }

  // ---------------------------------------------------------------------
  // Properties across steps
  // ---------------------------------------------------------------------

  /**
   * The election is sticky: while the blueprint is a registered, live camera
   * called "Main Camera" (and not the VR camera itself), copying any other
   * camera leaves it in place.
   */
  lemma MainCameraSticks(env: Env, s: Synth, cam: CameraId, canBeMain: bool, hasOtherConsumers: bool, irrelevant: bool)
    requires Wf(env, s) && cam in s.cams
    requires s.blueprint.Some? && s.blueprint.value in s.slaves && s.blueprint.value in env.live
    requires s.blueprint.value != env.self && s.blueprint.value != cam
    requires s.cams[s.blueprint.value].name == MainCameraName
    ensures Copy(env, s, cam, canBeMain, hasOtherConsumers, irrelevant).state.blueprint == s.blueprint
  {
    assert !UseNewCamera(env, s.blueprint, s.cams, cam);
    CopyElects(env, s, cam, canBeMain, hasOtherConsumers, irrelevant);
  }

  /**
   * Registering the same slave twice changes neither the slave list nor the
   * culling mask a second time.
   */
  lemma RegisterSlaveTwice(env: Env, s: Synth, cam: CameraId)
    requires Wf(env, s) && cam in s.records
    ensures var once := RegisterSlave(env, s, cam).state;
            var twice := RegisterSlave(env, once, cam).state;
            twice.slaves == once.slaves && twice.cams[env.self].cullingMask == once.cams[env.self].cullingMask
  {
    RegisterSlaveFacts(env, s, cam);
    var once := RegisterSlave(env, s, cam).state;
    RegisterSlaveFacts(env, once, cam);
    assert once.slaves + [cam] != once.slaves;
    UpdateCameraConfigFacts(env, once);
  }

  /**
   * Slaves 1 (eligible, the blueprint), 2 (not eligible) and 3 (eligible),
   * all of them enabled: when slave 1 goes away, the blueprint moves to slave
   * 3, the most recently registered eligible slave, and no exception is raised.
   */
  lemma ReelectionExample(ctx: Context, cams: map<CameraId, Cam>, records: map<CameraId, Slave>)
    requires cams.Keys == {0, 1, 2, 3} && forall c | c in cams :: cams[c].enabled
    requires records.Keys == {1, 2, 3}
    requires records[1].canBeMainCamera && !records[2].canBeMainCamera && records[3].canBeMainCamera
    ensures var r := UnregisterSlave(Env(0, {0, 1, 2, 3}, {}, ctx), Synth(Some(1), [1, 2, 3], [], cams, records, {}), 1);
            r.state.blueprint == Some(3) && r.state.slaves == [2, 3] && !r.threw
  {
    var env := Env(0, {0, 1, 2, 3}, {}, ctx);
    var s := Synth(Some(1), [1, 2, 3], [], cams, records, {});
    assert Wf(env, s);
    var s1 := s.(slaves := Without(s.slaves, 1));
    assert Wf(env, s1);
    WithoutFirst();
    LastEligible(records);
    UpdateCameraConfigElects(env, s1);
  }

  lemma LastEligible(records: map<CameraId, Slave>)
    requires 2 in records && 3 in records && records[3].canBeMainCamera
    ensures MostRecentEligible([2, 3], records) == Some(3)
  {
  }

  lemma WithoutFirst()
    ensures Without([1, 2, 3], 1) == [2, 3]
  {
    assert FirstIndex([1, 2, 3], 1) == 0;
  }
}
