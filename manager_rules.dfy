/*
 * The rules VRManager follows, on values: what a newly seen camera sets off
 * as the interpreter judges it, which cameras one update judges, the mode
 * switch, and the facts about cameras an update relies on.
 */
module ManagerRules {
  import opened Engine

  // ---------------------------------------------------------------------
  // Judging new cameras
  // ---------------------------------------------------------------------

  /** What the manager asks of the VR camera and of VRGUI. */
  datatype Action =
    | Copied(cam: CameraId, canBeMain: bool, hasOtherConsumers: bool)  // VR.Camera.Copy
    | GuiAdded(cam: CameraId)                                          // VR.GUI.AddCamera
    | EffectsApplied                                                   // ApplyEffects

  /** The judgements that have the VR camera copy the camera. */
  predicate Copies(j: Judgement) {
    j == MainCamera || j == SubCamera || j == GUIAndCamera
  }

  /** The judgements that hand the camera to VRGUI. */
  predicate Shows(j: Judgement) {
    j == GUI || j == GUIAndCamera
  }

  /** OnUpdate's switch: what a newly seen camera with judgement `j` sets off, in order. */
  function Dispatch(cam: CameraId, j: Judgement, effects: bool): seq<Action> {
    match j
    case MainCamera => [Copied(cam, true, false)] + (if effects then [EffectsApplied] else [])
    case SubCamera => [Copied(cam, false, false)]
    case GUI => [GuiAdded(cam)]
    case GUIAndCamera => [Copied(cam, false, true), GuiAdded(cam)]
    case Ignore => []
  }

  /**
   * A judgement that asks for a copy copies the camera first, once, as a
   * main-camera candidate exactly for MainCamera and with other consumers
   * exactly for GUIAndCamera; the GUI judgements hand it to VRGUI; effects are
   * applied only after a main camera and only while enabled; Ignore does
   * nothing.
   */
  lemma DispatchRoutes(cam: CameraId, j: Judgement, effects: bool)
    ensures var r := Dispatch(cam, j, effects);
            && (forall k | 0 <= k < |r| :: !r[k].EffectsApplied? ==> r[k].cam == cam)
            && (Copies(j) <==> |r| > 0 && r[0] == Copied(cam, j == MainCamera, j == GUIAndCamera))
            && (forall k | 0 < k < |r| :: !r[k].Copied?)
            && (Shows(j) <==> GuiAdded(cam) in r)
            && (EffectsApplied in r <==> j == MainCamera && effects)
            && (r == [] <==> j == Ignore)
  {
    var r := Dispatch(cam, j, effects);
    if j == MainCamera && !effects {
      assert r == [Copied(cam, true, false)];
    }
  }

  /**
   * The cameras one update judges, in the order the engine lists them: each
   * one neither checked before nor met earlier in the same list.
   */
  function Judged(checked: set<CameraId>, all: seq<CameraId>): seq<CameraId> {
    if all == [] then []
    else
      var n := |all| - 1;
      Judged(checked, all[..n]) + (if all[n] in checked || all[n] in all[..n] then [] else [all[n]])
  }

  /** An update judges every camera it lists and had not checked, and each of them once. */
  lemma {:induction false} JudgedOnce(checked: set<CameraId>, all: seq<CameraId>)
    ensures NoDup(Judged(checked, all))
    ensures forall c :: c in Judged(checked, all) <==> c in all && c !in checked
  {
    if all != [] {
      var n := |all| - 1;
      JudgedOnce(checked, all[..n]);
      assert all == all[..n] + [all[n]];
    }
  }

  /** The cameras a list names. */
  function Listed(s: seq<CameraId>): set<CameraId> {
    set c | c in s
  }

  /** Two updates never judge the same camera: the second sees the first's cameras as checked. */
  lemma UpdatesJudgeApart(checked: set<CameraId>, first: seq<CameraId>, second: seq<CameraId>)
    ensures forall c | c in Judged(checked, first) :: c !in Judged(checked + Listed(first), second)
  {
    JudgedOnce(checked, first);
    JudgedOnce(checked + Listed(first), second);
  }

  /** After a level load has emptied the checked set, every listed camera is judged again. */
  lemma LevelLoadRejudges(all: seq<CameraId>)
    ensures forall c | c in all :: c in Judged({}, all)
  {
    JudgedOnce({}, all);
  }

  /** The actions for a list of judged cameras, one Dispatch after the other. */
  function DispatchAll(cams: seq<CameraId>, judge: CameraId -> Judgement, effects: bool): seq<Action> {
    if cams == [] then []
    else
      var n := |cams| - 1;
      DispatchAll(cams[..n], judge, effects) + Dispatch(cams[n], judge(cams[n]), effects)
  }

  /** What one update sets off: the Dispatch of every camera it judges. */
  function Plan(checked: set<CameraId>, all: seq<CameraId>, judge: CameraId -> Judgement, effects: bool): seq<Action> {
    DispatchAll(Judged(checked, all), judge, effects)
  }

  /** Listing one more camera judges it exactly when it is new. */
  lemma JudgedStep(checked: set<CameraId>, all: seq<CameraId>, i: nat)
    requires i < |all|
    ensures var isNew := all[i] !in checked && all[i] !in all[..i];
            && Judged(checked, all[..i + 1]) == Judged(checked, all[..i]) + (if isNew then [all[i]] else [])
            && Listed(all[..i + 1]) == Listed(all[..i]) + {all[i]}
  {
    var prefix := all[..i + 1];
    assert prefix[..i] == all[..i];
    assert prefix == all[..i] + [all[i]];
    var judged := Judged(checked, all[..i]);
    if all[i] !in checked && all[i] !in all[..i] {
      assert Judged(checked, prefix) == judged + [all[i]];
      assert (judged + [all[i]])[..|judged|] == judged;
    } else {
      assert Judged(checked, prefix) == judged;
    }
  }

  /** The bookkeeping of an update after its first `i` cameras: whom it judged, what it set off, what it listed. */
  ghost predicate Tracks(checked0: set<CameraId>, all: seq<CameraId>, i: nat, judged: seq<CameraId>, plan: seq<Action>,
                         listed: set<CameraId>, judge: CameraId -> Judgement, effects: bool) {
    && i <= |all|
    && judged == Judged(checked0, all[..i])
    && plan == DispatchAll(judged, judge, effects)
    && listed == Listed(all[..i])
  }

  /**
   * A camera is copied by an update exactly when the update judges it and the
   * interpreter asks for a copy, and handed to VRGUI exactly when it judges it
   * and the interpreter asks for the GUI.
   */
  lemma {:induction false} DispatchAllActs(cams: seq<CameraId>, judge: CameraId -> Judgement, effects: bool, c: CameraId)
    ensures (exists k | 0 <= k < |DispatchAll(cams, judge, effects)| :: DispatchAll(cams, judge, effects)[k] == Copied(c, judge(c) == MainCamera, judge(c) == GUIAndCamera))
            <==> c in cams && Copies(judge(c))
    ensures GuiAdded(c) in DispatchAll(cams, judge, effects) <==> c in cams && Shows(judge(c))
  {
    if cams != [] {
      var n := |cams| - 1;
      DispatchAllActs(cams[..n], judge, effects, c);
      DispatchRoutes(cams[n], judge(cams[n]), effects);
      assert cams == cams[..n] + [cams[n]];
      var p := DispatchAll(cams[..n], judge, effects);
      var d := Dispatch(cams[n], judge(cams[n]), effects);
      assert DispatchAll(cams, judge, effects) == p + d;
      var want := Copied(c, judge(c) == MainCamera, judge(c) == GUIAndCamera);
      if exists k | 0 <= k < |p + d| :: (p + d)[k] == want {
        var k :| 0 <= k < |p + d| && (p + d)[k] == want;
        if k >= |p| {
          assert d[k - |p|] == want;
        }
      }
      if c in cams && Copies(judge(c)) {
        if c in cams[..n] {
          var k :| 0 <= k < |p| && p[k] == want;
          assert (p + d)[k] == want;
        } else {
          assert c == cams[n];
          var k :| 0 <= k < |d| && d[k].Copied?;
          assert (p + d)[|p| + k] == want;
        }
      }
    }
  }

  /** SetMode<T>: the type of the mode component after asking for type `t`. */
  function ModeAfter(mode: Option<TypeId>, t: TypeId, types: Types): (r: Option<TypeId>)
    ensures mode.Some? && types.isAssignableFrom(t, mode.value) ==> r == mode
    ensures r != mode ==> r == Some(t)
    ensures types.isAssignableFrom(t, t) ==> r.Some? && types.isAssignableFrom(t, r.value)
  {
    if mode.None? || !types.isAssignableFrom(t, mode.value) then Some(t) else mode
  }

  /** Asking twice for the same mode changes nothing the second time. */
  lemma ModeAfterIdempotent(mode: Option<TypeId>, t: TypeId, types: Types)
    requires types.isAssignableFrom(t, t)
    ensures ModeAfter(ModeAfter(mode, t, types), t, types) == ModeAfter(mode, t, types)
  {
    var once := ModeAfter(mode, t, types);
    assert once.Some? && types.isAssignableFrom(t, once.value);
  }

  /** The same cameras, each as enabled as before. */
  ghost predicate SameCameras(a: map<CameraId, Cam>, b: map<CameraId, Cam>) {
    a.Keys == b.Keys && forall c | c in a :: b[c].enabled == a[c].enabled
  }

  /** Every camera of `cams` the interpreter asked to copy is among `slaves`, and every one it asked to show among `shown`. */
  ghost predicate HandledBy(cams: seq<CameraId>, judge: CameraId -> Judgement, slaves: set<CameraId>, shown: set<CameraId>) {
    forall c | c in cams :: (Copies(judge(c)) ==> c in slaves) && (Shows(judge(c)) ==> c in shown)
  }

  lemma HandledGrows(cams: seq<CameraId>, more: seq<CameraId>, judge: CameraId -> Judgement,
                     slaves: set<CameraId>, shown: set<CameraId>, slaves': set<CameraId>, shown': set<CameraId>)
    requires HandledBy(cams, judge, slaves, shown) && slaves <= slaves' && shown <= shown'
    requires HandledBy(more, judge, slaves', shown')
    ensures HandledBy(cams + more, judge, slaves', shown')
  {
  }

  /** Every camera of `all` is live and enabled. */
  ghost predicate Usable(all: seq<CameraId>, live: set<CameraId>, cams: map<CameraId, Cam>) {
    forall c | c in all :: c in live && c in cams && cams[c].enabled
  }

  lemma UsableKept(all: seq<CameraId>, live: set<CameraId>, a: map<CameraId, Cam>, b: map<CameraId, Cam>)
    requires Usable(all, live, a) && SameCameras(a, b)
    ensures Usable(all, live, b)
  {
  }
}
