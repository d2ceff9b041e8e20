# VRGIN camera, GUI and controller core in Dafny

VRGIN is a Unity plug-in that puts a game that was never meant for virtual
reality into a headset. This project models four pieces of it and proves
properties of the model:

- **VRManager** checks every camera the engine lists each frame, once. It asks
  the game's interpreter to judge the camera. Depending on the judgement it
  has the VR camera copy the camera, hands it to VRGUI, or both. It also owns
  the image-effects switch, the control mode and the cached `VR.Quitting`
  flag.
- **VRCamera** keeps the cameras it copied as *slaves*. It elects one of them
  as the *blueprint*, whose configuration the stereo camera takes. Its
  culling mask is the union of the slaves' masks, minus the UI, invisible
  and ignored layers. `CameraSlave` registers and unregisters a slave as it
  is enabled and disabled. `CameraKiller` silences irrelevant cameras.
- **VRGUI** maps cameras to screen grabbers, first match wins. It keeps the
  grabbers' cameras pointed at their textures and redirects unprocessed
  canvases into its GUI camera while anyone listens. During repaints it
  diverts the legacy GUI into a texture.
- **Controller** holds tools, one of them active. A focus lock halts the
  active tool while something else owns the controller's input.

Cameras, canvases, grabbers and tools are opaque ids. Their attributes live
in maps. Engine liveness (Unity's overloaded null test) is a set of live ids.
Culling masks are `bv32`.

Modules:

- `Engine` (`engine.dfy`): the engine's state as the plug-in sees it.
- `Synthesis` (`synthesis.dfy`): the VR camera's steps as functions on values.
- `StereoCamera` (`stereo_camera.dfy`): the classes `VRCamera` and
  `CameraKiller`. Each method is proved to leave exactly the state the
  matching `Synthesis` function gives.
- `GuiRules` (`gui_rules.dfy`) and `GuiCapture` (`gui_capture.dfy`): VRGUI's
  rules on values, and the class `VRGUI`.
- `ManagerRules` (`manager_rules.dfy`) and `Manager` (`manager.dfy`):
  VRManager's judging rules on values, and the classes `VR` and `VRManager`.
- `Controls` (`controls.dfy`): the classes `Lock` and `Controller`.

Exceptions that the code can raise are modelled as outcomes: a `threw` flag,
or `None` from a function. Where the code catches them (CameraSlave's
`try`/`catch`), the model catches them too.

Four behaviours of the code a reader might not expect:

- ChangeBlueprint copies its configuration from the camera the `Blueprint`
  getter returns after the election (its live attributes). It does not copy
  from a stored snapshot.
- `AddComponent<CameraSlave>()` on an active GameObject runs the slave's
  Awake and OnEnable straight away. So the slave is registered, and the
  mask and election are recomputed, before `canBeMainCamera` is set. The
  cameras copied are enabled and so on active objects; the model does not
  represent an inactive GameObject, on which Awake and OnEnable would wait.
- Copy raises InitializeCamera (for a main-camera candidate) before
  CopiedCamera.
- The `Blueprint` getter is not total. When the elected blueprint is gone or
  disabled, it scans the slaves' cameras, and reading the camera of a
  destroyed slave throws. OnSlaveDisable keeps a slave registered while the
  application quits, so a destroyed slave can stay registered. Every
  caller of the getter can throw through it.

## Model

| member | source | states |
|---|---|---|
| Engine.Snapshot | VRGIN/Core/VRCamera.cs:80-103 | CameraSlave's Awake records all eleven settings of the camera (clip planes, clear flags, rendering path, stencil clearing, depth texture mode, per-layer cull distances, spherical culling, occlusion culling, background colour, culling mask); the eligibility flag starts false |
| Engine.Without | VRGIN/Core/VRCamera.cs:456-463 | `List.Remove`: without `x` the list is unchanged; with it, exactly one element fewer, nothing new, every other element kept, and no repeats stay no repeats without `x` |
| Engine.ToList | VRGIN/Core/VRGUI.cs:322-329 | `HashSet.ToList`: a list holding every element of the set once and nothing else |
| Synthesis.FirstUnownedIsFirst | VRGIN/Core/VRCamera.cs:166 | the value of the getter's fallback scan when it does not throw (see `ScanThrowsAt`): the first slave the GUI does not own, and none only when the GUI owns every slave |
| Synthesis.ScanThrowsAt | VRGIN/Core/VRCamera.cs:130-166 | the fallback scan, which reads each slave's `Camera`, throws exactly when some slave is destroyed and every slave before it is alive and owned by the GUI; when it does not throw, the camera it finds is alive, and finding none means every slave is alive |
| Synthesis.BlueprintViewIs | VRGIN/Core/VRCamera.cs:162-168 | the `Blueprint` getter returns the elected blueprint while it is alive and enabled, otherwise a slave the GUI does not own; null exactly when the blueprint is gone or disabled and the GUI owns all slaves; it throws exactly when the blueprint is gone or disabled and a destroyed slave comes before any live slave the GUI does not own, so never while every slave is alive; a camera it returns without throwing is alive |
| Synthesis.SameView | VRGIN/Core/VRCamera.cs:162-168 | the getter's value and whether it throws depend only on the blueprint, the slaves, liveness, enabledness and the GUI's mappings |
| Synthesis.BlueprintConfigCopies | VRGIN/Core/VRCamera.cs:291-317 | near clip from the context, far clip `max(blueprint's, 10)`, Skybox kept only when the blueprint clears to Skybox (else SolidColor), rendering path, stencil clearing, depth-texture mode, layer cull distances and sphericity, occlusion culling, HDR and background copied; a blueprint's Skybox component goes onto the VR camera with its material (an unset one included), and the VR camera keeps its own Skybox when the blueprint has none; the VR camera's mask, depth, target, name and enabledness untouched |
| Synthesis.BlueprintConfigAsWrittenThrows | VRGIN/Core/VRCamera.cs:309-316 | the copy as written throws exactly when the blueprint has a Skybox and the VR camera has none, after every other attribute was assigned and leaving the VR camera without the blueprint's Skybox; otherwise it is the corrected copy |
| Synthesis.BlueprintConfigIgnoresNear | VRGIN/Core/VRCamera.cs:294-295 | the configuration never reads the blueprint's near clip |
| Synthesis.AggregateMaskIsUpperBound | VRGIN/Core/VRCamera.cs:337 | the aggregated mask contains every slave's snapshot mask |
| Synthesis.AggregateMaskIsLeast | VRGIN/Core/VRCamera.cs:337 | the aggregated mask is contained in every mask that contains all slaves' masks (least upper bound) |
| Synthesis.SameSlavesSameMask | VRGIN/Core/VRCamera.cs:337 | the mask depends only on which cameras are registered, not on order or repetition |
| Synthesis.VisibleMaskExcludes | VRGIN/Core/VRCamera.cs:339-342 | the VR camera's mask never names a UI, invisible or ignored layer, names nothing outside the slaves' and default masks, and names every other layer of those |
| Synthesis.MostRecentEligibleIsLast | VRGIN/Core/VRCamera.cs:350 | `Reverse(Slaves).FirstOrDefault(canBeMainCamera)` finds the last eligible slave, and none only when no slave is eligible |
| Synthesis.ChangeBlueprintElects | VRGIN/Core/VRCamera.cs:291-317 | ChangeBlueprint elects `b`, sets the near clip from the context, and changes nothing but the VR camera's configuration |
| Synthesis.ChangeBlueprintCopies | VRGIN/Core/VRCamera.cs:291-317 | ChangeBlueprint throws exactly when the getter, read after the election, throws or returns null; otherwise the VR camera takes that camera's configuration, with the corrected Skybox copy (see Findings); a live, enabled `b` is that camera and nothing throws |
| Synthesis.UpdateCameraConfigFacts | VRGIN/Core/VRCamera.cs:334-357 | a destroyed registered slave makes it throw while logging the slaves' names, before anything changes; otherwise the VR camera gets the visible mask of all slaves, a registered blueprint stays, otherwise the last eligible slave is elected, and only that election can throw |
| Synthesis.UpdateCameraConfigElects | VRGIN/Core/VRCamera.cs:346-355 | an unregistered blueprint is replaced by the last eligible slave without an exception when that slave is alive and enabled and no registered slave was destroyed; a destroyed one makes it throw with nothing changed |
| Synthesis.RegisterSlaveFacts | VRGIN/Core/VRCamera.cs:446-454 | afterwards the slave is registered and nothing else is added, earlier slaves keep their order; with every slave alive the mask covers the new list and a registered blueprint stays without an exception; a destroyed slave makes it throw with mask and blueprint unchanged |
| Synthesis.UnregisterSlaveFacts | VRGIN/Core/VRCamera.cs:456-463 | afterwards the slave is gone and the others stay in order; the mask is recomputed only when the slave had been registered, and is left as it was, with an exception, when a remaining slave was destroyed |
| Synthesis.EnslaveFacts | VRGIN/Core/VRCamera.cs:256 | the camera gets its slave record with the snapshot and the flag, is registered, only the VR camera is reconfigured, and a blueprint that is registered or is the camera itself stays |
| Synthesis.AttachFacts | VRGIN/Core/VRCamera.cs:254-276 | Attach registers the camera, removes its audio listener, switches off stereo targeting, and adds a CameraKiller exactly when nothing else consumes it, it has no target texture and the interpreter calls it irrelevant |
| Synthesis.AttachKeeps | VRGIN/Core/VRCamera.cs:254-276 | Attach enables or disables no camera and forgets no slave record |
| Synthesis.CopyRestFacts | VRGIN/Core/VRCamera.cs:254-288 | a live camera is enslaved and no other slave is added; for a candidate the getter read for InitializeCamera throws exactly when the getter throws then, before any event, and never while every slave is alive; otherwise InitializeCamera (with the blueprint as it is then) is raised only for a candidate and CopiedCamera always |
| Synthesis.CopyRestKeeps | VRGIN/Core/VRCamera.cs:254-288 | the end of Copy enables or disables no camera and forgets no slave record |
| Synthesis.CopyGuards | VRGIN/Core/VRCamera.cs:239-289 | a camera that already carries a CameraSlave is left alone; Copy throws exactly for a refused destroyed candidate, a throwing election, or a throwing getter read for InitializeCamera, so only for a candidate; an exception raises no event and adds no slave for a destroyed camera; a live, enabled camera is copied without one while every slave is alive, and the slaves stay alive |
| Synthesis.CopyAnnounces | VRGIN/Core/VRCamera.cs:278-288 | Copy raises InitializeCamera only for a main-camera candidate and then CopiedCamera once |
| Synthesis.CopyKills | VRGIN/Core/VRCamera.cs:249-276 | a CameraKiller is added exactly to a live, irrelevant camera nobody else consumes that renders to the screen, once the election (if any) did not throw; a later exception does not undo it |
| Synthesis.CopyElects | VRGIN/Core/VRCamera.cs:249-288 | a candidate that UseNewCamera accepts, past the guard, becomes the blueprint unless the election throws, and stays it through a later exception; a registered blueprint that is not displaced stays |
| Synthesis.CopyKeeps | VRGIN/Core/VRCamera.cs:239-289 | Copy enables or disables no camera, forgets no slave record and registers no slave but the copied camera; a live camera carries a slave afterwards unless the election threw |
| Synthesis.MainCameraSticks | VRGIN/Core/VRCamera.cs:319-332 | while the blueprint is a registered live camera called "Main Camera" (not the VR camera), copying any other camera leaves it elected |
| Synthesis.RegisterSlaveTwice | VRGIN/Core/VRCamera.cs:446-454 | registering a slave twice changes neither the slave list nor the mask the second time |
| Synthesis.ReelectionExample | VRGIN/Core/VRCamera.cs:456-463 | with slaves 1 (eligible, blueprint), 2 (not eligible) and 3 (eligible), unregistering 1 elects 3 without an exception |
| StereoCamera.VRCamera.constructor | VRGIN/Core/VRCamera.cs:219-234 | the VR camera starts with no blueprint, no slaves and no events |
| StereoCamera.VRCamera.Blueprint | VRGIN/Core/VRCamera.cs:162-168 | the loop throws exactly when `BlueprintThrows` holds, and otherwise returns the getter's value `BlueprintView` |
| StereoCamera.VRCamera.ChangeBlueprint | VRGIN/Core/VRCamera.cs:291-317 | the new state and outcome are those of `Synthesis.ChangeBlueprint` |
| StereoCamera.VRCamera.SlaveMask | VRGIN/Core/VRCamera.cs:337 | the loop computes the aggregated mask of the slave list |
| StereoCamera.VRCamera.LastEligibleSlave | VRGIN/Core/VRCamera.cs:350 | the loop finds the most recently registered eligible slave |
| StereoCamera.VRCamera.SlaveNamesReadable | VRGIN/Core/VRCamera.cs:344 | the names of all slaves can be read exactly when every registered slave is alive |
| StereoCamera.VRCamera.UpdateCameraConfig | VRGIN/Core/VRCamera.cs:334-357 | the new state and outcome are those of `Synthesis.UpdateCameraConfig`, the throw for a destroyed slave included |
| StereoCamera.VRCamera.RegisterSlave | VRGIN/Core/VRCamera.cs:446-454 | the new state and outcome are those of `Synthesis.RegisterSlave` |
| StereoCamera.VRCamera.UnregisterSlave | VRGIN/Core/VRCamera.cs:456-463 | the new state and outcome are those of `Synthesis.UnregisterSlave` |
| StereoCamera.VRCamera.OnSlaveEnable | VRGIN/Core/VRCamera.cs:105-114 | registration's state, with any exception caught |
| StereoCamera.VRCamera.OnSlaveDisable | VRGIN/Core/VRCamera.cs:116-129 | nothing while quitting; otherwise unregistration's state, with any exception caught |
| StereoCamera.VRCamera.Enslave | VRGIN/Core/VRCamera.cs:256 | the state of `Synthesis.Enslave`: snapshot, registration, then the flag |
| StereoCamera.VRCamera.Attach | VRGIN/Core/VRCamera.cs:254-276 | the state of `Synthesis.Attach` |
| StereoCamera.VRCamera.CopyRest | VRGIN/Core/VRCamera.cs:254-288 | the new state and outcome are those of `Synthesis.CopyRest`, the getter's exception included |
| StereoCamera.VRCamera.Copy | VRGIN/Core/VRCamera.cs:239-289 | the new state and outcome are those of `Synthesis.Copy`, so every Copy lemma holds of it |
| StereoCamera.CameraKiller.constructor | VRGIN/Core/VRCamera.cs:32-35 | the killer is attached to its camera |
| StereoCamera.CameraKiller.OnStart | VRGIN/Core/VRCamera.cs:37-49 | the camera's culling mask becomes 0, its depth -9999, occlusion culling off and clear flags Nothing; every other field of it, and every other camera, is as before |
| GuiRules.FirstTexture | VRGIN/Core/VRGUI.cs:386-390 | VRGUI's first texture is the uGUI texture; other grabbers answer for themselves |
| GuiRules.FirstAcceptingIsFirst | VRGIN/Core/VRGUI.cs:366-378 | the grabber found accepts the camera and no grabber before it does, or none accepts it |
| GuiRules.OwnerIsFirstMatch | VRGIN/Core/VRGUI.cs:366-384 | ownership is first-match-wins over the grabber list, with VRGUI itself as the fallback for UI cameras |
| GuiRules.FrontGrabberWins | VRGIN/Core/VRGUI.cs:299-306 | a grabber put at the front owns every camera its Check accepts |
| GuiRules.IsUnprocessedAsWritten | VRGIN/Core/VRGUI.cs:179-183 | as written: raises exactly for a screen-space-camera canvas whose camera is missing or destroyed; otherwise agrees with the intended test |
| GuiRules.Caught | VRGIN/Core/VRGUI.cs:197-231 | a caught canvas is drawn by the GUI camera in screen-space-camera mode, keeps its sorting order and its descendants, moves to the UI layer when outside the UI layers, and has a graphic raycaster replaced by a sorting-aware one in the alternative sorting mode |
| GuiRules.CaughtReachesActiveOnly | VRGIN/Core/VRGUI.cs:201-216 | only the active objects below the canvas are reached: inactive ones are untouched; active ones move to the UI layer with the canvas and receive their default material when that is enforced |
| GuiRules.CaughtIsProcessed | VRGIN/Core/VRGUI.cs:179-231 | a caught canvas is no longer unprocessed |
| GuiRules.CatchAll | VRGIN/Core/VRGUI.cs:185-234 | every live registered canvas that is not ignored ends processed; every other canvas is unchanged |
| GuiRules.CatchAllIdempotent | VRGIN/Core/VRGUI.cs:185-234 | catching twice is catching once |
| GuiRules.CatchAllAsWritten | VRGIN/Core/VRGUI.cs:185-234 | as written, the pass over the registry stops at the first canvas whose test raises; when none raises the result is `CatchAll` |
| GuiRules.CatchAllAsWrittenRaises | VRGIN/Core/VRGUI.cs:179-190 | as written, the pass raises exactly when some live registered canvas raises in the unprocessed test |
| GuiRules.MissingCameraAbortsCatch | VRGIN/Core/VRGUI.cs:179-190 | a registry of a camera-less screen-space-camera canvas then an overlay canvas: as written the pass raises and changes nothing; as intended the overlay canvas is caught |
| GuiRules.GetOrder | VRGIN/Core/VRGUI.cs:472-475 | the raycaster's priority is the negated sorting order in 32-bit arithmetic, the least value negating to itself |
| GuiRules.GetOrderReversesSorting | VRGIN/Core/VRGUI.cs:449-475 | a canvas sorted later is raycast earlier, except at the least sorting order |
| GuiRules.AssignDepth | VRGIN/Core/VRGUI.cs:392-395 | OnAssign's depth is at most the GUI camera's and at most one less than the assigned camera's, and equals one of them |
| GuiRules.WithDepth | VRGIN/Core/VRGUI.cs:392-395 | only the depth of the one camera changes |
| GuiRules.RejudgedMaps | VRGIN/Core/VRGUI.cs:322-343 | after rejudging, every judged camera with an owner maps to it; every other entry is kept, stale ones included |
| GuiRules.RejudgedListIsRejudged | VRGIN/Core/VRGUI.cs:322-329 | judging a list one camera at a time gives the rejudgement of its set, whatever the order |
| GuiRules.FrontDepthInFront | VRGIN/Core/VRGUI.cs:322-343 | whatever the order, the GUI camera ends no deeper than before and in front of every judged camera VRGUI owns |
| GuiRules.LiveMappings | VRGIN/Core/VRGUI.cs:345-364 | the entries of destroyed cameras are gone and the live ones kept |
| GuiRules.Retargeted | VRGIN/Core/VRGUI.cs:345-364 | every live mapped camera renders into its grabber's first texture; nothing else changes |
| GuiRules.RetargetedListPointwise | VRGIN/Core/VRGUI.cs:349-358 | the first pass changes exactly the live mapped cameras it has visited |
| GuiRules.RetargetedListIsRetargeted | VRGIN/Core/VRGUI.cs:349-358 | a pass over every key of the dictionary is `Retargeted`, whatever the order |
| GuiRules.DeadKeysAreDead | VRGIN/Core/VRGUI.cs:349-358 | the removal list holds exactly the destroyed keys |
| GuiRules.RemovedAllIsFilter | VRGIN/Core/VRGUI.cs:360-363 | removing keys one by one leaves exactly the other entries |
| GuiRules.RemovedDeadIsLive | VRGIN/Core/VRGUI.cs:345-364 | removing the destroyed keys leaves the live entries |
| GuiRules.RetargetedIdempotent | VRGIN/Core/VRGUI.cs:345-364 | repairing the targets twice is repairing them once |
| GuiCapture.VRGUI.constructor | VRGIN/Core/VRGUI.cs:132-177 | the GUI camera sees the UI layers, has depth 1, the GUI clip planes, a clear background and no occlusion culling, and renders into the uGUI texture; no grabbers, mappings, judged cameras or listeners |
| GuiCapture.VRGUI.IsInterested | VRGIN/Core/VRGUI.cs:97-100 | true exactly when some grabber's Check or the interpreter's UI test accepts the camera |
| GuiCapture.VRGUI.FindCameraMapping | VRGIN/Core/VRGUI.cs:366-378 | the loop returns the first accepting grabber, else VRGUI for a UI camera, else none |
| GuiCapture.VRGUI.OnAssign | VRGIN/Core/VRGUI.cs:392-395 | only the GUI camera's depth changes, to the `AssignDepth` minimum |
| GuiCapture.VRGUI.AddCamera | VRGIN/Core/VRGUI.cs:331-343 | a destroyed camera aborts it before anything changes; a live one is judged, mapped to its owner when it has one, and VRGUI's OnAssign pulls the GUI camera in front of it when VRGUI owns it |
| GuiCapture.VRGUI.RejudgeAll | VRGIN/Core/VRGUI.cs:322-329 | it aborts exactly when a judged camera was destroyed; the cameras judged again before that are live, and are all of them when it does not abort; the mappings become their rejudgement and the GUI camera is in front of every one of them VRGUI owns |
| GuiCapture.VRGUI.AddGrabber | VRGIN/Core/VRGUI.cs:299-306 | a known grabber changes nothing; a new one goes first, everything judged is judged again as RejudgeAll states, and it owns every rejudged camera it accepts |
| GuiCapture.VRGUI.RemoveGrabber | VRGIN/Core/VRGUI.cs:308-312 | the grabber is gone and everything judged is judged again as RejudgeAll states, even when it was absent |
| GuiCapture.VRGUI.EnsureCameraTargets | VRGIN/Core/VRGUI.cs:345-364 | destroyed cameras leave the dictionary and every mapped camera renders into its grabber's first texture |
| GuiCapture.VRGUI.RetargetPass | VRGIN/Core/VRGUI.cs:349-358 | the loop collects exactly the destroyed keys and repairs the targets of the live ones |
| GuiCapture.VRGUI.RemovePass | VRGIN/Core/VRGUI.cs:360-363 | the loop removes each collected camera from the dictionary |
| GuiCapture.VRGUI.Listen | VRGIN/Core/VRGUI.cs:122-125 | one more listener |
| GuiCapture.VRGUI.Unlisten | VRGIN/Core/VRGUI.cs:127-130 | one listener fewer, with no floor at zero |
| GuiCapture.VRGUI.CatchCanvas | VRGIN/Core/VRGUI.cs:185-234 | with the corrected unprocessed test (see Findings): the GUI camera renders into the uGUI texture again and the canvases become `CatchAll` of the registry |
| GuiCapture.VRGUI.CatchPass | VRGIN/Core/VRGUI.cs:190-233 | the loop over the registry in order gives `CatchAll` |
| GuiCapture.VRGUI.OnUpdate | VRGIN/Core/VRGUI.cs:236-257 | targets are repaired every frame; canvases are caught only while the listener count is positive |
| GuiCapture.VRGUI.OnLevelWasLoaded | VRGIN/Core/VRGUI.cs:259-277 | every judgement and every mapping is forgotten |
| GuiCapture.VRGUI.OnBeforeGUI | VRGIN/Core/VRGUI.cs:287-295 | on a repaint the active render target is remembered and replaced by the legacy GUI texture; otherwise nothing changes |
| GuiCapture.VRGUI.OnAfterGUI | VRGIN/Core/VRGUI.cs:279-285 | on a repaint the remembered render target is restored |
| GuiCapture.VRGUI.LegacyGuiEvent | VRGIN/Core/VRGUI.cs:402-432 | on a repaint the game draws into the legacy GUI texture and, whatever target its drawing leaves active, the target active before the event is active again after it; on other events the plugin leaves the target as the game left it |
| ManagerRules.DispatchRoutes | VRGIN/Core/VRManager.cs:204-222 | each judgement's actions: a copy first and once, as a main candidate exactly for MainCamera and with other consumers exactly for GUIAndCamera; the GUI judgements add the camera to VRGUI; effects only after a main camera and while enabled; Ignore does nothing |
| ManagerRules.JudgedOnce | VRGIN/Core/VRManager.cs:193-201 | an update judges exactly the listed cameras not checked before, each once |
| ManagerRules.UpdatesJudgeApart | VRGIN/Core/VRManager.cs:197-201 | two updates never judge the same camera |
| ManagerRules.LevelLoadRejudges | VRGIN/Core/VRManager.cs:170-181 | after the checked set is cleared, every listed camera is judged again |
| ManagerRules.JudgedStep | VRGIN/Core/VRManager.cs:193-201 | listing one more camera judges it exactly when it is new |
| ManagerRules.DispatchAllActs | VRGIN/Core/VRManager.cs:193-222 | an update copies a camera exactly when it judges it and the judgement asks for a copy, and shows it exactly when the judgement asks for the GUI |
| ManagerRules.ModeAfter | VRGIN/Core/VRManager.cs:119-136 | a mode already assignable to `T` stays; otherwise the mode becomes a new `T` |
| ManagerRules.ModeAfterIdempotent | VRGIN/Core/VRManager.cs:119-136 | asking twice for the same mode changes nothing the second time |
| ManagerRules.HandledGrows | VRGIN/Core/VRManager.cs:193-222 | cameras already handled stay handled while the slaves and shown sets grow |
| ManagerRules.UsableKept | VRGIN/Core/VRManager.cs:193-222 | cameras stay live and enabled while no camera is added or toggled |
| Manager.HmdOf | VRGIN/Core/VRManager.cs:153 | Oculus exactly for "oculus", Vive exactly for "lighthouse", Other for anything else |
| Manager.VR.constructor | VRGIN/Core/VRManager.cs:30 | the cached quitting flag starts false |
| Manager.VR.Quitting | VRGIN/Core/VRManager.cs:28-30 | the answer is the cached flag or the interpreter's answer, and it is cached |
| Manager.QuittingAnswersAre | VRGIN/Core/VRManager.cs:28-30 | read `k` answers true exactly when the flag was cached or the interpreter said so at some read up to `k` |
| Manager.QuittingSticks | VRGIN/Core/VRManager.cs:28-30 | once `VR.Quitting` answered true it answers true for good |
| Manager.GetAllCameras | VRGIN/Core/VRManager.cs:192 | the engine writes the listed cameras into the first slots and leaves the rest |
| Manager.Take | VRGIN/Core/VRManager.cs:195-196 | reading slot `i` gives the `i`-th listed camera and clears the slot |
| Manager.VRManager.constructor | VRGIN/Core/VRManager.cs:83-110 | the headset from the tracking system, nothing checked, an empty buffer, no mode, and effects enabled exactly when the settings ask, applied when the Blueprint getter then returns a camera without throwing |
| Manager.VRManager.ApplyEffects | VRGIN/Core/VRManager.cs:259-262 | it throws exactly when the Blueprint getter throws or returns null (which CopyFX dereferences at VRGIN/Core/VRCamera.cs:366); otherwise one effects application is recorded |
| Manager.VRManager.EnableEffects | VRGIN/Core/VRManager.cs:236-240 | effects are on; it throws exactly when the Blueprint getter throws, and otherwise applies effects exactly when the getter returns a camera |
| Manager.VRManager.DisableEffects | VRGIN/Core/VRManager.cs:242-245 | effects are off and nothing is undone |
| Manager.VRManager.ToggleEffects | VRGIN/Core/VRManager.cs:247-257 | the switch flips; turning it on throws exactly when the Blueprint getter throws, and otherwise applies effects when the getter returns a camera |
| Manager.VRManager.SetMode | VRGIN/Core/VRManager.cs:119-136 | the mode becomes `ModeAfter`; ModeType changes to `T` only when the mode is replaced |
| Manager.VRManager.OnDisable | VRGIN/Core/VRManager.cs:231-234 | `VR.Quitting` answers true from then on |
| Manager.VRManager.OnLevelWasLoaded | VRGIN/Core/VRManager.cs:170-181 | no camera is checked |
| Manager.VRManager.CopyCamera | VRGIN/Core/VRManager.cs:207-217 | copying a live, enabled camera records the copy, adds, removes or toggles no camera and keeps every slave; it throws only for a main-camera candidate, never while every slave is alive, and the slaves stay alive; without an exception the camera ends a slave |
| Manager.VRManager.AddGuiCamera | VRGIN/Core/VRManager.cs:214 | VRGUI judges the camera; no camera is added or toggled and the slaves are untouched |
| Manager.VRManager.CopyMain | VRGIN/Core/VRManager.cs:206-209 | the MainCamera actions: a candidate copy, then effects when enabled; an exception stops after the copy; while every slave is alive only the effects throw, exactly when the getter then returns null |
| Manager.VRManager.CopyAndShow | VRGIN/Core/VRManager.cs:216-219 | the GUIAndCamera actions: a copy with other consumers, which cannot throw, then VRGUI's AddCamera |
| Manager.VRManager.Act | VRGIN/Core/VRManager.cs:204-221 | the judgement's actions are carried out; a copied camera ends a slave and a shown one is judged by VRGUI; only a main camera can throw, and while every slave is alive only through its effects |
| Manager.VRManager.JudgeNew | VRGIN/Core/VRManager.cs:197-203 | a new camera is checked and judged, then handled as `Act` states |
| Manager.VRManager.Visit | VRGIN/Core/VRManager.cs:197-222 | one new camera extends the update's record by its judgement's actions unless it throws |
| Manager.VRManager.Step | VRGIN/Core/VRManager.cs:195-222 | one turn of the loop clears the slot and, unless it throws, extends the record by the camera exactly when it is new |
| Manager.VRManager.Sweep | VRGIN/Core/VRManager.cs:193-223 | the loop stops at the first exception; otherwise it clears every slot and leaves the record of the judged cameras and their actions; with every slave alive and effects off nothing throws |
| Manager.VRManager.OnUpdate | VRGIN/Core/VRManager.cs:185-224 | without an exception every listed camera becomes checked, the actions are the `Plan` of the cameras judged, in listing order, every judged camera ends a slave when its judgement copies and is judged by VRGUI when it shows; the buffer is replaced by one of the list's length only when too small; with every slave alive and effects off nothing throws |
| Controls.SwitchedSets | VRGIN/Controls/Controller.cs:300-318 | the `ToolEnabled` setter changes only the active tool; afterwards the getter reads the value exactly when there is a live active tool; without one nothing changes |
| Controls.HaltResume | VRGIN/Controls/Controller.cs:149-164 | after halting for a lock the active tool is not enabled; resuming then is the same as enabling it directly, and restores every flag when the tool was enabled before |
| Controls.StartEnablesActiveOnly | VRGIN/Controls/Controller.cs:268-287 | the intended start-up leaves exactly the live tool at the index enabled among the live tools, and destroyed tools untouched |
| Controls.StartAsWrittenThrows | VRGIN/Controls/Controller.cs:268-287 | the start-up as written throws exactly when some tool is destroyed, active or not; otherwise it agrees with the intended one |
| Controls.AllLiveStartEnablesActiveOnly | VRGIN/Controls/Controller.cs:268-287 | with every tool alive, start-up does not throw and exactly the tool at the index is enabled |
| Controls.DestroyedIdleToolAbortsStart | VRGIN/Controls/Controller.cs:273-282 | tools `[a, b]`, index 0, `b` destroyed: as written start-up throws on `b`; as intended it enables `a` |
| Controls.Lock.Invalid | VRGIN/Controls/Controller.cs:27-32 | the shared invalid lock is not valid and belongs to no controller |
| Controls.Lock.constructor | VRGIN/Controls/Controller.cs:34-41 | a new lock is valid, is installed as its controller's lock, and halts the active tool unless it keeps it |
| Controls.Lock.Release | VRGIN/Controls/Controller.cs:43-55 | a valid lock detaches from its controller, resumes the tool unless it kept it and becomes invalid; an invalid lock changes nothing |
| Controls.Lock.SafeRelease | VRGIN/Controls/Controller.cs:57-67 | only a valid lock is marked as invalidating; validity does not change |
| Controls.Controller.constructor | VRGIN/Controls/Controller.cs:80-88 | no tools, index 0, the invalid lock installed, so the focus can be taken |
| Controls.Controller.SetToolEnabled | VRGIN/Controls/Controller.cs:300-318 | the flags become `Switched` of the value |
| Controls.Controller.OnLock | VRGIN/Controls/Controller.cs:149-156 | the active tool is disabled unless the tool is kept |
| Controls.Controller.OnUnlock | VRGIN/Controls/Controller.cs:157-164 | the active tool is enabled unless the tool was kept |
| Controls.Controller.TryAcquireFocus | VRGIN/Controls/Controller.cs:111-124 | succeeds exactly when nobody holds a valid lock; then a new valid lock of this controller is installed and the focus can no longer be taken; on failure the lock is null and nothing changes |
| Controls.Controller.AcquireFocusOut | VRGIN/Controls/Controller.cs:99-103 | the obsolete overload behaves as `TryAcquireFocus` without keeping the tool |
| Controls.Controller.AcquireFocus | VRGIN/Controls/Controller.cs:131-142 | returns a lock valid exactly when the focus was free: the new one then, the shared invalid lock otherwise |
| Controls.Controller.AddTool | VRGIN/Controls/Controller.cs:235-245 | nothing changes unless the type is a tool type and no present tool's type is assignable to it; then exactly one new, live, disabled tool of that type is appended; afterwards a tool assignable to the type is present, so a second call adds nothing |
| Controls.Controller.OnStart | VRGIN/Controls/Controller.cs:268-287 | corrected start-up: the flags of `StartFrom`, and the controller is started |
| Controls.Controller.OnStartAsWritten | VRGIN/Controls/Controller.cs:268-287 | as written: the flags and exception of `StartFromAsWritten`; the controller is marked started only when nothing threw |
| Controls.Controller.TryReleaseLock | VRGIN/Controls/Controller.cs:352-363 | with a button held nothing changes; otherwise the lock is released, resuming the tool unless it kept it; tools, the started flag and the lock's other flags are untouched |
| Controls.Controller.OnUpdate | VRGIN/Controls/Controller.cs:342-350 | an invalidating valid lock is released once no button is held, resuming the tool unless it kept it; otherwise lock and tools stay; tools, the started flag and the lock's other flags are untouched |

## Left out

- Engine callbacks are methods the caller invokes: Awake, OnEnable, OnDisable, OnStart, OnUpdate, OnLevelWasLoaded and OnGUI. Unity's scheduling of them is not modelled. Neither are the `DestroyImmediate` of the old mode and the `ModeInitialized`/`ControllersCreated` events.
- Singletons (`Instance` getters, `VR.*` accessors, `VR.Active`) are not modelled. Objects are passed explicitly.
- Logging is left out, except that reading the name of a destroyed object for a log line throws. Three such log lines are modelled as exceptions:
  - VRGIN/Core/VRGUI.cs:333, AddCamera's first line: AddCamera, RejudgeAll, AddGrabber and RemoveGrabber report that abort as `threw`.
  - VRGIN/Core/VRCamera.cs:326, UseNewCamera's refusal naming the candidate: Copy throws there (Synthesis.CopyGuards).
  - VRGIN/Core/VRCamera.cs:344, UpdateCameraConfig's line naming every slave: a destroyed registered slave makes it throw before the mask is written (Synthesis.UpdateCameraConfigFacts).
  - The other name-reading log lines cannot meet a destroyed object: VRCamera.cs:241 tests the blueprint first, VRGUI.cs:194 runs over live canvases only, VRGUI.cs:340 follows line 333, and VRManager.cs:203 names a camera the engine just listed. The one at VRCamera.cs:389 belongs to CopyFX, which is left out.
- Floating point: depths and clip planes are `real`, and screen sizes, positions and rotations are left out.
- `VR.Settings.Save`, SteamVR set-up (frame rate, render scale, render models, the legacy anchor) and `Application` settings are left out.
- CopyFX, FixEffectOrder, Clone, Refresh and VRCamera.OnUpdate (scaling) are left out. ApplyEffects is recorded as an action, after the getter read and the null dereference at the head of CopyFX.
- CameraKiller.OnPreCull and OnGUI, the cursor blocker and the simulated cursor are left out.
- The raycaster's copied reflection fields (`ignoreReversedGraphics`, `blockingObjects`, `m_BlockingMask`) are left out. So is the material each graphic receives: only the "default materials" flag is kept. Nested canvases are not tracked apart from their parent. A Graphic on the canvas's own object, which also receives its default material, is not modelled: only the objects below the canvas are.
- Foreign screen grabbers are an interface. Their `Check` and `GetTextures` answers are parameters, and their `OnAssign` is left out.
- RemoveGrabber rejudges, but mappings to the removed grabber that no other grabber takes over are kept, as in the code.
- Manager.VRManager.OnUpdate assumes the engine lists live, enabled cameras with no camera toggled during the update. It uses the corrected Skybox copy; as written, a copy from a blueprint with a Skybox onto a VR camera without one also throws, at VRGIN/Core/VRCamera.cs:313 (see Findings).
- Manager.VRManager.OnUpdate: after an exception it states only that the manager, the VR camera and VRGUI stay consistent. It does not say which cameras were judged before the exception. The slots after the failing one still hold their cameras, so the empty-buffer invariant is not restored.
- Manager.VRManager.Sweep: after an exception it states only that the manager stays consistent, not how far the record got.
- Synthesis.BlueprintConfigCopies: states the corrected Skybox copy; as written the copy throws at VRGIN/Core/VRCamera.cs:313 when the blueprint has a Skybox and the VR camera has none (BlueprintConfigAsWritten, under Findings).
- Synthesis.ChangeBlueprintCopies: uses the corrected Skybox copy, so it does not list the throw at VRGIN/Core/VRCamera.cs:313 that the copy as written adds (see Findings).
- Synthesis.CopyGuards: a live, enabled camera is copied without an exception (while every slave is alive) only with the corrected Skybox copy; as written, ChangeBlueprint throws at VRGIN/Core/VRCamera.cs:313 when the blueprint has a Skybox and the VR camera has none.
- Manager.VRManager.CopyCamera: states the copy with the corrected Skybox copy; as written it can also throw at VRGIN/Core/VRCamera.cs:313, as under Findings.
- Controller input: the button scan of TryReleaseLock is reduced to one `anyPressed` flag. Rumble, tracking, the input device, help texts, the `Other` controller and ToolTypes are left out.
- Controls.Controller.OnStart records only the final enabled flag of the active tool. The code switches it off and on again so that its OnEnable runs; that toggle is not modelled.
- Controls.Controller.AddTool takes the new component's id as a parameter, because the engine allocates components. The generic overload `AddTool<T>()` only forwards `typeof(T)` and is not modelled separately.
- Controls.Controller.ActiveTool: the tool index is a `nat`. A negative index, which would throw in the list indexer, is not modelled.
- Synthesis.CopyElects: the slave's Awake and OnEnable run inside AddComponent, which holds only for a camera on an active GameObject; an inactive object, which would defer them, is not modelled.
- Manager.VRManager.Sweep records the actions in a ghost log (`dispatched`) rather than as calls.

## Findings

| source | as written | input that shows it | evidently intended | confidence | as-written member | corrected member |
|---|---|---|---|---|---|---|
| VRGIN/Core/VRGUI.cs:182 | `IsUnprocessed` reads `c.worldCamera.targetTexture` without testing the camera. A screen-space-camera canvas with no camera, or a destroyed one, raises in CatchCanvas, and no later canvas is caught that frame | registry `[a, b]`: `a` screen-space-camera with no camera, `b` an overlay canvas | a canvas whose camera is missing or destroyed counts as unprocessed and is caught | high (not executed) | GuiRules.MissingCameraAbortsCatch | GuiRules.CatchAll |
| VRGIN/Controls/Controller.cs:273-282 | a destroyed tool fails `i != ToolIndex && tool` and takes the enabling branch. There `tool.enabled` throws, which aborts OnStart and leaves `_Started` false | tools `[a, b]`, ToolIndex 0, `b` destroyed | destroyed tools are skipped; every live tool but the active one is disabled | high (not executed) | Controls.DestroyedIdleToolAbortsStart | Controls.Controller.OnStart |
| VRGIN/Core/VRCamera.cs:313 | when the VR camera has no Skybox, `vrSkybox` is null and `vrSkybox.gameObject` is dereferenced to add one, which throws; ChangeBlueprint, and with it Copy and the manager's update, aborts after the camera attributes were copied | a blueprint carrying a Skybox (with or without a material), copied onto a VR camera without one | `camera.gameObject.AddComponent<Skybox>()`: the VR camera gets a Skybox with the blueprint's material | high (not executed) | Synthesis.BlueprintConfigAsWrittenThrows | Synthesis.BlueprintConfigCopies |
