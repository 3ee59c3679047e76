/** `APhysicsScene` (APhysicsScene.cs): the physics scene components of a play session,
    the static `Instance`, and the physics pipeline the render pipeline hands out. The
    physics pipeline exists only when the current render pipeline is an
    `ARenderPipeline`; it is created on first request and shared by every component
    afterwards. Unity's rule that setting `enabled` to false runs `OnDisable` at once is
    modelled by calling it in place. */
module PhysicsScene {
  import opened Wrappers
  import PP = PhysicsPipeline

  /** Whether the current render pipeline is an `ARenderPipeline` (fixed for the session),
      the solver constants, the shared physics pipeline once requested, each component's
      `enabled` flag and whether its `PhysicsPipeline` property is set, and the static
      `Instance`. */
  datatype Stage = Stage(
    isRenderPipeline: bool,
    constants: PP.SolverConstants,
    physics: Option<PP.Pipeline>,
    enabled: seq<bool>,
    obtained: seq<bool>,
    instance: Option<nat>)

  /** Exactly the instance is enabled; a component only holds the pipeline when there is
      one, and under an `ARenderPipeline` the instance holds it; and the shared pipeline has a scene loaded exactly while the instance holds it. */
  predicate StageValid(s: Stage)
  {
    && PP.ConstantsValid(s.constants)
    && |s.obtained| == |s.enabled|
    && (s.instance.Some? ==> s.instance.value < |s.enabled|)
    && (forall j :: 0 <= j < |s.enabled| ==> (s.enabled[j] <==> s.instance == Some(j)))
    && (forall j :: 0 <= j < |s.obtained| ==> s.obtained[j] ==> s.isRenderPipeline && s.physics.Some?)
    && (s.isRenderPipeline && s.instance.Some? ==> s.obtained[s.instance.value])
    && (s.physics.Some? ==> s.isRenderPipeline && PP.Valid(s.constants, s.physics.value))
    && (s.physics.Some? ==>
          (s.physics.value.isSceneLoaded <==> s.instance.Some? && s.obtained[s.instance.value]))
  }

  /** `OnDisable()` of component `id`: `Instance` is cleared, and the physics scene is
      unloaded if the component holds the pipeline. */
  function OnDisable(s: Stage, id: nat): (r: Stage)
    requires StageValid(s) && id < |s.enabled| && s.enabled[id]
    ensures StageValid(r) && |r.enabled| == |s.enabled|
    ensures r.instance.None? && forall j :: 0 <= j < |r.enabled| ==> !r.enabled[j]
    ensures r.physics.Some? <==> s.physics.Some?
    ensures r.physics.Some? ==> !r.physics.value.isSceneLoaded
    ensures s.obtained[id] ==> r.physics == Some(PP.UnloadPhysicsScene(s.physics.value, s.constants))
    ensures !s.obtained[id] ==> r.physics == s.physics
    ensures r.obtained == s.obtained
  {
    var enabled := s.enabled[id := false];
    assert forall j :: 0 <= j < |enabled| ==> !enabled[j];
    var physics := if s.obtained[id] then Some(PP.UnloadPhysicsScene(s.physics.value, s.constants)) else s.physics;
    s.(enabled := enabled, instance := None, physics := physics)
  }

  /** `OnEnable()` of component `id`: a previous instance is disabled first (running its
      `OnDisable`); then, under an `ARenderPipeline`, the component obtains the shared
      physics pipeline (creating it on first request) and loads the physics scene, while
      under any other render pipeline it only warns and leaves `PhysicsPipeline` null;
      finally it becomes the instance. The previous instance's unload runs first, so the
      load always finds no scene loaded, as `LoadPhysicsScene` asserts. The second result
      is whether the warning was logged. */
  function OnEnable(s: Stage, id: nat): (r: (Stage, bool))
    requires StageValid(s) && id < |s.enabled| && !s.enabled[id]
    ensures StageValid(r.0) && |r.0.enabled| == |s.enabled|
    ensures r.0.instance == Some(id)
    ensures s.instance.Some? ==> !r.0.enabled[s.instance.value]
    ensures r.1 <==> !s.isRenderPipeline
    ensures r.0.obtained[id] <==> s.isRenderPipeline
    ensures r.0.physics.Some? <==> s.isRenderPipeline
    ensures s.isRenderPipeline ==> r.0.physics.value.isSceneLoaded
  {
    var t := if s.instance.Some? then OnDisable(s, s.instance.value) else s;
    assert forall j :: 0 <= j < |t.enabled| ==> !t.enabled[j];
    var enabled := t.enabled[id := true];
    if s.isRenderPipeline then
      var pipeline := if t.physics.Some? then t.physics.value else PP.NewPipeline;
      var loaded := PP.LoadPhysicsScene(pipeline, t.constants).0;
      (t.(physics := Some(loaded), enabled := enabled, obtained := t.obtained[id := true], instance := Some(id)), false)
    else
      (t.(enabled := enabled, instance := Some(id)), true)
  }

  /** `FixedUpdate()` of component `id`: the step is solved exactly when the component holds
      the pipeline and it has a scene loaded, and then the solve never meets the null
      shader specs. */
  function FixedUpdate(s: Stage, id: nat): (r: Option<Result<seq<PP.Stage>, PP.PipelineError>>)
    requires StageValid(s) && id < |s.enabled|
    ensures r.Some? <==> s.obtained[id] && s.physics.value.isSceneLoaded
    ensures r.Some? ==> r.value.Ok?
    ensures s.enabled[id] && s.isRenderPipeline ==> r.Some?
  {
    if s.obtained[id] && s.physics.value.isSceneLoaded then
      Some(PP.Solve(s.physics.value, s.constants))
    else
      None
  }

  /** The error `AddTestParticles` meets on an enabled component that holds no pipeline. */
  datatype SceneError = NullPhysicsPipeline | Pipeline(e: PP.PipelineError)

  /** The batch `AddTestParticles` submits. */
  const TestParticleCount: nat := 64

  /** `AddTestParticles(cmd)` on component `id`: a disabled component warns and adds
      nothing (`Ok(None)`); an enabled one submits exactly 64 particles, which under a
      non-`ARenderPipeline` pipeline dereferences the null `PhysicsPipeline`. */
  function AddTestParticles(s: Stage, id: nat): (r: Result<Option<PP.AddCommands>, SceneError>)
    requires StageValid(s) && id < |s.enabled|
    requires TestParticleCount <= s.constants.maxParticleCount
    ensures !s.enabled[id] ==> r == Ok(None)
    ensures s.enabled[id] && !s.isRenderPipeline ==> r == Err(NullPhysicsPipeline)
    ensures s.enabled[id] && s.isRenderPipeline ==>
      r.Ok? && r.value.Some? && r.value.value.count == TestParticleCount
  {
    if !s.enabled[id] then Ok(None)
    else if !s.obtained[id] then Err(NullPhysicsPipeline)
    else
      match PP.AddParticles(s.physics.value, s.constants, TestParticleCount)
      case Ok(cmd) => Ok(Some(cmd))
      case Err(e) => Err(Pipeline(e))
  }

  /** Enabling one component and then another leaves exactly the second enabled, with the
      physics scene loaded once for it under an `ARenderPipeline`. */
  lemma EnableTwiceHandsOver(s: Stage, a: nat, b: nat)
    requires StageValid(s) && a < |s.enabled| && b < |s.enabled| && a != b
    requires s.instance.None?
    ensures var s1 := OnEnable(s, a).0;
      var s2 := OnEnable(s1, b).0;
      && !s2.enabled[a] && s2.enabled[b] && s2.instance == Some(b)
      && (s.isRenderPipeline ==> s2.physics.value.isSceneLoaded && s2.obtained[b])
  {
  }
}
