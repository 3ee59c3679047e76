/** `SDFScene` (SDFScene.cs): the scene component's data, `IsEmpty`, and the editor's
    uniform-scale fix. Its enable/disable hand-off with the render pipeline is the
    separate module `SDFSceneActivation` below, since it calls into the pipeline. */
module SDFScene {
  import opened IntMath
  import opened Vectors
  import BrushCollection

  /** A `Matrix4x4`, as its four rows. */
  type Matrix4 = m: seq<seq<real>> | |m| == 4 witness [[], [], [], []]

  /** The serialized scene: its resolution `Size`, its brush collection, and the parts
      of its transform the model reads (`localToWorldMatrix`, `localScale`). */
  datatype Scene = Scene(size: Int3, collection: BrushCollection.Collection, sceneToWorld: Matrix4, localScale: Real3)

  /** `IsEmpty`: the collection holds no brushes. */
  predicate IsEmpty(s: Scene)
  {
    |s.collection.brushes| == 0
  }

  /** A collection gathered from the brush helpers under a scene is empty exactly when
      there are no helpers. */
  method GatheredScene(size: Int3, helpers: seq<BrushCollection.BrushHelper>, sceneToWorld: Matrix4, localScale: Real3)
    returns (s: Scene)
    ensures IsEmpty(s) <==> |helpers| == 0
    ensures BrushCollection.BrushesLaidOut(helpers, s.collection.brushes)
    ensures s.size == size && s.sceneToWorld == sceneToWorld && s.localScale == localScale
  {
    var c := BrushCollection.GatherBrushes(helpers);
    s := Scene(size, c, sceneToWorld, localScale);
  }

  predicate UniformScale(v: Real3)
  {
    v.x == v.y && v.y == v.z
  }

  /** The editor `Update`: a scale whose components differ is replaced by its x component
      on every axis, with a warning; a uniform scale is left alone. The result is the
      new scale and whether the warning was logged. */
  function FixScale(scale: Real3): (r: (Real3, bool))
    ensures UniformScale(r.0) && r.0.x == scale.x
    ensures r.1 <==> !UniformScale(scale)
    ensures UniformScale(scale) ==> r.0 == scale
  {
    if scale.x != scale.y || scale.y != scale.z || scale.z != scale.x then
      (Real3(scale.x, scale.x, scale.x), true)
    else
      (scale, false)
  }

  /** The fix is idempotent: a second frame finds the scale uniform and logs nothing. */
  lemma FixScaleIdempotent(scale: Real3)
    ensures FixScale(FixScale(scale).0) == (FixScale(scale).0, false)
  {
  }
}

/** The enable/disable hand-off of `SDFScene` (SDFScene.cs): at most one scene is the
    `Instance`, and enabling a scene disables the previous one, whose `OnDisable`
    unloads the pipeline, before the new one loads. Unity's rule that setting `enabled`
    to false runs `OnDisable` at once is modelled by calling it in place. */
module SDFSceneActivation {
  import opened Wrappers
  import SDFScene
  import RP = RenderPipeline

  /** The scenes of a play session by index, which of them are enabled, the static
      `SDFScene.Instance`, and the render pipeline if one exists. */
  datatype Stage = Stage(scenes: seq<SDFScene.Scene>, enabled: seq<bool>, instance: Option<nat>,
                         pipeline: Option<RP.Pipeline>)

  /** Exactly the instance is enabled, and a pipeline only has a scene loaded while
      some scene is the instance. */
  predicate StageValid(s: Stage)
  {
    && |s.enabled| == |s.scenes|
    && (s.instance.Some? ==> s.instance.value < |s.scenes|)
    && (forall j :: 0 <= j < |s.enabled| ==> (s.enabled[j] <==> s.instance == Some(j)))
    && (s.pipeline.Some? ==> RP.Valid(s.pipeline.value) && (s.pipeline.value.isSceneLoaded ==> s.instance.Some?))
  }

  /** `OnDisable` of scene `id`: the instance is cleared and the pipeline, if any,
      unloads. */
  function OnDisable(s: Stage, id: nat): (r: Stage)
    requires StageValid(s) && id < |s.scenes| && s.enabled[id]
    ensures StageValid(r)
    ensures r.instance.None? && forall j :: 0 <= j < |r.enabled| ==> !r.enabled[j]
    ensures r.pipeline.Some? <==> s.pipeline.Some?
    ensures r.pipeline.Some? ==> !r.pipeline.value.isSceneLoaded
    ensures r.scenes == s.scenes
  {
    var enabled := s.enabled[id := false];
    assert forall j :: 0 <= j < |enabled| ==> !enabled[j];
    Stage(s.scenes, enabled, None,
          if s.pipeline.Some? then Some(RP.UnloadScene(s.pipeline.value).0) else None)
  }

  /** `OnEnable` of scene `id`: a previous instance is disabled first (running its
      `OnDisable`), then `id` becomes the instance and loads into the pipeline, if one
      exists. Because the previous scene's unload runs first, the load always finds no
      scene loaded, as `LoadScene` asserts. */
  method OnEnable(s: Stage, id: nat) returns (r: Stage)
    requires StageValid(s) && id < |s.scenes| && !s.enabled[id]
    requires var scene := s.scenes[id];
      !SDFScene.IsEmpty(scene) ==> RP.LoadableSize(scene.size) && RP.EncodableBrushes(scene.collection.brushes)
    ensures StageValid(r)
    ensures r.instance == Some(id) && r.scenes == s.scenes
    ensures s.instance.Some? ==> !r.enabled[s.instance.value]
    ensures r.pipeline.Some? <==> s.pipeline.Some?
    ensures r.pipeline.Some? ==>
      (r.pipeline.value.isSceneLoaded <==> !SDFScene.IsEmpty(s.scenes[id]))
    ensures r.pipeline.Some? && r.pipeline.value.isSceneLoaded ==> r.pipeline.value.scene == Some(s.scenes[id])
  {
    var t := s;
    if s.instance.Some? {
      t := OnDisable(s, s.instance.value);
    } else {
      assert forall j :: 0 <= j < |t.enabled| ==> !t.enabled[j];
    }
    var enabled := t.enabled[id := true];
    var pipeline := t.pipeline;
    if t.pipeline.Some? {
      var p', _ := RP.LoadScene(t.pipeline.value, t.scenes[id]);
      pipeline := Some(p');
    }
    r := Stage(t.scenes, enabled, Some(id), pipeline);
  }
}
