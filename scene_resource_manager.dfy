/**
 * `circe::gl::SceneResourceManager` (circe/gl/scene/scene_resource_manager.cpp):
 * the registry of scene models, addressed by handles that are positions in
 * it. The singleton is one object of the class below; the stored model type
 * is a parameter, and loading a model from a file is replaced by the loaded
 * model. A lookup that returns a `SceneModel *` returns the position it
 * points at.
 */
module SceneResources {
  import opened Wrappers

  /** `SceneModelHandle`. */
  datatype SceneModelHandle = SceneModelHandle(resourceIndex: nat)

  class SceneResourceManager<M> {
    var models: seq<M>

    constructor ()
      ensures models == []
    {
      models := [];
    }

    /** Every `pushModel` overload that stores a model: append it and hand out its position. */
    method PushModel(model: M) returns (r: HeResult<SceneModelHandle>)
      modifies this
      ensures models == old(models) + [model]
      ensures r == Ok(SceneModelHandle(|old(models)|))
      ensures ModelOf(r.value) == Ok(|old(models)|) && models[r.value.resourceIndex] == model
    {
      var index := |models|;
      models := models + [model];
      r := Ok(SceneModelHandle(index));
    }

    /** The catch-all `pushModel` template: nothing is stored. */
    function PushModelUnsupported(): (r: HeResult<SceneModelHandle>)
      ensures r.Err? && r.status == NotImplemented
    {
      Err(NotImplemented)
    }

    /** `model(handle)`: `OutOfBounds` exactly when the handle is past the last model. */
    function ModelOf(handle: SceneModelHandle): (r: HeResult<nat>)
      reads this
      ensures r.Err? <==> handle.resourceIndex >= |models|
      ensures r.Err? ==> r.status == OutOfBounds
      ensures r.Ok? ==> r.value == handle.resourceIndex && r.value < |models|
    {
      if handle.resourceIndex >= |models| then Err(OutOfBounds) else Ok(handle.resourceIndex)
    }

    /** `modelHandle(i)`: the handle of position `i`, when there is a model there. */
    function ModelHandle(index: nat): (r: HeResult<SceneModelHandle>)
      reads this
      ensures r.Err? <==> index >= |models|
      ensures r.Err? ==> r.status == OutOfBounds
      ensures r.Ok? ==> r.value.resourceIndex == index && ModelOf(r.value) == Ok(index)
    {
      if index >= |models| then Err(OutOfBounds) else Ok(SceneModelHandle(index))
    }

    /** `cleanup`: drops every model, so every later lookup is `OutOfBounds`. */
    method Cleanup()
      modifies this
      ensures models == []
      ensures forall h: SceneModelHandle :: ModelOf(h) == Err(OutOfBounds)
      ensures forall i: nat :: ModelHandle(i) == Err(OutOfBounds)
    {
      models := [];
    }
  }

  /** A handle handed out by `pushModel` survives later pushes and still addresses the same model. */
  method HandlesSurvivePushes<M>(manager: SceneResourceManager<M>, first: M, second: M)
    returns (h: SceneModelHandle, r: HeResult<nat>)
    modifies manager
    ensures r == Ok(h.resourceIndex) && h.resourceIndex < |manager.models| && manager.models[h.resourceIndex] == first
  {
    var pushed := manager.PushModel(first);
    h := pushed.value;
    var later := manager.PushModel(second);
    r := manager.ModelOf(h);
  }
}
