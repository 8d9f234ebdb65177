/**
 * The scene's toggle handlers (`setupScene` in index.js): one checkbox per
 * drawn boundary and one for the whole group of eye models. A change event
 * copies the checkbox state into the actors' visibility flags and asks the
 * engine to redraw; the eye-model toggle also refits the camera first.
 */
module Visibility {
  import opened Render
  import Wireframe

  /** The engine calls the handlers make, in the order they make them. */
  datatype EngineCall = ResetCamera | Render

  class Scene {
    /** The boundary wireframe actors, keyed by boundary index. */
    var layerActors: map<int, Actor>
    /** The loaded eye-model actors, in loading order. */
    var eyeModels: seq<Actor>
    /** The engine calls made so far. */
    var calls: seq<EngineCall>

    /**
     * Builds the wireframes from the layer field, takes the loaded eye models,
     * and finishes as `setupScene` does: a camera reset, then a render.
     */
    constructor (layers: Wireframe.Field, eyeModels: seq<Actor>)
      requires |layers.shape| == 3
      ensures forall j :: j in layerActors <==> j in Wireframe.LayerIndices
      ensures forall j :: j in layerActors ==>
        fresh(layerActors[j]) && Wireframe.IsLayerActor(layers, j, layerActors[j]) && layerActors[j].visible
      ensures forall j, j' :: j in layerActors && j' in layerActors && j != j' ==> layerActors[j] != layerActors[j']
      ensures this.eyeModels == eyeModels
      ensures calls == [ResetCamera, Render]
    {
      var actors := Wireframe.CreateWireframe(layers);
      layerActors := actors;
      this.eyeModels := eyeModels;
      calls := [ResetCamera, Render];
    }

    /** The change handler of boundary j's checkbox. */
    method OnLayerToggle(j: int, checked: bool)
      requires j in layerActors
      modifies layerActors[j], this`calls
      ensures layerActors[j].visible == checked
      ensures calls == old(calls) + [Render]
    {
      layerActors[j].SetVisibility(checked);
      calls := calls + [Render];
    }

    /** The change handler of the eye-model checkbox. */
    method OnEyeToggle(checked: bool)
      modifies set a | a in eyeModels, this`calls
      ensures forall a :: a in eyeModels ==> a.visible == checked
      ensures calls == old(calls) + [ResetCamera, Render]
    {
      for t := 0 to |eyeModels|
        invariant forall u :: 0 <= u < t ==> eyeModels[u].visible == checked
        invariant calls == old(calls)
      {
        eyeModels[t].SetVisibility(checked);
      }
      calls := calls + [ResetCamera, Render];
    }

    /**
     * The state machine has no memory: unchecking and re-checking a boundary
     * brings its actor back to visible, as it was after construction, and
     * leaves every other boundary's actor as it was.
     */
    method LayerToggleOffOn(j: int)
      requires j in layerActors
      modifies layerActors[j], this`calls
      ensures layerActors[j].visible
      ensures calls == old(calls) + [Render, Render]
    {
      OnLayerToggle(j, false);
      OnLayerToggle(j, true);
    }
  }
}
