/**
 * The small part of the rendering engine's object model that the scene code
 * touches: colours, the geometry an actor draws, and the actor itself, whose
 * only state that changes after construction is its visibility flag.
 */
module Render {
  import opened Wrappers

  /** An RGB colour with components in [0, 1]. */
  datatype Rgb = Rgb(r: real, g: real, b: real)

  const Black: Rgb := Rgb(0.0, 0.0, 0.0)
  const Red: Rgb := Rgb(1.0, 0.0, 0.0)

  /**
   * What an actor draws. `Polylines` holds a flat point buffer (three numbers
   * per point; a missing number is a read past the end of an array) and a
   * VTK-style line connectivity buffer.
   */
  datatype Geometry =
    Polylines(points: seq<Option<real>>, lines: seq<int>)

  /** A drawable with fixed geometry and material and a visibility flag. */
  class Actor {
    const geometry: Geometry
    const color: Rgb
    const opacity: real
    const lineWidth: nat
    var visible: bool

    /** A new actor is visible, as the engine's actors are by default. */
    constructor (geometry: Geometry, color: Rgb, opacity: real, lineWidth: nat)
      ensures this.geometry == geometry && this.color == color
      ensures this.opacity == opacity && this.lineWidth == lineWidth
      ensures visible
    {
      this.geometry := geometry;
      this.color := color;
      this.opacity := opacity;
      this.lineWidth := lineWidth;
      visible := true;
    }

    /** `actor.setVisibility(flag)`. */
    method SetVisibility(flag: bool)
      modifies this
      ensures visible == flag
    {
      visible := flag;
    }
  }
}
