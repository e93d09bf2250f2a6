/** Axis-aligned rectangles as pygame.Rect builds them, and their overlap test. */
module Geometry {
  import opened Constants

  datatype Rect = Rect(left: real, top: real, width: real, height: real) {
    function Right(): real { left + width }
    function Bottom(): real { top + height }
  }

  /** Strict overlap of the interiors: rectangles that only share an edge do not collide.
      This stands in for pygame's `Rect.colliderect`, whose code is not part of this model. */
  predicate Collides(a: Rect, b: Rect) {
    a.left < b.Right() && b.left < a.Right() && a.top < b.Bottom() && b.top < a.Bottom()
  }

  /** The bird's hit box: its top-left corner and the sprite's size. */
  function BirdBox(x: real, y: real): Rect {
    Rect(x, y, BirdWidth as real, BirdHeight as real)
  }
}
