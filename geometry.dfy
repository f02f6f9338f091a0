/** Integer rectangles, as pygame.Rect holds them, and the collision test. */
module Geometry {
  /** A rectangle with integer top-left corner (x, y), width w and height h. */
  datatype Rect = Rect(x: int, y: int, w: int, h: int) {
    function Left(): (l: int) { x }
    function Right(): (r: int) { x + w }
    function Top(): (t: int) { y }
    function Bottom(): (b: int) { y + h }
  }

  /**
   * pygame.Rect.colliderect, taken to be strict overlap on both axes:
   * rectangles that only share an edge do not collide.
   */
  predicate Collide(a: Rect, b: Rect) {
    a.Left() < b.Right() && b.Left() < a.Right() && a.Top() < b.Bottom() && b.Top() < a.Bottom()
  }

  /**
   * The float-to-int rule pygame applies when a float is stored into a Rect
   * coordinate is a parameter of the model (`px`). The only thing ever assumed
   * of it is that it leaves whole numbers alone.
   */
  ghost predicate ExactOnIntegers(px: real -> int) {
    forall v: real :: v.Floor as real == v ==> px(v) == v.Floor
  }
}
