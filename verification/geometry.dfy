/** Playfield geometry: axis-aligned boxes, the overlap test every collision
    rule uses, and the trigonometry the motion laws call, kept abstract. */
module Geometry {

  /** The canvas the game is played on. */
  datatype Field = Field(width: real, height: real)

  /** An entity's bounding box: top-left corner and size, y growing down. */
  datatype Box = Box(x: real, y: real, width: real, height: real)
  {
    function CentreX(): real { x + width / 2.0 }
    function CentreY(): real { y + height / 2.0 }
  }

  /** `checkCollision`: the two boxes overlap with positive area (touching
      edges do not count, the comparisons are strict). */
  predicate Overlaps(a: Box, b: Box)
  {
    && a.x < b.x + b.width
    && a.x + a.width > b.x
    && a.y < b.y + b.height
    && a.y + a.height > b.y
  }

  /** The point lies strictly inside the box. */
  predicate Inside(b: Box, px: real, py: real)
  {
    b.x < px < b.x + b.width && b.y < py < b.y + b.height
  }

  /** The overlap test does not depend on the order of its arguments. */
  lemma OverlapsSymmetric(a: Box, b: Box)
    ensures Overlaps(a, b) <==> Overlaps(b, a)
  {
  }

  /** The overlap test is exactly "some point lies inside both boxes", for
      boxes of positive size (every entity of the game has one). */
  lemma OverlapsIffCommonPoint(a: Box, b: Box)
    requires a.width > 0.0 && a.height > 0.0 && b.width > 0.0 && b.height > 0.0
    ensures Overlaps(a, b) <==> exists px, py :: Inside(a, px, py) && Inside(b, px, py)
  {
    if Overlaps(a, b) {
      var lx := if a.x >= b.x then a.x else b.x;
      var hx := if a.x + a.width <= b.x + b.width then a.x + a.width else b.x + b.width;
      var ly := if a.y >= b.y then a.y else b.y;
      var hy := if a.y + a.height <= b.y + b.height then a.y + a.height else b.y + b.height;
      var px, py := (lx + hx) / 2.0, (ly + hy) / 2.0;
      assert Inside(a, px, py) && Inside(b, px, py);
    }
  }

  /** Squared Euclidean distance between two points. Comparing squared
      distances orders points exactly as comparing `Math.sqrt` of them does. */
  function DistSq(x0: real, y0: real, x1: real, y1: real): (d: real)
    ensures d >= 0.0
  {
    (x1 - x0) * (x1 - x0) + (y1 - y0) * (y1 - y0)
  }

  /** For non-negative reals, squaring preserves and reflects strict order:
      this is why the model may compare squared distances in place of the
      source's square roots. */
  lemma SquareMonotone(a: real, b: real)
    requires a >= 0.0 && b >= 0.0
    ensures a < b <==> a * a < b * b
  {
    if a < b {
      calc {
        a * a;
      <= a * b;
      < b * b;
      }
    } else {
      calc {
        b * b;
      <= b * a;
      <= a * a;
      }
    }
  }

  /** `Math.PI`. */
  const Pi: real := 3.141592653589793

  /** `Math.sin`, `Math.cos` and `Math.atan2(y, x)`, supplied by the host: the
      rules use them only to turn angles into velocities and back. */
  datatype Trig = Trig(sin: real -> real, cos: real -> real, atan2: (real, real) -> real)
}
