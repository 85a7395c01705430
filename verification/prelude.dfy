/** Small shared vocabulary: random draws, optional values and the JavaScript
    numeric helpers (`Math.max`/`Math.min` clamps, `Math.sign`, the truncating
    `%`) that the game rules are written with. */
module Prelude {

  /** One value of `Math.random()`: a real in [0, 1). */
  type Draw = r: real | 0.0 <= r < 1.0

  datatype Option<+T> = None | Some(value: T)

  /** The source of every random draw the rules make. The game calls
      `Math.random()` at many points of a frame; the model reads the draws
      from an explicit stream, in the order the rules consume them. */
  datatype Rng = Rng(dice: nat -> Draw, pos: nat)
  {
    /** The next draw, and the stream advanced past it. */
    function Next(): (res: (Draw, Rng))
      ensures res.1.pos == pos + 1
      ensures res.0 == dice(pos)
    {
      (dice(pos), Rng(dice, pos + 1))
    }
  }

  function Abs(r: real): (a: real)
    ensures a >= 0.0
    ensures a == r || a == -r
  {
    if r < 0.0 then -r else r
  }

  /** `Math.sign` on the reals the model uses (no NaN, no negative zero). */
  function Sign(r: real): (s: real)
    ensures s * r == Abs(r)
    ensures s == 0.0 <==> r == 0.0
    ensures s == 1.0 || s == -1.0 || s == 0.0
  {
    if r > 0.0 then 1.0 else if r < 0.0 then -1.0 else 0.0
  }

  function MaxReal(a: real, b: real): real { if a >= b then a else b }
  function MinReal(a: real, b: real): real { if a <= b then a else b }

  /** `Math.max(lo, Math.min(hi, v))`, the clamp idiom of the source. When
      `lo > hi` the lower bound wins, exactly as the nested calls do. */
  function Clamp(lo: real, hi: real, v: real): (c: real)
    ensures lo <= hi ==> lo <= c <= hi
    ensures lo <= v <= hi ==> c == v
    ensures hi < lo ==> c == lo
  {
    MaxReal(lo, MinReal(hi, v))
  }

  /** The index of the first element satisfying `p`, the `find` / early
      `break` idiom of the source; none when no element does. */
  function FirstWhere<T>(p: T -> bool, xs: seq<T>): (r: Option<nat>)
    ensures r.None? <==> forall i :: 0 <= i < |xs| ==> !p(xs[i])
    ensures r.Some? ==> r.value < |xs| && p(xs[r.value]) && forall i :: 0 <= i < r.value ==> !p(xs[i])
    decreases |xs|
  {
    if |xs| == 0 then None
    else if p(xs[0]) then Some(0)
    else
      match FirstWhere(p, xs[1..])
      case None => None
      case Some(j) => Some(j + 1)
  }

  /** The elements of `xs` that pass `p`, in order: the `filter` idiom. */
  function Filter<T(!new)>(p: T -> bool, xs: seq<T>): (r: seq<T>)
    ensures |r| <= |xs|
    ensures forall x :: x in r <==> x in xs && p(x)
    decreases |xs|
  {
    if |xs| == 0 then []
    else
      var rest := Filter(p, xs[1..]);
      assert xs == [xs[0]] + xs[1..];
      if p(xs[0]) then [xs[0]] + rest else rest
  }

  function MaxInt(a: int, b: int): int { if a >= b then a else b }
  function MinInt(a: int, b: int): int { if a <= b then a else b }

  /** JavaScript's `%`: the remainder takes the sign of the dividend
      (truncating division), unlike Dafny's Euclidean `%`. */
  function JsRem(a: int, b: int): (r: int)
    requires b > 0
    ensures a >= 0 ==> r == a % b
    ensures -b < r < b
    ensures a <= 0 ==> r <= 0
  {
    if a >= 0 then a % b else -((-a) % b)
  }
}
