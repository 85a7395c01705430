/** The protection ring of game.js: an expanding circle around the point where
    it was released that cancels hostile projectiles and damages enemies in a
    15-pixel band behind its edge, and switches itself off once it has left
    the playfield. Distances are compared in squared form. */
module ProtectionRing {
  import opened Prelude
  import opened Geometry
  import PlayerRules

  const StartRadius: real := 10.0
  const ExpandSpeed: real := 8.0
  const Damage: int := 50
  const BandWidth: real := 15.0
  const EscapeMargin: real := 50.0

  datatype Ring = Ring(x: real, y: real, radius: real, active: bool)

  function New(x: real, y: real): (r: Ring)
    ensures r.active && r.radius == StartRadius && r.x == x && r.y == y
  {
    Ring(x, y, StartRadius, true)
  }

  /** The four squared distances from the ring's centre to the field corners. */
  function CornerSq(x: real, y: real, field: Field): (cs: seq<real>)
    ensures |cs| == 4 && forall i :: 0 <= i < 4 ==> cs[i] >= 0.0
  {
    [DistSq(x, y, 0.0, 0.0), DistSq(x, y, field.width, 0.0),
     DistSq(x, y, 0.0, field.height), DistSq(x, y, field.width, field.height)]
  }

  /** The radius exceeds the farthest corner distance by more than 50, in
      squared form: the excess over 50 is positive and its square beats every
      squared corner distance. */
  predicate Escaped(x: real, y: real, radius: real, field: Field)
  {
    var e := radius - EscapeMargin;
    var cs := CornerSq(x, y, field);
    Beyond(e, cs[0]) && Beyond(e, cs[1]) && Beyond(e, cs[2]) && Beyond(e, cs[3])
  }

  /** `e` is positive and its square exceeds `c`. */
  predicate Beyond(e: real, c: real)
  {
    e > 0.0 && e * e > c
  }

  /** For a non-negative `d` with `d * d == c`, `e > d` exactly when `e` is
      positive and `e * e > c`. */
  lemma AboveRoot(e: real, d: real, c: real)
    requires d >= 0.0 && d * d == c
    ensures e > d <==> Beyond(e, c)
  {
    if e > 0.0 {
      SquareMonotone(d, e);
    }
  }

  /** Beating the largest of four values is beating each of them. */
  lemma AboveMax4(e: real, a: real, b: real, c: real, d: real)
    ensures e > MaxReal(MaxReal(a, b), MaxReal(c, d)) <==> e > a && e > b && e > c && e > d
  {
  }

  /** `Escaped` is the source's test `radius > max(corner distances) + 50`,
      given the four corner distances as square roots of the squared ones. */
  lemma EscapedMatchesDistance(x: real, y: real, radius: real, field: Field, d: seq<real>)
    requires |d| == 4
    requires forall i :: 0 <= i < 4 ==> d[i] >= 0.0 && d[i] * d[i] == CornerSq(x, y, field)[i]
    ensures Escaped(x, y, radius, field) <==>
      radius > MaxReal(MaxReal(d[0], d[1]), MaxReal(d[2], d[3])) + EscapeMargin
  {
    var e := radius - EscapeMargin;
    var cs := CornerSq(x, y, field);
    AboveMax4(e, d[0], d[1], d[2], d[3]);
    AboveRoot(e, d[0], cs[0]);
    AboveRoot(e, d[1], cs[1]);
    AboveRoot(e, d[2], cs[2]);
    AboveRoot(e, d[3], cs[3]);
  }

  /** A larger positive value beats whatever a smaller one beats. */
  lemma BeyondMonotone(e1: real, e2: real, c: real)
    requires e1 <= e2 && Beyond(e1, c)
    ensures Beyond(e2, c)
  {
    calc {
      e1 * e1;
    <= e1 * e2;
    <= e2 * e2;
    }
  }

  /** Once escaped, a larger radius stays escaped. */
  lemma EscapedMonotone(x: real, y: real, r1: real, r2: real, field: Field)
    requires r1 <= r2 && Escaped(x, y, r1, field)
    ensures Escaped(x, y, r2, field)
  {
    var e1, e2 := r1 - EscapeMargin, r2 - EscapeMargin;
    var cs := CornerSq(x, y, field);
    BeyondMonotone(e1, e2, cs[0]);
    BeyondMonotone(e1, e2, cs[1]);
    BeyondMonotone(e1, e2, cs[2]);
    BeyondMonotone(e1, e2, cs[3]);
  }

  /** `ProtectionRing.update`: an active ring grows by 8 and switches off once
      it has escaped; an inactive one does nothing. */
  function Update(ring: Ring, field: Field): (r: Ring)
    ensures r.x == ring.x && r.y == ring.y
    ensures !ring.active ==> r == ring
    ensures ring.active ==> r.radius == ring.radius + ExpandSpeed
    ensures r.active <==> ring.active && !Escaped(ring.x, ring.y, r.radius, field)
  {
    if !ring.active then ring
    else
      var radius := ring.radius + ExpandSpeed;
      ring.(radius := radius, active := !Escaped(ring.x, ring.y, radius, field))
  }

  function UpdateN(ring: Ring, field: Field, n: nat): Ring
    decreases n
  {
    if n == 0 then ring else UpdateN(Update(ring, field), field, n - 1)
  }

  /** A ring released at any point is still active after `n` updates exactly
      when radius `10 + 8n` has not escaped, and while active its radius is
      `10 + 8n`. */
  lemma {:induction false} Lifetime(ring: Ring, field: Field, n: nat)
    requires ring.active && !Escaped(ring.x, ring.y, ring.radius, field)
    ensures var r := UpdateN(ring, field, n);
      (r.active <==> !Escaped(ring.x, ring.y, ring.radius + n as real * ExpandSpeed, field))
      && (r.active ==> r.radius == ring.radius + n as real * ExpandSpeed)
    decreases n
  {
    if n > 0 {
      var next := Update(ring, field);
      if next.active {
        Lifetime(next, field, n - 1);
      } else {
        InactiveStays(next, field, n - 1);
        EscapedMonotone(ring.x, ring.y, next.radius, ring.radius + n as real * ExpandSpeed, field);
      }
    }
  }

  lemma {:induction false} InactiveStays(ring: Ring, field: Field, n: nat)
    requires !ring.active
    ensures UpdateN(ring, field, n) == ring
    decreases n
  {
    if n > 0 {
      InactiveStays(ring, field, n - 1);
    }
  }

  /** A fresh ring has not escaped, whatever the field. */
  lemma FreshNotEscaped(x: real, y: real, field: Field)
    ensures !Escaped(x, y, StartRadius, field)
  {
  }

  /** `checkBulletCollision` / `checkEnemyCollision`: the centre of `b` lies at
      distance between `radius - 15` and `radius` from the ring's centre, in
      squared form. */
  predicate InBand(ring: Ring, b: Box)
  {
    var dsq := DistSq(ring.x, ring.y, b.CentreX(), b.CentreY());
    var inner := ring.radius - BandWidth;
    && ring.active
    && ring.radius >= 0.0 && dsq <= ring.radius * ring.radius
    && (inner <= 0.0 || dsq >= inner * inner)
  }

  /** For non-negative reals, squaring preserves and reflects `<=`. */
  lemma SquareMonotoneEq(a: real, b: real)
    requires a >= 0.0 && b >= 0.0
    ensures a <= b <==> a * a <= b * b
  {
    SquareMonotone(b, a);
  }

  /** `InBand` is the source's test on the square-rooted distance. */
  lemma InBandMatchesDistance(ring: Ring, b: Box, d: real)
    requires d >= 0.0 && d * d == DistSq(ring.x, ring.y, b.CentreX(), b.CentreY())
    ensures InBand(ring, b) <==> ring.active && ring.radius - BandWidth <= d <= ring.radius
  {
    if ring.radius >= 0.0 {
      SquareMonotoneEq(d, ring.radius);
    }
    var inner := ring.radius - BandWidth;
    if inner > 0.0 {
      SquareMonotoneEq(inner, d);
    }
  }

  /** `activateProtectionRing`: with a charge in store, spend it and release a
      ring at the player's centre; otherwise nothing happens. */
  function Release(c: PlayerRules.Charge, player: Box): (r: (PlayerRules.Charge, seq<Ring>))
    ensures |r.1| == 1 <==> c.charges > 0
    ensures |r.1| <= 1 && r.0 == PlayerRules.Spend(c).0
    ensures forall i :: 0 <= i < |r.1| ==> r.1[i] == New(player.CentreX(), player.CentreY())
  {
    var (c', fired) := PlayerRules.Spend(c);
    (c', if fired then [New(player.CentreX(), player.CentreY())] else [])
  }
}
