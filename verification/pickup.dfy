/** Pickups (powerup.js): the four pickup types with their colour and symbol,
    the bouncing motion that counts side-wall hits, and the expiry rule. */
module Pickup {
  import opened Prelude
  import opened Geometry

  datatype Kind = Health | Shield | RapidFire | BulletUpgrade

  /** The type tag the source stores. */
  function Name(k: Kind): string
  {
    match k
    case Health => "health"
    case Shield => "shield"
    case RapidFire => "rapidFire"
    case BulletUpgrade => "bulletUpgrade"
  }

  function Parse(s: string): Option<Kind>
  {
    if s == "health" then Some(Health)
    else if s == "shield" then Some(Shield)
    else if s == "rapidFire" then Some(RapidFire)
    else if s == "bulletUpgrade" then Some(BulletUpgrade)
    else None
  }

  lemma ParseName(k: Kind)
    ensures Parse(Name(k)) == Some(k)
  {
  }

  /** `getColor`, total over type tags: an unknown tag is drawn white. */
  function ColorOf(tag: string): (c: string)
    ensures Parse(tag).None? ==> c == "#ffffff"
    ensures Parse(tag).Some? ==> c != "#ffffff"
  {
    match Parse(tag)
    case Some(Health) => "#ff0080"
    case Some(Shield) => "#0080ff"
    case Some(RapidFire) => "#ffff00"
    case Some(BulletUpgrade) => "#ff6600"
    case None => "#ffffff"
  }

  /** `getSymbol`, total over type tags: an unknown tag shows `?`. */
  function SymbolOf(tag: string): (c: string)
    ensures |c| == 1
    ensures Parse(tag).None? <==> c == "?"
  {
    match Parse(tag)
    case Some(Health) => "+"
    case Some(Shield) => "S"
    case Some(RapidFire) => "R"
    case Some(BulletUpgrade) => "U"
    case None => "?"
  }

  /** Distinct types get distinct colours and symbols. */
  lemma ColorsAndSymbolsDistinct(a: Kind, b: Kind)
    requires a != b
    ensures ColorOf(Name(a)) != ColorOf(Name(b))
    ensures SymbolOf(Name(a)) != SymbolOf(Name(b))
  {
    ParseName(a);
    ParseName(b);
  }

  /** `getRandomType`: the draw picks one of the four types, each on a
      quarter of [0, 1). */
  function RandomKind(d: Draw): (k: Kind)
    ensures k == Health <==> d < 0.25
    ensures k == Shield <==> 0.25 <= d < 0.5
    ensures k == RapidFire <==> 0.5 <= d < 0.75
    ensures k == BulletUpgrade <==> 0.75 <= d
  {
    var kinds := [Health, Shield, RapidFire, BulletUpgrade];
    var i := (d * 4.0).Floor;
    kinds[i]
  }

  const Size: real := 25.0
  const MaxBounces: int := 6
  const MaxSpeed: real := 4.0

  datatype PowerUp = PowerUp(kind: Kind, box: Box, vx: real, vy: real, bounces: int)

  /** The `PowerUp` constructor with no type given: a random sideways speed in
      [-1, 1), a downward speed of 2, a random type. */
  function New(x: real, y: real, vxDraw: Draw, kindDraw: Draw): (p: PowerUp)
    ensures p.bounces == 0 && p.vy == 2.0 && -1.0 <= p.vx < 1.0
    ensures p.box == Box(x, y, Size, Size)
    ensures p.kind == RandomKind(kindDraw)
  {
    PowerUp(RandomKind(kindDraw), Box(x, y, Size, Size), (vxDraw - 0.5) * 2.0, 2.0, 0)
  }

  /** The moved pickup touches the left or right wall. */
  predicate HitsSide(x: real, field: Field)
  {
    x <= 0.0 || x + Size >= field.width
  }

  /** The moved pickup touches the top or bottom wall. */
  predicate HitsEnd(y: real, field: Field)
  {
    y <= 0.0 || y + Size >= field.height
  }

  /** Limits a velocity component to the maximum speed, keeping its sign. */
  function CapSpeed(v: real): (r: real)
    ensures Abs(r) <= MaxSpeed
    ensures Abs(v) <= MaxSpeed ==> r == v
    ensures Sign(r) == Sign(v)
  {
    if Abs(v) > MaxSpeed then Sign(v) * MaxSpeed else v
  }

  /** `PowerUp.update`: move; on a side wall reverse `vx`, pull `x` back inside
      and count a bounce; on the top or bottom wall reverse `vy` and pull `y`
      back inside without counting; finally cap both speeds. */
  function Update(p: PowerUp, field: Field): (r: PowerUp)
    ensures r.kind == p.kind && r.box.width == p.box.width && r.box.height == p.box.height
    ensures r.bounces == if HitsSide(p.box.x + p.vx, field) then p.bounces + 1 else p.bounces
    ensures Abs(r.vx) <= MaxSpeed && Abs(r.vy) <= MaxSpeed
    ensures HitsSide(p.box.x + p.vx, field) ==> r.vx == CapSpeed(-p.vx)
    ensures !HitsSide(p.box.x + p.vx, field) ==> r.vx == CapSpeed(p.vx) && r.box.x == p.box.x + p.vx
    ensures HitsEnd(p.box.y + p.vy, field) ==> r.vy == CapSpeed(-p.vy)
    ensures !HitsEnd(p.box.y + p.vy, field) ==> r.vy == CapSpeed(p.vy) && r.box.y == p.box.y + p.vy
    ensures HitsSide(p.box.x + p.vx, field) && field.width >= Size ==> 0.0 <= r.box.x <= field.width - Size
    ensures HitsEnd(p.box.y + p.vy, field) && field.height >= Size ==> 0.0 <= r.box.y <= field.height - Size
  {
    var x := p.box.x + p.vx;
    var y := p.box.y + p.vy;
    var side := HitsSide(x, field);
    var vx := if side then -p.vx else p.vx;
    var x' := if side then Clamp(0.0, field.width - Size, x) else x;
    var bounces := if side then p.bounces + 1 else p.bounces;
    var end := HitsEnd(y, field);
    var vy := if end then -p.vy else p.vy;
    var y' := if end then Clamp(0.0, field.height - Size, y) else y;
    PowerUp(p.kind, Box(x', y', p.box.width, p.box.height), CapSpeed(vx), CapSpeed(vy), bounces)
  }

  /** `shouldRemove`: the pickup has used up its six bounces. */
  predicate ShouldRemove(p: PowerUp)
  {
    p.bounces >= MaxBounces
  }

  /** The states a pickup passes through over `n` updates, the start included. */
  function Trajectory(p: PowerUp, field: Field, n: nat): (ps: seq<PowerUp>)
    ensures |ps| == n + 1 && ps[0] == p
    decreases n
  {
    if n == 0 then [p] else [p] + Trajectory(Update(p, field), field, n - 1)
  }

  /** How many of the first `n` updates of a trajectory hit a side wall. */
  function SideHits(ps: seq<PowerUp>, field: Field, n: nat): nat
    requires n < |ps|
  {
    if n == 0 then 0
    else
      var hit := if HitsSide(ps[n - 1].box.x + ps[n - 1].vx, field) then 1 else 0;
      SideHits(ps, field, n - 1) + hit
  }

  /** Along any trajectory the bounce counter is exactly the number of side-wall
      hits so far: top and bottom contacts never count. */
  lemma {:induction false} BouncesCountSideHits(p: PowerUp, field: Field, n: nat)
    ensures var ps := Trajectory(p, field, n);
      ps[n].bounces == p.bounces + SideHits(ps, field, n)
    decreases n
  {
    var ps := Trajectory(p, field, n);
    if n > 0 {
      BouncesCountSideHits(p, field, n - 1);
      var qs := Trajectory(p, field, n - 1);
      TrajectoryPrefix(p, field, n - 1);
      SideHitsPrefix(ps, qs, field, n - 1);
    }
  }

  /** A longer trajectory extends a shorter one by one more update. */
  lemma {:induction false} TrajectoryPrefix(p: PowerUp, field: Field, n: nat)
    ensures Trajectory(p, field, n + 1)[..n + 1] == Trajectory(p, field, n)
    ensures Trajectory(p, field, n + 1)[n + 1] == Update(Trajectory(p, field, n)[n], field)
    decreases n
  {
    if n > 0 {
      TrajectoryPrefix(Update(p, field), field, n - 1);
    }
  }

  lemma {:induction false} SideHitsPrefix(ps: seq<PowerUp>, qs: seq<PowerUp>, field: Field, n: nat)
    requires n < |qs| && |qs| <= |ps| && qs == ps[..|qs|]
    ensures SideHits(ps, field, n) == SideHits(qs, field, n)
    decreases n
  {
    if n > 0 {
      SideHitsPrefix(ps, qs, field, n - 1);
    }
  }

  /** A fresh pickup is removed exactly once it has hit a side wall six times. */
  lemma ExpiresAtSixthSideHit(p: PowerUp, field: Field, n: nat)
    requires p.bounces == 0
    ensures var ps := Trajectory(p, field, n);
      ShouldRemove(ps[n]) <==> SideHits(ps, field, n) >= MaxBounces
  {
    BouncesCountSideHits(p, field, n);
  }
}
