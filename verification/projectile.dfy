/** Projectiles (bullet.js): the subtype table, the per-tick update with its
    bounded trail, visual spin and emission sparks, and the homing law of the
    tracking missile. */
module Projectile {
  import opened Prelude
  import opened Geometry

  /** The projectile subtypes the game creates, one per type tag. */
  datatype Kind =
    | Player | Enemy | Normal | Fast | Scout | Heavy | Armored
    | Piercing | Venom | Spiral
    | Boss | BossNormal | BossPoison | BossPierce
    | PowerShot | Upgraded | Tracking

  /** The type tag the source uses for each subtype. */
  function Name(k: Kind): string
  {
    match k
    case Player => "player"
    case Enemy => "enemy"
    case Normal => "normal"
    case Fast => "fast"
    case Scout => "scout"
    case Heavy => "heavy"
    case Armored => "armored"
    case Piercing => "piercing"
    case Venom => "venom"
    case Spiral => "spiral"
    case Boss => "boss"
    case BossNormal => "boss_normal"
    case BossPoison => "boss_poison"
    case BossPierce => "boss_pierce"
    case PowerShot => "powerShot"
    case Upgraded => "upgraded"
    case Tracking => "tracking"
  }

  /** Reads a type tag; any tag outside the table is unknown. */
  function Parse(s: string): Option<Kind>
  {
    if s == "player" then Some(Player)
    else if s == "enemy" then Some(Enemy)
    else if s == "normal" then Some(Normal)
    else if s == "fast" then Some(Fast)
    else if s == "scout" then Some(Scout)
    else if s == "heavy" then Some(Heavy)
    else if s == "armored" then Some(Armored)
    else if s == "piercing" then Some(Piercing)
    else if s == "venom" then Some(Venom)
    else if s == "spiral" then Some(Spiral)
    else if s == "boss" then Some(Boss)
    else if s == "boss_normal" then Some(BossNormal)
    else if s == "boss_poison" then Some(BossPoison)
    else if s == "boss_pierce" then Some(BossPierce)
    else if s == "powerShot" then Some(PowerShot)
    else if s == "upgraded" then Some(Upgraded)
    else if s == "tracking" then Some(Tracking)
    else None
  }

  /** Tags and subtypes are in one-to-one correspondence. */
  lemma ParseName(k: Kind)
    ensures Parse(Name(k)) == Some(k)
  {
  }

  lemma NameParse(s: string)
    ensures Parse(s).Some? ==> Name(Parse(s).value) == s
  {
  }

  datatype Size = Size(width: real, height: real)

  /** Bounding-box size of each subtype. */
  function Dimensions(k: Kind): (sz: Size)
    ensures sz.width > 0.0 && sz.height > 0.0
  {
    match k
    case Player => Size(2.0, 15.0)
    case Enemy => Size(10.0, 16.0)
    case Normal | Fast | Scout => Size(6.0, 12.0)
    case Heavy | Armored => Size(8.0, 8.0)
    case Piercing | Venom | Spiral => Size(11.0, 11.0)
    case Boss | BossNormal | BossPoison | BossPierce => Size(10.0, 18.0)
    case PowerShot => Size(8.0, 18.0)
    case Upgraded => Size(6.0, 16.0)
    case Tracking => Size(10.0, 28.0)
  }

  /** The size the constructor gives a type tag: the table entry for a known
      tag, the constructor's 4 x 10 default for any other. */
  function DimensionsOfTag(s: string): (sz: Size)
    ensures Parse(s).Some? ==> sz == Dimensions(Parse(s).value)
    ensures Parse(s).None? ==> sz == Size(4.0, 10.0)
  {
    match Parse(s)
    case Some(k) => Dimensions(k)
    case None => Size(4.0, 10.0)
  }

  /** The tag-level table and the subtype table agree on every subtype. */
  lemma DimensionsAgree(k: Kind)
    ensures DimensionsOfTag(Name(k)) == Dimensions(k)
  {
    ParseName(k);
  }

  /** Player-origin subtypes: their velocity is built from `|speed|` and
      points up the screen. */
  predicate Upward(k: Kind)
  {
    k == Player || k == PowerShot || k == Upgraded || k == Tracking
  }

  /** Elliptical subtypes that spin while flying. */
  predicate Spins(k: Kind)
  {
    k == BossPoison || k == BossPierce || k == Boss || k == Enemy
    || k == Normal || k == Fast || k == Scout
  }

  /** Hostile projectiles a player projectile can shoot down: the set the
      bullet-versus-bullet sweep of game.js tests. It includes `piercing` and
      `venom`, the subtypes the boss's volley comments call non-cancellable. */
  predicate Cancellable(k: Kind)
  {
    k == BossPoison || k == BossPierce || k == Boss || k == Enemy
    || k == Normal || k == Fast || k == Scout
    || k == Piercing || k == Venom || k == Spiral
  }

  /** Every spinning subtype is cancellable; the cancellable ones that do not
      spin are exactly the three 11 x 11 round subtypes. */
  lemma CancellableVersusSpinning(k: Kind)
    ensures Spins(k) ==> Cancellable(k)
    ensures Cancellable(k) && !Spins(k) <==> Dimensions(k) == Size(11.0, 11.0)
  {
  }

  const TrailLength: nat := 8
  const RotationSpeed: real := 0.1
  const TrackingSpeed: real := 0.2
  const SparkLife: int := 15

  datatype Point = Point(x: real, y: real)

  /** An emission spark of a player projectile; only its remaining life
      matters to the rules. */
  datatype Spark = Spark(life: int)

  datatype Bullet = Bullet(
    kind: Kind,
    box: Box,
    speed: real,
    angle: real,
    vx: real,
    vy: real,
    trail: seq<Point>,
    sparks: seq<Spark>,
    rotation: real,
    maxSpeed: real)

  /** The `Bullet` constructor: the table fixes the box, the owner side fixes
      how the launch speed and angle become a velocity. */
  function New(kind: Kind, x: real, y: real, speed: real, angle: real, t: Trig): (b: Bullet)
    ensures b.kind == kind && b.box.x == x && b.box.y == y && b.angle == angle
    ensures b.box.width == Dimensions(kind).width && b.box.height == Dimensions(kind).height
    ensures b.trail == [] && b.sparks == [] && b.rotation == 0.0
    ensures Upward(kind) && t.cos(angle) > 0.0 && speed != 0.0 ==> b.vy < 0.0
    ensures !Upward(kind) && t.cos(angle) > 0.0 && speed > 0.0 ==> b.vy > 0.0
  {
    var sz := Dimensions(kind);
    var vx := if Upward(kind) then t.sin(angle) * Abs(speed) else t.sin(angle) * speed;
    var vy := if Upward(kind) then -t.cos(angle) * Abs(speed) else t.cos(angle) * speed;
    Bullet(kind, Box(x, y, sz.width, sz.height), speed, angle, vx, vy, [], [], 0.0, Abs(speed))
  }

  /** A player-origin projectile flies the same way whatever the sign of its
      launch speed: the player's centre shot is built with a negative speed and
      its side shots with positive ones. */
  lemma UpwardIgnoresSpeedSign(kind: Kind, x: real, y: real, speed: real, angle: real, t: Trig)
    requires Upward(kind)
    ensures New(kind, x, y, -speed, angle, t) == New(kind, x, y, speed, angle, t).(speed := -speed)
  {
    assert Abs(-speed) == Abs(speed);
  }

  /** Appends a position to the trail and drops the oldest one when the trail
      grows beyond eight entries. */
  function PushTrail(trail: seq<Point>, p: Point): (r: seq<Point>)
    ensures |trail| <= TrailLength ==> |r| == MinInt(|trail| + 1, TrailLength)
    ensures |r| <= MaxInt(|trail|, TrailLength)
    ensures |r| > 0 && r[|r| - 1] == p
    ensures r == (trail + [p])[|trail| + 1 - |r|..]
  {
    var t := trail + [p];
    if |t| > TrailLength then t[1..] else t
  }

  /** The trail built by pushing `ps` one by one onto `trail`. */
  function PushAll(trail: seq<Point>, ps: seq<Point>): seq<Point>
    decreases |ps|
  {
    if |ps| == 0 then trail else PushAll(PushTrail(trail, ps[0]), ps[1..])
  }

  /** Starting from no trail, the trail always holds exactly the last
      `min(n, 8)` positions visited, oldest first. */
  lemma {:induction false} TrailKeepsLastEight(ps: seq<Point>)
    ensures PushAll([], ps) == ps[|ps| - MinInt(|ps|, TrailLength)..]
  {
    TrailSuffix([], ps);
  }

  lemma {:induction false} TrailSuffix(trail: seq<Point>, ps: seq<Point>)
    requires |trail| <= TrailLength
    ensures var all := trail + ps;
      PushAll(trail, ps) == all[|all| - MinInt(|all|, TrailLength)..]
    decreases |ps|
  {
    var all := trail + ps;
    if |ps| == 0 {
      assert all == trail;
    } else {
      var t1 := PushTrail(trail, ps[0]);
      TrailSuffix(t1, ps[1..]);
      var all1 := t1 + ps[1..];
      var k := |trail| + 1 - |t1|;
      assert t1 == (trail + [ps[0]])[k..];
      assert all1 == all[k..] by {
        assert all == (trail + [ps[0]]) + ps[1..];
      }
      assert all1[|all1| - MinInt(|all1|, TrailLength)..] == all[|all| - MinInt(|all|, TrailLength)..];
    }
  }

  /** One update of the emission sparks: every spark loses one unit of life and
      the spent ones are dropped. */
  function AgeSparks(ss: seq<Spark>): (r: seq<Spark>)
    ensures |r| <= |ss|
    ensures forall i :: 0 <= i < |r| ==> r[i].life >= 1
    ensures (forall i :: 0 <= i < |ss| ==> ss[i].life > 1) ==> |r| == |ss|
    ensures (forall i :: 0 <= i < |ss| ==> ss[i].life <= 1) ==> r == []
    decreases |ss|
  {
    if |ss| == 0 then []
    else
      var rest := AgeSparks(ss[1..]);
      if ss[0].life - 1 > 0 then [Spark(ss[0].life - 1)] + rest else rest
  }

  function AgeSparksN(ss: seq<Spark>, n: nat): seq<Spark>
    decreases n
  {
    if n == 0 then ss else AgeSparksN(AgeSparks(ss), n - 1)
  }

  /** A spark lives for exactly its initial life: after `k` updates it has
      `life - k` left while that is positive, and it is gone after `life`. */
  lemma {:induction false} SparkLifetime(life: int, k: nat)
    requires life >= 1
    ensures k < life ==> AgeSparksN([Spark(life)], k) == [Spark(life - k)]
    ensures k >= life ==> AgeSparksN([Spark(life)], k) == []
  {
    if k == 0 {
    } else if life == 1 {
      assert AgeSparks([Spark(1)]) == [];
      EmptyStaysEmpty(k - 1);
    } else {
      assert AgeSparks([Spark(life)]) == [Spark(life - 1)];
      SparkLifetime(life - 1, k - 1);
    }
  }

  lemma {:induction false} EmptyStaysEmpty(n: nat)
    ensures AgeSparksN([], n) == []
  {
    if n > 0 {
      EmptyStaysEmpty(n - 1);
    }
  }

  /** Squared distance from a point to the centre of a box. */
  function CentreDistSq(b: Box, cx: real, cy: real): real
  {
    DistSq(cx, cy, b.CentreX(), b.CentreY())
  }

  /** The homing target: the box whose centre is nearest, scanning in list
      order and replacing the best only on a strictly smaller distance, so the
      first of several equally near boxes wins. No boxes, no target. */
  function Nearest(ts: seq<Box>, cx: real, cy: real): (r: Option<nat>)
    ensures r.None? <==> |ts| == 0
    ensures r.Some? ==> r.value < |ts|
    ensures r.Some? ==> forall j :: 0 <= j < |ts| ==>
      CentreDistSq(ts[r.value], cx, cy) <= CentreDistSq(ts[j], cx, cy)
    ensures r.Some? ==> forall j :: 0 <= j < r.value ==>
      CentreDistSq(ts[j], cx, cy) > CentreDistSq(ts[r.value], cx, cy)
    decreases |ts|
  {
    if |ts| == 0 then None
    else
      var last := |ts| - 1;
      match Nearest(ts[..last], cx, cy)
      case None => Some(0)
      case Some(i) =>
        if CentreDistSq(ts[last], cx, cy) < CentreDistSq(ts[i], cx, cy) then Some(last) else Some(i)
  }

  /** Brings an angle difference back into [-pi, pi] with one correction of a
      full turn, as the steering code does. */
  function WrapAngle(d: real): (r: real)
    ensures -3.0 * Pi <= d <= 3.0 * Pi ==> -Pi <= r <= Pi
    ensures -Pi <= d <= Pi ==> r == d
    ensures r == d || r == d - 2.0 * Pi || r == d + 2.0 * Pi
  {
    var d1 := if d > Pi then d - 2.0 * Pi else d;
    if d1 < -Pi then d1 + 2.0 * Pi else d1
  }

  /** Limits a heading change to the missile's turn rate, keeping its sign. */
  function ClampTurn(d: real): (r: real)
    ensures Abs(r) <= TrackingSpeed
    ensures Abs(d) <= TrackingSpeed ==> r == d
    ensures Sign(r) == Sign(d)
  {
    if Abs(d) > TrackingSpeed then Sign(d) * TrackingSpeed else d
  }

  /** The heading change the missile applies towards a target direction. */
  function TurnToward(target: real, current: real): (turn: real)
    ensures Abs(turn) <= TrackingSpeed
    ensures Abs(WrapAngle(target - current)) <= TrackingSpeed ==> turn == WrapAngle(target - current)
  {
    ClampTurn(WrapAngle(target - current))
  }

  datatype Heading = Heading(vx: real, vy: real, angle: real)

  /** The direction from the missile's centre to the centre of the nearest
      target, in the missile's heading convention (0 is straight up). */
  function AimAt(b: Bullet, targets: seq<Box>, t: Trig): real
    requires |targets| > 0
  {
    var cx := b.box.CentreX();
    var cy := b.box.CentreY();
    var e := targets[Nearest(targets, cx, cy).value];
    t.atan2(e.CentreX() - cx, -(e.CentreY() - cy))
  }

  /** The steering law of the tracking missile: aim at the nearest hostile,
      turn at most `TrackingSpeed` radians, keep the speed magnitude. With no
      hostile the velocity is kept and only the visual angle is refreshed. */
  function Steer(b: Bullet, targets: seq<Box>, t: Trig): (h: Heading)
    ensures |targets| == 0 ==> h.vx == b.vx && h.vy == b.vy
    ensures |targets| == 0 ==> h.angle == t.atan2(b.vx, -b.vy)
    ensures |targets| > 0 ==>
      Abs(h.angle - t.atan2(b.vx, -b.vy)) <= TrackingSpeed
    ensures |targets| > 0 ==>
      h.angle == t.atan2(b.vx, -b.vy) + TurnToward(AimAt(b, targets, t), t.atan2(b.vx, -b.vy))
    ensures |targets| > 0 ==> h.vx == t.sin(h.angle) * b.maxSpeed && h.vy == -t.cos(h.angle) * b.maxSpeed
  {
    var cx := b.box.CentreX();
    var cy := b.box.CentreY();
    var current := t.atan2(b.vx, -b.vy);
    match Nearest(targets, cx, cy)
    case None => Heading(b.vx, b.vy, current)
    case Some(i) =>
      var e := targets[i];
      var target := t.atan2(e.CentreX() - cx, -(e.CentreY() - cy));
      var heading := current + TurnToward(target, current);
      Heading(t.sin(heading) * b.maxSpeed, -t.cos(heading) * b.maxSpeed, heading)
  }
  /** With a hostile in play the missile never turns away from the nearest
      one: its heading changes in the direction of the wrapped difference,
      and a target within the turn rate is pointed at exactly. */
  lemma SteerTurnsToward(b: Bullet, targets: seq<Box>, t: Trig)
    requires |targets| > 0
    ensures var current := t.atan2(b.vx, -b.vy);
      var diff := WrapAngle(AimAt(b, targets, t) - current);
      && Sign(Steer(b, targets, t).angle - current) == Sign(diff)
      && (Abs(diff) <= TrackingSpeed ==> Steer(b, targets, t).angle == current + diff)
      && (Abs(AimAt(b, targets, t) - current) <= TrackingSpeed ==> Steer(b, targets, t).angle == AimAt(b, targets, t))
  {
    var current := t.atan2(b.vx, -b.vy);
    var diff := WrapAngle(AimAt(b, targets, t) - current);
    assert TurnToward(AimAt(b, targets, t), current) == ClampTurn(diff);
  }


  /** Spark emission is decided by a draw: a player or power shot emits a new
      spark on a draw below 0.3. */
  predicate EmitsSpark(k: Kind, roll: Draw)
  {
    (k == Player || k == PowerShot) && roll < 0.3
  }

  /** `Bullet.update`: record the pre-move position in the trail, steer if
      tracking, move by the velocity, spin if elliptical, emit and age sparks. */
  function Update(b: Bullet, targets: seq<Box>, t: Trig, roll: Draw): (r: Bullet)
    ensures r.kind == b.kind && r.box.width == b.box.width && r.box.height == b.box.height
    ensures |b.trail| <= TrailLength ==> |r.trail| <= TrailLength
    ensures |r.trail| > 0 && r.trail[|r.trail| - 1] == Point(b.box.x, b.box.y)
    ensures r.rotation == if Spins(b.kind) then b.rotation + RotationSpeed else b.rotation
    ensures b.kind != Tracking ==> r.vx == b.vx && r.vy == b.vy
    ensures r.box.x == b.box.x + r.vx && r.box.y == b.box.y + r.vy
    ensures forall i :: 0 <= i < |r.sparks| ==> r.sparks[i].life >= 1
    ensures |r.sparks| <= |b.sparks| + 1
    ensures !EmitsSpark(b.kind, roll) ==> |r.sparks| <= |b.sparks|
  {
    var trail := PushTrail(b.trail, Point(b.box.x, b.box.y));
    var h := if b.kind == Tracking then Steer(b, targets, t) else Heading(b.vx, b.vy, b.angle);
    var box := b.box.(x := b.box.x + h.vx, y := b.box.y + h.vy);
    var rotation := if Spins(b.kind) then b.rotation + RotationSpeed else b.rotation;
    var born := if EmitsSpark(b.kind, roll) then b.sparks + [Spark(SparkLife)] else b.sparks;
    b.(box := box, vx := h.vx, vy := h.vy, angle := h.angle, trail := trail,
       sparks := AgeSparks(born), rotation := rotation)
  }
}
