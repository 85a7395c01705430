/** Hostiles (enemy.js): the per-type stat table, damage with the boss's
    three-phase escalation, the behaviour-state machine, the shoot timer and
    the volley each type or boss phase fires. */
module Hostile {
  import opened Prelude
  import opened Geometry
  import Projectile

  /** Hostile types. `Plain` is the `'normal'` tag, which is also the
      constructor's default for any other tag. */
  datatype Kind = Boss | Fast | Heavy | Armored | Scout | Plain

  /** Baseline movement pattern, fixed by the type. */
  datatype Pattern = Straight | Zigzag | Wave | Seek

  /** The behaviour state that overrides the pattern. */
  datatype Behaviour = Normal | Hover | Retreat | Escaping | Crossing

  /** The state tag the source stores for each behaviour. */
  function BehaviourName(b: Behaviour): string
  {
    match b
    case Normal => "normal"
    case Hover => "hover"
    case Retreat => "retreat"
    case Escaping => "escaping"
    case Crossing => "crossing"
  }

  datatype Enemy = Enemy(
    kind: Kind,
    box: Box,
    speed: real,
    health: int,
    maxHealth: int,
    shootInterval: int,
    shootTimer: real,
    pattern: Pattern,
    behaviour: Behaviour,
    phase: int,             // the boss's phase, 1 to 3; 0 for other types
    phaseChangeTimer: int,
    hitFlash: int,
    lifeTimer: int,
    direction: int,
    targetX: real,
    targetY: real,
    hoverTime: int)

  datatype Stats = Stats(width: real, height: real, speed: real, health: int, interval: int, pattern: Pattern)

  /** The constructor's per-type table. */
  function StatsOf(k: Kind): (s: Stats)
    ensures s.health > 0 && s.interval > 0 && s.width > 0.0 && s.height > 0.0
  {
    match k
    case Boss => Stats(80.0, 60.0, 1.0, 150, 50, Seek)
    case Fast => Stats(25.0, 25.0, 4.0, 3, 80, Zigzag)
    case Heavy => Stats(45.0, 40.0, 1.5, 15, 100, Straight)
    case Armored => Stats(30.0, 25.0, 2.0, 9, 90, Straight)
    case Scout => Stats(25.0, 25.0, 5.0, 3, 60, Wave)
    case Plain => Stats(35.0, 20.0, 2.4, 3, 60, Straight)
  }

  const MaxHoverTime: int := 180
  const HitFlashTicks: int := 10
  const PhaseChangeTicks: int := 60

  /** The `Enemy` constructor at (x, y); the initial shoot timer is a random
      fraction of the shoot interval. */
  function New(kind: Kind, x: real, y: real, timerDraw: Draw): (e: Enemy)
    ensures e.kind == kind && e.box.x == x && e.box.y == y
    ensures e.health == e.maxHealth > 0
    ensures e.behaviour == Normal && e.hitFlash == 0 && e.phaseChangeTimer == 0
    ensures 0.0 <= e.shootTimer < e.shootInterval as real
    ensures kind == Boss ==> e.phase == 1 && e.health == 150
    ensures Consistent(e)
  {
    var s := StatsOf(kind);
    Enemy(kind, Box(x, y, s.width, s.height), s.speed, s.health, s.health, s.interval,
          timerDraw * s.interval as real, s.pattern, Normal,
          if kind == Boss then 1 else 0, 0, 0, 0, 1, x, y + 100.0, 0)
  }

  /** The boss phase for a health fraction: above 0.66 is phase 1, above 0.33
      phase 2, anything lower (including dead) phase 3. */
  function PhaseFor(health: int, maxHealth: int): (p: int)
    requires maxHealth > 0
    ensures 1 <= p <= 3
    ensures p == 1 <==> 100 * health > 66 * maxHealth
    ensures p == 3 <==> 100 * health <= 33 * maxHealth
  {
    var f := health as real / maxHealth as real;
    FractionAbove(health, maxHealth, 0.66);
    FractionAbove(health, maxHealth, 0.33);
    if f > 0.66 then 1 else if f > 0.33 then 2 else 3
  }

  lemma FractionAbove(h: int, m: int, c: real)
    requires m > 0
    ensures h as real / m as real > c <==> h as real > c * m as real
  {
    var f := h as real / m as real;
    assert f * m as real == h as real;
    if f > c {
      assert f * m as real > c * m as real;
    } else {
      assert f * m as real <= c * m as real;
    }
  }

  /** Losing health never lowers the boss phase. */
  lemma PhaseMonotone(h1: int, h2: int, m: int)
    requires m > 0
    ensures h2 <= h1 ==> PhaseFor(h2, m) >= PhaseFor(h1, m)
  {
  }

  /** The shoot interval and speed each phase switches the boss to. Phase 1
      keeps the constructor's values. */
  function PhaseInterval(p: int): int
  {
    if p == 3 then 30 else if p == 2 then 40 else 50
  }

  function PhaseSpeed(p: int): real
  {
    if p == 3 then 2.0 else if p == 2 then 1.5 else 1.0
  }

  /** What every hostile keeps true: full health is positive, and a boss's
      phase, interval and speed are those its health fraction dictates. */
  predicate Consistent(e: Enemy)
  {
    && e.maxHealth > 0
    && e.shootInterval > 0
    && (e.kind == Boss ==>
          && e.phase == PhaseFor(e.health, e.maxHealth)
          && e.shootInterval == PhaseInterval(e.phase)
          && e.speed == PhaseSpeed(e.phase))
  }

  datatype Damaged = Damaged(enemy: Enemy, dead: bool)

  /** `takeDamage`: lose `d` health and flash; a boss recomputes its phase and
      on a change restarts the phase-change timer and takes the phase's
      interval and speed; a scout in `normal` flees; a heavy at or below half
      health in `normal` retreats on a draw below 0.3. The flag reports death. */
  function TakeDamage(e: Enemy, d: int, roll: Draw): (r: Damaged)
    requires e.maxHealth > 0
    ensures r.enemy.health == e.health - d
    ensures r.enemy.hitFlash == HitFlashTicks
    ensures r.dead <==> r.enemy.health <= 0
    ensures r.enemy.kind == e.kind && r.enemy.maxHealth == e.maxHealth && r.enemy.box == e.box
    ensures r.enemy.shootTimer == e.shootTimer
    ensures e.kind == Boss ==> r.enemy.phase == PhaseFor(e.health - d, e.maxHealth)
    ensures e.kind == Boss && r.enemy.phase != e.phase ==> r.enemy.phaseChangeTimer == PhaseChangeTicks
    ensures e.kind != Boss || r.enemy.phase == e.phase ==>
      r.enemy.phaseChangeTimer == e.phaseChangeTimer && r.enemy.phase == e.phase
      && r.enemy.shootInterval == e.shootInterval && r.enemy.speed == e.speed
    ensures e.kind == Scout ==>
      r.enemy.behaviour == (if e.behaviour == Normal then Escaping else e.behaviour)
    ensures e.kind == Heavy ==>
      r.enemy.behaviour ==
        (if e.behaviour == Normal && 2 * (e.health - d) <= e.maxHealth && roll < 0.3
         then Retreat else e.behaviour)
    ensures e.kind != Scout && e.kind != Heavy ==> r.enemy.behaviour == e.behaviour
    ensures Consistent(e) && d >= 0 ==> Consistent(r.enemy) && r.enemy.phase >= e.phase
  {
    var health := e.health - d;
    var e1 := e.(health := health, hitFlash := HitFlashTicks);
    var e2 :=
      if e.kind == Boss then
        var p := PhaseFor(health, e.maxHealth);
        if p != e.phase then
          var e3 := e1.(phase := p, phaseChangeTimer := PhaseChangeTicks);
          if p == 2 then e3.(shootInterval := 40, speed := 1.5)
          else if p == 3 then e3.(shootInterval := 30, speed := 2.0)
          else e3
        else e1
      else e1;
    var e4 :=
      if e.kind == Scout && e2.behaviour == Normal then e2.(behaviour := Escaping)
      else if e.kind == Heavy && 2 * health <= e.maxHealth && e2.behaviour == Normal && roll < 0.3
      then e2.(behaviour := Retreat)
      else e2;
    PhaseMonotone(e.health, health, e.maxHealth);
    Damaged(e4, health <= 0)
  }

  /** Launch parameters of one projectile of a volley, relative to the muzzle
      at the middle of the hostile's bottom edge. */
  datatype Lane = Lane(kind: Projectile.Kind, offset: real, speed: real, angle: real)

  /** Aimed shots may deviate at most 30 degrees from straight down. */
  const MaxAim: real := Pi / 6.0

  /** The projectile subtypes one `shoot` emits, in emission order. */
  function Volley(e: Enemy): (ks: seq<Projectile.Kind>)
    ensures e.kind == Boss && e.phase == 1 ==> ks == [Projectile.Enemy]
    ensures e.kind == Boss && e.phase == 2 ==> ks == [Projectile.Venom, Projectile.Enemy, Projectile.Venom]
    ensures e.kind == Boss && e.phase == 3 ==>
      ks == [Projectile.Enemy, Projectile.Piercing, Projectile.Enemy, Projectile.Piercing,
             Projectile.Enemy, Projectile.Enemy]
    ensures e.kind == Boss && !(1 <= e.phase <= 3) ==> ks == []
    ensures e.kind == Heavy ==> ks == [Projectile.Heavy, Projectile.Heavy, Projectile.Heavy]
    ensures e.kind == Scout ==> ks == (if e.behaviour == Escaping then [] else [Projectile.Scout])
    ensures e.kind == Fast ==> ks == [Projectile.Fast]
    ensures e.kind == Armored ==> ks == [Projectile.Piercing]
    ensures e.kind == Plain ==> ks == [Projectile.Enemy]
  {
    var lanes := Lanes(e, 0.0, 0.0, Trig(x => 0.0, x => 0.0, (y, x) => 0.0));
    seq(|lanes|, i requires 0 <= i < |lanes| => lanes[i].kind)
  }

  /** The lanes of one `shoot`. `aim` is the raw angle towards the player and
      `spin` the sine-swept angle of the boss's extra phase-3 shot. */
  function Lanes(e: Enemy, aim: real, spin: real, t: Trig): seq<Lane>
  {
    match e.kind
    case Boss =>
      if e.phase == 1 then [Lane(Projectile.Enemy, 0.0, 2.5, 0.0)]
      else if e.phase == 2 then
        seq(3, k requires 0 <= k < 3 =>
          var i := k - 1;
          Lane(if i == 0 then Projectile.Enemy else Projectile.Venom, i as real * 10.0, 3.0, i as real * 0.3))
      else if e.phase == 3 then
        seq(5, k requires 0 <= k < 5 =>
          var i := k - 2;
          Lane(if JsRem(i, 2) == 0 then Projectile.Enemy else Projectile.Piercing, 0.0, 3.5, i as real * 0.2))
        + [Lane(Projectile.Enemy, 0.0, 2.5, spin)]
      else []
    case Heavy =>
      seq(3, k requires 0 <= k < 3 =>
        var i := k - 1;
        Lane(Projectile.Heavy, i as real * 8.0, 2.0, Clamp(-MaxAim, MaxAim, i as real * 0.3)))
    case Fast => [Lane(Projectile.Fast, 0.0, 5.0, Clamp(-MaxAim, MaxAim, aim))]
    case Armored => [Lane(Projectile.Piercing, 0.0, 4.0, Clamp(-MaxAim, MaxAim, aim))]
    case Scout =>
      if e.behaviour == Escaping then []
      else [Lane(Projectile.Scout, 0.0, 3.0, Clamp(-MaxAim, MaxAim, aim))]
    case Plain => [Lane(Projectile.Enemy, 0.0, 3.0, Clamp(-MaxAim, MaxAim, aim))]
  }

  /** Creates the projectiles of a list of lanes from the muzzle (cx, bottom). */
  function Launch(lanes: seq<Lane>, cx: real, bottom: real, t: Trig): (bs: seq<Projectile.Bullet>)
    ensures |bs| == |lanes|
    ensures forall i :: 0 <= i < |bs| ==>
      bs[i].kind == lanes[i].kind && bs[i].box.y == bottom && bs[i].angle == lanes[i].angle
    decreases |lanes|
  {
    if |lanes| == 0 then []
    else
      [Projectile.New(lanes[0].kind, cx + lanes[0].offset, bottom, lanes[0].speed, lanes[0].angle, t)]
      + Launch(lanes[1..], cx, bottom, t)
  }

  /** `shoot`: the projectiles of one volley. Non-boss types other than the
      heavy aim at the player's centre, clamped to 30 degrees either side of
      straight down. */
  function Shoot(e: Enemy, player: Box, t: Trig): (bs: seq<Projectile.Bullet>)
    ensures |bs| == |Volley(e)|
    ensures forall i :: 0 <= i < |bs| ==> bs[i].kind == Volley(e)[i]
    ensures forall i :: 0 <= i < |bs| ==> bs[i].box.y == e.box.y + e.box.height
    ensures e.kind != Boss ==> forall i :: 0 <= i < |bs| ==> -MaxAim <= bs[i].angle <= MaxAim
  {
    var cx := e.box.CentreX();
    var bottom := e.box.y + e.box.height;
    var aim := t.atan2(player.CentreX() - cx, player.CentreY() - bottom);
    var spin := t.sin(e.lifeTimer as real * 0.1) * 0.5;
    LanesKinds(e, aim, spin, t);
    Launch(Lanes(e, aim, spin, t), cx, bottom, t)
  }

  /** The subtypes of a volley do not depend on where the player is. */
  lemma LanesKinds(e: Enemy, aim: real, spin: real, t: Trig)
    ensures var ls := Lanes(e, aim, spin, t);
      |ls| == |Volley(e)| && forall i :: 0 <= i < |ls| ==> ls[i].kind == Volley(e)[i]
    ensures e.kind != Boss ==>
      forall i :: 0 <= i < |Lanes(e, aim, spin, t)| ==>
        -MaxAim <= Lanes(e, aim, spin, t)[i].angle <= MaxAim
  {
  }

  datatype Tick = Tick(enemy: Enemy, shots: seq<Projectile.Bullet>)

  /** The position and behaviour after one tick of movement. Sine-driven
      sways and the boss's seek direction go through `t`; `jitter` is the
      escaping scout's random sideways step and `tx`, `ty` pick the boss's next
      wander target. */
  function Move(e: Enemy, field: Field, t: Trig, jitter: Draw, tx: Draw, ty: Draw): (r: Enemy)
    ensures r.kind == e.kind && r.health == e.health && r.maxHealth == e.maxHealth
    ensures r.box.width == e.box.width && r.box.height == e.box.height
    ensures r.shootInterval == e.shootInterval && r.shootTimer == e.shootTimer && r.speed == e.speed
    ensures r.phase == e.phase && r.hitFlash == e.hitFlash && r.lifeTimer == e.lifeTimer
    ensures r.phaseChangeTimer == e.phaseChangeTimer
    ensures e.behaviour == Hover ==> r.hoverTime == (if e.hoverTime + 1 >= MaxHoverTime then 0 else e.hoverTime + 1)
    ensures e.behaviour == Hover ==> r.behaviour == (if e.hoverTime + 1 >= MaxHoverTime then Normal else Hover)
    ensures e.behaviour == Normal && e.pattern == Seek ==>
      r.behaviour == (if DistSq(e.box.x, e.box.y, e.targetX, e.targetY) > 25.0 then Normal else Hover)
    ensures e.behaviour != Hover && !(e.behaviour == Normal && e.pattern == Seek) ==> r.behaviour == e.behaviour
    ensures e.behaviour == Retreat ==> r.box.y == e.box.y - e.speed * 1.5
    ensures e.behaviour == Escaping ==> r.box.y == e.box.y - e.speed * 3.0
    ensures e.behaviour == Normal && e.pattern != Seek ==> r.box.y == e.box.y + e.speed
  {
    var b := e.box;
    var life := e.lifeTimer as real;
    match e.behaviour
    case Normal =>
      (match e.pattern
       case Seek =>
         if DistSq(b.x, b.y, e.targetX, e.targetY) > 25.0 then
           var a := t.atan2(e.targetY - b.y, e.targetX - b.x);
           e.(box := b.(x := b.x + t.cos(a) * e.speed, y := b.y + t.sin(a) * e.speed))
         else e.(behaviour := Hover)
       case Zigzag => e.(box := b.(x := b.x + t.sin(life * 0.1) * 2.0, y := b.y + e.speed))
       case Wave => e.(box := b.(x := b.x + t.sin(life * 0.15) * 3.0, y := b.y + e.speed))
       case Straight => e.(box := b.(y := b.y + e.speed)))
    case Hover =>
      var hover := e.hoverTime + 1;
      var e1 := e.(hoverTime := hover, box := b.(x := b.x + t.sin(hover as real * 0.05) * 0.5));
      if hover >= MaxHoverTime then
        e1.(targetX := tx * (field.width - b.width), targetY := ty * 150.0 + 50.0,
            hoverTime := 0, behaviour := Normal)
      else e1
    case Retreat =>
      e.(box := b.(x := b.x + t.sin(life * 0.2) * 2.0, y := b.y - e.speed * 1.5))
    case Escaping =>
      e.(box := b.(x := b.x + (jitter - 0.5) * 4.0, y := b.y - e.speed * 3.0))
    case Crossing =>
      e.(box := b.(x := b.x + e.direction as real * e.speed * 1.5, y := b.y + e.speed * 2.0))
  }

  /** Keeps the hostile inside the side walls, turning its direction on a hit. */
  function Confine(e: Enemy, field: Field): (r: Enemy)
    ensures r == e.(box := r.box, direction := r.direction)
    ensures r.box.y == e.box.y && r.box.width == e.box.width && r.box.height == e.box.height
    ensures field.width >= e.box.width ==> 0.0 <= r.box.x <= field.width - e.box.width
    ensures 0.0 <= e.box.x <= field.width - e.box.width ==> r == e
    ensures r.direction == e.direction || r.direction == -e.direction
  {
    var e1 := if e.box.x < 0.0 then e.(box := e.box.(x := 0.0), direction := -e.direction) else e;
    if e1.box.x + e1.box.width > field.width
    then e1.(box := e1.box.(x := field.width - e1.box.width), direction := -e1.direction)
    else e1
  }

  /** `Enemy.update`: age, move per behaviour, stay inside the side walls,
      count the hit flash down, and fire one volley whenever the shoot timer
      reaches the interval, restarting the timer. */
  function Update(e: Enemy, field: Field, t: Trig, player: Box, jitter: Draw, tx: Draw, ty: Draw): (r: Tick)
    ensures r.enemy.kind == e.kind && r.enemy.health == e.health && r.enemy.maxHealth == e.maxHealth
    ensures r.enemy.lifeTimer == e.lifeTimer + 1
    ensures r.enemy.phaseChangeTimer == (if e.phaseChangeTimer > 0 then e.phaseChangeTimer - 1 else e.phaseChangeTimer)
    ensures r.enemy.hitFlash == (if e.hitFlash > 0 then e.hitFlash - 1 else e.hitFlash)
    ensures e.hitFlash >= 0 ==> r.enemy.hitFlash >= 0
    ensures field.width >= e.box.width ==> 0.0 <= r.enemy.box.x <= field.width - e.box.width
    ensures e.shootTimer + 1.0 >= e.shootInterval as real ==>
      r.enemy.shootTimer == 0.0 && |r.shots| == |Volley(e)|
    ensures e.shootTimer + 1.0 < e.shootInterval as real ==>
      r.enemy.shootTimer == e.shootTimer + 1.0 && r.shots == []
    ensures forall i :: 0 <= i < |r.shots| ==> r.shots[i].kind == Volley(e)[i]
    ensures Consistent(e) ==> Consistent(r.enemy)
  {
    var e1 := e.(lifeTimer := e.lifeTimer + 1,
                 phaseChangeTimer := if e.phaseChangeTimer > 0 then e.phaseChangeTimer - 1 else e.phaseChangeTimer);
    var e2 := Confine(Move(e1, field, t, jitter, tx, ty), field);
    var e3 := e2.(hitFlash := if e2.hitFlash > 0 then e2.hitFlash - 1 else e2.hitFlash);
    var timer := e3.shootTimer + 1.0;
    if timer >= e3.shootInterval as real then
      VolleyIgnoresMotion(e, e3);
      Tick(e3.(shootTimer := 0.0), Shoot(e3, player, t))
    else Tick(e3.(shootTimer := timer), [])
  }

  /** The volley depends only on type, phase and behaviour. */
  lemma VolleyIgnoresMotion(e: Enemy, e': Enemy)
    requires e.kind == e'.kind && e.phase == e'.phase
    requires e.kind == Scout ==> (e.behaviour == Escaping <==> e'.behaviour == Escaping)
    ensures Volley(e) == Volley(e')
  {
  }
}
