/** One frame of the game (`update` in game.js) and the events around it:
    the player's timers, movement and fire, the advance of every entity, the
    collision sweeps, random arrivals, the protection rings, the respawn
    animation, key presses and restart.

    Every collision sweep visits its entities in list order, and an entity is
    used up by the first collision that consumes it. */
module Game {
  import opened Prelude
  import opened Geometry
  import Projectile
  import Hostile
  import Pickup
  import PlayerRules
  import ProtectionRing
  import Scoring
  import Spawning

  const PlayerWidth: real := 50.0
  const PlayerHeight: real := 30.0
  const PlayerSpeed: real := 5.0
  const StartLives: int := 3
  const MissileInterval: int := 30
  const RespawnFrames: int := 60
  const InvulnerableFrames: int := 120
  const DropChance: real := 0.3
  const CancelBonus: int := 5
  const BossY: real := -60.0
  const BossMargin: real := 80.0

  /** The keys held during a frame: `a`, `d`, `w`, `s` and the fire key `j`. */
  datatype Keys = Keys(left: bool, right: bool, up: bool, down: bool, fire: bool)

  /** Everything one frame reads and writes. `respawn` counts the frames of
      a running respawn animation; 0 means none is running. */
  datatype State = State(
    tally: Scoring.Tally,
    lives: int,
    gameOver: bool,
    buffs: seq<PlayerRules.Buff>,
    invulnerable: bool,
    invulnerableTime: int,
    bulletLevel: int,
    charge: PlayerRules.Charge,
    autoShoot: bool,
    player: Box,
    shootTimer: int,
    missileTimer: int,
    respawn: int,
    bullets: seq<Projectile.Bullet>,
    enemyBullets: seq<Projectile.Bullet>,
    enemies: seq<Hostile.Enemy>,
    pickups: seq<Pickup.PowerUp>,
    rings: seq<ProtectionRing.Ring>)

  /** A state and the random stream after the draws a step consumed. */
  datatype Out = Out(s: State, rng: Rng)

  function HomeX(field: Field): real { field.width / 2.0 - PlayerWidth / 2.0 }
  function HomeY(field: Field): real { field.height - 80.0 }

  /** Every hostile in play is consistent and alive. */
  predicate Alive(es: seq<Hostile.Enemy>)
  {
    forall i :: 0 <= i < |es| ==> Hostile.Consistent(es[i]) && es[i].health > 0
  }

  lemma AliveConcat(a: seq<Hostile.Enemy>, b: seq<Hostile.Enemy>)
    requires Alive(a) && Alive(b)
    ensures Alive(a + b)
  {
  }

  predicate BuffsOk(bs: seq<PlayerRules.Buff>)
  {
    PlayerRules.WellTimed(bs) && PlayerRules.TimersAtMost(bs, PlayerRules.BuffTicks)
  }

  /** The counters' invariant: the level bookkeeping, at most five lives,
      the game over exactly when no life is left, the weapon tier in 1..5,
      the charges in 0..3, one buff per type with its timer in 1..300, and
      the timers of the player's states non-negative. */
  predicate CountersOk(s: State)
  {
    && Scoring.LevelOk(s.tally)
    && s.lives <= PlayerRules.MaxLives
    && (s.gameOver <==> s.lives <= 0)
    && 1 <= s.bulletLevel <= PlayerRules.MaxBulletLevel
    && PlayerRules.ChargeOk(s.charge)
    && BuffsOk(s.buffs)
    && s.invulnerableTime >= 0
    && 0 <= s.respawn < RespawnFrames
  }

  predicate Inv(s: State)
  {
    CountersOk(s) && Alive(s.enemies)
  }

  /** The state the page starts with. */
  function Init(field: Field): (s: State)
    ensures Inv(s)
  {
    State(Scoring.Start, StartLives, false, [], false, 0, 1,
          PlayerRules.Charge(PlayerRules.MaxCharges, 0), false,
          Box(HomeX(field), HomeY(field), PlayerWidth, PlayerHeight),
          0, 0, 0, [], [], [], [], [])
  }

  // ---------------------------------------------------------------------
  // Respawn

  /** Frame `n` of the respawn animation: the player rises from 50 below the
      bottom edge to its home height over 60 frames, and on the last one
      becomes invulnerable for 120 frames. */
  function AnimFrame(s: State, field: Field, n: int): (r: State)
    ensures n < RespawnFrames ==> r == s.(player := r.player, respawn := n)
    ensures n < RespawnFrames ==> r.player == s.player.(y := r.player.y)
    ensures 0 < n < RespawnFrames ==> HomeY(field) < r.player.y < field.height + 50.0
    ensures n >= RespawnFrames ==>
      r == s.(player := s.player.(y := HomeY(field)), invulnerable := true,
              invulnerableTime := InvulnerableFrames, respawn := 0)
  {
    if n >= RespawnFrames then
      s.(player := s.player.(y := HomeY(field)), invulnerable := true,
         invulnerableTime := InvulnerableFrames, respawn := 0)
    else
      var progress := n as real / RespawnFrames as real;
      s.(player := s.player.(y := field.height + 50.0 - 130.0 * progress), respawn := n)
  }

  /** `respawnPlayer`: back to tier 1, moved below the bottom edge at the home
      column, and the first animation frame runs at once. Invulnerability
      only begins when the animation ends. */
  function Respawn(s: State, field: Field): (r: State)
    ensures r == s.(bulletLevel := 1, player := r.player, respawn := 1)
    ensures r.player == s.player.(x := HomeX(field), y := r.player.y)
    ensures HomeY(field) < r.player.y < field.height + 50.0
  {
    var s1 := s.(bulletLevel := 1, player := s.player.(x := HomeX(field), y := field.height + 50.0));
    AnimFrame(s1, field, 1)
  }

  /** The animation frame queued for the next frame, if one is running. */
  function AnimTick(s: State, field: Field): (r: State)
    ensures s.respawn <= 0 ==> r == s
    ensures r.tally == s.tally && r.enemies == s.enemies
    ensures Inv(s) ==> Inv(r)
  {
    if s.respawn <= 0 then s else AnimFrame(s, field, s.respawn + 1)
  }

  function AnimTickN(s: State, field: Field, n: nat): State
    decreases n
  {
    if n == 0 then s else AnimTickN(AnimTick(s, field), field, n - 1)
  }

  /** A later animation frame overrides an earlier one. */
  lemma AnimFrameOverrides(s: State, field: Field, m: int, n: int)
    requires m < RespawnFrames
    ensures AnimFrame(AnimFrame(s, field, m), field, n) == AnimFrame(s, field, n)
  {
  }

  /** While the animation runs, `n` more frames land on frame `respawn + n`. */
  lemma {:induction false} AnimationRuns(s: State, field: Field, n: nat)
    requires 1 <= s.respawn && 1 <= n && s.respawn + n <= RespawnFrames
    ensures AnimTickN(s, field, n) == AnimFrame(s, field, s.respawn + n)
    decreases n
  {
    var s1 := AnimTick(s, field);
    if n > 1 {
      AnimationRuns(s1, field, n - 1);
      AnimFrameOverrides(s, field, s.respawn + 1, s.respawn + n);
    }
  }

  /** After a respawn the player stays vulnerable below its home height for
      58 more frames, and on the 59th it is home and invulnerable for 120
      frames, with the animation finished. */
  lemma RespawnCompletes(s: State, field: Field)
    ensures var r := Respawn(s, field);
      var late := AnimTickN(r, field, RespawnFrames - 2);
      var done := AnimTickN(r, field, RespawnFrames - 1);
      && late.respawn == RespawnFrames - 1 && late.invulnerable == s.invulnerable
      && late.player.y > HomeY(field)
      && done.respawn == 0 && done.invulnerable && done.invulnerableTime == InvulnerableFrames
      && done.player == Box(HomeX(field), HomeY(field), s.player.width, s.player.height)
  {
    var r := Respawn(s, field);
    AnimationRuns(r, field, RespawnFrames - 2);
    AnimationRuns(r, field, RespawnFrames - 1);
  }

  // ---------------------------------------------------------------------
  // The player's timers, movement and fire

  /** The frame's first step: invulnerability counts down and ends at 0, and
      the defensive charge ticks. */
  function Tick(s: State): (r: State)
    ensures r == s.(invulnerable := r.invulnerable, invulnerableTime := r.invulnerableTime,
                    charge := PlayerRules.TickCharge(s.charge))
    ensures s.invulnerable && s.invulnerableTime > 0 ==>
      r.invulnerableTime == s.invulnerableTime - 1 && (r.invulnerable <==> r.invulnerableTime > 0)
    ensures !(s.invulnerable && s.invulnerableTime > 0) ==>
      r.invulnerable == s.invulnerable && r.invulnerableTime == s.invulnerableTime
    ensures CountersOk(s) ==> CountersOk(r)
  {
    var s1 :=
      if s.invulnerable && s.invulnerableTime > 0 then
        var time := s.invulnerableTime - 1;
        s.(invulnerableTime := time, invulnerable := if time <= 0 then false else s.invulnerable)
      else s;
    s1.(charge := PlayerRules.TickCharge(s1.charge))
  }

  function TickN(s: State, n: nat): State
    decreases n
  {
    if n == 0 then s else TickN(Tick(s), n - 1)
  }

  /** Invulnerability granted for `m` frames lasts exactly `m` frames. */
  lemma {:induction false} InvulnerabilityLasts(s: State, n: nat)
    requires s.invulnerable && 0 < s.invulnerableTime && n <= s.invulnerableTime
    ensures TickN(s, n).invulnerableTime == s.invulnerableTime - n
    ensures TickN(s, n).invulnerable <==> n < s.invulnerableTime
    decreases n
  {
    if n > 0 {
      var s1 := Tick(s);
      if s1.invulnerableTime > 0 {
        InvulnerabilityLasts(s1, n - 1);
      }
    }
  }

  /** Keyboard movement: each held key moves the player 5 pixels if the
      player's edge has not yet reached (or passed) that wall. The tests come
      before the step, so the player can end up to 5 pixels past a wall. */
  function MovePlayer(p: Box, keys: Keys, field: Field): (r: Box)
    ensures r.width == p.width && r.height == p.height
    ensures Abs(r.x - p.x) <= PlayerSpeed && Abs(r.y - p.y) <= PlayerSpeed
    ensures -PlayerSpeed < p.x < field.width - p.width + PlayerSpeed ==>
      -PlayerSpeed < r.x < field.width - p.width + PlayerSpeed
    ensures -PlayerSpeed < p.y < field.height - p.height + PlayerSpeed ==>
      -PlayerSpeed < r.y < field.height - p.height + PlayerSpeed
    ensures !keys.left && !keys.right ==> r.x == p.x
    ensures !keys.up && !keys.down ==> r.y == p.y
    ensures keys.left && !keys.right && p.x > 0.0 ==> r.x == p.x - PlayerSpeed
    ensures keys.left && !keys.right && p.x <= 0.0 ==> r.x == p.x
    ensures !keys.left && keys.right && p.x < field.width - p.width ==> r.x == p.x + PlayerSpeed
    ensures !keys.left && keys.right && p.x >= field.width - p.width ==> r.x == p.x
    ensures keys.up && !keys.down && p.y > 0.0 ==> r.y == p.y - PlayerSpeed
    ensures keys.up && !keys.down && p.y <= 0.0 ==> r.y == p.y
    ensures !keys.up && keys.down && p.y < field.height - p.height ==> r.y == p.y + PlayerSpeed
    ensures !keys.up && keys.down && p.y >= field.height - p.height ==> r.y == p.y
  {
    var x1 := if keys.left && p.x > 0.0 then p.x - PlayerSpeed else p.x;
    var x2 := if keys.right && x1 < field.width - p.width then x1 + PlayerSpeed else x1;
    var y1 := if keys.up && p.y > 0.0 then p.y - PlayerSpeed else p.y;
    var y2 := if keys.down && y1 < field.height - p.height then y1 + PlayerSpeed else y1;
    p.(x := x2, y := y2)
  }

  predicate VolleyDue(s: State, keys: Keys)
  {
    (s.autoShoot || keys.fire) && s.shootTimer + 1 >= PlayerRules.ShotInterval(s.buffs, s.bulletLevel)
  }

  predicate BurstDue(s: State)
  {
    s.missileTimer + 1 >= MissileInterval && |s.enemies| > 0
  }

  /** The shot timer and the homing-missile timer: each counts frames; a
      volley fires when fire is held (or auto-fire is on) and the count
      reaches the shot interval, and a homing burst fires when the count
      reaches 30 while a hostile is in play. Each restarts at 0 when it
      fires. */
  function Fire(s: State, keys: Keys, t: Trig): (r: State)
    ensures r == s.(shootTimer := r.shootTimer, missileTimer := r.missileTimer, bullets := r.bullets)
    ensures r.shootTimer == if VolleyDue(s, keys) then 0 else s.shootTimer + 1
    ensures r.missileTimer == if BurstDue(s) then 0 else s.missileTimer + 1
    ensures |r.bullets| == |s.bullets|
      + (if VolleyDue(s, keys) then PlayerRules.VolleySize(s.bulletLevel, PlayerRules.HasBuff(s.buffs, Pickup.RapidFire)) else 0)
      + (if BurstDue(s) then (if s.bulletLevel >= 1 then 6 else 1) else 0)
    ensures r.bullets[..|s.bullets|] == s.bullets
  {
    var rapid := PlayerRules.HasBuff(s.buffs, Pickup.RapidFire);
    var volley := if VolleyDue(s, keys) then PlayerRules.Volley(s.player, s.bulletLevel, rapid, t) else [];
    var burst := if BurstDue(s) then PlayerRules.TrackingVolley(s.player, s.bulletLevel, t) else [];
    s.(shootTimer := if VolleyDue(s, keys) then 0 else s.shootTimer + 1,
       missileTimer := if BurstDue(s) then 0 else s.missileTimer + 1,
       bullets := s.bullets + volley + burst)
  }

  function FireN(s: State, keys: Keys, t: Trig, n: nat): State
    decreases n
  {
    if n == 0 then s else FireN(Fire(s, keys, t), keys, t, n - 1)
  }

  /** Holding fire with the shot timer at 0, the next volley comes exactly
      `ShotInterval` frames later: the count climbs to one below the interval
      and restarts on the frame that fires. */
  lemma {:induction false} VolleyCadence(s: State, keys: Keys, t: Trig, n: nat)
    requires keys.fire && 0 <= s.shootTimer
    requires s.shootTimer + n <= PlayerRules.ShotInterval(s.buffs, s.bulletLevel)
    ensures s.shootTimer + n < PlayerRules.ShotInterval(s.buffs, s.bulletLevel) ==>
      FireN(s, keys, t, n).shootTimer == s.shootTimer + n
    ensures n > 0 && s.shootTimer + n == PlayerRules.ShotInterval(s.buffs, s.bulletLevel) ==>
      FireN(s, keys, t, n).shootTimer == 0
    decreases n
  {
    if n > 0 {
      var s1 := Fire(s, keys, t);
      if s.shootTimer + 1 < PlayerRules.ShotInterval(s.buffs, s.bulletLevel) {
        VolleyCadence(s1, keys, t, n - 1);
      }
    }
  }

  // ---------------------------------------------------------------------
  // Advancing the entities

  datatype Shots = Shots(shots: seq<Projectile.Bullet>, rng: Rng)

  /** The pruning rule of the two projectile lists: the player's are kept
      while below `-height`, the hostiles' while above the bottom edge. */
  predicate KeepShot(b: Projectile.Bullet, upward: bool, field: Field)
  {
    if upward then b.box.y > -b.box.height else b.box.y < field.height
  }

  predicate TrailsBounded(bs: seq<Projectile.Bullet>)
  {
    forall i :: 0 <= i < |bs| ==> |bs[i].trail| <= Projectile.TrailLength
  }

  /** Updates every projectile of a list (homing ones steer toward `targets`)
      and drops those that left the field on their side. */
  function AdvanceShots(bs: seq<Projectile.Bullet>, upward: bool, targets: seq<Box>, field: Field, t: Trig, rng: Rng): (o: Shots)
    ensures |o.shots| <= |bs|
    ensures forall i :: 0 <= i < |o.shots| ==> KeepShot(o.shots[i], upward, field)
    ensures TrailsBounded(bs) ==> TrailsBounded(o.shots)
    decreases |bs|
  {
    if |bs| == 0 then Shots([], rng)
    else
      var (roll, r1) := rng.Next();
      var b := Projectile.Update(bs[0], targets, t, roll);
      var rest := AdvanceShots(bs[1..], upward, targets, field, t, r1);
      if KeepShot(b, upward, field) then
        var r := [b] + rest.shots;
        assert forall i :: 0 < i < |r| ==> r[i] == rest.shots[i - 1];
        assert TrailsBounded(bs) ==> |b.trail| <= Projectile.TrailLength;
        Shots(r, rest.rng)
      else Shots(rest.shots, rest.rng)
  }

  function Boxes(es: seq<Hostile.Enemy>): (bs: seq<Box>)
    ensures |bs| == |es| && forall i :: 0 <= i < |es| ==> bs[i] == es[i].box
    decreases |es|
  {
    if |es| == 0 then [] else [es[0].box] + Boxes(es[1..])
  }

  /** The pruning switch for hostiles as written: a boss is always kept; the
      states named `retreating` or `escaping` are kept while below the top
      edge; every other state, `retreat` included, is kept while above 50
      below the bottom edge. */
  predicate KeepEnemy(e: Hostile.Enemy, field: Field)
  {
    if e.kind == Hostile.Boss then true
    else
      var name := Hostile.BehaviourName(e.behaviour);
      if name == "retreating" || name == "escaping" then e.box.y > -e.box.height
      else e.box.y < field.height + 50.0
  }

  /** The state a heavy enters when it retreats is `retreat`, which the
      pruning switch does not name: a retreating heavy flying off the top is
      never dropped, while an escaping scout in the same place is. */
  lemma RetreatEscapesPruning(e: Hostile.Enemy, field: Field)
    requires e.kind == Hostile.Heavy && e.behaviour == Hostile.Retreat
    requires e.box.y <= -e.box.height && e.box.y < field.height + 50.0
    ensures KeepEnemy(e, field)
    ensures !KeepEnemy(e.(kind := Hostile.Scout, behaviour := Hostile.Escaping), field)
  {
    assert Hostile.BehaviourName(Hostile.Retreat) == "retreat";
    assert "retreat" != "retreating" by {
      assert |"retreat"| != |"retreating"|;
    }
    assert "retreat" != "escaping" by {
      assert "retreat"[0] != "escaping"[0];
    }
  }

  datatype Fleet = Fleet(enemies: seq<Hostile.Enemy>, shots: seq<Projectile.Bullet>, rng: Rng)

  lemma KeptCons(e: Hostile.Enemy, es: seq<Hostile.Enemy>, field: Field)
    requires KeepEnemy(e, field)
    requires forall i :: 0 <= i < |es| ==> KeepEnemy(es[i], field)
    ensures forall i :: 0 <= i < |[e] + es| ==> KeepEnemy(([e] + es)[i], field)
  {
    forall i | 0 <= i < |[e] + es| ensures KeepEnemy(([e] + es)[i], field) {
      if i > 0 { assert ([e] + es)[i] == es[i - 1]; }
    }
  }

  /** Updates every hostile in order, collecting the projectiles they fire
      (fired even by a hostile that is then pruned), and prunes. */
  function AdvanceEnemies(es: seq<Hostile.Enemy>, field: Field, t: Trig, player: Box, rng: Rng): (f: Fleet)
    ensures |f.enemies| <= |es|
    ensures forall i :: 0 <= i < |f.enemies| ==> KeepEnemy(f.enemies[i], field)
    ensures Alive(es) ==> Alive(f.enemies)
    decreases |es|
  {
    if |es| == 0 then Fleet([], [], rng)
    else
      var one := StepEnemy(es[0], field, t, player, rng);
      var rest := AdvanceEnemies(es[1..], field, t, player, one.rng);
      var e := one.enemies[0];
      assert Alive(es) ==> Alive([e]) && Alive(es[1..]);
      if KeepEnemy(e, field) then
        KeptCons(e, rest.enemies, field);
        assert Alive(es) ==> Alive([e] + rest.enemies) by {
          if Alive(es) { AliveConcat([e], rest.enemies); }
        }
        Fleet([e] + rest.enemies, one.shots + rest.shots, rest.rng)
      else Fleet(rest.enemies, one.shots + rest.shots, rest.rng)
  }

  /** One hostile's update with its three draws. */
  function StepEnemy(e: Hostile.Enemy, field: Field, t: Trig, player: Box, rng: Rng): (f: Fleet)
    ensures |f.enemies| == 1
    ensures Hostile.Consistent(e) && e.health > 0 ==> Hostile.Consistent(f.enemies[0]) && f.enemies[0].health > 0
  {
    var (jitter, r1) := rng.Next();
    var (tx, r2) := r1.Next();
    var (ty, r3) := r2.Next();
    var tick := Hostile.Update(e, field, t, player, jitter, tx, ty);
    Fleet([tick.enemy], tick.shots, r3)
  }

  /** Updates every pickup and drops those that used up their bounces. */
  function AdvancePickups(ps: seq<Pickup.PowerUp>, field: Field): (r: seq<Pickup.PowerUp>)
    ensures |r| <= |ps|
    ensures forall i :: 0 <= i < |r| ==> !Pickup.ShouldRemove(r[i])
    decreases |ps|
  {
    if |ps| == 0 then []
    else
      var p := Pickup.Update(ps[0], field);
      var rest := AdvancePickups(ps[1..], field);
      if Pickup.ShouldRemove(p) then rest else [p] + rest
  }

  // ---------------------------------------------------------------------
  // Kills

  /** What a kill leaves behind besides the counters: a possible pickup at the
      hostile's centre (a draw below 0.3) and a boss entering above the top
      edge when the kill count calls for one. */
  datatype Spoils = Spoils(tally: Scoring.Tally, drops: seq<Pickup.PowerUp>, bosses: seq<Hostile.Enemy>, rng: Rng)

  function Slay(t: Scoring.Tally, e: Hostile.Enemy, field: Field, rng: Rng): (sp: Spoils)
    ensures sp.tally == Scoring.RecordKill(t, e.kind).tally
    ensures |sp.drops| <= 1
    ensures |sp.drops| == 1 <==> rng.Next().0 < DropChance
    ensures forall j :: 0 <= j < |sp.drops| ==>
      sp.drops[j].box.x == e.box.CentreX() && sp.drops[j].box.y == e.box.CentreY() && sp.drops[j].bounces == 0
    ensures |sp.bosses| == (if Scoring.RecordKill(t, e.kind).bossDue then 1 else 0)
    ensures Alive(sp.bosses)
    ensures forall j :: 0 <= j < |sp.bosses| ==> sp.bosses[j].kind == Hostile.Boss && sp.bosses[j].box.y == BossY
  {
    var k := Scoring.RecordKill(t, e.kind);
    var (dropRoll, r1) := rng.Next();
    var (vxDraw, r2) := r1.Next();
    var (kindDraw, r3) := r2.Next();
    var drops := if dropRoll < DropChance then [Pickup.New(e.box.CentreX(), e.box.CentreY(), vxDraw, kindDraw)] else [];
    var (bossX, r4) := r3.Next();
    var (timerDraw, r5) := r4.Next();
    var bosses := if k.bossDue then [Hostile.New(Hostile.Boss, bossX * (field.width - BossMargin), BossY, timerDraw)] else [];
    Spoils(k.tally, drops, bosses, r5)
  }

  /** Damage dealt by a projectile: 2 for a homing missile, 1 otherwise. */
  function ShotDamage(k: Projectile.Kind): (d: nat)
    ensures d == 2 <==> k == Projectile.Tracking
    ensures 1 <= d <= 2
  {
    if k == Projectile.Tracking then 2 else 1
  }

  /** The part of the state the player's projectiles act on: the counters,
      the player's projectiles, the hostiles and the pickups. */
  datatype Battle = Battle(tally: Scoring.Tally, bullets: seq<Projectile.Bullet>,
                           enemies: seq<Hostile.Enemy>, pickups: seq<Pickup.PowerUp>)

  datatype Clash = Clash(w: Battle, rng: Rng)

  /** Hostile `i` takes `d` damage; a survivor stays in its place, a dead one
      leaves the list, the kill is booked, and its drop and boss are
      appended. */
  function Strike(w: Battle, i: nat, d: nat, field: Field, rng: Rng): (o: Clash)
    requires i < |w.enemies| && Alive(w.enemies)
    ensures Alive(o.w.enemies)
    ensures o.w.bullets == w.bullets
    ensures var hit := Hostile.TakeDamage(w.enemies[i], d, rng.Next().0);
      if hit.dead then
        && o.w.tally == Scoring.RecordKill(w.tally, w.enemies[i].kind).tally
        && |o.w.enemies| >= |w.enemies| - 1
        && o.w.enemies[..|w.enemies| - 1] == w.enemies[..i] + w.enemies[i + 1..]
      else
        o.w == w.(enemies := w.enemies[i := hit.enemy])
    ensures |w.pickups| <= |o.w.pickups| <= |w.pickups| + 1 && o.w.pickups[..|w.pickups|] == w.pickups
    ensures w.tally.total <= o.w.tally.total <= w.tally.total + 1
    ensures o.w.tally.score >= w.tally.score && o.w.tally.level >= w.tally.level
    ensures Scoring.LevelOk(w.tally) ==> Scoring.LevelOk(o.w.tally)
  {
    var (roll, r1) := rng.Next();
    var e := w.enemies[i];
    var hit := Hostile.TakeDamage(e, d, roll);
    if !hit.dead then Clash(w.(enemies := w.enemies[i := hit.enemy]), r1)
    else
      var sp := Slay(w.tally, e, field, r1);
      var rest := w.enemies[..i] + w.enemies[i + 1..];
      assert Alive(rest) by {
        forall j | 0 <= j < |rest| ensures Hostile.Consistent(rest[j]) && rest[j].health > 0 {
          if j < i { assert rest[j] == w.enemies[j]; } else { assert rest[j] == w.enemies[j + 1]; }
        }
      }
      AliveConcat(rest, sp.bosses);
      assert (rest + sp.bosses)[..|w.enemies| - 1] == rest;
      Clash(Battle(sp.tally, w.bullets, rest + sp.bosses, w.pickups + sp.drops), sp.rng)
  }

  // ---------------------------------------------------------------------
  // Collision sweeps

  /** The first hostile whose box overlaps `b`. */
  function FirstHit(b: Box, es: seq<Hostile.Enemy>): (r: Option<nat>)
    ensures r.None? <==> forall i :: 0 <= i < |es| ==> !Overlaps(b, es[i].box)
    ensures r.Some? ==>
      && r.value < |es| && Overlaps(b, es[r.value].box)
      && (forall i :: 0 <= i < r.value ==> !Overlaps(b, es[i].box))
  {
    FirstWhere((e: Hostile.Enemy) => Overlaps(b, e.box), es)
  }

  /** One of the player's projectiles against the hostiles: it is used up by
      the first hostile it overlaps, or kept when it overlaps none. */
  function Impact(b: Projectile.Bullet, w: Battle, field: Field, rng: Rng): (o: Clash)
    requires Alive(w.enemies)
    ensures Alive(o.w.enemies)
    ensures || (o.w.bullets == w.bullets + [b] && o.w.tally == w.tally)
            || (o.w.bullets == w.bullets && w.tally.total <= o.w.tally.total <= w.tally.total + 1)
    ensures o.w.tally.score >= w.tally.score && o.w.tally.level >= w.tally.level
    ensures Scoring.LevelOk(w.tally) ==> Scoring.LevelOk(o.w.tally)
    ensures w.enemies == [] ==> o == Clash(w.(bullets := w.bullets + [b]), rng)
  {
    match FirstHit(b.box, w.enemies)
    case None => Clash(w.(bullets := w.bullets + [b]), rng)
    case Some(i) => Strike(w, i, ShotDamage(b.kind), field, rng)
  }

  /** The player's projectiles against the hostiles: each projectile, in
      order, is used up by the first hostile it overlaps, which takes 2
      damage from a homing missile and 1 from anything else. `w.bullets`
      holds the survivors so far. Every kill uses up a projectile. */
  function ShotsHitEnemies(bs: seq<Projectile.Bullet>, w: Battle, field: Field, rng: Rng): (o: Clash)
    requires Alive(w.enemies)
    ensures Alive(o.w.enemies)
    ensures |w.bullets| <= |o.w.bullets| <= |w.bullets| + |bs| && o.w.bullets[..|w.bullets|] == w.bullets
    ensures w.tally.total <= o.w.tally.total <= w.tally.total + (|w.bullets| + |bs| - |o.w.bullets|)
    ensures o.w.tally.score >= w.tally.score && o.w.tally.level >= w.tally.level
    ensures Scoring.LevelOk(w.tally) ==> Scoring.LevelOk(o.w.tally)
    decreases |bs|
  {
    if |bs| == 0 then Clash(w, rng)
    else
      var o1 := Impact(bs[0], w, field, rng);
      var o := ShotsHitEnemies(bs[1..], o1.w, field, o1.rng);
      assert o.w.bullets[..|w.bullets|] == (o.w.bullets[..|o1.w.bullets|])[..|w.bullets|];
      assert bs == [bs[0]] + bs[1..];
      o
  }

  /** With no hostiles on the field every projectile survives, in order, and
      nothing else changes. */
  lemma {:induction false} NoTargetsAllSurvive(bs: seq<Projectile.Bullet>, w: Battle, field: Field, rng: Rng)
    requires w.enemies == []
    ensures ShotsHitEnemies(bs, w, field, rng).w == w.(bullets := w.bullets + bs)
    decreases |bs|
  {
    if |bs| > 0 {
      var w1 := w.(bullets := w.bullets + [bs[0]]);
      assert ShotsHitEnemies(bs, w, field, rng) == ShotsHitEnemies(bs[1..], w1, field, rng);
      NoTargetsAllSurvive(bs[1..], w1, field, rng);
      assert w1.bullets + bs[1..] == w.bullets + bs;
    }
  }

  lemma RefreshOk(buffs: seq<PlayerRules.Buff>, k: Pickup.Kind)
    requires BuffsOk(buffs)
    ensures BuffsOk(PlayerRules.Refresh(buffs, k))
  {
    var r := PlayerRules.Refresh(buffs, k);
    forall i | 0 <= i < |r| ensures 1 <= r[i].timer <= PlayerRules.BuffTicks {
      if r[i].kind != k {
        assert r[i] == buffs[i];
      }
    }
  }

  /** The loadout a running game keeps: at least one and at most five lives,
      a tier in 1..5 and well-formed buffs. */
  predicate LoadoutOk(l: PlayerRules.Loadout)
  {
    1 <= l.lives <= PlayerRules.MaxLives && 1 <= l.bulletLevel <= PlayerRules.MaxBulletLevel && BuffsOk(l.buffs)
  }

  /** The player's loadout and the pickups left on the field. */
  datatype Haul = Haul(l: PlayerRules.Loadout, pickups: seq<Pickup.PowerUp>)

  /** The player collects the pickups it overlaps, in order; `kept` holds the
      pickups passed over so far. */
  function Collect(ps: seq<Pickup.PowerUp>, player: Box, l: PlayerRules.Loadout, kept: seq<Pickup.PowerUp>): (r: Haul)
    ensures |r.pickups| <= |kept| + |ps|
    ensures forall k :: PlayerRules.HasBuff(l.buffs, k) ==> PlayerRules.HasBuff(r.l.buffs, k)
    ensures LoadoutOk(l) ==> LoadoutOk(r.l) && r.l.lives >= l.lives && r.l.bulletLevel >= l.bulletLevel
    ensures (forall i :: 0 <= i < |ps| ==> !Overlaps(player, ps[i].box)) ==> r == Haul(l, kept + ps)
    decreases |ps|
  {
    if |ps| == 0 then Haul(l, kept)
    else
      var p := ps[0];
      assert ps == [p] + ps[1..];
      if Overlaps(player, p.box) then
        var l1 := PlayerRules.ApplyPickup(l, p.kind);
        assert BuffsOk(l.buffs) ==> BuffsOk(l1.buffs) by {
          if BuffsOk(l.buffs) { RefreshOk(l.buffs, p.kind); }
        }
        Collect(ps[1..], player, l1, kept)
      else Collect(ps[1..], player, l, kept + [p])
  }

  /** The first hostile projectile that overlaps `b` and can be cancelled. */
  function FirstCancel(b: Box, qs: seq<Projectile.Bullet>): (r: Option<nat>)
    ensures r.None? <==> forall i :: 0 <= i < |qs| ==> !(Overlaps(b, qs[i].box) && Projectile.Cancellable(qs[i].kind))
    ensures r.Some? ==>
      && r.value < |qs| && Overlaps(b, qs[r.value].box) && Projectile.Cancellable(qs[r.value].kind)
      && (forall i :: 0 <= i < r.value ==> !(Overlaps(b, qs[i].box) && Projectile.Cancellable(qs[i].kind)))
  {
    FirstWhere((q: Projectile.Bullet) => Overlaps(b, q.box) && Projectile.Cancellable(q.kind), qs)
  }

  /** Removing a cancellable projectile keeps every one that cannot be
      cancelled. */
  lemma CancelKeepsOthers(qs: seq<Projectile.Bullet>, j: nat)
    requires j < |qs| && Projectile.Cancellable(qs[j].kind)
    ensures forall q :: q in qs && !Projectile.Cancellable(q.kind) ==> q in qs[..j] + qs[j + 1..]
  {
    var rest := qs[..j] + qs[j + 1..];
    forall q | q in qs && !Projectile.Cancellable(q.kind) ensures q in rest {
      var m :| 0 <= m < |qs| && qs[m] == q;
      if m < j { assert rest[m] == q; } else { assert rest[m - 1] == q; }
    }
  }

  /** The two projectile lists and the score, as the cancel sweep sees them. */
  datatype Duel = Duel(bullets: seq<Projectile.Bullet>, enemyBullets: seq<Projectile.Bullet>, score: int)

  /** Player projectiles against hostile projectiles: each player projectile,
      in order, cancels the first cancellable hostile projectile it overlaps;
      both vanish and the score gains 5. `d.bullets` holds the survivors so
      far. Projectiles that cannot be cancelled are never removed. */
  function Cancel(ps: seq<Projectile.Bullet>, d: Duel): (r: Duel)
    ensures |r.bullets| <= |d.bullets| + |ps|
    ensures var pairs := |d.bullets| + |ps| - |r.bullets|;
      |r.enemyBullets| == |d.enemyBullets| - pairs && r.score == d.score + CancelBonus * pairs
    ensures forall q :: q in d.enemyBullets && !Projectile.Cancellable(q.kind) ==> q in r.enemyBullets
    decreases |ps|
  {
    if |ps| == 0 then d
    else
      match FirstCancel(ps[0].box, d.enemyBullets)
      case None => Cancel(ps[1..], d.(bullets := d.bullets + [ps[0]]))
      case Some(j) =>
        var qs := d.enemyBullets[..j] + d.enemyBullets[j + 1..];
        CancelKeepsOthers(d.enemyBullets, j);
        Cancel(ps[1..], Duel(d.bullets, qs, d.score + CancelBonus))
  }

  /** A hostile hit on a vulnerable player: a shield absorbs it; otherwise a
      life goes, and the game ends when none is left or the player respawns. */
  function Hurt(s: State, field: Field): (r: State)
    ensures r == s.(lives := r.lives, gameOver := r.gameOver, bulletLevel := r.bulletLevel, player := r.player, respawn := r.respawn)
    ensures PlayerRules.HasBuff(s.buffs, Pickup.Shield) ==> r == s
    ensures !PlayerRules.HasBuff(s.buffs, Pickup.Shield) ==> r.lives == s.lives - 1
    ensures !PlayerRules.HasBuff(s.buffs, Pickup.Shield) && r.lives > 0 ==> r == Respawn(s.(lives := r.lives), field)
    ensures CountersOk(s) ==> CountersOk(r)
  {
    if PlayerRules.HasBuff(s.buffs, Pickup.Shield) then s
    else
      var s1 := s.(lives := s.lives - 1);
      if s1.lives <= 0 then s1.(gameOver := true) else Respawn(s1, field)
  }

  /** One hostile projectile against the player: one that overlaps a
      vulnerable player is used up and hurts; any other stays. */
  function Graze(b: Projectile.Bullet, s: State, field: Field): (r: State)
    ensures r == s.(lives := r.lives, gameOver := r.gameOver, bulletLevel := r.bulletLevel,
                    player := r.player, respawn := r.respawn, enemyBullets := r.enemyBullets)
    ensures r.enemyBullets == s.enemyBullets || r.enemyBullets == s.enemyBullets + [b]
    ensures s.invulnerable ==> r == s.(enemyBullets := s.enemyBullets + [b])
    ensures PlayerRules.HasBuff(s.buffs, Pickup.Shield) ==> r.lives == s.lives && r.gameOver == s.gameOver
    ensures !PlayerRules.HasBuff(s.buffs, Pickup.Shield) ==>
      r.lives == s.lives - (|s.enemyBullets| + 1 - |r.enemyBullets|)
    ensures CountersOk(s) ==> CountersOk(r)
  {
    if Overlaps(b.box, s.player) && !s.invulnerable then Hurt(s, field)
    else s.(enemyBullets := s.enemyBullets + [b])
  }

  /** Hostile projectiles against the player, in order: while the player is
      invulnerable nothing happens; otherwise each overlapping projectile is
      used up and costs a life unless a shield absorbs it. The sweep goes on
      after the game ends, so two hits in the last frame leave the lives
      below zero. */
  function ShotsHitPlayer(bs: seq<Projectile.Bullet>, s: State, field: Field): (r: State)
    ensures r == s.(lives := r.lives, gameOver := r.gameOver, bulletLevel := r.bulletLevel,
                    player := r.player, respawn := r.respawn, enemyBullets := r.enemyBullets)
    ensures |r.enemyBullets| <= |s.enemyBullets| + |bs|
    ensures s.invulnerable ==> r == s.(enemyBullets := s.enemyBullets + bs)
    ensures PlayerRules.HasBuff(s.buffs, Pickup.Shield) ==> r.lives == s.lives && r.gameOver == s.gameOver
    ensures !PlayerRules.HasBuff(s.buffs, Pickup.Shield) ==>
      r.lives == s.lives - (|s.enemyBullets| + |bs| - |r.enemyBullets|)
    ensures CountersOk(s) ==> CountersOk(r)
    decreases |bs|
  {
    if |bs| == 0 then s
    else
      ShotsHitPlayer(bs[1..], Graze(bs[0], s, field), field)
  }

  /** One hostile against the player: one that rams a vulnerable player is
      removed and hurts; any other stays. */
  function Ram(e: Hostile.Enemy, s: State, field: Field): (r: State)
    ensures r == s.(lives := r.lives, gameOver := r.gameOver, bulletLevel := r.bulletLevel,
                    player := r.player, respawn := r.respawn, enemies := r.enemies)
    ensures r.enemies == s.enemies || r.enemies == s.enemies + [e]
    ensures s.invulnerable ==> r == s.(enemies := s.enemies + [e])
    ensures PlayerRules.HasBuff(s.buffs, Pickup.Shield) ==> r.lives == s.lives && r.gameOver == s.gameOver
    ensures !PlayerRules.HasBuff(s.buffs, Pickup.Shield) ==>
      r.lives == s.lives - (|s.enemies| + 1 - |r.enemies|)
    ensures CountersOk(s) ==> CountersOk(r)
  {
    if Overlaps(e.box, s.player) && !s.invulnerable then Hurt(s, field)
    else s.(enemies := s.enemies + [e])
  }

  /** Hostiles ramming the player, in order, under the same rules; a hostile
      that rams is removed without counting as a kill. */
  function BodiesHitPlayer(es: seq<Hostile.Enemy>, s: State, field: Field): (r: State)
    ensures r == s.(lives := r.lives, gameOver := r.gameOver, bulletLevel := r.bulletLevel,
                    player := r.player, respawn := r.respawn, enemies := r.enemies)
    ensures |r.enemies| <= |s.enemies| + |es|
    ensures s.invulnerable ==> r == s.(enemies := s.enemies + es)
    ensures PlayerRules.HasBuff(s.buffs, Pickup.Shield) ==> r.lives == s.lives && r.gameOver == s.gameOver
    ensures !PlayerRules.HasBuff(s.buffs, Pickup.Shield) ==>
      r.lives == s.lives - (|s.enemies| + |es| - |r.enemies|)
    ensures CountersOk(s) ==> CountersOk(r)
    ensures Alive(s.enemies) && Alive(es) ==> Alive(r.enemies)
    decreases |es|
  {
    if |es| == 0 then s
    else
      var s1 := Ram(es[0], s, field);
      assert Alive(s.enemies) && Alive(es) ==> Alive(s1.enemies) by {
        if Alive(s.enemies) && Alive(es) && s1.enemies != s.enemies { AliveConcat(s.enemies, es[..1]); assert es[..1] == [es[0]]; }
      }
      BodiesHitPlayer(es[1..], s1, field)
  }

  // ---------------------------------------------------------------------
  // Protection rings

  /** The hostile projectiles outside the ring's band; those inside vanish. */
  function ClearBand(ring: ProtectionRing.Ring, bs: seq<Projectile.Bullet>): (r: seq<Projectile.Bullet>)
    ensures |r| <= |bs|
    ensures forall b :: b in r <==> b in bs && !ProtectionRing.InBand(ring, b.box)
    decreases |bs|
  {
    if |bs| == 0 then []
    else
      var rest := ClearBand(ring, bs[1..]);
      assert bs == [bs[0]] + bs[1..];
      if ProtectionRing.InBand(ring, bs[0].box) then rest else [bs[0]] + rest
  }

  /** The part of the state the rings touch. */
  datatype Arena = Arena(
    tally: Scoring.Tally,
    enemies: seq<Hostile.Enemy>,
    enemyBullets: seq<Projectile.Bullet>,
    pickups: seq<Pickup.PowerUp>,
    rings: seq<ProtectionRing.Ring>)

  /** An arena and the random stream after the draws a sweep consumed. */
  datatype Swept = Swept(a: Arena, rng: Rng)

  /** One ring against the hostiles present when it started: each one in its
      band takes 50 damage, and a killed one is booked like any other kill.
      `done` holds the hostiles already visited and `born` the bosses called
      in meanwhile, which this ring does not visit. */
  function RingSweep(ring: ProtectionRing.Ring, pending: seq<Hostile.Enemy>, done: seq<Hostile.Enemy>,
                     born: seq<Hostile.Enemy>, a: Arena, field: Field, rng: Rng): (o: Swept)
    requires Alive(pending) && Alive(done) && Alive(born)
    ensures o.a.enemyBullets == a.enemyBullets && o.a.rings == a.rings
    ensures Alive(o.a.enemies)
    ensures Scoring.LevelOk(a.tally) ==> Scoring.LevelOk(o.a.tally)
    ensures o.a.tally.score >= a.tally.score && o.a.tally.total >= a.tally.total && o.a.tally.level >= a.tally.level
    ensures !ring.active ==> o.a == a.(enemies := done + pending + born)
    decreases |pending|
  {
    if |pending| == 0 then
      AliveConcat(done, born);
      Swept(a.(enemies := done + born), rng)
    else
      var e := pending[0];
      assert Alive(pending[1..]);
      assert pending == [e] + pending[1..];
      if !ProtectionRing.InBand(ring, e.box) then
        AliveConcat(done, [e]);
        RingSweep(ring, pending[1..], done + [e], born, a, field, rng)
      else
        var (roll, r1) := rng.Next();
        var hit := Hostile.TakeDamage(e, ProtectionRing.Damage, roll);
        if !hit.dead then
          AliveConcat(done, [hit.enemy]);
          RingSweep(ring, pending[1..], done + [hit.enemy], born, a, field, r1)
        else
          var sp := Slay(a.tally, e, field, r1);
          AliveConcat(born, sp.bosses);
          RingSweep(ring, pending[1..], done, born + sp.bosses,
                    a.(tally := sp.tally, pickups := a.pickups + sp.drops), field, sp.rng)
  }

  /** One ring's frame: it grows, clears the hostile projectiles in its band,
      strikes the hostiles in its band, and is kept only while active. */
  function Pulse(ring: ProtectionRing.Ring, a: Arena, field: Field, rng: Rng): (o: Swept)
    requires Alive(a.enemies)
    ensures Alive(o.a.enemies)
    ensures |o.a.enemyBullets| <= |a.enemyBullets|
    ensures o.a.rings == a.rings || o.a.rings == a.rings + [ProtectionRing.Update(ring, field)]
    ensures o.a.rings != a.rings ==> ProtectionRing.Update(ring, field).active
    ensures ProtectionRing.Update(ring, field).active ==> o.a.rings == a.rings + [ProtectionRing.Update(ring, field)]
    ensures !ProtectionRing.Update(ring, field).active ==> o.a.rings == a.rings
    ensures Scoring.LevelOk(a.tally) ==> Scoring.LevelOk(o.a.tally)
    ensures o.a.tally.score >= a.tally.score && o.a.tally.total >= a.tally.total && o.a.tally.level >= a.tally.level
  {
    var next := ProtectionRing.Update(ring, field);
    var a1 := a.(enemyBullets := ClearBand(next, a.enemyBullets));
    var o := RingSweep(next, a1.enemies, [], [], a1, field, rng);
    Swept(o.a.(rings := if next.active then a.rings + [next] else a.rings), o.rng)
  }

  /** The rings still active once grown by one frame, in order. */
  function ActiveRings(rs: seq<ProtectionRing.Ring>, field: Field): (r: seq<ProtectionRing.Ring>)
    ensures |r| <= |rs|
    ensures forall i :: 0 <= i < |r| ==> r[i].active
    decreases |rs|
  {
    if |rs| == 0 then []
    else
      var next := ProtectionRing.Update(rs[0], field);
      (if next.active then [next] else []) + ActiveRings(rs[1..], field)
  }

  /** The rings, in order: each grows, clears the hostile projectiles in its
      band, strikes the hostiles in its band, and is dropped once inactive.
      `a.rings` holds the rings kept so far. */
  function RingsStep(rs: seq<ProtectionRing.Ring>, a: Arena, field: Field, rng: Rng): (o: Swept)
    requires Alive(a.enemies)
    ensures Alive(o.a.enemies)
    ensures |o.a.enemyBullets| <= |a.enemyBullets|
    ensures |a.rings| <= |o.a.rings| <= |a.rings| + |rs| && o.a.rings[..|a.rings|] == a.rings
    ensures forall i :: |a.rings| <= i < |o.a.rings| ==> o.a.rings[i].active
    ensures Scoring.LevelOk(a.tally) ==> Scoring.LevelOk(o.a.tally)
    ensures o.a.tally.score >= a.tally.score && o.a.tally.total >= a.tally.total && o.a.tally.level >= a.tally.level
    decreases |rs|
  {
    if |rs| == 0 then Swept(a, rng)
    else
      var o := Pulse(rs[0], a, field, rng);
      var o2 := RingsStep(rs[1..], o.a, field, o.rng);
      assert o2.a.rings[..|a.rings|] == (o2.a.rings[..|o.a.rings|])[..|a.rings|];
      assert forall i :: |a.rings| <= i < |o.a.rings| ==> o2.a.rings[i] == o.a.rings[i];
      o2
  }

  /** The rings kept after a frame are exactly the grown rings still active,
      in order. */
  lemma {:induction false} RingsKeepActive(rs: seq<ProtectionRing.Ring>, a: Arena, field: Field, rng: Rng)
    requires Alive(a.enemies)
    ensures RingsStep(rs, a, field, rng).a.rings == a.rings + ActiveRings(rs, field)
    decreases |rs|
  {
    if |rs| > 0 {
      var o := Pulse(rs[0], a, field, rng);
      var kept := RingsStepFirst(rs, a, field, rng);
      RingsKeepActive(rs[1..], o.a, field, o.rng);
      var rest := ActiveRings(rs[1..], field);
      assert a.rings + kept + rest == a.rings + (kept + rest);
    }
  }

  /** The first ring's pulse keeps `kept`, the grown first ring when it is
      still active; the rest of the frame starts from there. */
  lemma RingsStepFirst(rs: seq<ProtectionRing.Ring>, a: Arena, field: Field, rng: Rng) returns (kept: seq<ProtectionRing.Ring>)
    requires Alive(a.enemies) && |rs| > 0
    ensures var o := Pulse(rs[0], a, field, rng);
      && o.a.rings == a.rings + kept
      && ActiveRings(rs, field) == kept + ActiveRings(rs[1..], field)
      && RingsStep(rs, a, field, rng).a.rings == RingsStep(rs[1..], o.a, field, o.rng).a.rings
  {
    var next := ProtectionRing.Update(rs[0], field);
    kept := if next.active then [next] else [];
  }

  // ---------------------------------------------------------------------
  // The frame

  lemma TickBuffsOk(buffs: seq<PlayerRules.Buff>)
    requires BuffsOk(buffs)
    ensures BuffsOk(PlayerRules.TickBuffs(buffs))
  {
    var r := PlayerRules.TickBuffs(buffs);
    assert PlayerRules.TimersAtMost(r, PlayerRules.BuffTicks - 1);
    forall i | 0 <= i < |r| ensures r[i].timer <= PlayerRules.BuffTicks {
      assert r[i].timer <= PlayerRules.BuffTicks - 1;
    }
  }

  /** The buff countdown of a frame: every buff timer drops by one and the
      buffs that run out leave. */
  function CountDown(s: State): (r: State)
    ensures r == s.(buffs := r.buffs)
    ensures CountersOk(s) ==> CountersOk(r)
    ensures PlayerRules.WellTimed(s.buffs) ==>
      PlayerRules.TimerOf(r.buffs, Pickup.Shield) == MaxInt(PlayerRules.TimerOf(s.buffs, Pickup.Shield) - 1, 0)
  {
    var r := s.(buffs := PlayerRules.TickBuffs(s.buffs));
    assert CountersOk(s) ==> BuffsOk(r.buffs) by {
      if CountersOk(s) { TickBuffsOk(s.buffs); }
    }
    assert PlayerRules.WellTimed(s.buffs) ==>
      PlayerRules.TimerOf(r.buffs, Pickup.Shield) == MaxInt(PlayerRules.TimerOf(s.buffs, Pickup.Shield) - 1, 0) by {
      if PlayerRules.WellTimed(s.buffs) { PlayerRules.TickTimer(s.buffs, Pickup.Shield); }
    }
    r
  }

  /** The player's controls in a frame: timers, movement and fire. */
  function Handle(s: State, keys: Keys, field: Field, t: Trig): (r: State)
    ensures r.tally == s.tally && r.lives == s.lives && r.gameOver == s.gameOver && r.buffs == s.buffs
    ensures r.enemies == s.enemies && r.enemyBullets == s.enemyBullets && r.pickups == s.pickups && r.rings == s.rings
    ensures CountersOk(s) ==> CountersOk(r)
    ensures s.invulnerable && s.invulnerableTime > 1 ==> r.invulnerable
  {
    var s1 := Tick(s);
    var s2 := s1.(player := MovePlayer(s1.player, keys, field));
    assert CountersOk(s) ==> CountersOk(s2);
    Fire(s2, keys, t)
  }

  /** The player's part of a frame: invulnerability and charge timers,
      movement, fire, and the buff countdown. */
  function ShipPhase(s: State, keys: Keys, field: Field, t: Trig): (r: State)
    ensures r.tally == s.tally && r.lives == s.lives && r.gameOver == s.gameOver
    ensures r.enemies == s.enemies && r.enemyBullets == s.enemyBullets && r.pickups == s.pickups && r.rings == s.rings
    ensures CountersOk(s) ==> CountersOk(r)
    ensures s.invulnerable && s.invulnerableTime > 1 ==> r.invulnerable
    ensures PlayerRules.WellTimed(s.buffs) ==>
      PlayerRules.TimerOf(r.buffs, Pickup.Shield) == MaxInt(PlayerRules.TimerOf(s.buffs, Pickup.Shield) - 1, 0)
  {
    CountDown(Handle(s, keys, field, t))
  }

  /** The entities' part of a frame: projectiles, hostiles and pickups move
      and leave. Homing projectiles steer toward the hostiles as they were
      before the hostiles move. */
  function Advance(s: State, field: Field, t: Trig, rng: Rng): (o: Out)
    requires Alive(s.enemies)
    ensures Alive(o.s.enemies)
    ensures o.s == s.(bullets := o.s.bullets, enemyBullets := o.s.enemyBullets, enemies := o.s.enemies,
                      pickups := o.s.pickups)
    ensures o.s.tally == s.tally && o.s.lives == s.lives && o.s.buffs == s.buffs
    ensures o.s.invulnerable == s.invulnerable && o.s.gameOver == s.gameOver
    ensures CountersOk(s) ==> CountersOk(o.s)
  {
    var targets := Boxes(s.enemies);
    var mine := AdvanceShots(s.bullets, true, targets, field, t, rng);
    var theirs := AdvanceShots(s.enemyBullets, false, targets, field, t, mine.rng);
    var fleet := AdvanceEnemies(s.enemies, field, t, s.player, theirs.rng);
    Out(s.(bullets := mine.shots, enemyBullets := theirs.shots + fleet.shots, enemies := fleet.enemies,
           pickups := AdvancePickups(s.pickups, field)),
        fleet.rng)
  }

  /** The player's projectiles strike the hostiles, then the player collects
      pickups (including those just dropped). */
  function Offence(s: State, field: Field, rng: Rng): (o: Out)
    requires Alive(s.enemies)
    ensures Alive(o.s.enemies)
    ensures o.s.tally.score >= s.tally.score && o.s.tally.total >= s.tally.total && o.s.tally.level >= s.tally.level
    ensures CountersOk(s) && !s.gameOver ==> CountersOk(o.s) && !o.s.gameOver && o.s.lives >= s.lives
    ensures o.s.invulnerable == s.invulnerable && o.s.player == s.player
    ensures o.s.rings == s.rings && o.s.charge == s.charge
    ensures forall k :: PlayerRules.HasBuff(s.buffs, k) ==> PlayerRules.HasBuff(o.s.buffs, k)
  {
    var a := ShotsHitEnemies(s.bullets, Battle(s.tally, [], s.enemies, s.pickups), field, rng);
    var s1 := s.(tally := a.w.tally, bullets := a.w.bullets, enemies := a.w.enemies, pickups := a.w.pickups);
    assert CountersOk(s) ==> CountersOk(s1);
    var h := Collect(s1.pickups, s1.player, PlayerRules.Loadout(s1.lives, s1.bulletLevel, s1.buffs), []);
    var s2 := s1.(lives := h.l.lives, bulletLevel := h.l.bulletLevel, buffs := h.l.buffs, pickups := h.pickups);
    assert CountersOk(s1) && !s1.gameOver ==> CountersOk(s2) && !s2.gameOver;
    Out(s2, a.rng)
  }

  /** Projectiles cancel each other, then hostile projectiles and hostiles
      collide with the player. */
  function Defence(s: State, field: Field): (r: State)
    requires Alive(s.enemies)
    ensures Alive(r.enemies)
    ensures r.tally.score >= s.tally.score && r.tally.total == s.tally.total && r.tally.level == s.tally.level
    ensures CountersOk(s) ==> CountersOk(r)
    ensures r.rings == s.rings && r.charge == s.charge
    ensures s.invulnerable || PlayerRules.HasBuff(s.buffs, Pickup.Shield) ==> r.lives == s.lives
  {
    var c := Cancel(s.bullets, Duel([], s.enemyBullets, s.tally.score));
    var s7 := s.(bullets := c.bullets, enemyBullets := c.enemyBullets, tally := s.tally.(score := c.score));
    assert CountersOk(s) ==> CountersOk(s7);
    var s8 := ShotsHitPlayer(s7.enemyBullets, s7.(enemyBullets := []), field);
    AliveConcat([], s8.enemies);
    BodiesHitPlayer(s8.enemies, s8.(enemies := []), field)
  }

  /** The end of a frame: a random arrival, then the rings. */
  function Finish(s: State, field: Field, rng: Rng): (o: Out)
    requires Alive(s.enemies)
    ensures Alive(o.s.enemies)
    ensures o.s == s.(tally := o.s.tally, enemies := o.s.enemies, pickups := o.s.pickups,
                      enemyBullets := o.s.enemyBullets, rings := o.s.rings)
    ensures Scoring.LevelOk(s.tally) ==> Scoring.LevelOk(o.s.tally)
    ensures o.s.tally.score >= s.tally.score && o.s.tally.total >= s.tally.total && o.s.tally.level >= s.tally.level
    ensures o.s.lives == s.lives && (CountersOk(s) ==> CountersOk(o.s))
    ensures o.s.rings == ActiveRings(s.rings, field)
  {
    var (roll, r1) := rng.Next();
    var (xDraw, r2) := r1.Next();
    var (kindDraw, r3) := r2.Next();
    var (timerDraw, r4) := r3.Next();
    var arrivals := Spawning.Spawn(s.tally.level, field, roll, xDraw, kindDraw, timerDraw);
    AliveConcat(s.enemies, arrivals);
    var sw := RingsStep(s.rings, Arena(s.tally, s.enemies + arrivals, s.enemyBullets, s.pickups, []), field, r4);
    RingsKeepActive(s.rings, Arena(s.tally, s.enemies + arrivals, s.enemyBullets, s.pickups, []), field, r4);
    Out(s.(tally := sw.a.tally, enemies := sw.a.enemies, enemyBullets := sw.a.enemyBullets,
           pickups := sw.a.pickups, rings := sw.a.rings), sw.rng)
  }

  /** `update`: nothing happens once the game is over; otherwise one frame.
      Every frame keeps the invariant, never lowers the score, the kill count
      or the level, and costs no life while the player is invulnerable or
      shielded for the whole frame. */
  function Update(s: State, keys: Keys, field: Field, t: Trig, rng: Rng): (o: Out)
    requires Alive(s.enemies)
    ensures Alive(o.s.enemies)
    ensures s.gameOver ==> o.s == s && o.rng == rng
    ensures Inv(s) ==> Inv(o.s)
    ensures o.s.tally.score >= s.tally.score && o.s.tally.total >= s.tally.total && o.s.tally.level >= s.tally.level
  {
    if s.gameOver then Out(s, rng)
    else
      var s1 := ShipPhase(s, keys, field, t);
      var p := Advance(s1, field, t, rng);
      var a := Offence(p.s, field, p.rng);
      var d := Defence(a.s, field);
      Finish(d, field, a.rng)
  }

  /** The player's protection survives the steering and advancing phases. */
  lemma ProtectionSurvivesShipPhase(s: State, keys: Keys, field: Field, t: Trig, rng: Rng)
    requires Inv(s) && !s.gameOver
    requires (s.invulnerable && s.invulnerableTime > 1) || PlayerRules.TimerOf(s.buffs, Pickup.Shield) > 1
    ensures var p := Advance(ShipPhase(s, keys, field, t), field, t, rng).s;
      && CountersOk(p) && !p.gameOver && p.lives == s.lives
      && (p.invulnerable || PlayerRules.HasBuff(p.buffs, Pickup.Shield))
  {
    var s1 := ShipPhase(s, keys, field, t);
    if PlayerRules.TimerOf(s.buffs, Pickup.Shield) > 1 {
      assert PlayerRules.TimerOf(s1.buffs, Pickup.Shield) > 0;
    }
  }

  /** A player invulnerable or shielded for the whole frame loses no life in
      it: invulnerability with more than one frame left survives the timer
      tick, and so does a shield with more than one frame left. */
  lemma ProtectedFrame(s: State, keys: Keys, field: Field, t: Trig, rng: Rng)
    requires Inv(s)
    requires (s.invulnerable && s.invulnerableTime > 1) || PlayerRules.TimerOf(s.buffs, Pickup.Shield) > 1
    ensures Update(s, keys, field, t, rng).s.lives >= s.lives
  {
    if !s.gameOver {
      ProtectionSurvivesShipPhase(s, keys, field, t, rng);
    }
  }

  /** A whole animation frame: the queued respawn-animation frame runs first,
      then `update`. */
  function Frame(s: State, keys: Keys, field: Field, t: Trig, rng: Rng): (o: Out)
    requires Alive(s.enemies)
    ensures Inv(s) ==> Inv(o.s)
    ensures o.s.tally.score >= s.tally.score
  {
    var s1 := AnimTick(s, field);
    Update(s1, keys, field, t, rng)
  }

  // ---------------------------------------------------------------------
  // Key presses and restart

  /** `restartGame`: every counter, list and the player's position back to
      their initial values. The shot and missile timers are not reset, and a
      running respawn animation goes on. */
  function Restart(s: State, field: Field): (r: State)
    ensures r == Init(field).(shootTimer := s.shootTimer, missileTimer := s.missileTimer, respawn := s.respawn)
    ensures 0 <= s.respawn < RespawnFrames ==> Inv(r)
  {
    s.(tally := Scoring.Tally(0, 0, 0, 1, 10), lives := 3, gameOver := false, buffs := [],
       invulnerable := false, charge := PlayerRules.Charge(3, 0), invulnerableTime := 0,
       bulletLevel := 1, autoShoot := false, bullets := [], enemyBullets := [], enemies := [],
       pickups := [], rings := [],
       player := s.player.(x := field.width / 2.0 - 25.0, y := field.height - 80.0, width := 50.0, height := 30.0))
  }

  /** A key press (the lower-cased key name): any key restarts a finished
      game; otherwise `k` releases a protection ring and `j` toggles
      auto-fire. */
  function KeyDown(s: State, key: string, field: Field): (r: State)
    ensures s.gameOver ==> r == Restart(s, field)
    ensures !s.gameOver && key == "k" ==>
      var pulse := ProtectionRing.Release(s.charge, s.player);
      r == s.(charge := pulse.0, rings := s.rings + pulse.1)
    ensures !s.gameOver && key == "j" ==> r == s.(autoShoot := !s.autoShoot)
    ensures !s.gameOver && key != "k" && key != "j" ==> r == s
    ensures Inv(s) ==> Inv(r)
  {
    if s.gameOver then Restart(s, field)
    else if key == "k" then
      var pulse := ProtectionRing.Release(s.charge, s.player);
      s.(charge := pulse.0, rings := s.rings + pulse.1)
    else if key == "j" then s.(autoShoot := !s.autoShoot)
    else s
  }
}
