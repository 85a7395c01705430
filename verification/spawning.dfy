/** Random hostile arrivals (`spawnEnemy` and the spawn roll of game.js): the
    per-frame chance grows with the level, and the type is picked from bands
    of one draw, the armoured band widening with the level. A boss never
    arrives this way. */
module Spawning {
  import opened Prelude
  import opened Geometry
  import Hostile

  const SpawnY: real := -50.0
  const SpawnMargin: real := 40.0

  /** The chance per frame that a hostile arrives. */
  function SpawnRate(level: int): (p: real)
    ensures level >= 1 ==> p >= 0.015
  {
    (0.015 + (level - 1) as real * 0.005) * 1.0
  }

  /** Each level adds half a percent to the chance per frame. */
  lemma SpawnRateGrows(l1: int, l2: int)
    requires l1 <= l2
    ensures SpawnRate(l2) - SpawnRate(l1) == (l2 - l1) as real * 0.005
  {
  }

  /** The level's weight on the armoured band: a tenth of the level, at most 1. */
  function LevelFactor(level: int): (f: real)
    ensures f <= 1.0
    ensures level >= 10 ==> f == 1.0
    ensures level <= 10 ==> f == level as real / 10.0
  {
    MinReal(level as real / 10.0, 1.0)
  }

  /** The upper end of the armoured band. */
  function ArmouredBound(level: int): real
  {
    0.35 + LevelFactor(level) * 0.1
  }

  /** The type picked by a draw: fast below 0.15, heavy below 0.25, armoured
      below `0.35 + factor * 0.1`, scout below 0.45, the plain hostile above. */
  function SpawnKind(d: Draw, level: int): (k: Hostile.Kind)
    ensures k != Hostile.Boss
    ensures k == Hostile.Fast <==> d < 0.15
    ensures k == Hostile.Heavy <==> 0.15 <= d < 0.25
    ensures k == Hostile.Armored <==> 0.25 <= d < ArmouredBound(level)
    ensures k == Hostile.Scout <==> 0.25 <= d && ArmouredBound(level) <= d < 0.45
    ensures k == Hostile.Plain <==> 0.25 <= d && ArmouredBound(level) <= d && 0.45 <= d
  {
    if d < 0.15 then Hostile.Fast
    else if d < 0.25 then Hostile.Heavy
    else if d < ArmouredBound(level) then Hostile.Armored
    else if d < 0.45 then Hostile.Scout
    else Hostile.Plain
  }

  /** Climbing levels widens the armoured band at the scouts' expense: a draw
      that gives an armoured hostile keeps doing so later, and a draw that
      gives a scout gave one earlier too. */
  lemma HigherLevelMoreArmoured(d: Draw, l1: int, l2: int)
    requires l1 <= l2
    ensures SpawnKind(d, l1) == Hostile.Armored ==> SpawnKind(d, l2) == Hostile.Armored
    ensures SpawnKind(d, l2) == Hostile.Scout ==> SpawnKind(d, l1) == Hostile.Scout
  {
    assert LevelFactor(l1) <= LevelFactor(l2) by {
      assert l1 as real / 10.0 <= l2 as real / 10.0;
    }
  }

  /** From level 10 on, the armoured band reaches 0.45 and scouts no longer
      arrive. */
  lemma NoScoutsFromLevelTen(d: Draw, level: int)
    requires level >= 10
    ensures SpawnKind(d, level) != Hostile.Scout
  {
  }

  /** `spawnEnemy` behind the spawn roll: with a roll below the rate, one
      hostile of the picked type enters at a random x above the top edge. */
  function Spawn(level: int, field: Field, roll: Draw, xDraw: Draw, kindDraw: Draw, timerDraw: Draw): (es: seq<Hostile.Enemy>)
    ensures |es| == (if roll < SpawnRate(level) then 1 else 0)
    ensures forall i :: 0 <= i < |es| ==>
      && es[i] == Hostile.New(SpawnKind(kindDraw, level), xDraw * (field.width - SpawnMargin), SpawnY, timerDraw)
      && es[i].kind != Hostile.Boss
      && Hostile.Consistent(es[i]) && es[i].health > 0
  {
    if roll < SpawnRate(level) then
      [Hostile.New(SpawnKind(kindDraw, level), xDraw * (field.width - SpawnMargin), SpawnY, timerDraw)]
    else []
  }
}
