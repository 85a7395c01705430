/** The per-kill bookkeeping of game.js: points by hostile type, the level
    counter and its growing kill quota, and the forced boss every 20 kills.
    The same bookkeeping follows a kill by a projectile and a kill by a
    protection ring. */
module Scoring {
  import Hostile

  const BossEvery: int := 20
  const FirstQuota: int := 10
  const QuotaStep: int := 5

  /** Points for a kill: 100 for a boss, 30 for a heavy, 20 for a fast
      hostile, 10 for any other. */
  function Points(k: Hostile.Kind): (p: int)
    ensures p >= 10
    ensures p == 100 <==> k == Hostile.Boss
    ensures k == Hostile.Heavy ==> p == 30
    ensures k == Hostile.Fast ==> p == 20
    ensures p == 10 <==> k != Hostile.Boss && k != Hostile.Heavy && k != Hostile.Fast
  {
    match k
    case Boss => 100
    case Heavy => 30
    case Fast => 20
    case _ => 10
  }

  /** Score, kills this level, kills overall, level, and this level's quota. */
  datatype Tally = Tally(score: int, killed: int, total: int, level: int, quota: int)

  /** The counters of a new game. */
  const Start: Tally := Tally(0, 0, 0, 1, FirstQuota)

  /** What the counters keep true: the quota of level `n` is `5n + 5`, the
      kills this level stay below it, and the totals are non-negative. */
  predicate LevelOk(t: Tally)
  {
    && t.level >= 1
    && t.quota == QuotaStep * t.level + QuotaStep
    && 0 <= t.killed < t.quota
    && t.total >= 0 && t.score >= 0
  }

  lemma StartOk()
    ensures LevelOk(Start)
  {
  }

  datatype Kill = Kill(tally: Tally, bossDue: bool)

  /** One kill: add the points, count the kill twice (this level and
      overall), ask for a boss when the overall count is a multiple of 20, and
      move to the next level with a quota five higher once this level's kills
      reach the quota. */
  function RecordKill(t: Tally, k: Hostile.Kind): (r: Kill)
    ensures r.tally.score == t.score + Points(k)
    ensures r.tally.total == t.total + 1
    ensures r.bossDue <==> (t.total + 1) % BossEvery == 0
    ensures t.killed + 1 >= t.quota ==>
      r.tally.level == t.level + 1 && r.tally.killed == 0 && r.tally.quota == t.quota + QuotaStep
    ensures t.killed + 1 < t.quota ==>
      r.tally.level == t.level && r.tally.killed == t.killed + 1 && r.tally.quota == t.quota
    ensures LevelOk(t) ==> LevelOk(r.tally)
  {
    var t1 := t.(score := t.score + Points(k), killed := t.killed + 1, total := t.total + 1);
    var t2 := if t1.killed >= t1.quota then t1.(level := t1.level + 1, killed := 0, quota := t1.quota + QuotaStep) else t1;
    Kill(t2, t2.total % BossEvery == 0)
  }

  /** A run of kills in order: the final counters and how many bosses were
      asked for. */
  datatype Run = Run(tally: Tally, bosses: nat)

  function RecordAll(t: Tally, ks: seq<Hostile.Kind>): Run
    decreases |ks|
  {
    if |ks| == 0 then Run(t, 0)
    else
      var k := RecordKill(t, ks[0]);
      var rest := RecordAll(k.tally, ks[1..]);
      Run(rest.tally, rest.bosses + (if k.bossDue then 1 else 0))
  }

  function SumPoints(ks: seq<Hostile.Kind>): int
    decreases |ks|
  {
    if |ks| == 0 then 0 else Points(ks[0]) + SumPoints(ks[1..])
  }

  /** One more kill raises `n / 20` by one exactly when it lands on a multiple
      of 20. */
  lemma DivStep(n: int)
    requires n >= 0
    ensures (n + 1) / BossEvery == n / BossEvery + (if (n + 1) % BossEvery == 0 then 1 else 0)
  {
    var q, r := n / BossEvery, n % BossEvery;
    assert n == BossEvery * q + r && 0 <= r < BossEvery;
    if r == BossEvery - 1 {
      assert n + 1 == BossEvery * (q + 1);
    } else {
      assert n + 1 == BossEvery * q + (r + 1);
    }
  }

  /** Over any run of kills the score grows by the points of the kills, and
      the number of bosses asked for is the number of multiples of 20 the
      overall count passes: one boss per 20 kills. */
  lemma {:induction false} BossEveryTwenty(t: Tally, ks: seq<Hostile.Kind>)
    requires t.total >= 0
    ensures RecordAll(t, ks).tally.total == t.total + |ks|
    ensures RecordAll(t, ks).tally.score == t.score + SumPoints(ks)
    ensures RecordAll(t, ks).bosses == (t.total + |ks|) / BossEvery - t.total / BossEvery
    decreases |ks|
  {
    if |ks| > 0 {
      var k := RecordKill(t, ks[0]);
      BossEveryTwenty(k.tally, ks[1..]);
      DivStep(t.total);
    }
  }

  /** Kills that stay below the quota keep the level and count up; the kill
      that reaches the quota moves to the next level with a fresh count and a
      quota five higher. */
  lemma {:induction false} QuotaClearsLevel(t: Tally, ks: seq<Hostile.Kind>)
    requires LevelOk(t) && t.killed + |ks| <= t.quota
    ensures var r := RecordAll(t, ks).tally;
      if t.killed + |ks| < t.quota then
        r.level == t.level && r.killed == t.killed + |ks| && r.quota == t.quota
      else
        r.level == t.level + 1 && r.killed == 0 && r.quota == t.quota + QuotaStep
    decreases |ks|
  {
    if |ks| > 0 {
      var k := RecordKill(t, ks[0]);
      if t.killed + 1 < t.quota {
        QuotaClearsLevel(k.tally, ks[1..]);
      } else {
        assert |ks| == 1;
        assert RecordAll(t, ks).tally == RecordAll(k.tally, ks[1..]).tally;
      }
    }
  }
}
