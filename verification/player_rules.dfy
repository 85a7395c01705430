/** The player's bookkeeping in game.js: the shot interval, the two volleys,
    pickup effects on lives, weapon tier and timed buffs, the buff countdown,
    and the defensive-charge resource with its recharge cooldown. */
module PlayerRules {
  import opened Prelude
  import opened Geometry
  import Pickup
  import Projectile

  const MaxLives: int := 5
  const MaxBulletLevel: int := 5
  const BuffTicks: int := 300
  const MaxCharges: int := 3
  const ChargeCooldown: int := 600
  const NormalShootInterval: int := 15
  const RapidShootInterval: int := 8
  const MinShootInterval: int := 5

  /** A timed effect of a `shield` or `rapidFire` pickup. */
  datatype Buff = Buff(kind: Pickup.Kind, timer: int)

  predicate HasBuff(buffs: seq<Buff>, k: Pickup.Kind)
  {
    exists i :: 0 <= i < |buffs| && buffs[i].kind == k
  }

  /** No two entries of the buff list share a type. */
  predicate UniqueKinds(buffs: seq<Buff>)
  {
    forall i, j :: 0 <= i < j < |buffs| ==> buffs[i].kind != buffs[j].kind
  }

  /** `getShootInterval`: ticks between volleys. A rapid-fire buff lowers the
      base from 15 to 8, each weapon tier takes off two more, never below 5. */
  function ShotInterval(buffs: seq<Buff>, bulletLevel: int): (n: int)
    ensures n >= MinShootInterval
    ensures bulletLevel >= 0 ==> n <= (if HasBuff(buffs, Pickup.RapidFire) then RapidShootInterval else NormalShootInterval)
    ensures n > MinShootInterval ==> n + 2 * bulletLevel == (if HasBuff(buffs, Pickup.RapidFire) then RapidShootInterval else NormalShootInterval)
    ensures n > MinShootInterval <==>
      (if HasBuff(buffs, Pickup.RapidFire) then RapidShootInterval else NormalShootInterval) - 2 * bulletLevel > MinShootInterval
  {
    var base := if HasBuff(buffs, Pickup.RapidFire) then RapidShootInterval else NormalShootInterval;
    MaxInt(base - bulletLevel * 2, MinShootInterval)
  }

  /** A higher weapon tier never fires more slowly, and neither does having a
      rapid-fire buff. */
  lemma ShotIntervalMonotone(buffs: seq<Buff>, with: seq<Buff>, l1: int, l2: int)
    requires l1 <= l2
    requires HasBuff(with, Pickup.RapidFire)
    ensures ShotInterval(buffs, l2) <= ShotInterval(buffs, l1)
    ensures ShotInterval(with, l1) <= ShotInterval(buffs, l1)
  {
  }

  /** Launch parameters of one player projectile, relative to the player box. */
  datatype Lane = Lane(kind: Projectile.Kind, dx: real, dy: real, speedFactor: real, angle: real)

  /** The regular lanes of `shoot`: one centre shot, two side shots from
      tier 1, and four more angled shots from tier 2, all of one kind. */
  function RegularLanes(w: real, bulletLevel: int, kind: Projectile.Kind): (ls: seq<Lane>)
    ensures |ls| == VolleySize(bulletLevel, false)
    ensures forall i :: 0 <= i < |ls| ==> ls[i].kind == kind
  {
    [Lane(kind, w / 2.0, 0.0, -1.0, 0.0)]
    + (if bulletLevel >= 1 then
         [Lane(kind, w * 0.25, 5.0, 0.9, -0.2), Lane(kind, w * 0.75, 5.0, 0.9, 0.2)]
       else [])
    + (if bulletLevel >= 2 then
         [Lane(kind, w * 0.15, 7.0, 0.7, -0.4), Lane(kind, w * 0.85, 7.0, 0.7, 0.4),
          Lane(kind, w * 0.35, 7.0, 0.85, -0.1), Lane(kind, w * 0.65, 7.0, 0.85, 0.1)]
       else [])
  }

  /** The four power-shot lanes added under rapid fire. */
  function PowerLanes(w: real): (ls: seq<Lane>)
    ensures |ls| == 4
    ensures forall i :: 0 <= i < |ls| ==> ls[i].kind == Projectile.PowerShot
  {
    [Lane(Projectile.PowerShot, w / 2.0 - 5.0, 3.0, 0.95, -0.15),
     Lane(Projectile.PowerShot, w / 2.0 + 5.0, 3.0, 0.95, 0.15),
     Lane(Projectile.PowerShot, w / 4.0, 5.0, 0.9, -0.3),
     Lane(Projectile.PowerShot, w * 3.0 / 4.0, 5.0, 0.9, 0.3)]
  }

  /** The lanes of `shoot`: the regular lanes, then the power shots under
      rapid fire. The regular shots are power shots only under rapid fire
      below tier 1. */
  function VolleyLanes(w: real, bulletLevel: int, rapid: bool): seq<Lane>
  {
    var kind := if rapid && bulletLevel < 1 then Projectile.PowerShot else Projectile.Player;
    RegularLanes(w, bulletLevel, kind) + (if rapid then PowerLanes(w) else [])
  }

  /** Creates the projectiles of a list of lanes fired from `player`. */
  function Launch(lanes: seq<Lane>, player: Box, speed: real, t: Trig): (bs: seq<Projectile.Bullet>)
    ensures |bs| == |lanes|
    ensures forall i :: 0 <= i < |bs| ==> bs[i].kind == lanes[i].kind
    decreases |lanes|
  {
    if |lanes| == 0 then []
    else
      var l := lanes[0];
      [Projectile.New(l.kind, player.x + l.dx, player.y + l.dy, speed * l.speedFactor, l.angle, t)]
      + Launch(lanes[1..], player, speed, t)
  }

  function VolleySize(bulletLevel: int, rapid: bool): int
  {
    1 + (if bulletLevel >= 1 then 2 else 0) + (if bulletLevel >= 2 then 4 else 0) + (if rapid then 4 else 0)
  }

  /** `shoot`: the player's volley. Its size is 1, plus 2 from tier 1, plus 4
      from tier 2, plus 4 power shots under rapid fire; the projectile speed is
      8 plus 2 per tier, plus 3 under rapid fire. */
  function Volley(player: Box, bulletLevel: int, rapid: bool, t: Trig): (bs: seq<Projectile.Bullet>)
    ensures |bs| == VolleySize(bulletLevel, rapid)
    ensures forall i :: 0 <= i < |bs| ==> Projectile.Upward(bs[i].kind)
    ensures bulletLevel >= 1 ==> forall i :: 0 <= i < |bs| - (if rapid then 4 else 0) ==> bs[i].kind == Projectile.Player
    ensures rapid ==> forall i :: |bs| - 4 <= i < |bs| ==> bs[i].kind == Projectile.PowerShot
    ensures !rapid ==> forall i :: 0 <= i < |bs| ==> bs[i].kind == Projectile.Player
  {
    var speed := 8.0 + bulletLevel as real * 2.0 + (if rapid then 3.0 else 0.0);
    Launch(VolleyLanes(player.width, bulletLevel, rapid), player, speed, t)
  }

  /** `shootTracking`: one tracking missile straight up, and from tier 1 five
      more around it (the source releases those 100 to 500 ms later; all take
      the launch point captured when the burst was triggered). */
  function TrackingVolley(player: Box, bulletLevel: int, t: Trig): (bs: seq<Projectile.Bullet>)
    ensures |bs| == if bulletLevel >= 1 then 6 else 1
    ensures forall i :: 0 <= i < |bs| ==> bs[i].kind == Projectile.Tracking
  {
    var cx := player.x + player.width / 2.0;
    var lanes := [Lane(Projectile.Tracking, cx - player.x, 0.0, 1.0, 0.0)]
      + (if bulletLevel >= 1 then
           [Lane(Projectile.Tracking, cx - 15.0 - player.x, 5.0, 1.0, -0.1),
            Lane(Projectile.Tracking, cx + 15.0 - player.x, 5.0, 1.0, 0.1),
            Lane(Projectile.Tracking, cx - 25.0 - player.x, 10.0, 1.0, -0.15),
            Lane(Projectile.Tracking, cx + 25.0 - player.x, 10.0, 1.0, 0.15),
            Lane(Projectile.Tracking, cx - player.x, 15.0, 1.0, 0.0)]
         else []);
    Launch(lanes, player, -12.0, t)
  }

  /** Membership in a list with one more entry in front. */
  lemma HasCons(b: Buff, rest: seq<Buff>)
    ensures forall k :: HasBuff([b] + rest, k) <==> b.kind == k || HasBuff(rest, k)
  {
    assert ([b] + rest)[0] == b;
    forall k ensures HasBuff([b] + rest, k) ==> b.kind == k || HasBuff(rest, k) {
      if HasBuff([b] + rest, k) && b.kind != k {
        var i :| 0 <= i < |[b] + rest| && ([b] + rest)[i].kind == k;
        assert rest[i - 1].kind == k;
      }
    }
    forall k | HasBuff(rest, k) ensures HasBuff([b] + rest, k) {
      var i :| 0 <= i < |rest| && rest[i].kind == k;
      assert ([b] + rest)[i + 1].kind == k;
    }
  }

  /** A list with one more entry in front has unique types exactly when the
      rest does and does not hold the new entry's type. */
  lemma UniqueCons(b: Buff, rest: seq<Buff>)
    ensures UniqueKinds([b] + rest) <==> UniqueKinds(rest) && !HasBuff(rest, b.kind)
  {
    var r := [b] + rest;
    if UniqueKinds(r) {
      forall i, j | 0 <= i < j < |rest| ensures rest[i].kind != rest[j].kind {
        assert r[i + 1] == rest[i] && r[j + 1] == rest[j];
      }
      forall i | 0 <= i < |rest| ensures rest[i].kind != b.kind {
        assert r[i + 1] == rest[i] && r[0] == b;
      }
    }
    if UniqueKinds(rest) && !HasBuff(rest, b.kind) {
      forall i, j | 0 <= i < j < |r| ensures r[i].kind != r[j].kind {
        if i == 0 {
          assert r[j] == rest[j - 1];
        } else {
          assert r[i] == rest[i - 1] && r[j] == rest[j - 1];
        }
      }
    }
  }

  /** A `shield` or `rapidFire` pickup: the first entry of that type gets its
      timer reset to 300, or a new entry is appended when there is none. */
  function Refresh(buffs: seq<Buff>, k: Pickup.Kind): (r: seq<Buff>)
    ensures |r| == if HasBuff(buffs, k) then |buffs| else |buffs| + 1
    ensures forall i :: 0 <= i < |buffs| && buffs[i].kind != k ==> r[i] == buffs[i]
    ensures forall i :: 0 <= i < |r| ==> r[i].kind == k || (i < |buffs| && r[i] == buffs[i])
    ensures forall k' :: HasBuff(r, k') <==> HasBuff(buffs, k') || k' == k
    ensures UniqueKinds(buffs) ==> UniqueKinds(r)
    ensures UniqueKinds(buffs) ==> forall i :: 0 <= i < |r| && r[i].kind == k ==> r[i].timer == BuffTicks
    decreases |buffs|
  {
    if |buffs| == 0 then
      HasCons(Buff(k, BuffTicks), []);
      assert [Buff(k, BuffTicks)] + [] == [Buff(k, BuffTicks)];
      [Buff(k, BuffTicks)]
    else
      var b := buffs[0];
      assert buffs == [b] + buffs[1..];
      HasCons(b, buffs[1..]);
      UniqueCons(b, buffs[1..]);
      if b.kind == k then
        var r := [b.(timer := BuffTicks)] + buffs[1..];
        HasCons(b.(timer := BuffTicks), buffs[1..]);
        UniqueCons(b.(timer := BuffTicks), buffs[1..]);
        r
      else
        var rest := Refresh(buffs[1..], k);
        HasCons(b, rest);
        UniqueCons(b, rest);
        [b] + rest
  }

  /** Every timer is at most `m`. */
  predicate TimersAtMost(buffs: seq<Buff>, m: int)
  {
    forall i :: 0 <= i < |buffs| ==> buffs[i].timer <= m
  }

  /** One tick of the buff list: every timer drops by one and entries whose
      timer is no longer positive are removed, order kept. */
  function TickBuffs(buffs: seq<Buff>): (r: seq<Buff>)
    ensures |r| <= |buffs|
    ensures forall i :: 0 <= i < |r| ==> r[i].timer >= 1
    ensures forall k :: HasBuff(r, k) ==> HasBuff(buffs, k)
    ensures UniqueKinds(buffs) ==> UniqueKinds(r)
    ensures forall m :: TimersAtMost(buffs, m) ==> TimersAtMost(r, m - 1)
    decreases |buffs|
  {
    if |buffs| == 0 then []
    else
      var b := buffs[0];
      assert buffs == [b] + buffs[1..];
      HasCons(b, buffs[1..]);
      UniqueCons(b, buffs[1..]);
      var rest := TickBuffs(buffs[1..]);
      assert forall m :: TimersAtMost(buffs, m) ==> TimersAtMost(buffs[1..], m) && b.timer <= m;
      if b.timer - 1 > 0 then
        HasCons(Buff(b.kind, b.timer - 1), rest);
        UniqueCons(Buff(b.kind, b.timer - 1), rest);
        [Buff(b.kind, b.timer - 1)] + rest
      else rest
  }

  /** The remaining ticks of the buff of type `k`, or 0 when it is absent. */
  function TimerOf(buffs: seq<Buff>, k: Pickup.Kind): (t: int)
    ensures (forall i :: 0 <= i < |buffs| ==> buffs[i].timer >= 1) ==> (t >= 0 && (t == 0 <==> !HasBuff(buffs, k)))
    decreases |buffs|
  {
    if |buffs| == 0 then 0
    else
      assert buffs == [buffs[0]] + buffs[1..];
      HasCons(buffs[0], buffs[1..]);
      if buffs[0].kind == k then buffs[0].timer
      else TimerOf(buffs[1..], k)
  }

  /** Unique types and live timers: the shape of the buff list in play. */
  predicate WellTimed(buffs: seq<Buff>)
  {
    UniqueKinds(buffs) && forall i :: 0 <= i < |buffs| ==> buffs[i].timer >= 1
  }

  /** A tick takes one off the buff's remaining time, and a buff with one tick
      left disappears. */
  lemma {:induction false} TickTimer(buffs: seq<Buff>, k: Pickup.Kind)
    requires WellTimed(buffs)
    ensures TimerOf(TickBuffs(buffs), k) == MaxInt(TimerOf(buffs, k) - 1, 0)
    decreases |buffs|
  {
    if |buffs| > 0 {
      var b, tail := buffs[0], buffs[1..];
      assert buffs == [b] + tail;
      UniqueCons(b, tail);
      assert WellTimed(tail);
      TickTimer(tail, k);
      var rest := TickBuffs(tail);
      if b.timer - 1 > 0 {
        var r := [Buff(b.kind, b.timer - 1)] + rest;
        assert TickBuffs(buffs) == r;
        assert r[0] == Buff(b.kind, b.timer - 1) && r[1..] == rest;
      } else {
        assert TickBuffs(buffs) == rest;
        if b.kind == k {
          assert !HasBuff(tail, k);
        }
      }
    }
  }

  function TickBuffsN(buffs: seq<Buff>, n: nat): seq<Buff>
    decreases n
  {
    if n == 0 then buffs else TickBuffsN(TickBuffs(buffs), n - 1)
  }

  /** With no pickups in between, a buff with `m` ticks left is still active
      after `n < m` ticks and gone after `m`: a fresh 300-tick shield is absent
      after 300 ticks. */
  lemma {:induction false} BuffExpires(buffs: seq<Buff>, k: Pickup.Kind, n: nat)
    requires WellTimed(buffs)
    ensures TimerOf(TickBuffsN(buffs, n), k) == MaxInt(TimerOf(buffs, k) - n, 0)
    ensures HasBuff(TickBuffsN(buffs, n), k) <==> TimerOf(buffs, k) > n
    decreases n
  {
    if n > 0 {
      TickTimer(buffs, k);
      var next := TickBuffs(buffs);
      assert WellTimed(next);
      BuffExpires(next, k, n - 1);
    }
  }

  /** The player's lives, weapon tier and timed buffs. */
  datatype Loadout = Loadout(lives: int, bulletLevel: int, buffs: seq<Buff>)

  /** `activatePowerUp`: `health` adds a life up to 5, `shield` and `rapidFire`
      start or refresh their buff, `bulletUpgrade` raises the tier up to 5. */
  function ApplyPickup(l: Loadout, k: Pickup.Kind): (r: Loadout)
    ensures k == Pickup.Health ==>
      r.bulletLevel == l.bulletLevel && r.buffs == l.buffs
      && r.lives <= MaxLives && (l.lives < MaxLives ==> r.lives == l.lives + 1)
      && (l.lives >= MaxLives ==> r.lives == MaxLives)
    ensures k == Pickup.BulletUpgrade ==>
      r.lives == l.lives && r.buffs == l.buffs
      && r.bulletLevel <= MaxBulletLevel && (l.bulletLevel < MaxBulletLevel ==> r.bulletLevel == l.bulletLevel + 1)
      && (l.bulletLevel >= MaxBulletLevel ==> r.bulletLevel == MaxBulletLevel)
    ensures k == Pickup.Shield || k == Pickup.RapidFire ==>
      r.lives == l.lives && r.bulletLevel == l.bulletLevel && r.buffs == Refresh(l.buffs, k)
  {
    match k
    case Health => l.(lives := MinInt(l.lives + 1, MaxLives))
    case Shield => l.(buffs := Refresh(l.buffs, k))
    case RapidFire => l.(buffs := Refresh(l.buffs, k))
    case BulletUpgrade => l.(bulletLevel := MinInt(l.bulletLevel + 1, MaxBulletLevel))
  }

  /** The defensive-charge resource: stored charges and the recharge cooldown. */
  datatype Charge = Charge(charges: int, cooldown: int)

  predicate ChargeOk(c: Charge)
  {
    0 <= c.charges <= MaxCharges && 0 <= c.cooldown <= ChargeCooldown
  }

  /** The per-tick recharge: a running cooldown counts down; an expired one
      grants a charge when below three and restarts at 600. */
  function TickCharge(c: Charge): (r: Charge)
    ensures ChargeOk(c) ==> ChargeOk(r)
    ensures r.charges == c.charges || r.charges == c.charges + 1
    ensures r.charges == c.charges + 1 <==> c.cooldown <= 0 && c.charges < MaxCharges
    ensures r.charges == c.charges + 1 ==> r.cooldown == ChargeCooldown
    ensures c.cooldown > 0 ==> r == c.(cooldown := c.cooldown - 1)
    ensures c.cooldown <= 0 && c.charges >= MaxCharges ==> r == c
  {
    if c.cooldown > 0 then c.(cooldown := c.cooldown - 1)
    else if c.charges < MaxCharges then Charge(c.charges + 1, ChargeCooldown)
    else c
  }

  function TickChargeN(c: Charge, n: nat): Charge
    decreases n
  {
    if n == 0 then c else TickChargeN(TickCharge(c), n - 1)
  }

  /** Below the cap, the next charge arrives exactly `cooldown + 1` ticks
      later, and the cooldown restarts then. */
  lemma {:induction false} RechargeTakesCooldown(c: Charge, n: nat)
    requires 0 <= c.charges < MaxCharges && c.cooldown >= 0
    ensures n <= c.cooldown ==> TickChargeN(c, n) == Charge(c.charges, c.cooldown - n)
    ensures n == c.cooldown + 1 ==> TickChargeN(c, n) == Charge(c.charges + 1, ChargeCooldown)
    decreases n
  {
    if n > 0 {
      if c.cooldown > 0 {
        RechargeTakesCooldown(TickCharge(c), n - 1);
      }
    }
  }

  /** `activateProtectionRing`'s guard: a pulse fires only with a charge in
      store and uses up exactly one. */
  function Spend(c: Charge): (r: (Charge, bool))
    ensures r.1 <==> c.charges > 0
    ensures r.1 ==> r.0 == c.(charges := c.charges - 1)
    ensures !r.1 ==> r.0 == c
    ensures ChargeOk(c) ==> ChargeOk(r.0)
  {
    if c.charges <= 0 then (c, false) else (c.(charges := c.charges - 1), true)
  }

  /** A charge spent while the cooldown is idle (all three stored) comes back
      on the very next tick rather than a cooldown later. */
  lemma IdleCooldownRefundsAtOnce(c: Charge)
    requires c.charges == MaxCharges && c.cooldown == 0
    ensures TickCharge(Spend(c).0) == Charge(MaxCharges, ChargeCooldown)
  {
  }
}
