/** What the sweeps of a frame do to each entity they visit, and what the
    advancing steps keep: the one-step rules of the collision sweeps, the
    sweep-level consequences (a hit on an unprotected ship costs a life), and
    the pruning folds written as a filter over the updated entities. */
module GameLaws {
  import opened Prelude
  import opened Geometry
  import Projectile
  import Hostile
  import Pickup
  import PlayerRules
  import ProtectionRing
  import Scoring
  import Game

  // ---------------------------------------------------------------------
  // Advancing the entities

  /** Every projectile updated, each with the next draw of the stream. */
  function SteppedShots(bs: seq<Projectile.Bullet>, targets: seq<Box>, t: Trig, rng: Rng): (r: seq<Projectile.Bullet>)
    ensures |r| == |bs|
    decreases |bs|
  {
    if |bs| == 0 then []
    else
      var (roll, r1) := rng.Next();
      [Projectile.Update(bs[0], targets, t, roll)] + SteppedShots(bs[1..], targets, t, r1)
  }

  /** Advancing a projectile list is updating every projectile and keeping
      exactly those that pass the pruning rule, in order; one draw is read
      per projectile. */
  lemma {:induction false} AdvanceShotsFilters(bs: seq<Projectile.Bullet>, upward: bool, targets: seq<Box>,
                                               field: Field, t: Trig, rng: Rng)
    ensures var o := Game.AdvanceShots(bs, upward, targets, field, t, rng);
      && o.shots == Filter((b: Projectile.Bullet) => Game.KeepShot(b, upward, field), SteppedShots(bs, targets, t, rng))
      && o.rng == Rng(rng.dice, rng.pos + |bs|)
    ensures forall b :: b in SteppedShots(bs, targets, t, rng) && Game.KeepShot(b, upward, field) ==>
      b in Game.AdvanceShots(bs, upward, targets, field, t, rng).shots
    decreases |bs|
  {
    if |bs| > 0 {
      AdvanceShotsFilters(bs[1..], upward, targets, field, t, rng.Next().1);
    }
  }

  /** Every hostile updated, each with the next three draws of the stream. */
  function TickedEnemies(es: seq<Hostile.Enemy>, field: Field, t: Trig, player: Box, rng: Rng): (r: seq<Hostile.Tick>)
    ensures |r| == |es|
    decreases |es|
  {
    if |es| == 0 then []
    else
      var (jitter, r1) := rng.Next();
      var (tx, r2) := r1.Next();
      var (ty, r3) := r2.Next();
      [Hostile.Update(es[0], field, t, player, jitter, tx, ty)] + TickedEnemies(es[1..], field, t, player, r3)
  }

  /** The updated hostiles, in order. */
  function Moved(ts: seq<Hostile.Tick>): (r: seq<Hostile.Enemy>)
    ensures |r| == |ts| && forall i :: 0 <= i < |ts| ==> r[i] == ts[i].enemy
    decreases |ts|
  {
    if |ts| == 0 then [] else [ts[0].enemy] + Moved(ts[1..])
  }

  /** Everything the updated hostiles fire, hostile by hostile. */
  function Volleys(ts: seq<Hostile.Tick>): (r: seq<Projectile.Bullet>)
    ensures |ts| == 0 ==> r == []
    ensures |ts| > 0 ==> ts[0].shots <= r
    decreases |ts|
  {
    if |ts| == 0 then [] else ts[0].shots + Volleys(ts[1..])
  }

  /** Advancing the hostiles is updating every one of them and keeping
      exactly those that pass the pruning rule, in order; the projectiles
      fired are every updated hostile's volley in order, pruned or not, and
      three draws are read per hostile. */
  lemma {:induction false} AdvanceEnemiesFilters(es: seq<Hostile.Enemy>, field: Field, t: Trig, player: Box, rng: Rng)
    ensures var f := Game.AdvanceEnemies(es, field, t, player, rng);
      var ts := TickedEnemies(es, field, t, player, rng);
      && f.enemies == Filter((e: Hostile.Enemy) => Game.KeepEnemy(e, field), Moved(ts))
      && f.shots == Volleys(ts)
      && f.rng == Rng(rng.dice, rng.pos + 3 * |es|)
    ensures forall e :: e in Moved(TickedEnemies(es, field, t, player, rng)) && Game.KeepEnemy(e, field) ==>
      e in Game.AdvanceEnemies(es, field, t, player, rng).enemies
    decreases |es|
  {
    if |es| > 0 {
      var one := Game.StepEnemy(es[0], field, t, player, rng);
      AdvanceEnemiesFilters(es[1..], field, t, player, one.rng);
    }
  }

  /** Every pickup updated. */
  function MovedPickups(ps: seq<Pickup.PowerUp>, field: Field): (r: seq<Pickup.PowerUp>)
    ensures |r| == |ps| && forall i :: 0 <= i < |ps| ==> r[i] == Pickup.Update(ps[i], field)
    decreases |ps|
  {
    if |ps| == 0 then [] else [Pickup.Update(ps[0], field)] + MovedPickups(ps[1..], field)
  }

  /** Advancing the pickups is updating every one and keeping exactly those
      that have bounces left, in order. */
  lemma {:induction false} AdvancePickupsFilters(ps: seq<Pickup.PowerUp>, field: Field)
    ensures Game.AdvancePickups(ps, field) == Filter((p: Pickup.PowerUp) => !Pickup.ShouldRemove(p), MovedPickups(ps, field))
    ensures forall p :: p in MovedPickups(ps, field) && !Pickup.ShouldRemove(p) ==> p in Game.AdvancePickups(ps, field)
    decreases |ps|
  {
    if |ps| > 0 {
      AdvancePickupsFilters(ps[1..], field);
      assert MovedPickups(ps, field)[1..] == MovedPickups(ps[1..], field);
    }
  }

  // ---------------------------------------------------------------------
  // The player's projectiles against the hostiles

  /** A projectile overlapping no hostile survives; otherwise the first
      hostile it overlaps takes its damage: a survivor stays in place, a
      killed one leaves the list and the kill is booked. */
  lemma ImpactRule(b: Projectile.Bullet, w: Game.Battle, field: Field, rng: Rng)
    requires Game.Alive(w.enemies)
    ensures Game.ShotsHitEnemies([b], w, field, rng) == Game.Impact(b, w, field, rng)
    ensures var o := Game.Impact(b, w, field, rng);
      o.w.bullets == w.bullets + [b] <==> Game.FirstHit(b.box, w.enemies).None?
    ensures Game.FirstHit(b.box, w.enemies).Some? ==>
      var o := Game.Impact(b, w, field, rng);
      var i := Game.FirstHit(b.box, w.enemies).value;
      var hit := Hostile.TakeDamage(w.enemies[i], Game.ShotDamage(b.kind), rng.Next().0);
      && o.w.bullets == w.bullets
      && (!hit.dead ==> o.w == w.(enemies := w.enemies[i := hit.enemy]))
      && (hit.dead ==> o.w.tally == Scoring.RecordKill(w.tally, w.enemies[i].kind).tally
                       && o.w.enemies[..|w.enemies| - 1] == w.enemies[..i] + w.enemies[i + 1..])
  {
    var o := Game.Impact(b, w, field, rng);
    assert Game.ShotsHitEnemies([b], w, field, rng) == Game.ShotsHitEnemies([], o.w, field, o.rng);
    if Game.FirstHit(b.box, w.enemies).Some? {
      assert |o.w.bullets| != |w.bullets + [b]|;
    }
  }

  // ---------------------------------------------------------------------
  // Projectiles cancelling each other

  /** A player projectile overlapping no cancellable hostile projectile
      survives; otherwise it and the first one it overlaps both vanish and
      exactly 5 points are added. */
  lemma CancelRule(p: Projectile.Bullet, d: Game.Duel)
    ensures Game.Cancel([p], d).bullets == d.bullets + [p] <==> Game.FirstCancel(p.box, d.enemyBullets).None?
    ensures Game.FirstCancel(p.box, d.enemyBullets).None? ==> Game.Cancel([p], d) == d.(bullets := d.bullets + [p])
    ensures Game.FirstCancel(p.box, d.enemyBullets).Some? ==>
      var j := Game.FirstCancel(p.box, d.enemyBullets).value;
      Game.Cancel([p], d) == Game.Duel(d.bullets, d.enemyBullets[..j] + d.enemyBullets[j + 1..], d.score + Game.CancelBonus)
  {
    match Game.FirstCancel(p.box, d.enemyBullets)
    case None =>
      assert Game.Cancel([p], d) == Game.Cancel([], d.(bullets := d.bullets + [p]));
    case Some(j) =>
      var d1 := Game.Duel(d.bullets, d.enemyBullets[..j] + d.enemyBullets[j + 1..], d.score + Game.CancelBonus);
      assert Game.Cancel([p], d) == Game.Cancel([], d1);
      assert |d1.bullets| != |d.bullets + [p]|;
  }

  // ---------------------------------------------------------------------
  // Contact with the ship

  /** A hostile projectile on a vulnerable ship is used up and hurts it; any
      other is kept. */
  lemma GrazeRule(b: Projectile.Bullet, s: Game.State, field: Field)
    ensures Overlaps(b.box, s.player) && !s.invulnerable ==> Game.Graze(b, s, field) == Game.Hurt(s, field)
    ensures !Overlaps(b.box, s.player) || s.invulnerable ==>
      Game.Graze(b, s, field) == s.(enemyBullets := s.enemyBullets + [b])
  {
  }

  /** A hostile ramming a vulnerable ship leaves and hurts it; any other is
      kept. */
  lemma RamRule(e: Hostile.Enemy, s: Game.State, field: Field)
    ensures Overlaps(e.box, s.player) && !s.invulnerable ==> Game.Ram(e, s, field) == Game.Hurt(s, field)
    ensures !Overlaps(e.box, s.player) || s.invulnerable ==>
      Game.Ram(e, s, field) == s.(enemies := s.enemies + [e])
  {
  }

  /** On a vulnerable ship without a shield, any hostile projectile that
      overlaps it when the sweep starts costs at least one life. */
  lemma {:induction false} ShotCostsLife(bs: seq<Projectile.Bullet>, s: Game.State, field: Field)
    requires !s.invulnerable && !PlayerRules.HasBuff(s.buffs, Pickup.Shield)
    requires exists i :: 0 <= i < |bs| && Overlaps(bs[i].box, s.player)
    ensures Game.ShotsHitPlayer(bs, s, field).lives < s.lives
    decreases |bs|
  {
    var s1 := Game.Graze(bs[0], s, field);
    assert Game.ShotsHitPlayer(bs, s, field) == Game.ShotsHitPlayer(bs[1..], s1, field);
    if Overlaps(bs[0].box, s.player) {
      assert s1.lives == s.lives - 1;
    } else {
      GrazeRule(bs[0], s, field);
      var i :| 0 <= i < |bs| && Overlaps(bs[i].box, s.player);
      assert i > 0 && bs[1..][i - 1] == bs[i];
      ShotCostsLife(bs[1..], s1, field);
    }
  }

  /** On a vulnerable ship without a shield, any hostile that overlaps it
      when the sweep starts costs at least one life. */
  lemma {:induction false} RamCostsLife(es: seq<Hostile.Enemy>, s: Game.State, field: Field)
    requires !s.invulnerable && !PlayerRules.HasBuff(s.buffs, Pickup.Shield)
    requires exists i :: 0 <= i < |es| && Overlaps(es[i].box, s.player)
    ensures Game.BodiesHitPlayer(es, s, field).lives < s.lives
    decreases |es|
  {
    var s1 := Game.Ram(es[0], s, field);
    assert Game.BodiesHitPlayer(es, s, field) == Game.BodiesHitPlayer(es[1..], s1, field);
    if Overlaps(es[0].box, s.player) {
      assert s1.lives == s.lives - 1;
    } else {
      RamRule(es[0], s, field);
      var i :| 0 <= i < |es| && Overlaps(es[i].box, s.player);
      assert i > 0 && es[1..][i - 1] == es[i];
      RamCostsLife(es[1..], s1, field);
    }
  }

  // ---------------------------------------------------------------------
  // Pickups

  /** An overlapping pickup is applied to the loadout and leaves the field;
      any other stays. */
  lemma CollectRule(p: Pickup.PowerUp, player: Box, l: PlayerRules.Loadout, kept: seq<Pickup.PowerUp>)
    ensures Overlaps(player, p.box) ==> Game.Collect([p], player, l, kept) == Game.Haul(PlayerRules.ApplyPickup(l, p.kind), kept)
    ensures !Overlaps(player, p.box) ==> Game.Collect([p], player, l, kept) == Game.Haul(l, kept + [p])
  {
    assert [p][1..] == [];
  }

  /** The pickups left on the field are exactly those the ship does not
      overlap, in order. */
  lemma {:induction false} CollectKeepsMisses(ps: seq<Pickup.PowerUp>, player: Box, l: PlayerRules.Loadout, kept: seq<Pickup.PowerUp>)
    ensures Game.Collect(ps, player, l, kept).pickups == kept + Filter((p: Pickup.PowerUp) => !Overlaps(player, p.box), ps)
    decreases |ps|
  {
    if |ps| > 0 {
      var p := ps[0];
      if Overlaps(player, p.box) {
        CollectKeepsMisses(ps[1..], player, PlayerRules.ApplyPickup(l, p.kind), kept);
      } else {
        CollectKeepsMisses(ps[1..], player, l, kept + [p]);
      }
    }
  }

  // ---------------------------------------------------------------------
  // Protection rings

  /** The first hostile before a ring: outside the band it is passed over
      unchanged; in the band it takes 50 damage, and a survivor is passed
      over with 50 less health while a killed one is booked. */
  lemma RingRule(ring: ProtectionRing.Ring, pending: seq<Hostile.Enemy>, done: seq<Hostile.Enemy>,
                 born: seq<Hostile.Enemy>, a: Game.Arena, field: Field, rng: Rng)
    requires |pending| > 0 && Game.Alive(pending) && Game.Alive(done) && Game.Alive(born)
    ensures !ProtectionRing.InBand(ring, pending[0].box) ==>
      Game.Alive(done + [pending[0]])
      && Game.RingSweep(ring, pending, done, born, a, field, rng)
         == Game.RingSweep(ring, pending[1..], done + [pending[0]], born, a, field, rng)
    ensures ProtectionRing.InBand(ring, pending[0].box) && pending[0].health > ProtectionRing.Damage ==>
      var hit := Hostile.TakeDamage(pending[0], ProtectionRing.Damage, rng.Next().0);
      && !hit.dead && hit.enemy.health == pending[0].health - ProtectionRing.Damage && hit.enemy.box == pending[0].box
      && Game.Alive(done + [hit.enemy])
      && Game.RingSweep(ring, pending, done, born, a, field, rng)
         == Game.RingSweep(ring, pending[1..], done + [hit.enemy], born, a, field, rng.Next().1)
    ensures ProtectionRing.InBand(ring, pending[0].box) && pending[0].health <= ProtectionRing.Damage ==>
      var sp := Game.Slay(a.tally, pending[0], field, rng.Next().1);
      && Hostile.TakeDamage(pending[0], ProtectionRing.Damage, rng.Next().0).dead
      && sp.tally.total == a.tally.total + 1
  {
    var e := pending[0];
    Game.AliveConcat(done, [e]);
    if ProtectionRing.InBand(ring, e.box) {
      var hit := Hostile.TakeDamage(e, ProtectionRing.Damage, rng.Next().0);
      if !hit.dead {
        Game.AliveConcat(done, [hit.enemy]);
      }
    }
  }

  /** After a ring's sweep every hostile outside its band is still there,
      and every hostile in it with more than 50 health is still there with 50
      less, in the same place. */
  lemma {:induction false} RingSweepSpares(ring: ProtectionRing.Ring, pending: seq<Hostile.Enemy>, done: seq<Hostile.Enemy>,
                                           born: seq<Hostile.Enemy>, a: Game.Arena, field: Field, rng: Rng)
    requires Game.Alive(pending) && Game.Alive(done) && Game.Alive(born)
    ensures var o := Game.RingSweep(ring, pending, done, born, a, field, rng);
      && (forall x :: x in done ==> x in o.a.enemies)
      && (forall e :: e in pending && !ProtectionRing.InBand(ring, e.box) ==> e in o.a.enemies)
      && (forall e :: e in pending && ProtectionRing.InBand(ring, e.box) && e.health > ProtectionRing.Damage ==>
            exists x :: x in o.a.enemies && x.box == e.box && x.kind == e.kind && x.health == e.health - ProtectionRing.Damage)
    decreases |pending|
  {
    if |pending| > 0 {
      var e := pending[0];
      assert pending == [e] + pending[1..];
      RingRule(ring, pending, done, born, a, field, rng);
      if !ProtectionRing.InBand(ring, e.box) {
        RingSweepSpares(ring, pending[1..], done + [e], born, a, field, rng);
      } else {
        var (roll, r1) := rng.Next();
        var hit := Hostile.TakeDamage(e, ProtectionRing.Damage, roll);
        if !hit.dead {
          RingSweepSpares(ring, pending[1..], done + [hit.enemy], born, a, field, r1);
          assert hit.enemy in done + [hit.enemy];
        } else {
          var sp := Game.Slay(a.tally, e, field, r1);
          Game.AliveConcat(born, sp.bosses);
          RingSweepSpares(ring, pending[1..], done, born + sp.bosses,
                          a.(tally := sp.tally, pickups := a.pickups + sp.drops), field, sp.rng);
        }
      }
    }
  }

  // ---------------------------------------------------------------------
  // Firing

  /** A frame's new projectiles are the volley, when due, followed by the
      missile burst, when due. */
  lemma FireOrder(s: Game.State, keys: Game.Keys, t: Trig)
    ensures Game.Fire(s, keys, t).bullets[|s.bullets|..]
      == (if Game.VolleyDue(s, keys)
          then PlayerRules.Volley(s.player, s.bulletLevel, PlayerRules.HasBuff(s.buffs, Pickup.RapidFire), t) else [])
       + (if Game.BurstDue(s) then PlayerRules.TrackingVolley(s.player, s.bulletLevel, t) else [])
  {
  }
}
