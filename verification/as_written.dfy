/** The collision sweeps of game.js exactly as written: each walks a list with
    `forEach` while its callback splices entries out of that list (and, in
    the nested sweeps, out of the outer list too). `forEach` fixes the length
    when it starts and visits index `k` only while `k` is still below the
    current length, so the entry that slides into a removed slot is skipped,
    and entries appended meanwhile are visited when they land below the fixed
    length. `splice(i, 1)` past the end removes nothing.

    The rest of the model uses the folds of `Game`, in which every entity is
    consumed at most once, by its first collision; the lemmas here exhibit
    inputs on which the two differ. */
module AsWritten {
  import opened Prelude
  import opened Geometry
  import Projectile
  import Hostile
  import PlayerRules
  import Pickup
  import Game

  /** `xs.splice(i, 1)`: the entry at `i` leaves, and nothing happens when `i`
      is past the end. */
  function SpliceAt<T>(xs: seq<T>, i: nat): (r: seq<T>)
    ensures i < |xs| ==> |r| == |xs| - 1 && r[..i] == xs[..i] && r[i..] == xs[i + 1..]
    ensures i >= |xs| ==> r == xs
  {
    if i < |xs| then xs[..i] + xs[i + 1..] else xs
  }

  // ---------------------------------------------------------------------
  // Hostile projectiles against the player

  /** `enemyBullets.forEach` from index `k` on, with `len` fixed at the start:
      an overlapping projectile is spliced out at its index and hurts the
      vulnerable player. */
  function PlayerHitWalk(k: nat, len: nat, s: Game.State, field: Field): (r: Game.State)
    ensures |r.enemyBullets| <= |s.enemyBullets|
    ensures s.invulnerable ==> r == s
    ensures r.invulnerable == s.invulnerable && r.buffs == s.buffs
    ensures PlayerRules.HasBuff(s.buffs, Pickup.Shield) ==> r.lives == s.lives && r.player == s.player
    decreases len - k
  {
    if k >= len then s
    else if k >= |s.enemyBullets| then PlayerHitWalk(k + 1, len, s, field)
    else if Overlaps(s.enemyBullets[k].box, s.player) && !s.invulnerable then
      var s1 := s.(enemyBullets := SpliceAt(s.enemyBullets, k));
      PlayerHitWalk(k + 1, len, Game.Hurt(s1, field), field)
    else PlayerHitWalk(k + 1, len, s, field)
  }

  function ShotsHitPlayerAsWritten(s: Game.State, field: Field): (r: Game.State)
    ensures |r.enemyBullets| <= |s.enemyBullets|
    ensures s.invulnerable ==> r == s
  {
    PlayerHitWalk(0, |s.enemyBullets|, s, field)
  }

  /** Two hostile projectiles on a shielded player: as written, the second
      slides into the first one's slot and is skipped, so it survives the
      frame on top of the player; the fold uses up both. */
  lemma SkippedAfterSplice(s: Game.State, field: Field, b: Projectile.Bullet)
    requires !s.invulnerable && PlayerRules.HasBuff(s.buffs, Pickup.Shield)
    requires Overlaps(b.box, s.player) && s.enemyBullets == [b, b]
    ensures ShotsHitPlayerAsWritten(s, field).enemyBullets == [b]
    ensures Game.ShotsHitPlayer(s.enemyBullets, s.(enemyBullets := []), field).enemyBullets == []
  {
    var s1 := s.(enemyBullets := [b]);
    assert SpliceAt(s.enemyBullets, 0) == [b];
    assert Game.Hurt(s1, field) == s1;
    assert PlayerHitWalk(0, 2, s, field) == PlayerHitWalk(1, 2, s1, field);
    var t := s.(enemyBullets := []);
    assert Game.Graze(b, t, field) == t;
    assert [b, b][1..] == [b];
  }

  /** What the fold promises instead: a shielded, vulnerable player ends the
      sweep with no hostile projectile on top of it, since every overlapping
      one is used up. */
  lemma {:induction false} ShieldClearsOverlaps(bs: seq<Projectile.Bullet>, s: Game.State, field: Field)
    requires !s.invulnerable && PlayerRules.HasBuff(s.buffs, Pickup.Shield)
    requires forall q :: q in s.enemyBullets ==> !Overlaps(q.box, s.player)
    ensures var r := Game.ShotsHitPlayer(bs, s, field);
      r.player == s.player && forall q :: q in r.enemyBullets ==> !Overlaps(q.box, s.player)
    decreases |bs|
  {
    if |bs| > 0 {
      var s1 := Game.Graze(bs[0], s, field);
      assert s1.player == s.player && !s1.invulnerable && s1.buffs == s.buffs;
      assert forall q :: q in s1.enemyBullets ==> !Overlaps(q.box, s.player);
      ShieldClearsOverlaps(bs[1..], s1, field);
    }
  }

  // ---------------------------------------------------------------------
  // Projectiles cancelling each other

  /** The inner `enemyBullets.forEach` for player projectile `p`, found at
      index `pi` of the outer walk: every cancellable hostile projectile it
      overlaps is spliced out, and each time `bullets.splice(pi, 1)` runs
      again and 5 points are added. */
  function CancelInner(j: nat, len: nat, p: Projectile.Bullet, pi: nat, d: Game.Duel): (r: Game.Duel)
    ensures |r.bullets| <= |d.bullets| && |r.enemyBullets| <= |d.enemyBullets| && r.score >= d.score
    decreases len - j
  {
    if j >= len then d
    else if j >= |d.enemyBullets| then CancelInner(j + 1, len, p, pi, d)
    else if Overlaps(p.box, d.enemyBullets[j].box) && Projectile.Cancellable(d.enemyBullets[j].kind) then
      CancelInner(j + 1, len, p, pi,
                  Game.Duel(SpliceAt(d.bullets, pi), SpliceAt(d.enemyBullets, j), d.score + Game.CancelBonus))
    else CancelInner(j + 1, len, p, pi, d)
  }

  /** The outer `bullets.forEach`. */
  function CancelOuter(i: nat, len: nat, d: Game.Duel): (r: Game.Duel)
    ensures |r.bullets| <= |d.bullets| && |r.enemyBullets| <= |d.enemyBullets| && r.score >= d.score
    decreases len - i
  {
    if i >= len then d
    else if i >= |d.bullets| then CancelOuter(i + 1, len, d)
    else CancelOuter(i + 1, len, CancelInner(0, |d.enemyBullets|, d.bullets[i], i, d))
  }

  function CancelAsWritten(d: Game.Duel): (r: Game.Duel)
    ensures |r.bullets| <= |d.bullets| && |r.enemyBullets| <= |d.enemyBullets| && r.score >= d.score
  {
    CancelOuter(0, |d.bullets|, d)
  }

  /** A player projectile `p` over two cancellable hostile projectiles `q1`
      and `q2` with a third, `x`, between them that it does not cancel, and a
      second player projectile `p2` that touches nothing: as written, `p`
      cancels both, and the second cancel splices `p2` out in its place, for
      10 points. */
  lemma BystanderCancelled(p: Projectile.Bullet, p2: Projectile.Bullet, q1: Projectile.Bullet,
                           x: Projectile.Bullet, q2: Projectile.Bullet, score: int)
    requires Overlaps(p.box, q1.box) && Projectile.Cancellable(q1.kind)
    requires Overlaps(p.box, q2.box) && Projectile.Cancellable(q2.kind)
    requires !Overlaps(p.box, x.box)
    ensures CancelAsWritten(Game.Duel([p, p2], [q1, x, q2], score)) == Game.Duel([], [x], score + 2 * Game.CancelBonus)
  {
    var d0 := Game.Duel([p, p2], [q1, x, q2], score);
    var d1 := Game.Duel([p2], [x, q2], score + Game.CancelBonus);
    var d2 := Game.Duel([], [x], score + 2 * Game.CancelBonus);
    assert SpliceAt([p, p2], 0) == [p2] && SpliceAt([q1, x, q2], 0) == [x, q2];
    assert CancelInner(0, 3, p, 0, d0) == CancelInner(1, 3, p, 0, d1);
    assert SpliceAt([p2], 0) == [] && SpliceAt([x, q2], 1) == [x];
    assert CancelInner(1, 3, p, 0, d1) == CancelInner(2, 3, p, 0, d2);
    assert CancelOuter(0, 2, d0) == CancelOuter(1, 2, d2);
  }

  /** The cancel fold never takes back a survivor it has already kept. */
  lemma {:induction false} CancelKeepsSurvivors(ps: seq<Projectile.Bullet>, d: Game.Duel)
    ensures forall x :: x in d.bullets ==> x in Game.Cancel(ps, d).bullets
    decreases |ps|
  {
    if |ps| > 0 {
      match Game.FirstCancel(ps[0].box, d.enemyBullets)
      case None =>
        CancelKeepsSurvivors(ps[1..], d.(bullets := d.bullets + [ps[0]]));
      case Some(j) =>
        CancelKeepsSurvivors(ps[1..], Game.Duel(d.bullets, d.enemyBullets[..j] + d.enemyBullets[j + 1..], d.score + Game.CancelBonus));
    }
  }

  /** What the fold promises instead: a player projectile that overlaps no
      cancellable hostile projectile survives the cancel sweep. */
  lemma {:induction false} CancelSparesBystanders(ps: seq<Projectile.Bullet>, d: Game.Duel, p: Projectile.Bullet)
    requires forall q :: q in d.enemyBullets ==> !(Overlaps(p.box, q.box) && Projectile.Cancellable(q.kind))
    ensures p in ps ==> p in Game.Cancel(ps, d).bullets
    decreases |ps|
  {
    if |ps| > 0 && p in ps {
      match Game.FirstCancel(ps[0].box, d.enemyBullets)
      case None =>
        var d1 := d.(bullets := d.bullets + [ps[0]]);
        if p == ps[0] {
          CancelKeepsSurvivors(ps[1..], d1);
          assert p in d1.bullets;
        } else {
          CancelSparesBystanders(ps[1..], d1, p);
        }
      case Some(j) =>
        var qs := d.enemyBullets[..j] + d.enemyBullets[j + 1..];
        assert forall q :: q in qs ==> q in d.enemyBullets;
        CancelSparesBystanders(ps[1..], Game.Duel(d.bullets, qs, d.score + Game.CancelBonus), p);
    }
  }

  /** The input of `BystanderCancelled` through the fold: `p2`, which touches
      nothing, survives. */
  lemma BystanderKept(p: Projectile.Bullet, p2: Projectile.Bullet, q1: Projectile.Bullet,
                      x: Projectile.Bullet, q2: Projectile.Bullet, score: int)
    requires !Overlaps(p2.box, q1.box) && !Overlaps(p2.box, x.box) && !Overlaps(p2.box, q2.box)
    ensures p2 in Game.Cancel([p, p2], Game.Duel([], [q1, x, q2], score)).bullets
  {
    CancelSparesBystanders([p, p2], Game.Duel([], [q1, x, q2], score), p2);
  }

  // ---------------------------------------------------------------------
  // The player's projectiles against the hostiles

  /** The inner `enemies.forEach` for projectile `b`, found at index `bi` of the
      outer walk: every hostile it overlaps takes its damage, and each time
      `bullets.splice(bi, 1)` runs again. A killed hostile is spliced out and
      booked, and a boss it calls in is pushed at the end. */
  function HitInner(j: nat, len: nat, b: Projectile.Bullet, bi: nat, w: Game.Battle, field: Field, rng: Rng): (o: Game.Clash)
    requires Game.Alive(w.enemies)
    ensures Game.Alive(o.w.enemies)
    ensures |o.w.bullets| <= |w.bullets| && o.w.tally.total >= w.tally.total
    decreases len - j
  {
    if j >= len then Game.Clash(w, rng)
    else if j >= |w.enemies| then HitInner(j + 1, len, b, bi, w, field, rng)
    else if Overlaps(b.box, w.enemies[j].box) then
      var o := Game.Strike(w.(bullets := SpliceAt(w.bullets, bi)), j, Game.ShotDamage(b.kind), field, rng);
      HitInner(j + 1, len, b, bi, o.w, field, o.rng)
    else HitInner(j + 1, len, b, bi, w, field, rng)
  }

  /** The outer `bullets.forEach`. */
  function HitOuter(i: nat, len: nat, w: Game.Battle, field: Field, rng: Rng): (o: Game.Clash)
    requires Game.Alive(w.enemies)
    ensures Game.Alive(o.w.enemies)
    ensures |o.w.bullets| <= |w.bullets| && o.w.tally.total >= w.tally.total
    decreases len - i
  {
    if i >= len then Game.Clash(w, rng)
    else if i >= |w.bullets| then HitOuter(i + 1, len, w, field, rng)
    else
      var o := HitInner(0, |w.enemies|, w.bullets[i], i, w, field, rng);
      HitOuter(i + 1, len, o.w, field, o.rng)
  }

  function ShotsHitEnemiesAsWritten(w: Game.Battle, field: Field, rng: Rng): (o: Game.Clash)
    requires Game.Alive(w.enemies)
    ensures Game.Alive(o.w.enemies)
    ensures |o.w.bullets| <= |w.bullets| && o.w.tally.total >= w.tally.total
  {
    HitOuter(0, |w.bullets|, w, field, rng)
  }

  /** One projectile over two hostiles it kills outright, with a third
      between them that it misses, and no boss due: as written, the first
      kill slides the missed hostile into the visited slot, the second
      overlapping hostile is visited next and dies too, and one projectile
      books two kills, which the fold rules out (`Game.ShotsHitEnemies`: kills
      never exceed the projectiles used up). */
  lemma TwoKillsOneProjectile(b: Projectile.Bullet, e1: Hostile.Enemy, f: Hostile.Enemy, e2: Hostile.Enemy,
                              w: Game.Battle, field: Field, rng: Rng)
    requires w.bullets == [b] && w.enemies == [e1, f, e2] && Game.Alive(w.enemies)
    requires Overlaps(b.box, e1.box) && Overlaps(b.box, e2.box) && !Overlaps(b.box, f.box)
    requires e1.health <= Game.ShotDamage(b.kind) && e2.health <= Game.ShotDamage(b.kind)
    requires w.tally.total >= 0 && (w.tally.total + 1) % 20 != 0 && (w.tally.total + 2) % 20 != 0
    ensures var o := ShotsHitEnemiesAsWritten(w, field, rng);
      o.w.bullets == [] && o.w.tally.total == w.tally.total + 2
    ensures var o := Game.ShotsHitEnemies(w.bullets, w.(bullets := []), field, rng);
      o.w.tally.total <= w.tally.total + 1
  {
    var d := Game.ShotDamage(b.kind);
    var w0 := w.(bullets := SpliceAt(w.bullets, 0));
    assert w0.bullets == [];
    var o1 := Game.Strike(w0, 0, d, field, rng);
    assert o1.w.tally.total == w.tally.total + 1;
    assert |o1.w.enemies| == 2 && o1.w.enemies == [f, e2];
    assert HitInner(0, 3, b, 0, w, field, rng) == HitInner(1, 3, b, 0, o1.w, field, o1.rng);
    var w1 := o1.w.(bullets := SpliceAt(o1.w.bullets, 0));
    assert w1 == o1.w;
    var o2 := Game.Strike(w1, 1, d, field, o1.rng);
    assert o2.w.tally.total == w.tally.total + 2;
    assert |o2.w.enemies| == 1;
    assert HitInner(1, 3, b, 0, o1.w, field, o1.rng) == HitInner(2, 3, b, 0, o2.w, field, o2.rng);
    assert HitOuter(0, 1, w, field, rng) == HitOuter(1, 1, o2.w, field, o2.rng);
  }
}
