# Space shooter rules in Dafny

A model of the game rules of a browser space shooter. The player ship fires
volleys and homing missiles. Hostiles of six types (fast, heavy, armoured,
scout, plain and a three-phase boss) fly down and shoot back. Pickups bounce
around the playfield. Protection rings spread out from the ship.

The model covers the per-frame `update`, the kill, score and level
bookkeeping, buffs, defensive charges, respawn, restart and the key presses.
It also covers the hostile state machine (`enemy.js`), the projectile table
and homing logic (`bullet.js`) and the pickup lifetime (`powerup.js`).

Everything is an immutable datatype with pure step functions:

| module | file | models |
|---|---|---|
| `Prelude` | prelude.dfy | random stream, clamps, signs |
| `Geometry` | geometry.dfy | boxes, the overlap test, squared distances, an abstract `Trig` |
| `Projectile` | projectile.dfy | `bullet.js` |
| `Hostile` | hostile.dfy | `enemy.js` |
| `Pickup` | pickup.dfy | `powerup.js` |
| `PlayerRules` | player_rules.dfy | shot interval, volleys, buffs, pickup effects, defensive charges |
| `ProtectionRing` | ring.dfy | the `ProtectionRing` class and `activateProtectionRing` |
| `Scoring` | scoring.dfy | points, kill counters, level quota, forced bosses |
| `Spawning` | spawning.dfy | `spawnEnemy` and the spawn roll |
| `Game` | game.dfy | the frame, the collision sweeps, respawn, restart, key presses |
| `GameLaws` | game_laws.dfy | what each sweep step does to one entity, and the advancing steps as filters |
| `AsWritten` | as_written.dfy | the three projectile collision sweeps as `forEach` walks that splice, for the findings below |

Modelling choices:

- Positions and velocities are exact reals.
- `sin`, `cos` and `atan2` are an uninterpreted `Trig` record passed as a parameter.
- Square roots never appear. The ring's band and escape tests and the homing target choice are written on squared distances. Lemmas (`ProtectionRing.InBandMatchesDistance`, `ProtectionRing.EscapedMatchesDistance`) prove these equal the source's tests on the rooted distances.
- Every `Math.random()` is a draw in `[0, 1)` read from an arbitrary stream (`Prelude.Rng`) threaded through the step. Each rule reads a fixed number of draws, in source order. Some of these the source takes only conditionally: the heavy's retreat roll on every hit (`Game.Strike`), the hover and escape draws of every hostile each frame (`Game.StepEnemy`), a spark roll for every projectile (`Game.AdvanceShots`), and all five draws of a kill (`Game.Slay`). The stream is arbitrary, so a draw the source would not take only shifts later positions, and no reachable outcome changes.
- A hostile in play always has positive health and consistent stats (`Game.Alive`). The frame functions require this of their input and keep it.

## Model

| member | source | states |
|---|---|---|
| Geometry.OverlapsSymmetric | game.js:556-561 | The overlap test gives the same answer with its two rectangles swapped. |
| Geometry.OverlapsIffCommonPoint | game.js:556-561 | For boxes of positive size, the four strict comparisons hold exactly when some point lies strictly inside both boxes. |
| Projectile.ParseName | bullet.js:22-115 | Every subtype's type tag reads back as that subtype. |
| Projectile.NameParse | bullet.js:22-115 | Any tag that reads as a subtype is exactly that subtype's tag, so tags and subtypes correspond one to one. |
| Projectile.Dimensions | bullet.js:22-115 | Every subtype has a box of positive width and height. |
| Projectile.DimensionsOfTag | bullet.js:6-7 | A tag outside the table keeps the 4×10 default box; a known tag gets its table size. |
| Projectile.DimensionsAgree | bullet.js:22-115 | The size the constructor gives a subtype's tag is that subtype's table size. |
| Projectile.CancellableVersusSpinning | game.js:824-835 | Every spinning subtype can be shot down; the cancellable subtypes that do not spin are exactly the 11×11 ones (piercing, venom, spiral). |
| Projectile.New | bullet.js:3-116 | The box takes the table size, the trail and sparks start empty and rotation at 0. A player-side subtype moves up whenever the cosine of its angle is positive, whatever the sign of its speed; a hostile one moves down for a positive speed. |
| Projectile.UpwardIgnoresSpeedSign | bullet.js:23-31 | For a player-side subtype, negating the speed changes nothing but the stored speed. |
| Projectile.PushTrail | bullet.js:120-123 | The trail gains the new point last, grows by one up to eight entries and never exceeds eight, and is always the tail of the old trail followed by the point. |
| Projectile.TrailKeepsLastEight | bullet.js:120-123 | From an empty trail, any run of updates leaves exactly the last eight recorded positions, in order. |
| Projectile.TrailSuffix | bullet.js:120-123 | From any trail of at most eight, the trail after a run of pushes is the tail of the old trail followed by the pushed points. |
| Projectile.AgeSparks | bullet.js:198-206 | Surviving sparks have life at least 1; all survive when all had more than 1, and none survive when none had. |
| Projectile.SparkLifetime | bullet.js:186-206 | A spark born with life `L` still has life `L - k` after `k < L` updates, and is gone after `L` updates. A 15-life spark lasts exactly 15 updates. |
| Projectile.EmptyStaysEmpty | bullet.js:198-206 | Ageing an empty spark list any number of times leaves it empty. |
| Projectile.Nearest | bullet.js:128-140 | With no hostiles there is no target; otherwise the target's centre is no farther than any other, and strictly nearer than every earlier one, so the first wins ties. |
| Projectile.WrapAngle | bullet.js:150-152 | An angle difference within three half-turns is brought into `[-pi, pi]` by one correction of a full turn; one already there is unchanged. |
| Projectile.ClampTurn | bullet.js:154-158 | The applied turn never exceeds 0.2 in magnitude, keeps the sign of the wanted turn, and equals it when it is within the cap. |
| Projectile.TurnToward | bullet.js:145-160 | The missile's heading change is at most 0.2, and is the wrapped difference whenever that is within the cap. |
| Projectile.Steer | bullet.js:124-170 | Without hostiles a missile keeps its velocity and heading. With hostiles it turns towards the nearest one by the wrapped, clamped difference, at most 0.2, and flies at its top speed along the new heading. |
| Projectile.SteerTurnsToward | bullet.js:138-164 | A missile never turns away from the nearest hostile. A hostile within the turn rate is pointed at exactly. |
| Projectile.Update | bullet.js:118-207 | Type and size never change. The trail stays within eight and ends with the pre-move position. Only the spinning subtypes rotate. Only missiles change velocity. The projectile moves by its new velocity. Sparks alive after the update have life at least 1, and at most one is added, only on an emitting draw. |
| Hostile.StatsOf | enemy.js:11-83 | Every type starts with positive health and shot interval and a positive box. |
| Hostile.New | enemy.js:3-87 | A new hostile is at full health, in state `normal`, with its shot timer in `[0, interval)`; a boss starts in phase 1 with 150 health; the result satisfies the consistency invariant. |
| Hostile.PhaseFor | enemy.js:196-199 | The boss phase is in 1..3: 1 exactly when health is above 66 % of the maximum, 3 exactly when it is at most 33 %. |
| Hostile.FractionAbove | enemy.js:197-198 | The health fraction exceeds a threshold exactly when health exceeds threshold times maximum, so the source's division can be compared without dividing. |
| Hostile.PhaseMonotone | enemy.js:196-199 | Less health never gives an earlier phase. |
| Hostile.TakeDamage | enemy.js:191-230 | Health drops by exactly the damage, the flash restarts at 10, and the result reports death exactly when health is at most 0. A boss takes the phase of its new health, with the change timer, interval and speed set only on a phase change. A normal scout starts escaping. A normal heavy at half health or less retreats on a draw below 0.3. With non-negative damage the invariant holds afterwards and the phase never goes back. |
| Hostile.Volley | enemy.js:239-353 | The projectile subtypes of one shot: boss phases 1/2/3 fire 1/3/6 with venom on the sides in phase 2 and piercing at the inner lanes in phase 3; a heavy fires 3 heavy; an escaping scout fires none; a fast hostile, a scout and a plain one fire one fast, scout and enemy projectile, and an armoured one fires one piercing projectile. |
| Hostile.Shoot | enemy.js:233-355 | One shot fires the volley's subtypes in order from the hostile's lower edge, and a non-boss aims within 30 degrees of straight down. |
| Hostile.LanesKinds | enemy.js:239-353 | The lanes a shot builds carry exactly the volley's subtypes. |
| Hostile.Move | enemy.js:98-166 | Movement changes no counter. A hovering boss counts hover time and returns to `normal` at 180. A seeking boss starts hovering once within 5 pixels of its target. A retreating hostile climbs at 1.5 times its speed and an escaping one at 3 times. Every other state is kept. |
| Hostile.Confine | enemy.js:168-177 | After the wall check the hostile lies within the field horizontally, its direction flipped only at a wall; a hostile already inside is unchanged. |
| Hostile.Update | enemy.js:90-189 | Type and health are kept, the life and change timers count, the flash counts down to 0 and never below, and the hostile stays within the field horizontally. The shot timer either fires exactly one volley and resets to 0, or counts up with no shot. The invariant is kept. |
| Hostile.VolleyIgnoresMotion | enemy.js:233-355 | The volley depends only on type, phase and whether a scout is escaping, so moving before shooting does not change it. |
| Pickup.ParseName | powerup.js:18-21 | Every pickup type's tag reads back as that type. |
| Pickup.ColorOf | powerup.js:23-31 | Any tag outside the four types gets white, and the four types never do. |
| Pickup.SymbolOf | powerup.js:230-238 | Every tag gets a one-character symbol, `?` exactly for unknown tags. |
| Pickup.ColorsAndSymbolsDistinct | powerup.js:23-31 | Different pickup types never share a colour or a symbol. |
| Pickup.RandomKind | powerup.js:18-21 | The four types each take a quarter of the draw range, in table order. |
| Pickup.New | powerup.js:3-16 | A new pickup is a 25×25 box at the given point, falling at speed 2 with horizontal speed in `[-1, 1)`, no bounces, and the type given by the draw. |
| Pickup.CapSpeed | powerup.js:59-62 | A velocity component is limited to 4 in magnitude with its sign kept, and is unchanged within the cap. |
| Pickup.Update | powerup.js:33-63 | The bounce count rises by one exactly on a side-wall hit; a wall hit reverses that velocity component and clamps the position into the field; both components end within 4. |
| Pickup.BouncesCountSideHits | powerup.js:43-55 | Over any run of updates, the bounce count is the number of side-wall hits; top and bottom hits never count. |
| Pickup.TrajectoryPrefix | powerup.js:33-63 | A longer run of updates extends a shorter one. |
| Pickup.ExpiresAtSixthSideHit | powerup.js:66-68 | A fresh pickup is due for removal exactly once it has hit the side walls six times. |
| PlayerRules.ShotInterval | game.js:51-58 | The interval is never below 5; with a non-negative tier it is at most the base (8 with rapid fire, 15 without); it is above 5 exactly when the base minus twice the tier is, and then equals it; otherwise it is 5. |
| PlayerRules.ShotIntervalMonotone | game.js:51-58 | A higher tier or an active rapid-fire buff never lengthens the interval. |
| PlayerRules.Launch | game.js:142-272 | Each lane becomes one projectile of the lane's subtype. |
| PlayerRules.Volley | game.js:134-273 | A volley has 1 shot, plus 2 from tier 1 and 4 more from tier 2, plus 4 power shots with rapid fire; all go upward, and the non-rapid shots are player shots from tier 1. |
| PlayerRules.TrackingVolley | game.js:276-364 | A homing burst is 6 missiles from tier 1 and 1 below it. |
| PlayerRules.Refresh | game.js:504-516 | Picking up a shield or rapid fire refreshes the existing entry of that type to 300 or appends one; other entries are untouched, the types present become the old ones plus this one, and one entry per type is kept. |
| PlayerRules.TickBuffs | game.js:681-686 | The buff list never grows, only entries with time left survive, no type appears that was not there, one entry per type is kept, and every timer bound drops by one. |
| PlayerRules.TimerOf | game.js:681-686 | With every timer at least 1, a type's remaining time is 0 exactly when the buff is absent. |
| PlayerRules.TickTimer | game.js:681-686 | One tick takes one frame off a buff's remaining time, down to 0. |
| PlayerRules.BuffExpires | game.js:681-686 | With no pickups between, a buff with `m` frames left is still present after `n` ticks exactly when `n < m`. |
| PlayerRules.ApplyPickup | game.js:501-524 | Health adds a life, and at 5 lives or more it sets exactly 5. A bullet upgrade adds a tier the same way, capped at 5; a shield or rapid fire refreshes that buff; nothing else changes. |
| PlayerRules.TickCharge | game.js:641-648 | Charges stay in 0..3. A charge is added exactly when the cooldown has run out and fewer than 3 are stored, and the cooldown then restarts at 600. A running cooldown drops by exactly one and nothing else changes. At 3 charges with no cooldown nothing changes. |
| PlayerRules.RechargeTakesCooldown | game.js:641-648 | Below 3 charges, the count is unchanged while the cooldown runs down and rises by one on the frame after it reaches 0. |
| PlayerRules.Spend | game.js:451-458 | Activation fires exactly when a charge is stored, consumes exactly one, and leaves the charges in 0..3. |
| PlayerRules.IdleCooldownRefundsAtOnce | game.js:451-458 | Spending one of three charges with an idle cooldown gets it back on the very next frame. |
| ProtectionRing.New | game.js:368-376 | A ring starts active at the given centre with radius 10. |
| ProtectionRing.EscapedMatchesDistance | game.js:378-396 | The squared-form escape test is the source's test: radius beyond the farthest field corner plus 50. |
| ProtectionRing.EscapedMonotone | game.js:378-396 | A radius that has escaped stays escaped as it grows. |
| ProtectionRing.Update | game.js:378-396 | An inactive ring is unchanged; an active one grows by 8 and switches off exactly when the new radius has escaped. |
| ProtectionRing.Lifetime | game.js:378-396 | A ring stays active after `n` updates exactly while radius `r + 8n` has not escaped, and while active its radius is `r + 8n`. |
| ProtectionRing.InactiveStays | game.js:379 | An inactive ring never changes again. |
| ProtectionRing.FreshNotEscaped | game.js:368-376 | A new ring has not escaped, whatever the field. |
| ProtectionRing.InBandMatchesDistance | game.js:426-447 | The squared-form band test is the source's test: the centre of the box lies at a distance from `radius - 15` to `radius`, and only for an active ring. |
| ProtectionRing.Release | game.js:451-466 | A key press releases one ring at the ship's centre exactly when a charge is stored, spending it; otherwise nothing changes. |
| Scoring.Points | game.js:773-778 | A kill scores 100 exactly for a boss, 30 for a heavy, 20 for a fast hostile, and 10 for every other type. |
| Scoring.StartOk | game.js:2-13 | The starting counters satisfy the level invariant. |
| Scoring.RecordKill | game.js:773-800 | A kill adds its points and counts once in each counter; a boss is due exactly when the overall count is a multiple of 20; reaching the quota moves up a level with the count reset and a quota 5 higher. The level invariant is kept. |
| Scoring.BossEveryTwenty | game.js:780-794 | Over any run of kills, the score grows by their points and exactly one boss is called in per multiple of 20 the overall count passes. |
| Scoring.QuotaClearsLevel | game.js:796-800 | Kills below the quota keep the level; the kill that reaches it moves up one level with a fresh count and a quota 5 higher. |
| Spawning.SpawnRate | game.js:906 | From level 1 on, the chance per frame is at least 1.5 %. |
| Spawning.SpawnRateGrows | game.js:906 | Each level adds exactly half a percent to the chance per frame. |
| Spawning.LevelFactor | game.js:477 | The level factor is a tenth of the level, capped at 1 from level 10. |
| Spawning.SpawnKind | game.js:480-488 | A random arrival is never a boss; the draw bands are fast below 0.15, heavy below 0.25, armoured below `0.35 + factor/10`, scout below 0.45, plain above. |
| Spawning.HigherLevelMoreArmoured | game.js:477-486 | A draw that gives an armoured hostile still does at any higher level, and a draw that gives a scout did at any lower level. |
| Spawning.NoScoutsFromLevelTen | game.js:477-486 | From level 10 on, no scout arrives at random. |
| Spawning.Spawn | game.js:471-491 | Exactly one hostile arrives when the roll is below the rate, otherwise none. It is never a boss, it enters 50 above the top edge at a random column, and it is alive and consistent. |
| Game.Init | game.js:2-39 | The starting state satisfies the game invariant. |
| Game.AnimFrame | game.js:1212-1231 | During the animation only the ship's height and the frame count change, and the ship stays below its home height. The last frame puts the ship at home and makes it invulnerable for 120 frames. |
| Game.Respawn | game.js:1173-1177 | A respawn drops the weapon tier to 1, moves the ship to the home column below its home height, and starts the animation at frame 1 without making the ship invulnerable yet. |
| Game.AnimationRuns | game.js:1212-1231 | While the animation runs, each later frame continues it: `n` frames on, it is at frame `respawn + n`. |
| Game.AnimFrameOverrides | game.js:1216-1219 | A later animation frame overrides an earlier one. |
| Game.RespawnCompletes | game.js:1210-1231 | After a respawn the ship stays vulnerable below its home height for 58 more frames; on the 59th it is home and invulnerable for 120 frames. |
| Game.Tick | game.js:633-648 | Invulnerability counts down and ends when its time reaches 0, the charge ticks, nothing else changes, and the counter invariant is kept. |
| Game.InvulnerabilityLasts | game.js:633-639 | Invulnerability granted for `m` frames lasts exactly `m` frames. |
| Game.MovePlayer | game.js:650-662 | A single held key on an axis moves the ship exactly 5 pixels that way while its edge has not reached the wall, and not at all once it has. Each axis moves at most 5 pixels, only with a key held on it, and the ship never gets more than 5 pixels past a wall. |
| Game.Fire | game.js:664-679 | Each timer counts frames and restarts exactly on the frame it fires. A volley fires when fire is held or auto-fire is on and the count reaches the shot interval; a homing burst fires at 30 with a hostile in play. The new shots are appended. |
| Game.VolleyCadence | game.js:664-671 | Holding fire, volleys come exactly one shot interval apart. |
| Game.AdvanceShots | game.js:693-702 | Projectile lists never grow, every survivor is still inside the field on its side, and trails stay within eight. |
| Game.RetreatEscapesPruning | game.js:713-725 | The prune rule does not name the state a heavy retreats in, so a retreating heavy above the top edge is kept, while an escaping hostile there is dropped. |
| Game.AdvanceEnemies | game.js:704-726 | The hostile list never grows, every survivor passes the prune rule, and all stay alive and consistent. |
| Game.AdvancePickups | game.js:728-732 | The pickup list never grows and no survivor has used up its bounces. |
| Game.Slay | game.js:772-800 | A kill is booked and leaves a pickup at the hostile's centre exactly when the first draw is below 0.3. It calls in a boss 60 above the top exactly when the kill count asks for one. |
| Game.ShotDamage | game.js:759 | A homing missile does 2 damage and every other projectile 1. |
| Game.Strike | game.js:756-800 | A struck survivor stays in place. A killed hostile leaves the list, with the others in order, and its kill is booked. Score, kill count and level never drop. |
| Prelude.FirstWhere | game.js:741-743 | The index found is the first element passing the test, and there is none exactly when no element passes. |
| Game.FirstHit | game.js:741-743 | There is no hit exactly when the projectile overlaps no hostile; otherwise the hit is the first overlapping hostile. |
| Game.Impact | game.js:741-804 | One projectile either survives untouched, booking nothing, or is used up and books at most one kill. With no hostiles it survives and nothing else changes. |
| Game.ShotsHitEnemies | game.js:740-805 | Surviving projectiles are appended in order. Kills never exceed the projectiles used up. Score and level never drop, the level invariant holds, and all hostiles stay alive. |
| Game.NoTargetsAllSurvive | game.js:740-805 | With no hostiles on the field, every projectile survives in order and no counter, hostile or pickup changes. |
| Game.Collect | game.js:807-816 | A ship that touches no pickup leaves them all in order and keeps its loadout. Buffs are never lost. A running game's loadout stays valid, and its lives and tier never drop. |
| Game.FirstCancel | game.js:818-835 | The first hostile projectile that overlaps and can be cancelled, and none exactly when no such projectile exists. |
| Game.Cancel | game.js:818-851 | Each cancelled pair removes one projectile from each side and adds exactly 5 points. A projectile that cannot be cancelled is never removed. |
| Game.Hurt | game.js:856-875 | A shield absorbs a hit. Otherwise a life is lost, and the ship respawns when lives remain. The counter invariant is kept. |
| Game.Graze | game.js:853-876 | One hostile projectile: while invulnerable it stays; otherwise it either stays or is used up, and costs exactly one life unless a shield absorbs it. The counter invariant is kept. |
| Game.ShotsHitPlayer | game.js:853-877 | While invulnerable nothing happens. Otherwise each overlapping hostile projectile is removed and costs exactly one life unless shielded. The counter invariant is kept, including game over exactly when no life is left. |
| Game.Ram | game.js:879-902 | One hostile: while invulnerable it stays; otherwise it either stays or rams and leaves, costing exactly one life unless a shield absorbs it. |
| Game.BodiesHitPlayer | game.js:879-903 | The same for ramming hostiles, which are removed without counting as kills; survivors stay alive. |
| Game.ClearBand | game.js:913-921 | A ring removes exactly the hostile projectiles in its band and keeps the rest. |
| Game.RingSweep | game.js:923-969 | An inactive ring leaves every hostile in place. Under any ring, hostiles stay alive, the level invariant holds, and score, kills and level never drop. |
| Game.Pulse | game.js:911-977 | One ring grows, never adds hostile projectiles, and is kept, grown, exactly when it is still active. Score, kill count and level never drop. |
| Game.RingsStep | game.js:911-977 | Kept rings are all active and in order, hostile projectiles never increase, and score, kill count and level never drop. |
| Game.Handle | game.js:633-679 | Timers, movement and fire keep the counter invariant and every list but the player's projectiles, and keep invulnerability with more than one frame left. |
| Game.CountDown | game.js:681-686 | The buff countdown takes one frame off the shield's time and keeps the counter invariant. |
| Game.ShipPhase | game.js:633-686 | The ship's part of a frame keeps the counter invariant, keeps invulnerability with more than one frame left, and takes one frame off the shield's time. |
| Game.Advance | game.js:693-732 | Moving the entities changes only the four entity lists and keeps every hostile alive. |
| Game.Offence | game.js:740-816 | Strikes and pickups never lower score, kills, level, lives or buffs. |
| Game.Defence | game.js:818-903 | Cancels, projectile hits and rams keep the invariant and never lower the score, and cost no life while invulnerable or shielded. |
| Game.Finish | game.js:905-977 | Arrivals and rings keep every hostile alive and the level invariant, and never lower score, kills or level. The rings left are exactly the grown rings still active, in order. |
| Game.RingsKeepActive | game.js:911-977 | The rings kept after a frame are exactly the grown rings still active, in order. |
| Game.Update | game.js:630-978 | A finished game does not change. Every frame keeps the game invariant and never lowers score, kills or level. |
| Game.ProtectedFrame | game.js:630-978 | A ship invulnerable or shielded for the whole frame loses no life in it. |
| Game.Frame | game.js:1265-1269 | The queued animation frame followed by `update` keeps the game invariant and never lowers the score. |
| Game.Restart | game.js:1236-1257 | A restart returns every counter, list and the ship's position to the starting state, except the shot and missile timers and a running respawn animation. |
| Game.KeyDown | game.js:68-95 | Any key restarts a finished game. Otherwise `k` releases a ring, `j` toggles auto-fire, and other keys change nothing. The game invariant is kept. |
| AsWritten.SpliceAt | game.js:856 | `splice(i, 1)` removes exactly the entry at `i` and keeps the order of the rest. Past the end it removes nothing. |
| AsWritten.PlayerHitWalk | game.js:853-877 | The walk over hostile projectiles, with the length fixed at the start, never adds a projectile. While invulnerable it changes nothing. With a shield it costs no life and leaves the ship in place. |
| GameLaws.AdvanceShotsFilters | game.js:693-702 | Advancing a projectile list updates every projectile, each with its own next draw, and keeps exactly those still inside the field on their side, in order. Every updated projectile that passes is kept. |
| GameLaws.AdvanceEnemiesFilters | game.js:704-726 | Advancing the hostiles updates every one with its next three draws and keeps exactly those passing the prune rule, in order. The projectiles fired are every updated hostile's volley in order, including a hostile pruned that frame. |
| GameLaws.AdvancePickupsFilters | game.js:728-732 | Advancing the pickups updates every one and keeps exactly those with bounces left, in order. Every updated pickup that passes is kept. |
| GameLaws.ImpactRule | game.js:741-804 | A projectile survives exactly when it overlaps no hostile. Otherwise the first hostile it overlaps takes its damage: a survivor stays in its slot with the damage applied, and a killed one leaves the list with the kill booked. A sweep of one projectile is exactly this step. |
| GameLaws.CancelRule | game.js:818-851 | A player projectile survives exactly when it overlaps no cancellable hostile projectile. Otherwise it and the first such hostile projectile both vanish, the rest stay in order, and exactly 5 points are added. |
| GameLaws.GrazeRule | game.js:853-876 | A hostile projectile that overlaps a vulnerable ship is used up and the ship is hurt. Any other is kept. |
| GameLaws.ShotCostsLife | game.js:853-877 | On a vulnerable ship without a shield, a hostile projectile overlapping it when the sweep starts costs at least one life. |
| GameLaws.RamRule | game.js:879-902 | A hostile that overlaps a vulnerable ship leaves and the ship is hurt. Any other is kept. |
| GameLaws.RamCostsLife | game.js:879-903 | On a vulnerable ship without a shield, a hostile overlapping it when the sweep starts costs at least one life. |
| GameLaws.CollectRule | game.js:807-816 | A pickup the ship touches is applied to the loadout and leaves the field. Any other stays. |
| GameLaws.CollectKeepsMisses | game.js:807-816 | The pickups left on the field are exactly those the ship does not touch, in order. |
| GameLaws.RingRule | game.js:923-969 | A hostile outside the ring's band is passed over unchanged. One in the band takes 50 damage: with more than 50 health it is passed over in place with 50 less, and otherwise it dies and the kill is booked. |
| GameLaws.RingSweepSpares | game.js:923-969 | After a ring's sweep, every hostile outside its band is still there. Every hostile in the band with more than 50 health is still there, at the same place and of the same type, with 50 less. |
| GameLaws.FireOrder | game.js:664-679 | A frame's new projectiles are the volley, when due, followed by the homing burst, when due. |
| AsWritten.ShotsHitPlayerAsWritten | game.js:853-877 | The source's sweep never adds a projectile and does nothing while the ship is invulnerable. |
| AsWritten.SkippedAfterSplice | game.js:853-877 | With a shield and two overlapping projectiles, the source's sweep leaves one of them on the ship, while the fold removes both. |
| AsWritten.ShieldClearsOverlaps | game.js:853-877 | After the fold, a shielded ship that can be hit is still in place and has no hostile projectile overlapping it. |
| AsWritten.CancelInner | game.js:819-849 | For one player projectile, the source's walk never adds projectiles to either side and never lowers the score. |
| AsWritten.CancelOuter | game.js:818-850 | The source's nested walk never adds projectiles to either side and never lowers the score. |
| AsWritten.CancelAsWritten | game.js:818-851 | The source's cancel sweep never adds projectiles to either side and never lowers the score. |
| AsWritten.BystanderCancelled | game.js:818-851 | A projectile that cancels two hostile projectiles makes the source remove a second player projectile that touched nothing, for 10 points. |
| AsWritten.BystanderKept | game.js:818-851 | On that input, the fold keeps the player projectile that touched nothing. |
| AsWritten.CancelKeepsSurvivors | game.js:818-851 | The cancel fold never removes a player projectile it has already kept. |
| AsWritten.CancelSparesBystanders | game.js:818-851 | In the fold, a player projectile that overlaps no cancellable hostile projectile survives. |
| AsWritten.HitInner | game.js:741-803 | For one projectile, the source's walk over the hostiles keeps every hostile alive, never adds player projectiles and never lowers the kill count. |
| AsWritten.HitOuter | game.js:740-804 | The source's nested walk keeps every hostile alive, never adds player projectiles and never lowers the kill count. |
| AsWritten.ShotsHitEnemiesAsWritten | game.js:740-805 | The source's projectile sweep keeps every hostile alive, never adds player projectiles and never lowers the kill count. |
| AsWritten.TwoKillsOneProjectile | game.js:740-805 | One projectile over two weak hostiles with a missed one between them: the source books two kills for it, while the fold books at most one. |

## Left out

- Rendering, the HUD, audio, particles and explosions, and the HTTP server carry no game rules.
- The `m` mute key and the number keys 1 to 6 (set tier, add life, add boss, clear hostiles) are test controls, not rules.
- Held keys (`keydown`/`keyup`) are a `Keys` snapshot per frame rather than listeners.
- The pickup, ram and ring sweeps splice while `forEach` walks the list, as the projectile sweeps do. The entry after each removal is skipped for that frame. Here each of them is a fold in which every entity is visited once. The projectile sweeps are modelled both ways (see Findings).
- Game.RingSweep: its own contract does not state the 50 damage. GameLaws.RingRule and GameLaws.RingSweepSpares do. Also, a boss called in by a ring kill is not struck by that ring. In the source the kill's splice and the boss's push keep the array's length, so the walk reaches the new boss at the end of the list.
- The five missiles after the first in a homing burst are delayed by `setTimeout` in the source. Here they are all appended in the frame that fires.
- A hit while a respawn animation is running starts a second, independent animation chain alongside the first. The older chain then finishes early, moves the ship home and makes it invulnerable. Here one animation counter runs, and the later respawn restarts it at frame 1.
- Game.AdvanceShots: its own contract gives bounds only. The exact result, the updated projectiles filtered by the prune rule, is GameLaws.AdvanceShotsFilters.
- Game.AdvanceEnemies: its own contract gives bounds only. The exact survivors and the fired volleys are GameLaws.AdvanceEnemiesFilters.
- Game.AdvancePickups: its own contract gives bounds only. The exact survivors are GameLaws.AdvancePickupsFilters.
- Game.Impact: its own contract does not say which hostile is hit. GameLaws.ImpactRule does.
- Game.ShotsHitEnemies: its own contract does not say that an overlapping projectile hits. GameLaws.ImpactRule states the step for each projectile.
- Game.Cancel: its own contract does not say that an overlap cancels. GameLaws.CancelRule does.
- Game.Graze: its own contract does not tie the hit to the overlap. GameLaws.GrazeRule does.
- Game.Ram: its own contract does not tie the hit to the overlap. GameLaws.RamRule does.
- Game.ShotsHitPlayer: its own contract does not say that an overlap costs a life. GameLaws.ShotCostsLife does.
- Game.BodiesHitPlayer: its own contract does not say that an overlap costs a life. GameLaws.RamCostsLife does.
- Game.Collect: its own contract does not say which pickups are taken. GameLaws.CollectRule and GameLaws.CollectKeepsMisses do.
- Game.RingsStep: its own contract does not say which rings are kept. Game.RingsKeepActive does.
- Draws spent on cosmetic effects are not read from the random stream. The stream is arbitrary, so this changes no reachable outcome.
- Floating point: the model computes in exact reals and unbounded integers. Rounding differences are not modelled.
- Spawning.NoScoutsFromLevelTen: holds in exact reals. In IEEE doubles, `0.35 + 0.1` is just below `0.45`, leaving a sliver of draws that still give a scout.
- `Math.sin`, `Math.cos`, `Math.atan2` and `Math.sqrt`: the trig functions are uninterpreted parameters, and square roots are replaced by squared comparisons.
- Float motion laws (zigzag, seek, hover sway, crossing) are kept only for the parts the rules read: vertical motion per state, wall confinement and state changes.

## Findings

| source | as written | input that shows it | evidently intended | confidence | as-written member | corrected member |
|---|---|---|---|---|---|---|
| game.js:853-877 | `enemyBullets.splice(bulletIndex, 1)` inside `enemyBullets.forEach` shifts the next projectile into the visited slot, so it is skipped | a shielded ship that can be hit, overlapped by two hostile projectiles | every hostile projectile on the ship is used up in the frame | not executed | AsWritten.SkippedAfterSplice | Game.ShotsHitPlayer, with AsWritten.ShieldClearsOverlaps |
| game.js:818-851 | the inner walk repeats `bullets.splice(playerBulletIndex, 1)` on every further cancel by the same player projectile | player projectiles `[p, p2]` against hostile projectiles `[q1, x, q2]`, where `p` overlaps the cancellable `q1` and `q2` but not `x` | a player projectile is used up by one cancel and never removes another | not executed | AsWritten.BystanderCancelled | Game.Cancel, with AsWritten.CancelSparesBystanders |
| game.js:740-805 | the inner walk goes on after `bullets.splice(bulletIndex, 1)`, so a spliced projectile keeps hitting | one projectile `[b]` against hostiles `[e1, f, e2]`, where `b` kills `e1` and `e2` outright, misses `f`, and no boss is due | each projectile is used up by the first hostile it hits, so kills never exceed the projectiles used up | not executed | AsWritten.TwoKillsOneProjectile | Game.ShotsHitEnemies |

## Behaviour of the source worth knowing

- The cancellable set includes `venom` and `piercing`, though comments in `enemy.js` call them uncancellable (`Projectile.Cancellable`).
- The prune rule names `retreating`, but a heavy retreats in state `retreat`. A retreating heavy is therefore pruned only below the bottom edge and is kept above the top (`Game.RetreatEscapesPruning`).
- Only side-wall hits count as bounces (`Pickup.BouncesCountSideHits`).
- The damage sweeps go on after the game ends within a frame, so two hits in the last frame leave lives at −1 (`Game.ShotsHitPlayer`).
- Movement tests the wall before stepping, so the ship can end up to 5 pixels past a wall (`Game.MovePlayer`).
- Spending one of three charges with an idle cooldown gets it back on the next frame (`PlayerRules.IdleCooldownRefundsAtOnce`).
- A hostile that rams the ship is removed without a kill, so a ramming boss vanishes without points (`Game.BodiesHitPlayer`).
- A restart does not reset the shot timers or stop a running respawn animation (`Game.Restart`).
