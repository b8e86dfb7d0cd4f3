# Invaders: a verified model of the game core

This project models the core of a terminal Space Invaders game:
- the player's laser (`src/laser.rs`);
- the player's cannon (`src/player.rs`);
- the enemy fleet (`src/enemies.rs`);
- the character frame the entities draw into (`src/frame.rs`);
- the application's state machine: `App::new`, `App::restart` and `App::tick` (`src/app.rs`).

The board constants (40 columns, 20 rows, `src/lib.rs:6-7`) are in `board.dfy`.

## Structure

Entities that the game updates in place are classes whose methods change their fields:
- `Lasers.Laser`
- `Players.Player`
- `Fleet.Enemies`
- `Game.App`

Each method's postcondition ties the new state to a function of the old state:
- `LaserState.Updated` and `LaserState.Exploded` for a laser.
- `MovedLeft` and `MovedRight` for the player.
- `Marched`, `Resolved` and `ShotsAfter` for the fleet.

Lemmas about those functions state what the game promises.

The frame is a two-dimensional array indexed column first, `frame[x, y]`. The timer comes from an external crate. It is modelled as a value, `Timers.Timer`, whose behaviour is an assumption:
- `update` counts milliseconds down, saturating at zero, and latches `ready`.
- `reset` re-arms it.

### Collisions

In `hit_by`, the enemies take turns in order. On its turn, a live enemy explodes every travelling shot on its cell and dies if there was one.
- `ShotsAfter(army[..k], shots)` is the shot list as the first `k` enemies leave it.
- `Resolved` kills enemy `k` exactly when it is struck by that list.

The lemmas prove what the loop promises:
- on distinct cells, which every fleet the game reaches has, exactly the live enemies with a travelling shot on their cell die;
- no live enemy is left under a travelling shot;
- every shot that was on a live enemy's cell has exploded, even when two shots hit the same enemy;
- an enemy dies only when a shot was on its cell;
- a second call changes nothing.

### Where the code differs from the classic game

Classic Space Invaders reverses and descends at the walls; this code does not. `Enemies::update` only ever adds `direction` to `x`, and `direction` is set once, to 1. The model follows the code, and proves two consequences of this.
- **The game can never be lost.** `NeverReachesBottom` and `NeverGameOver` show that from the fleet `Enemies::new` builds, no history of steps and volleys brings a live enemy to the player's row. So `reached_bottom` never holds and a game never ends in `GameOver`. The same holds for the object model: `App.Valid` keeps the fleet in formation, and `App.Tick` promises a state other than `GameOver`.
- **The fleet marches off the board.** By `DriftsOffTheBoard`, after six steps with nothing shot down, the right-hand enemy stands in column 40. That is outside the frame, so `Enemies::draw` would index out of range. `Enemies.Draw` states its precondition explicitly (every live enemy is inside the frame).

A laser does not climb one row per 60 ms of accumulated time either. When its timer fires, `reset` re-arms the full 60 ms and drops whatever time the update went beyond. At the main loop's 16 ms tick (`src/main.rs:33`), `SixteenMillisTicks` shows that a fresh laser climbs one row every four updates, that is one row per 64 ms.

### Glue between the files

The files do not quite fit together, and the model makes the glue explicit.
- **Shot list.** `Player` (`src/player.rs:4-7`) has no shot list and no `update`, yet `App::tick` uses both. The shot list is therefore a field of `App`: a sequence of laser values, as a Rust `Vec<Laser>` holds its lasers. The list that `player.update` leaves is a parameter of `App.Tick`. `restart` replaces the player, and with it the list, so `App.Restart` empties it.
- **Kills.** `hit_by` returns a `bool` (`src/enemies.rs:60`), but `App::tick` adds its result to `destroyed_count`. `Enemies.HitBy` returns both:
  - the `bool`;
  - the number of enemies killed, with `hit <==> kills > 0`.

  The score grows by that number, and `App.Valid` keeps `destroyedCount` equal to the number of dead enemies.

## Model

| member | source | states |
|---|---|---|
| Timers.Timer.FromMillis | src/laser.rs:17 | a timer from `from_millis` is armed with its full period and not ready |
| Timers.Timer.Update | src/laser.rs:22 | the countdown only decreases, keeps its period, and is ready exactly when it was ready or the delta covers the time left |
| Timers.Timer.Reset | src/laser.rs:28 | a reset timer has its full period left and is not ready |
| Lasers.LaserState.New | src/laser.rs:12-19 | a new laser is at exactly (x, y), not exploded, with a fresh 60 ms timer, and satisfies the laser invariant |
| Lasers.LaserState.Updated | src/laser.rs:21-30 | an update never changes x or `exploded`, never raises y and lowers it by at most 1; on a firing while travelling y drops by one (or stays 0) and the timer is reset; an exploded laser never moves; without a firing only the timer changes; the invariant is kept |
| Lasers.LaserState.Exploded | src/laser.rs:32-35 | explode keeps x and y, sets `exploded`, and arms a fresh 300 ms timer |
| Lasers.LaserState.Destroyed | src/laser.rs:37-39 | a travelling laser is destroyed exactly when it is on row 0; an exploded one when its timer is ready or it is on row 0 |
| Lasers.Laser.Destroyed | src/laser.rs:37-39 | the same two cases, read from the object's fields |
| Lasers.AtMostOneRowPerUpdate | src/laser.rs:21-30 | over any run of updates x and `exploded` are kept and y falls by at most one row per update |
| Lasers.Travel | src/laser.rs:21-30 | with every delta at least 60 ms, a fresh laser climbs exactly one row per update, stopping at row 0, with its timer re-armed each time |
| Lasers.TravelCountdown | src/laser.rs:21-30 | updates adding up to less than the time left on a travelling laser's timer only count the timer down; the laser keeps its row |
| Lasers.SixteenMillisTicks | src/laser.rs:21-30 | with 16 ms updates a fresh laser is still on its row after three updates and one row up, freshly re-armed, after four |
| Lasers.ExplodedCountdown | src/laser.rs:22-24 | an exploded laser stays on its cell while its timer counts the summed deltas down, and it is ready once they cover the time left |
| Lasers.ExplosionLifetime | src/laser.rs:32-39 | after `explode`, the laser stays on its cell and is destroyed exactly when 300 ms have passed or it is on row 0 |
| Lasers.Laser.constructor | src/laser.rs:12-19 | the new laser object holds the value `LaserState.New(x, y)` |
| Lasers.Laser.Update | src/laser.rs:21-30 | the object's new value is its old value updated by `d` |
| Lasers.Laser.Explode | src/laser.rs:32-35 | the object's new value is its old value exploded |
| Frames.NewFrame | src/frame.rs:7-19 | a fresh frame of 40 columns of 20 cells, each holding a space, in which (x, y) exists iff x < 40 and y < 20 |
| Players.MovedLeft | src/player.rs:17-21 | moving left lowers x by one exactly when x > 0 and otherwise keeps it |
| Players.MovedRight | src/player.rs:22-26 | moving right raises x by one exactly when x < 39 and otherwise keeps it |
| Players.MovesStayOnBoard | src/player.rs:17-26 | neither move takes x off the board |
| Players.LeftThenRight | src/player.rs:17-26 | away from the left edge, right undoes left |
| Players.RightThenLeft | src/player.rs:17-26 | away from the right edge, left undoes right |
| Players.AnyMovesStayOnBoard | src/player.rs:17-26 | any sequence of moves keeps the player on the board |
| Players.Player.constructor | src/player.rs:10-16 | the player starts at (20, 19), the centre of the bottom row |
| Players.Player.GoToLeft | src/player.rs:17-21 | x becomes `MovedLeft(x)`, y is kept, the on-board invariant is preserved |
| Players.Player.GoToRight | src/player.rs:22-26 | x becomes `MovedRight(x)`, y is kept, the on-board invariant is preserved |
| Players.Player.Draw | src/player.rs:31-33 | "H" is written at the player's cell and every other cell is unchanged |
| Fleet.NewArmy | src/enemies.rs:17-23 | the nested loops build exactly the initial army: index i at (5 + i / 3, i % 3), alive |
| Fleet.InitialArmy | src/enemies.rs:19-23 | the army as built has 90 enemies, all alive, inside the grid [5, 35) x [0, 3) |
| Fleet.InitialArmyLayout | src/enemies.rs:16-28 | the initial army's enemies are on distinct cells; it is neither all dead nor at the bottom, and counts no dead |
| Fleet.Enemies.constructor | src/enemies.rs:16-29 | a new fleet holds the initial army, a fresh 500 ms step timer and direction 1 |
| Fleet.AllDeadIn | src/enemies.rs:52-54 | no enemy is alive exactly when every enemy counts as dead |
| Fleet.Enemies.AllDead | src/enemies.rs:52-54 | the fleet is all dead exactly when its dead count is its size |
| Fleet.ReachedBottomIn | src/enemies.rs:56-58 | a live enemy on the player's row or below; such a fleet is never all dead |
| Fleet.Enemies.ReachedBottom | src/enemies.rs:56-58 | a fleet that reached the bottom is not all dead |
| Fleet.ShiftX | src/enemies.rs:36-37 | with a non-negative direction the column grows by exactly the direction |
| Fleet.Shifted | src/enemies.rs:34-39 | every live enemy moves by `direction`, dead ones stay, rows and flags are kept |
| Fleet.StepTimer | src/enemies.rs:32-40 | the step timer keeps its period and, when well-formed, is left well-formed and not ready |
| Fleet.Marched | src/enemies.rs:31-42 | without a firing the army is unchanged; rows and alive flags are always kept |
| Fleet.Enemies.Update | src/enemies.rs:31-42 | the army becomes the marched army, the timer is stepped, direction is never reassigned, and the fleet invariant is kept |
| Fleet.Enemies.Draw | src/enemies.rs:44-50 | with every live enemy inside the frame, "V" is written exactly on the live enemies' cells and nothing else changes |
| Fleet.InitialFormation | src/enemies.rs:16-29 | the initial army is in formation at offset 0 |
| Fleet.ShiftedFormation | src/enemies.rs:31-42 | a step to the right moves the formation one column |
| Fleet.FormationNeverAtBottom | src/enemies.rs:56-58 | a fleet in formation never reaches the bottom row |
| Fleet.Run | src/enemies.rs:31-74 | a history of steps and volleys keeps the army's length |
| Fleet.RunKeepsFormation | src/enemies.rs:31-74 | every history of steps and volleys keeps the fleet in formation at some offset |
| Fleet.NeverReachesBottom | src/enemies.rs:56-58 | from the fleet `new` builds, `reached_bottom` can never become true |
| Fleet.ShiftedTimes | src/enemies.rs:31-42 | n steps keep the army's length |
| Fleet.DriftsOffTheBoard | src/enemies.rs:31-50 | unshot, the fleet after n steps is in formation n columns right, all alive, and from step 6 on its last enemy is outside the board |
| Fleet.Hits | src/enemies.rs:65 | an exploded shot never hits; a hit is only on the enemy's own cell |
| Fleet.Strike | src/enemies.rs:64-70 | one enemy's turn keeps the shot list's length |
| Fleet.ShotsAfter | src/enemies.rs:62-72 | the enemies' turns keep the shot list's length |
| Fleet.Resolved | src/enemies.rs:62-72 | collisions keep the army's length and every coordinate, and alive flags only go from true to false |
| Fleet.KillsStep | src/enemies.rs:62-72 | the kill count over one more enemy grows by 1 exactly when that enemy's flag flipped |
| Fleet.ShotsOnlyExplode | src/enemies.rs:64-70 | every shot is either untouched or was travelling and is now exploded |
| Fleet.ShotsAfterSplit | src/enemies.rs:62-72 | the enemies' turns compose: a prefix's, then the rest's |
| Fleet.ResolvedTurn | src/enemies.rs:62-72 | enemy i's turn changes only enemy i, taking the army resolved for the first i enemies to the army resolved for the first i + 1 |
| Fleet.ShotsAfterTurn | src/enemies.rs:62-72 | the shot list after enemy k's turn is enemy k's strike on the list as the earlier enemies left it |
| Fleet.NoSurvivorUnderLiveShot | src/enemies.rs:62-72 | after `hit_by` no live enemy shares a cell with a travelling shot |
| Fleet.EveryHittingShotExplodes | src/enemies.rs:62-72 | every shot that was travelling on a live enemy's cell has exploded, also when two shots hit the same enemy |
| Fleet.KilledOnlyByAShot | src/enemies.rs:61-68 | an enemy dies only if a travelling shot was on its cell |
| Fleet.FormationDistinct | src/enemies.rs:16-42 | a fleet in formation, as every fleet the game reaches is, has its live enemies on distinct cells |
| Fleet.ShotUntouched | src/enemies.rs:62-72 | a shot that no live enemy stands under passes through `hit_by` unchanged |
| Fleet.HitEnemiesDie | src/enemies.rs:62-72 | with live enemies on distinct cells, an enemy survives `hit_by` exactly when it was alive and no travelling shot was on its cell |
| Fleet.ShotsStayValid | src/enemies.rs:64-70 | collisions keep every shot a well-formed laser |
| Fleet.ResolvedKeepsFormation | src/enemies.rs:60-74 | collisions keep the fleet in formation |
| Fleet.NoHitsKeepShots | src/enemies.rs:62-72 | turns of enemies that hit nothing leave the shots unchanged |
| Fleet.HitByIdempotent | src/enemies.rs:60-74 | a second `hit_by` on what the first left changes neither the army nor the shots |
| Fleet.KillsPositive | src/enemies.rs:60-74 | the kill count is positive exactly when some enemy's flag flipped |
| Fleet.CountDeadAfterKills | src/app.rs:60-63 | when flags only go true to false, the dead count grows by exactly the kills |
| Fleet.SameFlagsSameDead | src/enemies.rs:31-42 | armies with the same flags, such as before and after a march, count the same dead |
| Fleet.NoneDeadCount | src/enemies.rs:16-29 | an army with every enemy alive counts no dead |
| Fleet.AllDeadCount | src/enemies.rs:52-54 | the dead count equals the army's size exactly when every enemy is dead |
| Fleet.Enemies.Engage | src/enemies.rs:63-71 | one enemy's turn: when it is alive, every travelling shot on its cell explodes, and the enemy dies and `hit` holds iff there was one; a dead enemy changes nothing |
| Fleet.Enemies.HitBy | src/enemies.rs:60-74 | the army becomes `Resolved`, the shots `ShotsAfter`, `kills` counts the flipped flags, and `hit` holds iff kills > 0 |
| Game.Verdict | src/app.rs:66-76 | all dead gives Win even at the bottom; otherwise reaching the bottom gives GameOver; otherwise Playing |
| Game.NeverGameOver | src/app.rs:71-72 | no history of the fleet `new` builds yields GameOver |
| Game.App.constructor | src/app.rs:29-39 | a new game: fresh player and fleet, no shots, score 0, high score 0, Playing, not quitting |
| Game.App.Restart | src/app.rs:41-46 | fresh player and fleet, no shots, score 0, Playing; high score and quit flag kept; the invariant holds |
| Game.App.Tick | src/app.rs:48-80 | outside Playing nothing changes; in Playing the fleet marches, collisions are resolved, the score grows by exactly the kills, the state becomes the verdict, and the high score becomes the maximum on a transition; score and high score never decrease; the state never becomes GameOver; the invariant, which includes the fleet's formation, is kept |
| Game.App.Advance | src/app.rs:56-63 | the player's step, the fleet's march and the collisions, with the score raised by the kills |
| Game.App.Collide | src/app.rs:58-63 | collisions resolved and their kills added, keeping the score equal to the dead count and the shots well-formed |
| Game.App.CheckOutcome | src/app.rs:65-76 | the state becomes the verdict on the army, and on a transition the high score becomes the maximum of itself and the score |

## Left out

- `App::render`, `render_game` and `render_game_over` (`src/app.rs:82-218`): widget calls into a terminal UI library, with cell scaling done in floating point.
- Wall-clock timing in `tick` (`Instant::now`): the elapsed time is the parameter `delta`, in whole milliseconds.
- `src/main.rs` is not part of this model: terminal setup, event polling, key dispatch, the frame loop, audio cues, and the second `hit_by` call made only to play a sound. That second call changes nothing, as `HitByIdempotent` shows.
- `src/sound.rs` is not part of this model: it loads audio files through a foreign library.
- The timer and audio crates are foreign code. Their source is not part of this model, and the timer's behaviour in `Timers` is an assumption.
- `player.update` and the player's shot list are not in `src/player.rs`. `App.Tick` takes the list the player's step leaves as the parameter `stepped`. Firing and the removal of destroyed lasers are therefore not modelled.
- The list-element update in `hit_by`: `shot.explode()` on an element of the player's `Vec<Laser>` is modelled by replacing that element with its exploded value. `LaserState.Exploded` is the same function `Laser.Explode` is proved against. Object identity of the list's lasers is not modelled; a Rust `Vec` holds its lasers by value, so no aliasing is lost.
- Fleet.ShiftX: only the negative case wraps, modulo 2^64. The round trip of `x as i32` for columns of 2^31 or more is not modelled, because `direction` is always 1 and columns stay far below that.
- Game.App.Tick: `destroyed_count` and `high_score` are unbounded naturals, so a `usize` overflow is not modelled (at most 90 kills per game).
- The `Drawable` trait is not modelled as a trait. `Player.Draw` and `Enemies.Draw` are plain methods with the same frame contract.
- The frame is a rectangular two-dimensional array rather than a vector of vectors. `new_frame` makes every column the same height, and nothing in the core changes a column's length.
- `src/lib.rs` declares the modules and the two board constants. It does not declare `frame`, which `player.rs` and `enemies.rs` use. Only the constants are modelled.
