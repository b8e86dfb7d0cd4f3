/** The application state machine (src/app.rs): it owns the player, the
    player's shots and the enemy fleet, advances them once per tick and
    decides when the game is won or lost. */
module Game {
  import opened Board
  import opened Timers
  import opened Lasers
  import opened Players
  import opened Fleet

  datatype GameState = Playing | GameOver | Win

  /** The state after the win/lose check on the army a tick leaves: winning
      takes precedence over losing. */
  function Verdict(army: seq<Enemy>): (s: GameState)
    ensures s == Win <==> AllDeadIn(army)
    ensures s == GameOver <==> !AllDeadIn(army) && ReachedBottomIn(army)
    ensures s == Playing <==> !AllDeadIn(army) && !ReachedBottomIn(army)
  {
    if AllDeadIn(army) then Win
    else if ReachedBottomIn(army) then GameOver
    else Playing
  }

  /** The fleet built by a new game or a restart can only end the game by
      being destroyed: no history of marches and volleys gives `GameOver`. */
  lemma NeverGameOver(t: Timer, events: seq<FleetEvent>)
    ensures Verdict(Run(InitialArmy(), t, events)) != GameOver
  {
    NeverReachesBottom(t, events);
  }

  function Max(a: nat, b: nat): (m: nat)
    ensures m >= a && m >= b && (m == a || m == b)
  {
    if a >= b then a else b
  }

  class App {
    var player: Player
    /** The player's shot list; a Rust `Vec<Laser>` holds its lasers by
        value, so the list is a sequence of laser values. */
    var shots: seq<LaserState>
    var enemies: Enemies
    var destroyedCount: nat
    var highScore: nat
    var state: GameState
    var shouldQuit: bool

    /** The score counts exactly the dead enemies, a finished game's score
        is already in the high score, and the fleet keeps its formation, so
        the game is never lost. */
    ghost predicate Valid()
      reads this, player, enemies
    {
      player.Valid() && enemies.Valid() &&
      (exists offset: nat :: Formation(enemies.army, offset)) && state != GameOver &&
      (forall k :: 0 <= k < |shots| ==> shots[k].Valid()) &&
      destroyedCount == CountDead(enemies.army) &&
      (state != Playing ==> destroyedCount <= highScore)
    }

    constructor ()
      ensures Valid() && fresh(player) && fresh(enemies)
      ensures player.x == NumCols / 2 && player.y == NumRows - 1
      ensures enemies.army == InitialArmy()
      ensures enemies.moveTimer == Timer.FromMillis(StepMillis) && enemies.direction == 1
      ensures shots == []
      ensures destroyedCount == 0 && highScore == 0 && state == Playing && !shouldQuit
    {
      player := new Player();
      shots := [];
      enemies := new Enemies();
      destroyedCount := 0;
      highScore := 0;
      state := Playing;
      shouldQuit := false;
      new;
      NoneDeadCount(enemies.army);
      InitialFormation();
    }

    /** Starts a new game with a fresh player and fleet, keeping the high
        score and the quit flag. */
    method Restart()
      requires Valid()
      modifies this
      ensures Valid() && fresh(player) && fresh(enemies)
      ensures player.x == NumCols / 2 && player.y == NumRows - 1
      ensures enemies.army == InitialArmy()
      ensures enemies.moveTimer == Timer.FromMillis(StepMillis) && enemies.direction == 1
      ensures shots == []
      ensures destroyedCount == 0 && state == Playing
      ensures highScore == old(highScore) && shouldQuit == old(shouldQuit)
    {
      player := new Player();
      shots := [];
      enemies := new Enemies();
      destroyedCount := 0;
      state := Playing;
      NoneDeadCount(enemies.army);
      InitialFormation();
    }

    /** One game tick of `delta` milliseconds. While playing: the player's
        step leaves the shot list `stepped`, the fleet marches, collisions
        are resolved and their kills scored, and the win/lose check runs. In
        Win or GameOver nothing changes. */
    method Tick(delta: nat, stepped: seq<LaserState>)
      requires Valid()
      requires forall k :: 0 <= k < |stepped| ==> stepped[k].Valid()
      modifies this, enemies
      ensures Valid()
      ensures player == old(player) && enemies == old(enemies) && shouldQuit == old(shouldQuit)
      ensures destroyedCount >= old(destroyedCount) && highScore >= old(highScore)
      ensures state != GameOver
      ensures old(state) != Playing ==>
                state == old(state) && shots == old(shots) &&
                destroyedCount == old(destroyedCount) && highScore == old(highScore) &&
                unchanged(enemies)
      ensures old(state) == Playing ==>
                var marched := Marched(old(enemies.army), old(enemies.moveTimer), old(enemies.direction), delta);
                enemies.moveTimer == StepTimer(old(enemies.moveTimer), delta) &&
                enemies.army == Resolved(marched, stepped) &&
                shots == ShotsAfter(marched, stepped) &&
                destroyedCount == old(destroyedCount) + Kills(marched, enemies.army) &&
                state == Verdict(enemies.army) &&
                highScore == (if state == Playing then old(highScore) else Max(old(highScore), destroyedCount))
    {
      if state == Playing {
        Advance(delta, stepped);
        CheckOutcome();
      }
    }

    /** The playing part of a tick before the win/lose check: the player's
        step leaves `stepped`, the fleet marches, collisions are resolved
        and the kills are added to the score. */
    method Advance(delta: nat, stepped: seq<LaserState>)
      requires Valid() && state == Playing
      requires forall k :: 0 <= k < |stepped| ==> stepped[k].Valid()
      modifies this, enemies
      ensures Valid()
      ensures player == old(player) && enemies == old(enemies) && shouldQuit == old(shouldQuit)
      ensures state == old(state) && highScore == old(highScore)
      ensures enemies.moveTimer == StepTimer(old(enemies.moveTimer), delta)
      ensures enemies.army ==
                Resolved(Marched(old(enemies.army), old(enemies.moveTimer), old(enemies.direction), delta), stepped)
      ensures shots ==
                ShotsAfter(Marched(old(enemies.army), old(enemies.moveTimer), old(enemies.direction), delta), stepped)
      ensures destroyedCount == old(destroyedCount) +
                Kills(Marched(old(enemies.army), old(enemies.moveTimer), old(enemies.direction), delta), enemies.army)
    {
      ghost var offset: nat :| Formation(enemies.army, offset);
      shots := stepped;
      enemies.Update(delta);
      SameFlagsSameDead(old(enemies.army), enemies.army);
      if old(enemies.moveTimer).Update(delta).ready {
        ShiftedFormation(old(enemies.army), offset);
        offset := offset + 1;
      }
      ghost var marched := enemies.army;
      Collide();
      ResolvedKeepsFormation(marched, stepped, offset);
    }

    /** Collisions of the shots with the fleet, and their kills added to the
        score: the score keeps counting exactly the dead enemies, and the
        shots stay well-formed. */
    method Collide()
      requires destroyedCount == CountDead(enemies.army)
      requires forall k :: 0 <= k < |shots| ==> shots[k].Valid()
      modifies this`shots, this`destroyedCount, enemies`army
      ensures enemies.army == Resolved(old(enemies.army), old(shots))
      ensures shots == ShotsAfter(old(enemies.army), old(shots))
      ensures destroyedCount == old(destroyedCount) + Kills(old(enemies.army), enemies.army)
      ensures destroyedCount == CountDead(enemies.army)
      ensures forall k :: 0 <= k < |shots| ==> shots[k].Valid()
    {
      var hit, destroyed, after := enemies.HitBy(shots);
      ShotsStayValid(old(enemies.army), shots);
      CountDeadAfterKills(old(enemies.army), enemies.army);
      shots := after;
      if destroyed > 0 {
        destroyedCount := destroyedCount + destroyed;
      }
    }

    /** The win/lose check: all dead wins, otherwise reaching the bottom
        loses, and either way the score may become the new high score. */
    method CheckOutcome()
      requires state == Playing
      modifies this`state, this`highScore
      ensures state == Verdict(enemies.army)
      ensures highScore == (if state == Playing then old(highScore) else Max(old(highScore), destroyedCount))
    {
      if enemies.AllDead() {
        state := Win;
        if destroyedCount > highScore {
          highScore := destroyedCount;
        }
      } else if enemies.ReachedBottom() {
        state := GameOver;
        if destroyedCount > highScore {
          highScore := destroyedCount;
        }
      }
    }
  }
}
