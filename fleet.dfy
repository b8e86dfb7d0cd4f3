/** The enemy fleet (src/enemies.rs): a grid of invaders that steps sideways
    each time its step timer fires, and that the player's lasers shoot down. */
module Fleet {
  import opened Board
  import opened Timers
  import opened Frames
  import opened Lasers

  /** Period of the fleet's step timer, in milliseconds. */
  const StepMillis: nat := 500
  /** The initial grid spans columns [FirstColumn, EndColumn) and rows [0, GridRows). */
  const FirstColumn: nat := 5
  const EndColumn: nat := 35
  const GridRows: nat := 3
  const FleetSize: nat := 90
  /** Modulus of the platform's `usize` (64 bits), used where a negative
      column is cast back to an unsigned one. */
  const UsizeModulus: nat := 0x1_0000_0000_0000_0000

  datatype Enemy = Enemy(x: nat, y: nat, alive: bool)

  // ---------------------------------------------------------------------
  // Construction

  /** The fleet as built: column-major, index i at (5 + i / 3, i % 3), all alive. */
  function InitialArmy(): (army: seq<Enemy>)
    ensures |army| == FleetSize
    ensures forall i :: 0 <= i < |army| ==>
              army[i].alive && FirstColumn <= army[i].x < EndColumn && army[i].y < GridRows
  {
    seq(FleetSize, i requires 0 <= i < FleetSize =>
      Enemy(FirstColumn + i / GridRows, i % GridRows, true))
  }

  /** Builds the grid column by column, three rows per column. */
  method NewArmy() returns (army: seq<Enemy>)
    ensures army == InitialArmy()
  {
    army := [];
    for x := FirstColumn to EndColumn
      invariant |army| == GridRows * (x - FirstColumn)
      invariant forall i :: 0 <= i < |army| ==>
                  army[i] == Enemy(FirstColumn + i / GridRows, i % GridRows, true)
    {
      for y := 0 to GridRows
        invariant |army| == GridRows * (x - FirstColumn) + y
        invariant forall i :: 0 <= i < |army| ==>
                    army[i] == Enemy(FirstColumn + i / GridRows, i % GridRows, true)
      {
        army := army + [Enemy(x, y, true)];
      }
    }
  }

  // ---------------------------------------------------------------------
  // Queries

  /** No enemy is alive: every enemy of the army counts as dead. */
  predicate AllDeadIn(army: seq<Enemy>): (d: bool)
    ensures d <==> CountDead(army) == |army|
  {
    AllDeadCount(army);
    forall i :: 0 <= i < |army| ==> !army[i].alive
  }

  /** Some alive enemy is on the player's row or below; such a fleet is
      never all dead. */
  predicate ReachedBottomIn(army: seq<Enemy>): (b: bool)
    ensures b ==> !AllDeadIn(army)
  {
    exists i :: 0 <= i < |army| && army[i].alive && army[i].y >= NumRows - 1
  }

  /** Some alive enemy occupies cell (x, y). */
  predicate Occupied(army: seq<Enemy>, x: nat, y: nat) {
    exists i :: 0 <= i < |army| && army[i].alive && army[i].x == x && army[i].y == y
  }

  /** The fleet as built: its enemies are on distinct cells, and it is
      neither all dead nor at the bottom. */
  lemma InitialArmyLayout()
    ensures forall i, j :: 0 <= i < j < FleetSize ==>
              InitialArmy()[i].x != InitialArmy()[j].x || InitialArmy()[i].y != InitialArmy()[j].y
    ensures !AllDeadIn(InitialArmy()) && !ReachedBottomIn(InitialArmy())
    ensures CountDead(InitialArmy()) == 0
  {
    var a := InitialArmy();
    forall i, j | 0 <= i < j < FleetSize
      ensures a[i].x != a[j].x || a[i].y != a[j].y
    {
      assert i == GridRows * (i / GridRows) + i % GridRows;
      assert j == GridRows * (j / GridRows) + j % GridRows;
    }
    assert a[0].alive;
    NoneDeadCount(a);
  }

  // ---------------------------------------------------------------------
  // Marching

  /** The column `x` moved by `direction`, as `Enemies::update` computes it: a
      negative result wraps around into the unsigned range. */
  function ShiftX(x: nat, direction: int): (r: nat)
    ensures direction >= 0 ==> r == x + direction
  {
    if x + direction >= 0 then x + direction else (x + direction) % UsizeModulus
  }

  /** Every live enemy moved sideways by `direction`; the dead stay put. */
  function Shifted(army: seq<Enemy>, direction: int): (r: seq<Enemy>)
    ensures |r| == |army|
    ensures forall i :: 0 <= i < |army| ==>
              r[i].y == army[i].y && r[i].alive == army[i].alive &&
              r[i].x == (if army[i].alive then ShiftX(army[i].x, direction) else army[i].x)
  {
    seq(|army|, i requires 0 <= i < |army| =>
      if army[i].alive then army[i].(x := ShiftX(army[i].x, direction)) else army[i])
  }

  /** The step timer after an update: re-armed when it fired. */
  function StepTimer(t: Timer, d: nat): (r: Timer)
    ensures t.Valid() ==> r.Valid() && !r.ready
    ensures r.duration == t.duration
  {
    var u := t.Update(d);
    if u.ready then u.Reset() else u
  }

  /** The army after an update by `d`: shifted when the step timer fires. */
  function Marched(army: seq<Enemy>, t: Timer, direction: int, d: nat): (r: seq<Enemy>)
    ensures |r| == |army|
    ensures !t.Update(d).ready ==> r == army
    ensures forall i :: 0 <= i < |army| ==> r[i].y == army[i].y && r[i].alive == army[i].alive
  {
    if t.Update(d).ready then Shifted(army, direction) else army
  }

  // ---------------------------------------------------------------------
  // Formation: the shape the fleet keeps for its whole life

  /** Enemy i stays on row i % 3 and, while alive, sits at column
      5 + i / 3 + offset: all live enemies share one horizontal offset. */
  ghost predicate Formation(army: seq<Enemy>, offset: nat) {
    |army| == FleetSize &&
    forall i :: 0 <= i < |army| ==>
      army[i].y == i % GridRows &&
      (army[i].alive ==> army[i].x == FirstColumn + i / GridRows + offset)
  }

  lemma InitialFormation()
    ensures Formation(InitialArmy(), 0)
  {
  }

  /** A step to the right moves the whole formation one column. */
  lemma ShiftedFormation(army: seq<Enemy>, offset: nat)
    requires Formation(army, offset)
    ensures Formation(Shifted(army, 1), offset + 1)
  {
  }

  /** Enemies never leave rows 0..2, because the fleet never descends: a
      fleet in formation never reaches the bottom. */
  lemma FormationNeverAtBottom(army: seq<Enemy>, offset: nat)
    requires Formation(army, offset)
    ensures !ReachedBottomIn(army)
  {
  }

  /** What can happen to the fleet in a tick: the step timer advances by
      `d` milliseconds (the fleet marches right when it fires), or a shot
      list is resolved against it. */
  datatype FleetEvent = Step(d: nat) | Volley(shots: seq<LaserState>)

  /** The army after a history of events, marching right as `Enemies::update`
      always does. */
  function Run(army: seq<Enemy>, t: Timer, events: seq<FleetEvent>): (r: seq<Enemy>)
    ensures |r| == |army|
    decreases |events|
  {
    if events == [] then army
    else match events[0]
      case Step(d) => Run(Marched(army, t, 1, d), StepTimer(t, d), events[1..])
      case Volley(shots) => Run(Resolved(army, shots), t, events[1..])
  }

  /** Every history keeps the fleet in formation at some offset. */
  lemma {:induction false} RunKeepsFormation(army: seq<Enemy>, offset: nat, t: Timer, events: seq<FleetEvent>)
    requires Formation(army, offset)
    ensures exists o: nat :: Formation(Run(army, t, events), o)
    decreases |events|
  {
    if events == [] {
      assert Formation(Run(army, t, events), offset);
    } else {
      match events[0]
      case Step(d) =>
        var next := Marched(army, t, 1, d);
        assert Run(army, t, events) == Run(next, StepTimer(t, d), events[1..]);
        if t.Update(d).ready {
          ShiftedFormation(army, offset);
          RunKeepsFormation(next, offset + 1, StepTimer(t, d), events[1..]);
        } else {
          RunKeepsFormation(next, offset, StepTimer(t, d), events[1..]);
        }
      case Volley(shots) =>
        assert Run(army, t, events) == Run(Resolved(army, shots), t, events[1..]);
        ResolvedKeepsFormation(army, shots, offset);
        RunKeepsFormation(Resolved(army, shots), offset, t, events[1..]);
    }
  }

  /** Whatever happens, the fleet built by `Enemies::new` never reaches the
      player's row: `Enemies::update` has no descent, so the losing condition of
      `reached_bottom` cannot arise. */
  lemma NeverReachesBottom(t: Timer, events: seq<FleetEvent>)
    ensures !ReachedBottomIn(Run(InitialArmy(), t, events))
  {
    InitialFormation();
    RunKeepsFormation(InitialArmy(), 0, t, events);
    var o: nat :| Formation(Run(InitialArmy(), t, events), o);
    FormationNeverAtBottom(Run(InitialArmy(), t, events), o);
  }

  /** The army after n steps of the march, with no shot fired. */
  function ShiftedTimes(army: seq<Enemy>, n: nat): (r: seq<Enemy>)
    ensures |r| == |army|
  {
    if n == 0 then army else Shifted(ShiftedTimes(army, n - 1), 1)
  }

  /** Unshot, the fleet marches right without end: after n steps it is in
      formation n columns to the right with every enemy alive, so from the
      sixth step on its right-hand enemy stands outside the board, where
      `Enemies::draw` would index the frame out of range. */
  lemma {:induction false} DriftsOffTheBoard(n: nat)
    ensures Formation(ShiftedTimes(InitialArmy(), n), n)
    ensures forall i :: 0 <= i < FleetSize ==> ShiftedTimes(InitialArmy(), n)[i].alive
    ensures n >= NumCols - (EndColumn - 1) ==> ShiftedTimes(InitialArmy(), n)[FleetSize - 1].x >= NumCols
  {
    if n == 0 {
      InitialFormation();
    } else {
      DriftsOffTheBoard(n - 1);
      ShiftedFormation(ShiftedTimes(InitialArmy(), n - 1), n - 1);
    }
  }

  // ---------------------------------------------------------------------
  // Collisions

  /** A laser hits an enemy: it is still travelling and on the enemy's cell. */
  predicate Hits(s: LaserState, e: Enemy): (h: bool)
    ensures s.exploded ==> !h
    ensures h ==> s.x == e.x && s.y == e.y
  {
    !s.exploded && s.x == e.x && s.y == e.y
  }

  /** The shots after one enemy's turn in `hit_by`: a live enemy explodes
      every travelling shot on its cell (each shot is compared once). */
  function Strike(e: Enemy, shots: seq<LaserState>): (r: seq<LaserState>)
    ensures |r| == |shots|
  {
    if e.alive then
      seq(|shots|, j requires 0 <= j < |shots| =>
        if Hits(shots[j], e) then shots[j].Exploded() else shots[j])
    else shots
  }

  /** The shots after the enemies of `army`, in order, have had their turn. */
  function ShotsAfter(army: seq<Enemy>, shots: seq<LaserState>): (r: seq<LaserState>)
    ensures |r| == |shots|
    decreases |army|
  {
    if army == [] then shots
    else Strike(army[|army| - 1], ShotsAfter(army[..|army| - 1], shots))
  }

  /** A live enemy is struck when some shot hits it. */
  predicate Struck(e: Enemy, shots: seq<LaserState>) {
    e.alive && exists j :: 0 <= j < |shots| && Hits(shots[j], e)
  }

  /** The army after `hit_by`: enemy k dies when struck by the shots as the
      enemies before it have left them. */
  function Resolved(army: seq<Enemy>, shots: seq<LaserState>): (r: seq<Enemy>)
    ensures |r| == |army|
    ensures forall k :: 0 <= k < |army| ==>
              r[k].x == army[k].x && r[k].y == army[k].y && (r[k].alive ==> army[k].alive)
  {
    seq(|army|, k requires 0 <= k < |army| =>
      if Struck(army[k], ShotsAfter(army[..k], shots)) then army[k].(alive := false) else army[k])
  }

  /** Number of enemies whose `alive` flag went from true to false. */
  function Kills(before: seq<Enemy>, after: seq<Enemy>): (n: nat)
    requires |before| == |after|
    ensures n <= |before|
    decreases |before|
  {
    if before == [] then 0
    else
      var n := |before| - 1;
      Kills(before[..n], after[..n]) + (if before[n].alive && !after[n].alive then 1 else 0)
  }

  /** Kills over one more enemy. */
  lemma KillsStep(before: seq<Enemy>, after: seq<Enemy>, i: nat)
    requires |before| == |after| && i < |before|
    ensures Kills(before[..i + 1], after[..i + 1]) ==
              Kills(before[..i], after[..i]) + (if before[i].alive && !after[i].alive then 1 else 0)
  {
    assert before[..i + 1][..i] == before[..i];
    assert after[..i + 1][..i] == after[..i];
  }

  /** Number of dead enemies. */
  function CountDead(army: seq<Enemy>): (n: nat)
    ensures n <= |army|
    decreases |army|
  {
    if army == [] then 0
    else CountDead(army[..|army| - 1]) + (if army[|army| - 1].alive then 0 else 1)
  }

  /** A shot is either untouched or was travelling and is now exploded. */
  ghost predicate SameOrExploded(before: LaserState, after: LaserState) {
    after == before || (!before.exploded && after == before.Exploded())
  }

  /** Shots only ever change by exploding, once. */
  lemma {:induction false} ShotsOnlyExplode(army: seq<Enemy>, shots: seq<LaserState>)
    ensures forall j :: 0 <= j < |shots| ==> SameOrExploded(shots[j], ShotsAfter(army, shots)[j])
    decreases |army|
  {
    if army != [] {
      var n := |army| - 1;
      ShotsOnlyExplode(army[..n], shots);
      var mid := ShotsAfter(army[..n], shots);
      forall j | 0 <= j < |shots|
        ensures SameOrExploded(shots[j], ShotsAfter(army, shots)[j])
      {
        assert SameOrExploded(mid[j], Strike(army[n], mid)[j]);
      }
    }
  }

  /** The enemies' turns compose: those of a prefix, then those of the rest. */
  lemma {:induction false} ShotsAfterSplit(army: seq<Enemy>, k: nat, shots: seq<LaserState>)
    requires k <= |army|
    ensures ShotsAfter(army, shots) == ShotsAfter(army[k..], ShotsAfter(army[..k], shots))
    decreases |army| - k
  {
    if k < |army| {
      var n := |army| - 1;
      ShotsAfterSplit(army[..n], k, shots);
      assert army[..n][..k] == army[..k];
      assert army[k..][..|army[k..]| - 1] == army[..n][k..];
      assert army[k..][|army[k..]| - 1] == army[n];
    } else {
      assert army[..k] == army;
    }
  }

  /** The shots as left just after enemy k's turn. */
  lemma ShotsAfterTurn(army: seq<Enemy>, k: nat, shots: seq<LaserState>)
    requires k < |army|
    ensures ShotsAfter(army[..k + 1], shots) == Strike(army[k], ShotsAfter(army[..k], shots))
  {
    assert army[..k + 1][..k] == army[..k];
  }

  /** The army part-way through `hit_by`: the first i enemies have had
      their turn, the rest are as they were. */
  function ResolvedUpTo(army: seq<Enemy>, shots: seq<LaserState>, i: nat): (r: seq<Enemy>)
    requires i <= |army|
    ensures |r| == |army|
  {
    Resolved(army, shots)[..i] + army[i..]
  }

  /** Once every enemy has had its turn, the army is resolved. */
  lemma ResolvedUpToEnd(army: seq<Enemy>, shots: seq<LaserState>)
    ensures ResolvedUpTo(army, shots, |army|) == Resolved(army, shots)
    ensures army[..|army|] == army && Resolved(army, shots)[..|army|] == Resolved(army, shots)
  {
    assert army[|army|..] == [];
  }

  /** Enemy i's turn turns the army resolved up to i into the army resolved
      up to i + 1. */
  lemma ResolvedTurn(army: seq<Enemy>, shots: seq<LaserState>, i: nat)
    requires i < |army|
    ensures ResolvedUpTo(army, shots, i)[i] == army[i]
    ensures ResolvedUpTo(army, shots, i + 1) ==
              ResolvedUpTo(army, shots, i)[i := Resolved(army, shots)[i]]
  {
    var r := Resolved(army, shots);
    var a := r[..i] + army[i..];
    var b := r[..i + 1] + army[i + 1..];
    assert a[i] == army[i];
    forall k | 0 <= k < |army|
      ensures b[k] == a[i := r[i]][k]
    {
      if k < i {
        assert b[k] == r[k] == a[k];
      } else if k > i {
        assert b[k] == army[k] == a[k];
      }
    }
  }

  /** After `hit_by`, no live enemy shares a cell with a travelling shot. */
  lemma NoSurvivorUnderLiveShot(army: seq<Enemy>, shots: seq<LaserState>)
    ensures forall k, j :: 0 <= k < |army| && 0 <= j < |shots| && Resolved(army, shots)[k].alive ==>
              !Hits(ShotsAfter(army, shots)[j], Resolved(army, shots)[k])
  {
    var r := Resolved(army, shots);
    var fin := ShotsAfter(army, shots);
    forall k, j | 0 <= k < |army| && 0 <= j < |shots| && r[k].alive
      ensures !Hits(fin[j], r[k])
    {
      var mid := ShotsAfter(army[..k], shots);
      ShotsAfterSplit(army, k, shots);
      ShotsOnlyExplode(army[k..], mid);
      assert !Struck(army[k], mid);
      assert SameOrExploded(mid[j], fin[j]);
    }
  }

  /** After `hit_by`, every shot that was travelling on the cell of a live
      enemy has exploded, also when several shots hit the same enemy. */
  lemma EveryHittingShotExplodes(army: seq<Enemy>, shots: seq<LaserState>)
    ensures forall k, j :: 0 <= k < |army| && 0 <= j < |shots| && army[k].alive && Hits(shots[j], army[k]) ==>
              ShotsAfter(army, shots)[j].exploded
  {
    forall k, j | 0 <= k < |army| && 0 <= j < |shots| && army[k].alive && Hits(shots[j], army[k])
      ensures ShotsAfter(army, shots)[j].exploded
    {
      var mid := ShotsAfter(army[..k], shots);
      ShotsOnlyExplode(army[..k], shots);
      ShotsAfterTurn(army, k, shots);
      var next := ShotsAfter(army[..k + 1], shots);
      assert next[j].exploded;
      ShotsAfterSplit(army, k + 1, shots);
      ShotsOnlyExplode(army[k + 1..], next);
    }
  }

  /** An enemy dies in `hit_by` only if a travelling shot was on its cell. */
  lemma KilledOnlyByAShot(army: seq<Enemy>, shots: seq<LaserState>)
    ensures forall k :: 0 <= k < |army| && army[k].alive && !Resolved(army, shots)[k].alive ==>
              exists j :: 0 <= j < |shots| && Hits(shots[j], army[k])
  {
    forall k | 0 <= k < |army| && army[k].alive && !Resolved(army, shots)[k].alive
      ensures exists j :: 0 <= j < |shots| && Hits(shots[j], army[k])
    {
      var mid := ShotsAfter(army[..k], shots);
      ShotsOnlyExplode(army[..k], shots);
      var j :| 0 <= j < |mid| && Hits(mid[j], army[k]);
      assert SameOrExploded(shots[j], mid[j]);
      assert Hits(shots[j], army[k]);
    }
  }

  /** No two live enemies share a cell. */
  predicate DistinctLive(army: seq<Enemy>) {
    forall a, b :: 0 <= a < b < |army| && army[a].alive && army[b].alive ==>
      army[a].x != army[b].x || army[a].y != army[b].y
  }

  /** A fleet in formation has its live enemies on distinct cells. */
  lemma FormationDistinct(army: seq<Enemy>, offset: nat)
    requires Formation(army, offset)
    ensures DistinctLive(army)
  {
    forall a, b | 0 <= a < b < |army| && army[a].alive && army[b].alive
      ensures army[a].x != army[b].x || army[a].y != army[b].y
    {
      assert a == GridRows * (a / GridRows) + a % GridRows;
      assert b == GridRows * (b / GridRows) + b % GridRows;
    }
  }

  /** A shot that no live enemy of the army stands under passes through
      every turn unchanged. */
  lemma {:induction false} ShotUntouched(army: seq<Enemy>, shots: seq<LaserState>, j: nat)
    requires j < |shots|
    requires forall k :: 0 <= k < |army| && army[k].alive ==> !Hits(shots[j], army[k])
    ensures ShotsAfter(army, shots)[j] == shots[j]
    decreases |army|
  {
    if army != [] {
      var n := |army| - 1;
      ShotUntouched(army[..n], shots, j);
    }
  }

  /** With live enemies on distinct cells, `hit_by` kills exactly the live
      enemies that a travelling shot is on. */
  lemma HitEnemiesDie(army: seq<Enemy>, shots: seq<LaserState>)
    requires DistinctLive(army)
    ensures forall k :: 0 <= k < |army| ==>
              (Resolved(army, shots)[k].alive <==>
                 army[k].alive && !exists j :: 0 <= j < |shots| && Hits(shots[j], army[k]))
  {
    KilledOnlyByAShot(army, shots);
    forall k, j | 0 <= k < |army| && 0 <= j < |shots| && army[k].alive && Hits(shots[j], army[k])
      ensures !Resolved(army, shots)[k].alive
    {
      var prefix := army[..k];
      forall i | 0 <= i < |prefix| && prefix[i].alive
        ensures !Hits(shots[j], prefix[i])
      {
        assert army[i] == prefix[i];
      }
      ShotUntouched(prefix, shots, j);
      assert Hits(ShotsAfter(prefix, shots)[j], army[k]);
    }
  }

  /** Collisions keep every shot a well-formed laser. */
  lemma ShotsStayValid(army: seq<Enemy>, shots: seq<LaserState>)
    requires forall j :: 0 <= j < |shots| ==> shots[j].Valid()
    ensures forall j :: 0 <= j < |shots| ==> ShotsAfter(army, shots)[j].Valid()
  {
    ShotsOnlyExplode(army, shots);
    forall j | 0 <= j < |shots|
      ensures ShotsAfter(army, shots)[j].Valid()
    {
      assert SameOrExploded(shots[j], ShotsAfter(army, shots)[j]);
    }
  }

  /** Collisions only kill: the fleet stays in formation. */
  lemma ResolvedKeepsFormation(army: seq<Enemy>, shots: seq<LaserState>, offset: nat)
    requires Formation(army, offset)
    ensures Formation(Resolved(army, shots), offset)
  {
  }

  /** Turns of enemies that hit nothing leave the shots as they are. */
  lemma {:induction false} NoHitsKeepShots(army: seq<Enemy>, shots: seq<LaserState>)
    requires forall k, j :: 0 <= k < |army| && 0 <= j < |shots| && army[k].alive ==> !Hits(shots[j], army[k])
    ensures ShotsAfter(army, shots) == shots
    decreases |army|
  {
    if army != [] {
      var n := |army| - 1;
      NoHitsKeepShots(army[..n], shots);
      assert forall j :: 0 <= j < |shots| && army[n].alive ==> !Hits(shots[j], army[n]);
    }
  }

  /** `hit_by` run a second time on what the first run left kills nothing and
      changes nothing. */
  lemma HitByIdempotent(army: seq<Enemy>, shots: seq<LaserState>)
    ensures Resolved(Resolved(army, shots), ShotsAfter(army, shots)) == Resolved(army, shots)
    ensures ShotsAfter(Resolved(army, shots), ShotsAfter(army, shots)) == ShotsAfter(army, shots)
  {
    var r := Resolved(army, shots);
    var fin := ShotsAfter(army, shots);
    NoSurvivorUnderLiveShot(army, shots);
    NoHitsKeepShots(r, fin);
    forall k | 0 <= k < |r|
      ensures Resolved(r, fin)[k] == r[k]
    {
      NoHitsKeepShots(r[..k], fin);
    }
  }

  /** `Kills` is positive exactly when some enemy's flag flipped. */
  lemma {:induction false} KillsPositive(before: seq<Enemy>, after: seq<Enemy>)
    requires |before| == |after|
    ensures Kills(before, after) > 0 <==>
              exists k :: 0 <= k < |before| && before[k].alive && !after[k].alive
    decreases |before|
  {
    if before != [] {
      var n := |before| - 1;
      KillsPositive(before[..n], after[..n]);
      if Kills(before[..n], after[..n]) > 0 {
        var k :| 0 <= k < n && before[..n][k].alive && !after[..n][k].alive;
        assert before[k].alive && !after[k].alive;
      }
      if k :| 0 <= k < |before| && before[k].alive && !after[k].alive {
        if k < n {
          assert before[..n][k].alive && !after[..n][k].alive;
        }
      }
    }
  }

  /** Killing enemies raises the count of the dead by exactly the kills. */
  lemma {:induction false} CountDeadAfterKills(before: seq<Enemy>, after: seq<Enemy>)
    requires |before| == |after|
    requires forall k :: 0 <= k < |after| && after[k].alive ==> before[k].alive
    ensures CountDead(after) == CountDead(before) + Kills(before, after)
    decreases |before|
  {
    if before != [] {
      var n := |before| - 1;
      CountDeadAfterKills(before[..n], after[..n]);
    }
  }

  /** Two armies with the same flags have the same number of dead. */
  lemma {:induction false} SameFlagsSameDead(a: seq<Enemy>, b: seq<Enemy>)
    requires |a| == |b|
    requires forall k :: 0 <= k < |a| ==> a[k].alive == b[k].alive
    ensures CountDead(a) == CountDead(b)
    decreases |a|
  {
    if a != [] {
      SameFlagsSameDead(a[..|a| - 1], b[..|b| - 1]);
    }
  }

  /** An army with nobody dead counts zero dead. */
  lemma {:induction false} NoneDeadCount(army: seq<Enemy>)
    requires forall k :: 0 <= k < |army| ==> army[k].alive
    ensures CountDead(army) == 0
    decreases |army|
  {
    if army != [] {
      NoneDeadCount(army[..|army| - 1]);
    }
  }

  /** The dead count reaches the army's size exactly when every enemy is
      dead. */
  lemma {:induction false} AllDeadCount(army: seq<Enemy>)
    ensures CountDead(army) == |army| <==> forall i :: 0 <= i < |army| ==> !army[i].alive
    decreases |army|
  {
    if army != [] {
      var n := |army| - 1;
      AllDeadCount(army[..n]);
      assert forall i :: 0 <= i < n ==> army[..n][i] == army[i];
    }
  }

  // ---------------------------------------------------------------------
  // The fleet object

  class Enemies {
    var army: seq<Enemy>
    var moveTimer: Timer
    var direction: int

    /** `direction` is never reassigned after construction, and the step
        timer stays a well-formed 500 ms timer. */
    ghost predicate Valid()
      reads this
    {
      direction == 1 && moveTimer.Valid() && moveTimer.duration == StepMillis
    }

    constructor ()
      ensures army == InitialArmy()
      ensures moveTimer == Timer.FromMillis(StepMillis) && direction == 1
      ensures Valid()
    {
      var built := NewArmy();
      army := built;
      moveTimer := Timer.FromMillis(StepMillis);
      direction := 1;
    }

    /** Advances the step timer; when it fires, every live enemy moves by
        `direction` and the timer is re-armed. */
    method Update(d: nat)
      modifies this
      ensures army == Marched(old(army), old(moveTimer), old(direction), d)
      ensures moveTimer == StepTimer(old(moveTimer), d)
      ensures direction == old(direction)
      ensures old(Valid()) ==> Valid()
    {
      moveTimer := moveTimer.Update(d);
      if moveTimer.ready {
        ghost var army0 := army;
        ghost var timer0 := moveTimer;
        for i := 0 to |army|
          invariant |army| == |army0|
          invariant moveTimer == timer0 && direction == old(direction)
          invariant forall k :: 0 <= k < i ==> army[k] == Shifted(army0, direction)[k]
          invariant forall k :: i <= k < |army| ==> army[k] == army0[k]
        {
          if army[i].alive {
            army := army[i := army[i].(x := ShiftX(army[i].x, direction))];
          }
        }
        moveTimer := moveTimer.Reset();
      }
    }

    /** Writes "V" on every live enemy's cell and on no other cell. */
    method Draw(frame: Frame)
      requires forall i :: 0 <= i < |army| && army[i].alive ==> InFrame(frame, army[i].x, army[i].y)
      modifies frame
      ensures forall x, y :: 0 <= x < frame.Length0 && 0 <= y < frame.Length1 ==>
                frame[x, y] == if Occupied(army, x, y) then "V" else old(frame[x, y])
    {
      for i := 0 to |army|
        invariant forall x, y :: 0 <= x < frame.Length0 && 0 <= y < frame.Length1 ==>
                    frame[x, y] == if Occupied(army[..i], x, y) then "V" else old(frame[x, y])
      {
        if army[i].alive {
          frame[army[i].x, army[i].y] := "V";
        }
        assert army[..i + 1][..i] == army[..i];
      }
      assert army[..|army|] == army;
    }

    predicate AllDead(): (d: bool)
      reads this
      ensures d <==> CountDead(army) == |army|
    {
      AllDeadIn(army)
    }

    predicate ReachedBottom(): (b: bool)
      reads this
      ensures b ==> !AllDead()
    {
      ReachedBottomIn(army)
    }

    /** Enemy i's turn in `hit_by`: when it is alive, every travelling shot
        on its cell explodes (the inner loop), and the enemy dies if there
        was any. */
    method Engage(i: nat, shots: seq<LaserState>) returns (hit: bool, shots': seq<LaserState>)
      requires i < |army|
      modifies this`army
      ensures army == old(army)[i := if Struck(old(army[i]), shots) then old(army[i]).(alive := false) else old(army[i])]
      ensures shots' == Strike(old(army[i]), shots)
      ensures hit <==> Struck(old(army[i]), shots)
    {
      hit := false;
      shots' := shots;
      if army[i].alive {
        ghost var e := army[i];
        var j := 0;
        while j < |shots'|
          invariant 0 <= j <= |shots'| == |shots|
          invariant army == old(army)[i := e.(alive := !exists k :: 0 <= k < j && Hits(shots[k], e))]
          invariant forall k :: 0 <= k < |shots| ==>
                      shots'[k] == if k < j && Hits(shots[k], e) then shots[k].Exploded() else shots[k]
          invariant hit <==> exists k :: 0 <= k < j && Hits(shots[k], e)
        {
          if !shots'[j].exploded && shots'[j].x == army[i].x && shots'[j].y == army[i].y {
            army := army[i := army[i].(alive := false)];
            shots' := shots'[j := shots'[j].Exploded()];
            hit := true;
          }
          j := j + 1;
        }
      }
    }

    /** Resolves collisions with the player's shot list: a live enemy dies
        when a travelling shot is on its cell, and that shot explodes. The
        list is updated in place by `hit_by`; here `shots'` is the list
        as the call leaves it. Returns whether anything was hit and how many
        enemies died. */
    method HitBy(shots: seq<LaserState>) returns (hit: bool, kills: nat, shots': seq<LaserState>)
      modifies this`army
      ensures army == Resolved(old(army), shots)
      ensures shots' == ShotsAfter(old(army), shots)
      ensures kills == Kills(old(army), army)
      ensures hit <==> kills > 0
    {
      ghost var army0 := army;
      ghost var resolved := Resolved(army0, shots);
      hit := false;
      kills := 0;
      shots' := shots;
      assert army == ResolvedUpTo(army0, shots, 0);
      var i := 0;
      while i < |army|
        invariant 0 <= i <= |army| == |army0|
        invariant army == ResolvedUpTo(army0, shots, i)
        invariant shots' == ShotsAfter(army0[..i], shots)
        invariant kills == Kills(army0[..i], resolved[..i])
        invariant hit <==> kills > 0
      {
        ResolvedTurn(army0, shots, i);
        var struck;
        struck, shots' := Engage(i, shots');
        if struck {
          hit := true;
          kills := kills + 1;
        }
        ShotsAfterTurn(army0, i, shots);
        KillsStep(army0, resolved, i);
        i := i + 1;
      }
      ResolvedUpToEnd(army0, shots);
    }
  }
}
