/** The player's projectile (src/laser.rs). A laser travels up one row each
    time its travel timer fires; once it has hit something it is "exploded",
    stops moving, and lives on for the explosion period. */
module Lasers {
  import opened Timers

  /** Period of the travel timer, in milliseconds. */
  const TravelMillis: nat := 60
  /** Period of the explosion timer, in milliseconds. */
  const ExplosionMillis: nat := 300

  /** The value of a laser: what `Laser` objects hold at any instant. */
  datatype LaserState = LaserState(x: nat, y: nat, exploded: bool, timer: Timer) {

    /** A laser just fired from (x, y). */
    static function New(x: nat, y: nat): (s: LaserState)
      ensures s.x == x && s.y == y && !s.exploded && s.Valid()
      ensures s.timer == Timer.FromMillis(TravelMillis) && s.timer.timeLeft == TravelMillis
    {
      LaserState(x, y, false, Timer.FromMillis(TravelMillis))
    }

    /** The laser invariant: a well-formed timer whose period matches the
        phase, and a travelling laser never holds a ready timer (it re-arms
        the timer in the very update that sees it fire). */
    predicate Valid() {
      timer.Valid()
      && timer.duration == (if exploded then ExplosionMillis else TravelMillis)
      && (!exploded ==> !timer.ready)
    }

    /** One update by `d` milliseconds. */
    function Updated(d: nat): (s: LaserState)
      ensures s.x == x && s.exploded == exploded
      ensures s.y <= y <= s.y + 1
      ensures exploded ==> s.y == y && s.timer == timer.Update(d)
      ensures !exploded && timer.Update(d).ready ==>
                s.y == (if y > 0 then y - 1 else 0) && s.timer == timer.Update(d).Reset()
      ensures !timer.Update(d).ready ==> s == this.(timer := timer.Update(d))
      ensures Valid() ==> s.Valid()
    {
      var t := timer.Update(d);
      if t.ready && !exploded then
        LaserState(x, if y > 0 then y - 1 else 0, exploded, t.Reset())
      else
        this.(timer := t)
    }

    /** The laser after a hit: exploded, with a fresh explosion timer. */
    function Exploded(): (s: LaserState)
      ensures s.x == x && s.y == y && s.exploded && s.Valid()
      ensures !s.timer.ready && s.timer.timeLeft == ExplosionMillis
    {
      this.(exploded := true, timer := Timer.FromMillis(ExplosionMillis))
    }

    /** Whether the owner should discard the laser: a travelling laser
        exactly when it is on the top row, an exploded one also once its
        explosion timer has run out. */
    predicate Destroyed(): (d: bool)
      ensures !exploded ==> (d <==> y == 0)
      ensures exploded ==> (d <==> timer.ready || y == 0)
    {
      (exploded && timer.ready) || y == 0
    }
  }

  /** The laser after a run of updates by the given deltas, in order. */
  function UpdatedAll(s: LaserState, ds: seq<nat>): (r: LaserState)
    decreases |ds|
  {
    if ds == [] then s else UpdatedAll(s.Updated(ds[0]), ds[1..])
  }

  /** Total time of a run of deltas. */
  function Sum(ds: seq<nat>): (total: nat)
  {
    if ds == [] then 0 else ds[0] + Sum(ds[1..])
  }

  /** Over any run of updates a laser keeps its column and phase, never
      descends, and climbs at most one row per update. */
  lemma {:induction false} AtMostOneRowPerUpdate(s: LaserState, ds: seq<nat>)
    ensures UpdatedAll(s, ds).x == s.x && UpdatedAll(s, ds).exploded == s.exploded
    ensures UpdatedAll(s, ds).y <= s.y <= UpdatedAll(s, ds).y + |ds|
    decreases |ds|
  {
    if ds != [] {
      AtMostOneRowPerUpdate(s.Updated(ds[0]), ds[1..]);
    }
  }

  /** A freshly armed travelling laser updated by deltas that each cover a
      travel period climbs exactly one row per update until it stops at
      row 0, and its timer is freshly armed again after each update. */
  lemma {:induction false} Travel(s: LaserState, ds: seq<nat>)
    requires s.Valid() && !s.exploded && s.timer.timeLeft == TravelMillis
    requires forall i :: 0 <= i < |ds| ==> ds[i] >= TravelMillis
    ensures UpdatedAll(s, ds).y == (if s.y >= |ds| then s.y - |ds| else 0)
    ensures UpdatedAll(s, ds) == s.(y := UpdatedAll(s, ds).y)
    decreases |ds|
  {
    if ds != [] {
      var s' := s.Updated(ds[0]);
      assert s'.y == (if s.y > 0 then s.y - 1 else 0) && s' == s.(y := s'.y);
      Travel(s', ds[1..]);
    }
  }

  /** Updates that add up to less than the time left on a travelling
      laser's timer only count it down: the laser stays on its row. */
  lemma {:induction false} TravelCountdown(s: LaserState, ds: seq<nat>)
    requires s.Valid() && !s.exploded && Sum(ds) < s.timer.timeLeft
    ensures UpdatedAll(s, ds) == s.(timer := s.timer.(timeLeft := s.timer.timeLeft - Sum(ds)))
    decreases |ds|
  {
    if ds != [] {
      var s' := s.Updated(ds[0]);
      assert s' == s.(timer := s.timer.(timeLeft := s.timer.timeLeft - ds[0]));
      TravelCountdown(s', ds[1..]);
    }
  }

  /** At the game's 16 ms tick, a fresh laser climbs one row every four
      updates: the timer's 60 ms run out during the fourth update, after
      64 ms, and the 4 ms beyond the period are dropped by the reset. */
  lemma SixteenMillisTicks(x: nat, y: nat)
    requires y > 0
    ensures UpdatedAll(LaserState.New(x, y), [16, 16, 16]).y == y
    ensures UpdatedAll(LaserState.New(x, y), [16, 16, 16, 16]) == LaserState.New(x, y - 1)
  {
    var s := LaserState.New(x, y);
    TravelCountdown(s, [16, 16, 16]);
    assert Sum([16, 16, 16]) == 48;
    var s3 := UpdatedAll(s, [16, 16, 16]);
    assert s3.timer.timeLeft == 12;
    assert UpdatedAll(s, [16, 16, 16, 16]) == UpdatedAll(s.Updated(16), [16, 16, 16]);
    assert UpdatedAll(s.Updated(16), [16, 16, 16]) == UpdatedAll(s.Updated(16).Updated(16), [16, 16]);
    assert UpdatedAll(s.Updated(16).Updated(16), [16, 16]) == UpdatedAll(s.Updated(16).Updated(16).Updated(16), [16]);
    assert s.Updated(16).Updated(16).Updated(16) == s3;
  }

  /** An exploded laser never moves again; its timer counts the summed time
      down and is ready once that time covers what was left. */
  lemma {:induction false} ExplodedCountdown(s: LaserState, ds: seq<nat>)
    requires s.exploded && s.timer.Valid()
    ensures UpdatedAll(s, ds).x == s.x && UpdatedAll(s, ds).y == s.y && UpdatedAll(s, ds).exploded
    ensures UpdatedAll(s, ds).timer.timeLeft ==
              (if Sum(ds) >= s.timer.timeLeft then 0 else s.timer.timeLeft - Sum(ds))
    ensures UpdatedAll(s, ds).timer.ready <==> Sum(ds) >= s.timer.timeLeft
    decreases |ds|
  {
    if ds != [] {
      ExplodedCountdown(s.Updated(ds[0]), ds[1..]);
    }
  }

  /** After `explode`, a laser stays on its cell and is destroyed exactly
      when the updates since then add up to the explosion period (or at once,
      if it exploded on the top row). */
  lemma ExplosionLifetime(s: LaserState, ds: seq<nat>)
    ensures UpdatedAll(s.Exploded(), ds).x == s.x && UpdatedAll(s.Exploded(), ds).y == s.y
    ensures UpdatedAll(s.Exploded(), ds).Destroyed() <==> Sum(ds) >= ExplosionMillis || s.y == 0
  {
    ExplodedCountdown(s.Exploded(), ds);
  }

  /** A projectile object, updated in place. */
  class Laser {
    var x: nat
    var y: nat
    var exploded: bool
    var timer: Timer

    /** The current value of the laser. */
    function State(): LaserState
      reads this
    {
      LaserState(x, y, exploded, timer)
    }

    ghost predicate Valid()
      reads this
    {
      State().Valid()
    }

    constructor (x: nat, y: nat)
      ensures State() == LaserState.New(x, y)
      ensures Valid()
    {
      this.x := x;
      this.y := y;
      this.exploded := false;
      this.timer := Timer.FromMillis(TravelMillis);
    }

    /** Advances the travel or explosion timer by `d` milliseconds. */
    method Update(d: nat)
      modifies this
      ensures State() == old(State()).Updated(d)
    {
      timer := timer.Update(d);
      if timer.ready && !exploded {
        if y > 0 {
          y := y - 1;
        }
        timer := timer.Reset();
      }
    }

    /** Marks the laser as having hit something. */
    method Explode()
      modifies this
      ensures State() == old(State()).Exploded()
    {
      exploded := true;
      timer := Timer.FromMillis(ExplosionMillis);
    }

    /** Whether the owner should discard the laser, from its current value. */
    predicate Destroyed(): (d: bool)
      reads this
      ensures !exploded ==> (d <==> y == 0)
      ensures exploded ==> (d <==> timer.ready || y == 0)
    {
      State().Destroyed()
    }
  }
}
