/** The enemy table of the game: spawning, movement by either path, collisions, lives and restarts. */
module Enemies {
  import opened Ai

  const MAX_ENEMIES: nat := 32
  const WHITE: nat := 0xFFFF_FFFF

  /** The round's state. births[i] is the step that last filled slot i; it exists only in the model. */
  datatype Round = Round(enemies: seq<Enemy>, births: seq<nat>, frame: nat, lives: int, gameOver: bool)

  /** One step of the simulation: where the player stands, the generator's next draw, and whether the
      AI module moves the enemies. Restarts come from the event loop. */
  datatype Input = Sim(px: real, py: real, r: nat, ai: bool) | Restart

  // ---- the specification --------------------------------------------------------

  /** The enemy made from a draw of the 32-bit generator. */
  function Spawned(r: nat): Enemy {
    Enemy((r % 784) as real, -16.0, (r / 65536 % 200) as real / 100.0 - 1.0,
          2.0 + (r / 256 % 200) as real / 100.0, WHITE, true)
  }

  /** The first slot that is not alive, or the number of slots. */
  function FirstFree(es: seq<Enemy>): (i: nat)
    ensures i <= |es| && (i < |es| ==> !es[i].alive) && forall k :: 0 <= k < i ==> es[k].alive
  {
    if |es| == 0 then 0
    else
      var i := FirstFree(es[..|es| - 1]);
      if i < |es| - 1 || !es[|es| - 1].alive then i else |es|
  }

  function Advanced(e: Enemy): Enemy {
    if !e.alive then e
    else
      var moved := e.(x := e.x + e.vx, y := e.y + e.vy);
      if moved.y > PLAY_H then moved.(alive := false) else moved
  }

  function Step(e: Enemy, ai: bool): Enemy { if ai then Ticked(e) else Advanced(e) }

  function MoveAll(es: seq<Enemy>, ai: bool): (r: seq<Enemy>)
    ensures |r| == |es| && forall i :: 0 <= i < |es| ==> r[i] == Step(es[i], ai)
  {
    seq(|es|, i requires 0 <= i < |es| => Step(es[i], ai))
  }

  predicate Touches(e: Enemy, px: real, py: real) {
    e.alive && (e.x - px) * (e.x - px) + (e.y - py) * (e.y - py) < 64.0
  }

  function Struck(e: Enemy, px: real, py: real): Enemy { if Touches(e, px, py) then e.(alive := false) else e }

  function CollideAll(es: seq<Enemy>, px: real, py: real): (r: seq<Enemy>)
    ensures |r| == |es| && forall i :: 0 <= i < |es| ==> r[i] == Struck(es[i], px, py)
  {
    seq(|es|, i requires 0 <= i < |es| => Struck(es[i], px, py))
  }

  /** How many of the first n touch the player. */
  function Hits(es: seq<Enemy>, px: real, py: real, n: nat): nat
    requires n <= |es|
  {
    if n == 0 then 0 else Hits(es, px, py, n - 1) + if Touches(es[n - 1], px, py) then 1 else 0
  }

  function SpawnInto(s: Round, r: nat): Round {
    var i := FirstFree(s.enemies);
    if i < |s.enemies| && i < |s.births| then
      s.(enemies := s.enemies[i := Spawned(r)], births := s.births[i := s.frame])
    else s
  }

  function Cleared(s: Round): Round {
    s.(enemies := seq(|s.enemies|, i requires 0 <= i < |s.enemies| => s.enemies[i].(alive := false)),
       frame := 0, lives := 3, gameOver := false)
  }

  /** The part of a step before the collisions. */
  function Moved(s: Round, input: Input): Round
    requires input.Sim?
  {
    var next := s.(frame := s.frame + 1);
    var filled := if next.frame % 40 == 0 then SpawnInto(next, input.r) else next;
    filled.(enemies := MoveAll(filled.enemies, input.ai))
  }

  function Collided(s: Round, px: real, py: real): Round {
    var hits := Hits(s.enemies, px, py, |s.enemies|);
    s.(enemies := CollideAll(s.enemies, px, py), lives := s.lives - hits,
       gameOver := s.gameOver || (hits > 0 && s.lives - hits <= 0))
  }

  function Next(s: Round, input: Input): Round {
    match input
    case Restart => if s.gameOver then Cleared(s) else s
    case Sim(px, py, _, _) => if s.gameOver then s else Collided(Moved(s, input), px, py)
  }

  function Run(s: Round, inputs: seq<Input>): Round
    decreases |inputs|
  {
    if |inputs| == 0 then s else Next(Run(s, inputs[..|inputs| - 1]), inputs[|inputs| - 1])
  }

  /** What init_game leaves behind. */
  predicate Fresh(s: Round) {
    && |s.enemies| == |s.births| == MAX_ENEMIES && s.frame == 0 && s.lives == 3 && !s.gameOver
    && forall i :: 0 <= i < MAX_ENEMIES ==> !s.enemies[i].alive
  }

  // ---- the game's own loops --------------------------------------------------------

  class Game {
    const enemies: array<Enemy>
    var frame: nat
    var lives: int
    var gameOver: bool
    ghost var births: seq<nat>

    ghost function Now(): Round
      reads this, enemies
    {
      Round(enemies[..], births, frame, lives, gameOver)
    }

    ghost predicate Valid()
      reads this, enemies
    {
      enemies.Length == |births| == MAX_ENEMIES
    }

    constructor ()
      ensures Valid() && Fresh(Now()) && fresh(enemies)
    {
      enemies := new Enemy[MAX_ENEMIES](_ => Enemy(0.0, 0.0, 0.0, 0.0, 0, false));
      frame, lives, gameOver := 0, 3, false;
      births := seq(MAX_ENEMIES, _ => 0);
    }

    method ResetRound()
      requires Valid()
      modifies this, enemies
      ensures Valid() && Now() == Cleared(old(Now()))
    {
      lives := 3;
      frame := 0;
      gameOver := false;
      for i := 0 to MAX_ENEMIES
        invariant lives == 3 && frame == 0 && !gameOver && births == old(births)
        invariant forall k :: 0 <= k < MAX_ENEMIES ==>
          enemies[k] == if k < i then old(enemies[k]).(alive := false) else old(enemies[k])
      {
        enemies[i] := enemies[i].(alive := false);
      }
    }

    method SpawnEnemy(r: nat)
      requires Valid()
      modifies this`births, enemies
      ensures Valid() && Now() == SpawnInto(old(Now()), r)
    {
      for i := 0 to MAX_ENEMIES
        invariant births == old(births) && enemies[..] == old(enemies[..])
        invariant forall k :: 0 <= k < i ==> enemies[k].alive
      {
        if !enemies[i].alive {
          FirstFreeIs(enemies[..], i);
          enemies[i] := Spawned(r);
          births := births[i := frame];
          return;
        }
      }
      FirstFreeIs(enemies[..], MAX_ENEMIES);
    }

    method AdvanceLocally()
      requires Valid()
      modifies enemies
      ensures Valid() && enemies[..] == MoveAll(old(enemies[..]), false)
    {
      for i := 0 to MAX_ENEMIES
        invariant forall k :: 0 <= k < MAX_ENEMIES ==>
          enemies[k] == if k < i then Advanced(old(enemies[k])) else old(enemies[k])
      {
        if enemies[i].alive {
          enemies[i] := enemies[i].(x := enemies[i].x + enemies[i].vx, y := enemies[i].y + enemies[i].vy);
          if enemies[i].y > PLAY_H { enemies[i] := enemies[i].(alive := false); }
        }
      }
    }

    /** Through shared memory: written out, advanced by the child module, read back. */
    method AdvanceByModule()
      requires Valid()
      modifies enemies
      ensures Valid() && enemies[..] == MoveAll(old(enemies[..]), true)
    {
      var shared := new Enemy[MAX_ENEMIES](_ => Enemy(0.0, 0.0, 0.0, 0.0, 0, false));
      Copy(enemies, shared, MAX_ENEMIES);
      var _ := AiTick(shared, MAX_ENEMIES);
      Copy(shared, enemies, MAX_ENEMIES);
    }

    method Collide(px: real, py: real)
      requires Valid()
      modifies this`lives, this`gameOver, enemies
      ensures Valid() && Now() == Collided(old(Now()), px, py)
    {
      ghost var was := enemies[..];
      for i := 0 to MAX_ENEMIES
        invariant lives == old(lives) - Hits(was, px, py, i)
        invariant gameOver == (old(gameOver) || (Hits(was, px, py, i) > 0 && lives <= 0))
        invariant forall k :: 0 <= k < MAX_ENEMIES ==> enemies[k] == if k < i then Struck(was[k], px, py) else was[k]
      {
        if enemies[i].alive {
          var dx, dy := enemies[i].x - px, enemies[i].y - py;
          if dx * dx + dy * dy < 8.0 * 8.0 {
            enemies[i] := enemies[i].(alive := false);
            lives := lives - 1;
            if lives <= 0 { gameOver := true; }
          }
        }
      }
      assert enemies[..] == CollideAll(was, px, py);
    }

    /** The frame counter, a spawn every forty steps, and one of the two ways to move. */
    method SpawnAndMove(r: nat, ai: bool)
      requires Valid()
      modifies this`frame, this`births, enemies
      ensures Valid() && forall px, py :: Now() == Moved(old(Now()), Sim(px, py, r, ai))
    {
      frame := frame + 1;
      if frame % 40 == 0 { SpawnEnemy(r); }
      if ai { AdvanceByModule(); } else { AdvanceLocally(); }
    }

    method SimStep(px: real, py: real, r: nat, ai: bool)
      requires Valid()
      modifies this, enemies
      ensures Valid() && Now() == Next(old(Now()), Sim(px, py, r, ai))
    {
      if gameOver { return; }
      SpawnAndMove(r, ai);
      assert Now() == Moved(old(Now()), Sim(px, py, r, ai));
      Collide(px, py);
    }

    /** Any key, click or button once the round is over. */
    method OnRestartInput()
      requires Valid()
      modifies this, enemies
      ensures Valid() && Now() == Next(old(Now()), Restart)
    {
      if gameOver { ResetRound(); }
    }
  }

  lemma FirstFreeIs(es: seq<Enemy>, i: nat)
    requires i <= |es| && (i < |es| ==> !es[i].alive) && forall k :: 0 <= k < i ==> es[k].alive
    ensures FirstFree(es) == i
  {
  }

  // ---- what every run keeps ------------------------------------------------------------

  function Living(es: seq<Enemy>): set<nat> { set i: nat | i < |es| && es[i].alive }

  /** An enemy born at step b is at least this far down after step t. */
  function Depth(t: nat, b: nat): real { -16.0 + 2.0 * (t as int - b as int + 1) as real }

  /** Born on a fortieth step, falling at two pixels a step or faster, not yet past the floor. */
  predicate Ages(e: Enemy, b: nat, frame: nat) {
    e.alive ==> b <= frame && b % 40 == 0 && e.vy >= 2.0 && Depth(frame, b) <= e.y <= PLAY_H
  }

  predicate Aged(es: seq<Enemy>, births: seq<nat>, frame: nat) {
    |es| == |births| && forall i :: 0 <= i < |es| ==> Ages(es[i], births[i], frame)
  }

  predicate Siblings(es: seq<Enemy>, births: seq<nat>) {
    |es| == |births| && forall i, j :: 0 <= i < j < |es| && es[i].alive && es[j].alive ==> births[i] != births[j]
  }

  predicate Inv(s: Round) {
    && |s.enemies| == MAX_ENEMIES
    && Aged(s.enemies, s.births, s.frame) && Siblings(s.enemies, s.births)
    && s.lives <= 3 && (s.gameOver <==> s.lives <= 0)
  }

  // ---- counting ------------------------------------------------------------------------------

  /** The n integers from lo up. */
  function Window(lo: int, n: nat): (w: set<int>)
    ensures |w| == n && forall k :: k in w <==> lo <= k < lo + n
  {
    if n == 0 then {} else Window(lo, n - 1) + {lo + n - 1}
  }

  /** A set of slots with distinct births is as large as the set of its births. */
  lemma {:induction false} ImageSize(slots: set<nat>, births: seq<nat>)
    requires forall i :: i in slots ==> i < |births|
    requires forall i, j :: i in slots && j in slots && i != j ==> births[i] / 40 != births[j] / 40
    ensures |set i | i in slots :: births[i] / 40| == |slots|
  {
    if slots != {} {
      var x :| x in slots;
      ImageSize(slots - {x}, births);
      assert (set i | i in slots :: births[i] / 40) == (set i | i in slots - {x} :: births[i] / 40) + {births[x] / 40};
    }
  }

  /** An enemy still above the floor was born in the last 308 steps. */
  lemma Recent(e: Enemy, b: nat, frame: nat)
    requires Ages(e, b, frame) && e.alive
    ensures frame < b + 308 && b == 40 * (b / 40)
  {
  }

  /** 308 consecutive steps contain at most eight multiples of forty, so at most eight enemies live. */
  lemma AtMostEight(es: seq<Enemy>, births: seq<nat>, frame: nat)
    requires Aged(es, births, frame) && Siblings(es, births)
    ensures |Living(es)| <= 8
  {
    var slots := Living(es);
    var lo := (frame as int - 307 + 39) / 40;
    forall i | i in slots ensures lo <= births[i] / 40 < lo + 8 { Recent(es[i], births[i], frame); }
    forall i, j | i in slots && j in slots && i != j ensures births[i] / 40 != births[j] / 40 {
      Recent(es[i], births[i], frame);
      Recent(es[j], births[j], frame);
    }
    ImageSize(slots, births);
    Subset(set i | i in slots :: births[i] / 40, Window(lo, 8));
  }

  lemma {:induction false} Subset<T>(a: set<T>, b: set<T>)
    requires a <= b
    ensures |a| <= |b|
  {
    if |a| > 0 {
      var x :| x in a;
      Subset(a - {x}, b - {x});
    }
  }

  lemma {:induction false} FullTable(es: seq<Enemy>)
    requires forall i :: 0 <= i < |es| ==> es[i].alive
    ensures |Living(es)| == |es|
  {
    if |es| > 0 {
      FullTable(es[..|es| - 1]);
      assert Living(es) == Living(es[..|es| - 1]) + {|es| - 1};
    }
  }

  /** So a spawn always finds a free slot. */
  lemma SlotAvailable(s: Round)
    requires Inv(s)
    ensures FirstFree(s.enemies) < MAX_ENEMIES
  {
    AtMostEight(s.enemies, s.births, s.frame);
    if FirstFree(s.enemies) == MAX_ENEMIES { FullTable(s.enemies); }
  }

  // ---- preservation -----------------------------------------------------------------------------

  /** Whichever path moves it, an enemy falls by its speed and is retired exactly when past the floor. */
  lemma EitherPathFalls(e: Enemy, ai: bool)
    requires e.alive
    ensures Step(e, ai).y == e.y + e.vy && Step(e, ai).vy == e.vy
    ensures Step(e, ai).alive <==> e.y + e.vy <= PLAY_H
  {
  }

  lemma MovedInv(s: Round, input: Input)
    requires Inv(s) && input.Sim? && !s.gameOver
    ensures Inv(Moved(s, input)) && !Moved(s, input).gameOver
  {
  }

  lemma CollidedInv(s: Round, px: real, py: real)
    requires Inv(s) && !s.gameOver
    ensures Inv(Collided(s, px, py))
  {
  }

  lemma NextInv(s: Round, input: Input)
    requires Inv(s)
    ensures Inv(Next(s, input))
  {
    if input.Sim? && !s.gameOver {
      MovedInv(s, input);
      CollidedInv(Moved(s, input), input.px, input.py);
    }
  }

  lemma {:induction false} RunInv(s: Round, inputs: seq<Input>)
    requires Inv(s)
    ensures Inv(Run(s, inputs))
    decreases |inputs|
  {
    if |inputs| > 0 {
      RunInv(s, inputs[..|inputs| - 1]);
      NextInv(Run(s, inputs[..|inputs| - 1]), inputs[|inputs| - 1]);
    }
  }

  /** On every run from a fresh round, whatever the draws, the player's path and the way enemies move:
      at most eight are alive at once, lives never exceed three, and a round is over exactly when they
      have run out. */
  lemma NeverMoreThanEight(s: Round, inputs: seq<Input>)
    requires Fresh(s)
    ensures var r := Run(s, inputs);
      |r.enemies| == MAX_ENEMIES && |Living(r.enemies)| <= 8 && r.lives <= 3 && (r.gameOver <==> r.lives <= 0)
  {
    RunInv(s, inputs);
    var r := Run(s, inputs);
    AtMostEight(r.enemies, r.births, r.frame);
  }

  lemma MovedSpawns(s: Round, input: Input)
    requires input.Sim? && (s.frame + 1) % 40 == 0 && |s.births| == |s.enemies| && FirstFree(s.enemies) < |s.enemies|
    ensures Moved(s, input).enemies
         == MoveAll(s.enemies[FirstFree(s.enemies) := Spawned(input.r)], input.ai)
  {
  }

  /** On every run, a step that is due to spawn puts its enemy in a slot that was free. */
  lemma SpawnNeverFails(s: Round, inputs: seq<Input>, input: Input)
    requires Fresh(s) && input.Sim? && !Run(s, inputs).gameOver && (Run(s, inputs).frame + 1) % 40 == 0
    ensures var r := Run(s, inputs);
      var i := FirstFree(r.enemies);
      i < |r.enemies| && Moved(r, input).enemies == MoveAll(r.enemies[i := Spawned(input.r)], input.ai)
  {
    RunInv(s, inputs);
    SlotAvailable(Run(s, inputs));
    MovedSpawns(Run(s, inputs), input);
  }

  // ---- what a step does to each enemy -------------------------------------------------------------

  /** Where no module moves it, an enemy drifts on past the walls. */
  lemma LocalPathDrifts(e: Enemy)
    requires e.alive
    ensures Step(e, false).x == e.x + e.vx && Step(e, false).vx == e.vx
    ensures Step(e, true) == Ticked(e)
    ensures var dead := e.(alive := false); Step(dead, true) == Step(dead, false) == dead
  {
  }

  /** A spawned enemy is white and alive, at the top edge, drifting by at most a pixel and falling by two to four. */
  lemma SpawnedAtTheTop(r: nat)
    ensures var e := Spawned(r);
      && e.alive && e.color == 0xFFFF_FFFF && e.y == -16.0
      && 0.0 <= e.x <= PLAY_W - 16.0 && -1.0 <= e.vx < 1.0 && 2.0 <= e.vy < 4.0
  {
  }

  /** Every whole position between the walls, and every hundredth in the range of either speed, can be drawn. */
  lemma AnyStartCanBeDrawn(x: nat, k: nat)
    requires x < 784 && k < 200
    ensures Spawned(x).x == x as real
    ensures Spawned(65536 * k).vx == -1.0 + k as real / 100.0 && Spawned(256 * k).vy == 2.0 + k as real / 100.0
  {
  }

  /** Spawns are forty steps apart: no other step adds an enemy. */
  lemma NoSpawnBetween(s: Round, input: Input)
    requires input.Sim? && (s.frame + 1) % 40 != 0
    ensures Moved(s, input).enemies == MoveAll(s.enemies, input.ai) && Moved(s, input).frame == s.frame + 1
  {
  }

  lemma LivingMore(es: seq<Enemy>, n: nat)
    requires 0 < n <= |es|
    ensures |Living(es[..n])| == |Living(es[..n - 1])| + if es[n - 1].alive then 1 else 0
  {
    var was := Living(es[..n - 1]);
    assert Living(es[..n]) == if es[n - 1].alive then was + {n - 1} else was;
  }

  lemma {:induction false} HitsAreKills(es: seq<Enemy>, px: real, py: real, n: nat)
    requires n <= |es|
    ensures |Living(es[..n])| == |Living(CollideAll(es, px, py)[..n])| + Hits(es, px, py, n)
  {
    if n > 0 {
      HitsAreKills(es, px, py, n - 1);
      LivingMore(es, n);
      LivingMore(CollideAll(es, px, py), n);
    }
  }

  /** Every enemy within eight pixels of the player dies, no other does, and each costs one life; the round is
      over when a hit leaves no life. */
  lemma EachKillCostsALife(s: Round, px: real, py: real)
    ensures var r := Collided(s, px, py);
      && |r.enemies| == |s.enemies|
      && (forall i :: 0 <= i < |s.enemies| ==>
            var e := s.enemies[i];
            var close := (e.x - px) * (e.x - px) + (e.y - py) * (e.y - py) < 8.0 * 8.0;
            r.enemies[i] == if close then e.(alive := false) else e)
      && s.lives - r.lives == |Living(s.enemies)| - |Living(r.enemies)|
      && (r.gameOver <==> s.gameOver || (r.lives < s.lives && r.lives <= 0)) && r.frame == s.frame
  {
    HitsAreKills(s.enemies, px, py, |s.enemies|);
    assert s.enemies[..|s.enemies|] == s.enemies;
    assert CollideAll(s.enemies, px, py)[..|s.enemies|] == CollideAll(s.enemies, px, py);
  }

  /** Input after the end starts a round like the first; before the end it changes nothing, and after the end
      no step does. */
  lemma RestartsAfterTheEnd(s: Round, input: Input)
    requires Inv(s)
    ensures s.gameOver ==> Fresh(Next(s, Restart)) && (input.Sim? ==> Next(s, input) == s)
    ensures !s.gameOver ==> Next(s, Restart) == s
    ensures !s.gameOver && input.Sim? ==> Next(s, input) == Collided(Moved(s, input), input.px, input.py)
  {
  }
}
