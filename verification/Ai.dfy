/** The AI child module: one exported function that advances the enemies in shared memory. */
module Ai {
  const PLAY_W: real := 800.0
  const PLAY_H: real := 600.0

  datatype Enemy = Enemy(x: real, y: real, vx: real, vy: real, color: nat, alive: bool)

  /** Bounce off the side walls. */
  function Bounced(e: Enemy): Enemy {
    var left := if e.x < 0.0 then e.(x := 0.0, vx := -e.vx) else e;
    if left.x > PLAY_W - 16.0 then left.(x := PLAY_W - 16.0, vx := -left.vx) else left
  }

  function Ticked(e: Enemy): Enemy {
    if !e.alive then e
    else
      var moved := Bounced(e.(x := e.x + e.vx, y := e.y + e.vy));
      if moved.y > PLAY_H then moved.(alive := false) else moved
  }

  /** How many of the first n would be alive after a tick. */
  function Survivors(es: seq<Enemy>, n: nat): nat
    requires n <= |es|
  {
    if n == 0 then 0 else Survivors(es, n - 1) + if Ticked(es[n - 1]).alive then 1 else 0
  }

  /** wapi_module_shared_read and wapi_module_shared_write of n records. */
  method Copy(from: array<Enemy>, to: array<Enemy>, n: nat)
    requires n <= from.Length && n <= to.Length && from != to
    modifies to
    ensures forall k :: 0 <= k < to.Length ==> to[k] == if k < n then from[k] else old(to[k])
  {
    for i := 0 to n
      invariant forall k :: 0 <= k < to.Length ==> to[k] == if k < i then from[k] else old(to[k])
    {
      to[i] := from[i];
    }
  }

  /** A tick moves every living enemy of the first 256, leaves the dead and the rest alone, and counts
      the survivors; a count out of range does nothing. */
  method AiTick(shared: array<Enemy>, count: int) returns (active: int)
    requires 0 < count <= 1024 ==> shared.Length >= 256 || shared.Length >= count
    modifies shared
    ensures count <= 0 || count > 1024 ==> active == 0 && shared[..] == old(shared[..])
    ensures 0 < count <= 1024 ==>
      var n := if count > 256 then 256 else count;
      && active == Survivors(old(shared[..]), n)
      && forall i :: 0 <= i < shared.Length ==> shared[i] == if i < n then Ticked(old(shared[i])) else old(shared[i])
  {
    if count <= 0 || count > 1024 { return 0; }
    var n: nat := if count > 256 then 256 else count;
    var enemies := new Enemy[256](_ => Enemy(0.0, 0.0, 0.0, 0.0, 0, false));
    Copy(shared, enemies, n);
    active := 0;
    for i := 0 to n
      invariant forall k :: 0 <= k < n ==> enemies[k] == if k < i then Ticked(old(shared[k])) else old(shared[k])
      invariant active == Survivors(old(shared[..]), i) && shared[..] == old(shared[..])
    {
      if enemies[i].alive {
        var e := enemies[i].(x := enemies[i].x + enemies[i].vx, y := enemies[i].y + enemies[i].vy);
        if e.x < 0.0 { e := e.(x := 0.0, vx := -e.vx); }
        if e.x > PLAY_W - 16.0 { e := e.(x := PLAY_W - 16.0, vx := -e.vx); }
        if e.y > PLAY_H { e := e.(alive := false); } else { active := active + 1; }
        enemies[i] := e;
      }
    }
    Copy(enemies, shared, n);
  }

  /** After a tick a living enemy is between the walls and above the floor, one step further down. */
  lemma TickedInBounds(e: Enemy)
    ensures Ticked(e).alive ==> 0.0 <= Ticked(e).x <= PLAY_W - 16.0 && Ticked(e).y == e.y + e.vy <= PLAY_H
    ensures Ticked(e).alive <==> e.alive && e.y + e.vy <= PLAY_H
    ensures Ticked(e).vy == e.vy && Ticked(e).color == e.color && (Ticked(e).vx == e.vx || Ticked(e).vx == -e.vx)
  {
  }

  /** A ticked enemy that stays between the walls goes straight on; one that would pass a wall stops at it and
      turns back. */
  lemma TurnsBackAtTheWalls(e: Enemy)
    requires e.alive
    ensures 0.0 <= e.x + e.vx <= PLAY_W - 16.0 ==> Ticked(e).x == e.x + e.vx && Ticked(e).vx == e.vx
    ensures e.x + e.vx < 0.0 ==> Ticked(e).x == 0.0 && Ticked(e).vx == -e.vx
    ensures e.x + e.vx > PLAY_W - 16.0 ==> Ticked(e).x == PLAY_W - 16.0 && Ticked(e).vx == -e.vx
  {
  }

  /** The survivors counted are the living that do not fall past the floor. */
  lemma {:induction false} SurvivorsAreCounted(es: seq<Enemy>, n: nat)
    requires n <= |es|
    ensures Survivors(es, n) == |set i: nat | i < n && es[i].alive && es[i].y + es[i].vy <= PLAY_H|
  {
    var now := set i: nat | i < n && es[i].alive && es[i].y + es[i].vy <= PLAY_H;
    if n > 0 {
      SurvivorsAreCounted(es, n - 1);
      var was := set i: nat | i < n - 1 && es[i].alive && es[i].y + es[i].vy <= PLAY_H;
      TickedInBounds(es[n - 1]);
      assert now == if Ticked(es[n - 1]).alive then was + {n - 1} else was;
    } else {
      assert now == {};
    }
  }
}
