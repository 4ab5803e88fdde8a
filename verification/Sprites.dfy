/** Sprite batching: what the game draws in a frame, and the vertex and index buffers it draws with. */
module Sprites {
  import opened Ai
  import Enemies

  const MAX_SPRITES: nat := 64
  const MAX_VERTS: nat := 256
  const MAX_INDICES: nat := 384

  const ATLAS_TILE_SIZE: real := 8.0

  const WHITE: nat := 0xFFFF_FFFF
  const GREY: nat := 0x8888_88FF
  const PINK: nat := 0xFF80_80FF

  datatype Vertex = Vertex(x: real, y: real, u: real, v: real, r: nat, g: nat, b: nat, a: nat)
  datatype Sprite = Sprite(x: real, y: real, tile: nat, rgba: nat, size: real)

  /** What is drawn of the game's state. */
  datatype Scene = Scene(enemies: seq<Enemy>, coinActive: bool, coinX: real, coinY: real, coinTimer: nat,
    lives: int, playerX: real, playerY: real, hitUntil: int, frame: int)

  // ---- the specification ------------------------------------------------------------

  function EnemySprite(e: Enemy): Sprite { Sprite(e.x, e.y, 2, WHITE, 16.0) }

  function LivingSprites(es: seq<Enemy>, n: nat): (s: seq<Sprite>)
    requires n <= |es|
    ensures |s| <= n
  {
    if n == 0 then []
    else if es[n - 1].alive then LivingSprites(es, n - 1) + [EnemySprite(es[n - 1])]
    else LivingSprites(es, n - 1)
  }

  function CoinSprite(c: Scene): Sprite {
    Sprite(c.coinX, c.coinY, 1, if c.coinTimer < 30 && c.coinTimer / 4 % 2 == 1 then GREY else WHITE, 16.0)
  }

  function Pips(n: int): (s: seq<Sprite>)
    ensures |s| == if n > 0 then n else 0
  {
    if n <= 0 then [] else Pips(n - 1) + [Sprite(8.0 + (n - 1) as real * 20.0, 8.0, 3, WHITE, 16.0)]
  }

  function PlayerSprite(c: Scene): Sprite {
    Sprite(c.playerX, c.playerY, 0, if c.hitUntil > c.frame then PINK else WHITE, 16.0)
  }

  /** Back to front: living enemies in slot order, the coin, the life pips, the player on top. */
  function Drawing(c: Scene): seq<Sprite> {
    LivingSprites(c.enemies, |c.enemies|) + (if c.coinActive then [CoinSprite(c)] else []) + Pips(c.lives)
    + [PlayerSprite(c)]
  }

  /** The bytes of 0xRRGGBBAA. */
  function Tint(rgba: nat): (nat, nat, nat, nat) {
    (rgba / 0x100_0000 % 256, rgba / 0x1_0000 % 256, rgba / 0x100 % 256, rgba % 256)
  }

  /** Corner k of a sprite, clockwise from the top left. */
  function Corner(s: Sprite, k: nat): Vertex {
    var right, low := k == 1 || k == 2, k >= 2;
    var left, t := s.tile as real * ATLAS_TILE_SIZE, Tint(s.rgba);
    Vertex(if right then s.x + s.size else s.x, if low then s.y + s.size else s.y,
           if right then left + ATLAS_TILE_SIZE else left, if low then ATLAS_TILE_SIZE else 0.0, t.0, t.1, t.2, t.3)
  }

  function Quad(s: Sprite): seq<Vertex> { [Corner(s, 0), Corner(s, 1), Corner(s, 2), Corner(s, 3)] }

  /** Two triangles over the four corners pushed at base. */
  function Triangles(base: nat): seq<nat> { [base, base + 1, base + 2, base, base + 2, base + 3] }

  /** The vertex buffer of a drawing. */
  function Vertices(drawn: seq<Sprite>): (vs: seq<Vertex>)
    ensures |vs| == 4 * |drawn|
  {
    if |drawn| == 0 then [] else Vertices(drawn[..|drawn| - 1]) + Quad(drawn[|drawn| - 1])
  }

  /** The index buffer of n sprites. */
  function Indices(n: nat): (ix: seq<nat>)
    ensures |ix| == 6 * n
  {
    if n == 0 then [] else Indices(n - 1) + Triangles(4 * (n - 1))
  }

  lemma OneMore(drawn: seq<Sprite>, s: Sprite)
    ensures Vertices(drawn + [s]) == Vertices(drawn) + Quad(s)
    ensures Indices(|drawn| + 1) == Indices(|drawn|) + Triangles(4 * |drawn|)
  {
  }

  // ---- the batcher ----------------------------------------------------------------------

  class SpriteBatch {
    const verts: array<Vertex>
    const indices: array<nat>
    var vtxCount: nat
    var idxCount: nat
    ghost var drawn: seq<Sprite>

    ghost predicate Valid()
      reads this, verts, indices
    {
      && verts.Length == MAX_VERTS && indices.Length == MAX_INDICES && verts as object != indices as object
      && vtxCount == 4 * |drawn| && idxCount == 6 * |drawn| && |drawn| <= MAX_SPRITES
      && verts[..vtxCount] == Vertices(drawn) && indices[..idxCount] == Indices(|drawn|)
    }

    constructor ()
      ensures Valid() && drawn == [] && fresh(verts) && fresh(indices)
    {
      verts := new Vertex[MAX_VERTS](_ => Vertex(0.0, 0.0, 0.0, 0.0, 0, 0, 0, 0));
      indices := new nat[MAX_INDICES](_ => 0);
      vtxCount, idxCount, drawn := 0, 0, [];
    }

    method PutQuad(base: nat, s: Sprite)
      requires base + 4 <= verts.Length
      modifies verts
      ensures verts[..base + 4] == old(verts[..base]) + Quad(s)
    {
      var u, t := s.tile as real * ATLAS_TILE_SIZE, ATLAS_TILE_SIZE;
      var (r, g, b, a) := Tint(s.rgba);
      verts[base + 0] := Vertex(s.x, s.y, u, 0.0, r, g, b, a);
      verts[base + 1] := Vertex(s.x + s.size, s.y, u + t, 0.0, r, g, b, a);
      verts[base + 2] := Vertex(s.x + s.size, s.y + s.size, u + t, t, r, g, b, a);
      verts[base + 3] := Vertex(s.x, s.y + s.size, u, t, r, g, b, a);
      assert verts[base..base + 4] == Quad(s);
      assert verts[..base + 4] == verts[..base] + verts[base..base + 4];
    }

    method PutTriangles(at: nat, base: nat)
      requires at + 6 <= indices.Length
      modifies indices
      ensures indices[..at + 6] == old(indices[..at]) + Triangles(base)
    {
      indices[at + 0] := base + 0;
      indices[at + 1] := base + 1;
      indices[at + 2] := base + 2;
      indices[at + 3] := base + 0;
      indices[at + 4] := base + 2;
      indices[at + 5] := base + 3;
      assert indices[at..at + 6] == Triangles(base);
      assert indices[..at + 6] == indices[..at] + indices[at..at + 6];
    }

    /** A sprite beyond the sixty-fourth is not drawn. */
    method PushSprite(s: Sprite)
      requires Valid()
      modifies this`vtxCount, this`idxCount, this`drawn, verts, indices
      ensures Valid() && drawn == if |old(drawn)| < MAX_SPRITES then old(drawn) + [s] else old(drawn)
    {
      if vtxCount + 4 > MAX_VERTS { return; }
      PutQuad(vtxCount, s);
      PutTriangles(idxCount, vtxCount);
      OneMore(drawn, s);
      vtxCount := vtxCount + 4;
      idxCount := idxCount + 6;
      drawn := drawn + [s];
    }

    /** The next sprite of a drawing. */
    method PushNext(s: Sprite, ghost before: seq<Sprite>)
      requires Valid() && drawn == First(before)
      modifies this`vtxCount, this`idxCount, this`drawn, verts, indices
      ensures Valid() && drawn == First(before + [s])
    {
      PushSprite(s);
      if |before| >= MAX_SPRITES { assert (before + [s])[..MAX_SPRITES] == before[..MAX_SPRITES]; }
    }

    method PushEnemies(es: seq<Enemy>)
      requires Valid() && drawn == []
      modifies this`vtxCount, this`idxCount, this`drawn, verts, indices
      ensures Valid() && drawn == First(LivingSprites(es, |es|))
    {
      for i := 0 to |es|
        invariant Valid() && drawn == First(LivingSprites(es, i))
      {
        if es[i].alive { PushNext(EnemySprite(es[i]), LivingSprites(es, i)); }
      }
    }

    method PushPips(lives: int, ghost before: seq<Sprite>)
      requires Valid() && drawn == First(before)
      modifies this`vtxCount, this`idxCount, this`drawn, verts, indices
      ensures Valid() && drawn == First(before + Pips(lives))
    {
      var i := 0;
      assert before + Pips(0) == before;
      while i < lives
        invariant 0 <= i && (i <= lives || i == 0)
        invariant Valid() && drawn == First(before + Pips(i))
      {
        var pip := Sprite(8.0 + i as real * 20.0, 8.0, 3, WHITE, 16.0);
        PushNext(pip, before + Pips(i));
        assert before + Pips(i + 1) == before + Pips(i) + [pip];
        i := i + 1;
      }
      assert Pips(i) == Pips(lives);
    }

    /** What fits of a frame's drawing, in order. */
    method BuildSprites(c: Scene)
      requires Valid()
      modifies this`vtxCount, this`idxCount, this`drawn, verts, indices
      ensures Valid() && drawn == First(Drawing(c))
    {
      Clear();
      PushSprite(Sprite(0.0, 0.0, 0, 0x1010_20FF, 0.0));
      Clear();
      PushEnemies(c.enemies);
      ghost var all := LivingSprites(c.enemies, |c.enemies|);
      if c.coinActive { PushNext(CoinSprite(c), all); }
      all := all + (if c.coinActive then [CoinSprite(c)] else []);
      PushPips(c.lives, all);
      PushNext(PlayerSprite(c), all + Pips(c.lives));
    }

    method Clear()
      requires Valid()
      modifies this`vtxCount, this`idxCount, this`drawn
      ensures Valid() && drawn == []
    {
      vtxCount, idxCount, drawn := 0, 0, [];
    }
  }

  /** The sprites for which there is room. */
  function First(s: seq<Sprite>): seq<Sprite> { if |s| <= MAX_SPRITES then s else s[..MAX_SPRITES] }

  /** Sprite k's part of the buffers: its own four corners, and six indices that name exactly them. */
  lemma {:induction false} BuffersOfSprite(drawn: seq<Sprite>, k: nat)
    requires k < |drawn|
    ensures Vertices(drawn)[4 * k..4 * k + 4] == Quad(drawn[k])
    ensures Indices(|drawn|)[6 * k..6 * k + 6] == Triangles(4 * k)
    decreases |drawn|
  {
    var was := drawn[..|drawn| - 1];
    if k < |was| {
      BuffersOfSprite(was, k);
      assert Vertices(drawn)[4 * k..4 * k + 4] == Vertices(was)[4 * k..4 * k + 4];
      assert Indices(|drawn|)[6 * k..6 * k + 6] == Indices(|was|)[6 * k..6 * k + 6];
    }
  }

  /** Every index names a vertex pushed this frame and fits the 16 bits it is stored in. */
  lemma {:induction false} IndicesInRange(n: nat)
    requires n <= MAX_SPRITES
    ensures forall i :: i in Indices(n) ==> i < 4 * n <= 0x1_0000
  {
    if n > 0 { IndicesInRange(n - 1); }
  }

  /** Nothing is dropped exactly when at most 64 sprites are due; the game's table of 32 and its three
      lives make that 37 at the most. */
  lemma NothingIsDropped(c: Scene)
    ensures First(Drawing(c)) == Drawing(c) <==> |Drawing(c)| <= MAX_SPRITES
    ensures |c.enemies| <= 32 && c.lives <= 3 ==> |Drawing(c)| <= 37
  {
  }

  lemma {:induction false} AsManyAsLive(es: seq<Enemy>, n: nat)
    requires n <= |es|
    ensures |LivingSprites(es, n)| == |Enemies.Living(es[..n])|
  {
    if n > 0 {
      AsManyAsLive(es, n - 1);
      var was, now := Enemies.Living(es[..n - 1]), Enemies.Living(es[..n]);
      assert now == if es[n - 1].alive then was + {n - 1} else was;
    }
  }

  /** On every run of the game, every frame is drawn whole: at most eight enemies, a coin, three lives
      and the player. */
  lemma EveryFrameIsDrawnWhole(s: Enemies.Round, inputs: seq<Enemies.Input>, c: Scene)
    requires Enemies.Fresh(s)
    requires c.enemies == Enemies.Run(s, inputs).enemies && c.lives == Enemies.Run(s, inputs).lives
    ensures First(Drawing(c)) == Drawing(c) && |Drawing(c)| <= 13
  {
    Enemies.NeverMoreThanEight(s, inputs);
    AsManyAsLive(c.enemies, |c.enemies|);
    assert c.enemies[..|c.enemies|] == c.enemies;
  }

  // ---- what is drawn ----------------------------------------------------------------------------

  /** A sprite's corners: a square of its size, showing the whole of its own tile. */
  lemma QuadShowsTheTile(s: Sprite, k: nat)
    requires k < 4
    ensures var c, left := Quad(s)[k], 8.0 * s.tile as real;
      && c.x == (if k == 1 || k == 2 then s.x + s.size else s.x) && c.y == (if k >= 2 then s.y + s.size else s.y)
      && c.u == (if k == 1 || k == 2 then left + 8.0 else left) && c.v == (if k >= 2 then 8.0 else 0.0)
  {
  }

  /** All four in its colour, whose four bytes make up the number given. */
  lemma QuadHasTheColour(s: Sprite, k: nat)
    requires k < 4 && s.rgba < 0x1_0000_0000
    ensures var c := Quad(s)[k];
      ((c.r * 256 + c.g) * 256 + c.b) * 256 + c.a == s.rgba && c.r < 256 && c.g < 256 && c.b < 256 && c.a < 256
  {
    TintBytes(s.rgba);
    assert var c := Quad(s)[k]; (c.r, c.g, c.b, c.a) == Tint(s.rgba);
  }

  lemma TintBytes(rgba: nat)
    requires rgba < 0x1_0000_0000
    ensures var (r, g, b, a) := Tint(rgba);
      ((r * 256 + g) * 256 + b) * 256 + a == rgba && r < 256 && g < 256 && b < 256 && a < 256
  {
    var x := rgba / 0x100;
    var y := x / 0x100;
    assert y == rgba / 0x1_0000 && y / 0x100 == rgba / 0x100_0000 < 256;
    assert rgba == x * 256 + rgba % 256 && x == y * 256 + x % 256 && y == y / 256 * 256 + y % 256;
  }

  /** Two triangles with one diagonal in common cover the square. */
  lemma TrianglesCover(base: nat)
    ensures Triangles(base)[..3] == [base, base + 1, base + 2] && Triangles(base)[3..] == [base, base + 2, base + 3]
  {
  }

  /** An enemy is drawn exactly when it is alive: as a white tile 2 where it is. */
  lemma {:induction false} LivingAreDrawn(es: seq<Enemy>, n: nat)
    requires n <= |es|
    ensures forall x :: x in LivingSprites(es, n) <==>
      exists i :: 0 <= i < n && es[i].alive && x == Sprite(es[i].x, es[i].y, 2, 0xFFFF_FFFF, 16.0)
  {
    if n > 0 { LivingAreDrawn(es, n - 1); }
  }

  /** The player is drawn last, as tile 0, pink while a hit lasts; before it one tile 3 for each life, twenty
      pixels apart; before those the coin, if there is one, as tile 1, blinking in its last thirty steps. */
  lemma DrawnOnTop(c: Scene)
    ensures var d, living, coins := Drawing(c), LivingSprites(c.enemies, |c.enemies|), if c.coinActive then 1 else 0;
      var lives := if c.lives > 0 then c.lives else 0;
      && |d| == |living| + coins + lives + 1 && d[..|living|] == living
      && (c.coinActive ==>
            var blink := c.coinTimer < 30 && (c.coinTimer / 4) % 2 == 1;
            d[|living|] == Sprite(c.coinX, c.coinY, 1, if blink then 0x8888_88FF else 0xFFFF_FFFF, 16.0))
      && (var pips := d[|living| + coins..];
          forall k :: 0 <= k < lives ==> pips[k] == Sprite(8.0 + 20.0 * k as real, 8.0, 3, 0xFFFF_FFFF, 16.0))
      && d[|d| - 1] ==
         Sprite(c.playerX, c.playerY, 0, if c.hitUntil > c.frame then 0xFF80_80FF else 0xFFFF_FFFF, 16.0)
  {
    PipsAre(c.lives);
  }

  lemma {:induction false} PipsAre(n: int)
    ensures forall k :: 0 <= k < n ==> Pips(n)[k] == Sprite(8.0 + 20.0 * k as real, 8.0, 3, 0xFFFF_FFFF, 16.0)
    decreases if n > 0 then n else 0
  {
    if n > 0 { PipsAre(n - 1); }
  }
}
