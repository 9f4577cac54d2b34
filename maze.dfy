/** Quantum Escape: Entangled Mazes (Game/maze.py).  Two stacked mazes, one
    per basis state: the player walks the maze of its state; in superposition
    a twin copy stands in the other maze, the player cannot walk, and
    obstacles drift upwards instead of leftwards.  A collision in
    superposition measures the player back into one maze.

    Walls, keys and obstacles are tiles built cell by cell; an obstacle is the
    very tile of the wall or key at its cell when there is one, so an
    obstacle's drift carries that wall or key with it. */
module EntangledMaze {
  import opened Quantum
  import opened Optional
  import opened Geometry

  const WIDTH := 800
  const HEIGHT := 640
  const TILE := 40
  /** The border between the |0> maze (above) and the |1> maze (below):
      HEIGHT / 2. */
  const HALF := 320
  /** Rows of each maze, HALF / TILE, and columns, WIDTH / TILE. */
  const ROWS := 8
  const COLS := 20
  /** How far an obstacle drifts each frame. */
  const DRIFT := 2

  /** A wall, key or obstacle square; obstacles move it in place. */
  class Tile {
    var x: int
    var y: int

    constructor(x: int, y: int)
      ensures this.x == x && this.y == y
    {
      this.x, this.y := x, y;
    }

    function Bounds(): Rect
      reads this
    {
      Rect(x, y, TILE, TILE)
    }
  }

  /** The squares of some tiles, in order. */
  function Rects(ts: seq<Tile>): (rs: seq<Rect>)
    reads ts
    ensures |rs| == |ts|
    ensures forall i :: 0 <= i < |ts| ==> rs[i] == ts[i].Bounds()
    decreases |ts|
  {
    if ts == [] then [] else Rects(ts[..|ts| - 1]) + [ts[|ts| - 1].Bounds()]
  }

  lemma RectsSnoc(ts: seq<Tile>, t: Tile)
    ensures Rects(ts + [t]) == Rects(ts) + [t.Bounds()]
  {
    assert (ts + [t])[..|ts|] == ts;
  }

  /** Tiles nobody moved have the same squares. */
  twostate lemma RectsUnchanged(ts: seq<Tile>)
    requires unchanged(ts)
    ensures Rects(ts) == old(Rects(ts))
  {
  }

  predicate DistinctTiles(ts: seq<Tile>) {
    forall i, j :: 0 <= i < j < |ts| ==> ts[i] != ts[j]
  }

  // ----- the maze layout -----

  /** The random outcomes create_maze draws at one cell: a wall in each
      layer, a key in each layer, an obstacle, and the layer it takes. */
  datatype CellDraw = CellDraw(wallTop: bool, wallBottom: bool, keyTop: bool, keyBottom: bool,
                               obstacle: bool, obstacleTop: bool)

  /** One draw per cell, ROWS rows of COLS cells. */
  predicate WellShaped(draws: seq<seq<CellDraw>>) {
    |draws| == ROWS && forall r :: 0 <= r < ROWS ==> |draws[r]| == COLS
  }

  /** The squares of the walls of each layer, the keys and the obstacles. */
  datatype Layout = Layout(walls0: seq<Rect>, walls1: seq<Rect>, keys: seq<Rect>, obstacles: seq<Rect>)

  function TopSquare(r: int, c: int): Rect {
    Rect(c * TILE, r * TILE, TILE, TILE)
  }

  function BottomSquare(r: int, c: int): Rect {
    Rect(c * TILE, r * TILE + HALF, TILE, TILE)
  }

  /** The body of create_maze's double loop on cell (r, c): walls first, then
      keys where the same layer has no wall, then at most one obstacle. */
  function PlaceCell(l: Layout, r: int, c: int, d: CellDraw): Layout {
    var top := TopSquare(r, c);
    var bot := BottomSquare(r, c);
    var w0 := if d.wallTop then l.walls0 + [top] else l.walls0;
    var w1 := if d.wallBottom then l.walls1 + [bot] else l.walls1;
    var k1 := if d.keyTop && top !in w0 then l.keys + [top] else l.keys;
    var k2 := if d.keyBottom && bot !in w1 then k1 + [bot] else k1;
    var o := if d.obstacle then l.obstacles + [if d.obstacleTop then top else bot] else l.obstacles;
    Layout(w0, w1, k2, o)
  }

  /** The layout after the cells before (r, c) in row-major order. */
  function LayoutUpTo(draws: seq<seq<CellDraw>>, r: nat, c: nat): Layout
    requires WellShaped(draws)
    requires (r < ROWS && c <= COLS) || (r == ROWS && c == 0)
    decreases r, c
  {
    if c == 0 then
      if r == 0 then Layout([], [], [], []) else LayoutUpTo(draws, r - 1, COLS)
    else
      PlaceCell(LayoutUpTo(draws, r, c - 1), r, c - 1, draws[r][c - 1])
  }

  function MazeLayout(draws: seq<seq<CellDraw>>): Layout
    requires WellShaped(draws)
  {
    LayoutUpTo(draws, ROWS, 0)
  }

  /** A square of a cell before (r, c) in row-major order, in either layer. */
  predicate Earlier(t: Rect, r: int, c: int) {
    || (t.y < HALF && (t.y < r * TILE || (t.y == r * TILE && t.x < c * TILE)))
    || (t.y >= HALF && (t.y - HALF < r * TILE || (t.y - HALF == r * TILE && t.x < c * TILE)))
  }

  /** What holds of a layout part way: every square is of an earlier cell,
      walls lie in their own layer, no key shares a square with a wall, and
      no two obstacles share a square. */
  predicate LayoutInv(l: Layout, r: int, c: int) {
    && (forall t :: t in l.walls0 ==> Earlier(t, r, c) && t.y < HALF)
    && (forall t :: t in l.walls1 ==> Earlier(t, r, c) && t.y >= HALF)
    && (forall t :: t in l.keys ==> Earlier(t, r, c) && t !in l.walls0 && t !in l.walls1)
    && (forall t :: t in l.obstacles ==> Earlier(t, r, c))
    && (forall i, j :: 0 <= i < j < |l.obstacles| ==> l.obstacles[i] != l.obstacles[j])
  }

  lemma PlaceCellKeepsInv(l: Layout, r: int, c: int, d: CellDraw)
    requires 0 <= r < ROWS && 0 <= c < COLS
    requires LayoutInv(l, r, c)
    ensures LayoutInv(PlaceCell(l, r, c, d), r, c + 1)
  {
    var top, bot := TopSquare(r, c), BottomSquare(r, c);
    assert r * TILE < HALF;
    assert !Earlier(top, r, c) && !Earlier(bot, r, c);
    var l' := PlaceCell(l, r, c, d);
    forall t | t in l'.keys
      ensures Earlier(t, r, c + 1) && t !in l'.walls0 && t !in l'.walls1
    {
      if t in l.keys {
        assert t != top && t != bot;
      }
    }
    forall i, j | 0 <= i < j < |l'.obstacles|
      ensures l'.obstacles[i] != l'.obstacles[j]
    {
      if j == |l.obstacles| {
        assert l'.obstacles[i] in l.obstacles;
      }
    }
  }

  /** The end of a row is the start of the next. */
  lemma NextRowKeepsInv(l: Layout, r: int)
    requires 0 <= r
    requires LayoutInv(l, r, COLS)
    ensures LayoutInv(l, r + 1, 0)
  {
    assert forall t: Rect :: Earlier(t, r, COLS) ==> Earlier(t, r + 1, 0);
  }

  lemma {:induction false} LayoutUpToInv(draws: seq<seq<CellDraw>>, r: nat, c: nat)
    requires WellShaped(draws)
    requires (r < ROWS && c <= COLS) || (r == ROWS && c == 0)
    ensures LayoutInv(LayoutUpTo(draws, r, c), r, c)
    decreases r, c
  {
    if c == 0 {
      if r > 0 {
        LayoutUpToInv(draws, r - 1, COLS);
        NextRowKeepsInv(LayoutUpTo(draws, r - 1, COLS), r - 1);
      }
    } else {
      LayoutUpToInv(draws, r, c - 1);
      PlaceCellKeepsInv(LayoutUpTo(draws, r, c - 1), r, c - 1, draws[r][c - 1]);
    }
  }

  /** create_maze never puts a key on a wall of its layer (nor of the other
      layer, which lies elsewhere), and never two obstacles on one square. */
  lemma KeysOffWalls(draws: seq<seq<CellDraw>>)
    requires WellShaped(draws)
    ensures forall k :: k in MazeLayout(draws).keys ==>
      k !in MazeLayout(draws).walls0 && k !in MazeLayout(draws).walls1
    ensures forall w :: w in MazeLayout(draws).walls0 ==> w.y < HALF
    ensures forall w :: w in MazeLayout(draws).walls1 ==> w.y >= HALF
    ensures DistinctRects(MazeLayout(draws).obstacles)
  {
    LayoutUpToInv(draws, ROWS, 0);
  }

  predicate DistinctRects(rs: seq<Rect>) {
    forall i, j :: 0 <= i < j < |rs| ==> rs[i] != rs[j]
  }

  /** The exit is in the last column, one row below the top of either maze. */
  function ExitSquare(exitTop: bool): (e: Rect)
    ensures e.x == WIDTH - TILE && e.w == TILE && e.h == TILE
    ensures e.y == TILE || e.y == HALF + TILE
    ensures exitTop <==> e.y == TILE
  {
    Rect(WIDTH - TILE, if exitTop then TILE else HALF + TILE, TILE, TILE)
  }

  // ----- the player, its gates and its measurement -----

  /** The player's square, its label, quantum mode and the twin's square. */
  datatype Avatar = Avatar(player: Rect, state: QState, quantumMode: bool, twin: Option<Rect>)

  /** Quantum mode, the twin and a superposition label agree, and the twin is
      the player's square shifted by half a screen. */
  predicate Consistent(a: Avatar) {
    && a.quantumMode == IsSuperposition(a.state)
    && a.twin.Some? == a.quantumMode
    && (a.twin.Some? ==> a.twin.value == Move(a.player, 0, HALF) || a.twin.value == Move(a.player, 0, -HALF))
  }

  /** apply_gate: X only outside quantum mode, moving the player to the
      other maze; Z only in quantum mode; H enters superposition with a twin
      in the other maze, or leaves it and drops the twin. */
  function GateEffect(a: Avatar, g: Gate): Avatar {
    if g == X && !a.quantumMode then
      if a.state == Zero then a.(state := One, player := Move(a.player, 0, HALF))
      else a.(state := Zero, player := Move(a.player, 0, -HALF))
    else if g == Z && a.quantumMode then
      a.(state := if a.state == Plus then Minus else Plus)
    else if g == H then
      match a.state
      case Zero => a.(state := Plus, quantumMode := true, twin := Some(Move(a.player, 0, HALF)))
      case One => a.(state := Minus, quantumMode := true, twin := Some(Move(a.player, 0, -HALF)))
      case Plus => a.(state := Zero, quantumMode := false, twin := None)
      case Minus => a.(state := One, quantumMode := false, twin := None)
    else a
  }

  lemma GatePreservesConsistency(a: Avatar, g: Gate)
    requires Consistent(a)
    ensures Consistent(GateEffect(a, g))
  {
  }

  /** Under the invariant the label follows the reference gates. */
  lemma GateAgreesWithReference(a: Avatar, g: Gate)
    requires Consistent(a)
    ensures GateEffect(a, g).state == Apply(a.state, g)
  {
  }

  /** X moves the player by half a screen and only outside quantum mode, so
      two X gates restore it. */
  lemma XMovesBetweenMazes(a: Avatar)
    requires Consistent(a)
    ensures a.quantumMode ==> GateEffect(a, X) == a
    ensures !a.quantumMode ==>
      && GateEffect(a, X).state == PauliX(a.state)
      && GateEffect(a, X).player == Move(a.player, 0, if a.state == Zero then HALF else -HALF)
    ensures GateEffect(GateEffect(a, X), X) == a
  {
  }

  /** Z acts only in quantum mode and never moves the player or the twin. */
  lemma ZKeepsPosition(a: Avatar)
    requires Consistent(a)
    ensures !a.quantumMode ==> GateEffect(a, Z) == a
    ensures GateEffect(a, Z).player == a.player && GateEffect(a, Z).twin == a.twin
    ensures GateEffect(GateEffect(a, Z), Z) == a
  {
  }

  /** H from a basis state makes the twin a copy of the player shifted into
      the other maze; H from a superposition drops it; two H gates restore a
      basis player exactly. */
  lemma HTwin(a: Avatar)
    requires Consistent(a)
    ensures a.state == Zero ==> GateEffect(a, H).twin == Some(Move(a.player, 0, HALF))
    ensures a.state == One ==> GateEffect(a, H).twin == Some(Move(a.player, 0, -HALF))
    ensures IsSuperposition(a.state) ==> GateEffect(a, H).twin.None? && !GateEffect(a, H).quantumMode
    ensures GateEffect(a, H).player == a.player
    ensures IsBasis(a.state) ==> GateEffect(GateEffect(a, H), H) == a
    ensures GateEffect(GateEffect(a, H), H).state == a.state
  {
  }

  /** measure_collapse: the player keeps its offset within a maze and lands
      in the maze of the observed state. */
  function Collapsed(a: Avatar, toZero: bool): (r: Avatar)
    ensures r.state == (if toZero then Zero else One)
    ensures !r.quantumMode && r.twin.None? && Consistent(r)
    ensures r.player.x == a.player.x && r.player.w == a.player.w && r.player.h == a.player.h
    ensures r.player.y % HALF == a.player.y % HALF
    ensures toZero ==> 0 <= r.player.y < HALF
    ensures !toZero ==> HALF <= r.player.y < HEIGHT
  {
    if toZero then Avatar(a.player.(y := a.player.y % HALF), Zero, false, None)
    else Avatar(a.player.(y := a.player.y % HALF + HALF), One, false, None)
  }

  /** The players' movement keys: the later key of each pair wins. */
  function KeyDelta(negative: bool, positive: bool): (d: int)
    ensures d == 0 || d == TILE || d == -TILE
  {
    if positive then TILE else if negative then -TILE else 0
  }

  /** The move step: outside quantum mode the player steps to the new square
      unless it overlaps a wall of its own maze. */
  function Walked(a: Avatar, dx: int, dy: int, walls0: seq<Rect>, walls1: seq<Rect>): (r: Avatar)
    ensures r == a || r == a.(player := Move(a.player, dx, dy))
    ensures r != a ==> !a.quantumMode
    ensures r != a ==> !HitsAny(r.player, if a.state == Zero then walls0 else walls1)
    ensures !a.quantumMode && !HitsAny(Move(a.player, dx, dy), if a.state == Zero then walls0 else walls1)
      ==> r.player == Move(a.player, dx, dy)
    ensures Consistent(a) ==> Consistent(r)
  {
    if a.quantumMode then a
    else
      var next := Move(a.player, dx, dy);
      if a.state == Zero then (if HitsAny(next, walls0) then a else a.(player := next))
      else (if HitsAny(next, walls1) then a else a.(player := next))
  }

  /** The player or its twin overlaps o. */
  predicate Strikes(a: Avatar, o: Rect) {
    Collide(a.player, o) || (a.twin.Some? && Collide(a.twin.value, o))
  }

  /** The collision loop over the obstacles: a hit in superposition measures
      the player, a hit outside it ends the game. */
  function Collisions(a: Avatar, obstacles: seq<Rect>, toZero: bool): (Avatar, bool)
    decreases |obstacles|
  {
    if obstacles == [] then (a, false)
    else ObstacleTurn(Collisions(a, obstacles[..|obstacles| - 1], toZero), obstacles[|obstacles| - 1], toZero)
  }

  /** The loop's turn for obstacle o. */
  function ObstacleTurn(c: (Avatar, bool), o: Rect, toZero: bool): (Avatar, bool) {
    var (b, over) := c;
    if !Strikes(b, o) then (b, over)
    else if b.quantumMode then (Collapsed(b, toZero), over)
    else (b, true)
  }

  /** One more turn of the collision loop. */
  lemma CollisionsSnoc(a: Avatar, obstacles: seq<Rect>, i: nat, toZero: bool)
    requires i < |obstacles|
    ensures Collisions(a, obstacles[..i + 1], toZero) == ObstacleTurn(Collisions(a, obstacles[..i], toZero), obstacles[i], toZero)
  {
    assert obstacles[..i + 1][..i] == obstacles[..i];
  }

  /** The loop keeps the invariant; a classical player is never moved by it
      and loses exactly when it touches an obstacle; a collapsed player is
      always in a basis state. */
  lemma {:induction false} CollisionsFacts(a: Avatar, obstacles: seq<Rect>, toZero: bool)
    requires Consistent(a)
    ensures Consistent(Collisions(a, obstacles, toZero).0)
    ensures !a.quantumMode ==> Collisions(a, obstacles, toZero).0 == a
    ensures !a.quantumMode ==>
      (Collisions(a, obstacles, toZero).1 <==> exists i :: 0 <= i < |obstacles| && Collide(a.player, obstacles[i]))
    ensures Collisions(a, obstacles, toZero).0 != a ==> Collisions(a, obstacles, toZero).0 == Collapsed(a, toZero)
    decreases |obstacles|
  {
    if obstacles != [] {
      var init := obstacles[..|obstacles| - 1];
      CollisionsFacts(a, init, toZero);
      var (b, over) := Collisions(a, init, toZero);
      var o := obstacles[|obstacles| - 1];
      if !a.quantumMode {
        assert b == a;
        if over {
          var i :| 0 <= i < |init| && Collide(a.player, init[i]);
          assert obstacles[i] == init[i];
        }
        if Collisions(a, obstacles, toZero).1 && !over {
          assert Collide(a.player, obstacles[|obstacles| - 1]);
        }
        forall i | 0 <= i < |obstacles| && Collide(a.player, obstacles[i])
          ensures Collisions(a, obstacles, toZero).1
        {
          if i < |init| {
            assert init[i] == obstacles[i];
          }
        }
      }
    }
  }

  /** An obstacle's move in one frame: in quantum mode it takes the player's
      horizontal key step and rises by DRIFT, wrapping to the bottom row;
      otherwise it drifts left by DRIFT, wrapping past the left edge to the
      right edge. */
  function Drift(x: int, y: int, quantumMode: bool, dx: int): (p: (int, int))
    ensures quantumMode ==> p.0 == x + dx && (if y - DRIFT < 0 then p.1 == HEIGHT - TILE else p.1 == y - DRIFT)
    ensures !quantumMode ==> p.1 == y && (if x - DRIFT < -TILE then p.0 == WIDTH else p.0 == x - DRIFT)
  {
    if quantumMode then
      var y' := y - DRIFT;
      (x + dx, if y' < 0 then HEIGHT - TILE else y')
    else
      var x' := x - DRIFT;
      (if x' < -TILE then WIDTH else x', y)
  }

  /** Drifting keeps a rising obstacle inside the screen and a left-drifting
      obstacle between one tile past the left edge and the right edge. */
  lemma DriftStaysOnScreen(x: int, y: int, quantumMode: bool, dx: int)
    ensures quantumMode && 0 <= y <= HEIGHT - TILE ==> 0 <= Drift(x, y, quantumMode, dx).1 <= HEIGHT - TILE
    ensures !quantumMode && -TILE <= x <= WIDTH ==> -TILE <= Drift(x, y, quantumMode, dx).0 <= WIDTH
  {
  }

  /** The keys the player does not touch, in order. */
  function Untouched(p: Rect, ts: seq<Tile>): (rest: seq<Tile>)
    reads ts
    ensures |rest| <= |ts|
    ensures forall m :: 0 <= m < |rest| ==> !Collide(p, rest[m].Bounds())
    decreases |ts|
  {
    if ts == [] then []
    else
      var init := Untouched(p, ts[..|ts| - 1]);
      var last := ts[|ts| - 1];
      if Collide(p, last.Bounds()) then init else init + [last]
  }

  /** A tile stays exactly when the player does not touch it. */
  lemma {:induction false} UntouchedKeepsExactly(p: Rect, ts: seq<Tile>, t: Tile)
    ensures t in Untouched(p, ts) <==> t in ts && !Collide(p, t.Bounds())
    decreases |ts|
  {
    if ts != [] {
      var init := ts[..|ts| - 1];
      UntouchedKeepsExactly(p, init, t);
      assert ts == init + [ts[|ts| - 1]];
    }
  }

  /** list.remove's search: the index of the first tile on square b, or
      the length when there is none. */
  function FirstOnSquare(ts: seq<Tile>, b: Rect): (j: nat)
    reads ts
    ensures j <= |ts|
    ensures forall m :: 0 <= m < j ==> ts[m].Bounds() != b
    ensures j < |ts| ==> ts[j].Bounds() == b
  {
    if ts == [] then 0
    else if ts[0].Bounds() == b then 0
    else 1 + FirstOnSquare(ts[1..], b)
  }

  /** list.remove on a tile list (tiles compare by their squares): the first
      tile on square b is dropped; the list is kept when there is none. */
  function RemoveSquare(ts: seq<Tile>, b: Rect): (r: seq<Tile>)
    reads ts
    ensures FirstOnSquare(ts, b) < |ts| ==> |r| == |ts| - 1
    ensures forall t :: t in r ==> t in ts
  {
    var j := FirstOnSquare(ts, b);
    if j < |ts| then ts[..j] + ts[j + 1..] else ts
  }

  /** Why list.remove takes the touched key itself out of the list: no key
      before it is on its square, since those are all untouched. */
  lemma RemoveFirstTouched(p: Rect, ks: seq<Tile>, done: seq<Tile>, k: Tile, rest: seq<Tile>, j: nat)
    requires ks == done + [k] + rest
    requires forall m :: 0 <= m < |done| ==> !Collide(p, done[m].Bounds())
    requires Collide(p, k.Bounds())
    requires j <= |ks|
    requires forall m :: 0 <= m < j ==> ks[m].Bounds() != k.Bounds()
    requires j < |ks| ==> ks[j].Bounds() == k.Bounds()
    ensures j == |done|
    ensures ks[..j] + ks[j + 1..] == done + rest
  {
    assert forall m :: 0 <= m < |done| ==> ks[m] == done[m];
    assert ks[|done|] == k;
    assert ks[..|done|] == done && ks[|done| + 1..] == rest;
  }

  /** One turn of the key loop keeps its invariant: the keys before i are
      filtered and the rest are still in place. */
  lemma SweepStep(p: Rect, keys: seq<Tile>, i: nat, ks: seq<Tile>)
    requires i < |keys|
    requires ks == Untouched(p, keys[..i]) + keys[i..]
    ensures Collide(p, keys[i].Bounds()) ==>
      RemoveSquare(ks, keys[i].Bounds()) == Untouched(p, keys[..i + 1]) + keys[i + 1..]
    ensures !Collide(p, keys[i].Bounds()) ==> ks == Untouched(p, keys[..i + 1]) + keys[i + 1..]
  {
    var k := keys[i];
    var done := Untouched(p, keys[..i]);
    var rest := keys[i + 1..];
    assert Untouched(p, keys[..i + 1]) == if Collide(p, k.Bounds()) then done else done + [k] by {
      assert keys[..i + 1][..i] == keys[..i];
    }
    assert ks == done + [k] + rest by {
      assert keys[i..] == [k] + rest;
    }
    if Collide(p, k.Bounds()) {
      RemoveFirstTouched(p, ks, done, k, rest, FirstOnSquare(ks, k.Bounds()));
    }
  }

  /** The script's globals. */
  class Maze {
    var state: QState
    var quantumMode: bool
    var player: Rect
    var twin: Option<Rect>
    var hasKey: bool
    var walls0: seq<Tile>
    var walls1: seq<Tile>
    var keys: seq<Tile>
    var obstacles: seq<Tile>
    var exitRect: Rect

    function View(): Avatar
      reads this
    {
      Avatar(player, state, quantumMode, twin)
    }

    function Plan(): Layout
      reads this, walls0, walls1, keys, obstacles
    {
      Layout(Rects(walls0), Rects(walls1), Rects(keys), Rects(obstacles))
    }

    /** The script's globals once create_maze has filled the tile lists:
        the player starts in the top-left square in state Zero, without a
        key. */
    constructor(w0: seq<Tile>, w1: seq<Tile>, ks: seq<Tile>, os: seq<Tile>, exit: Rect)
      ensures View() == Avatar(Rect(TILE, TILE, TILE, TILE), Zero, false, None)
      ensures !hasKey
      ensures walls0 == w0 && walls1 == w1 && keys == ks && obstacles == os && exitRect == exit
    {
      walls0, walls1, keys, obstacles, exitRect := w0, w1, ks, os, exit;
      state, quantumMode, twin := Zero, false, None;
      player := Rect(TILE, TILE, TILE, TILE);
      hasKey := false;
    }

    /** The script's start: create_maze fills the tile lists and places the
        exit, then the player is placed. */
    static method Start(draws: seq<seq<CellDraw>>, exitTop: bool) returns (m: Maze)
      requires WellShaped(draws)
      ensures fresh(m)
      ensures m.View() == Avatar(Rect(TILE, TILE, TILE, TILE), Zero, false, None) && !m.hasKey
      ensures m.Plan() == MazeLayout(draws) && m.exitRect == ExitSquare(exitTop)
      ensures DistinctTiles(m.obstacles)
    {
      var w0, w1, ks, os := BuildTiles(draws);
      ghost var l := Layout(Rects(w0), Rects(w1), Rects(ks), Rects(os));
      label Built:
      m := new Maze(w0, w1, ks, os, Rect(WIDTH - TILE, if exitTop then TILE else HALF + TILE, TILE, TILE));
      RectsUnchanged@Built(w0);
      RectsUnchanged@Built(w1);
      RectsUnchanged@Built(ks);
      RectsUnchanged@Built(os);
      assert m.Plan() == l;
    }

    /** create_maze's double loop, over rows and then columns. */
    static method BuildTiles(draws: seq<seq<CellDraw>>) returns (w0: seq<Tile>, w1: seq<Tile>, ks: seq<Tile>, os: seq<Tile>)
      requires WellShaped(draws)
      ensures Layout(Rects(w0), Rects(w1), Rects(ks), Rects(os)) == MazeLayout(draws)
      ensures DistinctTiles(os)
    {
      w0, w1, ks, os := [], [], [], [];
      var r := 0;
      while r < ROWS
        invariant 0 <= r <= ROWS
        invariant Layout(Rects(w0), Rects(w1), Rects(ks), Rects(os)) == LayoutUpTo(draws, r, 0)
      {
        var c := 0;
        while c < COLS
          invariant 0 <= c <= COLS
          invariant Layout(Rects(w0), Rects(w1), Rects(ks), Rects(os)) == LayoutUpTo(draws, r, c)
        {
          w0, w1, ks, os := BuildCell(r, c, draws[r][c], w0, w1, ks, os);
          c := c + 1;
        }
        r := r + 1;
      }
      assert Layout(Rects(w0), Rects(w1), Rects(ks), Rects(os)) == MazeLayout(draws);
      KeysOffWalls(draws);
      forall i, j | 0 <= i < j < |os|
        ensures os[i] != os[j]
      {
        assert Rects(os)[i] != Rects(os)[j];
      }
    }

    /** One cell of create_maze: both squares are made, then put on the lists
        the draws pick. */
    static method BuildCell(r: int, c: int, d: CellDraw, w0: seq<Tile>, w1: seq<Tile>, ks: seq<Tile>, os: seq<Tile>)
      returns (w0': seq<Tile>, w1': seq<Tile>, ks': seq<Tile>, os': seq<Tile>)
      requires 0 <= r < ROWS && 0 <= c < COLS
      ensures Layout(Rects(w0'), Rects(w1'), Rects(ks'), Rects(os'))
        == PlaceCell(old(Layout(Rects(w0), Rects(w1), Rects(ks), Rects(os))), r, c, d)
    {
      ghost var l0 := Layout(Rects(w0), Rects(w1), Rects(ks), Rects(os));
      ghost var spec := PlaceCell(l0, r, c, d);
      var top := new Tile(c * TILE, r * TILE);
      var bot := new Tile(c * TILE, r * TILE + HALF);
      assert Rects(w0) == l0.walls0 && Rects(w1) == l0.walls1;
      assert Rects(ks) == l0.keys && Rects(os) == l0.obstacles;
      assert top.Bounds() == TopSquare(r, c) && bot.Bounds() == BottomSquare(r, c);
      w0', w1', ks', os' := w0, w1, ks, os;
      if d.wallTop {
        RectsSnoc(w0', top);
        w0' := w0' + [top];
      }
      if d.wallBottom {
        RectsSnoc(w1', bot);
        w1' := w1' + [bot];
      }
      if d.keyTop && top.Bounds() !in Rects(w0') {
        RectsSnoc(ks', top);
        ks' := ks' + [top];
      }
      if d.keyBottom && bot.Bounds() !in Rects(w1') {
        RectsSnoc(ks', bot);
        ks' := ks' + [bot];
      }
      if d.obstacle {
        var o := if d.obstacleTop then top else bot;
        RectsSnoc(os', o);
        os' := os' + [o];
      }
    }

    method ApplyGate(g: Gate)
      modifies this`state, this`quantumMode, this`player, this`twin
      ensures View() == GateEffect(old(View()), g)
    {
      if g == X && !quantumMode {
        if state == Zero {
          state := One;
          player := player.(y := player.y + HALF);
        } else {
          state := Zero;
          player := player.(y := player.y - HALF);
        }
      } else if g == Z && quantumMode {
        state := if state == Plus then Minus else Plus;
      } else if g == H {
        if state == Zero {
          state := Plus;
          quantumMode := true;
          twin := Some(player.(y := player.y + HALF));
        } else if state == One {
          state := Minus;
          quantumMode := true;
          twin := Some(player.(y := player.y - HALF));
        } else if state == Plus {
          state := Zero;
          quantumMode := false;
          twin := None;
        } else {
          state := One;
          quantumMode := false;
          twin := None;
        }
      }
    }

    /** The random gate of the frame; the three draws are disjoint, so at
        most one gate applies. */
    method RandomGate(draw: int)
      modifies this`state, this`quantumMode, this`player, this`twin
      ensures View() == (match ScheduledGate(draw)
                           case None => old(View())
                           case Some(g) => GateEffect(old(View()), g))
    {
      if draw == 100 || draw == 200 {
        ApplyGate(X);
      }
      if draw == 50 || draw == 250 {
        ApplyGate(Z);
      }
      if draw == 150 {
        ApplyGate(H);
      }
    }

    method MeasureCollapse(toZero: bool)
      modifies this`state, this`quantumMode, this`player, this`twin
      ensures View() == Collapsed(old(View()), toZero)
    {
      if toZero {
        state := Zero;
        player := player.(y := player.y % HALF);
      } else {
        state := One;
        player := player.(y := player.y % HALF + HALF);
      }
      quantumMode := false;
      twin := None;
    }

    /** The move step of the frame, from the arrow keys held. */
    method MovePlayer(left: bool, right: bool, up: bool, down: bool)
      modifies this`player
      ensures View() == if old(quantumMode) then old(View())
        else old(Walked(View(), KeyDelta(left, right), KeyDelta(up, down), Rects(walls0), Rects(walls1)))
    {
      var w0s, w1s := Rects(walls0), Rects(walls1);
      if !quantumMode {
        var dx, dy := 0, 0;
        if left { dx := -TILE; }
        if right { dx := TILE; }
        if up { dy := -TILE; }
        if down { dy := TILE; }
        var next := Move(player, dx, dy);
        if state == Zero {
          if !HitsAny(next, w0s) {
            player := next;
          }
        } else {
          if !HitsAny(next, w1s) {
            player := next;
          }
        }
      }
    }

    /** The obstacle step of the frame; the left and right keys steer the
        obstacles in quantum mode. */
    method MoveObstacles(left: bool, right: bool)
      requires DistinctTiles(obstacles)
      modifies obstacles
      ensures forall i :: 0 <= i < |obstacles| ==>
        (obstacles[i].x, obstacles[i].y)
          == Drift(old(obstacles[i].x), old(obstacles[i].y), quantumMode, KeyDelta(left, right))
    {
      var dx := 0;
      if quantumMode {
        if left { dx := -TILE; }
        if right { dx := TILE; }
      }
      assert quantumMode ==> dx == KeyDelta(left, right);
      var i := 0;
      while i < |obstacles|
        invariant 0 <= i <= |obstacles|
        invariant forall j :: 0 <= j < i ==>
          (obstacles[j].x, obstacles[j].y)
            == Drift(old(obstacles[j].x), old(obstacles[j].y), quantumMode, KeyDelta(left, right))
        invariant forall j :: i <= j < |obstacles| ==>
          obstacles[j].x == old(obstacles[j].x) && obstacles[j].y == old(obstacles[j].y)
      {
        var o := obstacles[i];
        if quantumMode {
          o.x := o.x + dx;
          o.y := o.y - DRIFT;
          if o.y < 0 {
            o.y := HEIGHT - TILE;
          }
        } else {
          o.x := o.x - DRIFT;
          if o.x < -TILE {
            o.x := WIDTH;
          }
        }
        i := i + 1;
      }
    }

    /** The collision step of the frame; a measurement draws toZero. */
    method CheckObstacles(toZero: bool) returns (gameOver: bool)
      modifies this`state, this`quantumMode, this`player, this`twin
      ensures (View(), gameOver) == Collisions(old(View()), Rects(obstacles), toZero)
    {
      gameOver := false;
      var rs := Rects(obstacles);
      var i := 0;
      while i < |rs|
        invariant 0 <= i <= |rs|
        invariant (View(), gameOver) == Collisions(old(View()), rs[..i], toZero)
      {
        var o := rs[i];
        CollisionsSnoc(old(View()), rs, i, toZero);
        if Collide(player, o) || (twin.Some? && Collide(twin.value, o)) {
          if quantumMode {
            MeasureCollapse(toZero);
          } else {
            gameOver := true;
          }
        }
        i := i + 1;
      }
      assert rs[..|rs|] == rs;
      RectsUnchanged(obstacles);
    }

    /** The key step of the frame: every key the player touches is removed
        (list.remove drops the first key on the same square, which is touched
        too) and the player then holds a key. */
    method CollectKeys()
      modifies this`keys, this`hasKey
      ensures keys == old(Untouched(player, keys))
      ensures hasKey <==> old(hasKey || HitsAny(player, Rects(keys)))
    {
      var rest, touched := SweepKeys(player, keys);
      keys, hasKey := rest, hasKey || touched;
    }

    /** The loop over a copy of the key list: a touched key is removed from
        the list by value. */
    static method SweepKeys(p: Rect, keys: seq<Tile>) returns (ks: seq<Tile>, touched: bool)
      ensures ks == Untouched(p, keys)
      ensures touched <==> HitsAny(p, Rects(keys))
    {
      ks, touched := keys, false;
      ghost var rs := Rects(keys);
      var i := 0;
      while i < |keys|
        invariant 0 <= i <= |keys|
        invariant ks == Untouched(p, keys[..i]) + keys[i..]
        invariant touched <==> HitsAny(p, rs[..i])
      {
        var k := keys[i];
        SweepStep(p, keys, i, ks);
        HitsAnyPrefix(p, rs, i);
        if Collide(p, k.Bounds()) {
          ks := RemoveSquare(ks, k.Bounds());
          touched := true;
        }
        i := i + 1;
      }
      assert keys[..|keys|] == keys && rs[..|keys|] == rs;
    }

    /** The player escapes holding a key on the exit. */
    predicate Escaped()
      reads this
    {
      hasKey && Collide(player, exitRect)
    }
  }
}
