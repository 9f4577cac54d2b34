/** Quantum Bubble Burst (Game/Rescue_v4.py): a 10x10 grid of optional bubbles,
    a cannon whose loaded bubble takes gates, placement of a landed shot,
    a stack-based flood fill for same-label matches, popping and scoring. */
module BubbleBurst {
  import opened Quantum
  import opened Optional
  import opened MatchComponent

  const FPS := 60
  const BUBBLE_RADIUS := 20
  const GRID_TOP := 50
  /** (WIDTH - COLS * 2 * BUBBLE_RADIUS) / 2 with WIDTH = 480 */
  const GRID_LEFT := 40
  /** A superposed bubble flips once its timer exceeds this. */
  const FLIP_AFTER := FPS * 2

  // ---------------------------------------------------------------- bubbles

  /** One Bubble.update of a bubble's (label, superposition timer). */
  function Oscillate(s: QState, timer: int): (r: (QState, int))
    ensures IsBasis(s) ==> r == (s, timer)
    ensures IsSuperposition(s) ==> IsSuperposition(r.0)
    ensures IsSuperposition(s) ==> (r.0 != s <==> timer + 1 > FLIP_AFTER)
    ensures IsSuperposition(s) && 0 <= timer <= FLIP_AFTER ==> 0 <= r.1 <= FLIP_AFTER
  {
    if IsSuperposition(s) then
      if timer + 1 > FLIP_AFTER then (Paired(s), 0) else (s, timer + 1)
    else
      (s, timer)
  }

  /** n successive updates. */
  function OscillateN(s: QState, timer: int, n: nat): (QState, int)
    decreases n
  {
    if n == 0 then (s, timer)
    else
      var next := Oscillate(s, timer);
      OscillateN(next.0, next.1, n - 1)
  }

  /** A superposed bubble keeps its label while its timer climbs to FLIP_AFTER. */
  lemma {:induction false} OscillateClimbs(s: QState, timer: int, n: nat)
    requires IsSuperposition(s) && 0 <= timer && timer + n <= FLIP_AFTER
    decreases n
    ensures OscillateN(s, timer, n) == (s, timer + n)
  {
    if n > 0 {
      OscillateClimbs(s, timer + 1, n - 1);
    }
  }

  /** From any reachable timer value, the label flips after exactly
      FLIP_AFTER + 1 - timer updates, and the timer restarts at 0. */
  lemma OscillatePeriod(s: QState, timer: int)
    requires IsSuperposition(s) && 0 <= timer <= FLIP_AFTER
    ensures OscillateN(s, timer, FLIP_AFTER - timer) == (s, FLIP_AFTER)
    ensures OscillateN(s, timer, FLIP_AFTER + 1 - timer) == (Paired(s), 0)
  {
    OscillateClimbs(s, timer, FLIP_AFTER - timer);
    OscillateAppend(s, timer, FLIP_AFTER - timer);
  }

  lemma {:induction false} OscillateAppend(s: QState, timer: int, n: nat)
    decreases n
    ensures OscillateN(s, timer, n + 1) ==
            Oscillate(OscillateN(s, timer, n).0, OscillateN(s, timer, n).1)
  {
    if n > 0 {
      var next := Oscillate(s, timer);
      OscillateAppend(next.0, next.1, n - 1);
    }
  }

  /** One frame of main(): grid.update() and then grid.collapse_superpositions(),
      which updates every superposed bubble a second time. */
  function FrameOscillate(s: QState, timer: int): (QState, int) {
    var once := Oscillate(s, timer);
    if IsSuperposition(once.0) then Oscillate(once.0, once.1) else once
  }

  function FramesN(s: QState, timer: int, frames: nat): (QState, int)
    decreases frames
  {
    if frames == 0 then (s, timer)
    else
      var next := FrameOscillate(s, timer);
      FramesN(next.0, next.1, frames - 1)
  }

  lemma {:induction false} FramesAreDoubleUpdates(s: QState, timer: int, frames: nat)
    requires IsSuperposition(s)
    ensures FramesN(s, timer, frames) == OscillateN(s, timer, 2 * frames)
    decreases frames
  {
    if frames > 0 {
      var once := Oscillate(s, timer);
      var twice := Oscillate(once.0, once.1);
      FramesAreDoubleUpdates(twice.0, twice.1, frames - 1);
    }
  }

  /** Because each frame updates a superposed bubble twice, a fresh |+> or |->
      bubble keeps its label for 60 frames and has flipped after 61, about one
      second at FPS = 60 rather than the two seconds the update's comment names. */
  lemma FreshBubbleFlipsAfterSixtyOneFrames(s: QState)
    requires IsSuperposition(s)
    ensures FramesN(s, 0, 60) == (s, FLIP_AFTER)
    ensures FramesN(s, 0, 61) == (Paired(s), 1)
  {
    FramesAreDoubleUpdates(s, 0, 60);
    FramesAreDoubleUpdates(s, 0, 61);
    OscillatePeriod(s, 0);
    OscillateAppend(s, 0, FLIP_AFTER + 1);
  }

  class Bubble {
    const row: int
    const col: int
    var state: QState
    var popped: bool
    /** superposition_timer */
    var timer: int

    constructor (row: int, col: int, state: QState)
      ensures this.row == row && this.col == col && this.state == state
      ensures !popped && timer == 0
    {
      this.row := row;
      this.col := col;
      this.state := state;
      popped := false;
      timer := 0;
    }

    /** Bubble.update: free oscillation of a superposed bubble. */
    method Update()
      modifies this
      ensures (state, timer) == Oscillate(old(state), old(timer))
      ensures popped == old(popped)
    {
      if state == Plus || state == Minus {
        timer := timer + 1;
        if timer > FLIP_AFTER {
          timer := 0;
          state := if state == Minus then Plus else Minus;
        }
      }
    }
  }

  /** The pixel centre of a cell (the x and y a Bubble is drawn at). */
  function CentreX(col: int): int {
    GRID_LEFT + col * 2 * BUBBLE_RADIUS + BUBBLE_RADIUS
  }

  function CentreY(row: int): int {
    GRID_TOP + row * 2 * BUBBLE_RADIUS + BUBBLE_RADIUS
  }

  // ----------------------------------------------------------------- cannon

  datatype AimDirection = Left | Right

  /** Cannon.aim on the angle in degrees. */
  function Aimed(angle: int, dir: AimDirection): (r: int)
    ensures 10 <= angle <= 170 ==> 10 <= r <= 170 && -2 <= r - angle <= 2
    ensures dir == Left ==> r >= angle || r == 170
    ensures dir == Right ==> r <= angle || r == 10
  {
    match dir
    case Left => if 170 < angle + 2 then 170 else angle + 2
    case Right => if 10 > angle - 2 then 10 else angle - 2
  }

  class Cannon {
    /** degrees, 90 is straight up */
    var angle: int
    var bubbleState: QState
    var isShooting: bool

    ghost predicate Valid()
      reads this
    {
      10 <= angle <= 170
    }

    /** Cannon(): bubble_state is random.choice(STATES), passed in here. */
    constructor (loaded: QState)
      ensures Valid() && angle == 90 && bubbleState == loaded && !isShooting
    {
      angle := 90;
      bubbleState := loaded;
      isShooting := false;
    }

    method Aim(dir: AimDirection)
      requires Valid()
      modifies this
      ensures Valid()
      ensures angle == Aimed(old(angle), dir)
      ensures bubbleState == old(bubbleState) && isShooting == old(isShooting)
    {
      if dir == Left {
        angle := if 170 < angle + 2 then 170 else angle + 2;
      } else {
        angle := if 10 > angle - 2 then 10 else angle - 2;
      }
    }

    /** Cannon.apply_gate on the loaded bubble. */
    method ApplyGate(g: Gate)
      modifies this
      ensures bubbleState == Apply(old(bubbleState), g)
      ensures angle == old(angle) && isShooting == old(isShooting)
    {
      match g
      case X =>
        if bubbleState == Zero {
          bubbleState := One;
        } else if bubbleState == One {
          bubbleState := Zero;
        }
      case Z =>
        if bubbleState == Plus {
          bubbleState := Minus;
        } else if bubbleState == Minus {
          bubbleState := Plus;
        }
      case H =>
        if bubbleState == Zero {
          bubbleState := Plus;
        } else if bubbleState == One {
          bubbleState := Minus;
        } else if bubbleState == Plus {
          bubbleState := Zero;
        } else {
          bubbleState := One;
        }
    }

    /** Cannon.shoot: fires unless a shot is already in flight. */
    method Shoot()
      modifies this
      ensures isShooting
      ensures angle == old(angle) && bubbleState == old(bubbleState)
    {
      if !isShooting {
        isShooting := true;
      }
    }

    /** Cannon.reset_bubble: a new random label, passed in here, and the
        cannon ready to fire again. */
    method ResetBubble(loaded: QState)
      modifies this`bubbleState, this`isShooting
      ensures bubbleState == loaded && !isShooting
    {
      bubbleState := loaded;
      isShooting := false;
    }
  }

  // ------------------------------------------------------- grid positions

  /** BubbleGrid.get_grid_pos for an integer point; None stands for
      (None, None). */
  function GetGridPos(x: int, y: int): (pos: Option<Cell>)
    ensures pos.Some? ==> InRange(pos.value)
    ensures pos.Some? ==>
      && CentreX(pos.value.1) - BUBBLE_RADIUS <= x < CentreX(pos.value.1) + BUBBLE_RADIUS
      && CentreY(pos.value.0) - BUBBLE_RADIUS <= y < CentreY(pos.value.0) + BUBBLE_RADIUS
    ensures pos.None? <==>
      !(GRID_LEFT <= x < GRID_LEFT + COLS * 2 * BUBBLE_RADIUS &&
        GRID_TOP <= y < GRID_TOP + ROWS * 2 * BUBBLE_RADIUS)
  {
    var col := (x - GRID_LEFT) / (2 * BUBBLE_RADIUS);
    var row := (y - GRID_TOP) / (2 * BUBBLE_RADIUS);
    if 0 <= row < ROWS && 0 <= col < COLS then Some((row, col)) else None
  }

  /** Snapping a cell's own centre gives the cell back. */
  lemma SnapCentre(c: Cell)
    requires InRange(c)
    ensures GetGridPos(CentreX(c.1), CentreY(c.0)) == Some(c)
  {
  }

  // ----------------------------------------------- neighbour probing

  /** The inner dc loop of place_bubble for one dr, as written: starting from
      the current cell at, move to the first free (at.0+dr, at.1+dc) for
      dc = -1, 0, 1, or stay. */
  function ScanRow(free: set<Cell>, at: Cell, dr: int): (r: Cell)
    ensures r == at || r in free
    ensures r != at ==> r.0 == at.0 + dr && -1 <= r.1 - at.1 <= 1
  {
    if (at.0 + dr, at.1 - 1) in free then (at.0 + dr, at.1 - 1)
    else if (at.0 + dr, at.1) in free then (at.0 + dr, at.1)
    else if (at.0 + dr, at.1 + 1) in free then (at.0 + dr, at.1 + 1)
    else at
  }

  /** The whole probe for an occupied target: the dr loop runs on from
      wherever the previous dr iteration moved the cell. */
  function Probe(free: set<Cell>, t: Cell): (p: Cell)
    ensures p == t || p in free
    ensures -1 <= p.0 - t.0 <= 1 && -3 <= p.1 - t.1 <= 3
  {
    var a := ScanRow(free, t, -1);
    var b := ScanRow(free, a, 0);
    ScanRow(free, b, 1)
  }

  /** The eight cells around t. */
  predicate Around(t: Cell, n: Cell) {
    -1 <= n.0 - t.0 <= 1 && -1 <= n.1 - t.1 <= 1 && n != t
  }

  /** The probe ends on a free cell exactly when one of the eight cells
      around the occupied target is free: placement is refused only for a
      saturated neighbourhood. */
  lemma ProbeFindsFree(free: set<Cell>, t: Cell)
    requires t !in free
    ensures Probe(free, t) in free <==> exists n :: n in free && Around(t, n)
  {
    var a := ScanRow(free, t, -1);
    var b := ScanRow(free, a, 0);
    var p := ScanRow(free, b, 1);
    if p in free {
      if b == t {
        assert Around(t, p);
      } else if a == t {
        assert Around(t, b);
      } else {
        assert Around(t, a);
      }
    }
    if exists n :: n in free && Around(t, n) {
      var n :| n in free && Around(t, n);
      if a == t && b == t {
        assert n.0 == t.0 + 1;
        assert p != t;
      } else if a == t {
        assert b in free;
      } else {
        assert a in free;
        assert b in free;
      }
    }
  }

  /** The probe does not always stay next to the target: with (5, 5) taken and
      only (4, 4) and (4, 3) free, the bubble lands on (4, 3), two columns
      away, because the dr = 0 scan starts from the moved cell (4, 4). */
  lemma ProbeCanLeaveNeighbourhood()
    ensures Probe({(4, 4), (4, 3)}, (5, 5)) == (4, 3)
    ensures !Around((5, 5), (4, 3))
  {
  }

  // ------------------------------------------------------------------ grid

  /** The cell a landed shot ends up in, before the final can_place check. */
  function Target(free: set<Cell>, t: Cell): Cell {
    if t in free then t else Probe(free, t)
  }

  /** Where place_bubble puts a bubble dropped at (x, y) on a grid whose free
      cells are free: None when the point is off the grid or the probe found
      no free cell. */
  function LandingCell(free: set<Cell>, x: int, y: int): (r: Option<Cell>)
    ensures r.Some? ==> r.value in free && GetGridPos(x, y).Some?
    ensures GetGridPos(x, y).Some? && GetGridPos(x, y).value in free ==> r == GetGridPos(x, y)
  {
    match GetGridPos(x, y)
    case None => None
    case Some(p) =>
      var t := Target(free, p);
      if t in free then Some(t) else None
  }

  /** The contact test of main(): math.hypot(b.x - x, b.y - y) <= 2 * BUBBLE_RADIUS,
      compared squared, which is exact for integer points. */
  predicate Near(r: int, c: int, x: int, y: int) {
    (CentreX(c) - x) * (CentreX(c) - x) + (CentreY(r) - y) * (CentreY(r) - y)
      <= (2 * BUBBLE_RADIUS) * (2 * BUBBLE_RADIUS)
  }

  predicate Before(a: Cell, b: Cell) {
    a.0 < b.0 || (a.0 == b.0 && a.1 < b.1)
  }

  /** The offsets (-1, 0), (1, 0), (0, -1), (0, 1) of get_adjacent. */
  function Neighbours(c: Cell): seq<Cell> {
    [(c.0 - 1, c.1), (c.0 + 1, c.1), (c.0, c.1 - 1), (c.0, c.1 + 1)]
  }

  lemma NeighboursAreAdjacent(c: Cell, n: Cell)
    ensures Adjacent(c, n) <==> exists j :: 0 <= j < 4 && Neighbours(c)[j] == n
  {
    if Adjacent(c, n) {
      if n == (c.0 - 1, c.1) {
        assert Neighbours(c)[0] == n;
      } else if n == (c.0 + 1, c.1) {
        assert Neighbours(c)[1] == n;
      } else if n == (c.0, c.1 - 1) {
        assert Neighbours(c)[2] == n;
      } else {
        assert Neighbours(c)[3] == n;
      }
    }
  }

  /** The cells of a list of bubbles. */
  function CellsOf(bs: seq<Bubble>): set<Cell> {
    set i | 0 <= i < |bs| :: (bs[i].row, bs[i].col)
  }

  /** The cells of a list of bubbles, in order. */
  function CellSeq(bs: seq<Bubble>): (cs: seq<Cell>)
    ensures |cs| == |bs|
    ensures forall i :: 0 <= i < |bs| ==> cs[i] == (bs[i].row, bs[i].col)
  {
    seq(|bs|, i requires 0 <= i < |bs| => (bs[i].row, bs[i].col))
  }

  lemma CellSeqAppend(bs: seq<Bubble>, b: Bubble)
    ensures CellSeq(bs + [b]) == CellSeq(bs) + [(b.row, b.col)]
  {
  }

  /** The cells of cs not in visited, in order. */
  function Unvisited(cs: seq<Cell>, visited: set<Cell>): (r: seq<Cell>)
    ensures forall t :: t in r <==> t in cs && t !in visited
    decreases |cs|
  {
    if cs == [] then []
    else
      var last := cs[|cs| - 1];
      var pre := Unvisited(cs[..|cs| - 1], visited);
      assert cs == cs[..|cs| - 1] + [last];
      if last !in visited then pre + [last] else pre
  }

  lemma CellsOfAppend(bs: seq<Bubble>, b: Bubble)
    ensures CellsOf(bs + [b]) == CellsOf(bs) + {(b.row, b.col)}
  {
    var ext := bs + [b];
    assert forall i :: 0 <= i < |bs| ==> ext[i] == bs[i];
    assert ext[|bs|] == b;
  }

  /** No two of the bubbles sit in the same cell. */
  predicate DistinctCells(bs: seq<Bubble>) {
    forall i, j :: 0 <= i < j < |bs| ==> (bs[i].row, bs[i].col) != (bs[j].row, bs[j].col)
  }

  lemma DistinctCellsAppend(bs: seq<Bubble>, b: Bubble)
    requires DistinctCells(bs) && (b.row, b.col) !in CellsOf(bs)
    ensures DistinctCells(bs + [b])
  {
    var ext := bs + [b];
    forall i, j | 0 <= i < j < |ext|
      ensures (ext[i].row, ext[i].col) != (ext[j].row, ext[j].col)
    {
      if j == |bs| {
        assert ext[i] == bs[i];
      } else {
        assert ext[i] == bs[i] && ext[j] == bs[j];
      }
    }
  }

  /** Bubbles in distinct cells are as many as their cells. */
  lemma {:induction false} DistinctCellsCard(bs: seq<Bubble>)
    requires DistinctCells(bs)
    ensures |CellsOf(bs)| == |bs|
    decreases |bs|
  {
    if bs != [] {
      var pre := bs[..|bs| - 1];
      var last := bs[|bs| - 1];
      assert bs == pre + [last];
      assert DistinctCells(pre);
      DistinctCellsCard(pre);
      CellsOfAppend(pre, last);
      assert (last.row, last.col) !in CellsOf(pre);
    }
  }

  lemma MapMinusUnion(m: Occupancy, a: set<Cell>, b: set<Cell>)
    ensures (m - a) - b == m - (a + b)
  {
  }

  /** Every in-range cell. */
  function AllCells(): (cells: set<Cell>)
    ensures forall c :: InRange(c) ==> c in cells
  {
    var cells := set r, c | 0 <= r < ROWS && 0 <= c < COLS :: (r, c);
    assert forall c :: InRange(c) ==> (c.0, c.1) in cells;
    cells
  }

  class BubbleGrid {
    const grid: array2<Bubble?>
    /** Every bubble ever placed on the grid; popped ones may stay in it. */
    ghost var Repr: set<Bubble>

    /** Every bubble in the grid knows its own cell, so no bubble sits in two
        cells. */
    ghost predicate Valid()
      reads this, grid
    {
      && grid.Length0 == ROWS && grid.Length1 == COLS
      && forall r, c :: 0 <= r < ROWS && 0 <= c < COLS && grid[r, c] != null ==>
           grid[r, c].row == r && grid[r, c].col == c && grid[r, c] in Repr
    }

    /** Each of the bubbles is the one in the grid at its own cell. */
    ghost predicate InGrid(bs: seq<Bubble>)
      reads this, grid
    {
      forall i :: 0 <= i < |bs| ==>
        InRange((bs[i].row, bs[i].col)) && grid.Length0 == ROWS && grid.Length1 == COLS &&
        grid[bs[i].row, bs[i].col] == bs[i]
    }

    lemma InGridAppend(bs: seq<Bubble>, b: Bubble)
      requires InGrid(bs) && Valid() && InRange((b.row, b.col)) && grid[b.row, b.col] == b
      ensures InGrid(bs + [b])
    {
      var ext := bs + [b];
      assert forall i :: 0 <= i < |bs| ==> ext[i] == bs[i];
    }

    /** The labels on the grid. */
    ghost function Labels(): Occupancy
      requires Valid()
      reads this, grid, Repr
    {
      map r, c | 0 <= r < grid.Length0 && 0 <= c < grid.Length1 && grid[r, c] != null
        :: (r, c) := grid[r, c].state
    }

    /** Labels() read at one cell. */
    lemma LabelsAt(c: Cell)
      requires Valid()
      ensures c in Labels() <==> InRange(c) && grid[c.0, c.1] != null
      ensures c in Labels() ==> Labels()[c] == grid[c.0, c.1].state
    {
    }

    /** Nothing changed, so the grid is still valid and holds the same
        labels. */
    twostate lemma LabelsKept()
      requires old(Valid()) && unchanged(this, grid) && forall b :: b in old(Repr) ==> unchanged(b)
      ensures Valid() && Labels() == old(Labels())
    {
    }

    /** A bubble that sits in its own cell. */
    ghost predicate OnGrid(b: Bubble)
      requires Valid()
      reads this, grid
    {
      InRange((b.row, b.col)) && grid[b.row, b.col] == b
    }

    /** The empty in-range cells. */
    ghost function Free(): set<Cell>
      reads this, grid
    {
      set r, c | 0 <= r < grid.Length0 && 0 <= c < grid.Length1 && grid[r, c] == null :: (r, c)
    }

    /** BubbleGrid(): an empty grid, then populate_initial. draw(r, c) is the
        random.choice(['0', '1']) for cell (r, c): true picks '1'. */
    constructor (draw: (int, int) -> bool)
      ensures Valid() && fresh(grid)
      ensures forall r, c :: 0 <= r < 5 && 0 <= c < COLS ==>
        grid[r, c] != null && fresh(grid[r, c]) &&
        grid[r, c].state == (if draw(r, c) then One else Zero) &&
        grid[r, c].timer == 0 && !grid[r, c].popped
      ensures forall r, c :: 5 <= r < ROWS && 0 <= c < COLS ==> grid[r, c] == null
    {
      grid := new Bubble?[ROWS, COLS]((r, c) => null);
      Repr := {};
      new;
      PopulateInitial(draw);
    }

    /** populate_initial: rows 0..4 get fresh '0'/'1' bubbles, rows 5..9 are
        left as they are. */
    method PopulateInitial(draw: (int, int) -> bool)
      requires Valid()
      modifies this, grid
      ensures Valid()
      ensures forall r, c :: 0 <= r < 5 && 0 <= c < COLS ==>
        grid[r, c] != null && fresh(grid[r, c]) &&
        grid[r, c].state == (if draw(r, c) then One else Zero) &&
        grid[r, c].timer == 0 && !grid[r, c].popped
      ensures forall r, c :: 5 <= r < ROWS && 0 <= c < COLS ==> grid[r, c] == old(grid[r, c])
    {
      for r := 0 to 5
        invariant Valid()
        invariant forall r', c :: 0 <= r' < r && 0 <= c < COLS ==>
          grid[r', c] != null && fresh(grid[r', c]) &&
          grid[r', c].state == (if draw(r', c) then One else Zero) &&
          grid[r', c].timer == 0 && !grid[r', c].popped
        invariant forall r', c :: r <= r' < ROWS && 0 <= c < COLS ==> grid[r', c] == old(grid[r', c])
      {
        for c := 0 to COLS
          invariant Valid()
          invariant forall r', c' :: 0 <= r' < r && 0 <= c' < COLS ==>
            grid[r', c'] != null && fresh(grid[r', c']) &&
            grid[r', c'].state == (if draw(r', c') then One else Zero) &&
            grid[r', c'].timer == 0 && !grid[r', c'].popped
          invariant forall c' :: 0 <= c' < c ==>
            grid[r, c'] != null && fresh(grid[r, c']) &&
            grid[r, c'].state == (if draw(r, c') then One else Zero) &&
            grid[r, c'].timer == 0 && !grid[r, c'].popped
          invariant forall c' :: c <= c' < COLS ==> grid[r, c'] == old(grid[r, c'])
          invariant forall r', c' :: r < r' < ROWS && 0 <= c' < COLS ==> grid[r', c'] == old(grid[r', c'])
        {
          var state := if draw(r, c) then One else Zero;
          var b := new Bubble(r, c, state);
          grid[r, c] := b;
          Repr := Repr + {b};
        }
      }
    }

    /** BubbleGrid.can_place */
    predicate CanPlace(row: int, col: int)
      reads this, grid
      requires Valid()
    {
      0 <= row < ROWS && 0 <= col < COLS && grid[row, col] == null
    }

    lemma CanPlaceIsFree(row: int, col: int)
      requires Valid()
      ensures CanPlace(row, col) <==> (row, col) in Free()
    {
      if CanPlace(row, col) {
        assert (row, col) in Free();
      }
    }

    /** BubbleGrid.place_bubble at an integer point. */
    method PlaceBubble(x: int, y: int, state: QState) returns (b: Bubble?)
      requires Valid()
      modifies this, grid
      ensures Valid()
      ensures (if b == null then None else Some((b.row, b.col))) == LandingCell(old(Free()), x, y)
      ensures b == null ==> forall r, c :: 0 <= r < ROWS && 0 <= c < COLS ==> grid[r, c] == old(grid[r, c])
      ensures b != null ==>
        && fresh(b) && b.state == state && b.timer == 0 && !b.popped
        && (b.row, b.col) in old(Free()) && grid[b.row, b.col] == b
        && forall r, c :: 0 <= r < ROWS && 0 <= c < COLS && (r, c) != (b.row, b.col) ==>
             grid[r, c] == old(grid[r, c])
      ensures b == null ==> Repr == old(Repr) && Labels() == old(Labels())
      ensures b != null ==> Repr == old(Repr) + {b} && Labels() == old(Labels())[(b.row, b.col) := state]
    {
      var pos := GetGridPos(x, y);
      if pos.None? {
        return null;
      }
      var row, col := pos.value.0, pos.value.1;
      CanPlaceIsFree(row, col);
      if !CanPlace(row, col) {
        row, col := ProbeCell(row, col);
      }
      CanPlaceIsFree(row, col);
      if CanPlace(row, col) {
        b := Put(row, col, state);
      } else {
        b := null;
      }
    }

    /** The last step of place_bubble: a fresh bubble in a free cell. */
    method Put(row: int, col: int, state: QState) returns (b: Bubble)
      requires Valid() && InRange((row, col)) && grid[row, col] == null
      modifies this, grid
      ensures Valid()
      ensures fresh(b) && b.row == row && b.col == col && b.state == state && b.timer == 0 && !b.popped
      ensures forall r, c :: 0 <= r < ROWS && 0 <= c < COLS ==>
        grid[r, c] == if (r, c) == (row, col) then b else old(grid[r, c])
      ensures Repr == old(Repr) + {b}
      ensures Labels() == old(Labels())[(row, col) := state]
    {
      b := new Bubble(row, col, state);
      grid[row, col] := b;
      Repr := Repr + {b};
      assert Valid();
      forall c | c in old(Labels())
        ensures c in Labels() && Labels()[c] == old(Labels())[(row, col) := state][c]
      {
        LabelsAt(c);
      }
      LabelsAt((row, col));
    }

    /** The neighbour loops of place_bubble, entered when the target cell is
        taken: for dr = -1, 0, 1 and then dc = -1, 0, 1 probe
        (row + dr, col + dc) and move there on the first free one; the break
        leaves only the dc loop. */
    method ProbeCell(row0: int, col0: int) returns (row: int, col: int)
      requires Valid()
      ensures (row, col) == Probe(Free(), (row0, col0))
      ensures Labels() == old(Labels())
    {
      ghost var free := Free();
      row, col := row0, col0;
      var dr := -1;
      while dr <= 1
        invariant -1 <= dr <= 2
        invariant (row, col) ==
          if dr == -1 then (row0, col0)
          else if dr == 0 then ScanRow(free, (row0, col0), -1)
          else if dr == 1 then ScanRow(free, ScanRow(free, (row0, col0), -1), 0)
          else Probe(free, (row0, col0))
      {
        row, col := ScanCells(row, col, dr);
        dr := dr + 1;
      }
    }

    /** The dc loop for one dr: move to the first free cell of the row
        below, at or above, or stay; the break leaves the dc loop only. */
    method ScanCells(row0: int, col0: int, dr: int) returns (row: int, col: int)
      requires Valid()
      ensures (row, col) == ScanRow(Free(), (row0, col0), dr)
    {
      ghost var free := Free();
      row, col := row0, col0;
      var dc := -1;
      while dc <= 1
        invariant -1 <= dc <= 2
        invariant (row, col) == (row0, col0)
        invariant dc > -1 ==> (row0 + dr, col0 - 1) !in free
        invariant dc > 0 ==> (row0 + dr, col0) !in free
        invariant dc > 1 ==> (row0 + dr, col0 + 1) !in free
      {
        CanPlaceIsFree(row + dr, col + dc);
        if CanPlace(row + dr, col + dc) {
          row, col := row + dr, col + dc;
          break;
        }
        dc := dc + 1;
      }
    }

    /** The cells among cs that are on the grid and hold a bubble, in order. */
    ghost function OccupiedAmong(cs: seq<Cell>): (occ: seq<Cell>)
      requires Valid()
      reads this, grid
      ensures |occ| <= |cs|
      ensures forall t :: t in occ <==> t in cs && InRange(t) && grid[t.0, t.1] != null
      decreases |cs|
    {
      if cs == [] then []
      else
        var last := cs[|cs| - 1];
        var pre := OccupiedAmong(cs[..|cs| - 1]);
        assert cs == cs[..|cs| - 1] + [last];
        if InRange(last) && grid[last.0, last.1] != null then pre + [last] else pre
    }

    /** One more cell of cs. */
    lemma OccupiedAmongSnoc(cs: seq<Cell>, k: nat)
      requires Valid() && k < |cs|
      ensures OccupiedAmong(cs[..k + 1]) ==
        if InRange(cs[k]) && grid[cs[k].0, cs[k].1] != null then OccupiedAmong(cs[..k]) + [cs[k]]
        else OccupiedAmong(cs[..k])
    {
      assert cs[..k + 1][..k] == cs[..k];
    }

    /** BubbleGrid.get_adjacent: the bubbles up, down, left and right of a
        cell, in that order, skipping empty and out-of-range cells. */
    method GetAdjacent(row: int, col: int) returns (adj: seq<Bubble>)
      requires Valid()
      ensures InGrid(adj)
      ensures CellSeq(adj) == OccupiedAmong(Neighbours((row, col)))
      ensures |adj| <= 4
      ensures forall i :: 0 <= i < |adj| ==> Adjacent((row, col), (adj[i].row, adj[i].col))
      ensures forall n :: InRange(n) && grid[n.0, n.1] != null && Adjacent((row, col), n) ==>
        n in CellsOf(adj)
    {
      var around := Neighbours((row, col));
      adj := [];
      for k := 0 to 4
        invariant InGrid(adj)
        invariant CellSeq(adj) == OccupiedAmong(around[..k])
      {
        OccupiedAmongSnoc(around, k);
        var nr, nc := around[k].0, around[k].1;
        if 0 <= nr < ROWS && 0 <= nc < COLS && grid[nr, nc] != null {
          var nb: Bubble := grid[nr, nc];
          InGridAppend(adj, nb);
          CellSeqAppend(adj, nb);
          adj := adj + [nb];
        }
      }
      assert around[..4] == around;
      forall i | 0 <= i < |adj|
        ensures Adjacent((row, col), (adj[i].row, adj[i].col))
      {
        assert CellSeq(adj)[i] in around;
        NeighboursAreAdjacent((row, col), CellSeq(adj)[i]);
      }
      forall n | InRange(n) && grid[n.0, n.1] != null && Adjacent((row, col), n)
        ensures n in CellsOf(adj)
      {
        NeighboursAreAdjacent((row, col), n);
        assert n in CellSeq(adj);
        var i :| 0 <= i < |adj| && CellSeq(adj)[i] == n;
      }
    }

    /** The inner loop of find_matches: the cells of the bubbles adjacent to
        cur that have not been visited, in get_adjacent order. */
    method PushNeighbours(cur: Cell, visited: set<Cell>) returns (pushed: seq<Cell>)
      requires Valid() && InRange(cur)
      ensures pushed == Unvisited(OccupiedAmong(Neighbours(cur)), visited)
      ensures forall t :: t in pushed ==> InRange(t) && Adjacent(cur, t) && t !in visited
      ensures forall n :: InRange(n) && grid[n.0, n.1] != null && Adjacent(cur, n) ==>
        n in visited || n in pushed
    {
      var adj := GetAdjacent(cur.0, cur.1);
      ghost var cells := CellSeq(adj);
      pushed := [];
      for k := 0 to |adj|
        invariant pushed == Unvisited(cells[..k], visited)
      {
        assert cells[..k + 1][..k] == cells[..k];
        var neighbour := adj[k];
        if (neighbour.row, neighbour.col) !in visited {
          pushed := pushed + [(neighbour.row, neighbour.col)];
        }
      }
      assert cells[..|adj|] == cells;
      forall t | t in pushed
        ensures InRange(t) && Adjacent(cur, t)
      {
        NeighboursAreAdjacent(cur, t);
      }
      forall n | InRange(n) && grid[n.0, n.1] != null && Adjacent(cur, n)
        ensures n in visited || n in pushed
      {
        NeighboursAreAdjacent(cur, n);
      }
    }

    /** The rest of a find_matches pass once cur, popped and newly marked
        visited, is known to be new: a bubble of the seed's label joins the
        matches and its unvisited neighbours are pushed; anything else only
        leaves the stack shorter. */
    method Visit(state: QState, cur: Cell, rest: seq<Cell>, visited: set<Cell>, matches: seq<Bubble>,
                 ghost occ: Occupancy, ghost seed: Cell, ghost before: set<Cell>)
      returns (toVisit: seq<Cell>, matches': seq<Bubble>)
      requires Valid() && occ == Labels()
      requires InRange(cur) && forall t :: t in rest ==> InRange(t)
      requires cur !in before && visited == before + {cur}
      requires FillInv(occ, state, seed, CellsOf(matches), before, rest + [cur])
      requires InGrid(matches) && DistinctCells(matches)
      ensures forall t :: t in toVisit ==> InRange(t)
      ensures FillInv(occ, state, seed, CellsOf(matches'), visited, toVisit)
      ensures InGrid(matches') && DistinctCells(matches')
    {
      var current := grid[cur.0, cur.1];
      LabelsAt(cur);
      if current != null && current.state == state {
        var pushed := PushNeighbours(cur, visited);
        forall n | Adjacent(cur, n) && n in occ && occ[n] == state
          ensures n in before || n == cur || n in pushed
        {
          LabelsAt(n);
        }
        FillMatch(occ, state, seed, CellsOf(matches), before, rest, cur, pushed);
        var matched: Bubble := current;
        CellsOfAppend(matches, matched);
        DistinctCellsAppend(matches, matched);
        InGridAppend(matches, matched);
        toVisit, matches' := rest + pushed, matches + [matched];
      } else {
        FillMiss(occ, state, seed, CellsOf(matches), before, rest, cur);
        toVisit, matches' := rest, matches;
      }
    }

    /** BubbleGrid.find_matches: a depth-first flood fill driven by the
        to_visit stack and the visited set, over 4-connected bubbles that hold
        the seed's label. A missing seed gives no matches. */
    method FindMatches(b: Bubble?) returns (matches: seq<Bubble>)
      requires Valid()
      requires b != null ==> InRange((b.row, b.col))
      ensures b == null ==> matches == []
      ensures b != null ==> CellsOf(matches) == Component(Labels(), (b.row, b.col), b.state)
      ensures InGrid(matches) && DistinctCells(matches)
    {
      if b == null {
        return [];
      }
      var state := b.state;
      ghost var occ := Labels();
      ghost var seed := (b.row, b.col);
      var toVisit := [(b.row, b.col)];
      var visited: set<Cell> := {};
      matches := [];
      FillStart(occ, state, seed);
      label Start:
      while toVisit != []
        invariant forall t :: t in toVisit ==> InRange(t)
        invariant visited <= AllCells()
        invariant FillInv(occ, state, seed, CellsOf(matches), visited, toVisit)
        invariant InGrid(matches) && DistinctCells(matches)
        decreases AllCells() - visited, |toVisit|
      {
        var cur := toVisit[|toVisit| - 1];
        var rest := toVisit[..|toVisit| - 1];
        assert toVisit == rest + [cur];
        assert cur in toVisit;
        assert forall t :: t in rest ==> t in toVisit;
        if cur in visited {
          FillSkip(occ, state, seed, CellsOf(matches), visited, rest, cur);
          toVisit := rest;
          continue;
        }
        ghost var before := visited;
        assert FillInv(occ, state, seed, CellsOf(matches), before, rest + [cur]);
        visited := visited + {cur};
        LabelsKept@Start();
        toVisit, matches := Visit(state, cur, rest, visited, matches, occ, seed, before);
      }
      FillDone(occ, state, seed, CellsOf(matches), visited);
    }

    /** BubbleGrid.pop_bubbles: each listed bubble's cell is emptied and the
        bubble is marked popped. */
    method PopBubbles(bubbles: seq<Bubble>)
      requires Valid()
      requires forall i :: 0 <= i < |bubbles| ==> InRange((bubbles[i].row, bubbles[i].col))
      modifies grid, bubbles`popped
      ensures Valid()
      ensures forall r, c :: 0 <= r < ROWS && 0 <= c < COLS ==>
        grid[r, c] == if (r, c) in CellsOf(bubbles) then null else old(grid[r, c])
      ensures forall i :: 0 <= i < |bubbles| ==> bubbles[i].popped
      ensures Labels() == old(Labels()) - CellsOf(bubbles)
    {
      ghost var cleared: set<Cell> := {};
      for i := 0 to |bubbles|
        invariant Valid()
        invariant cleared == CellsOf(bubbles[..i])
        invariant forall r, c :: 0 <= r < ROWS && 0 <= c < COLS ==>
          grid[r, c] == if (r, c) in cleared then null else old(grid[r, c])
        invariant forall j :: 0 <= j < i ==> bubbles[j].popped
        invariant Labels() == old(Labels()) - cleared
      {
        var bubble := bubbles[i];
        assert bubbles[..i + 1] == bubbles[..i] + [bubble];
        CellsOfAppend(bubbles[..i], bubble);
        Pop(bubble);
        MapMinusUnion(old(Labels()), cleared, {(bubble.row, bubble.col)});
        cleared := cleared + {(bubble.row, bubble.col)};
      }
      assert bubbles[..|bubbles|] == bubbles;
    }

    /** One iteration of pop_bubbles. */
    method Pop(bubble: Bubble)
      requires Valid() && InRange((bubble.row, bubble.col))
      modifies grid, bubble`popped
      ensures Valid()
      ensures forall r, c :: 0 <= r < ROWS && 0 <= c < COLS ==>
        grid[r, c] == if (r, c) == (bubble.row, bubble.col) then null else old(grid[r, c])
      ensures bubble.popped
      ensures Labels() == old(Labels()) - {(bubble.row, bubble.col)}
    {
      grid[bubble.row, bubble.col] := null;
      bubble.popped := true;
      forall c | c in old(Labels()) && c != (bubble.row, bubble.col)
        ensures c in Labels() && Labels()[c] == old(Labels())[c]
      {
        LabelsAt(c);
      }
      LabelsAt((bubble.row, bubble.col));
    }

    /** BubbleGrid.update: Bubble.update on every bubble in the grid, row by
        row; bubbles no longer in the grid are not touched. */
    method Update()
      requires Valid()
      modifies Repr
      ensures Valid()
      ensures forall b :: b in Repr ==> b.popped == old(b.popped)
      ensures forall b :: b in Repr && OnGrid(b) ==> (b.state, b.timer) == Oscillate(old(b.state), old(b.timer))
      ensures forall b :: b in Repr && !OnGrid(b) ==> b.state == old(b.state) && b.timer == old(b.timer)
    {
      for r := 0 to ROWS
        invariant forall b :: b in Repr ==> b.popped == old(b.popped)
        invariant forall b :: b in Repr && OnGrid(b) && b.row < r ==>
          (b.state, b.timer) == Oscillate(old(b.state), old(b.timer))
        invariant forall b :: b in Repr && !(OnGrid(b) && b.row < r) ==>
          b.state == old(b.state) && b.timer == old(b.timer)
      {
        for c := 0 to COLS
          invariant forall b :: b in Repr ==> b.popped == old(b.popped)
          invariant forall b :: b in Repr && OnGrid(b) && Before((b.row, b.col), (r, c)) ==>
            (b.state, b.timer) == Oscillate(old(b.state), old(b.timer))
          invariant forall b :: b in Repr && !(OnGrid(b) && Before((b.row, b.col), (r, c))) ==>
            b.state == old(b.state) && b.timer == old(b.timer)
        {
          var bubble := grid[r, c];
          if bubble != null {
            bubble.Update();
          }
        }
      }
    }

    /** BubbleGrid.collapse_superpositions: Bubble.update once more on every
        superposed bubble in the grid. On a |0> or |1> bubble the update does
        nothing, so the effect is that of Update. */
    method CollapseSuperpositions()
      requires Valid()
      modifies Repr
      ensures Valid()
      ensures forall b :: b in Repr ==> b.popped == old(b.popped)
      ensures forall b :: b in Repr && OnGrid(b) ==> (b.state, b.timer) == Oscillate(old(b.state), old(b.timer))
      ensures forall b :: b in Repr && !OnGrid(b) ==> b.state == old(b.state) && b.timer == old(b.timer)
    {
      for r := 0 to ROWS
        invariant forall b :: b in Repr ==> b.popped == old(b.popped)
        invariant forall b :: b in Repr && OnGrid(b) && b.row < r ==>
          (b.state, b.timer) == Oscillate(old(b.state), old(b.timer))
        invariant forall b :: b in Repr && !(OnGrid(b) && b.row < r) ==>
          b.state == old(b.state) && b.timer == old(b.timer)
      {
        for c := 0 to COLS
          invariant forall b :: b in Repr ==> b.popped == old(b.popped)
          invariant forall b :: b in Repr && OnGrid(b) && Before((b.row, b.col), (r, c)) ==>
            (b.state, b.timer) == Oscillate(old(b.state), old(b.timer))
          invariant forall b :: b in Repr && !(OnGrid(b) && Before((b.row, b.col), (r, c))) ==>
            b.state == old(b.state) && b.timer == old(b.timer)
        {
          var bubble := grid[r, c];
          if bubble != null && (bubble.state == Plus || bubble.state == Minus) {
            bubble.Update();
          }
        }
      }
    }

    /** The match step main() runs on a freshly placed bubble: find_matches
        from it, and pop_bubbles when at least MATCH_MIN match; the result is
        the number of bubbles popped, which main() adds to the score. */
    method ResolveFrom(b: Bubble) returns (popped: nat)
      requires Valid() && OnGrid(b)
      modifies Repr`popped, grid
      ensures Valid()
      ensures (Labels(), popped) == Resolve(old(Labels()), (b.row, b.col))
    {
      ghost var occ := Labels();
      var matches := FindMatches(b);
      assert Labels() == occ;
      DistinctCellsCard(matches);
      if |matches| >= MATCH_MIN {
        PopBubbles(matches);
        popped := |matches|;
      } else {
        popped := 0;
      }
    }

    /** The scan of main() for a bubble within 2 * BUBBLE_RADIUS of the shot,
        row by row, stopping at the first one. */
    method Touching(x: int, y: int) returns (touch: bool)
      requires Valid()
      ensures touch <==> exists r, c :: 0 <= r < ROWS && 0 <= c < COLS && grid[r, c] != null && Near(r, c, x, y)
    {
      touch := false;
      var r := 0;
      while r < ROWS && !touch
        invariant 0 <= r <= ROWS
        invariant !touch ==> forall r', c :: 0 <= r' < r && 0 <= c < COLS ==> !(grid[r', c] != null && Near(r', c, x, y))
        invariant touch ==> exists r', c :: 0 <= r' < ROWS && 0 <= c < COLS && grid[r', c] != null && Near(r', c, x, y)
      {
        var c := 0;
        while c < COLS && !touch
          invariant 0 <= c <= COLS
          invariant !touch ==> forall c' :: 0 <= c' < c ==> !(grid[r, c'] != null && Near(r, c', x, y))
          invariant touch ==> exists r', c' :: 0 <= r' < ROWS && 0 <= c' < COLS && grid[r', c'] != null && Near(r', c', x, y)
        {
          if grid[r, c] != null && Near(r, c, x, y) {
            touch := true;
          }
          c := c + 1;
        }
        r := r + 1;
      }
    }
  }

  /** The state main() keeps: the cannon, the grid and the score. */
  class Game {
    const cannon: Cannon
    const grid: BubbleGrid
    var score: int

    ghost predicate Valid()
      reads this, cannon, grid, grid.grid
    {
      cannon.Valid() && grid.Valid() && score >= 0
    }

    constructor (loaded: QState, draw: (int, int) -> bool)
      ensures Valid() && score == 0 && !cannon.isShooting && cannon.bubbleState == loaded
      ensures fresh(cannon) && fresh(grid) && fresh(grid.grid)
    {
      cannon := new Cannon(loaded);
      grid := new BubbleGrid(draw);
      score := 0;
    }

    /** A shot that has landed at (x, y): place_bubble, and when a bubble was
        placed, find_matches from it, pop_bubbles and score when at least
        three match, then reset_bubble with the next random label. */
    method Land(x: int, y: int, nextLoaded: QState) returns (placed: Option<Cell>)
      requires Valid()
      modifies this, grid, grid.grid, grid.Repr, cannon
      ensures Valid()
      ensures placed == LandingCell(old(grid.Free()), x, y)
      ensures placed.None? ==>
        && grid.Labels() == old(grid.Labels()) && score == old(score)
        && cannon.bubbleState == old(cannon.bubbleState) && cannon.isShooting == old(cannon.isShooting)
      ensures placed.Some? ==>
        var occ := old(grid.Labels())[placed.value := old(cannon.bubbleState)];
        && grid.Labels() == Resolve(occ, placed.value).0
        && score == old(score) + Resolve(occ, placed.value).1
        && cannon.bubbleState == nextLoaded && !cannon.isShooting
      ensures cannon.angle == old(cannon.angle)
    {
      ghost var before := grid.Labels();
      ghost var state := cannon.bubbleState;
      var b := grid.PlaceBubble(x, y, cannon.bubbleState);
      if b == null {
        return None;
      }
      placed := Some((b.row, b.col));
      ghost var occ := grid.Labels();
      assert occ == before[placed.value := state];
      var popped := grid.ResolveFrom(b);
      ghost var res := Resolve(occ, placed.value);
      assert grid.Labels() == res.0 && popped == res.1;
      label L:
      score := score + popped;
      cannon.ResetBubble(nextLoaded);
      assert unchanged@L(grid, grid.grid) && unchanged@L(grid.Repr);
      assert grid.Labels() == res.0;
    }

    /** The `if cannon.is_shooting` block of main() for a shot at the integer
        point (x, y): it lands when it has reached the top of the grid or has
        come within 2 * BUBBLE_RADIUS of a bubble. */
    method CheckShot(x: int, y: int, nextLoaded: QState) returns (placed: Option<Cell>)
      requires Valid()
      modifies this, grid, grid.grid, grid.Repr, cannon
      ensures Valid()
      ensures placed.Some? ==> old(cannon.isShooting)
      ensures placed == if old(cannon.isShooting) && (y <= GRID_TOP + 2 * BUBBLE_RADIUS ||
                             exists r, c :: 0 <= r < ROWS && 0 <= c < COLS && old(grid.grid[r, c]) != null && Near(r, c, x, y))
                        then LandingCell(old(grid.Free()), x, y) else None
      ensures placed.None? ==>
        && grid.Labels() == old(grid.Labels()) && score == old(score)
        && cannon.bubbleState == old(cannon.bubbleState) && cannon.isShooting == old(cannon.isShooting)
      ensures placed.Some? ==>
        var occ := old(grid.Labels())[placed.value := old(cannon.bubbleState)];
        && grid.Labels() == Resolve(occ, placed.value).0
        && score == old(score) + Resolve(occ, placed.value).1
        && cannon.bubbleState == nextLoaded && !cannon.isShooting
      ensures cannon.angle == old(cannon.angle)
    {
      if !cannon.isShooting {
        return None;
      }
      if y <= GRID_TOP + 2 * BUBBLE_RADIUS {
        placed := Land(x, y, nextLoaded);
      } else {
        var touch := grid.Touching(x, y);
        if touch {
          placed := Land(x, y, nextLoaded);
        } else {
          placed := None;
        }
      }
    }
  }
}
