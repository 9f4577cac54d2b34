/** The value-level theory of the bubble grid: which cells are occupied and by
    which label, 4-connected same-label components, and the resolve rule that
    clears a component of at least three bubbles and scores its size. */
module MatchComponent {
  import opened Quantum

  const ROWS := 10
  const COLS := 10
  /** A component scores only from this size on. */
  const MATCH_MIN := 3

  /** (row, col) */
  type Cell = (int, int)

  predicate InRange(c: Cell) {
    0 <= c.0 < ROWS && 0 <= c.1 < COLS
  }

  /** Up, down, left or right of each other. */
  predicate Adjacent(a: Cell, b: Cell) {
    || (a.0 == b.0 && (a.1 - b.1 == 1 || b.1 - a.1 == 1))
    || (a.1 == b.1 && (a.0 - b.0 == 1 || b.0 - a.0 == 1))
  }

  /** The occupied cells of a grid and the label each holds. */
  type Occupancy = map<Cell, QState>

  /** A non-empty walk through adjacent cells that all hold label s. */
  ghost predicate IsPath(occ: Occupancy, s: QState, p: seq<Cell>) {
    && |p| > 0
    && (forall i :: 0 <= i < |p| ==> p[i] in occ && occ[p[i]] == s)
    && (forall i :: 0 <= i < |p| - 1 ==> Adjacent(p[i], p[i + 1]))
  }

  ghost predicate Connected(occ: Occupancy, s: QState, a: Cell, b: Cell) {
    exists p :: IsPath(occ, s, p) && p[0] == a && p[|p| - 1] == b
  }

  /** Every cell reachable from seed through cells holding s (empty when the
      seed itself does not hold s). */
  ghost function Component(occ: Occupancy, seed: Cell, s: QState): set<Cell> {
    set c | c in occ.Keys && Connected(occ, s, seed, c)
  }

  /** A set that holds the seed (when the seed holds s) and is closed under
      stepping to an adjacent cell holding s. */
  ghost predicate Closed(occ: Occupancy, s: QState, seed: Cell, found: set<Cell>) {
    && (seed in occ && occ[seed] == s ==> seed in found)
    && (forall a, b :: a in found && Adjacent(a, b) && b in occ && occ[b] == s ==> b in found)
  }

  lemma SeedConnected(occ: Occupancy, s: QState, seed: Cell)
    requires seed in occ && occ[seed] == s
    ensures seed in Component(occ, seed, s)
  {
    assert IsPath(occ, s, [seed]);
  }

  /** One more step of the same label extends a connection. */
  lemma ConnectedStep(occ: Occupancy, s: QState, seed: Cell, a: Cell, b: Cell)
    requires a in Component(occ, seed, s)
    requires Adjacent(a, b) && b in occ && occ[b] == s
    ensures b in Component(occ, seed, s)
  {
    var p :| IsPath(occ, s, p) && p[0] == seed && p[|p| - 1] == a;
    var q := p + [b];
    assert forall i :: 0 <= i < |p| ==> q[i] == p[i];
    assert IsPath(occ, s, q);
  }

  lemma {:induction false} PathStaysInClosed(occ: Occupancy, s: QState, seed: Cell, found: set<Cell>, p: seq<Cell>, k: nat)
    requires Closed(occ, s, seed, found)
    requires IsPath(occ, s, p) && p[0] == seed
    requires k < |p|
    ensures p[k] in found
  {
    if k > 0 {
      PathStaysInClosed(occ, s, seed, found, p, k - 1);
      assert Adjacent(p[k - 1], p[k]);
    }
  }

  /** Completeness of a flood fill: a closed set holds the whole component. */
  lemma ClosedContainsComponent(occ: Occupancy, s: QState, seed: Cell, found: set<Cell>)
    requires Closed(occ, s, seed, found)
    ensures Component(occ, seed, s) <= found
  {
    forall c | c in Component(occ, seed, s)
      ensures c in found
    {
      var p :| IsPath(occ, s, p) && p[0] == seed && p[|p| - 1] == c;
      PathStaysInClosed(occ, s, seed, found, p, |p| - 1);
    }
  }

  /** Every cell of a component is occupied by the seed's label. */
  lemma ComponentHoldsLabel(occ: Occupancy, seed: Cell, s: QState, c: Cell)
    requires c in Component(occ, seed, s)
    ensures c in occ && occ[c] == s
    ensures seed in occ && occ[seed] == s
  {
    var p :| IsPath(occ, s, p) && p[0] == seed && p[|p| - 1] == c;
    assert p[0] in occ;
  }

  /** What a flood fill knows part way: found holds exactly the visited cells
      of the component, nothing outside the component is found, every cell on
      the to-visit stack is the seed or next to a found cell, and every
      same-label neighbour of a found cell is visited or still to be visited. */
  ghost predicate FillInv(occ: Occupancy, s: QState, seed: Cell,
                          found: set<Cell>, visited: set<Cell>, toVisit: seq<Cell>) {
    && found <= visited
    && (seed in visited || seed in toVisit)
    && found <= Component(occ, seed, s)
    && (forall v :: v in visited && v in occ && occ[v] == s ==> v in found)
    && (forall t :: t in toVisit ==> t == seed || exists m :: m in found && Adjacent(m, t))
    && (forall m, n :: m in found && Adjacent(m, n) && n in occ && occ[n] == s ==>
          n in visited || n in toVisit)
  }

  lemma FillStart(occ: Occupancy, s: QState, seed: Cell)
    ensures FillInv(occ, s, seed, {}, {}, [seed])
  {
  }

  /** Popping a cell that was already visited. */
  lemma FillSkip(occ: Occupancy, s: QState, seed: Cell, found: set<Cell>, visited: set<Cell>,
                 rest: seq<Cell>, cur: Cell)
    requires FillInv(occ, s, seed, found, visited, rest + [cur])
    requires cur in visited
    ensures FillInv(occ, s, seed, found, visited, rest)
  {
    assert forall t :: t in rest ==> t in rest + [cur];
    assert forall t :: t in rest + [cur] ==> t == cur || t in rest;
  }

  /** Popping a new cell that is empty or holds another label. */
  lemma FillMiss(occ: Occupancy, s: QState, seed: Cell, found: set<Cell>, visited: set<Cell>,
                 rest: seq<Cell>, cur: Cell)
    requires FillInv(occ, s, seed, found, visited, rest + [cur])
    requires cur !in visited && !(cur in occ && occ[cur] == s)
    ensures FillInv(occ, s, seed, found, visited + {cur}, rest)
  {
    assert forall t :: t in rest ==> t in rest + [cur];
    assert forall t :: t in rest + [cur] ==> t == cur || t in rest;
  }

  /** Popping a new cell of the label: it is found, and its neighbours that
      are not yet visited are pushed. */
  lemma FillMatch(occ: Occupancy, s: QState, seed: Cell, found: set<Cell>, visited: set<Cell>,
                  rest: seq<Cell>, cur: Cell, pushed: seq<Cell>)
    requires FillInv(occ, s, seed, found, visited, rest + [cur])
    requires cur !in visited && cur in occ && occ[cur] == s
    requires forall t :: t in pushed ==> Adjacent(cur, t)
    requires forall n :: Adjacent(cur, n) && n in occ && occ[n] == s ==>
      n in visited || n == cur || n in pushed
    ensures FillInv(occ, s, seed, found + {cur}, visited + {cur}, rest + pushed)
  {
    assert forall t :: t in rest ==> t in rest + [cur];
    assert forall t :: t in rest + [cur] ==> t == cur || t in rest;
    assert cur in rest + [cur];
    if cur == seed {
      SeedConnected(occ, s, seed);
    } else {
      var m :| m in found && Adjacent(m, cur);
      ConnectedStep(occ, s, seed, m, cur);
    }
    var found', visited', toVisit' := found + {cur}, visited + {cur}, rest + pushed;
    forall t | t in toVisit'
      ensures t == seed || exists m :: m in found' && Adjacent(m, t)
    {
      if t in pushed {
        assert cur in found' && Adjacent(cur, t);
      } else {
        assert t in rest;
      }
    }
    forall m, n | m in found' && Adjacent(m, n) && n in occ && occ[n] == s
      ensures n in visited' || n in toVisit'
    {
      if m == cur {
        if n !in visited' {
          assert n in pushed;
        }
      } else {
        assert n in visited || n in rest + [cur];
      }
    }
  }

  /** An empty stack means the fill found the whole component. */
  lemma FillDone(occ: Occupancy, s: QState, seed: Cell, found: set<Cell>, visited: set<Cell>)
    requires FillInv(occ, s, seed, found, visited, [])
    ensures found == Component(occ, seed, s)
  {
    ClosedContainsComponent(occ, s, seed, found);
  }

  /** The match step: the component of the freshly placed bubble is cleared and
      scored when it has at least MATCH_MIN cells; otherwise nothing happens. */
  ghost function Resolve(occ: Occupancy, placed: Cell): (Occupancy, nat)
    requires placed in occ
  {
    var comp := Component(occ, placed, occ[placed]);
    if |comp| >= MATCH_MIN then (occ - comp, |comp|) else (occ, 0)
  }

  /** The score a resolve adds is the number of bubbles it removes, and it is
      never 1 or 2: either nothing pops or at least three pop, the placed one
      among them. */
  lemma ResolveScoresRemoved(occ: Occupancy, placed: Cell)
    requires placed in occ
    ensures Resolve(occ, placed).0.Keys <= occ.Keys
    ensures |occ.Keys| == |Resolve(occ, placed).0.Keys| + Resolve(occ, placed).1
    ensures Resolve(occ, placed).1 == 0 || Resolve(occ, placed).1 >= MATCH_MIN
    ensures Resolve(occ, placed).1 > 0 ==> placed !in Resolve(occ, placed).0
    ensures Resolve(occ, placed).1 == 0 ==> Resolve(occ, placed).0 == occ
  {
    var comp := Component(occ, placed, occ[placed]);
    SeedConnected(occ, occ[placed], placed);
    if |comp| >= MATCH_MIN {
      var rest := occ - comp;
      assert comp <= occ.Keys;
      assert rest.Keys == occ.Keys - comp;
      assert |occ.Keys - comp| == |occ.Keys| - |comp|;
    }
  }
}
