/** Game/bubbleTrobble.py ("Quantum Bubble Burst"): bubbles that carry one of
    the four labels float on an 800 x 600 screen.  The Q, X and Z keys apply
    a gate to every bubble, a mouse click bursts the bubbles under the
    cursor (a superposed one only after a coin toss), a burst classical
    bubble takes its classical neighbours with it, and a timer spawns a new
    bubble every 60 frames. */
module BubbleTrouble {
  import opened Optional
  import opened Quantum
  import opened Geometry
  import opened Lists

  const WIDTH := 800
  const HEIGHT := 600
  /** Bubbles are 40 x 40 squares. */
  const SIZE := 40
  const SPAWN_INTERVAL := 60
  /** Points for a bubble burst by the click itself. */
  const BURST_POINTS := 10
  /** Points for each neighbour taken along by a classical burst. */
  const CHAIN_POINTS := 5
  /** b.rect.inflate(60, 60): the reach of the chain reaction. */
  const CHAIN_REACH := 60

  /** What a bubble holds: its square, its label and its superposition flag. */
  datatype BubbleView = BubbleView(rect: Rect, state: QState, superposition: bool)

  /** The flag tells whether the label is |+> or |->. */
  predicate Coherent(v: BubbleView) {
    v.superposition == IsSuperposition(v.state)
  }

  predicate OnScreen(r: Rect) {
    0 <= r.x && r.x + r.w <= WIDTH && 0 <= r.y && r.y + r.h <= HEIGHT
  }

  /** Bubble.__init__: the flag is derived from the label. */
  function Spawned(x: int, y: int, s: QState): (v: BubbleView)
    ensures Coherent(v) && v.state == s
    ensures 0 <= x <= WIDTH - SIZE && 0 <= y <= HEIGHT - SIZE ==> OnScreen(v.rect)
  {
    BubbleView(Rect(x, y, SIZE, SIZE), s, IsSuperposition(s))
  }

  /** apply_gate, branch by branch.  The label always moves as the reference
      gate says, whatever the flag; only H touches the flag, and it sets it to
      match the new label, so a coherent bubble stays coherent. */
  function GateView(v: BubbleView, g: Gate): (r: BubbleView)
    ensures r.rect == v.rect && r.state == Apply(v.state, g)
    ensures Coherent(v) ==> Coherent(r)
    ensures g != H ==> r.superposition == v.superposition
  {
    match g
    case H =>
      if IsBasis(v.state) then
        v.(state := if v.state == Zero then Plus else Minus, superposition := true)
      else
        v.(state := if v.state == Plus then Zero else One, superposition := false)
    case X =>
      if IsBasis(v.state) then v.(state := if v.state == Zero then One else Zero) else v
    case Z =>
      if v.state == Plus then v.(state := Minus)
      else if v.state == Minus then v.(state := Plus)
      else v
  }

  /** Bubble.collapse, with the outcome of random.choice as `zero`. */
  function CollapseView(v: BubbleView, zero: bool): (r: BubbleView)
    ensures r.rect == v.rect && IsBasis(r.state) && !r.superposition
    ensures r.state == Zero <==> zero
  {
    v.(state := if zero then Zero else One, superposition := false)
  }

  /** Applying the same gate twice gives back a coherent bubble unchanged. */
  lemma GateViewInvolution(v: BubbleView, g: Gate)
    requires Coherent(v)
    ensures GateView(GateView(v, g), g) == v
  {
  }

  /** A collapsed bubble is coherent. */
  lemma CollapseCoherent(v: BubbleView, zero: bool)
    ensures Coherent(CollapseView(v, zero))
  {
  }

  // ---------------------------------------------------------------------
  // One click, on values.  The click loop walks a copy of the bubble list, so
  // bubbles are named by their position in the list as the click began: pool[i]
  // is what the i-th bubble holds now, live the positions still in the list
  // in list order.  list.remove(b) by identity is RemoveFirst on positions.

  datatype Board = Board(pool: seq<BubbleView>, live: seq<nat>, score: int)

  predicate Indexes(ids: seq<nat>, n: nat) {
    forall k :: 0 <= k < |ids| ==> ids[k] < n
  }

  /** Removing a position keeps the others valid. */
  lemma {:induction false} RemoveIndexes(ids: seq<nat>, i: nat, n: nat)
    requires Indexes(ids, n)
    ensures Indexes(RemoveFirst(ids, i), n)
    decreases |ids|
  {
    if ids != [] && ids[0] != i {
      RemoveIndexes(ids[1..], i, n);
    }
  }

  /** range(n) */
  function Indices(n: nat): (ids: seq<nat>)
    ensures |ids| == n && Indexes(ids, n) && NoDup(ids)
    ensures forall k :: 0 <= k < n ==> ids[k] == k
  {
    seq(n, k => k)
  }

  /** The chain reaction's test: a classical bubble other than the one that
      burst, overlapping the inflated square. */
  predicate ChainHit(pool: seq<BubbleView>, nb: nat, bid: nat, zone: Rect)
    requires nb < |pool|
  {
    Collide(pool[nb].rect, zone) && nb != bid && !pool[nb].superposition
  }

  /** One bubble of the chain reaction's copy: a bubble the test picks goes
      for 5. */
  function ChainVisit(b: Board, nb: nat, bid: nat, zone: Rect): (r: Board)
    requires nb < |b.pool| && Indexes(b.live, |b.pool|)
    ensures r.pool == b.pool && Indexes(r.live, |b.pool|)
  {
    if ChainHit(b.pool, nb, bid, zone) then
      RemoveIndexes(b.live, nb, |b.pool|);
      b.(live := RemoveFirst(b.live, nb), score := b.score + CHAIN_POINTS)
    else b
  }

  /** The chain reaction over the copy `copy` of the list. */
  function ChainPass(b: Board, copy: seq<nat>, bid: nat, zone: Rect): (r: Board)
    requires Indexes(copy, |b.pool|) && Indexes(b.live, |b.pool|)
    ensures r.pool == b.pool && Indexes(r.live, |b.pool|)
    decreases |copy|
  {
    if copy == [] then b
    else ChainVisit(ChainPass(b, copy[..|copy| - 1], bid, zone), copy[|copy| - 1], bid, zone)
  }

  /** One more bubble of the chain reaction's copy. */
  lemma ChainSnoc(b: Board, copy: seq<nat>, k: nat, bid: nat, zone: Rect)
    requires k < |copy| && Indexes(copy, |b.pool|) && Indexes(b.live, |b.pool|)
    ensures ChainPass(b, copy[..k + 1], bid, zone) == ChainVisit(ChainPass(b, copy[..k], bid, zone), copy[k], bid, zone)
  {
    assert copy[..k + 1][..k] == copy[..k];
  }

  /** One bubble of the click loop, with a burst bubble skipped: a bubble
      already taken by a chain reaction is no longer in the list. */
  function ClickVisit(b: Board, i: nat, mx: int, my: int,
                      zero: nat -> bool, burst: nat -> bool): (r: Board)
    requires i < |b.pool| && Indexes(b.live, |b.pool|)
    ensures |r.pool| == |b.pool| && Indexes(r.live, |b.pool|)
  {
    var v := b.pool[i];
    if i in b.live && ContainsPoint(v.rect, mx, my) then
      RemoveIndexes(b.live, i, |b.pool|);
      if v.superposition then
        var b1 := b.(pool := b.pool[i := CollapseView(v, zero(i))]);
        if burst(i) then b1.(live := RemoveFirst(b1.live, i), score := b1.score + BURST_POINTS)
        else b1
      else
        var b1 := b.(live := RemoveFirst(b.live, i), score := b.score + BURST_POINTS);
        ChainPass(b1, b1.live, i, Inflate(v.rect, CHAIN_REACH, CHAIN_REACH))
    else b
  }

  /** The click loop over the prefix `ids` of the copy. */
  function ClickPass(b: Board, ids: seq<nat>, mx: int, my: int,
                     zero: nat -> bool, burst: nat -> bool): (r: Board)
    requires Indexes(ids, |b.pool|) && Indexes(b.live, |b.pool|)
    ensures |r.pool| == |b.pool| && Indexes(r.live, |b.pool|)
    decreases |ids|
  {
    if ids == [] then b
    else
      ClickVisit(ClickPass(b, ids[..|ids| - 1], mx, my, zero, burst), ids[|ids| - 1], mx, my, zero, burst)
  }

  /** A classical bubble under the cursor that is still in the list bursts
      for 10 and sets off the chain reaction around its square. */
  lemma ClickVisitClassical(c: Board, i: nat, mx: int, my: int, zero: nat -> bool, burst: nat -> bool)
    requires i < |c.pool| && Indexes(c.live, |c.pool|) && i in c.live
    requires ContainsPoint(c.pool[i].rect, mx, my) && !c.pool[i].superposition
    ensures Indexes(RemoveFirst(c.live, i), |c.pool|)
    ensures ClickVisit(c, i, mx, my, zero, burst)
         == ChainPass(c.(live := RemoveFirst(c.live, i), score := c.score + BURST_POINTS),
                      RemoveFirst(c.live, i), i, Inflate(c.pool[i].rect, CHAIN_REACH, CHAIN_REACH))
  {
    RemoveIndexes(c.live, i, |c.pool|);
  }

  /** One more bubble of the click loop. */
  lemma ClickSnoc(b: Board, ids: seq<nat>, k: nat, mx: int, my: int,
                  zero: nat -> bool, burst: nat -> bool)
    requires k < |ids| && Indexes(ids, |b.pool|) && Indexes(b.live, |b.pool|)
    ensures ClickPass(b, ids[..k + 1], mx, my, zero, burst)
         == ClickVisit(ClickPass(b, ids[..k], mx, my, zero, burst), ids[k], mx, my, zero, burst)
  {
    assert ids[..k + 1][..k] == ids[..k];
  }

  /** A click at (mx, my) on the bubbles `pool`, with the draws of the i-th
      bubble's collapse and coin as zero(i) and burst(i). */
  function Burst(pool: seq<BubbleView>, score: int, mx: int, my: int,
                 zero: nat -> bool, burst: nat -> bool): (r: Board)
    ensures |r.pool| == |pool| && Indexes(r.live, |pool|)
  {
    ClickPass(Board(pool, Indices(|pool|), score), Indices(|pool|), mx, my, zero, burst)
  }

  /** From board a to board r, bubbles were only taken away, each earned at
      least 5 and the score grew by a multiple of 5. */
  predicate Earns(a: Board, r: Board) {
    && |r.live| <= |a.live|
    && r.score - a.score >= CHAIN_POINTS * (|a.live| - |r.live|)
    && (r.score - a.score) % CHAIN_POINTS == 0
  }

  lemma FivesStep(before: int, after: int)
    requires before % CHAIN_POINTS == 0 && (after - before) % CHAIN_POINTS == 0
    ensures after % CHAIN_POINTS == 0
  {
    assert after == before + (after - before);
  }

  lemma EarnsTrans(a: Board, m: Board, r: Board)
    requires Earns(a, m) && Earns(m, r)
    ensures Earns(a, r)
  {
    assert r.score - a.score == (m.score - a.score) + (r.score - m.score);
  }

  /** Each neighbour the chain reaction takes earns 5. */
  lemma {:induction false} ChainPassScore(b: Board, copy: seq<nat>, bid: nat, zone: Rect)
    requires Indexes(copy, |b.pool|) && Indexes(b.live, |b.pool|)
    ensures Earns(b, ChainPass(b, copy, bid, zone))
    decreases |copy|
  {
    if copy != [] {
      var init := copy[..|copy| - 1];
      ChainPassScore(b, init, bid, zone);
      var m := ChainPass(b, init, bid, zone);
      RemoveFirstLength(m.live, copy[|copy| - 1]);
      EarnsTrans(b, m, ChainVisit(m, copy[|copy| - 1], bid, zone));
    }
  }

  /** Every bubble the click loop takes earns at least 5, and the score
      only grows in steps of 5. */
  lemma {:induction false} ClickPassScore(b: Board, ids: seq<nat>, mx: int, my: int,
                                          zero: nat -> bool, burst: nat -> bool)
    requires Indexes(ids, |b.pool|) && Indexes(b.live, |b.pool|)
    ensures Earns(b, ClickPass(b, ids, mx, my, zero, burst))
    decreases |ids|
  {
    if ids != [] {
      var init := ids[..|ids| - 1];
      ClickPassScore(b, init, mx, my, zero, burst);
      var m := ClickPass(b, init, mx, my, zero, burst);
      ClickVisitScore(m, ids[|ids| - 1], mx, my, zero, burst);
      EarnsTrans(b, m, ClickVisit(m, ids[|ids| - 1], mx, my, zero, burst));
    }
  }

  /** The points of one bubble of the click loop. */
  lemma ClickVisitScore(m: Board, i: nat, mx: int, my: int, zero: nat -> bool, burst: nat -> bool)
    requires i < |m.pool| && Indexes(m.live, |m.pool|)
    ensures Earns(m, ClickVisit(m, i, mx, my, zero, burst))
  {
    RemoveFirstLength(m.live, i);
    RemoveIndexes(m.live, i, |m.pool|);
    var v := m.pool[i];
    if i in m.live && ContainsPoint(v.rect, mx, my) && !v.superposition {
      var b1 := m.(live := RemoveFirst(m.live, i), score := m.score + BURST_POINTS);
      ChainPassScore(b1, b1.live, i, Inflate(v.rect, CHAIN_REACH, CHAIN_REACH));
      EarnsTrans(m, b1, ChainPass(b1, b1.live, i, Inflate(v.rect, CHAIN_REACH, CHAIN_REACH)));
    }
  }

  /** A click never lowers the score and keeps it a multiple of 5. */
  lemma BurstScore(pool: seq<BubbleView>, score: int, mx: int, my: int,
                   zero: nat -> bool, burst: nat -> bool)
    ensures var r := Burst(pool, score, mx, my, zero, burst);
      && r.score >= score && (r.score - score) % CHAIN_POINTS == 0
      && r.score - score >= CHAIN_POINTS * (|pool| - |r.live|)
  {
    ClickPassScore(Board(pool, Indices(|pool|), score), Indices(|pool|), mx, my, zero, burst);
  }

  // ---------------------------------------------------------------------
  // The exact effect of the chain reaction and of the click.

  /** The positions of `ids` the chain reaction's test spares, in order. */
  function Spared(pool: seq<BubbleView>, ids: seq<nat>, bid: nat, zone: Rect): (s: seq<nat>)
    requires Indexes(ids, |pool|)
    ensures |s| <= |ids|
    decreases |ids|
  {
    if ids == [] then []
    else
      var y := ids[|ids| - 1];
      Spared(pool, ids[..|ids| - 1], bid, zone) + (if ChainHit(pool, y, bid, zone) then [] else [y])
  }

  /** A position is spared exactly when it is listed and the test does not
      pick it. */
  lemma {:induction false} SparedIn(pool: seq<BubbleView>, ids: seq<nat>, bid: nat, zone: Rect, y: nat)
    requires Indexes(ids, |pool|) && y < |pool|
    ensures y in Spared(pool, ids, bid, zone) <==> y in ids && !ChainHit(pool, y, bid, zone)
    decreases |ids|
  {
    if ids != [] {
      var init := ids[..|ids| - 1];
      assert ids == init + [ids[|ids| - 1]];
      SparedIn(pool, init, bid, zone, y);
    }
  }

  /** Halfway through the chain reaction over the list itself: the first k
      positions are filtered by the test, the rest are untouched, and each
      position taken earned 5. */
  lemma {:induction false} ChainPrefix(b: Board, bid: nat, zone: Rect, k: nat)
    requires Indexes(b.live, |b.pool|) && NoDup(b.live) && k <= |b.live|
    ensures var r := ChainPass(b, b.live[..k], bid, zone);
      var s := Spared(b.pool, b.live[..k], bid, zone);
      && r.live == s + b.live[k..]
      && r.score == b.score + CHAIN_POINTS * (k - |s|)
  {
    var l := b.live;
    if k == 0 {
      assert l[..0] == [] && l[0..] == l;
    } else {
      ChainPrefix(b, bid, zone, k - 1);
      ChainSnoc(b, l, k - 1, bid, zone);
      var s := Spared(b.pool, l[..k - 1], bid, zone);
      var x := l[k - 1];
      assert l[..k][..k - 1] == l[..k - 1] && l[..k][k - 1] == x;
      assert l[k - 1..] == [x] + l[k..];
      if ChainHit(b.pool, x, bid, zone) {
        if x in s {
          SparedIn(b.pool, l[..k - 1], bid, zone, x);
          assert false;
        }
        RemoveFirstAfter(s, x, l[k..]);
        assert s + [x] + l[k..] == s + ([x] + l[k..]);
      } else {
        assert s + [x] + l[k..] == s + ([x] + l[k..]);
      }
    }
  }

  /** The chain reaction over a list free of duplicates takes exactly the
      classical bubbles other than the burst one that overlap the inflated
      square, keeps the others in order, and earns 5 for each one taken. */
  lemma ChainPassSpares(b: Board, bid: nat, zone: Rect)
    requires Indexes(b.live, |b.pool|) && NoDup(b.live)
    ensures var r := ChainPass(b, b.live, bid, zone);
      && r.live == Spared(b.pool, b.live, bid, zone)
      && (forall y: nat :: y < |b.pool| ==> (y in r.live <==> y in b.live && !ChainHit(b.pool, y, bid, zone)))
      && r.score == b.score + CHAIN_POINTS * (|b.live| - |r.live|)
  {
    ChainPrefix(b, bid, zone, |b.live|);
    assert b.live[..|b.live|] == b.live && b.live[|b.live|..] == [];
    forall y: nat | y < |b.pool|
      ensures y in Spared(b.pool, b.live, bid, zone) <==> y in b.live && !ChainHit(b.pool, y, bid, zone)
    {
      SparedIn(b.pool, b.live, bid, zone, y);
    }
  }

  /** The click bursts bubble i itself: it is still in the list, under the
      cursor, and classical or superposed with a coin saying yes. */
  predicate DirectBurst(c: Board, i: nat, mx: int, my: int, burst: nat -> bool)
    requires i < |c.pool|
  {
    i in c.live && ContainsPoint(c.pool[i].rect, mx, my) && (!c.pool[i].superposition || burst(i))
  }

  /** One bubble of the click loop: a bubble burst directly earns 10 and,
      when classical, takes exactly its chain-reaction neighbours for 5 each;
      any other bubble leaves the list and the score alone. */
  lemma ClickVisitExact(c: Board, i: nat, mx: int, my: int, zero: nat -> bool, burst: nat -> bool)
    requires i < |c.pool| && Indexes(c.live, |c.pool|) && NoDup(c.live)
    ensures var r := ClickVisit(c, i, mx, my, zero, burst);
      && NoDup(r.live)
      && (DirectBurst(c, i, mx, my, burst) ==>
            && |r.live| < |c.live|
            && r.score == c.score + BURST_POINTS + CHAIN_POINTS * (|c.live| - 1 - |r.live|))
      && (!DirectBurst(c, i, mx, my, burst) ==> r.live == c.live && r.score == c.score)
      && (DirectBurst(c, i, mx, my, burst) && !c.pool[i].superposition ==>
            var zone := Inflate(c.pool[i].rect, CHAIN_REACH, CHAIN_REACH);
            forall y: nat :: y < |c.pool| ==>
              (y in r.live <==> y in c.live && y != i && !ChainHit(c.pool, y, i, zone)))
  {
    var v := c.pool[i];
    RemoveIndexes(c.live, i, |c.pool|);
    RemoveFirstLength(c.live, i);
    RemoveFirstNoDup(c.live, i);
    if DirectBurst(c, i, mx, my, burst) && !v.superposition {
      var l := RemoveFirst(c.live, i);
      var b1 := c.(live := l, score := c.score + BURST_POINTS);
      var zone := Inflate(v.rect, CHAIN_REACH, CHAIN_REACH);
      ChainPassSpares(b1, i, zone);
      ChainPassLive(b1, l, i, zone);
      RemoveFirstIn(c.live, i);
      RemoveFirstGone(c.live, i);
      forall y: nat | y < |c.pool| && y in c.live && y != i
        ensures y in l
      {
        RemoveFirstKeeps(c.live, i, y);
      }
    }
  }

  /** How many bubbles of the prefix `ids` the click loop bursts itself. */
  function Direct(b: Board, ids: seq<nat>, mx: int, my: int,
                  zero: nat -> bool, burst: nat -> bool): nat
    requires Indexes(ids, |b.pool|) && Indexes(b.live, |b.pool|)
    decreases |ids|
  {
    if ids == [] then 0
    else
      var init := ids[..|ids| - 1];
      Direct(b, init, mx, my, zero, burst)
        + (if DirectBurst(ClickPass(b, init, mx, my, zero, burst), ids[|ids| - 1], mx, my, burst) then 1 else 0)
  }

  /** The click loop's score: 10 for each bubble it bursts itself and 5 for
      each other bubble that left the list. */
  lemma {:induction false} ClickPassExact(b: Board, ids: seq<nat>, mx: int, my: int,
                                          zero: nat -> bool, burst: nat -> bool)
    requires Indexes(ids, |b.pool|) && Indexes(b.live, |b.pool|) && NoDup(b.live)
    ensures var r := ClickPass(b, ids, mx, my, zero, burst);
      var d := Direct(b, ids, mx, my, zero, burst);
      && NoDup(r.live) && d <= |b.live| - |r.live|
      && r.score == b.score + BURST_POINTS * d + CHAIN_POINTS * (|b.live| - |r.live| - d)
    decreases |ids|
  {
    if ids != [] {
      var init := ids[..|ids| - 1];
      ClickPassExact(b, init, mx, my, zero, burst);
      ClickVisitExact(ClickPass(b, init, mx, my, zero, burst), ids[|ids| - 1], mx, my, zero, burst);
    }
  }

  /** A click's points: 10 for each bubble burst by the click itself and 5
      for each bubble a chain reaction took. */
  lemma BurstPoints(pool: seq<BubbleView>, score: int, mx: int, my: int,
                    zero: nat -> bool, burst: nat -> bool)
    ensures var r := Burst(pool, score, mx, my, zero, burst);
      var d := Direct(Board(pool, Indices(|pool|), score), Indices(|pool|), mx, my, zero, burst);
      && d <= |pool| - |r.live|
      && r.score == score + BURST_POINTS * d + CHAIN_POINTS * (|pool| - |r.live| - d)
  {
    ClickPassExact(Board(pool, Indices(|pool|), score), Indices(|pool|), mx, my, zero, burst);
  }

  // ---------------------------------------------------------------------
  // The click loop as written: bubbles.remove(b) raises ValueError (None) when
  // b was already taken by an earlier chain reaction.

  function AsWrittenVisit(b: Board, i: nat, mx: int, my: int,
                          zero: nat -> bool, burst: nat -> bool): (r: Option<Board>)
    requires i < |b.pool| && Indexes(b.live, |b.pool|)
    ensures r.Some? ==> |r.value.pool| == |b.pool| && Indexes(r.value.live, |b.pool|)
  {
    var v := b.pool[i];
    RemoveIndexes(b.live, i, |b.pool|);
    if ContainsPoint(v.rect, mx, my) then
      if v.superposition then
        var b1 := b.(pool := b.pool[i := CollapseView(v, zero(i))]);
        if !burst(i) then Some(b1)
        else if i in b1.live then Some(b1.(live := RemoveFirst(b1.live, i), score := b1.score + BURST_POINTS))
        else None
      else if i in b.live then
        var b1 := b.(live := RemoveFirst(b.live, i), score := b.score + BURST_POINTS);
        Some(ChainPass(b1, b1.live, i, Inflate(v.rect, CHAIN_REACH, CHAIN_REACH)))
      else None
    else Some(b)
  }

  function AsWrittenPass(b: Board, ids: seq<nat>, mx: int, my: int,
                         zero: nat -> bool, burst: nat -> bool): (r: Option<Board>)
    requires Indexes(ids, |b.pool|) && Indexes(b.live, |b.pool|)
    ensures r.Some? ==> |r.value.pool| == |b.pool| && Indexes(r.value.live, |b.pool|)
    decreases |ids|
  {
    if ids == [] then Some(b)
    else
      match AsWrittenPass(b, ids[..|ids| - 1], mx, my, zero, burst)
      case None => None
      case Some(m) => AsWrittenVisit(m, ids[|ids| - 1], mx, my, zero, burst)
  }

  function AsWrittenBurst(pool: seq<BubbleView>, score: int, mx: int, my: int,
                          zero: nat -> bool, burst: nat -> bool): (r: Option<Board>)
    ensures r.Some? ==> |r.value.pool| == |pool| && Indexes(r.value.live, |pool|)
  {
    AsWrittenPass(Board(pool, Indices(|pool|), score), Indices(|pool|), mx, my, zero, burst)
  }

  // ---------------------------------------------------------------------
  // What the click leaves behind, and how the loop as written relates to it.

  /** One bubble of the chain reaction only takes that bubble away, keeps
      the list free of duplicates and never takes a superposed bubble. */
  lemma ChainVisitLive(m: Board, nb: nat, bid: nat, zone: Rect)
    requires nb < |m.pool| && Indexes(m.live, |m.pool|) && NoDup(m.live)
    ensures var r := ChainVisit(m, nb, bid, zone);
      && NoDup(r.live)
      && (forall y :: y in r.live ==> y in m.live)
      && (forall y :: y in m.live && y < |m.pool| && m.pool[y].superposition ==> y in r.live)
  {
    RemoveFirstNoDup(m.live, nb);
    RemoveFirstIn(m.live, nb);
    var v := m.pool[nb];
    if Collide(v.rect, zone) && nb != bid && !v.superposition {
      forall y: nat | y in m.live && y < |m.pool| && m.pool[y].superposition
        ensures y in RemoveFirst(m.live, nb)
      {
        RemoveFirstKeeps(m.live, nb, y);
      }
    }
  }

  /** The whole chain reaction, the same. */
  lemma {:induction false} ChainPassLive(b: Board, copy: seq<nat>, bid: nat, zone: Rect)
    requires Indexes(copy, |b.pool|) && Indexes(b.live, |b.pool|) && NoDup(b.live)
    ensures var r := ChainPass(b, copy, bid, zone);
      && NoDup(r.live)
      && (forall y :: y in r.live ==> y in b.live)
      && (forall y :: y in b.live && y < |b.pool| && b.pool[y].superposition ==> y in r.live)
    decreases |copy|
  {
    if copy != [] {
      var init := copy[..|copy| - 1];
      ChainPassLive(b, init, bid, zone);
      ChainVisitLive(ChainPass(b, init, bid, zone), copy[|copy| - 1], bid, zone);
    }
  }

  /** The click loop has visited the positions below k of the board b0 and
      reached m: the list holds no position twice, each square stays where
      it was, the positions from k on are untouched and the superposed ones
      among them are all still in the list, every superposed bubble below k
      under the cursor was measured, and the only bubbles below k under the
      cursor still in the list are superposed ones that lost the coin toss. */
  predicate Swept(b0: Board, m: Board, k: nat, mx: int, my: int, burst: nat -> bool)
    requires |m.pool| == |b0.pool|
  {
    && NoDup(m.live)
    && (forall j :: 0 <= j < |b0.pool| ==> m.pool[j].rect == b0.pool[j].rect)
    && (forall j :: k <= j < |b0.pool| ==> m.pool[j] == b0.pool[j])
    && (forall j :: k <= j < |b0.pool| && b0.pool[j].superposition ==> j in m.live)
    && (forall j :: 0 <= j < k && j < |b0.pool| && ContainsPoint(b0.pool[j].rect, mx, my) && b0.pool[j].superposition
                    ==> !m.pool[j].superposition)
    && (forall j :: 0 <= j < k && j < |b0.pool| && ContainsPoint(b0.pool[j].rect, mx, my) && j in m.live
                    ==> b0.pool[j].superposition && !burst(j))
  }

  /** Swept moves past position k when the list only lost positions, kept
      the superposed ones beyond k, and only bubble k changed, keeping its
      square, being measured if it was superposed under the cursor, and
      leaving the list if it was burst. */
  lemma SweptAfter(b0: Board, m: Board, r: Board, k: nat, mx: int, my: int, burst: nat -> bool)
    requires k < |b0.pool| && |m.pool| == |b0.pool| && |r.pool| == |b0.pool|
    requires Swept(b0, m, k, mx, my, burst)
    requires NoDup(r.live) && forall y :: y in r.live ==> y in m.live
    requires forall j :: k < j < |b0.pool| && b0.pool[j].superposition ==> j in r.live
    requires forall j :: 0 <= j < |b0.pool| && j != k ==> r.pool[j] == m.pool[j]
    requires r.pool[k].rect == m.pool[k].rect
    requires ContainsPoint(b0.pool[k].rect, mx, my) && b0.pool[k].superposition ==> !r.pool[k].superposition
    requires ContainsPoint(b0.pool[k].rect, mx, my) && k in r.live ==> b0.pool[k].superposition && !burst(k)
    ensures Swept(b0, r, k + 1, mx, my, burst)
  {
  }

  /** A bubble the click does not act on keeps Swept. */
  lemma SweptSkip(b0: Board, m: Board, k: nat, mx: int, my: int, zero: nat -> bool, burst: nat -> bool)
    requires k < |b0.pool| && |m.pool| == |b0.pool| && Indexes(m.live, |b0.pool|)
    requires Swept(b0, m, k, mx, my, burst)
    requires !(k in m.live && ContainsPoint(m.pool[k].rect, mx, my))
    ensures ClickVisit(m, k, mx, my, zero, burst) == m
    ensures Swept(b0, m, k + 1, mx, my, burst)
  {
    assert m.pool[k] == b0.pool[k];
    SweptAfter(b0, m, m, k, mx, my, burst);
  }

  /** Removing position k after a burst keeps everything Swept says about
      the other positions, and leaves no k behind. */
  lemma SweptRemove(b0: Board, m: Board, k: nat)
    requires k < |b0.pool| && |m.pool| == |b0.pool| && Indexes(m.live, |b0.pool|) && NoDup(m.live)
    requires forall j :: k <= j < |b0.pool| && b0.pool[j].superposition ==> j in m.live
    ensures var l := RemoveFirst(m.live, k);
      && Indexes(l, |b0.pool|) && NoDup(l) && k !in l
      && (forall y :: y in l ==> y in m.live)
      && (forall j :: k < j < |b0.pool| && b0.pool[j].superposition ==> j in l)
  {
    RemoveIndexes(m.live, k, |m.pool|);
    RemoveFirstNoDup(m.live, k);
    RemoveFirstIn(m.live, k);
    RemoveFirstGone(m.live, k);
    forall j: nat | k < j < |b0.pool| && b0.pool[j].superposition
      ensures j in RemoveFirst(m.live, k)
    {
      RemoveFirstKeeps(m.live, k, j);
    }
  }

  /** A superposed bubble under the cursor is measured and, if its coin
      says so, burst. */
  lemma SweptSuperposed(b0: Board, m: Board, k: nat, mx: int, my: int, zero: nat -> bool, burst: nat -> bool)
    requires k < |b0.pool| && |m.pool| == |b0.pool| && Indexes(m.live, |b0.pool|)
    requires Swept(b0, m, k, mx, my, burst)
    requires k in m.live && ContainsPoint(m.pool[k].rect, mx, my) && m.pool[k].superposition
    ensures Swept(b0, ClickVisit(m, k, mx, my, zero, burst), k + 1, mx, my, burst)
  {
    SweptRemove(b0, m, k);
    RemoveIndexes(m.live, k, |m.pool|);
    var b1 := m.(pool := m.pool[k := CollapseView(m.pool[k], zero(k))]);
    var r := if burst(k) then b1.(live := RemoveFirst(b1.live, k), score := b1.score + BURST_POINTS) else b1;
    assert ClickVisit(m, k, mx, my, zero, burst) == r;
    assert m.pool[k] == b0.pool[k];
    SweptAfter(b0, m, r, k, mx, my, burst);
  }

  /** A classical bubble under the cursor bursts with its chain reaction. */
  lemma SweptClassical(b0: Board, m: Board, k: nat, mx: int, my: int, zero: nat -> bool, burst: nat -> bool)
    requires k < |b0.pool| && |m.pool| == |b0.pool| && Indexes(m.live, |b0.pool|)
    requires Swept(b0, m, k, mx, my, burst)
    requires k in m.live && ContainsPoint(m.pool[k].rect, mx, my) && !m.pool[k].superposition
    ensures Swept(b0, ClickVisit(m, k, mx, my, zero, burst), k + 1, mx, my, burst)
  {
    SweptRemove(b0, m, k);
    ClickVisitClassical(m, k, mx, my, zero, burst);
    var b1 := m.(live := RemoveFirst(m.live, k), score := m.score + BURST_POINTS);
    var zone := Inflate(m.pool[k].rect, CHAIN_REACH, CHAIN_REACH);
    ChainPassLive(b1, b1.live, k, zone);
    var r := ChainPass(b1, b1.live, k, zone);
    assert m.pool[k] == b0.pool[k];
    SweptAfter(b0, m, r, k, mx, my, burst);
  }

  /** One more bubble of the click loop keeps Swept, and the loop as written
      either raises at that bubble or does what the corrected loop does. */
  lemma SweptStep(b0: Board, m: Board, k: nat, mx: int, my: int, zero: nat -> bool, burst: nat -> bool)
    requires k < |b0.pool| && |m.pool| == |b0.pool| && Indexes(m.live, |b0.pool|)
    requires Swept(b0, m, k, mx, my, burst)
    ensures Swept(b0, ClickVisit(m, k, mx, my, zero, burst), k + 1, mx, my, burst)
    ensures var w := AsWrittenVisit(m, k, mx, my, zero, burst);
      w == None || w == Some(ClickVisit(m, k, mx, my, zero, burst))
  {
    var v := m.pool[k];
    if !(k in m.live && ContainsPoint(v.rect, mx, my)) {
      SweptSkip(b0, m, k, mx, my, zero, burst);
    } else if v.superposition {
      SweptSuperposed(b0, m, k, mx, my, zero, burst);
    } else {
      SweptClassical(b0, m, k, mx, my, zero, burst);
    }
  }

  /** Swept and the agreement of the two loops over the first k bubbles. */
  lemma {:induction false} SweptPass(pool: seq<BubbleView>, score: int, mx: int, my: int,
                                     zero: nat -> bool, burst: nat -> bool, k: nat)
    requires k <= |pool|
    ensures var b0 := Board(pool, Indices(|pool|), score);
      var ids := Indices(|pool|)[..k];
      var m := ClickPass(b0, ids, mx, my, zero, burst);
      && Swept(b0, m, k, mx, my, burst)
      && (AsWrittenPass(b0, ids, mx, my, zero, burst) == None
          || AsWrittenPass(b0, ids, mx, my, zero, burst) == Some(m))
  {
    var b0 := Board(pool, Indices(|pool|), score);
    var all := Indices(|pool|);
    if k == 0 {
      assert all[..0] == [];
      forall j | 0 <= j < |pool|
        ensures j in b0.live
      {
        assert b0.live[j] == j;
      }
    } else {
      SweptPass(pool, score, mx, my, zero, burst, k - 1);
      ClickSnoc(b0, all, k - 1, mx, my, zero, burst);
      assert all[..k][..k - 1] == all[..k - 1];
      var m := ClickPass(b0, all[..k - 1], mx, my, zero, burst);
      SweptStep(b0, m, k - 1, mx, my, zero, burst);
    }
  }

  /** After a click, every superposed bubble under the cursor has been
      measured, and a bubble under the cursor that is still on the board
      is a superposed one whose coin toss said no; no square moved. */
  lemma BurstMeasures(pool: seq<BubbleView>, score: int, mx: int, my: int,
                      zero: nat -> bool, burst: nat -> bool)
    ensures var r := Burst(pool, score, mx, my, zero, burst);
      forall j :: 0 <= j < |pool| ==>
        && r.pool[j].rect == pool[j].rect
        && (ContainsPoint(pool[j].rect, mx, my) && pool[j].superposition ==> !r.pool[j].superposition)
        && (ContainsPoint(pool[j].rect, mx, my) && j in r.live ==> pool[j].superposition && !burst(j))
  {
    SweptPass(pool, score, mx, my, zero, burst, |pool|);
    assert Indices(|pool|)[..|pool|] == Indices(|pool|);
  }

  /** The loop as written either raises ValueError or ends exactly where the
      corrected loop ends: skipping burst bubbles changes nothing else. */
  lemma AsWrittenAgrees(pool: seq<BubbleView>, score: int, mx: int, my: int,
                        zero: nat -> bool, burst: nat -> bool)
    ensures var w := AsWrittenBurst(pool, score, mx, my, zero, burst);
      w == None || w == Some(Burst(pool, score, mx, my, zero, burst))
  {
    SweptPass(pool, score, mx, my, zero, burst, |pool|);
    assert Indices(|pool|)[..|pool|] == Indices(|pool|);
  }

  /** Two classical |0> bubbles on the same square, clicked inside it: the
      first bursts and its chain reaction takes the second, which the loop as
      written then removes a second time. */
  lemma DoubleBurstRaises()
    ensures var twin := BubbleView(Rect(100, 100, SIZE, SIZE), Zero, false);
      AsWrittenBurst([twin, twin], 0, 110, 110, _ => true, _ => true) == None
  {
    var twin := BubbleView(Rect(100, 100, SIZE, SIZE), Zero, false);
    var b0 := Board([twin, twin], Indices(2), 0);
    var ids := Indices(2);
    assert ids == [0, 1];
    assert ids[..1] == [0] && ids[..1][..0] == [];
    var b1 := b0.(live := [1], score := BURST_POINTS);
    assert Collide(twin.rect, Inflate(twin.rect, CHAIN_REACH, CHAIN_REACH));
    assert [1][..0] == [];
    assert ChainPass(b1, [1], 0, Inflate(twin.rect, CHAIN_REACH, CHAIN_REACH)) == b1.(live := [], score := 15);
    assert AsWrittenPass(b0, [0], 110, 110, _ => true, _ => true) == Some(b1.(live := [], score := 15));
  }

  /** The same click on the corrected loop bursts both bubbles for 10 + 5. */
  lemma DoubleBurstCorrected()
    ensures var twin := BubbleView(Rect(100, 100, SIZE, SIZE), Zero, false);
      var r := Burst([twin, twin], 0, 110, 110, _ => true, _ => true);
      r.live == [] && r.score == BURST_POINTS + CHAIN_POINTS
  {
    var twin := BubbleView(Rect(100, 100, SIZE, SIZE), Zero, false);
    var b0 := Board([twin, twin], Indices(2), 0);
    var ids := Indices(2);
    assert ids == [0, 1];
    assert ids[..1] == [0] && ids[..1][..0] == [];
    var b1 := b0.(live := [1], score := BURST_POINTS);
    assert Collide(twin.rect, Inflate(twin.rect, CHAIN_REACH, CHAIN_REACH));
    assert [1][..0] == [];
    assert ChainPass(b1, [1], 0, Inflate(twin.rect, CHAIN_REACH, CHAIN_REACH)) == b1.(live := [], score := 15);
    assert ClickPass(b0, [0], 110, 110, _ => true, _ => true) == b1.(live := [], score := 15);
  }

  // ---------------------------------------------------------------------
  // The objects.

  class Bubble {
    const rect: Rect
    var state: QState
    var superposition: bool

    function View(): BubbleView
      reads this
    {
      BubbleView(rect, state, superposition)
    }

    predicate Valid()
      reads this
    {
      Coherent(View())
    }

    constructor (x: int, y: int, s: QState)
      ensures View() == Spawned(x, y, s)
    {
      rect := Rect(x, y, SIZE, SIZE);
      state := s;
      superposition := IsSuperposition(s);
    }

    /** Bubble.collapse */
    method Collapse(zero: bool)
      modifies this
      ensures View() == CollapseView(old(View()), zero)
    {
      state := if zero then Zero else One;
      superposition := false;
    }

    /** apply_gate(bubble, gate) */
    method ApplyGate(g: Gate)
      modifies this
      ensures View() == GateView(old(View()), g)
    {
      if g == H {
        if state == Zero || state == One {
          state := if state == Zero then Plus else Minus;
          superposition := true;
        } else {
          state := if state == Plus then Zero else One;
          superposition := false;
        }
      } else if g == X {
        if state == Zero || state == One {
          state := if state == Zero then One else Zero;
        }
      } else {
        if state == Plus {
          state := Minus;
        } else if state == Minus {
          state := Plus;
        }
      }
    }
  }

  /** What the bubbles of `bs` hold. */
  ghost function Views(bs: seq<Bubble>): (vs: seq<BubbleView>)
    reads bs
    ensures |vs| == |bs|
    ensures forall k :: 0 <= k < |bs| ==> vs[k] == bs[k].View()
  {
    if bs == [] then [] else Views(bs[..|bs| - 1]) + [bs[|bs| - 1].View()]
  }

  /** The bubbles of `snap` hold `pool` and are coherent. */
  ghost predicate Mirrors(snap: seq<Bubble>, pool: seq<BubbleView>)
    reads snap
  {
    |snap| == |pool| && forall j :: 0 <= j < |snap| ==> snap[j].View() == pool[j] && snap[j].Valid()
  }

  /** The bubbles at positions `live` of `snap`, in order. */
  function Pick(snap: seq<Bubble>, live: seq<nat>): seq<Bubble>
    requires Indexes(live, |snap|)
  {
    if live == [] then [] else [snap[live[0]]] + Pick(snap, live[1..])
  }

  /** Pick takes snap[live[k]] as its k-th element. */
  lemma {:induction false} PickAt(snap: seq<Bubble>, live: seq<nat>)
    requires Indexes(live, |snap|)
    ensures |Pick(snap, live)| == |live|
    ensures forall k :: 0 <= k < |live| ==> Pick(snap, live)[k] == snap[live[k]]
    decreases |live|
  {
    if live != [] {
      PickAt(snap, live[1..]);
    }
  }

  lemma {:induction false} PickIn(snap: seq<Bubble>, live: seq<nat>, i: nat)
    requires NoDup(snap) && Indexes(live, |snap|) && i < |snap|
    ensures snap[i] in Pick(snap, live) <==> i in live
  {
    var p := Pick(snap, live);
    PickAt(snap, live);
    if snap[i] in p {
      var k :| 0 <= k < |p| && p[k] == snap[i];
      assert live[k] == i;
    }
    if i in live {
      var k :| 0 <= k < |live| && live[k] == i;
      assert p[k] == snap[i];
    }
  }

  lemma {:induction false} PickRemove(snap: seq<Bubble>, live: seq<nat>, i: nat)
    requires NoDup(snap) && Indexes(live, |snap|) && i < |snap|
    ensures Indexes(RemoveFirst(live, i), |snap|)
    ensures Pick(snap, RemoveFirst(live, i)) == RemoveFirst(Pick(snap, live), snap[i])
    decreases |live|
  {
    RemoveIndexes(live, i, |snap|);
    if live != [] && live[0] != i {
      var t := live[1..];
      PickRemove(snap, t, i);
      PickAt(snap, t);
      assert snap[live[0]] != snap[i];
      RemoveFirstCons(live[0], t, i);
      RemoveFirstCons(snap[live[0]], Pick(snap, t), snap[i]);
      assert live == [live[0]] + t;
      assert RemoveFirst(live, i) == [live[0]] + RemoveFirst(t, i);
      assert Pick(snap, [live[0]] + RemoveFirst(t, i))[1..] == Pick(snap, RemoveFirst(t, i));
    }
  }

  /** The bubbles Pick takes are valid and on screen when all of snap are. */
  lemma PickValid(snap: seq<Bubble>, live: seq<nat>)
    requires Indexes(live, |snap|)
    requires forall j :: 0 <= j < |snap| ==> snap[j].Valid() && OnScreen(snap[j].rect)
    ensures forall k :: 0 <= k < |Pick(snap, live)| ==> Pick(snap, live)[k].Valid() && OnScreen(Pick(snap, live)[k].rect)
  {
    PickAt(snap, live);
  }

  /** One bubble of the chain reaction, on the list of objects. */
  lemma ChainStep(snap: seq<Bubble>, c: Board, id: nat, bid: nat, zone: Rect)
    requires NoDup(snap) && id < |snap| && bid < |snap|
    requires |c.pool| == |snap| && Indexes(c.live, |snap|)
    ensures var r := ChainVisit(c, id, bid, zone);
      var hit := Collide(c.pool[id].rect, zone) && snap[id] != snap[bid] && !c.pool[id].superposition;
      && r.pool == c.pool && Indexes(r.live, |snap|)
      && Pick(snap, r.live) == (if hit then RemoveFirst(Pick(snap, c.live), snap[id]) else Pick(snap, c.live))
      && r.score == c.score + (if hit then CHAIN_POINTS else 0)
  {
    PickRemove(snap, c.live, id);
  }

  class Game {
    var bubbles: seq<Bubble>
    var score: int
    var spawnTimer: int

    ghost predicate Valid()
      reads this, bubbles
    {
      && NoDup(bubbles)
      && (forall k :: 0 <= k < |bubbles| ==> bubbles[k].Valid() && OnScreen(bubbles[k].rect))
      && score >= 0 && score % CHAIN_POINTS == 0
      && 0 <= spawnTimer < SPAWN_INTERVAL
    }

    constructor ()
      ensures Valid() && bubbles == [] && score == 0 && spawnTimer == 0
    {
      bubbles := [];
      score := 0;
      spawnTimer := 0;
    }

    /** One of the Q, X, Z keys: the gate on every bubble. */
    method ApplyToAll(g: Gate)
      requires Valid()
      modifies bubbles
      ensures Valid()
      ensures forall k :: 0 <= k < |bubbles| ==> bubbles[k].View() == GateView(old(bubbles[k].View()), g)
    {
      for k := 0 to |bubbles|
        invariant forall j :: 0 <= j < k ==> bubbles[j].View() == GateView(old(bubbles[j].View()), g)
        invariant forall j :: k <= j < |bubbles| ==> bubbles[j].View() == old(bubbles[j].View())
      {
        bubbles[k].ApplyGate(g);
      }
    }

    /** The chain reaction of bubble `b`, the bid-th of the list `snap` the
        click walks, on the list `bs` and score `sc`, which are the board m. */
    static method Chain(bs: seq<Bubble>, sc: int, b: Bubble, zone: Rect,
                        ghost snap: seq<Bubble>, ghost bid: nat, ghost m: Board)
      returns (bs': seq<Bubble>, sc': int)
      requires NoDup(snap) && bid < |snap| && b == snap[bid]
      requires |m.pool| == |snap| && Indexes(m.live, |snap|)
      requires forall j :: 0 <= j < |snap| ==> snap[j].View() == m.pool[j]
      requires bs == Pick(snap, m.live) && sc == m.score && NoDup(bs)
      ensures var r := ChainPass(m, m.live, bid, zone);
        bs' == Pick(snap, r.live) && sc' == r.score && NoDup(bs')
    {
      var copy := bs;
      bs', sc' := bs, sc;
      ghost var cl := m.live;
      ghost var c := m;
      assert |copy| == |cl| by {
        PickAt(snap, cl);
      }
      for k := 0 to |copy|
        invariant c == ChainPass(m, cl[..k], bid, zone)
        invariant c.pool == m.pool && Indexes(c.live, |snap|)
        invariant bs' == Pick(snap, c.live) && sc' == c.score && NoDup(bs')
      {
        ChainSnoc(m, cl, k, bid, zone);
        var nb := copy[k];
        ghost var id := cl[k];
        assert nb == snap[id] && nb.View() == c.pool[id] by {
          PickAt(snap, cl);
        }
        ChainStep(snap, c, id, bid, zone);
        if Collide(nb.rect, zone) && nb != b && !nb.superposition {
          RemoveFirstNoDup(bs', nb);
          bs' := RemoveFirst(bs', nb);
          sc' := sc' + CHAIN_POINTS;
        }
        c := ChainVisit(c, id, bid, zone);
      }
      assert cl[..|copy|] == cl;
    }

    /** A classical bubble b, the i-th of snap, under the cursor bursts and
        sets off its chain reaction, on the list bs and score sc, which are
        the board c. */
    static method BurstClassical(bs: seq<Bubble>, sc: int, b: Bubble, i: nat,
                                 ghost mx: int, ghost my: int,
                                 ghost zero: nat -> bool, ghost burst: nat -> bool,
                                 ghost snap: seq<Bubble>, ghost c: Board)
      returns (bs': seq<Bubble>, sc': int)
      requires NoDup(snap) && i < |snap| && b == snap[i]
      requires |c.pool| == |snap| && Indexes(c.live, |snap|) && i in c.live
      requires ContainsPoint(c.pool[i].rect, mx, my) && !c.pool[i].superposition
      requires forall j :: 0 <= j < |snap| ==> snap[j].View() == c.pool[j]
      requires bs == Pick(snap, c.live) && sc == c.score && NoDup(bs)
      ensures var r := ClickVisit(c, i, mx, my, zero, burst);
        bs' == Pick(snap, r.live) && sc' == r.score && NoDup(bs')
    {
      PickRemove(snap, c.live, i);
      RemoveFirstNoDup(bs, b);
      ClickVisitClassical(c, i, mx, my, zero, burst);
      assert b.rect == c.pool[i].rect;
      ghost var c1 := c.(live := RemoveFirst(c.live, i), score := c.score + BURST_POINTS);
      bs', sc' := Chain(RemoveFirst(bs, b), sc + BURST_POINTS, b,
                        Inflate(b.rect, CHAIN_REACH, CHAIN_REACH), snap, i, c1);
    }

    /** One bubble of the click loop: b, the i-th of snap, on the list bs
        and score sc, which are the board c. */
    static method VisitBubble(bs: seq<Bubble>, sc: int, b: Bubble, i: nat, mx: int, my: int,
                              zero: nat -> bool, burst: nat -> bool,
                              ghost snap: seq<Bubble>, ghost c: Board)
      returns (bs': seq<Bubble>, sc': int)
      requires NoDup(snap) && i < |snap| && b == snap[i]
      requires |c.pool| == |snap| && Indexes(c.live, |snap|)
      requires Mirrors(snap, c.pool)
      requires bs == Pick(snap, c.live) && sc == c.score && NoDup(bs)
      modifies b
      ensures var r := ClickVisit(c, i, mx, my, zero, burst);
        bs' == Pick(snap, r.live) && sc' == r.score && NoDup(bs') && Mirrors(snap, r.pool)
    {
      bs', sc' := bs, sc;
      assert b.View() == c.pool[i];
      PickIn(snap, c.live, i);
      if b in bs && ContainsPoint(b.rect, mx, my) {
        if b.superposition {
          b.Collapse(zero(i));
          forall j | 0 <= j < |snap| && j != i
            ensures snap[j].View() == c.pool[j] && snap[j].Valid()
          {
            assert snap[j] != snap[i];
          }
          if burst(i) {
            PickRemove(snap, c.live, i);
            RemoveFirstNoDup(bs, b);
            bs', sc' := RemoveFirst(bs, b), sc + BURST_POINTS;
          }
        } else {
          bs', sc' := BurstClassical(bs, sc, b, i, mx, my, zero, burst, snap, c);
        }
      }
    }

    /** The click loop over the bubbles `snap` with the score sc. */
    static method ClickLoop(snap: seq<Bubble>, sc0: int, mx: int, my: int,
                            zero: nat -> bool, burst: nat -> bool, ghost v0: seq<BubbleView>)
      returns (bs: seq<Bubble>, sc: int)
      requires NoDup(snap) && forall j :: 0 <= j < |snap| ==> snap[j].Valid()
      requires v0 == Views(snap)
      modifies snap
      ensures var r := Burst(v0, sc0, mx, my, zero, burst);
        bs == Pick(snap, r.live) && sc == r.score && Views(snap) == r.pool
      ensures NoDup(bs) && forall j :: 0 <= j < |snap| ==> snap[j].Valid()
    {
      bs, sc := snap, sc0;
      ghost var n := |snap|;
      ghost var ids := Indices(n);
      ghost var b0 := Board(v0, ids, sc0);
      ghost var c := b0;
      assert Pick(snap, ids) == snap by {
        PickAt(snap, ids);
      }
      for i := 0 to |snap|
        invariant c == ClickPass(b0, ids[..i], mx, my, zero, burst)
        invariant bs == Pick(snap, c.live) && sc == c.score && NoDup(bs)
        invariant Mirrors(snap, c.pool)
      {
        ClickSnoc(b0, ids, i, mx, my, zero, burst);
        bs, sc := VisitBubble(bs, sc, snap[i], i, mx, my, zero, burst, snap, c);
        c := ClickVisit(c, i, mx, my, zero, burst);
      }
      assert ids[..n] == ids;
      assert Views(snap) == c.pool;
    }

    /** The click at (mx, my), walking a copy of the list; a bubble a chain
        reaction already took is skipped. */
    method Click(mx: int, my: int, zero: nat -> bool, burst: nat -> bool)
      requires Valid()
      modifies this, bubbles
      ensures Valid()
      ensures var r := Burst(old(Views(bubbles)), old(score), mx, my, zero, burst);
        bubbles == Pick(old(bubbles), r.live) && score == r.score && Views(old(bubbles)) == r.pool
    {
      var snap := bubbles;
      ghost var v0 := Views(snap);
      ghost var r := Burst(v0, score, mx, my, zero, burst);
      BurstScore(v0, score, mx, my, zero, burst);
      FivesStep(score, r.score);
      var bs, sc := ClickLoop(snap, score, mx, my, zero, burst, v0);
      PickValid(snap, r.live);
      bubbles, score := bs, sc;
    }

    /** One pass of the main loop: the Q (Hadamard), X and Z keys in that
        order, the click if the left button is down at `click`, then the spawn
        timer with its drawn position and label. */
    method Frame(q: bool, x: bool, z: bool, click: Option<(int, int)>,
                 zero: nat -> bool, burst: nat -> bool, sx: int, sy: int, s: QState)
      requires Valid() && 0 <= sx <= WIDTH - SIZE && 0 <= sy <= HEIGHT - SIZE
      modifies this, bubbles
      ensures Valid() && score >= old(score)
    {
      if q {
        ApplyToAll(H);
      }
      if x {
        ApplyToAll(X);
      }
      if z {
        ApplyToAll(Z);
      }
      if click.Some? {
        var (mx, my) := click.value;
        BurstScore(Views(bubbles), score, mx, my, zero, burst);
        Click(mx, my, zero, burst);
      }
      Spawn(sx, sy, s);
    }

    /** The spawn timer: every 60th frame a bubble with drawn position and
        label is appended. */
    method Spawn(x: int, y: int, s: QState)
      requires Valid() && 0 <= x <= WIDTH - SIZE && 0 <= y <= HEIGHT - SIZE
      modifies this
      ensures Valid() && score == old(score)
      ensures spawnTimer == (old(spawnTimer) + 1) % SPAWN_INTERVAL
      ensures old(spawnTimer) + 1 < SPAWN_INTERVAL ==> bubbles == old(bubbles)
      ensures old(spawnTimer) + 1 == SPAWN_INTERVAL ==>
        && |bubbles| == |old(bubbles)| + 1 && bubbles[..|old(bubbles)|] == old(bubbles)
        && fresh(bubbles[|old(bubbles)|]) && bubbles[|old(bubbles)|].View() == Spawned(x, y, s)
    {
      spawnTimer := spawnTimer + 1;
      if spawnTimer >= SPAWN_INTERVAL {
        var b := new Bubble(x, y, s);
        bubbles := bubbles + [b];
        spawnTimer := 0;
      }
    }
  }
}
