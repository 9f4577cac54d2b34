/** Quantum Rescue: Schrodinger's Crew (Game/Rescue_v2.py).  The ship carries
    a label and a quantum-mode flag changed by gates; each frame it meets crew
    members (rescued when their label matches the ship's, harmful otherwise),
    hazards, intruders, intruder bullets and power-ups, which change the score
    and the health. */
module SchrodingersCrew {
  import opened Quantum
  import opened Optional
  import opened Geometry
  import opened Lists

  const SCREEN_WIDTH := 800
  const SCREEN_HEIGHT := 640
  const MAX_HEALTH := 100
  /** message_timer after a gate: two seconds at 30 frames per second. */
  const GATE_MESSAGE_FRAMES := 60
  /** How far one arrow key moves the ship in a frame. */
  const SHIP_STEP := 5
  const CREW_DAMAGE := 20
  const HAZARD_DAMAGE := 20
  const INTRUDER_DAMAGE := 40
  const BULLET_DAMAGE := 10
  const POWERUP_HEAL := 30

  /** A crew member's dictionary: its square and its label. */
  datatype Crew = Crew(rect: Rect, state: QState)

  // ----- apply_gate -----

  /** The globals ship_state and quantum_mode. */
  datatype Mode = Mode(state: QState, quantumMode: bool)

  /** From the start (|0>, not quantum) on, the flag marks a superposition. */
  predicate Consistent(m: Mode) {
    m.quantumMode == IsSuperposition(m.state)
  }

  /** apply_gate: X only outside quantum mode, Z only inside it, H always. */
  function GateEffect(m: Mode, g: Gate): (r: Mode)
    ensures g == X && m.quantumMode ==> r == m
    ensures g == Z && !m.quantumMode ==> r == m
    ensures g != H ==> r.quantumMode == m.quantumMode
    ensures g == H ==> r.quantumMode != IsSuperposition(m.state)
    ensures Consistent(m) ==> Consistent(r) && r.state == Apply(m.state, g)
  {
    if g == X && !m.quantumMode then
      m.(state := if m.state == Zero then One else Zero)
    else if g == Z && m.quantumMode then
      m.(state := if m.state == Plus then Minus else Plus)
    else if g == H then
      match m.state
      case Zero => Mode(Plus, true)
      case One => Mode(Minus, true)
      case Plus => Mode(Zero, false)
      case Minus => Mode(One, false)
    else m
  }

  /** Two H gates restore the ship, and so do two X or two Z gates. */
  lemma GatesAreInvolutions(m: Mode, g: Gate)
    requires Consistent(m)
    ensures GateEffect(GateEffect(m, g), g) == m
  {
    ApplyInvolution(m.state, g);
  }

  // ----- the ship's movement -----

  /** One axis of pygame.Rect.clamp_ip: a rectangle at least as large as the
      area is centred on it; otherwise it is pushed inside. */
  function ClampAxis(p: int, size: int, lo: int, extent: int): (r: int)
    requires size >= 0 && extent >= 0
    ensures size < extent ==> lo <= r && r + size <= lo + extent
    ensures size < extent && lo <= p && p + size <= lo + extent ==> r == p
  {
    if size >= extent then lo + extent / 2 - size / 2
    else if p < lo then lo
    else if p + size > lo + extent then lo + extent - size
    else p
  }

  /** ship.clamp_ip(screen) */
  function ClampToScreen(r: Rect): (c: Rect)
    requires r.w >= 0 && r.h >= 0
    ensures c.w == r.w && c.h == r.h
    ensures r.w < SCREEN_WIDTH ==> 0 <= c.x && c.x + c.w <= SCREEN_WIDTH
    ensures r.h < SCREEN_HEIGHT ==> 0 <= c.y && c.y + c.h <= SCREEN_HEIGHT
  {
    Rect(ClampAxis(r.x, r.w, 0, SCREEN_WIDTH), ClampAxis(r.y, r.h, 0, SCREEN_HEIGHT), r.w, r.h)
  }

  /** A rocket leaves from the middle of the ship. */
  function RocketAt(ship: Rect): Rect {
    Rect(ship.x + ship.w / 2, ship.y + ship.h / 2 - 2, 10, 4)
  }

  // ----- the collision loops, as written -----

  /** The crew list, score and health while the crew loop runs. */
  datatype CrewBoard = CrewBoard(crew: seq<Crew>, score: int, health: int)

  /** The crew loop's turn for crew member c: a touched member is removed,
      and scores when it matches the ship's label and hurts when not. */
  function CrewVisit(ship: Rect, shipState: QState, b: CrewBoard, c: Crew): CrewBoard {
    if !Collide(ship, c.rect) then b
    else if c.state == shipState then b.(crew := RemoveFirst(b.crew, c), score := b.score + 1)
    else b.(crew := RemoveFirst(b.crew, c), health := b.health - CREW_DAMAGE)
  }

  /** The crew loop over the copy cs, in order. */
  function CrewPass(ship: Rect, shipState: QState, cs: seq<Crew>, b: CrewBoard): CrewBoard
    decreases |cs|
  {
    if cs == [] then b
    else CrewVisit(ship, shipState, CrewPass(ship, shipState, cs[..|cs| - 1], b), cs[|cs| - 1])
  }

  /** A rectangle list and the health, for the hazard, bullet and power-up
      loops. */
  datatype Board = Board(items: seq<Rect>, health: int)

  /** The hazard or bullet loop's turn for r: a touched one is removed and
      costs damage. */
  function DamageVisit(ship: Rect, damage: int, b: Board, r: Rect): Board {
    if Collide(ship, r) then Board(RemoveFirst(b.items, r), b.health - damage) else b
  }

  function DamagePass(ship: Rect, damage: int, rs: seq<Rect>, b: Board): Board
    decreases |rs|
  {
    if rs == [] then b
    else DamageVisit(ship, damage, DamagePass(ship, damage, rs[..|rs| - 1], b), rs[|rs| - 1])
  }

  /** The power-up loop's turn: a touched power-up is removed and heals, up
      to the maximum. */
  function PowerupVisit(ship: Rect, b: Board, r: Rect): Board {
    if Collide(ship, r) then Board(RemoveFirst(b.items, r), Heal(b.health)) else b
  }

  function Heal(h: int): (r: int)
    ensures r <= MAX_HEALTH
    ensures h <= MAX_HEALTH ==> r >= h
    ensures r == h + POWERUP_HEAL || r == MAX_HEALTH
  {
    if h + POWERUP_HEAL < MAX_HEALTH then h + POWERUP_HEAL else MAX_HEALTH
  }

  function PowerupPass(ship: Rect, rs: seq<Rect>, b: Board): Board
    decreases |rs|
  {
    if rs == [] then b
    else PowerupVisit(ship, PowerupPass(ship, rs[..|rs| - 1], b), rs[|rs| - 1])
  }

  /** The intruder list, the rocket list and the health while the intruder
      loop runs. */
  datatype Fight = Fight(intruders: seq<Rect>, rockets: seq<Rect>, health: int)

  /** The inner rocket loop's stop: the first rocket on intruder x, or the
      length when none is. */
  function FirstRocketOn(rockets: seq<Rect>, x: Rect): (j: nat)
    ensures j <= |rockets|
    ensures forall m :: 0 <= m < j ==> !Collide(rockets[m], x)
    ensures j < |rockets| ==> Collide(rockets[j], x)
  {
    if rockets == [] then 0
    else if Collide(rockets[0], x) then 0
    else 1 + FirstRocketOn(rockets[1..], x)
  }

  /** The three facts about FirstRocketOn pin it down. */
  lemma {:induction false} FirstRocketOnIs(rockets: seq<Rect>, x: Rect, j: nat)
    requires j <= |rockets|
    requires forall m :: 0 <= m < j ==> !Collide(rockets[m], x)
    requires j < |rockets| ==> Collide(rockets[j], x)
    ensures FirstRocketOn(rockets, x) == j
    decreases |rockets|
  {
    if rockets != [] && j > 0 {
      assert !Collide(rockets[0], x);
      assert forall m :: 0 <= m < j - 1 ==> rockets[1..][m] == rockets[m + 1];
      FirstRocketOnIs(rockets[1..], x, j - 1);
    }
  }

  /** The intruder loop's turn for x: touching the ship costs damage, and the
      first rocket on x removes x and itself. */
  function IntruderVisit(ship: Rect, f: Fight, x: Rect): Fight {
    var h := if Collide(ship, x) then f.health - INTRUDER_DAMAGE else f.health;
    var j := FirstRocketOn(f.rockets, x);
    if j < |f.rockets| then Fight(RemoveFirst(f.intruders, x), RemoveFirst(f.rockets, f.rockets[j]), h)
    else f.(health := h)
  }

  function IntruderPass(ship: Rect, xs: seq<Rect>, f: Fight): Fight
    decreases |xs|
  {
    if xs == [] then f
    else IntruderVisit(ship, IntruderPass(ship, xs[..|xs| - 1], f), xs[|xs| - 1])
  }

  /** One more turn of the intruder loop. */
  lemma IntruderPassSnoc(ship: Rect, xs: seq<Rect>, i: nat, f: Fight)
    requires i < |xs|
    ensures IntruderPass(ship, xs[..i + 1], f) == IntruderVisit(ship, IntruderPass(ship, xs[..i], f), xs[i])
  {
    assert xs[..i + 1][..i] == xs[..i];
  }

  // ----- what the loops compute -----

  /** The crew members the ship does not touch, in order. */
  function CrewMissed(ship: Rect, cs: seq<Crew>): (rest: seq<Crew>)
    ensures forall i :: 0 <= i < |rest| ==> !Collide(ship, rest[i].rect)
    decreases |cs|
  {
    if cs == [] then []
    else
      var init := CrewMissed(ship, cs[..|cs| - 1]);
      if Collide(ship, cs[|cs| - 1].rect) then init else init + [cs[|cs| - 1]]
  }

  /** A touched crew member is not among the missed ones. */
  lemma CrewMissedOmits(ship: Rect, cs: seq<Crew>, c: Crew)
    requires Collide(ship, c.rect)
    ensures c !in CrewMissed(ship, cs)
  {
    var rest := CrewMissed(ship, cs);
    assert forall i :: 0 <= i < |rest| ==> rest[i] != c;
  }

  /** How many touched crew members carry the label s, and how many another. */
  function Rescued(ship: Rect, s: QState, cs: seq<Crew>): nat
    decreases |cs|
  {
    if cs == [] then 0
    else
      var c := cs[|cs| - 1];
      Rescued(ship, s, cs[..|cs| - 1]) + if Collide(ship, c.rect) && c.state == s then 1 else 0
  }

  function Mishaps(ship: Rect, s: QState, cs: seq<Crew>): nat
    decreases |cs|
  {
    if cs == [] then 0
    else
      var c := cs[|cs| - 1];
      Mishaps(ship, s, cs[..|cs| - 1]) + if Collide(ship, c.rect) && c.state != s then 1 else 0
  }

  /** The rectangles the ship does not touch, in order, and how many it
      touches. */
  function Missed(ship: Rect, rs: seq<Rect>): (rest: seq<Rect>)
    ensures forall i :: 0 <= i < |rest| ==> !Collide(ship, rest[i])
    decreases |rs|
  {
    if rs == [] then []
    else
      var init := Missed(ship, rs[..|rs| - 1]);
      if Collide(ship, rs[|rs| - 1]) then init else init + [rs[|rs| - 1]]
  }

  /** A touched rectangle is not among the missed ones. */
  lemma MissedOmits(ship: Rect, rs: seq<Rect>, r: Rect)
    requires Collide(ship, r)
    ensures r !in Missed(ship, rs)
  {
    var rest := Missed(ship, rs);
    assert forall i :: 0 <= i < |rest| ==> rest[i] != r;
  }

  function Touched(ship: Rect, rs: seq<Rect>): nat
    decreases |rs|
  {
    if rs == [] then 0
    else Touched(ship, rs[..|rs| - 1]) + if Collide(ship, rs[|rs| - 1]) then 1 else 0
  }

  /** n power-ups collected in a row. */
  function HealTimes(h: int, n: nat): int {
    if n == 0 then h else Heal(HealTimes(h, n - 1))
  }

  /** Every touched crew member is removed, every other one kept in order;
      matches score one each and mismatches cost CREW_DAMAGE each.  The
      processed part p is followed in the list by the untouched rest q. */
  lemma {:induction false} CrewPassFilters(ship: Rect, s: QState, p: seq<Crew>, q: seq<Crew>, score: int, health: int)
    ensures CrewPass(ship, s, p, CrewBoard(p + q, score, health))
      == CrewBoard(CrewMissed(ship, p) + q, score + Rescued(ship, s, p), health - CREW_DAMAGE * Mishaps(ship, s, p))
    decreases |p|
  {
    if p == [] {
      assert p + q == q;
    } else {
      var init, c := p[..|p| - 1], p[|p| - 1];
      assert p + q == init + ([c] + q);
      CrewPassFilters(ship, s, init, [c] + q, score, health);
      var b := CrewBoard(p + q, score, health);
      var kept, m, k := CrewMissed(ship, init), Rescued(ship, s, init), Mishaps(ship, s, init);
      var mid := CrewPass(ship, s, init, b);
      assert mid == CrewBoard(kept + ([c] + q), score + m, health - CREW_DAMAGE * k);
      assert CrewPass(ship, s, p, b) == CrewVisit(ship, s, mid, c);
      if Collide(ship, c.rect) {
        CrewMissedOmits(ship, init, c);
        assert kept + ([c] + q) == kept + [c] + q;
        RemoveFirstAfter(kept, c, q);
        assert CrewMissed(ship, p) == kept;
        if c.state == s {
          assert Rescued(ship, s, p) == m + 1 && Mishaps(ship, s, p) == k;
        } else {
          assert Rescued(ship, s, p) == m && Mishaps(ship, s, p) == k + 1;
        }
      } else {
        assert CrewMissed(ship, p) == kept + [c];
        assert Rescued(ship, s, p) == m && Mishaps(ship, s, p) == k;
        assert kept + ([c] + q) == (kept + [c]) + q;
      }
    }
  }

  lemma MulSucc(d: int, n: int)
    ensures d * (n + 1) == d * n + d
  {
  }

  /** The hazard and bullet loops keep exactly the untouched rectangles and
      cost damage once per touched one. */
  lemma {:induction false} DamagePassFilters(ship: Rect, damage: int, p: seq<Rect>, q: seq<Rect>, health: int)
    ensures DamagePass(ship, damage, p, Board(p + q, health))
      == Board(Missed(ship, p) + q, health - damage * Touched(ship, p))
    decreases |p|
  {
    if p == [] {
      assert p + q == q;
    } else {
      var init, r := p[..|p| - 1], p[|p| - 1];
      assert p + q == init + ([r] + q);
      DamagePassFilters(ship, damage, init, [r] + q, health);
      var b := Board(p + q, health);
      var kept, n := Missed(ship, init), Touched(ship, init);
      var mid := DamagePass(ship, damage, init, b);
      assert mid == Board(kept + ([r] + q), health - damage * n);
      assert DamagePass(ship, damage, p, b) == DamageVisit(ship, damage, mid, r);
      if Collide(ship, r) {
        MissedOmits(ship, init, r);
        assert kept + ([r] + q) == kept + [r] + q;
        RemoveFirstAfter(kept, r, q);
        assert Missed(ship, p) == kept;
        assert Touched(ship, p) == n + 1;
        MulSucc(damage, n);
        assert health - damage * Touched(ship, p) == health - damage * n - damage;
      } else {
        assert Missed(ship, p) == kept + [r];
        assert Touched(ship, p) == n;
        assert kept + ([r] + q) == (kept + [r]) + q;
      }
    }
  }

  /** The power-up loop keeps exactly the untouched power-ups and heals once
      per touched one. */
  lemma {:induction false} PowerupPassFilters(ship: Rect, p: seq<Rect>, q: seq<Rect>, health: int)
    ensures PowerupPass(ship, p, Board(p + q, health))
      == Board(Missed(ship, p) + q, HealTimes(health, Touched(ship, p)))
    decreases |p|
  {
    if p == [] {
      assert p + q == q;
    } else {
      var init, r := p[..|p| - 1], p[|p| - 1];
      assert p + q == init + ([r] + q);
      PowerupPassFilters(ship, init, [r] + q, health);
      var b := Board(p + q, health);
      var kept, n := Missed(ship, init), Touched(ship, init);
      var mid := PowerupPass(ship, init, b);
      assert mid == Board(kept + ([r] + q), HealTimes(health, n));
      assert PowerupPass(ship, p, b) == PowerupVisit(ship, mid, r);
      if Collide(ship, r) {
        MissedOmits(ship, init, r);
        assert kept + ([r] + q) == kept + [r] + q;
        RemoveFirstAfter(kept, r, q);
        assert Missed(ship, p) == kept;
        assert Touched(ship, p) == n + 1;
      } else {
        assert Missed(ship, p) == kept + [r];
        assert Touched(ship, p) == n;
        assert kept + ([r] + q) == (kept + [r]) + q;
      }
    }
  }

  /** min(health + 30, 100) taken n >= 1 times is min(health + 30 * n, 100):
      health never exceeds the maximum after a power-up. */
  lemma {:induction false} HealTimesCapped(h: int, n: nat)
    ensures n > 0 ==> HealTimes(h, n) == if h + POWERUP_HEAL * n < MAX_HEALTH then h + POWERUP_HEAL * n else MAX_HEALTH
    ensures h <= MAX_HEALTH ==> h <= HealTimes(h, n) <= MAX_HEALTH
  {
    if n > 0 {
      HealTimesCapped(h, n - 1);
    }
  }

  /** Each intruder touching the ship costs INTRUDER_DAMAGE, rockets or not. */
  lemma {:induction false} IntruderPassHealth(ship: Rect, xs: seq<Rect>, f: Fight)
    ensures IntruderPass(ship, xs, f).health == f.health - INTRUDER_DAMAGE * Touched(ship, xs)
    decreases |xs|
  {
    if xs != [] {
      IntruderPassHealth(ship, xs[..|xs| - 1], f);
    }
  }

  /** Only the copied intruders can go: what is left of the list holds every
      intruder not yet visited, and nothing new. */
  lemma {:induction false} IntrudersLeft(ship: Rect, xs: seq<Rect>, f: Fight)
    requires multiset(xs) <= multiset(f.intruders)
    ensures multiset(f.intruders) - multiset(xs) <= multiset(IntruderPass(ship, xs, f).intruders)
    ensures multiset(IntruderPass(ship, xs, f).intruders) <= multiset(f.intruders)
    decreases |xs|
  {
    if xs != [] {
      var init, x := xs[..|xs| - 1], xs[|xs| - 1];
      assert xs == init + [x];
      IntrudersLeft(ship, init, f);
      assert multiset(xs) == multiset(init) + multiset{x};
      IntruderLeftStep(ship, IntruderPass(ship, init, f), x, multiset(f.intruders), multiset(init));
    }
  }

  /** One turn of the intruder loop keeps the bounds of IntrudersLeft. */
  lemma IntruderLeftStep(ship: Rect, mid: Fight, x: Rect, all: multiset<Rect>, done: multiset<Rect>)
    requires done + multiset{x} <= all
    requires all - done <= multiset(mid.intruders) <= all
    ensures all - (done + multiset{x}) <= multiset(IntruderVisit(ship, mid, x).intruders) <= all
  {
    var j := FirstRocketOn(mid.rockets, x);
    if j < |mid.rockets| {
      MultisetStep(all, done, multiset(mid.intruders), x);
      RemoveFirstMultiset(mid.intruders, x);
    }
  }

  /** The rockets that remain were all fired. */
  lemma {:induction false} RocketsLeft(ship: Rect, xs: seq<Rect>, f: Fight)
    ensures multiset(IntruderPass(ship, xs, f).rockets) <= multiset(f.rockets)
    decreases |xs|
  {
    if xs != [] {
      var init, x := xs[..|xs| - 1], xs[|xs| - 1];
      RocketsLeft(ship, init, f);
      var mid := IntruderPass(ship, init, f);
      var j := FirstRocketOn(mid.rockets, x);
      if j < |mid.rockets| {
        RemoveFirstMultiset(mid.rockets, mid.rockets[j]);
      }
    }
  }

  /** As many rockets go as intruders, and once the loop has visited every
      copied intruder no remaining rocket touches a remaining intruder. */
  lemma IntrudersPairOff(ship: Rect, xs: seq<Rect>, f: Fight)
    requires multiset(xs) <= multiset(f.intruders)
    ensures var r := IntruderPass(ship, xs, f);
      |f.intruders| - |r.intruders| == |f.rockets| - |r.rockets|
    ensures var r := IntruderPass(ship, xs, f);
      multiset(xs) == multiset(f.intruders) ==>
        forall i, k :: i in r.intruders && k in r.rockets ==> !Collide(k, i)
  {
    IntrudersCount(ship, xs, f);
    if multiset(xs) == multiset(f.intruders) {
      IntrudersCleared(ship, xs, f);
      assert multiset(f.intruders) - multiset(xs) == multiset{};
    }
  }

  /** Each rocket that goes takes one intruder with it. */
  lemma {:induction false} IntrudersCount(ship: Rect, xs: seq<Rect>, f: Fight)
    requires multiset(xs) <= multiset(f.intruders)
    ensures var r := IntruderPass(ship, xs, f);
      |f.intruders| - |r.intruders| == |f.rockets| - |r.rockets|
    decreases |xs|
  {
    if xs != [] {
      var init, x := xs[..|xs| - 1], xs[|xs| - 1];
      assert xs == init + [x];
      IntrudersCount(ship, init, f);
      var mid := IntruderPass(ship, init, f);
      var j := FirstRocketOn(mid.rockets, x);
      if j < |mid.rockets| {
        IntrudersLeft(ship, init, f);
        assert multiset(xs) == multiset(init) + multiset{x};
        MultisetStep(multiset(f.intruders), multiset(init), multiset(mid.intruders), x);
        RemoveFirstLength(mid.intruders, x);
        RemoveFirstLength(mid.rockets, mid.rockets[j]);
      }
    }
  }

  /** An intruder with more copies in the list than copies still to be
      visited was once visited without meeting a rocket, and rockets only
      go, so no remaining rocket touches it. */
  ghost predicate Cleared(mid: Fight, todo: multiset<Rect>) {
    forall v, k :: multiset(mid.intruders)[v] > todo[v] && k in mid.rockets ==> !Collide(k, v)
  }

  /** The intruder loop keeps Cleared with the copies not yet visited. */
  lemma {:induction false} IntrudersCleared(ship: Rect, xs: seq<Rect>, f: Fight)
    requires multiset(xs) <= multiset(f.intruders)
    ensures Cleared(IntruderPass(ship, xs, f), multiset(f.intruders) - multiset(xs))
    decreases |xs|
  {
    if xs != [] {
      var init, x := xs[..|xs| - 1], xs[|xs| - 1];
      assert xs == init + [x];
      assert multiset(xs) == multiset(init) + multiset{x};
      IntrudersCleared(ship, init, f);
      IntrudersLeft(ship, init, f);
      ClearedStep(ship, IntruderPass(ship, init, f), x, multiset(f.intruders), multiset(init));
    }
  }

  /** One turn of the intruder loop keeps Cleared: a turn that finds no
      rocket clears x, and one that finds a rocket removes one copy of x
      as one copy leaves the copies to visit. */
  lemma ClearedStep(ship: Rect, mid: Fight, x: Rect, all: multiset<Rect>, done: multiset<Rect>)
    requires done + multiset{x} <= all
    requires all - done <= multiset(mid.intruders)
    requires Cleared(mid, all - done)
    ensures Cleared(IntruderVisit(ship, mid, x), all - (done + multiset{x}))
  {
    var r := IntruderVisit(ship, mid, x);
    var j := FirstRocketOn(mid.rockets, x);
    if j < |mid.rockets| {
      MultisetStep(all, done, multiset(mid.intruders), x);
      RemoveFirstMultiset(mid.intruders, x);
      RemoveFirstIn(mid.rockets, mid.rockets[j]);
      forall v, k | multiset(r.intruders)[v] > (all - (done + multiset{x}))[v] && k in r.rockets
        ensures !Collide(k, v)
      {
        assert multiset(mid.intruders)[v] > (all - done)[v];
      }
    } else {
      forall v, k | multiset(r.intruders)[v] > (all - (done + multiset{x}))[v] && k in r.rockets
        ensures !Collide(k, v)
      {
        if v == x {
          var m :| 0 <= m < |mid.rockets| && mid.rockets[m] == k;
        } else {
          assert multiset(mid.intruders)[v] > (all - done)[v];
        }
      }
    }
  }

  /** One more copied intruder: it is still in the list, and the bound on
      what remains moves with it. */
  lemma MultisetStep<T>(all: multiset<T>, done: multiset<T>, left: multiset<T>, x: T)
    requires done + multiset{x} <= all && all - done <= left
    ensures x in left
    ensures all - (done + multiset{x}) <= left - multiset{x}
  {
    assert all[x] >= done[x] + 1;
    assert (all - done)[x] >= 1;
  }

  // ----- the collision part of a frame -----

  /** Everything the collision loops read or change besides the ship. */
  datatype Scene = Scene(crew: seq<Crew>, score: int, health: int, hazards: seq<Rect>, intruders: seq<Rect>,
                         rockets: seq<Rect>, bullets: seq<Rect>, powerups: seq<Rect>)

  function CrewPhase(ship: Rect, s: QState, w: Scene): Scene {
    w.(crew := CrewMissed(ship, w.crew), score := w.score + Rescued(ship, s, w.crew),
       health := w.health - CREW_DAMAGE * Mishaps(ship, s, w.crew))
  }

  function HazardPhase(ship: Rect, w: Scene): Scene {
    w.(hazards := Missed(ship, w.hazards), health := w.health - HAZARD_DAMAGE * Touched(ship, w.hazards))
  }

  function IntruderPhase(ship: Rect, w: Scene): Scene {
    var f := IntruderPass(ship, w.intruders, Fight(w.intruders, w.rockets, w.health));
    w.(intruders := f.intruders, rockets := f.rockets, health := f.health)
  }

  function BulletPhase(ship: Rect, w: Scene): Scene {
    w.(bullets := Missed(ship, w.bullets), health := w.health - BULLET_DAMAGE * Touched(ship, w.bullets))
  }

  function PowerupPhase(ship: Rect, w: Scene): Scene {
    w.(powerups := Missed(ship, w.powerups), health := HealTimes(w.health, Touched(ship, w.powerups)))
  }

  /** The five collision loops in the order of the frame. */
  function Collisions(ship: Rect, s: QState, w: Scene): Scene {
    PowerupPhase(ship, BulletPhase(ship, IntruderPhase(ship, HazardPhase(ship, CrewPhase(ship, s, w)))))
  }

  /** What a frame's collisions promise: the score grows by exactly the
      matching crew touched, the health stays at most MAX_HEALTH and falls by
      the damage of everything touched before the power-ups, every touched
      crew member, hazard, bullet and power-up is gone and the others stay in
      order, and intruders and rockets go in pairs. */
  lemma CollisionsFacts(ship: Rect, s: QState, w: Scene)
    requires w.health <= MAX_HEALTH
    ensures var r := Collisions(ship, s, w);
      && r.score == w.score + Rescued(ship, s, w.crew) >= w.score
      && r.health <= MAX_HEALTH
      && r.health == HealTimes(w.health
           - CREW_DAMAGE * Mishaps(ship, s, w.crew)
           - HAZARD_DAMAGE * Touched(ship, w.hazards)
           - INTRUDER_DAMAGE * Touched(ship, w.intruders)
           - BULLET_DAMAGE * Touched(ship, w.bullets), Touched(ship, w.powerups))
      && r.crew == CrewMissed(ship, w.crew) && r.hazards == Missed(ship, w.hazards)
      && r.bullets == Missed(ship, w.bullets) && r.powerups == Missed(ship, w.powerups)
      && |w.intruders| - |r.intruders| == |w.rockets| - |r.rockets|
      && (forall i, k :: i in r.intruders && k in r.rockets ==> !Collide(k, i))
  {
    var w2 := HazardPhase(ship, CrewPhase(ship, s, w));
    var f := Fight(w2.intruders, w2.rockets, w2.health);
    IntruderPassHealth(ship, w2.intruders, f);
    IntrudersPairOff(ship, w2.intruders, f);
    IntrudersLeft(ship, w2.intruders, f);
    RocketsLeft(ship, w2.intruders, f);
    var w4 := BulletPhase(ship, IntruderPhase(ship, w2));
    HealTimesCapped(w4.health, Touched(ship, w4.powerups));
    var fr := IntruderPass(ship, w2.intruders, f);
    assert Collisions(ship, s, w).intruders == fr.intruders && Collisions(ship, s, w).rockets == fr.rockets;
  }

  /** The collisions keep the health at most MAX_HEALTH and never lower the
      score. */
  lemma CollisionsKeepBounds(ship: Rect, s: QState, w: Scene, r: Scene)
    requires w.health <= MAX_HEALTH && r == Collisions(ship, s, w)
    ensures r.health <= MAX_HEALTH && r.score >= w.score
  {
    CollisionsFacts(ship, s, w);
  }

  // ----- the script's globals -----

  class Rescue {
    var ship: Rect
    var shipState: QState
    var quantumMode: bool
    var score: int
    var health: int
    var messageTimer: int
    var crew: seq<Crew>
    var hazards: seq<Rect>
    var intruders: seq<Rect>
    var rockets: seq<Rect>
    var bullets: seq<Rect>
    var powerups: seq<Rect>

    /** The flag marks a superposition and the health is at most 100. */
    predicate Valid()
      reads this
    {
      Consistent(Mode(shipState, quantumMode)) && health <= MAX_HEALTH
    }

    function Current(): Scene
      reads this
    {
      Scene(crew, score, health, hazards, intruders, rockets, bullets, powerups)
    }

    constructor()
      ensures Valid()
      ensures ship == Rect(100, SCREEN_HEIGHT / 2, 60, 40)
      ensures shipState == Zero && !quantumMode
      ensures score == 0 && health == MAX_HEALTH && messageTimer == 0
      ensures crew == [] && hazards == [] && intruders == [] && rockets == [] && bullets == [] && powerups == []
    {
      ship := Rect(100, SCREEN_HEIGHT / 2, 60, 40);
      shipState, quantumMode := Zero, false;
      score, health, messageTimer := 0, MAX_HEALTH, 0;
      crew, hazards, intruders, rockets, bullets, powerups := [], [], [], [], [], [];
    }

    /** apply_gate: every call, effective or not, shows a message for
        GATE_MESSAGE_FRAMES frames. */
    method ApplyGate(g: Gate)
      modifies this`shipState, this`quantumMode, this`messageTimer
      ensures Mode(shipState, quantumMode) == GateEffect(old(Mode(shipState, quantumMode)), g)
      ensures messageTimer == GATE_MESSAGE_FRAMES
      ensures old(Valid()) ==> Valid()
    {
      if g == X && !quantumMode {
        shipState := if shipState == Zero then One else Zero;
      } else if g == Z && quantumMode {
        shipState := if shipState == Plus then Minus else Plus;
      } else if g == H {
        if shipState == Zero {
          shipState := Plus;
          quantumMode := true;
        } else if shipState == One {
          shipState := Minus;
          quantumMode := true;
        } else if shipState == Plus {
          shipState := Zero;
          quantumMode := false;
        } else if shipState == Minus {
          shipState := One;
          quantumMode := false;
        }
      }
      messageTimer := GATE_MESSAGE_FRAMES;
    }

    /** The random gate of the frame, from a draw in [0, 300]. */
    method RandomGate(draw: int)
      modifies this`shipState, this`quantumMode, this`messageTimer
      ensures ScheduledGate(draw).None? ==> unchanged(this)
      ensures ScheduledGate(draw).Some? ==>
        Mode(shipState, quantumMode) == GateEffect(old(Mode(shipState, quantumMode)), ScheduledGate(draw).value)
        && messageTimer == GATE_MESSAGE_FRAMES
    {
      if draw == 100 || draw == 200 {
        ApplyGate(X);
      } else if draw == 50 || draw == 250 {
        ApplyGate(Z);
      } else if draw == 150 {
        ApplyGate(H);
      }
    }

    /** The arrow keys held this frame move the ship by SHIP_STEP each. */
    method MoveShip(up: bool, down: bool, left: bool, right: bool)
      modifies this`ship
      ensures ship.w == old(ship.w) && ship.h == old(ship.h)
      ensures ship.x == old(ship.x) + (if right then SHIP_STEP else 0) - (if left then SHIP_STEP else 0)
      ensures ship.y == old(ship.y) + (if down then SHIP_STEP else 0) - (if up then SHIP_STEP else 0)
    {
      if up {
        ship := Move(ship, 0, -SHIP_STEP);
      }
      if down {
        ship := Move(ship, 0, SHIP_STEP);
      }
      if left {
        ship := Move(ship, -SHIP_STEP, 0);
      }
      if right {
        ship := Move(ship, SHIP_STEP, 0);
      }
    }

    /** The space key fires a rocket from the ship. */
    method FireRocket()
      modifies this`rockets
      ensures rockets == old(rockets) + [RocketAt(ship)]
    {
      rockets := rockets + [RocketAt(ship)];
    }

    /** The ship is kept on the screen. */
    method ConstrainShip()
      requires ship.w >= 0 && ship.h >= 0
      modifies this`ship
      ensures ship == ClampToScreen(old(ship))
    {
      ship := ClampToScreen(ship);
    }

    /** The crew loop over a copy of the list. */
    method CrewCollisions()
      modifies this`crew, this`score, this`health
      ensures Current() == CrewPhase(ship, shipState, old(Current()))
    {
      var snapshot := crew;
      var i := 0;
      while i < |snapshot|
        invariant 0 <= i <= |snapshot|
        invariant CrewBoard(crew, score, health) == CrewPass(ship, shipState, snapshot[..i], CrewBoard(snapshot, old(score), old(health)))
      {
        var c := snapshot[i];
        assert snapshot[..i + 1][..i] == snapshot[..i];
        if Collide(ship, c.rect) {
          if c.state == shipState {
            crew := RemoveFirst(crew, c);
            score := score + 1;
          } else {
            crew := RemoveFirst(crew, c);
            health := health - CREW_DAMAGE;
          }
        }
        i := i + 1;
      }
      assert snapshot[..|snapshot|] == snapshot && snapshot + [] == snapshot;
      CrewPassFilters(ship, shipState, snapshot, [], old(score), old(health));
    }

    /** The hazard loop over a copy of the list. */
    method HazardCollisions()
      modifies this`hazards, this`health
      ensures Current() == HazardPhase(ship, old(Current()))
    {
      var snapshot := hazards;
      var i := 0;
      while i < |snapshot|
        invariant 0 <= i <= |snapshot|
        invariant Board(hazards, health) == DamagePass(ship, HAZARD_DAMAGE, snapshot[..i], Board(snapshot, old(health)))
      {
        var r := snapshot[i];
        assert snapshot[..i + 1][..i] == snapshot[..i];
        if Collide(ship, r) {
          hazards := RemoveFirst(hazards, r);
          health := health - HAZARD_DAMAGE;
        }
        i := i + 1;
      }
      assert snapshot[..|snapshot|] == snapshot && snapshot + [] == snapshot;
      DamagePassFilters(ship, HAZARD_DAMAGE, snapshot, [], old(health));
    }

    /** The intruder loop over a copy of the list, with the inner loop over a
        copy of the rockets that stops at the first hit. */
    method IntruderCollisions()
      modifies this`intruders, this`rockets, this`health
      ensures Current() == IntruderPhase(ship, old(Current()))
    {
      var snapshot := intruders;
      var xs, rs, h := intruders, rockets, health;
      var i := 0;
      while i < |snapshot|
        invariant 0 <= i <= |snapshot|
        invariant Fight(xs, rs, h) == IntruderPass(ship, snapshot[..i], Fight(snapshot, old(rockets), old(health)))
      {
        var x := snapshot[i];
        IntruderPassSnoc(ship, snapshot, i, Fight(snapshot, old(rockets), old(health)));
        if Collide(ship, x) {
          h := h - INTRUDER_DAMAGE;
        }
        var j := FirstHit(rs, x);
        if j < |rs| {
          xs := RemoveFirst(xs, x);
          rs := RemoveFirst(rs, rs[j]);
        }
        i := i + 1;
      }
      assert snapshot[..|snapshot|] == snapshot;
      intruders, rockets, health := xs, rs, h;
    }

    /** The inner loop over a copy of the rockets: the index of the first one
        on intruder x, or the length when none is. */
    static method FirstHit(shots: seq<Rect>, x: Rect) returns (j: nat)
      ensures j == FirstRocketOn(shots, x)
    {
      j := 0;
      while j < |shots| && !Collide(shots[j], x)
        invariant j <= |shots|
        invariant forall m :: 0 <= m < j ==> !Collide(shots[m], x)
      {
        j := j + 1;
      }
      FirstRocketOnIs(shots, x, j);
    }

    /** The bullet loop over a copy of the list. */
    method BulletCollisions()
      modifies this`bullets, this`health
      ensures Current() == BulletPhase(ship, old(Current()))
    {
      var snapshot := bullets;
      var i := 0;
      while i < |snapshot|
        invariant 0 <= i <= |snapshot|
        invariant Board(bullets, health) == DamagePass(ship, BULLET_DAMAGE, snapshot[..i], Board(snapshot, old(health)))
      {
        var r := snapshot[i];
        assert snapshot[..i + 1][..i] == snapshot[..i];
        if Collide(ship, r) {
          bullets := RemoveFirst(bullets, r);
          health := health - BULLET_DAMAGE;
        }
        i := i + 1;
      }
      assert snapshot[..|snapshot|] == snapshot && snapshot + [] == snapshot;
      DamagePassFilters(ship, BULLET_DAMAGE, snapshot, [], old(health));
    }

    /** The power-up loop over a copy of the list. */
    method PowerupCollisions()
      modifies this`powerups, this`health
      ensures Current() == PowerupPhase(ship, old(Current()))
    {
      var snapshot := powerups;
      var i := 0;
      while i < |snapshot|
        invariant 0 <= i <= |snapshot|
        invariant Board(powerups, health) == PowerupPass(ship, snapshot[..i], Board(snapshot, old(health)))
      {
        var r := snapshot[i];
        assert snapshot[..i + 1][..i] == snapshot[..i];
        if Collide(ship, r) {
          powerups := RemoveFirst(powerups, r);
          health := if health + POWERUP_HEAL < MAX_HEALTH then health + POWERUP_HEAL else MAX_HEALTH;
        }
        i := i + 1;
      }
      assert snapshot[..|snapshot|] == snapshot && snapshot + [] == snapshot;
      PowerupPassFilters(ship, snapshot, [], old(health));
    }

    /** The collision part of a frame; the game ends when the health is
        used up. */
    method CollisionStep() returns (gameOver: bool)
      requires health <= MAX_HEALTH
      modifies this`crew, this`score, this`health, this`hazards, this`intruders, this`rockets, this`bullets, this`powerups
      ensures Current() == Collisions(ship, shipState, old(Current()))
      ensures health <= MAX_HEALTH && score >= old(score)
      ensures gameOver <==> health <= 0
    {
      ghost var w0, sh, st := Current(), ship, shipState;
      CrewCollisions();
      ghost var w1 := Current();
      HazardCollisions();
      ghost var w2 := Current();
      assert w2 == HazardPhase(sh, w1);
      IntruderCollisions();
      ghost var w3 := Current();
      assert w3 == IntruderPhase(sh, w2);
      BulletCollisions();
      ghost var w4 := Current();
      assert w4 == BulletPhase(sh, w3);
      PowerupCollisions();
      ghost var w5 := Current();
      assert w5 == PowerupPhase(sh, w4);
      CollisionsKeepBounds(sh, st, w0, w5);
      gameOver := health <= 0;
    }
  }
}
