/** Photonic Ship (Game/Rescue_v3.py): a ship whose gate state decides which
    half of the screen it flies in.  In superposition a twin ship, meant for
    the other half, holds the other superposition label; a measurement collapses
    the ship to one half at random and removes the twin. */
module PhotonicShip {
  import opened Quantum
  import opened Optional
  import opened Geometry

  const SCREEN_HEIGHT := 640
  /** The border between the |0> half (above) and the |1> half (below). */
  const HALF := SCREEN_HEIGHT / 2
  const SHIP_WIDTH := 60
  const SHIP_HEIGHT := 40
  /** Frames a gate message stays on screen, and a measurement message. */
  const GATE_MESSAGE_FRAMES := 60
  const MEASURE_MESSAGE_FRAMES := 120
  /** Where a ship freshly put into a basis state is placed, in either half. */
  const TOP_OFFSET := 10

  /** The twin ship: it is created once and never moved, so a value. */
  datatype Twin = Twin(left: int, top: int, state: QState)

  /** What the gate logic reads and writes of the ship. */
  datatype ShipView = ShipView(left: int, top: int, state: QState, quantumMode: bool, twin: Option<Twin>)

  /** The twin's top: the ship's offset within its half, moved into the lower
      half for |+> and into the upper half otherwise. */
  function TwinTop(s: QState, top: int): (r: int)
    ensures s == Plus ==> HALF <= r < SCREEN_HEIGHT
    ensures s != Plus ==> 0 <= r < HALF
    ensures r % HALF == top % HALF
  {
    if s == Plus then HALF + top % HALF else top % HALF
  }

  /** The invariant of the ship: quantum mode, the presence of a twin and a
      superposition label all agree, and the twin sits at the ship's left,
      holding the other superposition label, with the top create_twinship
      gives it: 320 + top mod 320 for |+> (the ship's offset, in the lower
      half) and top mod 320 for |-> (the offset, in the upper half).  That is
      the other half only while the ship is in the half the code expects;
      after Z ship and twin can share a square, from either label
      (ZCanStackTwin). */
  predicate Consistent(v: ShipView) {
    && v.quantumMode == IsSuperposition(v.state)
    && v.twin == (if IsSuperposition(v.state)
                  then Some(Twin(v.left, TwinTop(v.state, v.top), Paired(v.state)))
                  else None)
  }

  function ShipRect(v: ShipView): Rect {
    Rect(v.left, v.top, SHIP_WIDTH, SHIP_HEIGHT)
  }

  function TwinRect(t: Twin): Rect {
    Rect(t.left, t.top, SHIP_WIDTH, SHIP_HEIGHT)
  }

  /** Ship.update_position: a basis ship moves vertically only when it stays
      inside its own half; a superposed ship does not move. */
  function Moved(v: ShipView, dy: int): (r: ShipView)
    ensures r == v || r == v.(top := v.top + dy)
    ensures r.top != v.top ==>
      || (v.state == Zero && 0 <= r.top < HALF - SHIP_HEIGHT)
      || (v.state == One && HALF <= r.top < SCREEN_HEIGHT - SHIP_HEIGHT)
    ensures v.state == Zero && 0 <= v.top + dy < HALF - SHIP_HEIGHT ==> r.top == v.top + dy
    ensures v.state == One && HALF <= v.top + dy < SCREEN_HEIGHT - SHIP_HEIGHT ==> r.top == v.top + dy
    ensures IsSuperposition(v.state) ==> r == v
    ensures Consistent(v) ==> Consistent(r)
  {
    match v.state
    case Zero => if 0 <= v.top + dy < HALF - SHIP_HEIGHT then v.(top := v.top + dy) else v
    case One => if HALF <= v.top + dy < SCREEN_HEIGHT - SHIP_HEIGHT then v.(top := v.top + dy) else v
    case _ => v
  }

  /** Ship.create_twinship */
  function Twinned(v: ShipView): (r: ShipView)
    ensures r.left == v.left && r.top == v.top && r.state == v.state
    ensures r.quantumMode == IsSuperposition(v.state)
    ensures r.twin.Some? <==> IsSuperposition(v.state)
    ensures r.twin.Some? ==> r.twin.value.left == v.left && r.twin.value.state == Paired(v.state)
    ensures v.state == Plus ==> HALF <= r.twin.value.top < SCREEN_HEIGHT
    ensures v.state == Minus ==> 0 <= r.twin.value.top < HALF
    ensures Consistent(r)
  {
    match v.state
    case Plus => v.(twin := Some(Twin(v.left, HALF + v.top % HALF, Minus)), quantumMode := true)
    case Minus => v.(twin := Some(Twin(v.left, v.top % HALF, Plus)), quantumMode := true)
    case _ => v.(twin := None, quantumMode := false)
  }

  /** Ship.remove_twinship */
  function Untwinned(v: ShipView): (r: ShipView)
    ensures r.twin.None? && !r.quantumMode
    ensures r.left == v.left && r.top == v.top && r.state == v.state
    ensures IsBasis(v.state) ==> Consistent(r)
  {
    v.(twin := None, quantumMode := false)
  }

  /** apply_gate on the ship: X only outside quantum mode, Z only inside it,
      H always; entering a basis state puts the ship TOP_OFFSET below the top
      of that state's half. */
  function GateEffect(v: ShipView, g: Gate): ShipView {
    match g
    case X =>
      if v.quantumMode then v
      else if v.state == Zero then v.(state := One, top := HALF + TOP_OFFSET)
      else if v.state == One then v.(state := Zero, top := TOP_OFFSET)
      else v
    case Z =>
      if v.quantumMode then Twinned(v.(state := PauliZ(v.state))) else v
    case H =>
      match v.state
      case Zero => Twinned(v.(state := Plus))
      case One => Twinned(v.(state := Minus))
      case Plus => Untwinned(v.(state := Zero)).(top := TOP_OFFSET)
      case Minus => Untwinned(v.(state := One)).(top := HALF + TOP_OFFSET)
  }

  /** message_timer after apply_gate: X and Z reset it only when they act,
      H always. */
  function MessageTimerAfter(quantumMode: bool, g: Gate, timer: int): (t: int)
    ensures t == timer || t == GATE_MESSAGE_FRAMES
    ensures g == H ==> t == GATE_MESSAGE_FRAMES
    ensures (g == X && quantumMode) || (g == Z && !quantumMode) ==> t == timer
  {
    match g
    case X => if !quantumMode then GATE_MESSAGE_FRAMES else timer
    case Z => if quantumMode then GATE_MESSAGE_FRAMES else timer
    case H => GATE_MESSAGE_FRAMES
  }

  /** measure on a ship in quantum mode: an even draw observes |0>, an odd
      one |1>; the ship goes to that half and loses its twin. */
  function Collapsed(v: ShipView, draw: int): (r: ShipView)
    ensures IsBasis(r.state) && Consistent(r)
    ensures r.state == Zero <==> draw % 2 == 0
    ensures r.top == (if r.state == Zero then TOP_OFFSET else HALF + TOP_OFFSET)
    ensures r.left == v.left
    ensures r.state == Zero ==> 0 <= r.top < HALF - SHIP_HEIGHT
    ensures r.state == One ==> HALF <= r.top < SCREEN_HEIGHT - SHIP_HEIGHT
  {
    var observed := if draw % 2 == 0 then Zero else One;
    ShipView(v.left, if observed == Zero then TOP_OFFSET else HALF + TOP_OFFSET, observed, false, None)
  }

  /** The ship or its twin overlaps o. */
  predicate Strikes(v: ShipView, o: Rect) {
    Collide(ShipRect(v), o) || (v.twin.Some? && Collide(TwinRect(v.twin.value), o))
  }

  predicate StrikesAny(v: ShipView, rs: seq<Rect>) {
    exists i :: 0 <= i < |rs| && Strikes(v, rs[i])
  }

  lemma GatePreservesConsistency(v: ShipView, g: Gate)
    requires Consistent(v)
    ensures Consistent(GateEffect(v, g))
  {
  }

  /** Under the invariant the game's gates act on the label exactly as the
      reference gates: X's restriction to basis states and Z's to
      superpositions are the ones the gates already have. */
  lemma GateAgreesWithReference(v: ShipView, g: Gate)
    requires Consistent(v)
    ensures GateEffect(v, g).state == Apply(v.state, g)
  {
  }

  /** X acts only outside quantum mode; there it swaps |0> and |1> and puts
      the ship near the top of the new half. */
  lemma XOnlyOutsideQuantum(v: ShipView)
    ensures v.quantumMode ==> GateEffect(v, X) == v
    ensures !v.quantumMode && IsBasis(v.state) ==>
      GateEffect(v, X) == v.(state := PauliX(v.state),
                             top := if v.state == Zero then HALF + TOP_OFFSET else TOP_OFFSET)
  {
  }

  /** Z acts only in quantum mode, and there it swaps the labels of the ship
      and of its twin; twice it restores the ship. */
  lemma ZOnlyInQuantum(v: ShipView)
    requires Consistent(v)
    ensures !v.quantumMode ==> GateEffect(v, Z) == v
    ensures v.quantumMode ==>
      && GateEffect(v, Z).state == PauliZ(v.state)
      && GateEffect(v, Z).top == v.top
      && GateEffect(v, Z).twin.value.state == v.state
    ensures GateEffect(GateEffect(v, Z), Z) == v
  {
  }

  /** Z re-runs create_twinship without moving the ship, so the twin can
      land on the ship from either label: a |+> ship at top 160 has its twin
      at 480, and after Z the |-> ship's twin is at 160; a |1> ship at top
      330 gets a |-> twin at 10 from H, and after Z the |+> ship's twin is at
      330. */
  lemma ZCanStackTwin()
    ensures var v := ShipView(100, 160, Plus, true, Some(Twin(100, 480, Minus)));
      && Consistent(v)
      && GateEffect(v, Z) == ShipView(100, 160, Minus, true, Some(Twin(100, 160, Plus)))
    ensures var w := GateEffect(ShipView(100, 330, One, false, None), H);
      && w == ShipView(100, 330, Minus, true, Some(Twin(100, 10, Plus)))
      && GateEffect(w, Z) == ShipView(100, 330, Plus, true, Some(Twin(100, 330, Minus)))
  {
    assert 160 % HALF == 160 && 330 % HALF == 10;
    assert TwinTop(Plus, 160) == 480 && TwinTop(Minus, 160) == 160;
    assert TwinTop(Minus, 330) == 10 && TwinTop(Plus, 330) == 330;
  }

  /** H from a basis state enters superposition with a twin; from a
      superposition it removes the twin and puts the ship TOP_OFFSET below the
      top of the observed half. */
  lemma HTogglesQuantumMode(v: ShipView)
    requires Consistent(v)
    ensures IsBasis(v.state) ==>
      && GateEffect(v, H).quantumMode
      && GateEffect(v, H).twin.Some?
      && GateEffect(v, H).top == v.top
    ensures IsSuperposition(v.state) ==>
      && !GateEffect(v, H).quantumMode
      && GateEffect(v, H).twin.None?
      && GateEffect(v, H).top == (if v.state == Plus then TOP_OFFSET else HALF + TOP_OFFSET)
  {
  }

  /** Two H gates restore the label, the mode and the presence of a twin. */
  lemma HTwiceRestores(v: ShipView)
    requires Consistent(v)
    ensures GateEffect(GateEffect(v, H), H).state == v.state
    ensures GateEffect(GateEffect(v, H), H).quantumMode == v.quantumMode
    ensures GateEffect(GateEffect(v, H), H).twin.Some? == v.twin.Some?
    ensures IsBasis(v.state) ==> GateEffect(GateEffect(v, H), H).twin == None
  {
  }

  /** One thing that can happen to the ship in a frame. */
  datatype Event = Gated(g: Gate) | Steered(dy: int) | Measured(draw: int)

  function Step(v: ShipView, e: Event): ShipView {
    match e
    case Gated(g) => GateEffect(v, g)
    case Steered(dy) => if v.quantumMode then v else Moved(v, dy)
    case Measured(draw) => if v.quantumMode then Collapsed(v, draw) else v
  }

  function Run(v: ShipView, es: seq<Event>): ShipView
    decreases |es|
  {
    if es == [] then v else Run(Step(v, es[0]), es[1..])
  }

  /** Starting from the initial |0> ship, no sequence of gates, moves and
      measurements breaks the invariant. */
  lemma {:induction false} RunPreservesConsistency(v: ShipView, es: seq<Event>)
    requires Consistent(v)
    ensures Consistent(Run(v, es))
    decreases |es|
  {
    if es != [] {
      match es[0] {
        case Gated(g) => GatePreservesConsistency(v, g);
        case Steered(dy) =>
        case Measured(draw) =>
      }
      RunPreservesConsistency(Step(v, es[0]), es[1..]);
    }
  }

  class Ship {
    var left: int
    var top: int
    var state: QState
    var quantumMode: bool
    var twin: Option<Twin>
    var health: int

    function View(): ShipView
      reads this
    {
      ShipView(left, top, state, quantumMode, twin)
    }

    constructor(x: int, y: int, s: QState)
      ensures View() == ShipView(x, y, s, false, None) && health == 100
      ensures IsBasis(s) ==> Consistent(View())
    {
      left, top, state := x, y, s;
      quantumMode := false;
      twin := None;
      health := 100;
    }

    method UpdatePosition(dy: int)
      modifies this`top
      ensures View() == Moved(old(View()), dy)
    {
      if state == Zero {
        if 0 <= top + dy < HALF - SHIP_HEIGHT {
          top := top + dy;
        }
      } else if state == One {
        if HALF <= top + dy < SCREEN_HEIGHT - SHIP_HEIGHT {
          top := top + dy;
        }
      }
    }

    method CreateTwinship()
      modifies this`twin, this`quantumMode
      ensures View() == Twinned(old(View()))
    {
      if state == Plus {
        var twinTop := HALF + top % HALF;
        twin := Some(Twin(left, twinTop, Minus));
        quantumMode := true;
      } else if state == Minus {
        var twinTop := top % HALF;
        twin := Some(Twin(left, twinTop, Plus));
        quantumMode := true;
      } else {
        twin := None;
        quantumMode := false;
      }
    }

    method RemoveTwinship()
      modifies this`twin, this`quantumMode
      ensures View() == Untwinned(old(View()))
    {
      twin := None;
      quantumMode := false;
    }
  }

  /** The script's globals that the ship logic touches. */
  class Photonic {
    const ship: Ship
    var messageTimer: int
    var hazards: seq<Rect>
    var intruders: seq<Rect>
    var bullets: seq<Rect>

    constructor()
      ensures ship.View() == ShipView(100, SCREEN_HEIGHT / 4, Zero, false, None)
      ensures Consistent(ship.View())
      ensures messageTimer == 0 && hazards == [] && intruders == [] && bullets == []
    {
      ship := new Ship(100, SCREEN_HEIGHT / 4, Zero);
      messageTimer := 0;
      hazards, intruders, bullets := [], [], [];
    }

    method ApplyGate(g: Gate)
      modifies ship, this`messageTimer
      ensures ship.View() == GateEffect(old(ship.View()), g)
      ensures Consistent(old(ship.View())) ==> Consistent(ship.View())
      ensures messageTimer == MessageTimerAfter(old(ship.quantumMode), g, old(messageTimer))
      ensures ship.health == old(ship.health)
    {
      match g {
      case X =>
        if !ship.quantumMode {
          if ship.state == Zero {
            ship.state := One;
            ship.top := HALF + TOP_OFFSET;
          } else if ship.state == One {
            ship.state := Zero;
            ship.top := TOP_OFFSET;
          }
          messageTimer := GATE_MESSAGE_FRAMES;
        }
      case Z =>
        if ship.quantumMode {
          if ship.state == Plus {
            ship.state := Minus;
          } else if ship.state == Minus {
            ship.state := Plus;
          }
          ship.CreateTwinship();
          messageTimer := GATE_MESSAGE_FRAMES;
        }
      case H =>
        if ship.state == Zero {
          ship.state := Plus;
          ship.CreateTwinship();
        } else if ship.state == One {
          ship.state := Minus;
          ship.CreateTwinship();
        } else if ship.state == Plus {
          ship.state := Zero;
          ship.RemoveTwinship();
          ship.top := TOP_OFFSET;
        } else {
          ship.state := One;
          ship.RemoveTwinship();
          ship.top := HALF + TOP_OFFSET;
        }
        messageTimer := GATE_MESSAGE_FRAMES;
      }
      if Consistent(old(ship.View())) {
        GatePreservesConsistency(old(ship.View()), g);
      }
    }

    /** check_collision_after_measure: the ship alone against every hazard,
        intruder and bullet. */
    method CheckCollisionAfterMeasure() returns (hit: bool)
      ensures hit == (HitsAny(ShipRect(ship.View()), hazards)
                      || HitsAny(ShipRect(ship.View()), intruders)
                      || HitsAny(ShipRect(ship.View()), bullets))
    {
      var r := Rect(ship.left, ship.top, SHIP_WIDTH, SHIP_HEIGHT);
      var i := 0;
      while i < |hazards|
        invariant 0 <= i <= |hazards|
        invariant forall j :: 0 <= j < i ==> !Collide(r, hazards[j])
      {
        if Collide(r, hazards[i]) {
          return true;
        }
        i := i + 1;
      }
      i := 0;
      while i < |intruders|
        invariant 0 <= i <= |intruders|
        invariant forall j :: 0 <= j < i ==> !Collide(r, intruders[j])
      {
        if Collide(r, intruders[i]) {
          return true;
        }
        i := i + 1;
      }
      i := 0;
      while i < |bullets|
        invariant 0 <= i <= |bullets|
        invariant forall j :: 0 <= j < i ==> !Collide(r, bullets[j])
      {
        if Collide(r, bullets[i]) {
          return true;
        }
        i := i + 1;
      }
      return false;
    }

    /** measure: does nothing outside quantum mode; otherwise collapses the
        ship by the parity of the draw and reports whether the collapsed ship
        sits on an obstacle. */
    method Measure(draw: int) returns (destroyed: bool)
      modifies ship, this`messageTimer
      ensures !old(ship.quantumMode) ==>
        ship.View() == old(ship.View()) && messageTimer == old(messageTimer) && !destroyed
      ensures old(ship.quantumMode) ==>
        && ship.View() == Collapsed(old(ship.View()), draw)
        && messageTimer == MEASURE_MESSAGE_FRAMES
        && destroyed == (HitsAny(ShipRect(ship.View()), hazards)
                         || HitsAny(ShipRect(ship.View()), intruders)
                         || HitsAny(ShipRect(ship.View()), bullets))
      ensures ship.health == old(ship.health)
    {
      if !ship.quantumMode {
        return false;
      }
      var observed := if draw % 2 == 0 then Zero else One;
      ship.state := observed;
      if observed == Zero {
        ship.top := TOP_OFFSET;
      } else {
        ship.top := HALF + TOP_OFFSET;
      }
      ship.RemoveTwinship();
      ship.quantumMode := false;
      messageTimer := MEASURE_MESSAGE_FRAMES;
      destroyed := CheckCollisionAfterMeasure();
    }

    /** collision_check: the ship or its twin against every hazard, intruder
        and bullet. */
    method CollisionCheck() returns (hit: bool)
      ensures hit == (StrikesAny(ship.View(), hazards)
                      || StrikesAny(ship.View(), intruders)
                      || StrikesAny(ship.View(), bullets))
    {
      var v := ship.View();
      var i := 0;
      while i < |hazards|
        invariant 0 <= i <= |hazards|
        invariant forall j :: 0 <= j < i ==> !Strikes(v, hazards[j])
      {
        if Collide(ShipRect(v), hazards[i]) {
          return true;
        }
        if ship.twin.Some? && Collide(TwinRect(ship.twin.value), hazards[i]) {
          return true;
        }
        i := i + 1;
      }
      i := 0;
      while i < |intruders|
        invariant 0 <= i <= |intruders|
        invariant forall j :: 0 <= j < i ==> !Strikes(v, intruders[j])
      {
        if Collide(ShipRect(v), intruders[i]) {
          return true;
        }
        if ship.twin.Some? && Collide(TwinRect(ship.twin.value), intruders[i]) {
          return true;
        }
        i := i + 1;
      }
      i := 0;
      while i < |bullets|
        invariant 0 <= i <= |bullets|
        invariant forall j :: 0 <= j < i ==> !Strikes(v, bullets[j])
      {
        if Collide(ShipRect(v), bullets[i]) {
          return true;
        }
        if ship.twin.Some? && Collide(TwinRect(ship.twin.value), bullets[i]) {
          return true;
        }
        i := i + 1;
      }
      return false;
    }

    /** The collision step of a frame: a classical ship that is hit ends the
        game; a superposed ship that is hit is measured, and the game ends
        only when the collapsed ship is hit too. */
    method CollisionStep(draw: int) returns (gameOver: bool)
      modifies ship, this`messageTimer
      ensures var v := old(ship.View());
        var struck := StrikesAny(v, hazards) || StrikesAny(v, intruders) || StrikesAny(v, bullets);
        && ship.View() == (if v.quantumMode && struck then Collapsed(v, draw) else v)
        && (gameOver <==>
              struck && (!v.quantumMode
                         || HitsAny(ShipRect(Collapsed(v, draw)), hazards)
                         || HitsAny(ShipRect(Collapsed(v, draw)), intruders)
                         || HitsAny(ShipRect(Collapsed(v, draw)), bullets)))
    {
      var hit := CollisionCheck();
      if ship.quantumMode {
        if hit {
          gameOver := Measure(draw);
        } else {
          gameOver := false;
        }
      } else {
        gameOver := hit;
      }
    }

    /** The random gate of the frame. */
    method RandomGate(draw: int)
      modifies ship, this`messageTimer
      ensures ship.View() == (match ScheduledGate(draw)
                              case None => old(ship.View())
                              case Some(g) => GateEffect(old(ship.View()), g))
    {
      if draw == 100 || draw == 200 {
        ApplyGate(X);
      } else if draw == 50 || draw == 250 {
        ApplyGate(Z);
      } else if draw == 150 {
        ApplyGate(H);
      }
    }

    /** The arrow keys move a classical ship by 5 per key; in quantum mode
        they do not move it. */
    method Steer(up: bool, down: bool)
      modifies ship`top
      ensures var v := old(ship.View());
        var v1 := if up then Moved(v, -5) else v;
        ship.View() == (if v.quantumMode then v else if down then Moved(v1, 5) else v1)
    {
      if !ship.quantumMode {
        if up {
          ship.UpdatePosition(-5);
        }
        if down {
          ship.UpdatePosition(5);
        }
      }
    }
  }
}
