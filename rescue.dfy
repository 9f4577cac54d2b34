/** Quantum Rescue: Schrodinger's Crew, first version (Game/Rescue.py).  The
    ship sits at x = 100 and moves only up and down; the X, Z and H keys act on
    its label, and H also switches the quantum-mode flag.  Every 120 frames a
    crew member with a random label enters at the right edge; crew members
    drift left by 2 a frame, and one that reaches the ship is met once: saved
    for a point when its label matches the ship's, a point lost otherwise, and
    parked off the left edge either way. */
module QuantumRescue {
  import opened Quantum
  import opened Geometry

  const SCREEN_WIDTH := 800
  const SCREEN_HEIGHT := 600
  /** The ship: pygame.Rect(100, SCREEN_HEIGHT // 2 - 20, 40, 20). */
  const SHIP_X := 100
  const SHIP_W := 40
  const SHIP_H := 20
  /** How far UP and DOWN move the ship in a frame. */
  const SHIP_STEP := 5
  /** Crew members are 30 x 20. */
  const CREW_W := 30
  const CREW_H := 20
  /** How far a crew member drifts left in a frame. */
  const CREW_SPEED := 2
  /** crew_spawn_delay, in frames. */
  const CREW_SPAWN_DELAY := 120
  /** Where a crew member that met the ship is put: off the left edge. */
  const GONE_X := -100

  /** A crew member's dictionary: its rectangle, its label and whether it was
      saved. */
  datatype Crew = Crew(rect: Rect, state: QState, saved: bool)

  // ----- the gate keys -----

  /** The globals player_state and quantum_mode. */
  datatype Mode = Mode(state: QState, quantumMode: bool)

  /** From the start (|0>, not quantum) on, the flag marks a superposition. */
  predicate Consistent(m: Mode) {
    m.quantumMode == IsSuperposition(m.state)
  }

  /** One gate key: X and Z act on the label only, as the reference gates do;
      H moves the label as Hadamard does and sets the flag to say whether the
      new label is a superposition. */
  function KeyGate(m: Mode, g: Gate): (r: Mode)
    ensures r.state == Apply(m.state, g)
    ensures g != H ==> r.quantumMode == m.quantumMode
    ensures g == H ==> r.quantumMode == IsSuperposition(r.state)
    ensures Consistent(m) ==> Consistent(r)
  {
    match g
    case X =>
      if m.state == Zero then m.(state := One)
      else if m.state == One then m.(state := Zero)
      else m
    case Z =>
      if m.state == Plus then m.(state := Minus)
      else if m.state == Minus then m.(state := Plus)
      else m
    case H =>
      match m.state
      case Zero => Mode(Plus, true)
      case One => Mode(Minus, true)
      case Plus => Mode(Zero, false)
      case Minus => Mode(One, false)
  }

  /** Pressing the same gate key twice gives the ship back its label and flag. */
  lemma KeyGateInvolution(m: Mode, g: Gate)
    requires Consistent(m)
    ensures KeyGate(KeyGate(m, g), g) == m
  {
    ApplyInvolution(m.state, g);
  }

  /** A key's gate when the key is held. */
  function Press(m: Mode, g: Gate, held: bool): Mode {
    if held then KeyGate(m, g) else m
  }

  // ----- the crew -----

  /** spawn_crew, with the draws of random.randint and random.choice as y and
      s: the crew member enters unsaved just beyond the right edge, and within
      the screen's height for every y randint can return. */
  function SpawnCrew(y: int, s: QState): (c: Crew)
    ensures !c.saved && c.state == s && c.rect.x == SCREEN_WIDTH
    ensures c.rect.w == CREW_W && c.rect.h == CREW_H
    ensures 0 <= y <= SCREEN_HEIGHT - CREW_H ==> 0 <= c.rect.y && c.rect.y + c.rect.h <= SCREEN_HEIGHT
  {
    Crew(Rect(SCREEN_WIDTH, y, CREW_W, CREW_H), s, false)
  }

  /** The crew member one frame later. */
  function Drift(c: Crew): Crew {
    c.(rect := Move(c.rect, -CREW_SPEED, 0))
  }

  /** move_crew on the whole list: every crew member moves 2 to the left and
      nothing else about it changes. */
  function Drifted(cs: seq<Crew>): (r: seq<Crew>)
    ensures |r| == |cs|
    ensures forall k :: 0 <= k < |cs| ==>
      && r[k].rect.x == cs[k].rect.x - CREW_SPEED
      && r[k].rect.y == cs[k].rect.y && r[k].rect.w == cs[k].rect.w && r[k].rect.h == cs[k].rect.h
      && r[k].state == cs[k].state && r[k].saved == cs[k].saved
  {
    if cs == [] then [] else Drifted(cs[..|cs| - 1]) + [Drift(cs[|cs| - 1])]
  }

  /** The ship meets a crew member that is not yet saved and overlaps it. */
  predicate Met(ship: Rect, c: Crew) {
    !c.saved && Collide(ship, c.rect)
  }

  /** check_rescue on one crew member: when met, it is saved exactly if its
      label is the ship's, and moved off the left edge either way; otherwise
      it stays as it was. */
  function Meet(ship: Rect, s: QState, c: Crew): (r: Crew)
    ensures r.state == c.state && r.rect.y == c.rect.y && r.rect.w == c.rect.w && r.rect.h == c.rect.h
    ensures Met(ship, c) ==> r.rect.x == GONE_X && (r.saved <==> c.state == s)
    ensures !Met(ship, c) ==> r == c
  {
    if Met(ship, c) then
      var saved := if c.state == s then c.(saved := true) else c;
      saved.(rect := saved.rect.(x := GONE_X))
    else c
  }

  /** check_rescue on the whole list, each crew member on its own. */
  function MeetAll(ship: Rect, s: QState, cs: seq<Crew>): (r: seq<Crew>)
    ensures |r| == |cs|
    ensures forall k :: 0 <= k < |cs| ==> r[k] == Meet(ship, s, cs[k])
  {
    if cs == [] then [] else MeetAll(ship, s, cs[..|cs| - 1]) + [Meet(ship, s, cs[|cs| - 1])]
  }

  /** The crew members of cs met with the ship's label (a point each). */
  function Hits(ship: Rect, s: QState, cs: seq<Crew>): nat {
    if cs == [] then 0
    else Hits(ship, s, cs[..|cs| - 1]) + (if Met(ship, cs[|cs| - 1]) && cs[|cs| - 1].state == s then 1 else 0)
  }

  /** The crew members of cs met with another label (a point lost each). */
  function Misses(ship: Rect, s: QState, cs: seq<Crew>): nat {
    if cs == [] then 0
    else Misses(ship, s, cs[..|cs| - 1]) + (if Met(ship, cs[|cs| - 1]) && cs[|cs| - 1].state != s then 1 else 0)
  }

  /** The number of saved crew members. */
  function CountSaved(cs: seq<Crew>): nat {
    if cs == [] then 0 else CountSaved(cs[..|cs| - 1]) + (if cs[|cs| - 1].saved then 1 else 0)
  }

  /** check_rescue saves exactly the crew members it scores a point for. */
  lemma {:induction false} MeetAllSaves(ship: Rect, s: QState, cs: seq<Crew>)
    ensures CountSaved(MeetAll(ship, s, cs)) == CountSaved(cs) + Hits(ship, s, cs)
    decreases |cs|
  {
    if cs != [] {
      var init := cs[..|cs| - 1];
      MeetAllSaves(ship, s, init);
      assert MeetAll(ship, s, cs)[..|cs| - 1] == MeetAll(ship, s, init);
    }
  }

  /** A crew member that met the ship no longer overlaps it, as long as the
      ship is right of the parking place. */
  lemma MeetClears(ship: Rect, s: QState, c: Crew)
    requires ship.x >= GONE_X + CREW_W && c.rect.w <= CREW_W
    ensures !Met(ship, Meet(ship, s, c))
  {
  }

  /** Nobody met scores nothing. */
  lemma {:induction false} NoneMet(ship: Rect, s: QState, cs: seq<Crew>)
    requires forall k :: 0 <= k < |cs| ==> !Met(ship, cs[k])
    ensures Hits(ship, s, cs) == 0 && Misses(ship, s, cs) == 0
    decreases |cs|
  {
    if cs != [] {
      NoneMet(ship, s, cs[..|cs| - 1]);
    }
  }

  /** Each crew member is met at most once: a second check_rescue in the same
      place changes nothing and scores nothing. */
  lemma MeetOnce(ship: Rect, s: QState, cs: seq<Crew>)
    requires ship.x >= GONE_X + CREW_W
    requires forall k :: 0 <= k < |cs| ==> cs[k].rect.w <= CREW_W
    ensures MeetAll(ship, s, MeetAll(ship, s, cs)) == MeetAll(ship, s, cs)
    ensures Hits(ship, s, MeetAll(ship, s, cs)) == 0 && Misses(ship, s, MeetAll(ship, s, cs)) == 0
  {
    var once := MeetAll(ship, s, cs);
    forall k | 0 <= k < |cs|
      ensures !Met(ship, once[k])
    {
      MeetClears(ship, s, cs[k]);
    }
    NoneMet(ship, s, once);
  }

  /** The crew members cs[..k + 1] score what cs[..k] do and cs[k] on top. */
  lemma TallySnoc(ship: Rect, s: QState, cs: seq<Crew>, k: nat)
    requires k < |cs|
    ensures Hits(ship, s, cs[..k + 1]) == Hits(ship, s, cs[..k]) + (if Met(ship, cs[k]) && cs[k].state == s then 1 else 0)
    ensures Misses(ship, s, cs[..k + 1]) == Misses(ship, s, cs[..k]) + (if Met(ship, cs[k]) && cs[k].state != s then 1 else 0)
  {
    assert cs[..k + 1][..k] == cs[..k];
  }

  /** Saved crew members are parked off the left edge. */
  predicate SavedAreGone(cs: seq<Crew>) {
    forall k :: 0 <= k < |cs| && cs[k].saved ==> cs[k].rect.x <= GONE_X
  }

  /** The crew keep their size. */
  predicate CrewSized(cs: seq<Crew>) {
    forall k :: 0 <= k < |cs| ==> cs[k].rect.w == CREW_W && cs[k].rect.h == CREW_H
  }

  /** Drifting and meeting keep saved crew members parked and every crew
      member its size. */
  lemma FrameKeepsCrew(ship: Rect, s: QState, cs: seq<Crew>)
    requires SavedAreGone(cs) && CrewSized(cs)
    ensures SavedAreGone(Drifted(cs)) && CrewSized(Drifted(cs))
    ensures SavedAreGone(MeetAll(ship, s, cs)) && CrewSized(MeetAll(ship, s, cs))
  {
  }

  // ----- the script's globals -----

  class Rescue {
    var playerState: QState
    var quantumMode: bool
    var score: int
    var ship: Rect
    var crew: seq<Crew>
    var crewTimer: int

    /** The flag marks a superposition, the ship keeps its column and size,
        the timer counts below the delay, the crew keep their size and the
        saved ones are parked off the left edge. */
    ghost predicate Valid()
      reads this
    {
      && Consistent(Mode(playerState, quantumMode))
      && ship.x == SHIP_X && ship.w == SHIP_W && ship.h == SHIP_H
      && 0 <= crewTimer < CREW_SPAWN_DELAY
      && CrewSized(crew) && SavedAreGone(crew)
    }

    constructor()
      ensures Valid()
      ensures playerState == Zero && !quantumMode && score == 0
      ensures ship == Rect(SHIP_X, SCREEN_HEIGHT / 2 - 20, SHIP_W, SHIP_H)
      ensures crew == [] && crewTimer == 0
    {
      playerState, quantumMode, score := Zero, false, 0;
      ship := Rect(SHIP_X, SCREEN_HEIGHT / 2 - 20, SHIP_W, SHIP_H);
      crew, crewTimer := [], 0;
    }

    /** The keys of a frame, in the order the loop reads them: UP, DOWN, then
        the X, Z and H gates; the ship moves only vertically. */
    method Keys(up: bool, down: bool, x: bool, z: bool, h: bool)
      requires Valid()
      modifies this`ship, this`playerState, this`quantumMode
      ensures Valid()
      ensures ship == old(ship).(y := old(ship.y) - (if up then SHIP_STEP else 0) + (if down then SHIP_STEP else 0))
      ensures Mode(playerState, quantumMode) == Press(Press(Press(old(Mode(playerState, quantumMode)), X, x), Z, z), H, h)
    {
      if up {
        ship := ship.(y := ship.y - SHIP_STEP);
      }
      if down {
        ship := ship.(y := ship.y + SHIP_STEP);
      }
      if x {
        GateKey(X);
      }
      if z {
        GateKey(Z);
      }
      if h {
        GateKey(H);
      }
    }

    /** The inline code of one gate key. */
    method GateKey(g: Gate)
      modifies this`playerState, this`quantumMode
      ensures Mode(playerState, quantumMode) == KeyGate(old(Mode(playerState, quantumMode)), g)
    {
      if g == X {
        if playerState == Zero {
          playerState := One;
        } else if playerState == One {
          playerState := Zero;
        }
      } else if g == Z {
        if playerState == Plus {
          playerState := Minus;
        } else if playerState == Minus {
          playerState := Plus;
        }
      } else {
        if playerState == Zero {
          playerState, quantumMode := Plus, true;
        } else if playerState == One {
          playerState, quantumMode := Minus, true;
        } else if playerState == Plus {
          playerState, quantumMode := Zero, false;
        } else {
          playerState, quantumMode := One, false;
        }
      }
    }

    /** The spawn timer: on the 120th frame a crew member drawn at height y
        with label s is appended and the timer starts again. */
    method SpawnTick(y: int, s: QState)
      requires Valid()
      modifies this`crew, this`crewTimer
      ensures Valid()
      ensures crewTimer == (old(crewTimer) + 1) % CREW_SPAWN_DELAY
      ensures crew == old(crew) + (if old(crewTimer) + 1 == CREW_SPAWN_DELAY then [SpawnCrew(y, s)] else [])
    {
      crewTimer := crewTimer + 1;
      if crewTimer >= CREW_SPAWN_DELAY {
        crew := crew + [SpawnCrew(y, s)];
        crewTimer := 0;
      }
    }

    /** move_crew */
    method MoveCrew()
      requires Valid()
      modifies this`crew
      ensures Valid()
      ensures crew == Drifted(old(crew))
    {
      ghost var cs := crew;
      for k := 0 to |crew|
        invariant |crew| == |cs|
        invariant forall j :: 0 <= j < k ==> crew[j] == Drift(cs[j])
        invariant forall j :: k <= j < |cs| ==> crew[j] == cs[j]
      {
        crew := crew[k := crew[k].(rect := crew[k].rect.(x := crew[k].rect.x - CREW_SPEED))];
      }
      FrameKeepsCrew(ship, playerState, cs);
    }

    /** check_rescue: the score goes up by one for each crew member met with
        the ship's label and down by one for each met with another. */
    method CheckRescue()
      requires Valid()
      modifies this`crew, this`score
      ensures Valid()
      ensures crew == MeetAll(ship, playerState, old(crew))
      ensures score == old(score) + Hits(ship, playerState, old(crew)) - Misses(ship, playerState, old(crew))
    {
      ghost var cs := crew;
      for k := 0 to |crew|
        invariant |crew| == |cs|
        invariant forall j :: 0 <= j < k ==> crew[j] == Meet(ship, playerState, cs[j])
        invariant forall j :: k <= j < |cs| ==> crew[j] == cs[j]
        invariant score == old(score) + Hits(ship, playerState, cs[..k]) - Misses(ship, playerState, cs[..k])
      {
        TallySnoc(ship, playerState, cs, k);
        var c := crew[k];
        if !c.saved && Collide(ship, c.rect) {
          if c.state == playerState {
            c := c.(saved := true);
            score := score + 1;
          } else {
            score := score - 1;
          }
          c := c.(rect := c.rect.(x := GONE_X));
          crew := crew[k := c];
        }
      }
      assert cs[..|cs|] == cs;
      FrameKeepsCrew(ship, playerState, cs);
    }

    /** One pass of the main loop: keys, spawn timer, move_crew, check_rescue. */
    method Frame(up: bool, down: bool, x: bool, z: bool, h: bool, y: int, s: QState)
      requires Valid()
      modifies this
      ensures Valid()
      ensures ship.x == SHIP_X
      ensures |crew| <= |old(crew)| + 1
    {
      Keys(up, down, x, z, h);
      SpawnTick(y, s);
      MoveCrew();
      CheckRescue();
    }
  }
}
