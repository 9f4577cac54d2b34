# Quantum arcade games, modelled in Dafny

The repository holds six stand-alone pygame games. Each one hides a small
integer state machine among its drawing code. In every game an entity
carries one of four labels, `|0>`, `|1>`, `|+>` and `|->`. Three keys
act on the label: X swaps `|0>` and `|1>`, Z swaps `|+>` and `|->`, and H
pairs `|0>` with `|+>` and `|1>` with `|->`. Each game adds its own
bookkeeping around these gates. It may be a quantum-mode or superposition
flag, a twin meant for the other half of the screen, a random
measurement that collapses a superposition, or score, health and
collision lists. This project models that bookkeeping and proves what
the games promise about it.

Each game is one Dafny module, written in the game's own imperative form.
Objects and globals that the game updates in place become classes with
`modifies` clauses. Loops become `while` loops with invariants. Each method
is specified by a pure function of the old state, and lemmas prove the
game's properties about that function.

| file | module | game |
|---|---|---|
| quantum.dfy | `Quantum` | the four labels and the three reference gates X, Z, H, plus the random gate schedule of the scrolling games |
| geometry.dfy | `Geometry` | integer `pygame.Rect`: `colliderect`, `collidepoint`, `move`, `inflate` |
| option.dfy | `Optional` | `Option` |
| lists.dfy | `Lists` | Python's `list.remove` on plain values |
| bubble_grid.dfy | `BubbleBurst` | Game/Rescue_v4.py: the cannon, the 10 x 10 bubble grid, placement, flood fill, popping and scoring |
| match_component.dfy | `MatchComponent` | the value-level theory of Rescue_v4's flood fill: components, closed sets, the resolve rule |
| twin_ship.dfy | `PhotonicShip` | Game/Rescue_v3.py: the ship, its twin, gates, measurement and the collision step |
| maze.dfy | `EntangledMaze` | Game/maze.py: two stacked mazes, gates, measurement, walking, obstacles, keys and the exit |
| rescue_v2.dfy | `SchrodingersCrew` | Game/Rescue_v2.py: gates with the quantum-mode flag, the five collision loops, score and health |
| bubble_trouble.dfy | `BubbleTrouble` | Game/bubbleTrobble.py: free-floating bubbles, gates on all of them, the click burst with its chain reaction, the spawn timer |
| rescue.dfy | `QuantumRescue` | Game/Rescue.py: inline gate keys, crew spawning, drifting and rescue |

How the model relates to the code:

- **Random draws are inputs.** Every `random.choice`, `random.randint` and
  `random.random` becomes a parameter of the method that uses it. A per-bubble
  oracle function does the same job where a loop draws once per element.
- **Keys and the mouse are inputs too.** The keys held in a frame are
  booleans, and the mouse click is an optional integer point.
- **Rectangles use integers.** `Geometry.Collide` is pygame's
  `colliderect` on integer rectangles: empty rectangles touch nothing, and
  shared edges do not count. A rectangle of negative width or height also
  touches nothing, where pygame 2 would first normalise it. No game builds
  one: every square and inflated square here has a positive size.
- **Floats are avoided.** In Game/Rescue_v4.py the shot reaches the grid as
  an integer point. The `math.hypot` contact test becomes an exact
  squared-distance test.
- **Aliasing follows the code.** An object the code shares between lists
  or updates through several names stays a Dafny object. Examples are the
  maze's tiles, which are both wall and obstacle, bubbleTrobble's bubbles,
  and Rescue_v4's grid bubbles. A dictionary or rectangle that is never
  aliased becomes a value in a sequence field, such as the crew of Rescue.py
  and Rescue_v2.py.

Where the code does something other than its comments or names suggest,
the model follows the code:

- **Placement probing.** The comments of `place_bubble`
  (Game/Rescue_v4.py:196 and 200) promise the nearest free position among
  the spots around the target. The `break` in lines 201-207 leaves only the
  inner loop, so later rows probe from the moved cell.
  `ProbeCanLeaveNeighbourhood` shows a landing spot two columns away from
  the target. `ProbeFindsFree` shows that placement is still refused
  exactly when all eight neighbours are taken.
- **Z and the twin.** `create_twinship` is commented "on opposite half
  screen" (Game/Rescue_v3.py:65), but it places the twin of `|+>` at
  320 + top mod 320 and the twin of `|->` at top mod 320. Z flips the
  label without moving the ship and re-runs `create_twinship`
  (Game/Rescue_v3.py:139-140), so ship and twin can end up on the same
  square, from either label. `ZOnlyInQuantum` states the twin's new label.
  `ZCanStackTwin` shows a `|+>` ship at top 160 whose twin moves from 480
  to 160 under Z, and a `|1>` ship at top 330 whose twin, made at 10 by H,
  moves to 330 under Z.
- **Oscillation period.** `Bubble.update` is commented "every 2 seconds
  approx." (Game/Rescue_v4.py:60). `main` updates every superposed bubble
  twice per frame (Game/Rescue_v4.py:330-331), so it flips after 61
  frames, about one second at 60 frames per second
  (`FreshBubbleFlipsAfterSixtyOneFrames`).

## Model

| member | source | states |
|---|---|---|
| Quantum.PauliX | Game/Rescue_v4.py:136-141 | X moves a basis label to the other basis label and leaves `|+>` and `|->` alone |
| Quantum.PauliZ | Game/Rescue_v4.py:142-147 | Z moves a superposition label to the other one and leaves `|0>` and `|1>` alone |
| Quantum.Hadamard | Game/Rescue_v4.py:148-157 | H maps basis labels to superpositions and superpositions back to basis labels |
| Quantum.Paired | Game/Rescue_v3.py:66-73 | the twin's label is the other superposition label |
| Quantum.PauliXInvolution | Game/Rescue_v4.py:136-141 | X applied twice is the identity |
| Quantum.PauliZInvolution | Game/Rescue_v4.py:142-147 | Z applied twice is the identity |
| Quantum.HadamardInvolution | Game/Rescue_v4.py:148-157 | H applied twice is the identity on every label |
| Quantum.ApplyInvolution | Game/Rescue_v4.py:134-157 | every gate undoes itself |
| Quantum.HadamardConjugatesXToZ | Game/Rescue_v4.py:134-157 | H X H acts as Z on the labels |
| Quantum.ScheduledGate | Game/Rescue_v3.py:250-256 | a draw of 100 or 200 gives X, 50 or 250 gives Z, 150 gives H, and any other draw gives no gate |
| Geometry.Move | Game/maze.py:207 | `Rect.move` shifts by exactly (dx, dy) and keeps the size |
| Geometry.HalfTowardZero | Game/bubbleTrobble.py:121 | the halving inside `inflate` is within one of n/2 |
| Geometry.Inflate | Game/bubbleTrobble.py:121 | `inflate(60, 60)` grows the size by 60 and contains every point of the original |
| Geometry.HitsAnyPrefix | Game/maze.py:209 | `any(...)` over one more wall is the old answer or a hit on that wall |
| Geometry.CollideSymmetric | Game/maze.py:244 | `colliderect` does not depend on the order of its arguments |
| Lists.RemoveFirstMultiset | Game/bubbleTrobble.py:109 | `list.remove(x)` takes out exactly one copy of x |
| Lists.RemoveFirstLength | Game/bubbleTrobble.py:109 | `list.remove` shortens the list by one when x is in it and changes nothing otherwise |
| Lists.RemoveFirstAfter | Game/bubbleTrobble.py:115 | when no earlier element equals x, `remove` takes out exactly that occurrence |
| Lists.RemoveFirstIn | Game/bubbleTrobble.py:123 | `remove` only takes elements away |
| Lists.RemoveFirstKeeps | Game/bubbleTrobble.py:123 | `remove(x)` keeps every element other than x |
| Lists.RemoveFirstNoDup | Game/bubbleTrobble.py:123 | `remove` keeps a list without duplicates free of them |
| Lists.RemoveFirstGone | Game/bubbleTrobble.py:115 | in a list without duplicates, no x is left after `remove(x)` |
| BubbleBurst.Oscillate | Game/Rescue_v4.py:59-66 | a basis bubble never changes; a superposed bubble stays superposed, flips exactly when its timer passes FPS * 2, and keeps its timer in [0, FPS * 2] |
| BubbleBurst.OscillateClimbs | Game/Rescue_v4.py:59-66 | the label is kept while the timer climbs to FPS * 2 |
| BubbleBurst.OscillatePeriod | Game/Rescue_v4.py:59-66 | from any reachable timer the label flips after exactly FPS * 2 + 1 - timer updates, and the timer restarts at 0 |
| BubbleBurst.FramesAreDoubleUpdates | Game/Rescue_v4.py:249-254 | each frame of `main` updates a superposed bubble twice |
| BubbleBurst.FreshBubbleFlipsAfterSixtyOneFrames | Game/Rescue_v4.py:330-331 | a fresh superposed bubble keeps its label for 60 frames and has flipped after 61 |
| BubbleBurst.Bubble.constructor | Game/Rescue_v4.py:42-49 | a new bubble has its cell and label, a zero timer and is not popped |
| BubbleBurst.Bubble.Update | Game/Rescue_v4.py:59-66 | `update` does what `Oscillate` says |
| BubbleBurst.Aimed | Game/Rescue_v4.py:95-100 | aiming keeps the angle in [10, 170] and moves it by at most 2 in the chosen direction |
| BubbleBurst.Cannon.constructor | Game/Rescue_v4.py:69-80 | the cannon starts at 90 degrees with the drawn label, not shooting |
| BubbleBurst.Cannon.Aim | Game/Rescue_v4.py:95-100 | `aim` updates the angle as `Aimed` says and changes nothing else |
| BubbleBurst.Cannon.ApplyGate | Game/Rescue_v4.py:134-157 | the loaded label follows the reference gate |
| BubbleBurst.Cannon.Shoot | Game/Rescue_v4.py:102-109 | after `shoot` a shot is in flight |
| BubbleBurst.Cannon.ResetBubble | Game/Rescue_v4.py:128-132 | a new label is loaded and the cannon can fire again |
| BubbleBurst.GetGridPos | Game/Rescue_v4.py:184-190 | a cell is returned exactly when the point lies over the grid, and the cell is the one under the point |
| BubbleBurst.SnapCentre | Game/Rescue_v4.py:184-190 | snapping a cell's own centre gives that cell |
| BubbleBurst.ScanRow | Game/Rescue_v4.py:203-207 | the inner probe loop stays put or moves to a free cell of the probed row |
| BubbleBurst.Probe | Game/Rescue_v4.py:200-207 | the probe stays put or ends on a free cell within one row and three columns |
| BubbleBurst.ProbeFindsFree | Game/Rescue_v4.py:200-208 | the probe ends on a free cell exactly when one of the eight cells around the target is free |
| BubbleBurst.ProbeCanLeaveNeighbourhood | Game/Rescue_v4.py:202-207 | the probe as written can land two columns from the target |
| BubbleBurst.LandingCell | Game/Rescue_v4.py:195-212 | a placed bubble lands on a free cell, and a free target cell is used as it is |
| BubbleBurst.NeighboursAreAdjacent | Game/Rescue_v4.py:214-221 | the four offsets of `get_adjacent` are exactly the 4-connected neighbours |
| BubbleBurst.BubbleGrid.constructor | Game/Rescue_v4.py:160-170 | a new grid has rows 0-4 filled with fresh `0`/`1` bubbles as drawn and rows 5-9 empty |
| BubbleBurst.BubbleGrid.PopulateInitial | Game/Rescue_v4.py:165-170 | rows 0-4 get fresh `0`/`1` bubbles and rows 5-9 are kept |
| BubbleBurst.BubbleGrid.CanPlaceIsFree | Game/Rescue_v4.py:192-193 | `can_place` holds exactly for an in-range empty cell |
| BubbleBurst.BubbleGrid.PlaceBubble | Game/Rescue_v4.py:195-212 | the bubble lands where `LandingCell` says, in a previously empty cell; that one cell changes and no other |
| BubbleBurst.BubbleGrid.Put | Game/Rescue_v4.py:208-211 | a fresh bubble fills exactly the given empty cell |
| BubbleBurst.BubbleGrid.ProbeCell | Game/Rescue_v4.py:201-207 | the neighbour loops compute `Probe` and change nothing |
| BubbleBurst.BubbleGrid.ScanCells | Game/Rescue_v4.py:203-207 | the inner loop computes `ScanRow` |
| BubbleBurst.BubbleGrid.GetAdjacent | Game/Rescue_v4.py:214-221 | the result is every occupied 4-neighbour, in up, down, left, right order, and nothing else |
| BubbleBurst.BubbleGrid.PushNeighbours | Game/Rescue_v4.py:239-241 | the pushed cells are the unvisited occupied neighbours, in `get_adjacent` order |
| BubbleBurst.BubbleGrid.Visit | Game/Rescue_v4.py:232-241 | one pass of the flood-fill loop keeps the fill invariant |
| BubbleBurst.BubbleGrid.FindMatches | Game/Rescue_v4.py:223-242 | no bubble gives no matches; otherwise the matches are exactly the 4-connected same-label component of the seed, each bubble once |
| BubbleBurst.BubbleGrid.PopBubbles | Game/Rescue_v4.py:244-247 | exactly the listed cells are emptied, and every listed bubble is marked popped |
| BubbleBurst.BubbleGrid.Pop | Game/Rescue_v4.py:246-247 | one bubble's cell is emptied and the bubble marked popped |
| BubbleBurst.BubbleGrid.Update | Game/Rescue_v4.py:178-182 | every bubble in the grid is updated once, and the others are untouched |
| BubbleBurst.BubbleGrid.CollapseSuperpositions | Game/Rescue_v4.py:249-254 | every superposed bubble in the grid is updated once more, which for the whole grid is the effect of `Update` |
| BubbleBurst.BubbleGrid.ResolveFrom | Game/Rescue_v4.py:302-305 | the match step changes the grid and returns the score as `Resolve` says |
| BubbleBurst.BubbleGrid.Touching | Game/Rescue_v4.py:311-317 | the scan finds a bubble exactly when one lies within 2 * BUBBLE_RADIUS of the shot |
| BubbleBurst.Game.constructor | Game/Rescue_v4.py:257-260 | the game starts with a score of 0 and a loaded cannon that is not shooting |
| BubbleBurst.Game.Land | Game/Rescue_v4.py:299-306 | a landed shot is placed where `LandingCell` says; a placed bubble resolves its component, adds its size to the score and reloads the cannon, and a refused one changes nothing |
| BubbleBurst.Game.CheckShot | Game/Rescue_v4.py:295-328 | a shot in flight lands when it reaches the top of the grid or comes near a bubble, with the effect of `Land`; a shot that does not land leaves the grid, the score and the cannon's flag, label and angle as they were |
| MatchComponent.ClosedContainsComponent | Game/Rescue_v4.py:223-242 | a set closed under same-label steps holds the whole component |
| MatchComponent.ComponentHoldsLabel | Game/Rescue_v4.py:227-238 | every cell of a component holds the seed's label |
| MatchComponent.FillStart | Game/Rescue_v4.py:228-230 | the fill invariant holds on the first stack `[seed]` |
| MatchComponent.FillSkip | Game/Rescue_v4.py:233-234 | popping a visited cell keeps the invariant |
| MatchComponent.FillMiss | Game/Rescue_v4.py:235-237 | popping an empty or other-label cell keeps the invariant |
| MatchComponent.FillMatch | Game/Rescue_v4.py:235-241 | popping a same-label cell and pushing its unvisited neighbours keeps the invariant |
| MatchComponent.FillDone | Game/Rescue_v4.py:231 | an empty stack means the found set is exactly the component |
| MatchComponent.ResolveScoresRemoved | Game/Rescue_v4.py:302-305 | the score added is the number of bubbles removed; it is 0 (grid unchanged) or at least 3, with the placed bubble among them |
| PhotonicShip.TwinTop | Game/Rescue_v3.py:66-72 | the twin of `|+>` is in the lower half, the twin of `|->` in the upper, at the ship's offset within its half |
| PhotonicShip.Moved | Game/Rescue_v3.py:52-59 | a basis ship moves exactly when the new top stays in its half; a superposed ship never moves |
| PhotonicShip.Twinned | Game/Rescue_v3.py:64-76 | `create_twinship` makes a twin at the ship's left with the other superposition label, at top 320 + top mod 320 for `|+>` and top mod 320 for `|->`, and sets the mode exactly for a superposition |
| PhotonicShip.Untwinned | Game/Rescue_v3.py:78-80 | `remove_twinship` drops the twin and leaves quantum mode |
| PhotonicShip.MessageTimerAfter | Game/Rescue_v3.py:118-160 | H always shows its message; X and Z show it only when they act |
| PhotonicShip.Collapsed | Game/Rescue_v3.py:162-177 | an even draw observes `|0>` and an odd one `|1>`; the ship moves to 10 below the top of that half and loses its twin |
| PhotonicShip.GatePreservesConsistency | Game/Rescue_v3.py:118-160 | every gate keeps "quantum mode, twin present and superposition label agree, and the twin is paired" |
| PhotonicShip.GateAgreesWithReference | Game/Rescue_v3.py:118-160 | under that invariant the label follows the reference gate |
| PhotonicShip.XOnlyOutsideQuantum | Game/Rescue_v3.py:121-131 | X does nothing in quantum mode; otherwise it swaps the basis label and puts the ship 10 below the top of the new half |
| PhotonicShip.ZOnlyInQuantum | Game/Rescue_v3.py:132-142 | Z does nothing outside quantum mode; in it Z swaps the labels of ship and twin, and applying it twice restores the ship |
| PhotonicShip.ZCanStackTwin | Game/Rescue_v3.py:132-142 | Z puts the twin on the ship's own square from either label: a `|+>` ship at top 160 (twin 480 to 160), and a `|1>` ship at top 330 after H (twin 10 to 330) |
| PhotonicShip.HTogglesQuantumMode | Game/Rescue_v3.py:143-160 | H from a basis state enters superposition with a twin; from a superposition it drops the twin and sets the top to 10 or 330 |
| PhotonicShip.HTwiceRestores | Game/Rescue_v3.py:143-160 | H twice restores the label, the mode and whether there is a twin |
| PhotonicShip.RunPreservesConsistency | Game/Rescue_v3.py:52-177 | no sequence of gates, moves and measurements breaks the invariant |
| PhotonicShip.Ship.constructor | Game/Rescue_v3.py:45-50 | a new ship has its position and label, no twin and health 100 |
| PhotonicShip.Ship.UpdatePosition | Game/Rescue_v3.py:52-59 | `update_position` does what `Moved` says |
| PhotonicShip.Ship.CreateTwinship | Game/Rescue_v3.py:64-76 | `create_twinship` does what `Twinned` says |
| PhotonicShip.Ship.RemoveTwinship | Game/Rescue_v3.py:78-80 | `remove_twinship` does what `Untwinned` says |
| PhotonicShip.Photonic.constructor | Game/Rescue_v3.py:83-102 | the game starts with a consistent `|0>` ship at (100, 160) and empty lists |
| PhotonicShip.Photonic.ApplyGate | Game/Rescue_v3.py:118-160 | `apply_gate` moves the ship as `GateEffect` says, keeps the invariant and sets the message timer |
| PhotonicShip.Photonic.CheckCollisionAfterMeasure | Game/Rescue_v3.py:190-202 | the answer is whether the ship alone hits a hazard, intruder or bullet |
| PhotonicShip.Photonic.Measure | Game/Rescue_v3.py:162-188 | outside quantum mode nothing changes and the answer is false; otherwise the ship collapses and the answer is the post-collapse collision test |
| PhotonicShip.Photonic.CollisionCheck | Game/Rescue_v3.py:341-357 | the answer is whether the ship or its twin hits anything |
| PhotonicShip.Photonic.CollisionStep | Game/Rescue_v3.py:359-369 | a struck classical ship ends the game; a struck superposed ship is measured, and the game ends only if the collapsed ship is hit |
| PhotonicShip.Photonic.RandomGate | Game/Rescue_v3.py:250-256 | the scheduled gate, if any, is applied |
| PhotonicShip.Photonic.Steer | Game/Rescue_v3.py:218-223 | the arrow keys move a classical ship by 5 each and never a superposed ship |
| EntangledMaze.Tile.constructor | Game/maze.py:52-53 | a tile has the given corner |
| EntangledMaze.Rects | Game/maze.py:124-131 | the squares of the tiles, one per tile, in order |
| EntangledMaze.PlaceCellKeepsInv | Game/maze.py:52-68 | one cell of `create_maze` keeps the layout invariant |
| EntangledMaze.NextRowKeepsInv | Game/maze.py:50-51 | the end of one row is the start of the next |
| EntangledMaze.LayoutUpToInv | Game/maze.py:50-68 | the invariant holds after every cell of the double loop |
| EntangledMaze.KeysOffWalls | Game/maze.py:55-68 | no key sits on a wall of either layer, each layer's walls lie in its own half, and no two obstacles share a square |
| EntangledMaze.ExitSquare | Game/maze.py:70 | the exit is in the last column, at y = TILE or HEIGHT / 2 + TILE as drawn |
| EntangledMaze.GatePreservesConsistency | Game/maze.py:147-176 | every gate keeps "quantum mode, twin present and superposition label agree, and the twin is half a screen away" |
| EntangledMaze.GateAgreesWithReference | Game/maze.py:147-176 | under that invariant the label follows the reference gate |
| EntangledMaze.XMovesBetweenMazes | Game/maze.py:149-155 | X acts only outside quantum mode, moves the player by half a screen, and twice restores it |
| EntangledMaze.ZKeepsPosition | Game/maze.py:156-157 | Z acts only in quantum mode, never moves the player or the twin, and twice restores it |
| EntangledMaze.HTwin | Game/maze.py:158-176 | H from `|0>`/`|1>` makes a twin shifted by +/- HEIGHT / 2 with the same x; from a superposition it drops the twin; twice it restores a basis player |
| EntangledMaze.Collapsed | Game/maze.py:178-188 | the player lands in the maze of the observed label at the same offset, in [0, 320) or [320, 640), with quantum mode and the twin cleared |
| EntangledMaze.KeyDelta | Game/maze.py:201-205 | the step is 0 or one tile either way |
| EntangledMaze.Walked | Game/maze.py:201-213 | the player moves only outside quantum mode, only onto a square free of its layer's walls, and always when that square is free |
| EntangledMaze.CollisionsSnoc | Game/maze.py:243-249 | one more obstacle of the collision loop |
| EntangledMaze.CollisionsFacts | Game/maze.py:242-249 | the loop keeps the invariant; a classical player is never moved and loses exactly when it touches an obstacle; a moved player is the collapsed one |
| EntangledMaze.Drift | Game/maze.py:226-240 | in quantum mode an obstacle takes the player's LEFT/RIGHT step of one tile sideways, rises by 2 and wraps to HEIGHT - TILE; otherwise it moves left by 2 and wraps to WIDTH past -TILE |
| EntangledMaze.DriftStaysOnScreen | Game/maze.py:226-240 | drifting keeps an obstacle in its band |
| EntangledMaze.Untouched | Game/maze.py:251-254 | what is left are keys the player does not touch, in order |
| EntangledMaze.UntouchedKeepsExactly | Game/maze.py:251-254 | a key stays exactly when the player does not touch it |
| EntangledMaze.FirstOnSquare | Game/maze.py:253 | the search of `list.remove` stops at the first tile on the square |
| EntangledMaze.RemoveSquare | Game/maze.py:253 | `list.remove` by square drops one tile when one is on the square |
| EntangledMaze.RemoveFirstTouched | Game/maze.py:251-254 | `remove` takes out the touched key itself |
| EntangledMaze.SweepStep | Game/maze.py:251-254 | one pass of the key loop keeps its invariant |
| EntangledMaze.Maze.constructor | Game/maze.py:72-76 | the player starts on the top-left square in `|0>` without a key |
| EntangledMaze.Maze.Start | Game/maze.py:43-76 | the script's start builds the layout `MazeLayout` describes, places the exit and the player, and no two obstacles are the same tile |
| EntangledMaze.Maze.BuildTiles | Game/maze.py:50-68 | the double loop builds the tiles of `MazeLayout`, with distinct obstacle tiles |
| EntangledMaze.Maze.BuildCell | Game/maze.py:52-68 | one cell adds the tiles `PlaceCell` says |
| EntangledMaze.Maze.ApplyGate | Game/maze.py:147-176 | `apply_gate` does what `GateEffect` says |
| EntangledMaze.Maze.RandomGate | Game/maze.py:220-224 | the scheduled gate, if any, is applied |
| EntangledMaze.Maze.MeasureCollapse | Game/maze.py:178-188 | `measure_collapse` does what `Collapsed` says |
| EntangledMaze.Maze.MovePlayer | Game/maze.py:199-213 | the move step does what `Walked` says, and nothing in quantum mode |
| EntangledMaze.Maze.MoveObstacles | Game/maze.py:226-240 | every obstacle moves as `Drift` says |
| EntangledMaze.Maze.CheckObstacles | Game/maze.py:242-249 | the collision loop does what `Collisions` says |
| EntangledMaze.Maze.CollectKeys | Game/maze.py:251-254 | every touched key is removed, the others are kept in order, and the player holds a key after touching one |
| EntangledMaze.Maze.SweepKeys | Game/maze.py:251-254 | the loop over the copy leaves the untouched keys and reports whether any key was touched |
| SchrodingersCrew.GateEffect | Game/Rescue_v2.py:91-109 | X acts only outside quantum mode, Z only in it; H toggles the mode; the invariant is kept and the label follows the reference gate |
| SchrodingersCrew.GatesAreInvolutions | Game/Rescue_v2.py:91-109 | two equal gates restore the ship |
| SchrodingersCrew.ClampAxis | Game/Rescue_v2.py:148 | one axis of `clamp_ip` pushes a smaller rectangle inside and keeps one already inside |
| SchrodingersCrew.ClampToScreen | Game/Rescue_v2.py:148 | the clamped ship keeps its size and is on screen |
| SchrodingersCrew.Heal | Game/Rescue_v2.py:247 | a power-up heals by 30 up to 100, never above |
| SchrodingersCrew.FirstRocketOn | Game/Rescue_v2.py:228-235 | the inner loop stops at the first rocket on the intruder |
| SchrodingersCrew.FirstRocketOnIs | Game/Rescue_v2.py:228-235 | those three facts pin down where it stops |
| SchrodingersCrew.IntruderPassSnoc | Game/Rescue_v2.py:223-235 | one more intruder of the loop |
| SchrodingersCrew.CrewMissed | Game/Rescue_v2.py:201-214 | what is left are crew members the ship does not touch |
| SchrodingersCrew.CrewMissedOmits | Game/Rescue_v2.py:201-214 | a touched crew member is not among them |
| SchrodingersCrew.Missed | Game/Rescue_v2.py:216-221 | what is left are rectangles the ship does not touch |
| SchrodingersCrew.MissedOmits | Game/Rescue_v2.py:216-221 | a touched rectangle is not among them |
| SchrodingersCrew.CrewPassFilters | Game/Rescue_v2.py:201-214 | every touched crew member is removed and the rest kept in order; a match scores 1, a mismatch costs 20 |
| SchrodingersCrew.MulSucc | Game/Rescue_v2.py:219 | one more hit adds one more damage |
| SchrodingersCrew.DamagePassFilters | Game/Rescue_v2.py:216-242 | the hazard and bullet loops keep the untouched ones and cost damage per touched one |
| SchrodingersCrew.PowerupPassFilters | Game/Rescue_v2.py:244-249 | the power-up loop keeps the untouched ones and heals per touched one |
| SchrodingersCrew.HealTimesCapped | Game/Rescue_v2.py:247 | n power-ups in a row give min(health + 30 n, 100), and health never exceeds 100 |
| SchrodingersCrew.IntruderPassHealth | Game/Rescue_v2.py:223-227 | each intruder touching the ship costs 40 |
| SchrodingersCrew.IntrudersLeft | Game/Rescue_v2.py:223-235 | the remaining intruders are the unvisited ones plus some visited ones, and nothing new |
| SchrodingersCrew.IntruderLeftStep | Game/Rescue_v2.py:223-235 | one intruder of the loop keeps those bounds |
| SchrodingersCrew.RocketsLeft | Game/Rescue_v2.py:228-235 | the rockets left were all fired |
| SchrodingersCrew.IntrudersPairOff | Game/Rescue_v2.py:222-235 | as many rockets go as intruders, and after the loop over the whole copy no remaining rocket touches a remaining intruder |
| SchrodingersCrew.IntrudersCount | Game/Rescue_v2.py:228-235 | each turn that finds a rocket removes one intruder and one rocket |
| SchrodingersCrew.IntrudersCleared | Game/Rescue_v2.py:222-235 | an intruder with more copies left than copies still to visit touches no remaining rocket |
| SchrodingersCrew.ClearedStep | Game/Rescue_v2.py:228-235 | one turn keeps that: a turn without a rocket clears the intruder, and rockets only go |
| SchrodingersCrew.MultisetStep | Game/Rescue_v2.py:223-235 | a copied intruder not yet removed is still in the list |
| SchrodingersCrew.CollisionsFacts | Game/Rescue_v2.py:200-249 | the score grows by the matching crew touched; health falls by the damage of everything touched, then heals up to 100; touched crew, hazards, bullets and power-ups are gone; intruders and rockets go in pairs, and no remaining rocket touches a remaining intruder |
| SchrodingersCrew.CollisionsKeepBounds | Game/Rescue_v2.py:200-249 | health stays at most 100 and the score never falls |
| SchrodingersCrew.Rescue.constructor | Game/Rescue_v2.py:48-81 | the game starts with a `|0>` ship, score 0, health 100 and empty lists |
| SchrodingersCrew.Rescue.ApplyGate | Game/Rescue_v2.py:91-111 | `apply_gate` does what `GateEffect` says and always sets the message timer to 60 |
| SchrodingersCrew.Rescue.RandomGate | Game/Rescue_v2.py:138-145 | the scheduled gate, if any, is applied |
| SchrodingersCrew.Rescue.MoveShip | Game/Rescue_v2.py:121-128 | each arrow key moves the ship by 5 |
| SchrodingersCrew.Rescue.FireRocket | Game/Rescue_v2.py:135-136 | space appends a rocket at the ship's centre |
| SchrodingersCrew.Rescue.ConstrainShip | Game/Rescue_v2.py:148 | the ship is clamped to the screen |
| SchrodingersCrew.Rescue.CrewCollisions | Game/Rescue_v2.py:201-214 | the crew loop does what `CrewPass` says |
| SchrodingersCrew.Rescue.HazardCollisions | Game/Rescue_v2.py:216-221 | the hazard loop does what `DamagePass` says |
| SchrodingersCrew.Rescue.IntruderCollisions | Game/Rescue_v2.py:223-235 | the intruder loop does what `IntruderPass` says |
| SchrodingersCrew.Rescue.FirstHit | Game/Rescue_v2.py:228-235 | the inner loop finds the first rocket on the intruder |
| SchrodingersCrew.Rescue.BulletCollisions | Game/Rescue_v2.py:237-242 | the bullet loop does what `DamagePass` says |
| SchrodingersCrew.Rescue.PowerupCollisions | Game/Rescue_v2.py:244-249 | the power-up loop does what `PowerupPass` says |
| SchrodingersCrew.Rescue.CollisionStep | Game/Rescue_v2.py:200-254 | the five loops run in order; health stays at most 100, the score never falls, and the game ends exactly when health is at most 0 |
| BubbleTrouble.Spawned | Game/bubbleTrobble.py:34-37 | a new bubble's flag matches its label, and a drawn position puts it on screen |
| BubbleTrouble.GateView | Game/bubbleTrobble.py:58-73 | the label follows the reference gate, only H touches the flag, and a coherent bubble stays coherent |
| BubbleTrouble.CollapseView | Game/bubbleTrobble.py:45-49 | a collapsed bubble holds a basis label as drawn and its flag is false |
| BubbleTrouble.GateViewInvolution | Game/bubbleTrobble.py:58-73 | the same gate twice restores a coherent bubble |
| BubbleTrouble.CollapseCoherent | Game/bubbleTrobble.py:45-49 | a collapsed bubble is coherent |
| BubbleTrouble.RemoveIndexes | Game/bubbleTrobble.py:109 | removing a bubble keeps the list's positions valid |
| BubbleTrouble.Indices | Game/bubbleTrobble.py:103 | the copy `bubbles[:]` lists every position once, in order |
| BubbleTrouble.ChainVisit | Game/bubbleTrobble.py:120-125 | one bubble of the chain reaction keeps the bubbles' views and valid positions; a hit removes the bubble for 5 |
| BubbleTrouble.ChainPass | Game/bubbleTrobble.py:119-125 | the chain reaction only changes the list and the score, and keeps the positions valid |
| BubbleTrouble.ChainSnoc | Game/bubbleTrobble.py:120-125 | one more bubble of the chain reaction |
| BubbleTrouble.ClickVisit | Game/bubbleTrobble.py:104-125 | one bubble of the click loop keeps the list's positions valid |
| BubbleTrouble.ClickPass | Game/bubbleTrobble.py:103-125 | the click loop keeps the list's positions valid |
| BubbleTrouble.ClickVisitClassical | Game/bubbleTrobble.py:113-125 | a classical bubble under the cursor bursts for 10 and sets off the chain reaction |
| BubbleTrouble.ClickSnoc | Game/bubbleTrobble.py:103-125 | one more bubble of the click loop |
| BubbleTrouble.Burst | Game/bubbleTrobble.py:101-125 | the click keeps the number of bubbles and a valid list |
| BubbleTrouble.FivesStep | Game/bubbleTrobble.py:110-125 | points in steps of 5 keep the score a multiple of 5 |
| BubbleTrouble.EarnsTrans | Game/bubbleTrobble.py:103-125 | "bubbles only taken away, each for at least 5, in steps of 5" composes |
| BubbleTrouble.ChainPassScore | Game/bubbleTrobble.py:119-125 | over any copy, the chain reaction only takes bubbles away, earns at least 5 per bubble taken and scores in steps of 5 |
| BubbleTrouble.ClickPassScore | Game/bubbleTrobble.py:103-125 | each bubble the click loop takes earns at least 5, in steps of 5 |
| BubbleTrouble.ClickVisitScore | Game/bubbleTrobble.py:104-125 | one bubble of the click loop earns as much |
| BubbleTrouble.BurstScore | Game/bubbleTrobble.py:101-125 | a click never lowers the score, adds a multiple of 5, and adds at least 5 per bubble taken |
| BubbleTrouble.SparedIn | Game/bubbleTrobble.py:120-122 | a listed bubble is spared exactly when it is superposed, is the burst one, or misses the inflated square |
| BubbleTrouble.ChainPrefix | Game/bubbleTrobble.py:119-125 | part way through the chain reaction the visited bubbles are filtered, the rest untouched, and each bubble taken earned exactly 5 |
| BubbleTrouble.ChainPassSpares | Game/bubbleTrobble.py:119-125 | the chain reaction takes exactly the classical bubbles other than the burst one that overlap `inflate(60, 60)`, keeps the rest in order, and earns exactly 5 for each one taken |
| BubbleTrouble.ClickVisitExact | Game/bubbleTrobble.py:104-125 | a bubble the click bursts itself earns 10, and a classical one takes exactly its chain-reaction neighbours for 5 each; any other bubble changes neither the list nor the score |
| BubbleTrouble.ClickPassExact | Game/bubbleTrobble.py:103-125 | the click loop's points are 10 per bubble it bursts itself plus 5 per other bubble that left the list |
| BubbleTrouble.BurstPoints | Game/bubbleTrobble.py:101-125 | a click adds exactly 10 per bubble burst by the click itself and 5 per bubble taken by a chain reaction |
| BubbleTrouble.AsWrittenVisit | Game/bubbleTrobble.py:104-118 | the loop as written raises `ValueError` on removing a bubble already taken |
| BubbleTrouble.AsWrittenPass | Game/bubbleTrobble.py:103-125 | the click loop as written, where it does not raise |
| BubbleTrouble.AsWrittenBurst | Game/bubbleTrobble.py:101-125 | the click as written, where it does not raise |
| BubbleTrouble.ChainVisitLive | Game/bubbleTrobble.py:120-125 | one bubble of the chain reaction only removes, keeps the list free of duplicates and never takes a superposed bubble |
| BubbleTrouble.ChainPassLive | Game/bubbleTrobble.py:119-125 | the same for the whole chain reaction |
| BubbleTrouble.SweptAfter | Game/bubbleTrobble.py:103-125 | the click loop's invariant moves past one bubble |
| BubbleTrouble.SweptSkip | Game/bubbleTrobble.py:104 | a bubble not under the cursor, or already taken, changes nothing |
| BubbleTrouble.SweptRemove | Game/bubbleTrobble.py:109 | removing a burst bubble keeps the invariant for the others |
| BubbleTrouble.SweptSuperposed | Game/bubbleTrobble.py:105-112 | a superposed bubble under the cursor is measured and burst if its coin says so |
| BubbleTrouble.SweptClassical | Game/bubbleTrobble.py:113-125 | a classical bubble under the cursor bursts with its chain reaction |
| BubbleTrouble.SweptStep | Game/bubbleTrobble.py:103-125 | one more bubble keeps the invariant, and the loop as written either raises there or agrees |
| BubbleTrouble.SweptPass | Game/bubbleTrobble.py:103-125 | the invariant and the agreement hold after every prefix of the copy |
| BubbleTrouble.BurstMeasures | Game/bubbleTrobble.py:104-112 | after a click every superposed bubble under the cursor is measured, the only bubbles under the cursor still on the board lost their coin toss, and no square moved |
| BubbleTrouble.AsWrittenAgrees | Game/bubbleTrobble.py:103-125 | the loop as written either raises or ends exactly where the corrected loop ends |
| BubbleTrouble.DoubleBurstRaises | Game/bubbleTrobble.py:103-123 | two classical bubbles on one square, clicked: the loop as written raises |
| BubbleTrouble.DoubleBurstCorrected | Game/bubbleTrobble.py:103-125 | the same click on the corrected loop bursts both for 10 + 5 |
| BubbleTrouble.Bubble.constructor | Game/bubbleTrobble.py:34-37 | a new bubble holds what `Spawned` says |
| BubbleTrouble.Bubble.Collapse | Game/bubbleTrobble.py:45-49 | `collapse` does what `CollapseView` says |
| BubbleTrouble.Bubble.ApplyGate | Game/bubbleTrobble.py:58-73 | `apply_gate` does what `GateView` says |
| BubbleTrouble.Views | Game/bubbleTrobble.py:52 | one view per bubble, in order |
| BubbleTrouble.PickAt | Game/bubbleTrobble.py:103 | the k-th remaining bubble is the one at the k-th remaining position |
| BubbleTrouble.PickIn | Game/bubbleTrobble.py:103 | a bubble is in the list exactly when its position is |
| BubbleTrouble.PickRemove | Game/bubbleTrobble.py:109 | removing a bubble by identity removes its position |
| BubbleTrouble.PickValid | Game/bubbleTrobble.py:103-125 | the remaining bubbles are coherent and on screen |
| BubbleTrouble.ChainStep | Game/bubbleTrobble.py:120-125 | one bubble of the chain reaction on the objects matches `ChainVisit` |
| BubbleTrouble.Game.constructor | Game/bubbleTrobble.py:52-77 | the game starts empty, with score and timer 0 |
| BubbleTrouble.Game.ApplyToAll | Game/bubbleTrobble.py:90-98 | a gate key changes every bubble as `GateView` says |
| BubbleTrouble.Game.Chain | Game/bubbleTrobble.py:119-125 | the chain reaction on the list does what `ChainPass` says |
| BubbleTrouble.Game.BurstClassical | Game/bubbleTrobble.py:113-125 | a classical burst on the list does what `ClickVisit` says |
| BubbleTrouble.Game.VisitBubble | Game/bubbleTrobble.py:104-125 | one bubble of the click loop on the list does what `ClickVisit` says |
| BubbleTrouble.Game.ClickLoop | Game/bubbleTrobble.py:103-125 | the click loop on the list does what `Burst` says |
| BubbleTrouble.Game.Click | Game/bubbleTrobble.py:100-125 | a click leaves the bubbles and score `Burst` says, with burst bubbles skipped |
| BubbleTrouble.Game.Frame | Game/bubbleTrobble.py:81-134 | a frame keeps every bubble coherent and on screen and never lowers the score |
| BubbleTrouble.Game.Spawn | Game/bubbleTrobble.py:127-134 | the timer counts to 60 and wraps to 0, appending exactly one new bubble when it wraps |
| QuantumRescue.KeyGate | Game/Rescue.py:77-99 | the label follows the reference gate; X and Z keep the flag; H sets it exactly for a superposition; the invariant is kept |
| QuantumRescue.KeyGateInvolution | Game/Rescue.py:77-99 | the same key twice restores label and flag |
| QuantumRescue.SpawnCrew | Game/Rescue.py:37-41 | a new crew member is unsaved, at x = 800, 30 x 20, on screen for every drawn y |
| QuantumRescue.Drifted | Game/Rescue.py:49-51 | `move_crew` moves every crew member 2 to the left and changes nothing else |
| QuantumRescue.Meet | Game/Rescue.py:55-62 | a met crew member is saved exactly when its label matches and goes to x = -100; one not met is unchanged |
| QuantumRescue.MeetAll | Game/Rescue.py:53-62 | `check_rescue` treats each crew member on its own |
| QuantumRescue.MeetAllSaves | Game/Rescue.py:53-62 | the crew members saved are exactly the ones scored for |
| QuantumRescue.MeetClears | Game/Rescue.py:62 | a met crew member no longer meets the ship |
| QuantumRescue.NoneMet | Game/Rescue.py:53-62 | nobody met scores nothing |
| QuantumRescue.MeetOnce | Game/Rescue.py:53-62 | each crew member is met at most once: a second pass changes and scores nothing |
| QuantumRescue.TallySnoc | Game/Rescue.py:55-61 | one more crew member of the loop |
| QuantumRescue.FrameKeepsCrew | Game/Rescue.py:49-62 | drifting and meeting keep saved crew parked and every crew member its size |
| QuantumRescue.Rescue.constructor | Game/Rescue.py:19-31 | the game starts in `|0>`, score 0, ship at (100, 280), no crew |
| QuantumRescue.Rescue.Keys | Game/Rescue.py:73-99 | UP and DOWN move the ship by 5 vertically only, then the X, Z and H keys act in that order |
| QuantumRescue.Rescue.GateKey | Game/Rescue.py:77-99 | one gate key does what `KeyGate` says |
| QuantumRescue.Rescue.SpawnTick | Game/Rescue.py:101-105 | every 120th frame one crew member is appended and the timer wraps to 0 |
| QuantumRescue.Rescue.MoveCrew | Game/Rescue.py:49-51 | `move_crew` does what `Drifted` says |
| QuantumRescue.Rescue.CheckRescue | Game/Rescue.py:53-62 | `check_rescue` does what `MeetAll` says; the score rises by the matches and falls by the mismatches |
| QuantumRescue.Rescue.Frame | Game/Rescue.py:65-108 | a frame keeps the invariant and the ship's x at 100, and adds at most one crew member |

## Left out

- Drawing, sounds, fonts, images, the event loop, `clock.tick`, and the
  blocking screens of Game/maze.py (lines 79-117) are presentation only.
- Message strings are left out; message timers are kept only where a gate
  sets them (Rescue_v2, Rescue_v3). The per-frame countdown of the timers
  (Game/Rescue_v2.py:294-297 and Game/Rescue_v3.py:375-378) is left
  out.
- Probabilities are not modelled. Every random draw is an input, so no
  statement says how likely an outcome is.
- Floating point is left out. `Cannon.shoot` and `Cannon.update`
  (Game/Rescue_v4.py:102-121) compute the shot path with `cos` and `sin`.
  The model takes the point where the shot reached the grid as an input,
  and `Cannon.Shoot` states only the shooting flag.
- Game/Rescue_v2.py spawning and scrolling of crew, hazards, intruders,
  bullets and power-ups (lines 150-198) are left out. They only append
  drawn rectangles and move them.
- Game/Rescue_v3.py enemy scrolling in quantum mode (lines 224-239),
  spawning (258-289), movement and the off-screen filters (291-313) are
  left out for the same reason. The twin's own health is left out too.
  The model covers the ship, its gates, its measurement and the collision
  step.
- Game/bubbleTrobble.py holding the mouse button across frames is not
  modelled separately. Each frame with the button down is one click.
- `nb != b` in Game/bubbleTrobble.py:121 compares objects by identity, and
  the model compares positions in the click's copy instead. Because `b` was
  removed just before the chain reaction's copy is taken, the test always
  holds there.
- Game/Rescue.py never removes crew members from its list. The model
  keeps them too; saved and missed ones simply stay parked.
- Game/maze.py's win test (`has_key` and touching the exit, lines 256-258)
  is the predicate `Maze.Escaped`. No lemma is stated about it beyond
  what `CollectKeys` gives for `has_key`.
- BubbleTrouble.ChainPass: its own contract keeps only the bubbles and
  valid positions. Which bubbles it takes and what it scores on the click's
  list is stated by `ChainPassSpares`.
- BubbleTrouble.Burst: its own contract keeps only the number of bubbles
  and valid positions. Its points are stated by `BurstPoints`, its
  measurements by `BurstMeasures`, and each step by `ClickVisitExact`.
- BubbleTrouble.ChainPassScore: it holds for any copy, duplicates
  included, so it gives a lower bound. The exact points are in
  `ChainPassSpares`.
- BubbleTrouble.ClickPassScore: a lower bound for the same reason. The
  exact points are in `ClickPassExact`.
- BubbleTrouble.BurstScore: a lower bound, used for the score invariant of
  `Game`. The exact points are in `BurstPoints`.
- Lists.RemoveFirst: it returns the list unchanged when the element is
  absent, where Python's `list.remove` raises `ValueError`. Every caller
  either proves the element present or models the raise itself, as
  `BubbleTrouble.AsWrittenVisit` does.
- BubbleBurst.Cannon.Shoot: it states only that a shot is in flight and
  that the angle and label are kept. The velocity is floating point.
- BubbleTrouble.Game.Frame: it states that the invariant holds and the
  score does not fall, not the whole new list. The whole effect of each
  part is stated by `ApplyToAll`, `Click` and `Spawn`.
- QuantumRescue.Rescue.Frame: it states the invariant, the ship's column
  and the crew-size bound. The whole effect of each part is stated by
  `Keys`, `SpawnTick`, `MoveCrew` and `CheckRescue`.

## Findings

| source | as written | input that shows it | evidently intended | confidence | as-written member | corrected member |
|---|---|---|---|---|---|---|
| Game/bubbleTrobble.py:103-123 | The click loop walks a copy of the bubble list. A classical bubble that an earlier burst's chain reaction already removed is still visited. If it is under the cursor, `bubbles.remove(b)` runs on it a second time and raises `ValueError`. | Two classical `|0>` bubbles at (100, 100), 40 x 40, and a click at (110, 110). The first bursts and its chain reaction removes the second, which the loop then tries to remove again. | Bubbles a chain reaction already took are skipped. The click then bursts both, for 10 + 5 points. | not executed | BubbleTrouble.DoubleBurstRaises | BubbleTrouble.DoubleBurstCorrected |

`BubbleTrouble.AsWrittenBurst` models the loop as written, with the raise as
`None`. `BubbleTrouble.Burst` is the corrected loop, which skips bubbles no
longer in the list. `AsWrittenAgrees` proves that the two differ only by
the raise. `Game.Click` implements the corrected loop, and `BurstScore`
and `BurstMeasures` are proved about it.
