/** The four basis labels shared by every game and the reference action of the
    three gates on them.  No amplitudes are involved: X, Z and H are modelled as
    permutations of the labels |0>, |1>, |+> and |->. */
module Quantum {
  import opened Optional

  datatype QState = Zero | One | Plus | Minus

  datatype Gate = X | Z | H

  /** |0> and |1> */
  predicate IsBasis(s: QState) {
    s == Zero || s == One
  }

  /** |+> and |-> */
  predicate IsSuperposition(s: QState) {
    s == Plus || s == Minus
  }

  /** Pauli-X: swaps |0> and |1>, leaves |+> and |-> alone. */
  function PauliX(s: QState): (r: QState)
    ensures IsBasis(r) == IsBasis(s)
    ensures IsBasis(s) ==> r != s
    ensures IsSuperposition(s) ==> r == s
  {
    match s
    case Zero => One
    case One => Zero
    case _ => s
  }

  /** Pauli-Z: swaps |+> and |->, leaves |0> and |1> alone. */
  function PauliZ(s: QState): (r: QState)
    ensures IsSuperposition(r) == IsSuperposition(s)
    ensures IsSuperposition(s) ==> r != s
    ensures IsBasis(s) ==> r == s
  {
    match s
    case Plus => Minus
    case Minus => Plus
    case _ => s
  }

  /** Hadamard: the permutation 0 <-> +, 1 <-> -. */
  function Hadamard(s: QState): (r: QState)
    ensures IsSuperposition(r) <==> IsBasis(s)
    ensures IsBasis(r) <==> IsSuperposition(s)
  {
    match s
    case Zero => Plus
    case One => Minus
    case Plus => Zero
    case Minus => One
  }

  /** The reference action of a gate. */
  function Apply(s: QState, g: Gate): QState
  {
    match g
    case X => PauliX(s)
    case Z => PauliZ(s)
    case H => Hadamard(s)
  }

  /** The value a twin holds: the other superposition label. */
  function Paired(s: QState): (r: QState)
    requires IsSuperposition(s)
    ensures IsSuperposition(r) && r != s
  {
    if s == Plus then Minus else Plus
  }

  lemma PauliXInvolution(s: QState)
    ensures PauliX(PauliX(s)) == s
  {
  }

  lemma PauliZInvolution(s: QState)
    ensures PauliZ(PauliZ(s)) == s
  {
  }

  lemma HadamardInvolution(s: QState)
    ensures Hadamard(Hadamard(s)) == s
  {
  }

  /** Every gate is undone by applying it once more. */
  lemma ApplyInvolution(s: QState, g: Gate)
    ensures Apply(Apply(s, g), g) == s
  {
  }

  /** H conjugates X into Z: H X H = Z on the labels. */
  lemma HadamardConjugatesXToZ(s: QState)
    ensures Hadamard(PauliX(Hadamard(s))) == PauliZ(s)
  {
  }

  /** The random gate the scrolling games apply each frame, from a draw in
      [0, 300]: at most one gate. */
  function ScheduledGate(draw: int): (g: Option<Gate>)
    ensures g == Some(X) <==> draw == 100 || draw == 200
    ensures g == Some(Z) <==> draw == 50 || draw == 250
    ensures g == Some(H) <==> draw == 150
  {
    if draw == 100 || draw == 200 then Some(X)
    else if draw == 50 || draw == 250 then Some(Z)
    else if draw == 150 then Some(H)
    else None
  }
}
