/** The balance gates `Abalance` and `Bbalance`: may one cell leave side
    A (respectively B) without either side leaving the size window
    [(1 - b)/2 * n, (1 + b)/2 * n]?  The balance factor `b` is an exact
    real here. */
module Balance {

  function LowerBound(n: int, b: real): real {
    (1.0 - b) / 2.0 * n as real
  }

  function UpperBound(n: int, b: real): real {
    (1.0 + b) / 2.0 * n as real
  }

  /** A side of this size lies in the balance window. */
  predicate InWindow(size: int, n: int, b: real) {
    LowerBound(n, b) <= size as real <= UpperBound(n, b)
  }

  /** Gate for moving a cell from A to B, evaluated on the sizes before the move. */
  function Abalance(size0: int, size1: int, n: int, b: real): (r: bool)
    ensures r <==> InWindow(size0 - 1, n, b) && InWindow(size1 + 1, n, b)
  {
    var lb := LowerBound(n, b);
    var ub := UpperBound(n, b);
    var meetlb := (size0 - 1) as real >= lb && (size1 + 1) as real >= lb;
    var meetub := (size0 - 1) as real <= ub && (size1 + 1) as real <= ub;
    meetlb && meetub
  }

  /** Gate for moving a cell from B to A. */
  function Bbalance(size0: int, size1: int, n: int, b: real): (r: bool)
    ensures r <==> InWindow(size0 + 1, n, b) && InWindow(size1 - 1, n, b)
  {
    var lb := LowerBound(n, b);
    var ub := UpperBound(n, b);
    var meetlb := (size0 + 1) as real >= lb && (size1 - 1) as real >= lb;
    var meetub := (size0 + 1) as real <= ub && (size1 - 1) as real <= ub;
    meetlb && meetub
  }

  /** The gate for the cell's own side. */
  function MayLeave(part: bool, size0: int, size1: int, n: int, b: real): bool {
    if part then Bbalance(size0, size1, n, b) else Abalance(size0, size1, n, b)
  }

  /** Bbalance is Abalance with the sides swapped. */
  lemma BbalanceMirrorsAbalance(size0: int, size1: int, n: int, b: real)
    ensures Bbalance(size0, size1, n, b) == Abalance(size1, size0, n, b)
  {
  }

  /** With 0 <= b <= 1 the lower bound is not negative, so a passing gate
      implies the side being left is not empty. */
  lemma {:induction false} GateNeedsSourceCell(size0: int, size1: int, n: nat, b: real)
    requires 0.0 <= b <= 1.0
    ensures Abalance(size0, size1, n, b) ==> size0 >= 1
    ensures Bbalance(size0, size1, n, b) ==> size1 >= 1
  {
    assert LowerBound(n, b) >= 0.0 by {
      assert 1.0 - b >= 0.0;
      MulNonNegative((1.0 - b) / 2.0, n as real);
    }
  }

  lemma MulNonNegative(x: real, y: real)
    requires x >= 0.0 && y >= 0.0
    ensures x * y >= 0.0
  {
  }

  /** After a move that passed its gate, the two sides differ by at most
      b * n. */
  lemma {:induction false} GateBoundsImbalance(size0: int, size1: int, n: nat, b: real)
    ensures Abalance(size0, size1, n, b) ==>
      -(b * n as real) <= ((size0 - 1) - (size1 + 1)) as real <= b * n as real
    ensures Bbalance(size0, size1, n, b) ==>
      -(b * n as real) <= ((size0 + 1) - (size1 - 1)) as real <= b * n as real
  {
    assert UpperBound(n, b) - LowerBound(n, b) == b * n as real;
  }
}
