/** The board's geometry and colour codes.

    A board of side `size` is stored row by row in one flat sequence, with rows `dy == size + 1`
    apart: one column of wall serves as the right edge of one row and the left edge of the next. */
module Grid {
  const EMPTY := 0
  const BLACK := 1
  const WHITE := 2
  const WALL := 3

  /** The location that stands for a pass; it is also a corner of the wall. */
  const PASS := 0

  datatype Option<T> = None | Some(value: T)

  predicate Stone(c: int) { c == BLACK || c == WHITE }

  function Opp(pla: int): int { 3 - pla }

  /** The four neighbours of p, in the order in which every loop visits them. */
  function Nbr(dy: int, p: int, i: int): int
  {
    if i == 0 then p - dy else if i == 1 then p - 1 else if i == 2 then p + 1 else p + dy
  }

  predicate Adj(dy: int, p: int, q: int)
  {
    q == p - dy || q == p - 1 || q == p + 1 || q == p + dy
  }

  predicate Touches(dy: int, p: int, X: set<int>)
  {
    p - dy in X || p - 1 in X || p + 1 in X || p + dy in X
  }

  lemma NbrAdj(dy: int, p: int, i: int)
    requires 0 <= i < 4
    ensures Adj(dy, p, Nbr(dy, p, i)) && Adj(dy, Nbr(dy, p, i), p)
  {
  }

  lemma TouchesWitness(dy: int, p: int, X: set<int>) returns (q: int)
    requires Touches(dy, p, X)
    ensures q in X && Adj(dy, p, q) && Adj(dy, q, p)
  {
    q := if p - dy in X then p - dy else if p - 1 in X then p - 1 else if p + 1 in X then p + 1 else p + dy;
  }

  lemma AdjTouches(dy: int, p: int, q: int, X: set<int>)
    requires Adj(dy, p, q) && q in X
    ensures Touches(dy, p, X)
  {
    if q == p - dy {
    } else if q == p - 1 {
    } else if q == p + 1 {
    } else {
    }
  }

  lemma SomeMember(X: set<int>) returns (k: int)
    requires X != {}
    ensures k in X
  {
    var T := set m | m in X && m <= 0;
    assert X == T + (X - T);
    k :| k in X;
  }

  /** A colouring: codes 0..3, and everything that is not wall has its four neighbours in range. */
  ghost predicate Coloured(dy: int, b: seq<int>)
  {
    && dy >= 3
    && forall p :: 0 <= p < |b| ==> 0 <= b[p] <= 3 && (b[p] != WALL ==> dy < p && p + dy < |b|)
  }

  /** All points of one colour. */
  ghost function Pts(b: seq<int>, c: int): set<int>
  {
    set p | 0 <= p < |b| && b[p] == c
  }

  /** The empty points next to a set of points. */
  ghost function Libs(dy: int, b: seq<int>, X: set<int>): set<int>
  {
    set e | 0 <= e < |b| && b[e] == EMPTY && Touches(dy, e, X)
  }

  /** Take the stones of a set off the board. */
  ghost function Clear(b: seq<int>, X: set<int>): (r: seq<int>)
    ensures |r| == |b|
    ensures forall p :: 0 <= p < |b| ==> r[p] == if p in X then EMPTY else b[p]
  {
    seq(|b|, p requires 0 <= p < |b| => if p in X then EMPTY else b[p])
  }

  // ----- where the wall is

  function Loc(size: int, x: int, y: int): int { (x + 1) + (size + 1) * (y + 1) }

  function LocX(size: int, loc: int): int
    requires size >= 0
  {
    loc % (size + 1) - 1
  }

  function LocY(size: int, loc: int): int
    requires size >= 0
  {
    loc / (size + 1) - 1
  }

  function ArrSize(size: int): int { (size + 1) * (size + 2) + 1 }

  /** The points of the board proper: not in the first or last row of the array, nor in column 0. */
  predicate OnBoard(size: int, p: int)
    requires size >= 0
  {
    size + 1 < p < (size + 1) * (size + 1) && p % (size + 1) != 0
  }

  ghost predicate Walled(size: int, b: seq<int>)
    requires size >= 0
  {
    |b| == ArrSize(size) && forall p :: 0 <= p < |b| ==> (b[p] == WALL <==> !OnBoard(size, p))
  }

  lemma MulMono(d: int, a: int, b: int)
    requires d > 0 && a < b
    ensures d * a + d <= d * b
  {
    assert d * b == d * a + d + d * (b - a - 1);
  }

  lemma DivideUniquely(d: int, q: int, k: int, m: int, r: int)
    requires d > 0 && 0 <= k < d && 0 <= r < d
    requires d * q + k == d * m + r
    ensures q == m && k == r
  {
    if q < m {
      MulMono(d, q, m);
    } else if m < q {
      MulMono(d, m, q);
    }
  }

  lemma MulDiv(d: int, m: int, r: int)
    requires d > 0 && 0 <= r < d
    ensures (d * m + r) / d == m && (d * m + r) % d == r
  {
    var n := d * m + r;
    assert n == d * (n / d) + n % d;
    DivideUniquely(d, n / d, n % d, m, r);
  }

  /** The points of the board proper are exactly the locations of coordinates within the size. */
  lemma OnBoardIffCoordinates(size: int, p: int)
    requires size >= 1
    ensures OnBoard(size, p) <==> exists x, y :: 0 <= x < size && 0 <= y < size && p == Loc(size, x, y)
  {
    if OnBoard(size, p) {
      var x, y := Coordinates(size, p);
    }
    if x, y :| 0 <= x < size && 0 <= y < size && p == Loc(size, x, y) {
      LocOnBoard(size, x, y);
    }
  }

  lemma Coordinates(size: int, p: int) returns (x: int, y: int)
    requires size >= 1 && OnBoard(size, p)
    ensures 0 <= x < size && 0 <= y < size && p == Loc(size, x, y)
    ensures x == LocX(size, p) && y == LocY(size, p)
  {
    var d := size + 1;
    var q, r := p / d, p % d;
    assert p == d * q + r;
    x, y := r - 1, q - 1;
    if q < 1 {
      MulMono(d, q, 1);
    }
    if q > size {
      MulMono(d, size, q);
    }
  }

  lemma LocOnBoard(size: int, x: int, y: int)
    requires size >= 1 && 0 <= x < size && 0 <= y < size
    ensures OnBoard(size, Loc(size, x, y)) && 0 <= Loc(size, x, y) < ArrSize(size)
  {
    var d := size + 1;
    MulDiv(d, y + 1, x + 1);
    MulMono(d, y, y + 1);
    MulMono(d, y + 1, d);
    MulMono(d, 0, d);
    if y > 0 {
      MulMono(d, 0, y);
    }
  }

  /** Between the last point of a row and the first of the next there is wall. */
  lemma RowEnd(size: int, y: int)
    requires size >= 1
    ensures Loc(size, size, y) + 1 == Loc(size, 0, y + 1)
    ensures !OnBoard(size, Loc(size, size, y))
  {
    MulDiv(size + 1, y + 2, 0);
  }

  /** A scan over the rows covers the whole board. */
  lemma ScanEnds(size: int)
    requires size >= 1
    ensures forall p :: p < Loc(size, 0, 0) || p >= Loc(size, 0, size) ==> !OnBoard(size, p)
    ensures Loc(size, 0, size) <= ArrSize(size)
  {
    assert Loc(size, 0, 0) == size + 2;
    assert Loc(size, 0, size) == 1 + (size + 1) * (size + 1);
    MulMono(size + 1, size + 1, size + 2);
  }

  /** How an index reads an array when negative indices count from its end. */
  function FromEnd(i: int, n: int): int { if i < 0 then n + i else i }

  /** The neighbours of the pass location are all wall. */
  lemma PassNbrs(size: int, b: seq<int>, i: int)
    requires size >= 2 && Walled(size, b) && 0 <= i < 4
    ensures 0 <= FromEnd(Nbr(size + 1, PASS, i), |b|) < |b|
    ensures b[FromEnd(Nbr(size + 1, PASS, i), |b|)] == WALL
  {
    assert (size + 1) * (size + 2) == (size + 1) * (size + 1) + size + 1;
    assert !OnBoard(size, FromEnd(Nbr(size + 1, PASS, i), |b|));
  }

  lemma WalledColoured(size: int, b: seq<int>)
    requires size >= 2 && Walled(size, b) && forall p :: 0 <= p < |b| ==> 0 <= b[p] <= 3
    ensures Coloured(size + 1, b)
  {
    var d := size + 1;
    forall p | 0 <= p < |b| && b[p] != WALL
      ensures d < p && p + d < |b|
    {
      assert (size + 1) * (size + 2) == d * d + d;
    }
  }
}
