/** Adjacency tables of a flattened `size` × `size` go board (go.py `make_boxes`,
    `make_neighbors`, `NEIGHBORS`, `BOXES`; gomcts/godata.py `make_neighbors`, `NEIGHBORS`).
    Point `pt` lies in row `pt / size` and column `pt % size`. */
module Adjacency {
  import opened Wrappers

  /** The board sizes the module-level tables are built for: `range(9, 26, 2)`. */
  predicate TableSize(n: int) {
    9 <= n <= 25 && n % 2 == 1
  }

  predicate OnBoard(size: nat, pt: int) {
    0 <= pt < size * size
  }

  // The eight directions of go.py's make_boxes: `None` where the direction leaves the board.

  function Up(size: nat, pt: int): Option<int> {
    if pt < size then None else Some(pt - size)
  }

  function Down(size: nat, pt: int): Option<int> {
    if pt >= size * (size - 1) then None else Some(pt + size)
  }

  function Left(size: nat, pt: int): Option<int>
    requires size > 0
  {
    if pt % size == 0 then None else Some(pt - 1)
  }

  function Right(size: nat, pt: int): Option<int>
    requires size > 0
  {
    if (pt + 1) % size == 0 then None else Some(pt + 1)
  }

  function UpLeft(size: nat, pt: int): Option<int>
    requires size > 0
  {
    if pt < size || pt % size == 0 then None else Some(pt - size - 1)
  }

  function UpRight(size: nat, pt: int): Option<int>
    requires size > 0
  {
    if pt < size || (pt + 1) % size == 0 then None else Some(pt - size + 1)
  }

  function DownLeft(size: nat, pt: int): Option<int>
    requires size > 0
  {
    if pt >= size * (size - 1) || pt % size == 0 then None else Some(pt + size - 1)
  }

  function DownRight(size: nat, pt: int): Option<int>
    requires size > 0
  {
    if pt >= size * (size - 1) || (pt + 1) % size == 0 then None else Some(pt + size + 1)
  }

  /** `[pt for pt in xs if pt is not None]`. */
  function Present(xs: seq<Option<int>>): (r: seq<int>)
    ensures |r| <= |xs|
  {
    if xs == [] then []
    else (if xs[0].Some? then [xs[0].value] else []) + Present(xs[1..])
  }

  /** The orthogonal neighbours make_boxes yields for `pt`: up, down, left, right. */
  function Neighbours(size: nat, pt: int): seq<int>
    requires size > 0
  {
    Present([Up(size, pt), Down(size, pt), Left(size, pt), Right(size, pt)])
  }

  /** The diagonal neighbours make_boxes yields for `pt`: up-left, up-right, down-right,
      down-left. */
  function Diagonals(size: nat, pt: int): seq<int>
    requires size > 0
  {
    Present([UpLeft(size, pt), UpRight(size, pt), DownRight(size, pt), DownLeft(size, pt)])
  }

  /** gomcts/godata.py's make_neighbors: `np.array(up + down + left + right)` of one-element or
      empty lists. */
  function GodataNeighbours(size: nat, pt: int): seq<int>
    requires size > 0
  {
    var up := if pt < size then [] else [pt - size];
    var down := if pt >= size * (size - 1) then [] else [pt + size];
    var left := if pt % size == 0 then [] else [pt - 1];
    var right := if (pt + 1) % size == 0 then [] else [pt + 1];
    up + down + left + right
  }

  /** `NEIGHBORS[size]`: every board point mapped to its neighbour list. */
  function NeighbourTable(size: nat): (t: map<int, seq<int>>)
    requires size > 0
  {
    map pt | 0 <= pt < size * size :: Neighbours(size, pt)
  }

  /** `BOXES[size]`: every board point mapped to its neighbours and diagonals. */
  function BoxTable(size: nat): (t: map<int, (seq<int>, seq<int>)>)
    requires size > 0
  {
    map pt | 0 <= pt < size * size :: (Neighbours(size, pt), Diagonals(size, pt))
  }

  /** The point in row `r` and column `c`. */
  function At(size: nat, r: int, c: int): int {
    r * size + c
  }

  /** The list a direction contributes: its point, or nothing off the board. */
  function Listed(o: Option<int>): seq<int> {
    if o.Some? then [o.value] else []
  }

  /** A point away from every edge has all four orthogonal neighbours, in the order up, down,
      left, right. */
  lemma InteriorNeighbours(size: nat, pt: int)
    requires size > 0 && size <= pt < size * (size - 1) && pt % size != 0 && (pt + 1) % size != 0
    ensures Neighbours(size, pt) == [pt - size, pt + size, pt - 1, pt + 1]
  {
    NeighboursListed(size, pt);
  }

  lemma PresentCons(o: Option<int>, xs: seq<Option<int>>)
    ensures Present([o] + xs) == Listed(o) + Present(xs)
  {
    assert ([o] + xs)[1..] == xs;
  }

  lemma PresentFour(a: Option<int>, b: Option<int>, c: Option<int>, d: Option<int>)
    ensures Present([a, b, c, d]) == Listed(a) + Listed(b) + Listed(c) + Listed(d)
  {
    var xs := [a, b, c, d];
    PresentCons(d, []);
    PresentCons(c, xs[3..]);
    PresentCons(b, xs[2..]);
    PresentCons(a, xs[1..]);
    assert xs[3..] == [d] + [] && xs[2..] == [c] + xs[3..] && xs[1..] == [b] + xs[2..] && xs == [a] + xs[1..];
  }



  lemma MulSign(d: int, size: nat)
    ensures d >= 0 ==> d * size >= 0
    ensures d >= 1 ==> d * size >= size
    ensures d <= -1 ==> d * size <= -(size as int)
  {
    if d >= 1 {
      assert d * size == (d - 1) * size + size;
    } else if d <= -1 {
      assert (-d) * size >= size by {
        assert (-d) * size == (-d - 1) * size + size;
      }
    }
  }

  lemma DivModUnique(size: nat, p: int, q: int, m: int)
    requires size > 0 && 0 <= m < size && p == q * size + m
    ensures p / size == q && p % size == m
  {
    var q', m' := p / size, p % size;
    assert (q - q') * size == m' - m;
    MulSign(q - q', size);
  }

  /** Row and column recover a point's coordinates. */
  lemma Coordinates(size: nat, r: int, c: int)
    requires 0 <= r < size && 0 <= c < size
    ensures 0 <= At(size, r, c) < size * size
    ensures At(size, r, c) / size == r && At(size, r, c) % size == c
  {
    MulSign(r, size);
    MulSign(size - 1 - r, size);
    assert (size - 1 - r) * size == size * size - size - r * size;
    DivModUnique(size, At(size, r, c), r, c);
  }

  /** Every board point has coordinates on the board. */
  lemma RowInRange(size: nat, pt: int)
    requires size > 0 && OnBoard(size, pt)
    ensures 0 <= pt / size < size && pt == At(size, pt / size, pt % size)
  {
    MulSign(pt / size, size);
    MulSign(pt / size - size, size);
    assert (pt / size - size) * size == (pt / size) * size - size * size;
  }

  /** The top and bottom edge tests of make_boxes, read as rows. */
  lemma RowTests(size: nat, r: int, c: int)
    requires 0 <= r < size && 0 <= c < size
    ensures At(size, r, c) < size <==> r == 0
    ensures At(size, r, c) >= size * (size - 1) <==> r == size - 1
  {
    MulSign(r, size);
    MulSign(size - 1 - r, size);
    MulSign(size - 2 - r, size);
    assert (size - 1 - r) * size == size * (size - 1) - r * size;
    assert (size - 2 - r) * size == size * (size - 1) - size - r * size;
  }

  /** The left and right edge tests of make_boxes, read as columns. */
  lemma ColumnTests(size: nat, r: int, c: int)
    requires 0 <= r < size && 0 <= c < size
    ensures At(size, r, c) % size == 0 <==> c == 0
    ensures (At(size, r, c) + 1) % size == 0 <==> c == size - 1
  {
    Coordinates(size, r, c);
    if c < size - 1 {
      DivModUnique(size, At(size, r, c) + 1, r, c + 1);
    } else {
      assert At(size, r, c) + 1 == (r + 1) * size;
      DivModUnique(size, At(size, r, c) + 1, r + 1, 0);
    }
  }

  /** make_boxes by coordinates: for the point in row `r`, column `c`, the neighbour list holds
      the points one row up, one row down, one column left and one column right, in that order,
      each exactly when it exists on the board. */
  lemma NeighboursByCoordinates(size: nat, r: int, c: int)
    requires 0 <= r < size && 0 <= c < size
    ensures Neighbours(size, At(size, r, c)) ==
      (if r > 0 then [At(size, r - 1, c)] else []) +
      (if r < size - 1 then [At(size, r + 1, c)] else []) +
      (if c > 0 then [At(size, r, c - 1)] else []) +
      (if c < size - 1 then [At(size, r, c + 1)] else [])
  {
    var p := At(size, r, c);
    PresentFour(Up(size, p), Down(size, p), Left(size, p), Right(size, p));
    RowTests(size, r, c);
    ColumnTests(size, r, c);
    assert p - size == At(size, r - 1, c);
    assert p + size == At(size, r + 1, c);
  }

  /** make_boxes's diagonals by coordinates: up-left, up-right, down-right, down-left, each
      exactly when it exists on the board. */
  lemma DiagonalsByCoordinates(size: nat, r: int, c: int)
    requires 0 <= r < size && 0 <= c < size
    ensures Diagonals(size, At(size, r, c)) ==
      (if r > 0 && c > 0 then [At(size, r - 1, c - 1)] else []) +
      (if r > 0 && c < size - 1 then [At(size, r - 1, c + 1)] else []) +
      (if r < size - 1 && c < size - 1 then [At(size, r + 1, c + 1)] else []) +
      (if r < size - 1 && c > 0 then [At(size, r + 1, c - 1)] else [])
  {
    var p := At(size, r, c);
    PresentFour(UpLeft(size, p), UpRight(size, p), DownRight(size, p), DownLeft(size, p));
    RowTests(size, r, c);
    ColumnTests(size, r, c);
    assert (r - 1) * size == r * size - size;
    assert (r + 1) * size == r * size + size;
  }

  /** Two coordinate pairs on the board name the same point only when they are equal. */
  lemma AtInjective(size: nat, r: int, c: int, r': int, c': int)
    requires 0 <= r < size && 0 <= c < size && 0 <= r' < size && 0 <= c' < size
    ensures At(size, r, c) == At(size, r', c') <==> r == r' && c == c'
  {
    Coordinates(size, r, c);
    Coordinates(size, r', c');
  }

  /** Orthogonal adjacency on the board, stated by coordinates. */
  predicate Adjacent(size: nat, p: int, q: int)
    requires size > 0
  {
    OnBoard(size, p) && OnBoard(size, q) &&
    Distance(p / size, q / size) + Distance(p % size, q % size) == 1
  }

  /** Diagonal adjacency on the board, stated by coordinates. */
  predicate Diagonal(size: nat, p: int, q: int)
    requires size > 0
  {
    OnBoard(size, p) && OnBoard(size, q) &&
    Distance(p / size, q / size) == 1 && Distance(p % size, q % size) == 1
  }

  function Distance(a: int, b: int): nat {
    if a <= b then b - a else a - b
  }

  /** One point against another, both by coordinates. */
  lemma AdjacentAt(size: nat, r: int, c: int, r': int, c': int)
    requires 0 <= r < size && 0 <= c < size && 0 <= r' < size && 0 <= c' < size
    ensures At(size, r', c') in Neighbours(size, At(size, r, c)) <==>
      Distance(r, r') + Distance(c, c') == 1
    ensures At(size, r', c') in Diagonals(size, At(size, r, c)) <==>
      Distance(r, r') == 1 && Distance(c, c') == 1
  {
    NeighboursByCoordinates(size, r, c);
    DiagonalsByCoordinates(size, r, c);
    forall r2, c2 | 0 <= r2 < size && 0 <= c2 < size && Distance(r, r2) <= 1 && Distance(c, c2) <= 1
      ensures At(size, r2, c2) == At(size, r', c') <==> r' == r2 && c' == c2
    {
      AtInjective(size, r2, c2, r', c');
    }
  }

  /** Every neighbour and diagonal lies on the board. */
  lemma TablesOnBoard(size: nat, pt: int)
    requires size > 0 && OnBoard(size, pt)
    ensures forall q :: q in Neighbours(size, pt) ==> OnBoard(size, q)
    ensures forall q :: q in Diagonals(size, pt) ==> OnBoard(size, q)
  {
    var r, c := pt / size, pt % size;
    RowInRange(size, pt);
    NeighboursByCoordinates(size, r, c);
    DiagonalsByCoordinates(size, r, c);
    forall r2, c2 | 0 <= r2 < size && 0 <= c2 < size && Distance(r, r2) <= 1 && Distance(c, c2) <= 1
      ensures OnBoard(size, At(size, r2, c2))
    {
      Coordinates(size, r2, c2);
    }
  }

  /** make_boxes lists exactly the orthogonally adjacent board points as neighbours, and
      exactly the diagonally adjacent ones as diagonals. */
  lemma NeighboursAreAdjacent(size: nat, p: int, q: int)
    requires size > 0 && OnBoard(size, p)
    ensures q in Neighbours(size, p) <==> Adjacent(size, p, q)
    ensures q in Diagonals(size, p) <==> Diagonal(size, p, q)
  {
    RowInRange(size, p);
    TablesOnBoard(size, p);
    if OnBoard(size, q) {
      RowInRange(size, q);
      AdjacentAt(size, p / size, p % size, q / size, q % size);
    }
  }

  /** Adjacency is symmetric: `q` is among the neighbours of `p` exactly when `p` is among
      the neighbours of `q`, and likewise for diagonals. */
  lemma NeighboursSymmetric(size: nat, p: int, q: int)
    requires size > 0 && OnBoard(size, p) && OnBoard(size, q)
    ensures q in Neighbours(size, p) <==> p in Neighbours(size, q)
    ensures q in Diagonals(size, p) <==> p in Diagonals(size, q)
  {
    NeighboursAreAdjacent(size, p, q);
    NeighboursAreAdjacent(size, q, p);
  }

  /** A point has two neighbours in a corner, three on an edge and four inside (on a board of
      at least two lines), and no point is listed twice. */
  lemma NeighbourCount(size: nat, p: int)
    requires size > 0 && OnBoard(size, p)
    ensures var r, c := p / size, p % size;
      |Neighbours(size, p)| ==
        4 - (if r == 0 then 1 else 0) - (if r == size - 1 then 1 else 0)
          - (if c == 0 then 1 else 0) - (if c == size - 1 then 1 else 0)
    ensures forall i, j :: 0 <= i < j < |Neighbours(size, p)| ==> Neighbours(size, p)[i] != Neighbours(size, p)[j]
  {
    var r, c := p / size, p % size;
    RowInRange(size, p);
    NeighboursByCoordinates(size, r, c);
    forall r2, c2 | 0 <= r2 < size && 0 <= c2 < size && Distance(r, r2) <= 1 && Distance(c, c2) <= 1
      ensures At(size, r2, c2) / size == r2 && At(size, r2, c2) % size == c2
    {
      Coordinates(size, r2, c2);
    }
  }

  /** go.py and gomcts/godata.py build the same neighbour lists. */
  lemma SameNeighbours(size: nat, pt: int)
    requires size > 0
    ensures GodataNeighbours(size, pt) == Neighbours(size, pt)
  {
    PresentFour(Up(size, pt), Down(size, pt), Left(size, pt), Right(size, pt));
  }

  lemma NeighboursListed(size: nat, pt: int)
    requires size > 0
    ensures Neighbours(size, pt) == Listed(Up(size, pt)) + Listed(Down(size, pt)) + Listed(Left(size, pt)) + Listed(Right(size, pt))
  {
    PresentFour(Up(size, pt), Down(size, pt), Left(size, pt), Right(size, pt));
  }

  lemma DiagonalsListed(size: nat, pt: int)
    requires size > 0
    ensures Diagonals(size, pt) ==
      Listed(UpLeft(size, pt)) + Listed(UpRight(size, pt)) + Listed(DownRight(size, pt)) + Listed(DownLeft(size, pt))
  {
    PresentFour(UpLeft(size, pt), UpRight(size, pt), DownRight(size, pt), DownLeft(size, pt));
  }

  /** The make_boxes doctest for a 3 × 3 board, point by point: the neighbour lists in up,
      down, left, right order and the diagonal lists in up-left, up-right, down-right,
      down-left order. */
  const NeighboursOfThreeTable: seq<seq<int>> :=
    [[3, 1], [4, 0, 2], [5, 1], [0, 6, 4], [1, 7, 3, 5], [2, 8, 4], [3, 7], [4, 6, 8], [5, 7]]
  const DiagonalsOfThreeTable: seq<seq<int>> :=
    [[4], [5, 3], [4], [1, 7], [0, 2, 8, 6], [1, 7], [4], [3, 5], [4]]

  lemma NeighboursOfThree(pt: int)
    requires 0 <= pt < 9
    ensures Neighbours(3, pt) == NeighboursOfThreeTable[pt]
  {
    NeighboursListed(3, pt);
  }

  lemma DiagonalsOfThree(pt: int)
    requires 0 <= pt < 9
    ensures Diagonals(3, pt) == DiagonalsOfThreeTable[pt]
  {
    DiagonalsListed(3, pt);
  }
}
