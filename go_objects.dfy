/** pro_heat/go_objects.py: `GoPosition`, a size × size board of integers (0 empty, 1 black,
    -1 white) onto which moves are added cell by cell, with no rule of Go checked. */
module GoObjects {
  import opened Wrappers
  import SgfNodes

  /** The `GoMove` namedtuple, shared with the SGF readers. */
  type GoMove = SgfNodes.GoMove

  /** `DEFAULT_SIZE`. */
  const DEFAULT_SIZE: int := 19

  /** The exceptions `GoPosition` raises: numpy's `ValueError` for a negative board size and
      `IndexError` for a cell outside the board. */
  datatype PositionError = ValueError | IndexError

  /** The row or column numpy reads for the index `v - 1` on an axis of length `size`: a
      negative index counts from the end, and anything outside `[-size, size)` raises. */
  function Axis(v: int, size: nat): (r: Option<nat>)
    ensures r.Some? <==> 1 - size <= v <= size
    ensures r.Some? ==> r.value < size && (r.value as int - (v - 1)) % size == 0
  {
    var i := v - 1;
    if 0 <= i < size then Some(i)
    else if -(size as int) <= i < 0 then Some(i + size)
    else None
  }

  /** The cell `(row, column)` that `add_move` changes: row from `x`, column from `y`. */
  function Target(m: GoMove, size: nat): Option<(nat, nat)> {
    match (Axis(m.x, size), Axis(m.y, size))
    case (Some(r), Some(c)) => Some((r, c))
    case _ => None
  }

  /** What a move adds at cell `(i, j)`. */
  function Hit(m: GoMove, size: nat, i: nat, j: nat): int {
    if Target(m, size) == Some((i, j)) then m.player else 0
  }

  /** What a list of moves adds up to at cell `(i, j)`. */
  function Tally(ms: seq<GoMove>, size: nat, i: nat, j: nat): int
    decreases |ms|
  {
    if ms == [] then 0 else Tally(ms[..|ms| - 1], size, i, j) + Hit(ms[|ms| - 1], size, i, j)
  }

  /** Every move of the list lands on the board. */
  predicate AllOnBoard(ms: seq<GoMove>, size: nat) {
    forall k :: 0 <= k < |ms| ==> Target(ms[k], size).Some?
  }

  /** The first move that falls off the board, or `|ms|`. */
  function FirstOff(ms: seq<GoMove>, size: nat): (k: nat)
    ensures k <= |ms|
    ensures forall j :: 0 <= j < k ==> Target(ms[j], size).Some?
    ensures k < |ms| ==> Target(ms[k], size).None?
    decreases |ms|
  {
    if ms == [] then 0
    else if Target(ms[0], size).None? then 0
    else 1 + FirstOff(ms[1..], size)
  }

  /** A move given in the 1-based coordinates of the doctests lands at `(x - 1, y - 1)`. */
  lemma TargetOnBoard(m: GoMove, size: nat)
    requires 1 <= m.x <= size && 1 <= m.y <= size
    ensures Target(m, size) == Some((m.x - 1, m.y - 1))
  {
  }

  /** A coordinate of 0 is numpy's index -1: it wraps round to the last row or column instead
      of raising. */
  lemma ZeroWraps(m: GoMove, size: nat)
    requires size > 0 && m.x == 0 && m.y == 0
    ensures Target(m, size) == Some((size - 1, size - 1))
  {
  }

  /** The moves add up independently of how the list is cut. */
  lemma {:induction false} TallyConcat(a: seq<GoMove>, b: seq<GoMove>, size: nat, i: nat, j: nat)
    ensures Tally(a + b, size, i, j) == Tally(a, size, i, j) + Tally(b, size, i, j)
    decreases |b|
  {
    if b == [] {
      assert a + b == a;
    } else {
      var n := |b| - 1;
      assert (a + b)[..|a + b| - 1] == a + b[..n];
      assert (a + b)[|a + b| - 1] == b[n];
      TallyConcat(a, b[..n], size, i, j);
    }
  }

  /** The order of the moves does not matter: a move added before the others counts the same
      as one added after them. */
  lemma TallyRotate(m: GoMove, ms: seq<GoMove>, size: nat, i: nat, j: nat)
    ensures Tally([m] + ms, size, i, j) == Tally(ms + [m], size, i, j)
  {
    TallyConcat([m], ms, size, i, j);
    TallyConcat(ms, [m], size, i, j);
    assert Tally([m], size, i, j) == Hit(m, size, i, j) by {
      assert [m][..0] == [];
    }
  }

  /** No legality check: the same move added twice puts twice its stone value on its cell,
      so a second black stone on one point gives 2 rather than a `MoveError`. */
  lemma SameMoveTwice(m: GoMove, size: nat)
    requires Target(m, size).Some?
    ensures var (r, c) := Target(m, size).value; Tally([m, m], size, r, c) == 2 * m.player
  {
    var (r, c) := Target(m, size).value;
    assert Hit(m, size, r, c) == m.player;
    assert [m, m][..1] == [m];
    assert [m][..0] == [];
    assert Tally([m], size, r, c) == m.player;
  }

  class GoPosition {
    /** `self.board`, indexed `board[row, column]`. */
    const board: array2<int>
    const size: nat
    /** `komi`, `lastmove` and `kolock` are stored and never read. */
    const komi: real
    const lastmove: Option<GoMove>
    const kolock: Option<nat>
    /** The moves added so far. */
    ghost var played: seq<GoMove>

    ghost predicate Valid()
      reads this, board
    {
      board.Length0 == size && board.Length1 == size &&
      forall i, j :: 0 <= i < size && 0 <= j < size ==> board[i, j] == Tally(played, size, i, j)
    }

    /** The empty board of the given size, with the given komi, last move and ko lock; the
        moves are added by `Make`. */
    constructor (size: nat, komi: real, lastmove: Option<GoMove>, kolock: Option<nat>)
      ensures Valid() && fresh(board) && played == []
      ensures this.size == size && this.komi == komi && this.lastmove == lastmove && this.kolock == kolock
      ensures forall i, j :: 0 <= i < size && 0 <= j < size ==> board[i, j] == 0
    {
      this.size := size;
      this.komi := komi;
      this.lastmove := lastmove;
      this.kolock := kolock;
      board := new int[size, size]((i, j) => 0);
      played := [];
    }

    /** `add_move`: the move's player value is added to the cell it targets, and every other
        cell keeps its value; a move off the board raises `IndexError` and changes nothing. */
    method AddMove(m: GoMove) returns (r: Outcome<PositionError>)
      requires Valid()
      modifies this`played, board
      ensures Valid()
      ensures r.Fail? <==> Target(m, size).None?
      ensures r.Fail? ==> r.error == IndexError && played == old(played) && unchanged(board)
      ensures r.Pass? ==> played == old(played) + [m]
      ensures forall i, j :: 0 <= i < size && 0 <= j < size ==>
        board[i, j] == old(board[i, j]) + (if r.Pass? then Hit(m, size, i, j) else 0)
    {
      var t := Target(m, size);
      if t.None? {
        return Fail(IndexError);
      }
      var (row, col) := t.value;
      board[row, col] := board[row, col] + m.player;
      played := played + [m];
      assert played[..|played| - 1] == old(played);
      return Pass;
    }

    /** The moves of `ms` added in order; the first one off the board stops the loop with
        `IndexError`, after the ones before it have been added. */
    method AddMoves(ms: seq<GoMove>) returns (r: Outcome<PositionError>)
      requires Valid()
      modifies this`played, board
      ensures Valid()
      ensures r.Fail? <==> !AllOnBoard(ms, size)
      ensures r.Fail? ==> r.error == IndexError
      ensures played == old(played) + ms[..FirstOff(ms, size)]
    {
      var k := 0;
      while k < |ms|
        invariant Valid()
        invariant k <= FirstOff(ms, size)
        invariant played == old(played) + ms[..k]
      {
        var step := AddMove(ms[k]);
        if step.Fail? {
          return step;
        }
        assert ms[..k + 1] == ms[..k] + [ms[k]];
        k := k + 1;
      }
      assert ms[..k] == ms;
      return Pass;
    }
  }

  /** `GoPosition(moves, size, komi, lastmove, kolock)`: `moves=None` leaves the board empty
      (the `TypeError` of iterating `None` is swallowed), otherwise the moves are added in
      order; a negative size or a move off the board raises. */
  method Make(moves: Option<seq<GoMove>>, size: int, komi: real, lastmove: Option<GoMove>,
              kolock: Option<nat>)
    returns (r: Result<GoPosition, PositionError>)
    ensures size < 0 ==> r == Err(ValueError)
    ensures size >= 0 && moves.Some? && !AllOnBoard(moves.value, size) ==> r == Err(IndexError)
    ensures r.Ok? ==> fresh(r.value) && fresh(r.value.board) && r.value.Valid()
    ensures r.Ok? ==> (r.value.size == size && r.value.komi == komi &&
      r.value.lastmove == lastmove && r.value.kolock == kolock)
    ensures r.Ok? ==> r.value.played == if moves.Some? then moves.value else []
    ensures size >= 0 && (moves.None? || AllOnBoard(moves.value, size)) ==> r.Ok?
  {
    if size < 0 {
      return Err(ValueError);
    }
    var p := new GoPosition(size, komi, lastmove, kolock);
    if moves.Some? {
      var added := p.AddMoves(moves.value);
      if added.Fail? {
        return Err(added.error);
      }
      assert moves.value[..FirstOff(moves.value, size)] == moves.value;
    }
    return Ok(p);
  }

  /** The constructor's doctests: a 3 × 3 board starts empty, and black at (4, 4) on the
      default board is `board[3][3] == 1`. */
  method Doctests() returns (empty: int, stone: int)
    ensures empty == 0 && stone == 1
  {
    var small := Make(None, 3, 6.5, None, None);
    assert small.Ok?;
    empty := small.value.board[1, 1];
    var p := Make(None, DEFAULT_SIZE, 6.5, None, None);
    assert p.Ok?;
    var placed := p.value.AddMove(SgfNodes.GoMove(1, 4, 4));
    assert Target(SgfNodes.GoMove(1, 4, 4), 19) == Some((3, 3));
    stone := p.value.board[3, 3];
  }
}
