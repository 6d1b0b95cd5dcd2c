/** The SGF reader of sgf/read.py: its helpers are those of the other readers, with `intmove`
    keeping only the point; its `create_pro_hdf5` node loop numbers each move on the board size
    read so far. */
module SgfRead {
  import opened Wrappers
  import opened Text
  import opened SgfNodes
  import ProHeatSgf

  /** What the loop collects for one game: the moves as points, and the information. */
  datatype Game = Game(moves: seq<int>, attrs: map<string, string>)

  /** The message of `int` for a string that is not a literal; the quotes of Python's `repr` are
      taken to be single quotes. */
  function IntMessage(s: string): string {
    "invalid literal for int() with base 10: '" + s + "'"
  }

  /** The board size at the top of each pass: `int` of the `SZ` information stored so far, 19
      when there is none yet. */
  function SizeInForce(attrs: map<string, string>): Result<int, SgfError> {
    if "SZ" !in attrs then Ok(19)
    else match ParseInt(attrs["SZ"])
      case None => Err(ValueError(IntMessage(attrs["SZ"])))
      case Some(n) => Ok(n)
  }

  /** One pass of the node loop: the size is read first, so a non-integer `SZ` makes every later
      node raise, whatever it is. */
  function Step(g: Game, kind: NodeKind): Result<Game, SgfError> {
    match SizeInForce(g.attrs)
    case Err(e) => Err(e)
    case Ok(size) =>
      match kind
      case MoveFound(m) => Ok(g.(moves := g.moves + [PointOf(m, size)]))
      case BlankInfo => Ok(g)
      case CommentInfo(value) => Ok(g.(attrs := g.attrs["C" + Decimal(|g.moves|) := value]))
      case PropertyInfo(name, value) => Ok(g.(attrs := g.attrs[name := value]))
      case NotInfo(e) => Err(e)
  }

  /** The game after the loop has seen nodes of the kinds `ks`, starting from `g`. */
  function Read(g: Game, ks: seq<NodeKind>): Result<Game, SgfError>
    decreases |ks|
  {
    if ks == [] then Ok(g)
    else match Step(g, ks[0])
      case Err(e) => Err(e)
      case Ok(g') => Read(g', ks[1..])
  }

  /** The inner loop of `create_pro_hdf5` over the nodes of one game. */
  method ReadNodes(nodes: seq<string>) returns (r: Result<Game, SgfError>)
    ensures r == Read(Game([], map[]), KindsOf(nodes))
  {
    var moves: seq<int> := [];
    var attrs: map<string, string> := map[];
    ghost var ks := KindsOf(nodes);
    var k := 0;
    while k < |nodes|
      invariant k <= |nodes|
      invariant Read(Game([], map[]), ks) == Read(Game(moves, attrs), ks[k..])
    {
      var node := nodes[k];
      assert ks[k..][0] == KindOf(node) && ks[k..][1..] == ks[k + 1..];
      var size := 19;
      if "SZ" in attrs {
        var n := ParseInt(attrs["SZ"]);
        if n.None? {
          return Err(ValueError(IntMessage(attrs["SZ"])));
        }
        size := n.value;
      }
      var mv := NodeToMove(node);
      if mv.Ok? {
        moves := moves + [PointOf(mv.value, size)];
      } else {
        var inf := Info(node);
        if inf.Err? {
          return Err(inf.error);
        }
        var (name, value) := inf.value;
        if value == "" || value == " " {
          k := k + 1;
          continue;
        }
        if name == "C" {
          name := name + Decimal(|moves|);
        }
        attrs := attrs[name := value];
      }
      k := k + 1;
    }
    return Ok(Game(moves, attrs));
  }

  // ---------------------------------------------------------------------------------------------
  // What the node loop promises

  /** The points of moves on a `size` × `size` board. */
  function Points(ms: seq<GoMove>, size: int): (ps: seq<int>)
  {
    seq(|ms|, k requires 0 <= k < |ms| => PointOf(ms[k], size))
  }

  /** A node that stores a board size. */
  predicate SetsSize(kind: NodeKind) {
    kind.PropertyInfo? && kind.name == "SZ"
  }

  /** The loop over two stretches of nodes is the loop over the first, continued over the second. */
  lemma {:induction false} ReadSplit(g: Game, a: seq<NodeKind>, b: seq<NodeKind>)
    ensures Read(g, a + b) == match Read(g, a) case Err(e) => Err(e) case Ok(g') => Read(g', b)
    decreases |a|
  {
    if a != [] {
      assert (a + b)[0] == a[0] && (a + b)[1..] == a[1..] + b;
      if Step(g, a[0]).Ok? {
        ReadSplit(Step(g, a[0]).value, a[1..], b);
      }
    } else {
      assert a + b == b;
    }
  }

  /** Once a size that is not an integer is stored, the next node raises, whatever it is. */
  lemma BadSizeRaises(g: Game, a: seq<NodeKind>, b: seq<NodeKind>)
    requires Read(g, a).Ok? && SizeInForce(Read(g, a).value.attrs).Err? && b != []
    ensures Read(g, a + b) == Err(ValueError(IntMessage(Read(g, a).value.attrs["SZ"])))
  {
    ReadSplit(g, a, b);
  }

  /** While the size stays `n`, the loop does what the loop of pro_heat/sgf.py does, with every
      move replaced by its point on an `n` × `n` board. */
  lemma {:induction false} ReadFixedSize(g: Game, h: seq<GoMove>, ks: seq<NodeKind>, n: int)
    requires SizeInForce(g.attrs) == Ok(n) && |h| == |g.moves|
    requires forall k :: 0 <= k < |ks| ==> !SetsSize(ks[k])
    ensures var c := ProHeatSgf.Collected(ProHeatSgf.Game(h, g.attrs), ks);
      (Read(g, ks).Ok? <==> c.Ok?) &&
      (c.Err? ==> Read(g, ks) == Err(c.error)) &&
      (c.Ok? ==> Read(g, ks) == Ok(Game(g.moves + Points(MovesIn(ks), n), c.value.attrs)))
    decreases |ks|
  {
    if ks != [] {
      var kind := ks[0];
      var c := ProHeatSgf.Step(ProHeatSgf.Game(h, g.attrs), kind);
      if c.Ok? {
        var g' := Step(g, kind).value;
        assert g'.attrs == c.value.attrs && |g'.moves| == |c.value.moves|;
        if kind.CommentInfo? {
          assert ("C" + Decimal(|g.moves|))[0] == 'C';
        }
        assert SizeInForce(g'.attrs) == Ok(n) by {
          assert kind.PropertyInfo? ==> kind.name != "SZ";
        }
        forall k | 0 <= k < |ks[1..]| ensures !SetsSize(ks[1..][k]) {
          assert ks[1..][k] == ks[k + 1];
        }
        ReadFixedSize(g', c.value.moves, ks[1..], n);
        var rest := Points(MovesIn(ks[1..]), n);
        assert g'.moves + rest == g.moves + Points(MovesIn(ks), n) by {
          if kind.MoveFound? {
            assert Points(MovesIn(ks), n) == [PointOf(kind.m, n)] + rest;
          } else {
            assert MovesIn(ks) == MovesIn(ks[1..]);
          }
        }
      }
    } else {
      assert g.moves + Points(MovesIn(ks), n) == g.moves;
    }
  }

  // ---------------------------------------------------------------------------------------------
  // The doctests of sgf/read.py

  lemma IntMoveDoctest()
    ensures PointOf(GoMove(-1, 16, 17), 19) == 319
  {
  }

  lemma NodeToGoMoveDoctest()
    ensures NodeToMove("B[dc]") == Ok(GoMove(1, 4, 3))
    ensures NodeToMove("W[pq]") == Ok(GoMove(-1, 16, 17))
    ensures NodeToMove("error").Err?
  {
    assert MoveAt("B[dc]", 0) && MoveAt("W[pq]", 0);
    assert !MoveAt("error", 0);
  }
}
