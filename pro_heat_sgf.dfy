/** The SGF reader of pro_heat/sgf.py: the main branch as a list, and the node loop of
    `create_sgf_hdf5`, which keeps whole `GoMove`s and files the game under a board-size group. */
module ProHeatSgf {
  import opened Wrappers
  import opened Text
  import opened SgfNodes

  /** `sgf_main_branch`: the nodes before the first branch, then the main branch of that branch. */
  method SgfMainBranch(items: seq<Item>) returns (r: seq<string>)
    ensures r == MainBranch(items)
    decreases items
  {
    r := [];
    var k := 0;
    while k < |items|
      invariant k <= |items|
      invariant r + MainBranch(items[k..]) == MainBranch(items)
    {
      assert items[k..][0] == items[k] && items[k..][1..] == items[k + 1..];
      match items[k]
      case Branch(sub) =>
        var b := SgfMainBranch(sub);
        return r + b;
      case Node(t) =>
        assert r + MainBranch(items[k..]) == (r + [t]) + MainBranch(items[k + 1..]);
        r := r + [t];
      k := k + 1;
    }
    assert items[k..] == [];
  }

  /** What the loop collects for one game. */
  datatype Game = Game(moves: seq<GoMove>, attrs: map<string, string>)

  /** One pass of the node loop: a move is appended; blank information is skipped; a comment is
      stored as `C<moves so far>`; other information under its name; a node that is neither a
      move nor a property raises. */
  function Step(g: Game, kind: NodeKind): Result<Game, SgfError> {
    match kind
    case MoveFound(m) => Ok(g.(moves := g.moves + [m]))
    case BlankInfo => Ok(g)
    case CommentInfo(value) => Ok(g.(attrs := g.attrs["C" + Decimal(|g.moves|) := value]))
    case PropertyInfo(name, value) => Ok(g.(attrs := g.attrs[name := value]))
    case NotInfo(e) => Err(e)
  }

  /** The game after the loop has seen nodes of the kinds `ks`, starting from `g`. */
  function Collected(g: Game, ks: seq<NodeKind>): Result<Game, SgfError>
    decreases |ks|
  {
    if ks == [] then Ok(g)
    else match Step(g, ks[0])
      case Err(e) => Err(e)
      case Ok(g') => Collected(g', ks[1..])
  }

  /** The inner loop of `create_sgf_hdf5` over the nodes of one game. */
  method CollectNodes(nodes: seq<string>) returns (r: Result<Game, SgfError>)
    ensures r == Collected(Game([], map[]), KindsOf(nodes))
  {
    var moves: seq<GoMove> := [];
    var attrs: map<string, string> := map[];
    ghost var ks := KindsOf(nodes);
    var k := 0;
    while k < |nodes|
      invariant k <= |nodes|
      invariant Collected(Game([], map[]), ks) == Collected(Game(moves, attrs), ks[k..])
    {
      var node := nodes[k];
      assert ks[k..][0] == KindOf(node) && ks[k..][1..] == ks[k + 1..];
      var mv := NodeToMove(node);
      if mv.Ok? {
        moves := moves + [mv.value];
      } else {
        var inf := Info(node);
        if inf.Err? {
          return Err(inf.error);
        }
        var (name, value) := inf.value;
        if value == "" || value == " " {
          k := k + 1;
          continue;
        }
        if name == "C" {
          name := name + Decimal(|moves|);
        }
        attrs := attrs[name := value];
      }
      k := k + 1;
    }
    return Ok(Game(moves, attrs));
  }

  /** The groups the file is created with. */
  predicate IsGroup(size: string) {
    size == "19" || size == "13" || size == "9"
  }

  /** The group a game is filed under: its `SZ` value, `19` when it has none; a size without a
      group makes the dataset creation raise. */
  function GroupOf(attrs: map<string, string>): (r: Result<string, SgfError>)
    ensures "SZ" !in attrs ==> r == Ok("19")
    ensures "SZ" in attrs ==> (r.Ok? <==> IsGroup(attrs["SZ"]))
    ensures "SZ" in attrs && r.Ok? ==> r.value == attrs["SZ"]
    ensures r.Err? ==> "SZ" in attrs && r.error == KeyError(attrs["SZ"])
  {
    var size := if "SZ" in attrs then attrs["SZ"] else "19";
    if IsGroup(size) then Ok(size) else Err(KeyError(size))
  }

  // ---------------------------------------------------------------------------------------------
  // What the node loop promises

  /** The loop raises exactly when a node is neither a move nor a property, and then with the
      exception of the first such node. */
  lemma {:induction false} CollectedFails(g: Game, ks: seq<NodeKind>)
    ensures Collected(g, ks).Err? <==> exists k :: 0 <= k < |ks| && ks[k].NotInfo?
    ensures Collected(g, ks).Err? ==>
      exists k :: 0 <= k < |ks| && ks[k].NotInfo? && Collected(g, ks).error == ks[k].e &&
        forall j :: 0 <= j < k ==> !ks[j].NotInfo?
    decreases |ks|
  {
    if ks != [] && !ks[0].NotInfo? {
      var g' := Step(g, ks[0]).value;
      CollectedFails(g', ks[1..]);
      if exists k :: 0 <= k < |ks| && ks[k].NotInfo? {
        var k :| 0 <= k < |ks| && ks[k].NotInfo?;
        assert ks[1..][k - 1] == ks[k];
      }
      if Collected(g', ks[1..]).Err? {
        var k :| 0 <= k < |ks[1..]| && ks[1..][k].NotInfo? &&
          Collected(g', ks[1..]).error == ks[1..][k].e && forall j :: 0 <= j < k ==> !ks[1..][j].NotInfo?;
        assert ks[k + 1] == ks[1..][k];
        forall j | 0 <= j < k + 1 ensures !ks[j].NotInfo? {
          if j > 0 { assert ks[j] == ks[1..][j - 1]; }
        }
      }
    }
  }

  /** The moves of a game are those of its move nodes, in order. */
  lemma {:induction false} CollectedMoves(g: Game, ks: seq<NodeKind>)
    requires Collected(g, ks).Ok?
    ensures Collected(g, ks).value.moves == g.moves + MovesIn(ks)
    decreases |ks|
  {
    if ks != [] {
      CollectedMoves(Step(g, ks[0]).value, ks[1..]);
    }
  }

  /** The information of a game is stored under exactly the keys of its information nodes,
      comments tied to the number of moves before them. */
  lemma {:induction false} CollectedKeys(g: Game, ks: seq<NodeKind>)
    requires Collected(g, ks).Ok?
    ensures Collected(g, ks).value.attrs.Keys == g.attrs.Keys + KeysIn(ks, |g.moves|)
    decreases |ks|
  {
    if ks != [] {
      var g' := Step(g, ks[0]).value;
      CollectedKeys(g', ks[1..]);
      assert g'.attrs.Keys == g.attrs.Keys + KeyOf(ks[0], |g.moves|);
      assert |g'.moves| == |g.moves| + if ks[0].MoveFound? then 1 else 0;
    }
  }

  // ---------------------------------------------------------------------------------------------
  // The doctests of pro_heat/sgf.py

  lemma NodeToMoveDoctest()
    ensures NodeToMove("B[dc]") == Ok(GoMove(1, 4, 3))
    ensures NodeToMove("W[pq]") == Ok(GoMove(-1, 16, 17))
  {
    assert MoveAt("B[dc]", 0) && MoveAt("W[pq]", 0);
  }

  lemma SgfInfoDoctest()
    ensures Info("SZ[19]") == Ok(("SZ", "19"))
  {
    InfoOfProperty("SZ", "19");
    assert "SZ" + "[" + "19" + "]" == "SZ[19]";
  }
}
