/** The first SGF reader, sgf.py: `branchreader` turns a record into nested lists by splitting at
    `(` and `;`, `node_to_board` draws one node as a 19 × 19 board and `nodelist_to_boardlist`
    gives the board after every node. */
module SgfDraft {
  import opened Wrappers
  import opened Text
  import opened SgfNodes

  // ---------------------------------------------------------------------------------------------
  // branchreader

  /** A list after `while '' in game: game.remove('')`. */
  function NonBlank(items: seq<Item>): (r: seq<Item>)
    ensures Node("") !in r
    ensures forall it :: it in r ==> it in items
    decreases |items|
  {
    if items == [] then []
    else (if items[0] == Node("") then [] else [items[0]]) + NonBlank(items[1..])
  }

  lemma {:induction false} NonBlankAppend(a: seq<Item>, b: seq<Item>)
    ensures NonBlank(a + b) == NonBlank(a) + NonBlank(b)
    decreases |a|
  {
    if a == [] {
      assert a + b == b;
    } else {
      assert (a + b)[0] == a[0] && (a + b)[1..] == a[1..] + b;
      NonBlankAppend(a[1..], b);
    }
  }

  lemma {:induction false} NonBlankKeeps(items: seq<Item>)
    requires Node("") !in items
    ensures NonBlank(items) == items
    decreases |items|
  {
    if items != [] {
      assert items[0] != Node("");
      assert Node("") !in items[1..];
      NonBlankKeeps(items[1..]);
    }
  }

  /** Taking out one `''` leaves the same list once blanks are removed. */
  lemma DropBlank(r: seq<Item>, i: nat)
    requires i < |r| && r[i] == Node("")
    ensures NonBlank(r[..i] + r[i + 1..]) == NonBlank(r)
  {
    assert r == r[..i] + [r[i]] + r[i + 1..];
    NonBlankAppend(r[..i] + [r[i]], r[i + 1..]);
    NonBlankAppend(r[..i], [r[i]]);
    NonBlankAppend(r[..i], r[i + 1..]);
  }

  /** The removal loop: each pass takes out the first `''` that is left. */
  method RemoveBlanks(game: seq<Item>) returns (r: seq<Item>)
    ensures r == NonBlank(game)
  {
    r := game;
    while Node("") in r
      invariant NonBlank(r) == NonBlank(game)
      decreases |r|
    {
      var i := 0;
      while r[i] != Node("")
        invariant 0 <= i < |r| && exists j :: i <= j < |r| && r[j] == Node("")
        decreases |r| - i
      {
        i := i + 1;
      }
      DropBlank(r, i);
      r := r[..i] + r[i + 1..];
    }
    NonBlankKeeps(r);
  }

  /** The nodes of a chunk: `)` deleted, split at `;`. */
  function Pieces(chunk: string): seq<string> {
    Split(Delete(chunk, ')'), ';')
  }

  function Nodes(ps: seq<string>): (r: seq<Item>)
  {
    seq(|ps|, k requires 0 <= k < |ps| => Node(ps[k]))
  }

  /** `branchreader` on a list of chunks: an empty first chunk is skipped; otherwise its nodes,
      followed, when more chunks are left, by the list those chunks give; blanks are removed.
      Indexing an empty list raises. */
  function Branches(chunks: seq<string>): Result<seq<Item>, SgfError>
    decreases |chunks|
  {
    if chunks == [] then Err(IndexError)
    else if chunks[0] == "" then
      match Branches(chunks[1..])
      case Err(e) => Err(e)
      case Ok(game) => Ok(NonBlank(game))
    else if |chunks| == 1 then Ok(NonBlank(Nodes(Pieces(chunks[0]))))
    else
      match Branches(chunks[1..])
      case Err(e) => Err(e)
      case Ok(sub) => Ok(NonBlank(Nodes(Pieces(chunks[0])) + [Branch(sub)]))
  }

  /** The chunks of a record: newlines deleted, split at `(`. */
  function Chunks(sgf: string): seq<string> {
    Split(Delete(sgf, '\n'), '(')
  }

  /** `branchreader` on a list. */
  method ReadChunks(chunks: seq<string>) returns (r: Result<seq<Item>, SgfError>)
    ensures r == Branches(chunks)
    decreases |chunks|
  {
    if |chunks| == 0 {
      return Err(IndexError);
    }
    var chunk := chunks[0];
    var game: seq<Item>;
    if chunk == "" {
      var sub := ReadChunks(chunks[1..]);
      if sub.Err? {
        return sub;
      }
      game := sub.value;
    } else {
      game := Nodes(Pieces(chunk));
      if |chunks| > 1 {
        var sub := ReadChunks(chunks[1..]);
        if sub.Err? {
          return sub;
        }
        game := game + [Branch(sub.value)];
      }
    }
    game := RemoveBlanks(game);
    return Ok(game);
  }

  /** `branchreader` on a record string. */
  method BranchReader(sgf: string) returns (r: Result<seq<Item>, SgfError>)
    ensures r == Branches(Chunks(sgf))
  {
    r := ReadChunks(Chunks(sgf));
  }

  /** No `''` at any depth. */
  predicate NoBlank(items: seq<Item>)
    decreases items
  {
    forall k :: 0 <= k < |items| ==>
      items[k] != Node("") && (items[k].Branch? ==> NoBlank(items[k].items))
  }

  /** Every level but the last holds only strings, and the last level hangs at the end. */
  predicate Linear(items: seq<Item>)
    decreases items
  {
    (forall k :: 0 <= k < |items| - 1 ==> items[k].Node?) &&
    (|items| > 0 && items[|items| - 1].Branch? ==> Linear(items[|items| - 1].items))
  }

  /** `branchreader` raises exactly when no chunk is left to read, that is when the last chunk
      is empty. */
  lemma {:induction false} BranchesFails(chunks: seq<string>)
    ensures Branches(chunks).Err? <==> chunks == [] || chunks[|chunks| - 1] == ""
    ensures Branches(chunks).Err? ==> Branches(chunks).error == IndexError
    decreases |chunks|
  {
    if |chunks| > 1 {
      BranchesFails(chunks[1..]);
      assert chunks[1..][|chunks[1..]| - 1] == chunks[|chunks| - 1];
    }
  }

  /** On a record, `branchreader` raises exactly when the record without newlines is empty or
      ends with `(`. */
  lemma BranchReaderFails(sgf: string)
    ensures var t := Delete(sgf, '\n');
      Branches(Chunks(sgf)).Err? <==> t == [] || t[|t| - 1] == '('
  {
    BranchesFails(Chunks(sgf));
    LastPieceEmpty(Delete(sgf, '\n'), '(');
  }

  lemma NonBlankNoBlank(items: seq<Item>)
    requires forall k :: 0 <= k < |items| && items[k].Branch? ==> NoBlank(items[k].items)
    ensures NoBlank(NonBlank(items))
  {
    var r := NonBlank(items);
    forall k | 0 <= k < |r| && r[k].Branch? ensures NoBlank(r[k].items) {
      assert r[k] in items;
    }
  }

  /** No `''` is left at any nesting level. */
  lemma {:induction false} BranchesNoBlank(chunks: seq<string>)
    requires Branches(chunks).Ok?
    ensures NoBlank(Branches(chunks).value)
    decreases |chunks|
  {
    if chunks[0] == "" {
      BranchesNoBlank(chunks[1..]);
      NonBlankNoBlank(Branches(chunks[1..]).value);
    } else if |chunks| == 1 {
      NonBlankNoBlank(Nodes(Pieces(chunks[0])));
    } else {
      BranchesNoBlank(chunks[1..]);
      var game := Nodes(Pieces(chunks[0])) + [Branch(Branches(chunks[1..]).value)];
      NonBlankNoBlank(game);
    }
  }

  /** A leading empty chunk, the one before the first `(`, is skipped. */
  lemma LeadingEmptySkipped(chunks: seq<string>)
    ensures Branches([""] + chunks) == Branches(chunks)
  {
    assert ([""] + chunks)[1..] == chunks;
    if Branches(chunks).Ok? {
      BranchesNoBlank(chunks);
      NonBlankKeeps(Branches(chunks).value);
    }
  }

  /** Every chunk after the first becomes the last element of the list of the one before it, so
      the whole record is read as its main branch. */
  lemma {:induction false} BranchesLinear(chunks: seq<string>)
    requires Branches(chunks).Ok?
    ensures Linear(Branches(chunks).value)
    ensures MainBranch(Branches(chunks).value) == Preorder(Branches(chunks).value)
    decreases |chunks|
  {
    var r := Branches(chunks).value;
    if chunks[0] == "" {
      BranchesLinear(chunks[1..]);
      BranchesNoBlank(chunks[1..]);
      NonBlankKeeps(Branches(chunks[1..]).value);
    } else if |chunks| == 1 {
      var game := Nodes(Pieces(chunks[0]));
      forall k | 0 <= k < |r| ensures r[k].Node? {
        assert r[k] in game;
      }
    } else {
      BranchesLinear(chunks[1..]);
      var game := Nodes(Pieces(chunks[0]));
      var sub := Branches(chunks[1..]).value;
      NonBlankAppend(game, [Branch(sub)]);
      assert NonBlank([Branch(sub)]) == [Branch(sub)];
      assert r == NonBlank(game) + [Branch(sub)];
      forall k | 0 <= k < |r| - 1 ensures r[k].Node? {
        assert r[k] in NonBlank(game);
      }
    }
    LinearMain(r);
  }

  lemma {:induction false} LinearMain(items: seq<Item>)
    requires Linear(items)
    ensures MainBranch(items) == Preorder(items)
    decreases items
  {
    if items != [] {
      match items[0]
      case Node(t) =>
        assert Linear(items[1..]) by {
          if |items| > 1 {
            assert items[1..][|items[1..]| - 1] == items[|items| - 1];
          }
        }
        LinearMain(items[1..]);
      case Branch(sub) =>
        assert |items| == 1;
        LinearMain(sub);
    }
  }

  /** The non-empty strings, in order. */
  function DropEmpty(ss: seq<string>): seq<string>
    decreases |ss|
  {
    if ss == [] then [] else (if ss[0] == "" then [] else [ss[0]]) + DropEmpty(ss[1..])
  }

  /** The nodes of all chunks, in order. */
  function NodeTexts(chunks: seq<string>): seq<string>
    decreases |chunks|
  {
    if chunks == [] then [] else DropEmpty(Pieces(chunks[0])) + NodeTexts(chunks[1..])
  }

  lemma {:induction false} NonBlankNodes(ps: seq<string>)
    ensures NonBlank(Nodes(ps)) == Nodes(DropEmpty(ps))
    decreases |ps|
  {
    if ps != [] {
      assert Nodes(ps)[1..] == Nodes(ps[1..]);
      NonBlankNodes(ps[1..]);
      assert Nodes(DropEmpty(ps)) == Nodes(if ps[0] == "" then [] else [ps[0]]) + Nodes(DropEmpty(ps[1..]));
    }
  }

  lemma {:induction false} PreorderNodes(ps: seq<string>)
    ensures Preorder(Nodes(ps)) == ps
    decreases |ps|
  {
    if ps != [] {
      assert Nodes(ps)[1..] == Nodes(ps[1..]);
      PreorderNodes(ps[1..]);
    }
  }

  lemma {:induction false} PreorderAppend(a: seq<Item>, b: seq<Item>)
    ensures Preorder(a + b) == Preorder(a) + Preorder(b)
    decreases |a|
  {
    if a == [] {
      assert a + b == b;
    } else {
      assert (a + b)[0] == a[0] && (a + b)[1..] == a[1..] + b;
      PreorderAppend(a[1..], b);
    }
  }

  /** `branchreader` keeps every node of every chunk, in order, and invents none. */
  lemma {:induction false} BranchesPreorder(chunks: seq<string>)
    requires Branches(chunks).Ok?
    ensures Preorder(Branches(chunks).value) == NodeTexts(chunks)
    decreases |chunks|
  {
    if chunks[0] == "" {
      BranchesPreorder(chunks[1..]);
      BranchesNoBlank(chunks[1..]);
      NonBlankKeeps(Branches(chunks[1..]).value);
      assert Pieces(chunks[0]) == [""];
    } else {
      var ps := Pieces(chunks[0]);
      NonBlankNodes(ps);
      PreorderNodes(DropEmpty(ps));
      if |chunks| > 1 {
        BranchesPreorder(chunks[1..]);
        var sub := Branches(chunks[1..]).value;
        NonBlankAppend(Nodes(ps), [Branch(sub)]);
        assert NonBlank([Branch(sub)]) == [Branch(sub)];
        PreorderAppend(Nodes(DropEmpty(ps)), [Branch(sub)]);
        assert Preorder([Branch(sub)]) == Preorder(sub) + Preorder([]);
      } else {
        assert chunks[1..] == [];
      }
    }
  }

  // ---------------------------------------------------------------------------------------------
  // node_to_board and nodelist_to_boardlist

  /** The board side of sgf.py. */
  const SIZE: nat := 19

  /** A board as rows of cells, `board[y][x]`. The int8 arrays of the source never overflow
      here: a drawn node holds one stone, and the running sums are platform integers. */
  type Grid = seq<seq<int>>

  predicate IsGrid(b: Grid) {
    |b| == SIZE && forall y :: 0 <= y < SIZE ==> |b[y]| == SIZE
  }

  /** `np.zeros((size, size))`. */
  function Zero(): (b: Grid)
  {
    seq(SIZE, y => seq(SIZE, x => 0))
  }

  /** A zero board with `player` at row `y`, column `x`. */
  function Stone(y: nat, x: nat, player: int): (b: Grid)
    requires y < SIZE && x < SIZE
  {
    seq(SIZE, yy => seq(SIZE, xx => if yy == y && xx == x then player else 0))
  }

  /** `np.sum([a, b], axis=0)`. */
  function Add(a: Grid, b: Grid): (c: Grid)
    requires IsGrid(a) && IsGrid(b)
  {
    seq(SIZE, y requires 0 <= y < SIZE => seq(SIZE, x requires 0 <= x < SIZE => a[y][x] + b[y][x]))
  }

  /** `player_assign`. */
  function PlayerOf(c: char): Option<int> {
    if c == 'B' then Some(1) else if c == 'W' then Some(-1) else None
  }

  /** `letter_coord_id`: `a`..`s` are 0..18. */
  function IndexOf(c: char): (r: Option<nat>)
    ensures r.Some? ==> r.value < SIZE
  {
    if 'a' <= c <= 's' then Some(c as nat - 'a' as nat) else None
  }

  /** The whole-match string `findall` returns first for `[A-Z][A-Z]?\[.+?\]`. */
  function FirstProperty(node: string): (r: Option<string>)
    ensures r.Some? ==> |r.value| >= 4
  {
    match FirstInfoAt(node, 0)
    case None => None
    case Some(i) => var (n, v) := InfoAt(node, i).value; Some(n + "[" + v + "]")
  }

  /** `node_to_board`: the character at 0 of the first property gives the player, those at 2
      and 3 the column and the row; a node without a property is the empty board, and a
      character outside `player_assign` or `letter_coord_id` raises `KeyError`, looked up in
      that order. */
  function NodeToBoard(node: string): (r: Result<Grid, SgfError>)
    ensures r.Ok? ==> IsGrid(r.value)
    ensures FirstProperty(node).None? ==> r == Ok(Zero())
    ensures FirstProperty(node).Some? ==> var m := FirstProperty(node).value;
      (r.Ok? <==> PlayerOf(m[0]).Some? && IndexOf(m[2]).Some? && IndexOf(m[3]).Some?) &&
      (r.Err? ==> r.error == KeyError(
        if PlayerOf(m[0]).None? then [m[0]] else if IndexOf(m[2]).None? then [m[2]] else [m[3]]))
  {
    match FirstProperty(node)
    case None => Ok(Zero())
    case Some(m) =>
      match (PlayerOf(m[0]), IndexOf(m[2]), IndexOf(m[3]))
      case (None, _, _) => Err(KeyError([m[0]]))
      case (_, None, _) => Err(KeyError([m[2]]))
      case (_, _, None) => Err(KeyError([m[3]]))
      case (Some(player), Some(x), Some(y)) => Ok(Stone(y, x, player))
  }

  /** A move node draws its stone: black 1 or white -1 at the row and column of its letters,
      counted from 0. */
  lemma NodeToBoardOfMove(m: GoMove)
    requires IsSgfMove(m)
    ensures NodeToBoard(MoveNode(m)) == Ok(Stone(m.y - 1, m.x - 1, m.player))
  {
    var s := MoveNode(m);
    assert s[1] == '[' && s[2] == Letter(m.x) && s[3] == Letter(m.y) && s[4] == ']';
    assert !IsUpper(s[1]);
    CloseAtEnd(s, 3, 4);
    assert InfoAt(s, 0) == Some((s[0..1], s[2..4]));
    assert FirstProperty(s) == Some(s[0..1] + "[" + s[2..4] + "]");
    assert FirstProperty(s).value == s;
  }

  /** The boards after each node: the empty board, then each board the one before plus the
      node's board; the first node that raises ends it. */
  function Boards(nodes: seq<string>): (r: Result<seq<Grid>, SgfError>)
    ensures r.Ok? ==> |r.value| == |nodes| + 1 && forall k :: 0 <= k < |r.value| ==> IsGrid(r.value[k])
    decreases |nodes|
  {
    if nodes == [] then Ok([Zero()])
    else
      match Boards(nodes[..|nodes| - 1])
      case Err(e) => Err(e)
      case Ok(bs) =>
        match NodeToBoard(nodes[|nodes| - 1])
        case Err(e) => Err(e)
        case Ok(b) => Ok(bs + [Add(bs[|bs| - 1], b)])
  }

  /** `nodelist_to_boardlist`. */
  method NodelistToBoardlist(nodelist: seq<string>) returns (r: Result<seq<Grid>, SgfError>)
    ensures r == Boards(nodelist)
  {
    var boardlist := [Zero()];
    var k := 0;
    while k < |nodelist|
      invariant k <= |nodelist|
      invariant Boards(nodelist[..k]) == Ok(boardlist)
    {
      var board := NodeToBoard(nodelist[k]);
      if board.Err? {
        BoardsStop(nodelist, k);
        return Err(board.error);
      }
      BoardsStep(nodelist, k);
      boardlist := boardlist + [Add(boardlist[|boardlist| - 1], board.value)];
      k := k + 1;
    }
    assert nodelist[..k] == nodelist;
    return Ok(boardlist);
  }

  /** One more node that draws adds one more board. */
  lemma BoardsStep(nodes: seq<string>, k: nat)
    requires k < |nodes| && Boards(nodes[..k]).Ok? && NodeToBoard(nodes[k]).Ok?
    ensures var bs := Boards(nodes[..k]).value;
      Boards(nodes[..k + 1]) == Ok(bs + [Add(bs[|bs| - 1], NodeToBoard(nodes[k]).value)])
  {
    assert nodes[..k + 1][..k] == nodes[..k];
  }

  /** A node that raises after nodes that do not ends the list with its error. */
  lemma BoardsStop(nodes: seq<string>, k: nat)
    requires k < |nodes| && Boards(nodes[..k]).Ok? && NodeToBoard(nodes[k]).Err?
    ensures Boards(nodes) == Err(NodeToBoard(nodes[k]).error)
  {
    BoardsFail(nodes[..k]);
    var f := FirstBad(nodes);
    forall j | 0 <= j < k ensures NodeToBoard(nodes[j]).Ok? {
      assert nodes[..k][j] == nodes[j];
    }
    assert f == k;
    BoardsFail(nodes);
  }

  /** What a node adds at a cell. */
  function Drawn(node: string, y: nat, x: nat): int
    requires y < SIZE && x < SIZE
  {
    if NodeToBoard(node).Ok? then NodeToBoard(node).value[y][x] else 0
  }

  /** What the first `k` nodes add at a cell. */
  function Tally(nodes: seq<string>, k: nat, y: nat, x: nat): int
    requires k <= |nodes| && y < SIZE && x < SIZE
  {
    if k == 0 then 0 else Tally(nodes, k - 1, y, x) + Drawn(nodes[k - 1], y, x)
  }

  /** The position of the first node that raises, or `|nodes|` when none does. */
  function FirstBad(nodes: seq<string>): (k: nat)
    ensures k <= |nodes|
    ensures forall j :: 0 <= j < k ==> NodeToBoard(nodes[j]).Ok?
    ensures k < |nodes| ==> NodeToBoard(nodes[k]).Err?
    decreases |nodes|
  {
    if nodes == [] then 0
    else
      var n := |nodes| - 1;
      var f := FirstBad(nodes[..n]);
      assert forall j :: 0 <= j < n ==> nodes[..n][j] == nodes[j];
      if f < n then f else if NodeToBoard(nodes[n]).Err? then n else |nodes|
  }

  /** The list raises exactly when some node does, with the exception of the first such node. */
  lemma {:induction false} BoardsFail(nodes: seq<string>)
    ensures Boards(nodes).Err? <==> FirstBad(nodes) < |nodes|
    ensures FirstBad(nodes) < |nodes| ==> Boards(nodes) == Err(NodeToBoard(nodes[FirstBad(nodes)]).error)
    decreases |nodes|
  {
    if nodes != [] {
      BoardsFail(nodes[..|nodes| - 1]);
    }
  }

  /** There is one board more than there are nodes: the `k`-th board holds, at each cell, the sum
      of what the first `k` nodes drew there. */
  lemma {:induction false} BoardsTally(nodes: seq<string>, k: nat, y: nat, x: nat)
    requires Boards(nodes).Ok? && k <= |nodes| && y < SIZE && x < SIZE
    ensures Boards(nodes).value[k][y][x] == Tally(nodes, k, y, x)
    decreases |nodes|
  {
    var n := |nodes| - 1;
    if nodes == [] {
    } else if k == |nodes| {
      var bs := Boards(nodes[..n]).value;
      if k > 0 {
        BoardsTally(nodes[..n], n, y, x);
        TallyPrefix(nodes, n, n, y, x);
      }
    } else {
      BoardsTally(nodes[..n], k, y, x);
      TallyPrefix(nodes, n, k, y, x);
    }
  }

  lemma {:induction false} TallyPrefix(nodes: seq<string>, n: nat, k: nat, y: nat, x: nat)
    requires k <= n <= |nodes| && y < SIZE && x < SIZE
    ensures Tally(nodes[..n], k, y, x) == Tally(nodes, k, y, x)
    decreases k
  {
    if k > 0 {
      TallyPrefix(nodes, n, k - 1, y, x);
      assert nodes[..n][k - 1] == nodes[k - 1];
    }
  }

  lemma NodeToBoardDoctest()
    ensures NodeToBoard("B[dd]").Ok? && NodeToBoard("B[dd]").value[3][3] == 1
    ensures NodeToBoard("W[sa]").Ok? && NodeToBoard("W[sa]").value[0][18] == -1
  {
    NodeToBoardOfMove(GoMove(1, 4, 4));
    assert MoveNode(GoMove(1, 4, 4)) == "B[dd]";
    NodeToBoardOfMove(GoMove(-1, 19, 1));
    assert MoveNode(GoMove(-1, 19, 1)) == "W[sa]";
  }
}
