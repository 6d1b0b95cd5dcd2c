/** The SGF helpers of src/sgf.py, which src/sgf/read.py repeats line for line (only their
    doctests differ): `node_to_gomove`, `intmove` (point and player), and the node loop of
    `store_parser` that sorts the nodes of a game's main branch into moves, setup stones and
    game information. */
module SrcSgf {
  import opened Wrappers
  import opened Text
  import opened SgfNodes

  /** `node_to_gomove`: the move of the first `[BW]\[[a-s][a-s]\]` match anywhere in the node. */
  function NodeToGoMove(node: string): (r: Result<GoMove, SgfError>)
    ensures r.Ok? ==> IsSgfMove(r.value)
    ensures r.Err? <==> forall j :: 0 <= j ==> !MoveAt(node, j)
    ensures r.Err? ==> r.error == ValueError(NotMoveMessage(node, "an"))
  {
    match ReadMove(node)
    case None => Err(ValueError(NotMoveMessage(node, "an")))
    case Some(m) => Ok(m)
  }

  /** `intmove`: the point of the move and its player. */
  function IntMove(m: GoMove, size: int): (int, int) {
    (PointOf(m, size), m.player)
  }

  /** A move node of the 19 × 19 SGF grid gives a point of the board, and the point together
      with the player gives the move back. */
  lemma IntMoveOnBoard(node: string)
    requires NodeToGoMove(node).Ok?
    ensures var (pt, player) := IntMove(NodeToGoMove(node).value, 19);
      0 <= pt < 361 && NodeToGoMove(node).value == GoMove(player, pt % 19 + 1, pt / 19 + 1)
  {
    PointOfInverse(NodeToGoMove(node).value, 19);
  }

  /** The `game_details` that the node loop fills: `moves` and `setup` are lists of
      (point, player) pairs, and every other entry it writes is a string keyed by a property
      name. */
  datatype Details = Details(moves: seq<(int, int)>, setup: seq<(int, int)>, attrs: map<string, string>)

  /** The node `node_to_gomove` is given for one setup entry, such as `B[dd]` for an entry `dd`
      of `AB`. */
  function SetupNode(colour: char, handi: string): string {
    [colour] + "[" + handi + "]"
  }

  /** The setup list after the entries `handis` of one `AB`/`AW` value are pushed onto `pts`:
      `tt` (a pass) is skipped, and an entry that is not a point raises `ValueError`. */
  function SetupFrom(pts: seq<(int, int)>, colour: char, handis: seq<string>): Result<seq<(int, int)>, SgfError>
    decreases |handis|
  {
    if handis == [] then Ok(pts)
    else if handis[0] == "tt" then SetupFrom(pts, colour, handis[1..])
    else match NodeToGoMove(SetupNode(colour, handis[0]))
      case Err(e) => Err(e)
      case Ok(m) => SetupFrom(pts + [IntMove(m, 19)], colour, handis[1..])
  }

  /** The points of the entries that are points, in order. */
  function Stones(colour: char, handis: seq<string>): seq<(int, int)>
    decreases |handis|
  {
    if handis == [] then []
    else if handis[0] == "tt" || NodeToGoMove(SetupNode(colour, handis[0])).Err? then Stones(colour, handis[1..])
    else [IntMove(NodeToGoMove(SetupNode(colour, handis[0])).value, 19)] + Stones(colour, handis[1..])
  }

  /** An entry that is neither `tt` nor a point. */
  predicate BadEntry(colour: char, handi: string) {
    handi != "tt" && NodeToGoMove(SetupNode(colour, handi)).Err?
  }

  /** Pushing the setup entries fails exactly when one of them is neither `tt` nor a point, and
      otherwise appends the point of every entry but `tt`, in order. */
  lemma {:induction false} SetupFromMeans(pts: seq<(int, int)>, colour: char, handis: seq<string>)
    ensures SetupFrom(pts, colour, handis).Ok? <==> forall k :: 0 <= k < |handis| ==> !BadEntry(colour, handis[k])
    ensures SetupFrom(pts, colour, handis).Ok? ==> SetupFrom(pts, colour, handis).value == pts + Stones(colour, handis)
    decreases |handis|
  {
    if handis != [] {
      var rest := handis[1..];
      if handis[0] == "tt" {
        SetupFromMeans(pts, colour, rest);
      } else if NodeToGoMove(SetupNode(colour, handis[0])).Ok? {
        SetupFromMeans(pts + [IntMove(NodeToGoMove(SetupNode(colour, handis[0])).value, 19)], colour, rest);
      }
      if forall k :: 0 <= k < |rest| ==> !BadEntry(colour, rest[k]) {
        assert forall k :: 1 <= k < |handis| ==> handis[k] == rest[k - 1];
      } else {
        var k :| 0 <= k < |rest| && BadEntry(colour, rest[k]);
        assert handis[k + 1] == rest[k];
      }
    }
  }

  /** Pushing the entries onto a longer list gives the same outcome with the longer list in
      front. */
  lemma {:induction false} SetupFromShift(pts: seq<(int, int)>, q: seq<(int, int)>, colour: char, handis: seq<string>)
    ensures SetupFrom(pts + q, colour, handis) ==
      match SetupFrom(q, colour, handis) case Ok(r) => Ok(pts + r) case Err(e) => Err(e)
    decreases |handis|
  {
    if handis != [] {
      if handis[0] == "tt" {
        SetupFromShift(pts, q, colour, handis[1..]);
      } else if NodeToGoMove(SetupNode(colour, handis[0])).Ok? {
        var x := IntMove(NodeToGoMove(SetupNode(colour, handis[0])).value, 19);
        assert pts + q + [x] == pts + (q + [x]);
        SetupFromShift(pts, q + [x], colour, handis[1..]);
      }
    }
  }

  /** What the node loop makes of one node. */
  datatype Kind =
    | Move(m: GoMove)
      // appended to `moves`
    | Skipped
      // blank information
    | Setup(name: string, value: string, stones: Result<seq<(int, int)>, SgfError>)
      // `AB`/`AW`: the entries' points pushed to `setup`, the value stored under the name
    | Comment(value: string)
      // `C`: stored as `C<moves so far>`
    | Property(name: string, value: string)
      // stored under its name
    | Broken(e: SgfError)
      // `info` raises

  /** The node loop's view of a node: `AB`/`AW` information is setup. */
  function Classify(node: string): Kind {
    match KindOf(node)
    case MoveFound(m) => Move(m)
    case BlankInfo => Skipped
    case CommentInfo(value) => Comment(value)
    case PropertyInfo(name, value) =>
      if name == "AB" || name == "AW" then Setup(name, value, SetupFrom([], name[1], Split(value, ' ')))
      else Property(name, value)
    case NotInfo(e) => Broken(e)
  }

  /** The classification of every node. */
  function Kinds(nodes: seq<string>): (ks: seq<Kind>)
  {
    seq(|nodes|, k requires 0 <= k < |nodes| => Classify(nodes[k]))
  }

  /** One pass of the node loop. */
  function Step(d: Details, kind: Kind): Result<Details, SgfError> {
    match kind
    case Move(m) => Ok(d.(moves := d.moves + [IntMove(m, 19)]))
    case Skipped => Ok(d)
    case Setup(name, value, stones) =>
      (match stones
       case Err(e) => Err(e)
       case Ok(pts) => Ok(d.(setup := d.setup + pts, attrs := d.attrs[name := value])))
    case Comment(value) => Ok(d.(attrs := d.attrs["C" + Decimal(|d.moves|) := value]))
    case Property(name, value) => Ok(d.(attrs := d.attrs[name := value]))
    case Broken(e) => Err(e)
  }

  /** The details after the loop has seen nodes of the kinds `ks`, starting from `d`; the first
      exception ends it. */
  function Stored(d: Details, ks: seq<Kind>): Result<Details, SgfError>
    decreases |ks|
  {
    if ks == [] then Ok(d)
    else match Step(d, ks[0])
      case Err(e) => Err(e)
      case Ok(d') => Stored(d', ks[1..])
  }

  const EMPTY: Details := Details([], [], map[])

  /** The node loop of `store_parser`, run over the nodes that `main_branch` yields. */
  method StoreParserNodes(nodes: seq<string>) returns (r: Result<Details, SgfError>)
    ensures r == Stored(EMPTY, Kinds(nodes))
  {
    var moves: seq<(int, int)> := [];
    var setup: seq<(int, int)> := [];
    var attrs: map<string, string> := map[];
    ghost var ks := Kinds(nodes);
    var k := 0;
    while k < |nodes|
      invariant k <= |nodes|
      invariant Stored(EMPTY, ks) == Stored(Details(moves, setup, attrs), ks[k..])
    {
      var node := nodes[k];
      assert ks[k..][0] == Classify(node) && ks[k..][1..] == ks[k + 1..];
      var mv := NodeToGoMove(node);
      if mv.Ok? {
        moves := moves + [IntMove(mv.value, 19)];
      } else {
        var inf := Info(node);
        if inf.Err? {
          return Err(inf.error);
        }
        var (name, value) := inf.value;
        if value == "" || value == " " {
          k := k + 1;
          continue;
        } else if name == "AB" || name == "AW" {
          var pushed := PushSetup(setup, name[1], Split(value, ' '));
          SetupFromShift(setup, [], name[1], Split(value, ' '));
          assert setup + [] == setup;
          if pushed.Err? {
            return Err(pushed.error);
          }
          setup := pushed.value;
        } else if name == "C" {
          name := name + Decimal(|moves|);
        }
        attrs := attrs[name := value];
      }
      k := k + 1;
    }
    return Ok(Details(moves, setup, attrs));
  }

  /** The inner loop over the entries of an `AB`/`AW` value. */
  method PushSetup(setup: seq<(int, int)>, colour: char, handis: seq<string>) returns (r: Result<seq<(int, int)>, SgfError>)
    ensures r == SetupFrom(setup, colour, handis)
  {
    var pts := setup;
    var k := 0;
    while k < |handis|
      invariant k <= |handis|
      invariant SetupFrom(setup, colour, handis) == SetupFrom(pts, colour, handis[k..])
    {
      assert handis[k..][1..] == handis[k + 1..];
      var handi := handis[k];
      if handi != "tt" {
        var m := NodeToGoMove(SetupNode(colour, handi));
        if m.Err? {
          return Err(m.error);
        }
        pts := pts + [IntMove(m.value, 19)];
      }
      k := k + 1;
    }
    return Ok(pts);
  }

  // ---------------------------------------------------------------------------------------------
  // What the node loop promises

  /** A kind of node that ends the loop with an exception. */
  predicate Fails(kind: Kind) {
    kind.Broken? || (kind.Setup? && kind.stones.Err?)
  }

  /** A node fails exactly when it is neither a move nor a property, or it is non-blank `AB`/`AW`
      information with an entry that is neither `tt` nor a point. */
  lemma FailsMeans(node: string)
    ensures Fails(Classify(node)) <==>
      NodeToGoMove(node).Err? &&
      (Info(node).Err? ||
       var (name, value) := Info(node).value;
       !Blank(value) && (name == "AB" || name == "AW") &&
       exists k :: 0 <= k < |Split(value, ' ')| && BadEntry(name[1], Split(value, ' ')[k]))
  {
    if NodeToGoMove(node).Err? && Info(node).Ok? {
      var (name, value) := Info(node).value;
      if !Blank(value) && (name == "AB" || name == "AW") {
        assert Classify(node) == Setup(name, value, SetupFrom([], name[1], Split(value, ' ')));
        SetupFromMeans([], name[1], Split(value, ' '));
      }
    }
  }

  /** The move a node contributes. */
  function KindMoves(kind: Kind): seq<(int, int)> {
    if kind.Move? then [IntMove(kind.m, 19)] else []
  }

  /** The setup points a node contributes. */
  function KindSetup(kind: Kind): seq<(int, int)> {
    if kind.Setup? && kind.stones.Ok? then kind.stones.value else []
  }

  /** The moves of the move nodes, in order. */
  function MovesOf(ks: seq<Kind>): seq<(int, int)>
    decreases |ks|
  {
    if ks == [] then [] else KindMoves(ks[0]) + MovesOf(ks[1..])
  }

  /** The setup points of the `AB`/`AW` nodes with information, in order. */
  function SetupOf(ks: seq<Kind>): seq<(int, int)>
    decreases |ks|
  {
    if ks == [] then [] else KindSetup(ks[0]) + SetupOf(ks[1..])
  }

  /** The setup points of an `AB`/`AW` node are those of its entries but `tt`, in order. */
  lemma SetupMeans(node: string)
    requires Classify(node).Setup? && Classify(node).stones.Ok?
    ensures var kind := Classify(node);
      KindSetup(kind) == Stones(kind.name[1], Split(kind.value, ' '))
  {
    SetupFromMeans([], Classify(node).name[1], Split(Classify(node).value, ' '));
  }

  /** What a node stores in `game_details` under a property name when `moves` moves precede it:
      nothing for a move, for blank information or for a node that raises; `C<moves>` for a
      comment; the property's own name for everything else, `AB` and `AW` included. */
  function Written(kind: Kind, moves: nat): Option<(string, string)> {
    match kind
    case Setup(name, value, _) => Some((name, value))
    case Comment(value) => Some(("C" + Decimal(moves), value))
    case Property(name, value) => Some((name, value))
    case _ => None
  }

  lemma StepMeans(d: Details, kind: Kind)
    ensures Step(d, kind).Err? <==> Fails(kind)
    ensures Step(d, kind).Ok? ==> var d' := Step(d, kind).value;
      d'.moves == d.moves + KindMoves(kind) && d'.setup == d.setup + KindSetup(kind) &&
      d'.attrs == match Written(kind, |d.moves|) case None => d.attrs case Some((key, v)) => d.attrs[key := v]
  {
  }

  /** The loop ends with an exception exactly when one of its nodes fails; what happened before
      does not matter. */
  lemma {:induction false} StoredFails(d: Details, ks: seq<Kind>)
    ensures Stored(d, ks).Err? <==> exists k :: 0 <= k < |ks| && Fails(ks[k])
    decreases |ks|
  {
    if ks != [] {
      StepMeans(d, ks[0]);
      if Step(d, ks[0]).Ok? {
        StoredFails(Step(d, ks[0]).value, ks[1..]);
        if exists k :: 0 <= k < |ks| && Fails(ks[k]) {
          var k :| 0 <= k < |ks| && Fails(ks[k]);
          assert ks[1..][k - 1] == ks[k];
        }
        if exists k :: 0 <= k < |ks[1..]| && Fails(ks[1..][k]) {
          var k :| 0 <= k < |ks[1..]| && Fails(ks[1..][k]);
          assert ks[k + 1] == ks[1..][k];
        }
      }
    }
  }

  /** The moves of a game are its move nodes in order, and its setup the points of its `AB`/`AW`
      entries in order. */
  lemma {:induction false} StoredLists(d: Details, ks: seq<Kind>)
    requires Stored(d, ks).Ok?
    ensures Stored(d, ks).value.moves == d.moves + MovesOf(ks)
    ensures Stored(d, ks).value.setup == d.setup + SetupOf(ks)
    decreases |ks|
  {
    if ks != [] {
      StepMeans(d, ks[0]);
      StoredLists(Step(d, ks[0]).value, ks[1..]);
    }
  }

  /** The number of moves before the `k`-th node when the loop starts with `m` moves. */
  function MovesBefore(m: nat, ks: seq<Kind>, k: nat): nat
    requires k <= |ks|
  {
    m + |MovesOf(ks[..k])|
  }

  lemma MovesBeforeShift(d: Details, ks: seq<Kind>, k: nat)
    requires 0 < k <= |ks| && Step(d, ks[0]).Ok?
    ensures MovesBefore(|Step(d, ks[0]).value.moves|, ks[1..], k - 1) == MovesBefore(|d.moves|, ks, k)
  {
    StepMeans(d, ks[0]);
    assert ks[..k][1..] == ks[1..][..k - 1];
  }

  predicate Writes(kind: Kind, moves: nat, key: string) {
    Written(kind, moves).Some? && Written(kind, moves).value.0 == key
  }

  /** An entry that no node writes keeps its value. */
  lemma {:induction false} StoredKeeps(d: Details, ks: seq<Kind>, key: string)
    requires Stored(d, ks).Ok?
    requires forall k :: 0 <= k < |ks| ==> !Writes(ks[k], MovesBefore(|d.moves|, ks, k), key)
    ensures (key in Stored(d, ks).value.attrs) == (key in d.attrs)
    ensures key in d.attrs ==> Stored(d, ks).value.attrs[key] == d.attrs[key]
    decreases |ks|
  {
    if ks != [] {
      StepMeans(d, ks[0]);
      var d' := Step(d, ks[0]).value;
      assert ks[..0] == [];
      assert !Writes(ks[0], |d.moves|, key);
      forall k | 0 <= k < |ks[1..]|
        ensures !Writes(ks[1..][k], MovesBefore(|d'.moves|, ks[1..], k), key)
      {
        MovesBeforeShift(d, ks, k + 1);
        assert ks[1..][k] == ks[k + 1];
      }
      StoredKeeps(d', ks[1..], key);
    }
  }

  /** Every piece of information is stored under its key, `C` followed by the number of moves so
      far for a comment, unless a later node writes the same key. */
  lemma {:induction false} StoredLastWrite(d: Details, ks: seq<Kind>, k: nat)
    requires Stored(d, ks).Ok? && k < |ks|
    requires Written(ks[k], MovesBefore(|d.moves|, ks, k)).Some?
    requires var key := Written(ks[k], MovesBefore(|d.moves|, ks, k)).value.0;
      forall j :: k < j < |ks| ==> !Writes(ks[j], MovesBefore(|d.moves|, ks, j), key)
    ensures var (key, value) := Written(ks[k], MovesBefore(|d.moves|, ks, k)).value;
      key in Stored(d, ks).value.attrs && Stored(d, ks).value.attrs[key] == value
    decreases |ks|
  {
    StepMeans(d, ks[0]);
    var d' := Step(d, ks[0]).value;
    var (key, value) := Written(ks[k], MovesBefore(|d.moves|, ks, k)).value;
    forall j | 0 <= j < |ks[1..]| && j >= k
      ensures !Writes(ks[1..][j], MovesBefore(|d'.moves|, ks[1..], j), key)
    {
      MovesBeforeShift(d, ks, j + 1);
      assert ks[1..][j] == ks[j + 1];
    }
    if k == 0 {
      assert ks[..0] == [];
      StoredKeeps(d', ks[1..], key);
    } else {
      MovesBeforeShift(d, ks, k);
      assert ks[1..][k - 1] == ks[k];
      StoredLastWrite(d', ks[1..], k - 1);
    }
  }

  // ---------------------------------------------------------------------------------------------
  // The doctests of src/sgf.py and src/sgf/read.py

  lemma NodeToGoMoveDoctest()
    ensures NodeToGoMove("B[dc]") == Ok(GoMove(1, 4, 3))
    ensures NodeToGoMove("W[pq]") == Ok(GoMove(-1, 16, 17))
  {
    assert MoveAt("B[dc]", 0) && MoveAt("W[pq]", 0);
  }

  lemma NodeToGoMoveRaises()
    ensures NodeToGoMove("error") == Err(ValueError(NotMoveMessage("error", "an")))
  {
    assert !MoveAt("error", 0);
  }

  lemma IntMoveDoctest()
    ensures IntMove(GoMove(-1, 16, 17), 19) == (319, -1)
  {
  }

  lemma InfoDoctest()
    ensures Info("SZ[19]") == Ok(("SZ", "19"))
  {
    InfoOfProperty("SZ", "19");
    assert "SZ" + "[" + "19" + "]" == "SZ[19]";
  }

  /** `main_branch(parser('(;SZ[19](;B[qd];W[dd];B[oc])(;B[do];W[dq]))'))`. */
  lemma MainBranchDoctest()
    ensures MainBranch([Node("SZ[19]"), Branch([Node("B[qd]"), Node("W[dd]"), Node("B[oc]")]),
                        Branch([Node("B[do]"), Node("W[dq]")])])
         == ["SZ[19]", "B[qd]", "W[dd]", "B[oc]"]
  {
  }

  /** The branching record of tests/test_sgf.py:49-63, as `parser` nests it: the main branch
      takes the first sublist at every level and ignores the later ones. */
  lemma MainBranchNested()
    ensures MainBranch([Node("RU[Japanese]"), Node("SZ[19]"), Node("KM[6.50]"), Node("B[jj]"), Node("W[kl]"),
                        Branch([Node("B[pd]"), Branch([Node("W[pp]")]),
                                Branch([Node("W[dc]"), Branch([Node("B[de]")]), Branch([Node("B[dp]")])])]),
                        Branch([Node("B[cd]"), Node("W[dp]")]),
                        Branch([Node("B[cq]"), Branch([Node("W[pq]")]), Branch([Node("W[pd]")])]),
                        Branch([Node("B[oq]"), Node("W[dd]")])])
         == ["RU[Japanese]", "SZ[19]", "KM[6.50]", "B[jj]", "W[kl]", "B[pd]", "W[pp]"]
  {
    var pd := [Node("B[pd]"), Branch([Node("W[pp]")]),
               Branch([Node("W[dc]"), Branch([Node("B[de]")]), Branch([Node("B[dp]")])])];
    var items := [Node("RU[Japanese]"), Node("SZ[19]"), Node("KM[6.50]"), Node("B[jj]"), Node("W[kl]"),
                  Branch(pd),
                  Branch([Node("B[cd]"), Node("W[dp]")]),
                  Branch([Node("B[cq]"), Branch([Node("W[pq]")]), Branch([Node("W[pd]")])]),
                  Branch([Node("B[oq]"), Node("W[dd]")])];
    assert MainBranch([Node("W[pp]")]) == ["W[pp]"];
    assert MainBranch(pd[1..]) == ["W[pp]"];
    assert MainBranch(pd) == ["B[pd]", "W[pp]"];
    assert MainBranch(items[5..]) == ["B[pd]", "W[pp]"];
    assert MainBranch(items[4..]) == ["W[kl]", "B[pd]", "W[pp]"];
    assert MainBranch(items[3..]) == ["B[jj]", "W[kl]", "B[pd]", "W[pp]"];
    assert MainBranch(items[2..]) == ["KM[6.50]", "B[jj]", "W[kl]", "B[pd]", "W[pp]"];
    assert MainBranch(items[1..]) == ["SZ[19]", "KM[6.50]", "B[jj]", "W[kl]", "B[pd]", "W[pp]"];
  }
}
