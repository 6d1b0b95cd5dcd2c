/** The SGF node helpers shared by src/sgf.py, src/sgf/read.py, sgf/read.py and pro_heat/sgf.py:
    the parsed game record (`main_branch`, `sgf_main_branch`), the move pattern
    `[BW]\[[a-s][a-s]\]` behind `node_to_gomove`/`node_to_move`, the property pattern
    `([A-Z][A-Z]?)\[(.+?)\]` behind `info`/`sgf_info`, and the point number of a move
    (`intmove`). Letters `a`..`s` are the coordinates 1..19 of the SGF FF[4] move notation,
    column first. Python's `re` is modelled by its leftmost-first matching of these two patterns:
    `findall(...)[0]` is the match that starts first. */
module SgfNodes {
  import opened Wrappers
  import opened Text
  import Adjacency

  /** What the SGF parser hands on: node strings, and sublists for the branches. */
  datatype Item = Node(text: string) | Branch(items: seq<Item>)

  /** The `GoMove(player, x, y)` namedtuple: player 1 for black and -1 for white, column `x`
      and row `y` counted from 1. */
  datatype GoMove = GoMove(player: int, x: int, y: int)

  /** The exceptions the SGF helpers raise. */
  datatype SgfError = ValueError(message: string) | KeyError(key: string) | IndexError

  // ---------------------------------------------------------------------------------------------
  // main_branch

  /** The strings `main_branch` yields: the top-level strings in order, and at the first sublist
      the main branch of that sublist, after which the rest of the list is not looked at. */
  function MainBranch(items: seq<Item>): seq<string>
    decreases items
  {
    if items == [] then []
    else match items[0]
      case Node(t) => [t] + MainBranch(items[1..])
      case Branch(sub) => MainBranch(sub)
  }

  /** The position of the first sublist, or `|items|` when there is none. */
  function FirstBranch(items: seq<Item>): (k: nat)
    ensures k <= |items|
    ensures forall j :: 0 <= j < k ==> items[j].Node?
    ensures k < |items| ==> items[k].Branch?
  {
    if items == [] || items[0].Branch? then 0 else 1 + FirstBranch(items[1..])
  }

  /** The strings of a list without sublists. */
  function Texts(items: seq<Item>): (s: seq<string>)
    requires forall j :: 0 <= j < |items| ==> items[j].Node?
    ensures |s| == |items| && forall j :: 0 <= j < |items| ==> s[j] == items[j].text
  {
    if items == [] then [] else [items[0].text] + Texts(items[1..])
  }

  /** Every string of the record, branches included, in the order the record lists them. */
  function Preorder(items: seq<Item>): seq<string>
    decreases items
  {
    if items == [] then []
    else match items[0]
      case Node(t) => [t] + Preorder(items[1..])
      case Branch(sub) => Preorder(sub) + Preorder(items[1..])
  }

  /** The main branch is the strings before the first sublist followed by that sublist's main
      branch; a list without sublists is its own main branch. */
  lemma {:induction false} MainBranchSplits(items: seq<Item>)
    ensures var k := FirstBranch(items);
      MainBranch(items) == Texts(items[..k]) + (if k < |items| then MainBranch(items[k].items) else [])
    decreases |items|
  {
    if items != [] && items[0].Node? {
      MainBranchSplits(items[1..]);
      var k := FirstBranch(items);
      assert items[1..][..k - 1] == items[1..k];
      assert items[..k] == [items[0]] + items[1..k];
      assert Texts(items[..k]) == [items[0].text] + Texts(items[1..k]);
      if k < |items| {
        assert items[1..][k - 1] == items[k];
      }
    }
  }

  /** The main branch is what a reader of the whole record sees first: a prefix of all its strings
      in order. */
  lemma {:induction false} MainBranchIsPrefix(items: seq<Item>)
    ensures |MainBranch(items)| <= |Preorder(items)|
    ensures MainBranch(items) == Preorder(items)[..|MainBranch(items)|]
    decreases items
  {
    if items != [] {
      match items[0]
      case Node(t) =>
        MainBranchIsPrefix(items[1..]);
      case Branch(sub) =>
        MainBranchIsPrefix(sub);
        assert (Preorder(sub) + Preorder(items[1..]))[..|MainBranch(sub)|] == Preorder(sub)[..|MainBranch(sub)|];
    }
  }

  // ---------------------------------------------------------------------------------------------
  // The move pattern [BW]\[[a-s][a-s]\]

  predicate IsCoordLetter(c: char) {
    'a' <= c <= 's'
  }

  predicate IsUpper(c: char) {
    'A' <= c <= 'Z'
  }

  /** The pattern matches the five characters at `i`. */
  predicate MoveAt(s: string, i: nat) {
    i + 5 <= |s| && (s[i] == 'B' || s[i] == 'W') && s[i + 1] == '[' &&
    IsCoordLetter(s[i + 2]) && IsCoordLetter(s[i + 3]) && s[i + 4] == ']'
  }

  /** Where the leftmost match at or after `from` starts. */
  function FirstMoveAt(s: string, from: nat): (r: Option<nat>)
    ensures r.Some? ==> from <= r.value && MoveAt(s, r.value)
    ensures r.Some? ==> forall j :: from <= j < r.value ==> !MoveAt(s, j)
    ensures r.None? ==> forall j :: from <= j ==> !MoveAt(s, j)
    decreases |s| - from
  {
    if from + 5 > |s| then None
    else if MoveAt(s, from) then Some(from)
    else FirstMoveAt(s, from + 1)
  }

  /** The coordinate of a letter: `a` is 1 and `s` is 19. */
  function Coord(c: char): (v: int)
    requires IsCoordLetter(c)
    ensures 1 <= v <= 19
  {
    c as int - 'a' as int + 1
  }

  /** The move of the first pattern match in `node`, or `None`: `B` is player 1 and `W` player
      -1, the first letter the column `x` and the second the row `y`. */
  function ReadMove(node: string): (r: Option<GoMove>)
    ensures r.Some? ==> (r.value.player == 1 || r.value.player == -1) && 1 <= r.value.x <= 19 && 1 <= r.value.y <= 19
    ensures r.None? <==> forall j :: 0 <= j ==> !MoveAt(node, j)
  {
    match FirstMoveAt(node, 0)
    case None => None
    case Some(i) => Some(GoMove(if node[i] == 'B' then 1 else -1, Coord(node[i + 2]), Coord(node[i + 3])))
  }

  /** A move on the 19 × 19 grid of the SGF notation. */
  predicate IsSgfMove(m: GoMove) {
    (m.player == 1 || m.player == -1) && 1 <= m.x <= 19 && 1 <= m.y <= 19
  }

  /** The letter of coordinate `v`. */
  function Letter(v: int): (c: char)
    requires 1 <= v <= 19
    ensures IsCoordLetter(c) && Coord(c) == v
  {
    ('a' as int + v - 1) as char
  }

  /** The SGF node that records `m`, such as `B[dc]`. */
  function MoveNode(m: GoMove): (s: string)
    requires IsSgfMove(m)
  {
    [if m.player == 1 then 'B' else 'W', '[', Letter(m.x), Letter(m.y), ']']
  }

  /** Reading the node of a move gives the move back. */
  lemma ReadMoveNode(m: GoMove)
    requires IsSgfMove(m)
    ensures ReadMove(MoveNode(m)) == Some(m)
  {
    assert MoveAt(MoveNode(m), 0);
  }

  /** Reading a node and writing it again gives the matched text of the node. */
  lemma MoveNodeOfRead(node: string)
    requires ReadMove(node).Some?
    ensures var i := FirstMoveAt(node, 0).value;
      IsSgfMove(ReadMove(node).value) && MoveNode(ReadMove(node).value) == node[i..i + 5]
  {
    var i := FirstMoveAt(node, 0).value;
    var m := ReadMove(node).value;
    assert Letter(m.x) == node[i + 2] && Letter(m.y) == node[i + 3];
  }

  /** The message of the `ValueError` for a node without a move, `article` being the "a" or "an"
      of the file's own wording. */
  function NotMoveMessage(node: string, article: string): string {
    "\"" + node + "\" is not " + article + " sgf move formatted node"
  }

  /** `node_to_gomove` of sgf/read.py and `node_to_move` of pro_heat/sgf.py. */
  function NodeToMove(node: string): (r: Result<GoMove, SgfError>)
    ensures r.Ok? ==> IsSgfMove(r.value)
    ensures r.Err? <==> forall j :: 0 <= j ==> !MoveAt(node, j)
    ensures r.Err? ==> r.error == ValueError(NotMoveMessage(node, "a"))
  {
    match ReadMove(node)
    case None => Err(ValueError(NotMoveMessage(node, "a")))
    case Some(m) => Ok(m)
  }

  /** The point number of a move on a `size` × `size` board, the `intmove` of all the readers:
      row-major, from 0. */
  function PointOf(m: GoMove, size: int): int {
    m.x - 1 + (m.y - 1) * size
  }

  /** A move inside the board has a point inside the board, and the point gives the move's column
      and row back. */
  lemma PointOfInverse(m: GoMove, size: int)
    requires 1 <= m.x <= size && 1 <= m.y <= size
    ensures 0 <= PointOf(m, size) < size * size
    ensures PointOf(m, size) % size == m.x - 1 && PointOf(m, size) / size == m.y - 1
  {
    Adjacency.Coordinates(size, m.y - 1, m.x - 1);
  }

  // ---------------------------------------------------------------------------------------------
  // The property pattern ([A-Z][A-Z]?)\[(.+?)\]

  /** Where the lazy `.+?` stops when it has consumed everything before `k`: the first `]` at or
      after `k`, with no newline before it (`.` does not match a newline). */
  function Close(s: string, k: nat): (r: Option<nat>)
    ensures r.Some? ==> k <= r.value < |s| && s[r.value] == ']'
    ensures r.Some? ==> forall j :: k <= j < r.value ==> s[j] != ']' && s[j] != '\n'
    ensures r.None? ==> forall j :: k <= j < |s| && s[j] == ']' ==> '\n' in s[k..j]
    decreases |s| - k
  {
    if k >= |s| then None
    else if s[k] == ']' then Some(k)
    else if s[k] == '\n' then None
    else
      var r := Close(s, k + 1);
      assert r.None? ==> forall j :: k + 1 <= j < |s| && s[j] == ']' ==> s[k + 1..j] <= s[k..j][1..];
      r
  }

  /** The value of `\[(.+?)\]` when the `[` is at `b`: at least one character that is not a
      newline, up to the first `]` after it. */
  function ValueAt(s: string, b: nat): (r: Option<string>)
    ensures r.Some? <==> b + 1 < |s| && s[b] == '[' && s[b + 1] != '\n' && Close(s, b + 2).Some?
    ensures r.Some? ==> var e := b + 1 + |r.value|;
      |r.value| >= 1 && e < |s| && s[e] == ']' && r.value == s[b + 1..e] &&
      (forall j :: 0 <= j < |r.value| ==> r.value[j] != '\n') &&
      (forall j :: 1 <= j < |r.value| ==> r.value[j] != ']')
  {
    if b + 1 < |s| && s[b] == '[' && s[b + 1] != '\n' then
      match Close(s, b + 2)
      case None => None
      case Some(j) => Some(s[b + 1..j])
    else None
  }

  /** The match of the property pattern that starts at `i`, as (name, value): the optional
      second upper-case letter is tried first. */
  function InfoAt(s: string, i: nat): (r: Option<(string, string)>)
    ensures r.Some? ==> var (n, v) := r.value;
      (|n| == 1 || |n| == 2) && (forall k :: 0 <= k < |n| ==> IsUpper(n[k])) && |v| >= 1 &&
      i + |n| + |v| + 2 <= |s| && s[i..i + |n| + |v| + 2] == n + "[" + v + "]" &&
      (forall k :: 0 <= k < |v| ==> v[k] != '\n') && (forall k :: 1 <= k < |v| ==> v[k] != ']')
  {
    if i < |s| && IsUpper(s[i]) then
      var two := if i + 1 < |s| && IsUpper(s[i + 1]) then ValueAt(s, i + 2) else None;
      if two.Some? then Some((s[i..i + 2], two.value))
      else match ValueAt(s, i + 1)
        case None => None
        case Some(v) => Some((s[i..i + 1], v))
    else None
  }

  /** Where the leftmost match of the property pattern at or after `from` starts. */
  function FirstInfoAt(s: string, from: nat): (r: Option<nat>)
    ensures r.Some? ==> from <= r.value < |s| && InfoAt(s, r.value).Some?
    ensures r.Some? ==> forall j :: from <= j < r.value ==> InfoAt(s, j).None?
    ensures r.None? ==> forall j :: from <= j ==> InfoAt(s, j).None?
    decreases |s| - from
  {
    if from >= |s| then None
    else if InfoAt(s, from).Some? then Some(from)
    else FirstInfoAt(s, from + 1)
  }

  function NotInfoMessage(attribute: string): string {
    "\"" + attribute + "\" is not a sgf info formatted node."
  }

  /** `info` (`sgf_info` in pro_heat/sgf.py): the name and value of the leftmost property in the
      node, or `ValueError` when there is none. */
  function Info(attribute: string): (r: Result<(string, string), SgfError>)
    ensures r.Ok? <==> exists i :: 0 <= i < |attribute| && InfoAt(attribute, i).Some?
    ensures r.Ok? ==> r.value == InfoAt(attribute, FirstInfoAt(attribute, 0).value).value
    ensures r.Ok? ==> r.value.1 != ""
    ensures r.Err? ==> r.error == ValueError(NotInfoMessage(attribute))
  {
    match FirstInfoAt(attribute, 0)
    case None => Err(ValueError(NotInfoMessage(attribute)))
    case Some(i) => Ok(InfoAt(attribute, i).value)
  }

  /** A value that the lazy `.+?` reads to its end. */
  predicate CleanValue(v: string) {
    |v| >= 1 && v[0] != '\n' && forall k :: 1 <= k < |v| ==> v[k] != ']' && v[k] != '\n'
  }

  /** A property written `name[value]` reads back as that name and value. */
  lemma {:induction false} InfoOfProperty(n: string, v: string)
    requires (|n| == 1 || |n| == 2) && forall k :: 0 <= k < |n| ==> IsUpper(n[k])
    requires CleanValue(v)
    ensures Info(n + "[" + v + "]") == Ok((n, v))
  {
    var s := n + "[" + v + "]";
    var b := |n|;
    assert s[b] == '[' && s[b + 1] == v[0];
    CloseAtEnd(s, b + 2, |s| - 1);
    assert s[b + 1..|s| - 1] == v;
    assert ValueAt(s, b) == Some(v);
    assert n[0] == s[0];
    if |n| == 2 {
      assert s[0..2] == n;
    } else {
      assert !IsUpper(s[1]);
      assert s[0..1] == n;
    }
    assert FirstInfoAt(s, 0) == Some(0);
  }

  lemma {:induction false} CloseAtEnd(s: string, k: nat, e: nat)
    requires k <= e < |s| && s[e] == ']'
    requires forall j :: k <= j < e ==> s[j] != ']' && s[j] != '\n'
    ensures Close(s, k) == Some(e)
    decreases e - k
  {
    if k < e {
      CloseAtEnd(s, k + 1, e);
    }
  }

  // ---------------------------------------------------------------------------------------------
  // How the readers' node loops sort a node

  /** Information the node loops do not record. */
  predicate Blank(value: string) {
    value == "" || value == " "
  }

  /** What a node of a main branch is to the node loops: a move when the move pattern matches
      anywhere in it, otherwise the leftmost property, which is ignored when its value is blank;
      a node that is neither makes `info` raise. */
  datatype NodeKind =
    | MoveFound(m: GoMove)
    | BlankInfo
    | CommentInfo(value: string)
    | PropertyInfo(name: string, value: string)
    | NotInfo(e: SgfError)

  function KindOf(node: string): (k: NodeKind)
    ensures k.MoveFound? <==> ReadMove(node).Some?
    ensures k.NotInfo? <==> ReadMove(node).None? && Info(node).Err?
    ensures k.PropertyInfo? ==> k.name != "C" && !Blank(k.value)
  {
    match ReadMove(node)
    case Some(m) => MoveFound(m)
    case None => (
      match Info(node)
      case Err(e) => NotInfo(e)
      case Ok((name, value)) =>
        if Blank(value) then BlankInfo
        else if name == "C" then CommentInfo(value)
        else PropertyInfo(name, value))
  }

  /** The kind of every node. */
  function KindsOf(nodes: seq<string>): (ks: seq<NodeKind>)
  {
    seq(|nodes|, k requires 0 <= k < |nodes| => KindOf(nodes[k]))
  }

  /** The moves of the move nodes, in order. */
  function MovesIn(ks: seq<NodeKind>): seq<GoMove>
    decreases |ks|
  {
    if ks == [] then []
    else (if ks[0].MoveFound? then [ks[0].m] else []) + MovesIn(ks[1..])
  }

  /** The key a node stores its information under when `moves` moves precede it: a comment is
      tied to its move as `C<moves>`; moves, blank information and broken nodes store nothing. */
  function KeyOf(kind: NodeKind, moves: nat): set<string> {
    match kind
    case CommentInfo(_) => {"C" + Decimal(moves)}
    case PropertyInfo(name, _) => {name}
    case _ => {}
  }

  /** The keys the nodes store under, when `moves` moves precede the first. */
  function KeysIn(ks: seq<NodeKind>, moves: nat): set<string>
    decreases |ks|
  {
    if ks == [] then {}
    else KeyOf(ks[0], moves) + KeysIn(ks[1..], moves + if ks[0].MoveFound? then 1 else 0)
  }
}
