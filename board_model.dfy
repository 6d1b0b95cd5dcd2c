/** The state of go.py's `Board` as a value, and the state changes of `_find`,
    `change_colour` and its inner `update_neigh_libs` as functions of it.

    go.py's `Group` is a namedtuple holding only a colour (go.py:8), so two groups of one colour
    are equal and share one key in `_pointers` and in `_liberties`. The model follows the
    evident design instead: every `Group(colour=...)` that `change_colour` builds is a distinct
    group, named by an id. Id 0 is the shared `OPEN_POINT`. */
module BoardModel {
  import opened Wrappers
  import opened PointerForest
  import opened Adjacency

  const BLACK: int := 1
  const WHITE: int := -1
  const OPEN: int := 0
  /** The id of `OPEN_POINT`. */
  const OPEN_POINT: nat := 0

  /** The exceptions of go.py's Board: `BoardError` with its five messages, and the KeyError and
      TypeError Python raises. */
  datatype BoardError =
    | UnrecognisedColour  // 'Unrecognized colour'
    | ExpectedGroup       // 'Expected Group. Got ...'
    | OpenLiberties       // 'Open points do not have liberties'
    | SameGroup           // 'Cannot union same group'
    | DifferentColours    // 'Cannot union different colour stones'
    | KeyError
    | TypeError

  /** A board's state:
      - `pointers`: the point keys of `_pointers`, each mapped to the id of the group it holds;
      - `colours[g]`: the colour of group `g`;
      - `links[g]`: the group `_pointers` maps group `g` to, or `g` itself when `g` is not a key
        (only `_union` writes group keys);
      - `rank`: bookkeeping that shows `links` has no cycles;
      - `liberties`: the `_liberties` defaultdict, keyed by group id. */
  datatype Snapshot = Snapshot(
    pointers: map<int, nat>,
    colours: seq<int>,
    links: seq<int>,
    rank: seq<nat>,
    liberties: map<nat, set<int>>)

  /** The group links form a forest and every point holds an existing group. */
  ghost predicate Linked(s: Snapshot) {
    IsForest(s.links, s.rank) && |s.colours| == |s.links| &&
    forall pt :: pt in s.pointers ==> s.pointers[pt] < |s.links|
  }

  /** The invariant every board keeps: neighbour tables exist for its size, every board point
      is a key, `OPEN_POINT` is the only open group, and a group key points at a group of its
      own colour. */
  ghost predicate Wellformed(size: nat, s: Snapshot) {
    Linked(s) && TableSize(size) && |s.links| > OPEN_POINT && s.colours[OPEN_POINT] == OPEN &&
    (forall g :: 0 <= g < |s.colours| ==> (s.colours[g] == OPEN <==> g == OPEN_POINT)) &&
    (forall g :: 0 <= g < |s.links| ==> s.colours[s.links[g]] == s.colours[g]) &&
    (forall pt :: OnBoard(size, pt) ==> pt in s.pointers)
  }

  /** `_liberties[g]` read without inserting: the default is empty. */
  function Libs(l: map<nat, set<int>>, g: nat): set<int> {
    if g in l then l[g] else {}
  }

  /** `colour(pt)`: the colour of the group `_pointers[pt]` holds. */
  ghost function ColourAt(s: Snapshot, pt: int): int
    requires Linked(s) && pt in s.pointers
  {
    s.colours[s.pointers[pt]]
  }

  /** The group `_find(pt)` returns: the end of the chain of group keys. */
  ghost function GroupOf(s: Snapshot, pt: int): (g: nat)
    requires Linked(s) && pt in s.pointers
    ensures g < |s.links| && s.links[g] == g
  {
    Root(s.links, s.rank, s.pointers[pt])
  }

  /** The state after `_find(pt)` on a point key: `pt` now holds its group directly. */
  ghost function Found(s: Snapshot, pt: int): (r: Snapshot)
    requires Linked(s) && pt in s.pointers
    ensures Linked(r) && r.pointers.Keys == s.pointers.Keys
    ensures forall q :: q in s.pointers ==> GroupOf(r, q) == GroupOf(s, q)
  {
    s.(pointers := s.pointers[pt := GroupOf(s, pt)])
  }

  /** The liberties of one neighbouring group after `update_neigh_libs`: reopening `pt` adds
      it to every stone group; placing a stone, or reopening beside `OPEN_POINT`, removes it. */
  function Touched(libs: set<int>, g: nat, pt: int, add: bool): set<int> {
    if add && g != OPEN_POINT then libs + {pt} else libs - {pt}
  }

  /** `_liberties[g] += {pt}` or `-= {pt}` with defaultdict semantics. go.py:210 writes `+=`,
      which Python refuses on sets (TypeError); the model takes the evident `|=`. */
  function Touch(l: map<nat, set<int>>, g: nat, pt: int, add: bool): map<nat, set<int>> {
    l[g := Touched(Libs(l, g), g, pt, add)]
  }

  /** go.py:210 as written: `set += set` raises TypeError. */
  function TouchAsWritten(l: map<nat, set<int>>, g: nat, pt: int, add: bool): Result<map<nat, set<int>>, BoardError> {
    if add && g != OPEN_POINT then Err(TypeError) else Ok(l[g := Libs(l, g) - {pt}])
  }

  /** `update_neigh_libs(pt, add)` over the neighbour list `ns`: each neighbour is found (and
      compressed), then its group's liberties are touched. */
  ghost function NeighbourLibs(s: Snapshot, ns: seq<int>, pt: int, add: bool): (r: Snapshot)
    requires Linked(s) && forall n :: n in ns ==> n in s.pointers
    ensures Linked(r)
    decreases |ns|
  {
    if ns == [] then s
    else
      var g := GroupOf(s, ns[0]);
      NeighbourLibs(s.(pointers := s.pointers[ns[0] := g], liberties := Touch(s.liberties, g, pt, add)),
        ns[1..], pt, add)
  }

  /** The groups of the points `ns`. */
  ghost function GroupsOf(s: Snapshot, ns: seq<int>): set<nat>
    requires Linked(s) && forall n :: n in ns ==> n in s.pointers
  {
    set n | n in ns :: GroupOf(s, n)
  }

  /** The loop body of `change_colour` for one point: write `OPEN_POINT` or a fresh group of
      colour `c` at `pt`, then update the neighbouring groups' liberties. An off-board `pt` is
      written and then has no neighbour table (KeyError), so nothing more happens. */
  ghost function Placed(size: nat, s: Snapshot, pt: int, c: int): (r: Snapshot)
    requires Wellformed(size, s) && (c == BLACK || c == WHITE || c == OPEN)
  {
    var s1 := Written(s, pt, c);
    if !OnBoard(size, pt) then s1
    else
      TablesOnBoard(size, pt);
      NeighbourLibs(s1, Neighbours(size, pt), pt, c == OPEN)
  }

  /** `self[pt] = OPEN_POINT` or `self[pt] = Group(colour=c)`. */
  ghost function Written(s: Snapshot, pt: int, c: int): (r: Snapshot)
    requires Linked(s) && |s.links| > OPEN_POINT
    ensures Linked(r) && r.pointers.Keys == s.pointers.Keys + {pt}
  {
    if c == OPEN then s.(pointers := s.pointers[pt := OPEN_POINT])
    else
      AppendedIsForest(s.links, s.rank);
      s.(pointers := s.pointers[pt := |s.colours|], colours := s.colours + [c],
         links := s.links + [|s.links|], rank := s.rank + [0])
  }

  /** A new self-pointing element keeps the forest. */
  lemma AppendedIsForest(p: seq<int>, rank: seq<nat>)
    requires IsForest(p, rank)
    ensures IsForest(p + [|p|], rank + [0])
  {
  }

  /** ... and every old element's representative. */
  lemma {:induction false} AppendedRoot(p: seq<int>, rank: seq<nat>, i: int)
    requires IsForest(p, rank) && 0 <= i < |p|
    ensures IsForest(p + [|p|], rank + [0])
    ensures Root(p + [|p|], rank + [0], i) == Root(p, rank, i)
    decreases rank[i]
  {
    AppendedIsForest(p, rank);
    if p[i] != i {
      AppendedRoot(p, rank, p[i]);
    }
  }

  /** A point's group has the colour of the group it holds. */
  lemma {:induction false} RootColour(s: Snapshot, g: int)
    requires Linked(s) && 0 <= g < |s.links|
    requires forall h :: 0 <= h < |s.links| ==> s.colours[s.links[h]] == s.colours[h]
    ensures s.colours[Root(s.links, s.rank, g)] == s.colours[g]
    decreases s.rank[g]
  {
    if s.links[g] != g {
      RootColour(s, s.links[g]);
    }
  }

  /** One step of `update_neigh_libs`: find the neighbour `n`, then touch its group. */
  ghost function NeighbourStep(s: Snapshot, n: int, pt: int, add: bool): (r: Snapshot)
    requires Linked(s) && n in s.pointers
    ensures Linked(r) && r.colours == s.colours && r.links == s.links && r.rank == s.rank
    ensures r.pointers.Keys == s.pointers.Keys
    ensures forall q :: q in s.pointers ==> GroupOf(r, q) == GroupOf(s, q)
  {
    var g := GroupOf(s, n);
    s.(pointers := s.pointers[n := g], liberties := Touch(s.liberties, g, pt, add))
  }

  /** Pointing points at groups they already resolve to, and any change of liberties, keep a
      board well formed. */
  lemma SameLinksWellformed(size: nat, s: Snapshot, r: Snapshot)
    requires Wellformed(size, s) && Linked(r)
    requires r.colours == s.colours && r.links == s.links && r.rank == s.rank
    requires r.pointers.Keys == s.pointers.Keys
    ensures Wellformed(size, r)
  {
  }

  lemma NeighbourLibsUnfold(s: Snapshot, ns: seq<int>, pt: int, add: bool)
    requires Linked(s) && (forall n :: n in ns ==> n in s.pointers) && ns != []
    ensures NeighbourLibs(s, ns, pt, add) == NeighbourLibs(NeighbourStep(s, ns[0], pt, add), ns[1..], pt, add)
  {
  }

  /** `update_neigh_libs` changes no colour, no link and no point's group. */
  lemma {:induction false} NeighbourLibsFrame(s: Snapshot, ns: seq<int>, pt: int, add: bool)
    requires Linked(s) && forall n :: n in ns ==> n in s.pointers
    ensures var r := NeighbourLibs(s, ns, pt, add);
      r.colours == s.colours && r.links == s.links && r.rank == s.rank &&
      r.pointers.Keys == s.pointers.Keys &&
      forall q :: q in s.pointers ==> GroupOf(r, q) == GroupOf(s, q)
    decreases |ns|
  {
    if ns != [] {
      NeighbourLibsUnfold(s, ns, pt, add);
      NeighbourLibsFrame(NeighbourStep(s, ns[0], pt, add), ns[1..], pt, add);
    }
  }

  /** `update_neigh_libs` points every neighbour directly at its group and no other point
      changes. */
  lemma {:induction false} NeighbourLibsPointers(s: Snapshot, ns: seq<int>, pt: int, add: bool)
    requires Linked(s) && forall n :: n in ns ==> n in s.pointers
    ensures var r := NeighbourLibs(s, ns, pt, add);
      r.pointers.Keys == s.pointers.Keys &&
      forall q :: q in s.pointers ==> r.pointers[q] == if q in ns then GroupOf(s, q) else s.pointers[q]
    decreases |ns|
  {
    if ns != [] {
      var s1 := NeighbourStep(s, ns[0], pt, add);
      NeighbourLibsUnfold(s, ns, pt, add);
      NeighbourLibsPointers(s1, ns[1..], pt, add);
      assert forall q :: q in ns <==> q == ns[0] || q in ns[1..];
    }
  }

  /** `update_neigh_libs` touches the liberties of exactly the neighbouring groups. */
  lemma {:induction false} NeighbourLibsLiberties(s: Snapshot, ns: seq<int>, pt: int, add: bool)
    requires Linked(s) && forall n :: n in ns ==> n in s.pointers
    ensures var r := NeighbourLibs(s, ns, pt, add);
      forall g :: Libs(r.liberties, g) ==
        if g in GroupsOf(s, ns) then Touched(Libs(s.liberties, g), g, pt, add) else Libs(s.liberties, g)
    decreases |ns|
  {
    if ns != [] {
      var g := GroupOf(s, ns[0]);
      var s1 := NeighbourStep(s, ns[0], pt, add);
      var r := NeighbourLibs(s, ns, pt, add);
      var rest := GroupsOf(s1, ns[1..]);
      NeighbourLibsUnfold(s, ns, pt, add);
      NeighbourLibsLiberties(s1, ns[1..], pt, add);
      assert GroupsOf(s, ns) == rest + {g} by {
        assert forall n :: n in ns <==> n == ns[0] || n in ns[1..];
      }
      assert s1.liberties == Touch(s.liberties, g, pt, add);
      forall h
        ensures Libs(r.liberties, h) ==
          if h in GroupsOf(s, ns) then Touched(Libs(s.liberties, h), h, pt, add) else Libs(s.liberties, h)
      {
        TouchLibs(s.liberties, g, pt, add, h);
        assert Libs(r.liberties, h) ==
          if h in rest then Touched(Libs(s1.liberties, h), h, pt, add) else Libs(s1.liberties, h);
      }
    }
  }

  lemma TouchLibs(l: map<nat, set<int>>, g: nat, pt: int, add: bool, h: nat)
    ensures Libs(Touch(l, g, pt, add), h) == if h == g then Touched(Libs(l, g), g, pt, add) else Libs(l, h)
    ensures Touched(Touched(Libs(l, g), g, pt, add), g, pt, add) == Touched(Libs(l, g), g, pt, add)
  {
  }

  /** No point is its own neighbour. */
  lemma NotOwnNeighbour(size: nat, pt: int)
    requires size > 0 && OnBoard(size, pt)
    ensures pt !in Neighbours(size, pt)
  {
    NeighboursAreAdjacent(size, pt, pt);
  }

  /** Writing a point changes no other point's colour or group. */
  lemma WrittenEffect(size: nat, s: Snapshot, pt: int, c: int)
    requires Wellformed(size, s) && (c == BLACK || c == WHITE || c == OPEN)
    ensures var r := Written(s, pt, c);
      Wellformed(size, r) && ColourAt(r, pt) == c &&
      r.liberties == s.liberties &&
      (forall q :: q in s.pointers && q != pt ==> ColourAt(r, q) == ColourAt(s, q)) &&
      (forall q :: q in s.pointers && q != pt ==> GroupOf(r, q) == GroupOf(s, q))
  {
    var r := Written(s, pt, c);
    if c != OPEN {
      forall q | q in s.pointers && q != pt
        ensures GroupOf(r, q) == GroupOf(s, q)
      {
        AppendedRoot(s.links, s.rank, s.pointers[q]);
      }
    }
  }

  /** One step of `change_colour` (go.py:220-226): `pt` takes the colour `c`, and every other
      point keeps its colour and its group. */
  lemma PlacedColours(size: nat, s: Snapshot, pt: int, c: int)
    requires Wellformed(size, s) && (c == BLACK || c == WHITE || c == OPEN)
    ensures var r := Placed(size, s, pt, c);
      Wellformed(size, r) && ColourAt(r, pt) == c &&
      r.pointers.Keys == s.pointers.Keys + {pt} &&
      (forall q :: q in s.pointers && q != pt ==> ColourAt(r, q) == ColourAt(s, q)) &&
      (forall q :: q in s.pointers && q != pt ==> GroupOf(r, q) == GroupOf(s, q))
  {
    var s1 := Written(s, pt, c);
    WrittenEffect(size, s, pt, c);
    if OnBoard(size, pt) {
      var ns := Neighbours(size, pt);
      TablesOnBoard(size, pt);
      NeighbourLibsFrame(s1, ns, pt, c == OPEN);
      NeighbourLibsPointers(s1, ns, pt, c == OPEN);
      var r := Placed(size, s, pt, c);
      forall q | q in s1.pointers
        ensures ColourAt(r, q) == ColourAt(s1, q)
      {
        RootColour(s1, s1.pointers[q]);
      }
    }
  }

  /** The liberty bookkeeping of one step of `change_colour` (go.py:202-212): the liberties of
      exactly the groups around `pt` are touched. A stone removes `pt` from each of them;
      reopening `pt` adds it to each neighbouring stone group. An off-board `pt` has no
      neighbour table and touches nothing. */
  lemma PlacedLiberties(size: nat, s: Snapshot, pt: int, c: int)
    requires Wellformed(size, s) && (c == BLACK || c == WHITE || c == OPEN)
    ensures OnBoard(size, pt) ==> forall n :: n in Neighbours(size, pt) ==> n in s.pointers
    ensures Placed(size, s, pt, c).pointers.Keys == s.pointers.Keys + {pt}
    ensures OnBoard(size, pt) ==>
      var r := Placed(size, s, pt, c);
      var around := GroupsOf(s, Neighbours(size, pt));
      forall g :: Libs(r.liberties, g) ==
        if g in around then Touched(Libs(s.liberties, g), g, pt, c == OPEN) else Libs(s.liberties, g)
    ensures OnBoard(size, pt) && c != OPEN ==>
      var r := Placed(size, s, pt, c);
      forall n :: n in Neighbours(size, pt) ==> pt !in Libs(r.liberties, GroupOf(r, n))
    ensures OnBoard(size, pt) && c == OPEN ==>
      var r := Placed(size, s, pt, c);
      forall n :: n in Neighbours(size, pt) && GroupOf(r, n) != OPEN_POINT ==>
        pt in Libs(r.liberties, GroupOf(r, n))
    ensures !OnBoard(size, pt) ==> Placed(size, s, pt, c).liberties == s.liberties
  {
    PlacedColours(size, s, pt, c);
    WrittenEffect(size, s, pt, c);
    if OnBoard(size, pt) {
      PlacedAround(size, s, pt, c);
      var r := Placed(size, s, pt, c);
      forall n | n in Neighbours(size, pt)
        ensures GroupOf(r, n) in GroupsOf(s, Neighbours(size, pt))
      {
        assert GroupOf(r, n) == GroupOf(s, n);
      }
    }
  }

  /** The liberty effect of placing an on-board point: exactly the groups around it are
      touched. */
  lemma PlacedAround(size: nat, s: Snapshot, pt: int, c: int)
    requires Wellformed(size, s) && (c == BLACK || c == WHITE || c == OPEN) && OnBoard(size, pt)
    ensures forall n :: n in Neighbours(size, pt) ==> n in s.pointers && n != pt
    ensures var r := Placed(size, s, pt, c);
      var around := GroupsOf(s, Neighbours(size, pt));
      forall g :: Libs(r.liberties, g) ==
        if g in around then Touched(Libs(s.liberties, g), g, pt, c == OPEN) else Libs(s.liberties, g)
  {
    var s1 := Written(s, pt, c);
    WrittenEffect(size, s, pt, c);
    var ns := Neighbours(size, pt);
    TablesOnBoard(size, pt);
    NotOwnNeighbour(size, pt);
    NeighbourLibsLiberties(s1, ns, pt, c == OPEN);
    assert GroupsOf(s1, ns) == GroupsOf(s, ns);
  }

  /** The points of `pts` that `change_colour` gets to write: all of them, or those up to and
      including the first off-board one, whose missing neighbour table raises KeyError. */
  function Attempted(size: nat, pts: seq<int>): (a: seq<int>)
    ensures |a| <= |pts| && a == pts[..|a|]
    ensures forall k :: 0 <= k < |a| - 1 ==> OnBoard(size, a[k])
    ensures |a| < |pts| ==> a != [] && !OnBoard(size, a[|a| - 1])
  {
    if pts == [] then []
    else if !OnBoard(size, pts[0]) then [pts[0]]
    else [pts[0]] + Attempted(size, pts[1..])
  }

  /** `change_colour(pts, c)` after the colour check: the loop body applied to each point in
      turn, up to the first point that raises. */
  ghost function PlacedAll(size: nat, s: Snapshot, pts: seq<int>, c: int): (r: Snapshot)
    requires Wellformed(size, s) && (c == BLACK || c == WHITE || c == OPEN)
    ensures Wellformed(size, r)
    decreases |pts|
  {
    if pts == [] then s
    else
      PlacedColours(size, s, pts[0], c);
      var s1 := Placed(size, s, pts[0], c);
      if !OnBoard(size, pts[0]) then s1 else PlacedAll(size, s1, pts[1..], c)
  }

  /** Every point of `pts` is on the board. */
  predicate AllOnBoard(size: nat, pts: seq<int>) {
    forall q :: q in pts ==> OnBoard(size, q)
  }

  /** One turn of `change_colour`'s loop: with `pts[..k]` placed, placing `pts[k]` either
      continues the fold or, off the board, ends it. */
  lemma PlacedAllStep(size: nat, s0: Snapshot, s: Snapshot, pts: seq<int>, k: nat, c: int)
    requires Wellformed(size, s0) && Wellformed(size, s) && (c == BLACK || c == WHITE || c == OPEN)
    requires k < |pts| && PlacedAll(size, s0, pts, c) == PlacedAll(size, s, pts[k..], c)
    requires AllOnBoard(size, pts[..k])
    ensures Wellformed(size, Placed(size, s, pts[k], c))
    ensures OnBoard(size, pts[k]) ==>
      AllOnBoard(size, pts[..k + 1]) &&
      PlacedAll(size, s0, pts, c) == PlacedAll(size, Placed(size, s, pts[k], c), pts[k + 1..], c)
    ensures !OnBoard(size, pts[k]) ==>
      !AllOnBoard(size, pts) && PlacedAll(size, s0, pts, c) == Placed(size, s, pts[k], c)
  {
    assert pts[..k + 1] == pts[..k] + [pts[k]];
    assert pts[k..][1..] == pts[k + 1..];
    PlacedAllUnfold(size, s, pts[k..], c);
  }

  /** The end of `change_colour`'s loop when no point raised: every point was on the board
      and each was coloured. */
  lemma PlacedAllDone(size: nat, s0: Snapshot, s: Snapshot, pts: seq<int>, k: nat, c: int)
    requires Wellformed(size, s0) && Wellformed(size, s) && (c == BLACK || c == WHITE || c == OPEN)
    requires k == |pts| && PlacedAll(size, s0, pts, c) == PlacedAll(size, s, pts[k..], c)
    requires AllOnBoard(size, pts[..k])
    ensures s == PlacedAll(size, s0, pts, c) && AllOnBoard(size, pts)
  {
    assert pts[..k] == pts && pts[k..] == [];
  }

  lemma PlacedAllUnfold(size: nat, s: Snapshot, pts: seq<int>, c: int)
    requires Wellformed(size, s) && (c == BLACK || c == WHITE || c == OPEN) && pts != []
    ensures Wellformed(size, Placed(size, s, pts[0], c))
    ensures PlacedAll(size, s, pts, c) ==
      if OnBoard(size, pts[0]) then PlacedAll(size, Placed(size, s, pts[0], c), pts[1..], c)
      else Placed(size, s, pts[0], c)
  {
    PlacedColours(size, s, pts[0], c);
  }

  /** After `change_colour(pts, c)` every point it wrote has colour `c`, and every other point
      keeps its colour. */
  lemma {:induction false} PlacedAllColours(size: nat, s: Snapshot, pts: seq<int>, c: int)
    requires Wellformed(size, s) && (c == BLACK || c == WHITE || c == OPEN)
    ensures var r := PlacedAll(size, s, pts, c);
      var a := Attempted(size, pts);
      r.pointers.Keys == s.pointers.Keys + (set q | q in a) &&
      (forall q :: q in a ==> ColourAt(r, q) == c) &&
      (forall q :: q in s.pointers && q !in a ==> ColourAt(r, q) == ColourAt(s, q))
    decreases |pts|
  {
    if pts != [] {
      var s1 := Placed(size, s, pts[0], c);
      PlacedColours(size, s, pts[0], c);
      if OnBoard(size, pts[0]) {
        PlacedAllColours(size, s1, pts[1..], c);
        var a := Attempted(size, pts);
        assert a == [pts[0]] + Attempted(size, pts[1..]);
        assert forall q :: q in a <==> q == pts[0] || q in Attempted(size, pts[1..]);
      }
    }
  }

  /** A new board (go.py:143): every point holds `OPEN_POINT` and no liberties are recorded. */
  ghost function Initial(size: nat): Snapshot {
    Snapshot(map pt | 0 <= pt < size * size && OnBoard(size, pt) :: OPEN_POINT, [OPEN], [OPEN_POINT], [0], map[])
  }

  lemma InitialOpen(size: nat)
    requires TableSize(size)
    ensures Wellformed(size, Initial(size))
    ensures forall pt :: pt in Initial(size).pointers <==> OnBoard(size, pt)
    ensures forall pt :: OnBoard(size, pt) ==> ColourAt(Initial(size), pt) == OPEN
  {
    var s := Initial(size);
    assert s.links == [OPEN_POINT] && s.colours == [OPEN] && OPEN_POINT == 0;
    assert IsForest(s.links, s.rank);
    assert forall pt :: pt in s.pointers ==> s.pointers[pt] == OPEN_POINT;
    assert Linked(s);
    assert forall pt :: OnBoard(size, pt) ==> pt in s.pointers;
  }

  /** `_union`'s merge of the root `o` into the root `t` (go.py:274-276): `t` becomes the key
      `o` points at, `t` takes the union of both liberty sets and `o`'s entry is deleted. */
  ghost function Merged(s: Snapshot, t: nat, o: nat): (r: Snapshot)
    requires Linked(s) && t < |s.links| && o < |s.links| && s.links[t] == t && s.links[o] == o
  {
    RepointedIsForest(s.links, s.rank, {o}, t);
    s.(links := Repointed(s.links, {o}, t), rank := Shifted(s.links, s.rank, t),
       liberties := s.liberties[t := Libs(s.liberties, t) + Libs(s.liberties, o)] - {o})
  }

  lemma MergedWellformed(size: nat, s: Snapshot, t: nat, o: nat)
    requires Wellformed(size, s) && t < |s.links| && o < |s.links| && s.links[t] == t && s.links[o] == o
    requires t != o && s.colours[t] == s.colours[o]
    ensures Wellformed(size, Merged(s, t, o))
  {
    RepointedIsForest(s.links, s.rank, {o}, t);
    assert Repointed(s.links, {o}, t) == s.links[o := t];
  }

  /** The merge keeps the board well formed when both groups have one colour, moves exactly
      the points of `o`'s group into `t`'s, keeps every point's colour, and leaves `t` with the
      liberties of both groups. */
  lemma MergedEffect(size: nat, s: Snapshot, t: nat, o: nat)
    requires Wellformed(size, s) && t < |s.links| && o < |s.links| && s.links[t] == t && s.links[o] == o
    requires t != o && s.colours[t] == s.colours[o]
    ensures var r := Merged(s, t, o);
      Wellformed(size, r) && r.pointers == s.pointers && r.colours == s.colours &&
      (forall q :: q in s.pointers ==> GroupOf(r, q) == if GroupOf(s, q) == o then t else GroupOf(s, q)) &&
      (forall q :: q in s.pointers ==> ColourAt(r, q) == ColourAt(s, q)) &&
      Libs(r.liberties, t) == Libs(s.liberties, t) + Libs(s.liberties, o) &&
      o !in r.liberties &&
      forall g :: g != t && g != o ==> Libs(r.liberties, g) == Libs(s.liberties, g)
  {
    var r := Merged(s, t, o);
    MergedWellformed(size, s, t, o);
    forall q | q in s.pointers
      ensures GroupOf(r, q) == if GroupOf(s, q) == o then t else GroupOf(s, q)
    {
      RepointedRoot(s.links, s.rank, {o}, t, s.pointers[q]);
    }
  }

  /** Which root `_union` keeps (go.py:272-273): the second group, when the first has fewer
      liberties. go.py:272 compares `len(...)` with the set itself, which Python 3 refuses; the
      model compares the two sizes. */
  function SwapForLiberties(first: set<int>, second: set<int>): bool {
    |first| < |second|
  }

  /** `_union(f_node, s_node)` on two point keys, as written: the two guards, then the
      comparison of go.py:272, which raises TypeError. */
  ghost function UnionAsWritten(s: Snapshot, fpt: int, spt: int): Result<nat, BoardError>
    requires Linked(s) && fpt in s.pointers && spt in s.pointers
  {
    var f, g := GroupOf(s, fpt), GroupOf(s, spt);
    if f == g then Err(SameGroup)
    else if s.colours[f] != s.colours[g] then Err(DifferentColours)
    else Err(TypeError)
  }

  /** As written, no `_union` ever merges: two distinct groups of one colour raise TypeError,
      where the corrected comparison merges them. */
  lemma UnionAsWrittenNeverMerges(size: nat, s: Snapshot, fpt: int, spt: int)
    requires Wellformed(size, s) && fpt in s.pointers && spt in s.pointers
    requires GroupOf(s, fpt) != GroupOf(s, spt) && ColourAt(s, fpt) == ColourAt(s, spt)
    ensures UnionAsWritten(s, fpt, spt) == Err(TypeError)
  {
    RootColour(s, s.pointers[fpt]);
    RootColour(s, s.pointers[spt]);
  }

  /** As written, reopening a point beside a stone group raises TypeError (go.py:210); the
      corrected update adds the point to that group's liberties. */
  lemma ReopenAsWrittenRaises(l: map<nat, set<int>>, g: nat, pt: int)
    requires g != OPEN_POINT
    ensures TouchAsWritten(l, g, pt, true) == Err(TypeError)
    ensures pt in Libs(Touch(l, g, pt, true), g)
  {
  }

  // ---- What liberty_lb keeps and what it finds ----

  /** `s` has the keys and the point colours of `s0`, and no new group. */
  ghost predicate SameColours(s0: Snapshot, s: Snapshot) {
    Linked(s0) && Linked(s) && s.pointers.Keys == s0.pointers.Keys && s.colours == s0.colours &&
    forall q :: q in s.pointers ==> ColourAt(s, q) == ColourAt(s0, q)
  }

  /** Every point any group of `s` holds as a liberty. */
  ghost function AllLibs(s: Snapshot): set<int> {
    set g, x | g in s.liberties && x in s.liberties[g] :: x
  }

  /** The open point keys of `s`. */
  ghost function OpenPoints(s: Snapshot): set<int>
    requires Linked(s)
  {
    set q | q in s.pointers && ColourAt(s, q) == OPEN
  }

  /** Every recorded liberty of `s` lies in `base`. */
  ghost predicate LibsWithin(s: Snapshot, base: set<int>) {
    forall g :: g in s.liberties ==> s.liberties[g] <= base
  }

  /** `_find_liberties(pt)` without its side effects: the liberty set of `pt`'s group. */
  ghost function CurLibs(s: Snapshot, pt: int): set<int>
    requires Linked(s) && pt in s.pointers
  {
    Libs(s.liberties, GroupOf(s, pt))
  }

  /** A find keeps the board and every point's colour, group and liberty set. */
  lemma FoundKeeps(size: nat, s: Snapshot, pt: int)
    requires Wellformed(size, s) && pt in s.pointers
    ensures Wellformed(size, Found(s, pt)) && SameColours(s, Found(s, pt))
    ensures Found(s, pt).liberties == s.liberties && Found(s, pt).links == s.links
  {
    RootColour(s, s.pointers[pt]);
    SameLinksWellformed(size, s, Found(s, pt));
  }

  /** `_find_liberties` on a stone: the compressed board with the group's liberty entry
      inserted keeps every colour, the liberty bound and the group's liberties. */
  lemma RecordedKeeps(size: nat, s: Snapshot, pt: int, base: set<int>)
    requires Wellformed(size, s) && pt in s.pointers && GroupOf(s, pt) != OPEN_POINT && LibsWithin(s, base)
    ensures var g := GroupOf(s, pt);
      var r := Found(s, pt).(liberties := s.liberties[g := Libs(s.liberties, g)]);
      Wellformed(size, r) && SameColours(s, r) && LibsWithin(r, base) && CurLibs(r, pt) == CurLibs(s, pt)
  {
    FoundKeeps(size, s, pt);
    var g := GroupOf(s, pt);
    var r := Found(s, pt).(liberties := s.liberties[g := Libs(s.liberties, g)]);
    SameLinksWellformed(size, Found(s, pt), r);
    assert SameColours(Found(s, pt), r);
    SameColoursTrans(s, Found(s, pt), r);
  }

  /** The merge keeps every point's colour and the liberty bound, and the merged group's
      liberty set contains both old ones. */
  lemma MergedKeeps(size: nat, s: Snapshot, t: nat, o: nat, base: set<int>)
    requires Wellformed(size, s) && t < |s.links| && o < |s.links| && s.links[t] == t && s.links[o] == o
    requires t != o && s.colours[t] == s.colours[o]
    ensures Wellformed(size, Merged(s, t, o)) && SameColours(s, Merged(s, t, o))
    ensures LibsWithin(s, base) ==> LibsWithin(Merged(s, t, o), base)
    ensures forall q :: q in s.pointers && GroupOf(s, q) in {t, o} ==>
      GroupOf(Merged(s, t, o), q) == t &&
      CurLibs(Merged(s, t, o), q) == Libs(s.liberties, t) + Libs(s.liberties, o)
  {
    MergedEffect(size, s, t, o);
  }

  /** A path of adjacent points all of one colour: the region `_board_crawl` explores. */
  ghost predicate SameColourPath(size: nat, s: Snapshot, path: seq<int>)
    requires Linked(s) && size > 0
  {
    |path| > 0 && path[0] in s.pointers &&
    (forall i :: 0 <= i < |path| ==> path[i] in s.pointers && ColourAt(s, path[i]) == ColourAt(s, path[0])) &&
    forall i :: 0 < i < |path| ==> path[i] in Neighbours(size, path[i - 1])
  }

  /** `region` contains every same-coloured neighbour of each of its points. */
  ghost predicate Closed(size: nat, s: Snapshot, region: set<int>, colour: int)
    requires Linked(s) && size > 0
  {
    forall q, n :: q in region && n in Neighbours(size, q) && n in s.pointers && ColourAt(s, n) == colour ==> n in region
  }

  /** A closed region holds every point a same-coloured path leads to from inside it. */
  lemma {:induction false} ClosedHoldsPaths(size: nat, s: Snapshot, region: set<int>, path: seq<int>)
    requires Linked(s) && size > 0 && SameColourPath(size, s, path) && path[0] in region
    requires Closed(size, s, region, ColourAt(s, path[0]))
    ensures path[|path| - 1] in region
    decreases |path|
  {
    if |path| > 1 {
      var prefix := path[..|path| - 1];
      assert SameColourPath(size, s, prefix);
      ClosedHoldsPaths(size, s, region, prefix);
      assert path[|path| - 1] in Neighbours(size, prefix[|prefix| - 1]);
    }
  }

  /** A point's group has the point's colour. */
  lemma GroupColour(size: nat, s: Snapshot, pt: int)
    requires Wellformed(size, s) && pt in s.pointers
    ensures s.colours[GroupOf(s, pt)] == ColourAt(s, pt)
  {
    RootColour(s, s.pointers[pt]);
  }

  lemma SameColoursTrans(s0: Snapshot, s1: Snapshot, s: Snapshot)
    requires SameColours(s0, s1) && SameColours(s1, s)
    ensures SameColours(s0, s)
  {
  }

  lemma SameColoursOpen(s0: Snapshot, s: Snapshot)
    requires SameColours(s0, s)
    ensures OpenPoints(s) == OpenPoints(s0)
  {
  }

  /** Every open neighbour of every point a same-coloured path reaches from `pt` is in `libs`:
      what `liberty_lb` promises when it returns fewer than three liberties. */
  ghost predicate RegionLibertiesIn(size: nat, s: Snapshot, pt: int, libs: set<int>)
    requires Linked(s) && size > 0
  {
    forall path :: SameColourPath(size, s, path) && path[0] == pt ==>
      forall n :: n in Neighbours(size, path[|path| - 1]) && n in s.pointers && ColourAt(s, n) == OPEN ==> n in libs
  }

  /** A finished crawl: every neighbour of a visited point has been seen, every seen point of
      the start's colour has been visited, and every seen open point is a liberty. Then the
      liberties cover the start's whole region. */
  lemma CrawlComplete(size: nat, s: Snapshot, pt: int, visited: set<int>, seen: set<int>, libs: set<int>)
    requires Wellformed(size, s) && pt in visited && pt in s.pointers
    requires forall q, n :: q in visited && n in Neighbours(size, q) ==> n in seen
    requires forall n :: n in seen && n in s.pointers && ColourAt(s, n) == ColourAt(s, pt) ==> n in visited
    requires forall n :: n in seen && n in s.pointers && ColourAt(s, n) == OPEN ==> n in libs
    ensures RegionLibertiesIn(size, s, pt, libs)
    ensures forall path :: SameColourPath(size, s, path) && path[0] == pt ==> path[|path| - 1] in visited
  {
    forall path | SameColourPath(size, s, path) && path[0] == pt
      ensures path[|path| - 1] in visited
    {
      ClosedHoldsPaths(size, s, visited, path);
    }
  }

  /** A finished crawl that never saw its start point: the start has no neighbour of its own
      colour, since that neighbour's visit would have seen the start. */
  lemma CrawlMissesStart(size: nat, s: Snapshot, pt: int, visited: set<int>, seen: set<int>)
    requires Wellformed(size, s) && OnBoard(size, pt) && pt in visited && pt !in seen
    requires forall q, n :: q in visited && n in Neighbours(size, q) ==> n in seen
    requires forall n :: n in seen && n in s.pointers && ColourAt(s, n) == ColourAt(s, pt) ==> n in visited
    ensures forall n :: n in Neighbours(size, pt) ==> n in s.pointers && ColourAt(s, n) != ColourAt(s, pt)
  {
    TablesOnBoard(size, pt);
    forall n | n in Neighbours(size, pt)
      ensures ColourAt(s, n) != ColourAt(s, pt)
    {
      if ColourAt(s, n) == ColourAt(s, pt) {
        NeighboursSymmetric(size, pt, n);
      }
    }
  }

  lemma LibsWithinAll(s: Snapshot, extra: set<int>)
    ensures LibsWithin(s, AllLibs(s) + extra)
  {
    forall g | g in s.liberties
      ensures s.liberties[g] <= AllLibs(s)
    {
      forall x | x in s.liberties[g]
        ensures x in AllLibs(s)
      {
        assert g in s.liberties && x in s.liberties[g];
      }
    }
  }

  /** The point keys of `s0` with colour `colour`: what the crawl may queue. */
  ghost function Region(s0: Snapshot, colour: int): set<int>
    requires Linked(s0)
  {
    set q | q in s0.pointers && ColourAt(s0, q) == colour
  }

  /** The bookkeeping of a crawl from `pt` of colour `colour` that started on board `s0` and
      has reached board `s`. `toSearch` and `visited` are the crawl's work set and searched set,
      `seen` the points it has yielded, and `pending` the searched points whose neighbours have
      not all been yielded yet. Every queued or searched point is in `pt`'s group, every seen
      open point is a liberty of that group, every seen point of the crawl colour is queued or
      searched, and `pt` itself is never seen when `skipMerged` is off (its visit would have
      raised). */
  ghost predicate Crawling(size: nat, s0: Snapshot, s: Snapshot, pt: int, colour: int, toSearch: set<int>,
                           visited: set<int>, seen: set<int>, pending: set<int>, base: set<int>, skipMerged: bool)
  {
    Wellformed(size, s) && SameColours(s0, s) && LibsWithin(s, base) && pt in s.pointers &&
    toSearch !! visited && toSearch + visited <= Region(s0, colour) &&
    InGroup(s, pt, toSearch + visited) &&
    (forall q :: q in toSearch ==> q == pt || OnBoard(size, q)) &&
    (forall n :: n in seen ==> n in s0.pointers) &&
    (forall n :: n in seen && n in s0.pointers && ColourAt(s0, n) == OPEN ==> n in CurLibs(s, pt)) &&
    (forall n :: n in seen && n in s0.pointers && ColourAt(s0, n) == colour ==> n in toSearch + visited) &&
    (forall q, n :: q in visited && q !in pending && n in Neighbours(size, q) ==> n in seen) &&
    (!skipMerged ==> pt !in seen)
  }

  /** Once every neighbour of the pending point `sp` has been seen, nothing is pending. */
  lemma CrawlingSettled(size: nat, s0: Snapshot, s: Snapshot, pt: int, colour: int, toSearch: set<int>,
                        visited: set<int>, seen: set<int>, sp: int, base: set<int>, skipMerged: bool)
    requires Crawling(size, s0, s, pt, colour, toSearch, visited, seen, {sp}, base, skipMerged)
    requires forall j :: 0 <= j < |Neighbours(size, sp)| ==> Neighbours(size, sp)[j] in seen
    ensures Crawling(size, s0, s, pt, colour, toSearch, visited, seen, {}, base, skipMerged)
  {
  }

  /** One neighbour `n` of the point being searched, once `liberty_lb`'s body has seen it
      without stopping or failing: the crawl invariant holds with `n` seen and, when it has the
      crawl colour and has not been searched, queued. */
  lemma CrawlingStep(size: nat, s0: Snapshot, s: Snapshot, s': Snapshot, pt: int, colour: int,
                     toSearch: set<int>, visited: set<int>, seen: set<int>, n: int, sp: int,
                     base: set<int>, skipMerged: bool)
    requires Crawling(size, s0, s, pt, colour, toSearch, visited, seen, {sp}, base, skipMerged)
    requires Wellformed(size, s') && SameColours(s, s') && LibsWithin(s', base)
    requires OnBoard(size, n) && n in s0.pointers
    requires CurLibs(s, pt) <= CurLibs(s', pt) && KeepsGroup(s, s', pt)
    requires ColourAt(s0, n) == OPEN ==> n in CurLibs(s', pt)
    requires ColourAt(s0, n) == colour ==> GroupOf(s', n) == GroupOf(s', pt)
    requires !skipMerged ==> n != pt
    ensures var t := if ColourAt(s0, n) == colour && n !in visited then toSearch + {n} else toSearch;
      Crawling(size, s0, s', pt, colour, t, visited, seen + {n}, {sp}, base, skipMerged)
  {
    SameColoursTrans(s0, s, s');
    var join := ColourAt(s0, n) == colour && n !in visited;
    var t := if join then toSearch + {n} else toSearch;
    var seen' := seen + {n};
    InGroupStep(s, s', pt, toSearch + visited, n, join);
    if join {
      assert t + visited == toSearch + visited + {n};
    } else {
      assert t + visited == toSearch + visited;
    }
    SeenStep(size, s0, s', pt, colour, t, visited, seen, n);
  }

  /** The facts about seen points after `n` is seen. */
  lemma SeenStep(size: nat, s0: Snapshot, s': Snapshot, pt: int, colour: int, t: set<int>,
                 visited: set<int>, seen: set<int>, n: int)
    requires Linked(s') && pt in s'.pointers && Linked(s0) && n in s0.pointers
    requires forall m :: m in seen && m in s0.pointers && ColourAt(s0, m) == OPEN ==> m in CurLibs(s', pt)
    requires forall m :: m in seen && m in s0.pointers && ColourAt(s0, m) == colour ==> m in t + visited
    requires ColourAt(s0, n) == OPEN ==> n in CurLibs(s', pt)
    requires ColourAt(s0, n) == colour ==> n in t + visited
    ensures forall m :: m in seen + {n} && m in s0.pointers && ColourAt(s0, m) == OPEN ==> m in CurLibs(s', pt)
    ensures forall m :: m in seen + {n} && m in s0.pointers && ColourAt(s0, m) == colour ==> m in t + visited
  {
  }


  /** Every point of `pts` is in `pt`'s group. */
  ghost predicate InGroup(s: Snapshot, pt: int, pts: set<int>)
    requires Linked(s) && pt in s.pointers
  {
    forall q :: q in pts ==> q in s.pointers && GroupOf(s, q) == GroupOf(s, pt)
  }

  /** Points in `pt`'s group stay there when the group keeps its points, and so does a point
      just joined to it. */
  lemma InGroupStep(s: Snapshot, s': Snapshot, pt: int, pts: set<int>, n: int, join: bool)
    requires KeepsGroup(s, s', pt) && InGroup(s, pt, pts)
    requires join ==> n in s'.pointers && GroupOf(s', n) == GroupOf(s', pt)
    ensures InGroup(s', pt, if join then pts + {n} else pts)
  {
  }

  /** A finished crawl from `pt`: its liberties hold every open neighbour of the region, the
      whole region is in `pt`'s group, and the start point, never reached again as written,
      has no neighbour of its colour. */
  lemma CrawlConcluded(size: nat, s0: Snapshot, s: Snapshot, pt: int, visited: set<int>, seen: set<int>,
                       base: set<int>, skipMerged: bool)
    requires Wellformed(size, s0) && pt in s0.pointers && pt in visited
    requires Crawling(size, s0, s, pt, ColourAt(s0, pt), {}, visited, seen, {}, base, skipMerged)
    ensures RegionLibertiesIn(size, s0, pt, CurLibs(s, pt))
    ensures RegionInGroup(size, s0, s, pt)
    ensures !skipMerged && OnBoard(size, pt) ==>
      forall n :: n in Neighbours(size, pt) ==> n in s0.pointers && ColourAt(s0, n) != ColourAt(s0, pt)
  {
    CrawlComplete(size, s0, pt, visited, seen, CurLibs(s, pt));
    if !skipMerged && OnBoard(size, pt) {
      CrawlMissesStart(size, s0, pt, visited, seen);
    }
  }

  /** The first three neighbours of `pt`, in table order, are open points of `s`. */
  ghost predicate FirstThreeOpen(size: nat, s: Snapshot, pt: int)
    requires Linked(s) && size > 0
  {
    |Neighbours(size, pt)| >= 3 &&
    forall j :: 0 <= j < 3 ==> Neighbours(size, pt)[j] in s.pointers && ColourAt(s, Neighbours(size, pt)[j]) == OPEN
  }

  /** A set holding the first three entries of a list without repeats has more than two
      elements. */
  lemma ThreeHeld(ns: seq<int>, libs: set<int>)
    requires |ns| >= 3 && ns[0] != ns[1] && ns[0] != ns[2] && ns[1] != ns[2]
    requires forall j :: 0 <= j < 3 ==> ns[j] in libs
    ensures |libs| > 2
  {
    var three := {ns[0], ns[1], ns[2]};
    assert |three| == 3;
    var rest := libs - three;
    assert libs == three + rest && three * rest == {};
  }

  /** A point with three open neighbours is not reported with fewer than three liberties: a
      short result holds every open neighbour of the region, and these are three of them. */
  lemma OpenNeighboursCounted(size: nat, s: Snapshot, pt: int, libs: set<int>)
    requires Linked(s) && size > 0 && OnBoard(size, pt) && pt in s.pointers
    requires FirstThreeOpen(size, s, pt) && RegionLibertiesIn(size, s, pt, libs)
    ensures |libs| > 2
  {
    assert SameColourPath(size, s, [pt]);
    NeighbourCount(size, pt);
    ThreeHeld(Neighbours(size, pt), libs);
  }

  /** `change_colour([a, b], c)` for two points on the board: both take colour `c` and every
      other point keeps its colour. */
  lemma PlacedPair(size: nat, s0: Snapshot, a: int, b: int, c: int)
    requires Wellformed(size, s0) && (c == BLACK || c == WHITE || c == OPEN)
    requires OnBoard(size, a) && OnBoard(size, b)
    ensures var s := PlacedAll(size, s0, [a, b], c);
      a in s.pointers && b in s.pointers && ColourAt(s, a) == c && ColourAt(s, b) == c &&
      forall q :: q in s0.pointers && q != a && q != b ==> q in s.pointers && ColourAt(s, q) == ColourAt(s0, q)
  {
    var pts := [a, b];
    PlacedAllColours(size, s0, pts, c);
    assert Attempted(size, pts[1..]) == pts[1..];
    assert Attempted(size, pts) == pts;
  }

  /** Two stones placed side by side on an empty board, the first away from every edge, leave
      the first stone with its first three neighbours in table order open: the position of the
      `liberty_lb` doctest. */
  lemma PairLeavesThreeOpen(size: nat, s0: Snapshot, pt: int, c: int)
    requires Wellformed(size, s0) && (c == BLACK || c == WHITE)
    requires forall q :: OnBoard(size, q) ==> ColourAt(s0, q) == OPEN
    requires size <= pt < size * (size - 1) && pt % size != 0 && (pt + 1) % size != 0
    ensures var s := PlacedAll(size, s0, [pt, pt + 1], c);
      pt in s.pointers && ColourAt(s, pt) == c && FirstThreeOpen(size, s, pt)
  {
    InteriorNeighbours(size, pt);
    var ns := Neighbours(size, pt);
    assert |ns| == 4 && ns[0] == pt - size && ns[1] == pt + size && ns[2] == pt - 1;
    assert OnBoard(size, pt - size) && OnBoard(size, pt + size) && OnBoard(size, pt - 1);
    assert OnBoard(size, pt) && OnBoard(size, pt + 1);
    PlacedPair(size, s0, pt, pt + 1, c);
    var s := PlacedAll(size, s0, [pt, pt + 1], c);
    assert forall j :: 0 <= j < 3 ==> ns[j] in s.pointers && ColourAt(s, ns[j]) == OPEN;
  }

  // ---- Recorded liberties and the liberties on the board ----

  /** The points next to the on-board stones of group `g`. */
  ghost function Adjoining(size: nat, s: Snapshot, g: nat): set<int>
    requires Linked(s) && size > 0
  {
    set q, n | q in s.pointers && OnBoard(size, q) && GroupOf(s, q) == g && n in Neighbours(size, q) :: n
  }

  /** The liberties group `g` has on the board: the open points next to its stones. */
  ghost function GroupLiberties(size: nat, s: Snapshot, g: nat): set<int>
    requires Linked(s) && size > 0
  {
    OpenPoints(s) * Adjoining(size, s, g)
  }

  /** Every liberty set recorded for a stone group holds only liberties that group has on the
      board. A new board has it; placing a stone on an open point, `_find`, `_find_liberties`,
      `_union` and `liberty_lb` keep it. Overwriting or reopening a stone need not. */
  ghost predicate Sound(size: nat, s: Snapshot) {
    Linked(s) && size > 0 &&
    forall g :: g in s.liberties && g != OPEN_POINT ==> s.liberties[g] <= GroupLiberties(size, s, g)
  }

  /** Every point that shares `pt`'s group in `s` shares it in `r`. */
  ghost predicate KeepsGroup(s: Snapshot, r: Snapshot, pt: int) {
    Linked(s) && Linked(r) && pt in s.pointers && pt in r.pointers &&
    forall q :: q in s.pointers && GroupOf(s, q) == GroupOf(s, pt) ==> q in r.pointers && GroupOf(r, q) == GroupOf(r, pt)
  }

  /** Every point a same-coloured path of `s0` reaches from `pt` is in `pt`'s group in `s`. */
  ghost predicate RegionInGroup(size: nat, s0: Snapshot, s: Snapshot, pt: int)
    requires Linked(s0) && Linked(s) && size > 0 && pt in s.pointers
  {
    forall path :: SameColourPath(size, s0, path) && path[0] == pt ==>
      path[|path| - 1] in s.pointers && GroupOf(s, path[|path| - 1]) == GroupOf(s, pt)
  }

  lemma AdjoiningHas(size: nat, s: Snapshot, g: nat, q: int, n: int)
    requires Linked(s) && size > 0 && q in s.pointers && OnBoard(size, q) && GroupOf(s, q) == g
    requires n in Neighbours(size, q)
    ensures n in Adjoining(size, s, g)
  {
  }

  /** When every point of group `g` in `s` is a point of group `h` in `r`, whatever adjoins `g`
      adjoins `h`. */
  lemma AdjoiningGrows(size: nat, s: Snapshot, r: Snapshot, g: nat, h: nat)
    requires Linked(s) && Linked(r) && size > 0
    requires forall q :: q in s.pointers && GroupOf(s, q) == g ==> q in r.pointers && GroupOf(r, q) == h
    ensures Adjoining(size, s, g) <= Adjoining(size, r, h)
  {
    forall n | n in Adjoining(size, s, g)
      ensures n in Adjoining(size, r, h)
    {
      var q :| q in s.pointers && OnBoard(size, q) && GroupOf(s, q) == g && n in Neighbours(size, q);
      AdjoiningHas(size, r, h, q, n);
    }
  }

  lemma KeepsGroupTrans(s0: Snapshot, s1: Snapshot, s: Snapshot, pt: int)
    requires KeepsGroup(s0, s1, pt) && KeepsGroup(s1, s, pt)
    ensures KeepsGroup(s0, s, pt)
  {
  }

  /** A group that keeps its points keeps everything that adjoins it. */
  lemma KeptAdjoining(size: nat, s: Snapshot, r: Snapshot, pt: int)
    requires size > 0 && KeepsGroup(s, r, pt)
    ensures Adjoining(size, s, GroupOf(s, pt)) <= Adjoining(size, r, GroupOf(r, pt))
  {
    AdjoiningGrows(size, s, r, GroupOf(s, pt), GroupOf(r, pt));
  }

  /** A board with the same points, colours and groups stays sound when each liberty set it
      records for a stone group holds only the old set and liberties the group has. */
  lemma RegroupedSound(size: nat, s: Snapshot, r: Snapshot)
    requires Sound(size, s) && SameColours(s, r)
    requires forall q :: q in s.pointers ==> GroupOf(r, q) == GroupOf(s, q)
    requires forall g :: g in r.liberties && g != OPEN_POINT ==>
      r.liberties[g] <= Libs(s.liberties, g) + GroupLiberties(size, s, g)
    ensures Sound(size, r)
  {
    SameColoursOpen(s, r);
    forall g | g in r.liberties && g != OPEN_POINT
      ensures r.liberties[g] <= GroupLiberties(size, r, g)
    {
      AdjoiningGrows(size, s, r, g, g);
    }
  }

  /** `_find_liberties(pt)` on a stone (the find, then the defaultdict's insertion) keeps every
      group and keeps recorded liberties sound. */
  lemma RecordedRegroups(size: nat, s: Snapshot, pt: int)
    requires Wellformed(size, s) && pt in s.pointers
    ensures var g := GroupOf(s, pt);
      var r := Found(s, pt).(liberties := s.liberties[g := Libs(s.liberties, g)]);
      (Sound(size, s) ==> Sound(size, r)) &&
      (Sound(size, s) ==> Sound(size, Found(s, pt))) &&
      (forall q :: q in s.pointers ==> KeepsGroup(s, r, q) && KeepsGroup(s, Found(s, pt), q))
  {
    var g := GroupOf(s, pt);
    var r := Found(s, pt).(liberties := s.liberties[g := Libs(s.liberties, g)]);
    FoundKeeps(size, s, pt);
    assert forall q :: q in s.pointers ==> GroupOf(r, q) == GroupOf(Found(s, pt), q);
    assert SameColours(s, r);
    if Sound(size, s) {
      RegroupedSound(size, s, r);
      RegroupedSound(size, s, Found(s, pt));
    }
  }

  /** `_find_liberties(pt) |= {x}` for a stone `pt` and a liberty `x` of its group: the groups
      stay and recorded liberties stay sound. */
  lemma AddedRegroups(size: nat, s: Snapshot, pt: int, x: int)
    requires Wellformed(size, s) && pt in s.pointers
    ensures var g := GroupOf(s, pt);
      var r := Found(s, pt).(liberties := s.liberties[g := Libs(s.liberties, g) + {x}]);
      KeepsGroup(s, r, pt) &&
      (Sound(size, s) && x in GroupLiberties(size, s, g) ==> Sound(size, r))
  {
    var g := GroupOf(s, pt);
    var r := Found(s, pt).(liberties := s.liberties[g := Libs(s.liberties, g) + {x}]);
    FoundKeeps(size, s, pt);
    assert forall q :: q in s.pointers ==> GroupOf(r, q) == GroupOf(Found(s, pt), q);
    assert SameColours(s, r);
    if Sound(size, s) && x in GroupLiberties(size, s, g) {
      RegroupedSound(size, s, r);
    }
  }

  /** The merge of two groups of one colour: the points of both end in one group and every
      other group keeps its points. */
  lemma MergedJoins(size: nat, s: Snapshot, t: nat, o: nat, a: int, b: int)
    requires Wellformed(size, s) && t < |s.links| && o < |s.links| && s.links[t] == t && s.links[o] == o
    requires t != o && s.colours[t] == s.colours[o]
    requires a in s.pointers && b in s.pointers && GroupOf(s, a) in {t, o} && GroupOf(s, b) in {t, o}
    ensures KeepsGroup(s, Merged(s, t, o), a) && GroupOf(Merged(s, t, o), b) == GroupOf(Merged(s, t, o), a)
  {
    MergedEffect(size, s, t, o);
  }

  /** The merge keeps recorded liberties sound: the merged group adjoins everything either
      group did. */
  lemma MergedSound(size: nat, s: Snapshot, t: nat, o: nat)
    requires Wellformed(size, s) && t < |s.links| && o < |s.links| && s.links[t] == t && s.links[o] == o
    requires t != o && s.colours[t] == s.colours[o] && Sound(size, s)
    ensures Sound(size, Merged(s, t, o))
  {
    var r := Merged(s, t, o);
    MergedEffect(size, s, t, o);
    assert OpenPoints(r) == OpenPoints(s);
    forall g | g in r.liberties && g != OPEN_POINT
      ensures r.liberties[g] <= GroupLiberties(size, r, g)
    {
      if g == t {
        AdjoiningGrows(size, s, r, t, t);
        AdjoiningGrows(size, s, r, o, t);
      } else {
        AdjoiningGrows(size, s, r, g, g);
      }
    }
  }

  /** `AddedRegroups` for a snapshot given by its fields. */
  lemma AddedTo(size: nat, s: Snapshot, pt: int, x: int, r: Snapshot)
    requires Wellformed(size, s) && pt in s.pointers
    requires var g := GroupOf(s, pt);
      r.pointers == Found(s, pt).pointers && r.colours == s.colours && r.links == s.links && r.rank == s.rank &&
      r.liberties == s.liberties[g := Libs(s.liberties, g) + {x}]
    ensures KeepsGroup(s, r, pt)
    ensures Sound(size, s) && x in GroupLiberties(size, s, GroupOf(s, pt)) ==> Sound(size, r)
  {
    AddedRegroups(size, s, pt, x);
    var g := GroupOf(s, pt);
    assert r == Found(s, pt).(liberties := s.liberties[g := Libs(s.liberties, g) + {x}]);
  }

  /** `_find_liberties(pt)` at the end of the crawl: a sound board stays sound, so the set it
      returns holds only liberties of `pt`'s group, and a region inside the group stays
      inside it. */
  lemma RecordedBound(size: nat, s0: Snapshot, s: Snapshot, pt: int, r: Snapshot)
    requires Wellformed(size, s) && pt in s.pointers && GroupOf(s, pt) != OPEN_POINT && Linked(s0)
    requires r == Found(s, pt).(liberties := s.liberties[GroupOf(s, pt) := Libs(s.liberties, GroupOf(s, pt))])
    ensures Linked(r) && pt in r.pointers
    ensures Sound(size, s) ==> Sound(size, r) && CurLibs(r, pt) <= GroupLiberties(size, r, GroupOf(r, pt))
    ensures RegionInGroup(size, s0, s, pt) ==> RegionInGroup(size, s0, r, pt)
  {
    RecordedRegroups(size, s, pt);
    if RegionInGroup(size, s0, s, pt) {
      KeptRegion(size, s0, s, r, pt);
    }
  }

  /** The two finds of `_union(a, b)`: every group keeps its points, so sound recorded
      liberties stay sound. */
  lemma FoundTwice(size: nat, s: Snapshot, a: int, b: int)
    requires Wellformed(size, s) && a in s.pointers && b in s.pointers
    ensures var s2 := Found(Found(s, a), b);
      Wellformed(size, s2) && SameColours(s, s2) && s2.links == s.links && s2.liberties == s.liberties &&
      KeepsGroup(s, s2, a) && GroupOf(s2, a) == GroupOf(s, a) && GroupOf(s2, b) == GroupOf(s, b) &&
      (Sound(size, s) ==> Sound(size, s2))
  {
    FoundKeeps(size, s, a);
    RecordedRegroups(size, s, a);
    var s1 := Found(s, a);
    FoundKeeps(size, s1, b);
    RecordedRegroups(size, s1, b);
    SameColoursTrans(s, s1, Found(s1, b));
    KeepsGroupTrans(s, s1, Found(s1, b), a);
  }

  /** `_union(a, b)` for two stones of one colour in different groups, merging in either
      direction: `a`'s group keeps its points and takes `b`'s, and sound recorded liberties
      stay sound. */
  lemma UnionRegroups(size: nat, s: Snapshot, a: int, b: int, t: nat, o: nat)
    requires Wellformed(size, s) && a in s.pointers && b in s.pointers && ColourAt(s, a) == ColourAt(s, b)
    requires (t == GroupOf(s, a) && o == GroupOf(s, b)) || (t == GroupOf(s, b) && o == GroupOf(s, a))
    requires t != o
    ensures var s2 := Found(Found(s, a), b);
      Wellformed(size, s2) && t < |s2.links| && o < |s2.links| && s2.links[t] == t && s2.links[o] == o &&
      var r := Merged(s2, t, o);
      KeepsGroup(s, r, a) && GroupOf(r, b) == GroupOf(r, a) && (Sound(size, s) ==> Sound(size, r))
  {
    FoundTwice(size, s, a, b);
    var s2 := Found(Found(s, a), b);
    GroupColour(size, s, a);
    GroupColour(size, s, b);
    MergedJoins(size, s2, t, o, a, b);
    KeepsGroupTrans(s, s2, Merged(s2, t, o), a);
    if Sound(size, s) {
      MergedSound(size, s2, t, o);
    }
  }

  /** A region inside `pt`'s group stays inside it while the group keeps its points. */
  lemma KeptRegion(size: nat, s0: Snapshot, s: Snapshot, r: Snapshot, pt: int)
    requires size > 0 && Linked(s0) && KeepsGroup(s, r, pt) && RegionInGroup(size, s0, s, pt)
    ensures RegionInGroup(size, s0, r, pt)
  {
  }

  /** A new board records no liberties. */
  lemma InitialSound(size: nat)
    requires TableSize(size)
    ensures Sound(size, Initial(size))
  {
    InitialOpen(size);
  }

  /** `change_colour(points, c)` with a stone colour over distinct points that are open (or
      not yet keys) keeps recorded liberties sound, one placed stone at a time. */
  lemma {:induction false} PlacedAllSound(size: nat, s: Snapshot, pts: seq<int>, c: int)
    requires Wellformed(size, s) && (c == BLACK || c == WHITE) && Sound(size, s)
    requires forall i, j :: 0 <= i < j < |pts| ==> pts[i] != pts[j]
    requires forall q :: q in pts && q in s.pointers ==> ColourAt(s, q) == OPEN
    ensures Sound(size, PlacedAll(size, s, pts, c))
    decreases |pts|
  {
    if pts != [] {
      PlacedColours(size, s, pts[0], c);
      PlacedSound(size, s, pts[0], c);
      if OnBoard(size, pts[0]) {
        var s1 := Placed(size, s, pts[0], c);
        var rest := pts[1..];
        assert forall i :: 0 <= i < |rest| ==> rest[i] == pts[i + 1] && rest[i] != pts[0];
        PlacedAllSound(size, s1, rest, c);
      }
    }
  }

  /** Placing a stone on an open point, or on a point that is not a key, keeps recorded
      liberties sound: `pt` leaves the liberty sets of exactly the groups next to it, and no
      other point changes colour or group. */
  lemma PlacedSound(size: nat, s: Snapshot, pt: int, c: int)
    requires Wellformed(size, s) && (c == BLACK || c == WHITE) && Sound(size, s)
    requires pt in s.pointers ==> ColourAt(s, pt) == OPEN
    ensures Sound(size, Placed(size, s, pt, c))
  {
    var r := Placed(size, s, pt, c);
    PlacedColours(size, s, pt, c);
    forall g | g in r.liberties && g != OPEN_POINT
      ensures r.liberties[g] <= GroupLiberties(size, r, g)
    {
      forall x | x in r.liberties[g]
        ensures x in GroupLiberties(size, r, g)
      {
        PlacedLibertyStays(size, s, pt, c, g, x);
      }
    }
  }

  /** One recorded liberty `x` of a stone group `g` after a stone is placed at `pt`: it was a
      liberty of `g` before, so a stone of `g` next to it is still there, and it is not `pt`,
      which was taken out of the liberty sets of every group next to `pt`. */
  lemma PlacedLibertyStays(size: nat, s: Snapshot, pt: int, c: int, g: nat, x: int)
    requires Wellformed(size, s) && (c == BLACK || c == WHITE) && Sound(size, s)
    requires pt in s.pointers ==> ColourAt(s, pt) == OPEN
    requires g != OPEN_POINT && x in Libs(Placed(size, s, pt, c).liberties, g)
    ensures x in GroupLiberties(size, Placed(size, s, pt, c), g)
  {
    var r := Placed(size, s, pt, c);
    PlacedColours(size, s, pt, c);
    PlacedLiberties(size, s, pt, c);
    assert x in Libs(s.liberties, g) && g in s.liberties;
    assert x in Adjoining(size, s, g) && x in OpenPoints(s);
    var q :| q in s.pointers && OnBoard(size, q) && GroupOf(s, q) == g && x in Neighbours(size, q);
    GroupColour(size, s, q);
    TablesOnBoard(size, q);
    if OnBoard(size, pt) {
      NeighboursSymmetric(size, q, pt);
      if q in Neighbours(size, pt) {
        assert g in GroupsOf(s, Neighbours(size, pt));
      }
    }
    AdjoiningHas(size, r, g, q, x);
  }

  /** `liberty_lb`'s "if it returns < 3, it is exact": a liberty set that holds every open
      neighbour of `pt`'s region and only liberties of `pt`'s group is exactly the group's
      liberties when a same-coloured path from `pt` reaches every on-board stone of the group. */
  lemma ExactWhenReached(size: nat, s0: Snapshot, s: Snapshot, pt: int, libs: set<int>)
    requires size > 0 && SameColours(s0, s) && pt in s.pointers
    requires RegionLibertiesIn(size, s0, pt, libs) && libs <= GroupLiberties(size, s, GroupOf(s, pt))
    requires forall q :: q in s.pointers && OnBoard(size, q) && GroupOf(s, q) == GroupOf(s, pt) ==>
      exists path :: SameColourPath(size, s0, path) && path[0] == pt && path[|path| - 1] == q
    ensures libs == GroupLiberties(size, s, GroupOf(s, pt))
  {
    forall x | x in GroupLiberties(size, s, GroupOf(s, pt))
      ensures x in libs
    {
      var q :| q in s.pointers && OnBoard(size, q) && GroupOf(s, q) == GroupOf(s, pt) && x in Neighbours(size, q);
      var path :| SameColourPath(size, s0, path) && path[0] == pt && path[|path| - 1] == q;
    }
  }

  /** A subset is no larger than its superset: a set of liberties inside the group's liberties
      counts at most as many. */
  lemma SubsetCount(a: set<int>, b: set<int>)
    requires a <= b
    ensures |a| <= |b|
  {
    assert b == a + (b - a) && a * (b - a) == {};
  }
}
