/** go.py's `Board`: a point → group pointer map whose group keys form a union-find forest,
    with a liberty set per group. Every method is proved against the state functions of
    `BoardModel`. */
module GoBoard {
  import opened Wrappers
  import opened PointerForest
  import opened Adjacency
  import opened BoardModel

  /** The value stored by `board[pt] = value`: a group of this board, or anything else. */
  datatype Item = AGroup(id: nat) | NotAGroup

  /** The `pt` argument of `change_colour`: one point, or an iterable of points. */
  datatype Points = One(pt: int) | Many(pts: seq<int>)

  function PointList(p: Points): seq<int> {
    match p
    case One(pt) => [pt]
    case Many(pts) => pts
  }

  class Board {
    const size: nat
    var pointers: map<int, nat>
    var colours: seq<int>
    var links: seq<int>
    ghost var rank: seq<nat>
    var liberties: map<nat, set<int>>

    ghost function Snap(): Snapshot
      reads this
    {
      Snapshot(pointers, colours, links, rank, liberties)
    }

    ghost predicate Valid()
      reads this
    {
      Wellformed(size, Snap())
    }

    /** `Board(size)` for a size the tables cover: every point holds `OPEN_POINT`. */
    constructor (size: nat)
      requires TableSize(size)
      ensures Valid() && this.size == size && Snap() == Initial(size)
    {
      this.size := size;
      pointers := map pt | 0 <= pt < size * size && OnBoard(size, pt) :: OPEN_POINT;
      colours := [OPEN];
      links := [OPEN_POINT];
      rank := [0];
      liberties := map[];
      new;
      InitialOpen(size);
    }

    /** `self[pt]`: the group id a point key holds; KeyError for a point that is not a key. */
    function Get(pt: int): (r: Result<nat, BoardError>)
      reads this
      requires Valid()
      ensures r.Ok? <==> pt in pointers
      ensures r.Ok? ==> r.value < |colours|
    {
      if pt in pointers then Ok(pointers[pt]) else Err(KeyError)
    }

    /** `colour(pt)`: the colour of the group `self[pt]` holds. */
    function Colour(pt: int): (r: Result<int, BoardError>)
      reads this
      requires Valid()
      ensures r.Ok? <==> pt in pointers
      ensures r.Ok? ==> r.value == ColourAt(Snap(), pt)
    {
      match Get(pt)
      case Ok(g) => Ok(colours[g])
      case Err(e) => Err(e)
    }

    /** `board[pt] = value` on a point key: only a Group may be stored. */
    method SetItem(pt: int, value: Item) returns (r: Outcome<BoardError>)
      requires Valid() && (value.AGroup? ==> value.id < |colours|)
      modifies this
      ensures Valid()
      ensures r.Fail? <==> value.NotAGroup?
      ensures r.Fail? ==> r.error == ExpectedGroup && Snap() == old(Snap())
      ensures r.Pass? ==> Snap() == old(Snap()).(pointers := old(pointers)[pt := value.id])
    {
      if value.NotAGroup? {
        return Fail(ExpectedGroup);
      }
      pointers := pointers[pt := value.id];
      r := Pass;
    }

    /** `_find(node)` on a point key: follow the group keys to the top group and point `node`
        straight at it. A node that is not a key ends the loop at once and is then stored as
        its own value, which `__setitem__` refuses. */
    method Find(node: int) returns (r: Result<nat, BoardError>)
      requires Valid()
      modifies this
      ensures Valid()
      ensures node !in old(pointers) ==> r == Err(ExpectedGroup) && Snap() == old(Snap())
      ensures node in old(pointers) ==>
        r == Ok(GroupOf(old(Snap()), node)) && Snap() == Found(old(Snap()), node)
    {
      if node !in pointers {
        return Err(ExpectedGroup);
      }
      var parent := pointers[node];
      while links[parent] != parent
        invariant 0 <= parent < |links|
        invariant Root(links, rank, parent) == GroupOf(Snap(), node)
        decreases rank[parent]
      {
        parent := links[parent];
      }
      RootColour(Snap(), pointers[node]);
      pointers := pointers[node := parent];
      r := Ok(parent);
    }

    /** `update_neigh_libs(pt, add)`: find each neighbour's group and add `pt` to, or remove it
        from, that group's liberties. An off-board `pt` has no neighbour table (KeyError). */
    method UpdateNeighbourLibs(pt: int, add: bool) returns (r: Outcome<BoardError>)
      requires Valid()
      modifies this
      ensures Valid()
      ensures r.Fail? <==> !OnBoard(size, pt)
      ensures r.Fail? ==> r.error == KeyError && Snap() == old(Snap())
      ensures r.Pass? ==> forall n :: n in Neighbours(size, pt) ==> n in old(pointers)
      ensures r.Pass? ==> Snap() == NeighbourLibs(old(Snap()), Neighbours(size, pt), pt, add)
    {
      // `self._neighbors[pt]`: `NEIGHBORS[size]` has exactly the board points as keys
      if !OnBoard(size, pt) {
        return Fail(KeyError);
      }
      var ns := Neighbours(size, pt);
      TablesOnBoard(size, pt);
      ghost var s0 := Snap();
      var k := 0;
      while k < |ns|
        invariant 0 <= k <= |ns| && Valid()
        invariant NeighbourLibs(s0, ns, pt, add) == NeighbourLibs(Snap(), ns[k..], pt, add)
      {
        ghost var s := Snap();
        NeighbourLibsUnfold(s, ns[k..], pt, add);
        assert ns[k..][1..] == ns[k + 1..];
        TouchNeighbour(ns[k], pt, add);
        k := k + 1;
      }
      r := Pass;
    }

    /** One pass of `update_neigh_libs`'s loop (go.py:207-212): find the neighbour's group and
        touch its liberties. go.py:210 writes `+=`, which Python refuses on two sets; the model
        takes the evident `|=`. */
    method TouchNeighbour(n: int, pt: int, add: bool)
      requires Valid() && n in pointers
      modifies this
      ensures Valid() && Snap() == NeighbourStep(old(Snap()), n, pt, add)
    {
      ghost var s := Snap();
      var found := Find(n);
      var g := found.value;
      assert Snap() == Found(s, n) && g == GroupOf(s, n);
      if add && g != OPEN_POINT {
        liberties := liberties[g := Libs(liberties, g) + {pt}];
      } else {
        liberties := liberties[g := Libs(liberties, g) - {pt}];
      }
      assert Snap() == NeighbourStep(s, n, pt, add);
      SameLinksWellformed(size, s, Snap());
    }

    /** The loop body of `change_colour` for one point. */
    method Place(pt: int, c: int) returns (r: Outcome<BoardError>)
      requires Valid() && (c == BLACK || c == WHITE || c == OPEN)
      modifies this
      ensures Valid()
      ensures r.Fail? <==> !OnBoard(size, pt)
      ensures r.Fail? ==> r.error == KeyError
      ensures Snap() == Placed(size, old(Snap()), pt, c)
    {
      WrittenEffect(size, Snap(), pt, c);
      if c == OPEN {
        pointers := pointers[pt := OPEN_POINT];
        r := UpdateNeighbourLibs(pt, true);
      } else {
        AppendedIsForest(links, rank);
        var id := |colours|;
        pointers := pointers[pt := id];
        colours := colours + [c];
        links := links + [id];
        rank := rank + [0];
        r := UpdateNeighbourLibs(pt, false);
      }
    }

    /** `change_colour(pt, new_colour)`: a colour other than BLACK, WHITE and OPEN raises
        BoardError before anything changes; otherwise each point in turn is taken, and the first
        off-board point raises KeyError once it has been written. */
    method ChangeColour(pt: Points, c: int) returns (r: Outcome<BoardError>)
      requires Valid()
      modifies this
      ensures Valid()
      ensures !(c == BLACK || c == WHITE || c == OPEN) ==>
        r == Fail(UnrecognisedColour) && Snap() == old(Snap())
      ensures (c == BLACK || c == WHITE || c == OPEN) ==>
        Snap() == PlacedAll(size, old(Snap()), PointList(pt), c)
      ensures (c == BLACK || c == WHITE || c == OPEN) ==>
        (r.Fail? <==> !AllOnBoard(size, PointList(pt))) && (r.Fail? ==> r.error == KeyError)
    {
      if !(c == BLACK || c == WHITE || c == OPEN) {
        return Fail(UnrecognisedColour);
      }
      r := PlaceAll(PointList(pt), c);
    }

    /** `change_colour`'s loop over the points (go.py:220-226). */
    method PlaceAll(points: seq<int>, c: int) returns (r: Outcome<BoardError>)
      requires Valid() && (c == BLACK || c == WHITE || c == OPEN)
      modifies this
      ensures Valid() && Snap() == PlacedAll(size, old(Snap()), points, c)
      ensures (r.Fail? <==> !AllOnBoard(size, points)) && (r.Fail? ==> r.error == KeyError)
    {
      ghost var s0 := Snap();
      var k := 0;
      r := Pass;
      while k < |points| && r.Pass?
        invariant 0 <= k <= |points| && Valid()
        invariant r.Pass? ==> PlacedAll(size, s0, points, c) == PlacedAll(size, Snap(), points[k..], c)
        invariant r.Pass? ==> AllOnBoard(size, points[..k])
        invariant r.Fail? ==> Snap() == PlacedAll(size, s0, points, c) && !AllOnBoard(size, points)
        invariant r.Fail? ==> r.error == KeyError
      {
        r := PlaceNext(points, k, c, s0);
        k := k + 1;
      }
      if r.Pass? {
        PlacedAllDone(size, s0, Snap(), points, k, c);
      }
    }

    /** One turn of `change_colour`'s loop: colour `points[k]`, or raise KeyError for it. */
    method PlaceNext(points: seq<int>, k: nat, c: int, ghost s0: Snapshot) returns (r: Outcome<BoardError>)
      requires Valid() && Wellformed(size, s0) && (c == BLACK || c == WHITE || c == OPEN) && k < |points|
      requires PlacedAll(size, s0, points, c) == PlacedAll(size, Snap(), points[k..], c)
      requires AllOnBoard(size, points[..k])
      modifies this
      ensures Valid()
      ensures r.Pass? ==> PlacedAll(size, s0, points, c) == PlacedAll(size, Snap(), points[k + 1..], c)
      ensures r.Pass? ==> AllOnBoard(size, points[..k + 1])
      ensures r.Fail? ==> Snap() == PlacedAll(size, s0, points, c) && !AllOnBoard(size, points)
      ensures r.Fail? ==> r.error == KeyError
    {
      ghost var s := Snap();
      PlacedAllStep(size, s0, s, points, k, c);
      r := Place(points[k], c);
    }

    /** `_find_liberties(node)`: the liberty set of the node's group, which the defaultdict
        inserts when it is missing; `OPEN_POINT` has none. */
    method FindLiberties(node: int) returns (r: Result<set<int>, BoardError>)
      requires Valid()
      modifies this
      ensures Valid()
      ensures r.Err? <==> node !in old(pointers) || ColourAt(old(Snap()), node) == OPEN
      ensures node !in old(pointers) ==> r == Err(ExpectedGroup) && Snap() == old(Snap())
      ensures node in old(pointers) ==>
        var g := GroupOf(old(Snap()), node);
        var s1 := Found(old(Snap()), node);
        (g == OPEN_POINT ==> r == Err(OpenLiberties) && Snap() == s1) &&
        (g != OPEN_POINT ==>
           r == Ok(Libs(old(liberties), g)) &&
           Snap() == s1.(liberties := old(liberties)[g := Libs(old(liberties), g)]))
    {
      if node in pointers {
        RootColour(Snap(), pointers[node]);
      }
      var found := Find(node);
      if found.Err? {
        return Err(found.error);
      }
      var g := found.value;
      if g == OPEN_POINT {
        return Err(OpenLiberties);
      }
      var libs := Libs(liberties, g);
      liberties := liberties[g := libs];
      r := Ok(libs);
    }

    /** `_union(f_node, s_node)`: find both groups; the same group or groups of different
        colours raise BoardError; otherwise the group with fewer liberties is pointed at the
        other, which takes both liberty sets. */
    method Union(fNode: int, sNode: int) returns (r: Result<nat, BoardError>)
      requires Valid()
      modifies this
      ensures Valid()
      ensures fNode !in old(pointers) ==> r == Err(ExpectedGroup) && Snap() == old(Snap())
      ensures fNode in old(pointers) && sNode !in old(pointers) ==>
        r == Err(ExpectedGroup) && Snap() == Found(old(Snap()), fNode)
      ensures fNode in old(pointers) && sNode in old(pointers) ==>
        var s0 := old(Snap());
        var f, g := GroupOf(s0, fNode), GroupOf(s0, sNode);
        var s2 := Found(Found(s0, fNode), sNode);
        (f == g ==> r == Err(SameGroup) && Snap() == s2) &&
        (f != g && s0.colours[f] != s0.colours[g] ==> r == Err(DifferentColours) && Snap() == s2) &&
        (f != g && s0.colours[f] == s0.colours[g] ==>
           var swap := SwapForLiberties(Libs(s0.liberties, f), Libs(s0.liberties, g));
           var t, o := if swap then g else f, if swap then f else g;
           r == Ok(t) && Snap() == Merged(s2, t, o))
    {
      ghost var s0 := Snap();
      var ff := Find(fNode);
      if ff.Err? {
        return ff;
      }
      ghost var s1 := Snap();
      assert s1 == Found(s0, fNode);
      var sf := Find(sNode);
      if sf.Err? {
        return sf;
      }
      ghost var s2 := Snap();
      assert s2 == Found(s1, sNode);
      var f, g := ff.value, sf.value;
      assert f == GroupOf(s0, fNode) && g == GroupOf(s0, sNode);
      assert s2.colours == s0.colours && s2.liberties == s0.liberties && s2.links == s0.links;
      if f == g {
        return Err(SameGroup);
      } else if colours[f] != colours[g] {
        return Err(DifferentColours);
      }
      if SwapForLiberties(Libs(liberties, f), Libs(liberties, g)) {
        f, g := g, f;
      }
      Merge(f, g);
      r := Ok(f);
    }

    /** The tail of `_union` (go.py:274-276): point the group `o` at `t`, give `t` both liberty
        sets and delete `o`'s entry. */
    method Merge(t: nat, o: nat)
      requires Valid() && t < |links| && o < |links| && links[t] == t && links[o] == o
      requires t != o && colours[t] == colours[o]
      modifies this
      ensures Valid() && Snap() == Merged(old(Snap()), t, o)
    {
      MergedWellformed(size, Snap(), t, o);
      assert Repointed(links, {o}, t) == links[o := t];
      rank := Shifted(links, rank, t);
      links := links[o := t];
      liberties := liberties[t := Libs(liberties, t) + Libs(liberties, o)] - {o};
    }

    /** `group_liberties = self._find_liberties(node=group_pt); group_liberties |= {crawl_pt}`
        (go.py:310-311): the set returned is the one stored in `_liberties`, so the point is
        added to the group's entry. */
    method AddLiberty(node: int, x: int, ghost base: set<int>)
      requires Valid() && node in pointers && ColourAt(Snap(), node) != OPEN
      requires LibsWithin(Snap(), base) && x in base
      modifies this
      ensures Valid() && SameColours(old(Snap()), Snap()) && LibsWithin(Snap(), base)
      ensures CurLibs(Snap(), node) == CurLibs(old(Snap()), node) + {x}
      ensures KeepsGroup(old(Snap()), Snap(), node)
      ensures Sound(size, old(Snap())) && x in GroupLiberties(size, old(Snap()), GroupOf(old(Snap()), node)) ==>
        Sound(size, Snap())
    {
      ghost var s := Snap();
      FoundKeeps(size, s, node);
      var libs := FindLiberties(node);
      var g := pointers[node];
      assert g == GroupOf(s, node) && pointers == Found(s, node).pointers;
      assert liberties[g] == Libs(s.liberties, g);
      liberties := liberties[g := liberties[g] + {x}];
      assert liberties == s.liberties[g := Libs(s.liberties, g) + {x}];
      AddedTo(size, s, node, x, Snap());
      SameLinksWellformed(size, s, Snap());
    }

    /** The body of `liberty_lb`'s loop for one crawled point (go.py:306-313): stop once the
        group has more than two liberties; otherwise add an open point to them, or union a
        stone of the group's colour into the group. With `skipMerged` a stone already in the
        group is left alone; without it, as written, `_union` refuses it. */
    method Visit(groupPt: int, crawlPt: int, skipMerged: bool, ghost base: set<int>)
      returns (stop: bool, err: Option<BoardError>)
      requires Valid() && groupPt in pointers && crawlPt in pointers
      requires LibsWithin(Snap(), base) && OpenPoints(Snap()) <= base
      modifies this
      ensures Valid() && SameColours(old(Snap()), Snap()) && LibsWithin(Snap(), base)
      ensures ColourAt(old(Snap()), groupPt) == OPEN ==> err == Some(OpenLiberties)
      ensures ColourAt(old(Snap()), groupPt) != OPEN && err.Some? ==> err == Some(SameGroup) && !skipMerged
      ensures err.None? ==> CurLibs(old(Snap()), groupPt) <= CurLibs(Snap(), groupPt)
      ensures err.None? && stop ==> |CurLibs(Snap(), groupPt)| > 2
      ensures err.None? && !stop && ColourAt(old(Snap()), crawlPt) == OPEN ==>
        crawlPt in CurLibs(Snap(), groupPt)
      ensures !skipMerged && crawlPt == groupPt ==> stop || err.Some?
      ensures Sound(size, old(Snap())) && crawlPt in Adjoining(size, old(Snap()), GroupOf(old(Snap()), groupPt)) ==>
        Sound(size, Snap())
      ensures err.None? && !stop ==> KeepsGroup(old(Snap()), Snap(), groupPt)
      ensures err.None? && !stop && ColourAt(old(Snap()), crawlPt) == ColourAt(old(Snap()), groupPt) ==>
        GroupOf(Snap(), crawlPt) == GroupOf(Snap(), groupPt)
    {
      ghost var s := Snap();
      FoundKeeps(size, s, groupPt);
      RecordedRegroups(size, s, groupPt);
      var libs := FindLiberties(groupPt);
      if libs.Err? {
        return false, Some(libs.error);
      }
      RecordedKeeps(size, s, groupPt, base);
      if |libs.value| > 2 {
        return true, None;
      }
      ghost var s1 := Snap();
      KeptAdjoining(size, s, s1, groupPt);
      err := Respond(groupPt, crawlPt, skipMerged, base);
      SameColoursTrans(s, s1, Snap());
      if err.None? {
        KeepsGroupTrans(s, s1, Snap(), groupPt);
      }
      return false, err;
    }

    /** The body of `liberty_lb`'s loop once the group has at most two liberties
        (go.py:309-313): an open point joins the liberties, a stone of the group's colour is
        unioned into the group, a stone of the other colour is passed over. */
    method Respond(groupPt: int, crawlPt: int, skipMerged: bool, ghost base: set<int>)
      returns (err: Option<BoardError>)
      requires Valid() && groupPt in pointers && crawlPt in pointers && ColourAt(Snap(), groupPt) != OPEN
      requires LibsWithin(Snap(), base) && OpenPoints(Snap()) <= base
      modifies this
      ensures Valid() && SameColours(old(Snap()), Snap()) && LibsWithin(Snap(), base)
      ensures err.Some? ==> err == Some(SameGroup) && !skipMerged
      ensures err.None? ==> CurLibs(old(Snap()), groupPt) <= CurLibs(Snap(), groupPt)
      ensures err.None? && ColourAt(old(Snap()), crawlPt) == OPEN ==> crawlPt in CurLibs(Snap(), groupPt)
      ensures !skipMerged && crawlPt == groupPt ==> err.Some?
      ensures Sound(size, old(Snap())) && crawlPt in Adjoining(size, old(Snap()), GroupOf(old(Snap()), groupPt)) ==>
        Sound(size, Snap())
      ensures err.None? ==> KeepsGroup(old(Snap()), Snap(), groupPt)
      ensures err.None? && ColourAt(old(Snap()), crawlPt) == ColourAt(old(Snap()), groupPt) ==>
        GroupOf(Snap(), crawlPt) == GroupOf(Snap(), groupPt)
    {
      var cc, cg := Colour(crawlPt), Colour(groupPt);
      if cc.value == OPEN {
        assert crawlPt in OpenPoints(Snap());
        AddLiberty(groupPt, crawlPt, base);
        err := None;
      } else if cg.value == cc.value {
        err := JoinStone(groupPt, crawlPt, skipMerged, base);
      } else {
        err := None;
      }
    }

    /** `self._union(group_pt, crawl_pt)` for a stone of the group's colour (go.py:312-313).
        With `skipMerged` a stone already in the group is not unioned. */
    method JoinStone(groupPt: int, crawlPt: int, skipMerged: bool, ghost base: set<int>)
      returns (err: Option<BoardError>)
      requires Valid() && groupPt in pointers && crawlPt in pointers
      requires ColourAt(Snap(), groupPt) == ColourAt(Snap(), crawlPt) != OPEN
      requires LibsWithin(Snap(), base)
      modifies this
      ensures Valid() && SameColours(old(Snap()), Snap()) && LibsWithin(Snap(), base)
      ensures err.Some? ==> err == Some(SameGroup) && !skipMerged
      ensures err.None? ==> CurLibs(old(Snap()), groupPt) <= CurLibs(Snap(), groupPt)
      ensures !skipMerged && crawlPt == groupPt ==> err.Some?
      ensures Sound(size, old(Snap())) ==> Sound(size, Snap())
      ensures err.None? ==>
        KeepsGroup(old(Snap()), Snap(), groupPt) && GroupOf(Snap(), crawlPt) == GroupOf(Snap(), groupPt)
    {
      ghost var s := Snap();
      GroupColour(size, s, groupPt);
      GroupColour(size, s, crawlPt);
      if skipMerged {
        FoundKeeps(size, s, groupPt);
        FoundTwice(size, s, groupPt, crawlPt);
        var a := Find(groupPt);
        FoundKeeps(size, Snap(), crawlPt);
        var b := Find(crawlPt);
        if a.value == b.value {
          return None;
        }
      }
      ghost var s1 := Snap();
      FoundKeeps(size, s1, groupPt);
      FoundKeeps(size, Found(s1, groupPt), crawlPt);
      FoundTwice(size, s1, groupPt, crawlPt);
      ghost var s2 := Found(Found(s1, groupPt), crawlPt);
      var f, g := GroupOf(s1, groupPt), GroupOf(s1, crawlPt);
      if f != g {
        MergedKeeps(size, s2, f, g, base);
        MergedKeeps(size, s2, g, f, base);
        UnionRegroups(size, s1, groupPt, crawlPt, f, g);
        UnionRegroups(size, s1, groupPt, crawlPt, g, f);
      }
      var u := Union(groupPt, crawlPt);
      err := if u.Err? then Some(u.error) else None;
      if err.None? {
        KeepsGroupTrans(s, s1, Snap(), groupPt);
      }
    }

    /** `liberty_lb(group_pt)` driving `_board_crawl(group_pt)` (go.py:279-315); the crawl keeps
        a set of the points it has searched and does not queue them again. */
    method Crawl(groupPt: int, skipMerged: bool) returns (r: Result<set<int>, BoardError>)
      requires Valid()
      modifies this
      ensures Valid() && SameColours(old(Snap()), Snap())
      ensures groupPt !in old(pointers) ==> r == Err(KeyError) && Snap() == old(Snap())
      ensures groupPt in old(pointers) ==>
        var s0, c0 := old(Snap()), ColourAt(old(Snap()), groupPt);
        (!OnBoard(size, groupPt) ==> r == Err(KeyError)) &&
        (OnBoard(size, groupPt) && c0 == OPEN ==> r == Err(OpenLiberties)) &&
        (OnBoard(size, groupPt) && c0 != OPEN && r.Err? ==> r.error == SameGroup && !skipMerged) &&
        (r.Ok? ==> r.value == CurLibs(Snap(), groupPt) && r.value <= AllLibs(s0) + OpenPoints(s0)) &&
        (r.Ok? && |r.value| <= 2 ==> RegionLibertiesIn(size, s0, groupPt, r.value)) &&
        (!skipMerged && r.Ok? && |r.value| <= 2 ==>
           forall n :: n in Neighbours(size, groupPt) ==> n in s0.pointers && ColourAt(s0, n) != c0)
      ensures Sound(size, old(Snap())) ==> Sound(size, Snap())
      ensures r.Ok? && Sound(size, old(Snap())) ==> r.value <= GroupLiberties(size, Snap(), GroupOf(Snap(), groupPt))
      ensures r.Ok? && |r.value| <= 2 ==> RegionInGroup(size, old(Snap()), Snap(), groupPt)
    {
      ghost var s0 := Snap();
      // `crawl_colour = self.colour(start_pt)`
      var cc := Colour(groupPt);
      if cc.Err? {
        return Err(KeyError);
      }
      ghost var base := AllLibs(s0) + OpenPoints(s0);
      var visited, seen, stop, err := Search(groupPt, skipMerged, cc.value, s0, base);
      if err.Some? {
        return Err(err.value);
      }
      r := Conclude(groupPt, skipMerged, visited, seen, s0, base, stop);
    }

    /** `_board_crawl(group_pt)`'s outer loop under `liberty_lb`'s loop body: pop a point to
        search, read its neighbours (KeyError off the board) and yield them, until the work set
        is empty or the group has more than two liberties. */
    method Search(groupPt: int, skipMerged: bool, crawlColour: int, ghost s0: Snapshot, ghost base: set<int>)
      returns (visited: set<int>, ghost seen: set<int>, stop: bool, err: Option<BoardError>)
      requires Valid() && s0 == Snap() && groupPt in pointers && crawlColour == ColourAt(s0, groupPt)
      requires base == AllLibs(s0) + OpenPoints(s0)
      modifies this
      ensures Valid() && SameColours(s0, Snap()) && LibsWithin(Snap(), base)
      ensures Sound(size, s0) ==> Sound(size, Snap())
      ensures !OnBoard(size, groupPt) ==> err == Some(KeyError)
      ensures OnBoard(size, groupPt) && err.Some? ==>
        (crawlColour == OPEN && err == Some(OpenLiberties)) ||
        (crawlColour != OPEN && err == Some(SameGroup) && !skipMerged)
      ensures err.None? && stop ==> |CurLibs(Snap(), groupPt)| > 2
      ensures err.None? && !stop ==>
        groupPt in visited && Crawling(size, s0, Snap(), groupPt, crawlColour, {}, visited, seen, {}, base, skipMerged)
    {
      ghost var region := Region(s0, crawlColour);
      LibsWithinAll(s0, OpenPoints(s0));
      var toSearch := {groupPt};
      visited, seen, stop, err := {}, {}, false, None;
      while toSearch != {} && !stop
        invariant Valid() && SameColours(s0, Snap()) && LibsWithin(Snap(), base) && groupPt in toSearch + visited
        invariant Sound(size, s0) ==> Sound(size, Snap())
        invariant err.None? && (!OnBoard(size, groupPt) ==> toSearch == {groupPt} && !stop)
        invariant stop ==> |CurLibs(Snap(), groupPt)| > 2
        invariant !stop ==> Crawling(size, s0, Snap(), groupPt, crawlColour, toSearch, visited, seen, {}, base, skipMerged)
        decreases region - visited
      {
        var sp :| sp in toSearch;
        toSearch, visited := toSearch - {sp}, visited + {sp};
        // `self._neighbors[search_pt]`
        if !OnBoard(size, sp) {
          assert sp == groupPt;
          return visited, seen, stop, Some(KeyError);
        }
        toSearch, seen, stop, err := SearchPoint(groupPt, sp, skipMerged, crawlColour, toSearch, visited, seen, s0, base);
        if err.Some? {
          return;
        }
      }
    }

    /** `return self._find_liberties(node=group_pt)` once the crawl has ended, either by the
        break (`stop`) or with its work set empty. */
    method Conclude(groupPt: int, skipMerged: bool, visited: set<int>, ghost seen: set<int>,
                    ghost s0: Snapshot, ghost base: set<int>, stop: bool)
      returns (r: Result<set<int>, BoardError>)
      requires Valid() && Wellformed(size, s0) && SameColours(s0, Snap()) && LibsWithin(Snap(), base)
      requires groupPt in s0.pointers && base == AllLibs(s0) + OpenPoints(s0)
      requires stop ==> |CurLibs(Snap(), groupPt)| > 2
      requires !stop ==> groupPt in visited
      requires !stop ==> Crawling(size, s0, Snap(), groupPt, ColourAt(s0, groupPt), {}, visited, seen, {}, base, skipMerged)
      requires Sound(size, s0) ==> Sound(size, Snap())
      modifies this
      ensures Valid() && SameColours(s0, Snap())
      ensures Sound(size, s0) ==> Sound(size, Snap())
      ensures r.Ok? && Sound(size, s0) ==> r.value <= GroupLiberties(size, Snap(), GroupOf(Snap(), groupPt))
      ensures r.Ok? && |r.value| <= 2 ==> RegionInGroup(size, s0, Snap(), groupPt)
      ensures r.Err? <==> ColourAt(s0, groupPt) == OPEN
      ensures r.Err? ==> r.error == OpenLiberties
      ensures r.Ok? ==> r.value == CurLibs(Snap(), groupPt) && r.value <= AllLibs(s0) + OpenPoints(s0)
      ensures r.Ok? && |r.value| <= 2 ==> RegionLibertiesIn(size, s0, groupPt, r.value)
      ensures !skipMerged && r.Ok? && |r.value| <= 2 && OnBoard(size, groupPt) ==>
        forall n :: n in Neighbours(size, groupPt) ==> n in s0.pointers && ColourAt(s0, n) != ColourAt(s0, groupPt)
    {
      ghost var s := Snap();
      if !stop {
        CrawlConcluded(size, s0, s, groupPt, visited, seen, base, skipMerged);
      }
      FoundKeeps(size, s, groupPt);
      r := FindLiberties(groupPt);
      if r.Ok? {
        RecordedBound(size, s0, s, groupPt, Snap());
      } else {
        RecordedRegroups(size, s, groupPt);
      }
      SameLinksWellformed(size, Found(s, groupPt), Snap());
      assert SameColours(Found(s, groupPt), Snap());
      SameColoursTrans(s0, s, Found(s, groupPt));
      SameColoursTrans(s0, Found(s, groupPt), Snap());
      assert r.Ok? ==> r.value == CurLibs(s, groupPt);
    }

    /** One pass of `_board_crawl`'s outer loop after `search_pt` has been popped: yield each
        of its neighbours to `liberty_lb`'s loop body, then queue it if it has the crawl colour
        and has not been searched. */
    method SearchPoint(groupPt: int, sp: int, skipMerged: bool, crawlColour: int, toSearch: set<int>,
                       visited: set<int>, ghost seen: set<int>, ghost s0: Snapshot, ghost base: set<int>)
      returns (toSearch': set<int>, ghost seen': set<int>, stop: bool, err: Option<BoardError>)
      requires Wellformed(size, s0) && groupPt in s0.pointers
      requires OnBoard(size, sp) && sp in visited && OpenPoints(s0) <= base && crawlColour == ColourAt(s0, groupPt)
      requires Crawling(size, s0, Snap(), groupPt, crawlColour, toSearch, visited, seen, {sp}, base, skipMerged)
      requires Sound(size, s0) ==> Sound(size, Snap())
      modifies this
      ensures Valid() && SameColours(s0, Snap()) && LibsWithin(Snap(), base) && toSearch <= toSearch'
      ensures Sound(size, s0) ==> Sound(size, Snap())
      ensures err.Some? ==>
        (ColourAt(s0, groupPt) == OPEN && err == Some(OpenLiberties)) ||
        (ColourAt(s0, groupPt) != OPEN && err == Some(SameGroup) && !skipMerged)
      ensures err.None? && stop ==> |CurLibs(Snap(), groupPt)| > 2
      ensures err.None? && !stop ==>
        Crawling(size, s0, Snap(), groupPt, crawlColour, toSearch', visited, seen', {}, base, skipMerged)
    {
      TablesOnBoard(size, sp);
      NotOwnNeighbour(size, sp);
      var ns := Neighbours(size, sp);
      toSearch', seen', stop, err := toSearch, seen, false, None;
      var k := 0;
      while k < |ns| && err.None? && !stop
        invariant 0 <= k <= |ns| && toSearch <= toSearch' && ns == Neighbours(size, sp)
        invariant Valid() && SameColours(s0, Snap()) && LibsWithin(Snap(), base)
        invariant Sound(size, s0) ==> Sound(size, Snap())
        invariant err.Some? ==>
          (ColourAt(s0, groupPt) == OPEN && err == Some(OpenLiberties)) ||
          (ColourAt(s0, groupPt) != OPEN && err == Some(SameGroup) && !skipMerged)
        invariant err.None? && stop ==> |CurLibs(Snap(), groupPt)| > 2
        invariant err.None? && !stop ==>
          Crawling(size, s0, Snap(), groupPt, crawlColour, toSearch', visited, seen', {sp}, base, skipMerged)
        invariant forall j :: 0 <= j < k ==> ns[j] in seen'
      {
        toSearch', seen', stop, err := YieldNeighbour(groupPt, sp, ns, k, skipMerged, crawlColour, toSearch', visited, seen', s0, base);
        k := k + 1;
      }
      if err.None? && !stop {
        CrawlingSettled(size, s0, Snap(), groupPt, crawlColour, toSearch', visited, seen', sp, base, skipMerged);
      }
    }

    /** `yield neigh_pt` to `liberty_lb`'s loop body, then `to_search |= {neigh_pt}` when it has
        the crawl colour (and has not been searched). */
    method YieldNeighbour(groupPt: int, sp: int, ns: seq<int>, k: nat, skipMerged: bool, crawlColour: int,
                          toSearch: set<int>, visited: set<int>, ghost seen: set<int>, ghost s0: Snapshot,
                          ghost base: set<int>)
      returns (toSearch': set<int>, ghost seen': set<int>, stop: bool, err: Option<BoardError>)
      requires Wellformed(size, s0) && groupPt in s0.pointers && OpenPoints(s0) <= base
      requires k < |ns| && OnBoard(size, ns[k]) && sp in visited && ns[k] != sp
      requires ns == Neighbours(size, sp) && OnBoard(size, sp) && crawlColour == ColourAt(s0, groupPt)
      requires Crawling(size, s0, Snap(), groupPt, crawlColour, toSearch, visited, seen, {sp}, base, skipMerged)
      requires forall j :: 0 <= j < k ==> ns[j] in seen
      requires Sound(size, s0) ==> Sound(size, Snap())
      modifies this
      ensures Valid() && SameColours(s0, Snap()) && LibsWithin(Snap(), base) && toSearch <= toSearch'
      ensures Sound(size, s0) ==> Sound(size, Snap())
      ensures forall j :: 0 <= j < k + 1 ==> ns[j] in seen'
      ensures err.Some? ==>
        (ColourAt(s0, groupPt) == OPEN && err == Some(OpenLiberties)) ||
        (ColourAt(s0, groupPt) != OPEN && err == Some(SameGroup) && !skipMerged)
      ensures err.None? && stop ==> |CurLibs(Snap(), groupPt)| > 2
      ensures err.None? && !stop ==>
        Crawling(size, s0, Snap(), groupPt, crawlColour, toSearch', visited, seen', {sp}, base, skipMerged)
    {
      var n := ns[k];
      seen' := seen + {n};
      toSearch' := toSearch;
      ghost var s := Snap();
      SameColoursOpen(s0, s);
      assert sp in toSearch + visited;
      AdjoiningHas(size, s, GroupOf(s, groupPt), sp, n);
      stop, err := Visit(groupPt, n, skipMerged, base);
      if err.Some? || stop {
        return;
      }
      SameColoursTrans(s0, s, Snap());
      var nc := Colour(n);
      if nc.value == crawlColour && n !in visited {
        toSearch' := toSearch' + {n};
      }
      CrawlingStep(size, s0, s, Snap(), groupPt, crawlColour, toSearch, visited, seen, n, sp, base, skipMerged);
    }

    /** `liberty_lb(group_pt)` as written (go.py:295-315), over a crawl that keeps the points
        it has searched: a stone of the group's colour that is already in the group is unioned
        again, and `_union` raises 'Cannot union same group'. So a result with fewer than
        three liberties only comes back for a stone with no neighbour of its own colour. */
    method LibertyLbAsWritten(groupPt: int) returns (r: Result<set<int>, BoardError>)
      requires Valid()
      modifies this
      ensures Valid() && SameColours(old(Snap()), Snap())
      ensures !(groupPt in old(pointers) && OnBoard(size, groupPt)) ==> r == Err(KeyError)
      ensures groupPt in old(pointers) && OnBoard(size, groupPt) ==>
        var s0, c0 := old(Snap()), ColourAt(old(Snap()), groupPt);
        (c0 == OPEN ==> r == Err(OpenLiberties)) &&
        (c0 != OPEN && r.Err? ==> r.error == SameGroup) &&
        (r.Ok? ==> r.value == CurLibs(Snap(), groupPt) && r.value <= AllLibs(s0) + OpenPoints(s0)) &&
        (r.Ok? && |r.value| <= 2 ==> RegionLibertiesIn(size, s0, groupPt, r.value)) &&
        (r.Ok? && |r.value| <= 2 ==>
           forall n :: n in Neighbours(size, groupPt) ==> n in s0.pointers && ColourAt(s0, n) != c0) &&
        (r.Ok? && FirstThreeOpen(size, s0, groupPt) ==> |r.value| > 2)
      ensures Sound(size, old(Snap())) ==> Sound(size, Snap())
      ensures r.Ok? && Sound(size, old(Snap())) ==>
        var libs := GroupLiberties(size, Snap(), GroupOf(Snap(), groupPt));
        r.value <= libs && |r.value| <= |libs|
      ensures r.Ok? && |r.value| <= 2 ==> RegionInGroup(size, old(Snap()), Snap(), groupPt)
    {
      ghost var s0 := Snap();
      r := Crawl(groupPt, false);
      if r.Ok? && |r.value| <= 2 && OnBoard(size, groupPt) && FirstThreeOpen(size, s0, groupPt) {
        OpenNeighboursCounted(size, s0, groupPt, r.value);
      }
      if r.Ok? && Sound(size, s0) {
        SubsetCount(r.value, GroupLiberties(size, Snap(), GroupOf(Snap(), groupPt)));
      }
    }

    /** `liberty_lb(group_pt)` as evidently intended: the crawl skips stones already in the
        group instead of unioning them again. It fails only for a point that is not on the
        board or is open; otherwise it returns the group's liberty set, which holds every open
        neighbour of the group's whole region whenever it has fewer than three points. */
    method LibertyLb(groupPt: int) returns (r: Result<set<int>, BoardError>)
      requires Valid()
      modifies this
      ensures Valid() && SameColours(old(Snap()), Snap())
      ensures !(groupPt in old(pointers) && OnBoard(size, groupPt)) ==> r == Err(KeyError)
      ensures groupPt in old(pointers) && OnBoard(size, groupPt) ==>
        var s0, c0 := old(Snap()), ColourAt(old(Snap()), groupPt);
        (c0 == OPEN ==> r == Err(OpenLiberties)) &&
        (c0 != OPEN ==> r.Ok?) &&
        (r.Ok? ==> r.value == CurLibs(Snap(), groupPt) && r.value <= AllLibs(s0) + OpenPoints(s0)) &&
        (r.Ok? && |r.value| <= 2 ==> RegionLibertiesIn(size, s0, groupPt, r.value)) &&
        (r.Ok? && FirstThreeOpen(size, s0, groupPt) ==> |r.value| > 2)
      ensures Sound(size, old(Snap())) ==> Sound(size, Snap())
      ensures r.Ok? && Sound(size, old(Snap())) ==>
        var libs := GroupLiberties(size, Snap(), GroupOf(Snap(), groupPt));
        r.value <= libs && |r.value| <= |libs|
      ensures r.Ok? && |r.value| <= 2 ==> RegionInGroup(size, old(Snap()), Snap(), groupPt)
    {
      ghost var s0 := Snap();
      r := Crawl(groupPt, true);
      if r.Ok? && |r.value| <= 2 && OnBoard(size, groupPt) && FirstThreeOpen(size, s0, groupPt) {
        OpenNeighboursCounted(size, s0, groupPt, r.value);
      }
      if r.Ok? && Sound(size, s0) {
        SubsetCount(r.value, GroupLiberties(size, Snap(), GroupOf(Snap(), groupPt)));
      }
    }
  }

  /** `Board(size)`: `NEIGHBORS[size]` raises KeyError for a size outside 9, 11, ..., 25. */
  method NewBoard(size: int) returns (r: Result<Board, BoardError>)
    ensures r.Err? <==> !TableSize(size)
    ensures r.Err? ==> r.error == KeyError
    ensures r.Ok? ==> fresh(r.value) && r.value.Valid() && r.value.size == size && r.value.Snap() == Initial(size)
  {
    if !TableSize(size) {
      return Err(KeyError);
    }
    var b := new Board(size);
    r := Ok(b);
  }

  /** The liberty_lb doctest (go.py:301-304): on a new 19 × 19 board, black stones at 200 and
      201 report more than two liberties for 200. */
  method LibertyLbDoctest() returns (r: Result<set<int>, BoardError>)
    ensures r.Ok? && |r.value| > 2
  {
    var board := new Board(19);
    InitialOpen(19);
    assert 200 % 19 == 10;
    PairLeavesThreeOpen(19, board.Snap(), 200, BLACK);
    var placed := board.ChangeColour(Many([200, 201]), BLACK);
    r := board.LibertyLb(200);
  }
}
