/** mcts.py: `NodeMCTS`, a search node counting the simulations run below it (`sims`) and
    the sum of their terminal values (`wins`). The nodes are `Node`s of src/util/tree.py held in
    one `Forest`; a `SearchTree` keeps the counters and the colour of every node's state beside
    it. The playout itself and the game state live in a position class that is not part of this
    model: its terminal value and its next player are parameters. */
module Mcts {
  import opened Wrappers
  import opened TreeNodes

  /** The exceptions `bestchild(c=0)` can raise: `max` of no children, a child with no
      simulation (`w / n`), and `log` of a parent with no simulation. */
  datatype BestError = EmptySequence | ZeroDivision | MathDomain

  /** Every node's parent comes before it; a root has `NO_PARENT`. */
  predicate Rooted(parent: seq<int>) {
    forall k :: 0 <= k < |parent| ==> NO_PARENT <= parent[k] < k
  }

  /** The strict ancestors of node `i`: the nodes `update_parent` walks through. */
  function Ancestors(parent: seq<int>, i: nat): (a: set<nat>)
    requires Rooted(parent) && i < |parent|
    ensures forall x :: x in a ==> x < i
    ensures parent[i] == NO_PARENT ==> a == {}
    ensures parent[i] != NO_PARENT ==> parent[i] in a
    decreases i
  {
    if parent[i] == NO_PARENT then {} else {parent[i] as nat} + Ancestors(parent, parent[i])
  }

  /** Node `i` and its ancestors: the nodes `random_sim` on `i` counts at. */
  function Lineage(parent: seq<int>, i: nat): (l: set<nat>)
    requires Rooted(parent) && i < |parent|
    ensures i in l && forall x :: x in l ==> x <= i
  {
    {i} + Ancestors(parent, i)
  }

  /** Appending nodes after `i` leaves its ancestors as they were. */
  lemma {:induction false} AncestorsExtend(parent: seq<int>, extra: seq<int>, i: nat)
    requires Rooted(parent) && Rooted(parent + extra) && i < |parent|
    ensures Ancestors(parent + extra, i) == Ancestors(parent, i)
    decreases i
  {
    assert (parent + extra)[i] == parent[i];
    if parent[i] != NO_PARENT {
      AncestorsExtend(parent, extra, parent[i]);
    }
  }

  /** `after` is `before` with `d` added at the nodes of `at` and nowhere else. */
  predicate Climbed(before: seq<int>, after: seq<int>, at: set<nat>, d: int) {
    |after| == |before| && forall k :: 0 <= k < |before| ==> after[k] == before[k] + (if k in at then d else 0)
  }

  /** Adding `d` at `x` first and then at the nodes of `at` adds it at `at` and `x`. */
  lemma ClimbOnto(before: seq<int>, after: seq<int>, at: set<nat>, x: nat, d: int)
    requires x < |before| && x !in at && Climbed(before[x := before[x] + d], after, at, d)
    ensures Climbed(before, after, at + {x}, d)
  {
  }

  /** Counting one more simulation with a value between -1 and 1 at the same nodes keeps every
      node's wins between minus and plus its simulations. */
  lemma ClimbBounded(sims: seq<int>, wins: seq<int>, sims1: seq<int>, wins1: seq<int>, at: set<nat>, v: int)
    requires |wins| == |sims| && Climbed(sims, sims1, at, 1) && Climbed(wins, wins1, at, v)
    ensures (forall k :: 0 <= k < |sims| ==> -sims[k] <= wins[k] <= sims[k]) && -1 <= v <= 1 ==>
      forall k :: 0 <= k < |sims1| ==> -sims1[k] <= wins1[k] <= sims1[k]
  {
  }

  /** Counting at a new last node and at earlier nodes `at` leaves the new node with `d` and the
      earlier nodes counted at `at`. */
  lemma ChildClimbed(before: seq<int>, after: seq<int>, at: set<nat>, d: int)
    requires forall x :: x in at ==> x < |before|
    requires Climbed(before + [0], after, {|before|} + at, d)
    ensures after[|before|] == d && Climbed(before, after[..|before|], at, d)
  {
    assert (before + [0])[|before|] == 0;
  }

  /** The listed nodes are pairwise different. */
  predicate Distinct(cs: seq<nat>) {
    forall k, l :: 0 <= k < l < |cs| ==> cs[k] != cs[l]
  }

  /** The sum of `vals` over the listed nodes: `sum(child.sims for child in children)`. */
  function Sum(cs: seq<nat>, vals: seq<int>): int
    requires Below(cs, |vals|)
  {
    if cs == [] then 0 else Sum(cs[..|cs| - 1], vals) + vals[cs[|cs| - 1]]
  }

  /** Adding `d` to the value of node `p` adds `d` to a sum that lists `p` once, and nothing to
      a sum that does not list it. */
  lemma {:induction false} SumBump(cs: seq<nat>, vals: seq<int>, p: nat, d: int)
    requires Below(cs, |vals|) && p < |vals| && Distinct(cs)
    ensures Sum(cs, vals[p := vals[p] + d]) == Sum(cs, vals) + (if p in cs then d else 0)
  {
    if cs != [] {
      var init := cs[..|cs| - 1];
      assert cs == init + [cs[|cs| - 1]];
      SumBump(init, vals, p, d);
    }
  }

  /** A sum only reads the values of the listed nodes. */
  lemma {:induction false} SumFrame(cs: seq<nat>, vals: seq<int>, others: seq<int>)
    requires Below(cs, |vals|) && Below(cs, |others|)
    requires forall k :: 0 <= k < |cs| ==> vals[cs[k]] == others[cs[k]]
    ensures Sum(cs, vals) == Sum(cs, others)
  {
    if cs != [] {
      SumFrame(cs[..|cs| - 1], vals, others);
    }
  }

  /** Appending a child adds its value to the sum. */
  lemma SumSnoc(cs: seq<nat>, c: nat, vals: seq<int>)
    requires Below(cs, |vals|) && c < |vals|
    ensures Sum(cs + [c], vals) == Sum(cs, vals) + vals[c]
  {
    assert (cs + [c])[..|cs|] == cs;
  }

  /** With no negative value, a sum is at least the value of every listed node. */
  lemma {:induction false} SumAtLeast(cs: seq<nat>, vals: seq<int>, k: nat)
    requires Below(cs, |vals|) && k < |cs|
    requires forall j :: 0 <= j < |cs| ==> 0 <= vals[cs[j]]
    ensures 0 <= vals[cs[k]] <= Sum(cs, vals)
  {
    var init := cs[..|cs| - 1];
    if k < |cs| - 1 {
      SumAtLeast(init, vals, k);
    } else if init != [] {
      SumAtLeast(init, vals, 0);
    }
  }

  /** `conf_score` with `c = 0`: `colour * wins / sims`, as an exact fraction. */
  function Score(colour: int, w: int, n: int): real
    requires n != 0
  {
    (colour * w) as real / n as real
  }

  /** The position in `cs` of the first node without a simulation, or `|cs|`. */
  function FirstUnsimulated(cs: seq<nat>, sims: seq<int>): (f: nat)
    requires Below(cs, |sims|)
    ensures f <= |cs|
    ensures forall j :: 0 <= j < f ==> sims[cs[j]] != 0
    ensures f < |cs| ==> sims[cs[f]] == 0
    decreases |cs|
  {
    if cs == [] then 0
    else if sims[cs[0]] == 0 then 0
    else 1 + FirstUnsimulated(cs[1..], sims)
  }

  /** The position `max` picks among the first `k` children: the first with the highest score. */
  function ArgMax(cs: seq<nat>, wins: seq<int>, sims: seq<int>, colour: int, k: nat): (b: nat)
    requires 1 <= k <= |cs| && Below(cs, |wins|) && Below(cs, |sims|)
    requires forall j :: 0 <= j < k ==> sims[cs[j]] != 0
    ensures b < k
    ensures forall j :: 0 <= j < k ==> Score(colour, wins[cs[j]], sims[cs[j]]) <= Score(colour, wins[cs[b]], sims[cs[b]])
    ensures forall j :: 0 <= j < b ==> Score(colour, wins[cs[j]], sims[cs[j]]) < Score(colour, wins[cs[b]], sims[cs[b]])
  {
    if k == 1 then 0
    else
      var b := ArgMax(cs, wins, sims, colour, k - 1);
      if Score(colour, wins[cs[k - 1]], sims[cs[k - 1]]) > Score(colour, wins[cs[b]], sims[cs[b]]) then k - 1 else b
  }

  /** Every child before position `b` scores strictly less than the child at `b`. */
  predicate FirstBest(cs: seq<nat>, wins: seq<int>, sims: seq<int>, colour: int, b: nat)
    requires b < |cs| && Below(cs, |wins|) && Below(cs, |sims|)
  {
    forall j :: 0 <= j < b ==>
      (sims[cs[j]] != 0 && sims[cs[b]] != 0 &&
       Score(colour, wins[cs[j]], sims[cs[j]]) < Score(colour, wins[cs[b]], sims[cs[b]]))
  }

  /** The `children` lists and the `parent` links describe the same forest: every node is a
      child of its parent exactly once and of no other node, and parents come first. */
  predicate Family(parent: seq<int>, children: seq<seq<nat>>) {
    |children| == |parent| && Rooted(parent) &&
    (forall k :: 0 <= k < |children| ==> Below(children[k], |parent|) && Distinct(children[k])) &&
    (forall k, j :: 0 <= k < |children| && 0 <= j < |children[k]| ==> parent[children[k][j]] == k) &&
    (forall k :: 0 <= k < |parent| && parent[k] != NO_PARENT ==> k in children[parent[k]])
  }

  /** The count of node `k` is its own count plus its children's, less `d` if `k` is `at`. */
  predicate BackedAt(children: seq<seq<nat>>, vals: seq<int>, own: seq<int>, at: int, d: int, k: nat) {
    k < |vals| && k < |children| && k < |own| && Below(children[k], |vals|) &&
    vals[k] + (if k == at then d else 0) == own[k] + Sum(children[k], vals)
  }

  /** Every count is the node's own count plus its children's, except that node `at` is
      short of `d`. */
  predicate Backed(children: seq<seq<nat>>, vals: seq<int>, own: seq<int>, at: int, d: int) {
    |vals| == |children| && |own| == |vals| &&
    forall k :: 0 <= k < |vals| ==> BackedAt(children, vals, own, at, d, k)
  }

  /** Once a deficit of `d` at `p` is made good by adding `d` to `p`'s count, the deficit has
      moved to `p`'s parent. */
  lemma Shift(parent: seq<int>, children: seq<seq<nat>>, vals: seq<int>, own: seq<int>, p: nat, d: int)
    requires Family(parent, children) && p < |parent| && Backed(children, vals, own, p, d)
    ensures Backed(children, vals[p := vals[p] + d], own, parent[p], d)
  {
    var after := vals[p := vals[p] + d];
    forall k | 0 <= k < |vals|
      ensures BackedAt(children, after, own, parent[p], d, k)
    {
      assert BackedAt(children, vals, own, p, d, k);
      SumBump(children[k], vals, p, d);
      if p in children[k] {
        var j :| 0 <= j < |children[k]| && children[k][j] == p;
        assert parent[p] == k;
      }
    }
  }

  /** Adding `d` at every ancestor of `i`, whose parent is short of `d`, backs up every count. */
  lemma {:induction false} Climb(parent: seq<int>, children: seq<seq<nat>>, vals: seq<int>, own: seq<int>,
                                 i: nat, d: int, after: seq<int>)
    requires Family(parent, children) && i < |parent| && Backed(children, vals, own, parent[i], d)
    requires Climbed(vals, after, Ancestors(parent, i), d)
    ensures Backed(children, after, own, NO_PARENT, 0)
    decreases i
  {
    var p := parent[i];
    if p == NO_PARENT {
      assert after == vals;
      forall k | 0 <= k < |vals|
        ensures BackedAt(children, after, own, NO_PARENT, 0, k)
      {
        assert BackedAt(children, vals, own, p, d, k);
      }
    } else {
      Shift(parent, children, vals, own, p, d);
      Climb(parent, children, vals[p := vals[p] + d], own, p, d, after);
    }
  }

  /** One more playout from node `i`, with the value `d`, counted at `i` and at each of its
      ancestors, keeps every count backed up. */
  lemma Simulated(parent: seq<int>, children: seq<seq<nat>>, vals: seq<int>, own: seq<int>,
                  i: nat, d: int, after: seq<int>)
    requires Family(parent, children) && i < |parent| && Backed(children, vals, own, NO_PARENT, 0)
    requires Climbed(vals, after, Lineage(parent, i), d)
    ensures Backed(children, after, own[i := own[i] + d], NO_PARENT, 0)
  {
    var own1 := own[i := own[i] + d];
    forall k | 0 <= k < |vals|
      ensures BackedAt(children, vals, own1, i, d, k)
    {
      assert BackedAt(children, vals, own, NO_PARENT, 0, k);
    }
    Shift(parent, children, vals, own1, i, d);
    Climb(parent, children, vals[i := vals[i] + d], own1, i, d, after);
  }

  /** A single root with no simulation is a backed-up forest. */
  lemma Alone()
    ensures Family([NO_PARENT], [[]]) && Backed([[]], [0], [0], NO_PARENT, 0)
  {
    assert BackedAt([[]], [0], [0], NO_PARENT, 0, 0);
  }

  /** A new root with no simulation keeps every count backed up. */
  lemma SpawnBacked(children: seq<seq<nat>>, vals: seq<int>, own: seq<int>)
    requires Backed(children, vals, own, NO_PARENT, 0)
    ensures Backed(children + [[]], vals + [0], own + [0], NO_PARENT, 0)
  {
    forall k | 0 <= k < |vals| + 1
      ensures BackedAt(children + [[]], vals + [0], own + [0], NO_PARENT, 0, k)
    {
      if k < |vals| {
        assert BackedAt(children, vals, own, NO_PARENT, 0, k);
        SumFrame(children[k], vals + [0], vals);
      }
    }
  }

  /** A new root keeps the forest a forest. */
  lemma SpawnFamily(parent: seq<int>, children: seq<seq<nat>>)
    requires Family(parent, children)
    ensures Family(parent + [NO_PARENT], children + [[]])
  {
    var parent1, children1 := parent + [NO_PARENT], children + [[]];
    forall k | 0 <= k < |parent1| && parent1[k] != NO_PARENT
      ensures k in children1[parent1[k]]
    {
      assert k < |parent|;
    }
  }

  /** Adopting the fresh root `c`, which has no simulation, as the last child of `p` keeps every
      count backed up. */
  lemma AdoptBacked(children: seq<seq<nat>>, vals: seq<int>, own: seq<int>, p: nat, c: nat)
    requires Backed(children, vals, own, NO_PARENT, 0) && p < |vals| && c < |vals| && vals[c] == 0
    ensures Backed(children[p := children[p] + [c]], vals, own, NO_PARENT, 0)
  {
    var children1 := children[p := children[p] + [c]];
    forall k | 0 <= k < |vals|
      ensures BackedAt(children1, vals, own, NO_PARENT, 0, k)
    {
      assert BackedAt(children, vals, own, NO_PARENT, 0, k);
      if k == p {
        SumSnoc(children[p], c, vals);
      }
    }
  }

  /** Adopting the last node `c`, a root without children, as the last child of an earlier
      node `p` keeps the forest a forest. */
  lemma AdoptFamily(parent: seq<int>, children: seq<seq<nat>>, p: nat, c: nat)
    requires Family(parent, children) && p < c && c == |parent| - 1
    requires parent[c] == NO_PARENT && children[c] == []
    ensures Family(parent[c := p], children[p := children[p] + [c]])
  {
    var parent1, children1 := parent[c := p], children[p := children[p] + [c]];
    forall k, j | 0 <= k < |children| && 0 <= j < |children[k]|
      ensures children[k][j] != c
    {
      assert parent[children[k][j]] == k;
    }
    forall k, j | 0 <= k < |children1| && 0 <= j < |children1[k]|
      ensures parent1[children1[k][j]] == k
    {
      if k == p && j == |children[p]| {
      } else {
        assert children1[k][j] == children[k][j];
      }
    }
    forall k | 0 <= k < |parent1| && parent1[k] != NO_PARENT
      ensures k in children1[parent1[k]]
    {
      if k != c {
        assert k in children[parent[k]];
      }
    }
  }

  class SearchTree {
    /** The `Node` structure of the search nodes. */
    const forest: Forest
    /** `node.sims` of every node. */
    var sims: seq<int>
    /** `node.wins` of every node. */
    var wins: seq<int>
    /** `node.colour` of every node: the next player of its state. */
    var colour: seq<int>
    /** The simulations run from each node itself, and the sum of their values. */
    ghost var ownSims: seq<int>
    ghost var ownWins: seq<int>

    /** The nodes are `NodeMCTS` objects forming a tree, the counts are not negative and every
        count is backed up to the root. */
    ghost predicate Valid()
      reads this, forest
    {
      forest.Valid() && Family(forest.parent, forest.children) &&
      (forall k :: 0 <= k < |forest.kind| ==> forest.kind[k] == Derived) &&
      |sims| == |forest.parent| && |wins| == |sims| && |colour| == |sims| &&
      Backed(forest.children, sims, ownSims, NO_PARENT, 0) && Backed(forest.children, wins, ownWins, NO_PARENT, 0) &&
      (forall k :: 0 <= k < |sims| ==> 0 <= sims[k]) &&
      (forall k :: 0 <= k < |sims| ==> 0 <= ownSims[k])
    }

    /** Every node has won no more than it has simulated, and lost no more. */
    ghost predicate Bounded()
      reads this
    {
      |wins| == |sims| && forall k :: 0 <= k < |sims| ==> -sims[k] <= wins[k] <= sims[k]
    }

    /** A tree with the single root `NodeMCTS(state)`, whose next player is `rootColour`. */
    constructor (rootColour: int)
      ensures Valid() && Bounded() && fresh(forest)
      ensures forest.parent == [NO_PARENT] && forest.children == [[]]
      ensures sims == [0] && wins == [0] && colour == [rootColour]
      ensures ownSims == [0] && ownWins == [0]
    {
      var f := new Forest();
      var made := f.NewNode(Derived, [], map[]);
      assert f.parent == [NO_PARENT] && f.children == [[]];
      Alone();
      forest := f;
      sims, wins, colour, ownSims, ownWins := [0], [0], [rootColour], [0], [0];
    }

    /** `update_parent(value)` on node `i`: add 1 to `sims` and `value` to `wins` of the parent,
        then of its parent, up to the root, whose missing parent ends the walk. */
    method UpdateParent(i: nat, value: int)
      requires Rooted(forest.parent) && i < |forest.parent| && |sims| == |forest.parent| && |wins| == |sims|
      modifies this`sims, this`wins
      ensures Climbed(old(sims), sims, Ancestors(forest.parent, i), 1)
      ensures Climbed(old(wins), wins, Ancestors(forest.parent, i), value)
      decreases i
    {
      var p := forest.parent[i];
      if p == NO_PARENT {
        return;
      }
      ghost var sims0, wins0 := sims, wins;
      sims := sims[p := sims[p] + 1];
      wins := wins[p := wins[p] + value];
      UpdateParent(p, value);
      ClimbOnto(sims0, sims, Ancestors(forest.parent, p), p, 1);
      ClimbOnto(wins0, wins, Ancestors(forest.parent, p), p, value);
    }

    /** `random_sim()` on node `i`, whose playout ended with the value `termValue`: one more
        simulation and `termValue` more wins on the node and on every ancestor. */
    method RandomSim(i: nat, termValue: int)
      requires Valid() && i < |sims|
      modifies this`sims, this`wins, this`ownSims, this`ownWins
      ensures Valid()
      ensures ownSims == old(ownSims)[i := old(ownSims[i]) + 1]
      ensures ownWins == old(ownWins)[i := old(ownWins[i]) + termValue]
      ensures Climbed(old(sims), sims, Lineage(forest.parent, i), 1)
      ensures Climbed(old(wins), wins, Lineage(forest.parent, i), termValue)
      ensures old(Bounded()) && -1 <= termValue <= 1 ==> Bounded()
    {
      ghost var sims0, wins0, ownSims0, ownWins0 := sims, wins, ownSims, ownWins;
      Count(i, termValue);
      Simulated(forest.parent, forest.children, sims0, ownSims0, i, 1, sims);
      Simulated(forest.parent, forest.children, wins0, ownWins0, i, termValue, wins);
      ClimbBounded(sims0, wins0, sims, wins, Lineage(forest.parent, i), termValue);
      ownSims := ownSims0[i := ownSims0[i] + 1];
      ownWins := ownWins0[i := ownWins0[i] + termValue];
    }

    /** The body of `random_sim()`: `self.sims += 1`, `self.wins += term_value` and
        `self.update_parent(value=term_value)`. */
    method Count(i: nat, termValue: int)
      requires Rooted(forest.parent) && i < |forest.parent| && |sims| == |forest.parent| && |wins| == |sims|
      modifies this`sims, this`wins
      ensures Climbed(old(sims), sims, Lineage(forest.parent, i), 1)
      ensures Climbed(old(wins), wins, Lineage(forest.parent, i), termValue)
    {
      ghost var sims0, wins0 := sims, wins;
      sims := sims[i := sims[i] + 1];
      wins := wins[i := wins[i] + termValue];
      UpdateParent(i, termValue);
      ClimbOnto(sims0, sims, Ancestors(forest.parent, i), i, 1);
      ClimbOnto(wins0, wins, Ancestors(forest.parent, i), i, termValue);
    }

    /** `NodeMCTS(state=new_state)` for a state whose next player is `childColour`: a new
        root node with no simulation. */
    method Spawn(childColour: int) returns (n: nat)
      requires Valid()
      modifies this`sims, this`wins, this`colour, this`ownSims, this`ownWins, forest
      ensures Valid() && n == old(|sims|)
      ensures forest.parent == old(forest.parent) + [NO_PARENT]
      ensures forest.children == old(forest.children) + [[]]
      ensures sims == old(sims) + [0] && wins == old(wins) + [0] && colour == old(colour) + [childColour]
      ensures ownSims == old(ownSims) + [0] && ownWins == old(ownWins) + [0]
      ensures old(Bounded()) ==> Bounded()
    {
      n := |sims|;
      SpawnFamily(forest.parent, forest.children);
      SpawnBacked(forest.children, sims, ownSims);
      SpawnBacked(forest.children, wins, ownWins);
      var made := forest.NewNode(Derived, [], map[]);
      sims, wins, colour, ownSims, ownWins := sims + [0], wins + [0], colour + [childColour], ownSims + [0], ownWins + [0];
    }

    /** `self.add(child)` for the fresh node `c`, with the type check passed: `c` becomes the
        last child of `p`. */
    method Adopt(p: nat, c: nat)
      requires Valid() && p < c && c == |sims| - 1
      requires forest.parent[c] == NO_PARENT && forest.children[c] == [] && sims[c] == 0 && wins[c] == 0
      modifies forest
      ensures Valid()
      ensures forest.parent == old(forest.parent)[c := p]
      ensures forest.children == old(forest.children)[p := old(forest.children[p]) + [c]]
    {
      AdoptFamily(forest.parent, forest.children, p, c);
      AdoptBacked(forest.children, sims, ownSims, p, c);
      AdoptBacked(forest.children, wins, ownWins, p, c);
      forest.Link(p, c);
    }

    /** `new_child()` as written: `NodeMCTS(state=new_state)` builds the child, but `add`
        accepts exactly a `Node` and raises a `TypeError` for the `NodeMCTS`. The child stays a
        root of its own, no playout runs and no count changes. */
    method NewChildAsWritten(i: nat, childColour: int) returns (r: Outcome<TreeError>)
      requires Valid() && i < |sims|
      modifies this`sims, this`wins, this`colour, this`ownSims, this`ownWins, forest
      ensures Valid() && r == Fail(TypeError)
      ensures forest.parent == old(forest.parent) + [NO_PARENT]
      ensures forest.children == old(forest.children) + [[]]
      ensures sims == old(sims) + [0] && wins == old(wins) + [0] && colour == old(colour) + [childColour]
      ensures old(Bounded()) ==> Bounded()
    {
      var child := Spawn(childColour);
      r := forest.Add(i, child);
    }

    /** `new_child()` as intended: the new `NodeMCTS` for a state whose next player is
        `childColour` becomes the last child of node `i` and is played out once; the playout
        ends with the value `termValue`. */
    method NewChild(i: nat, childColour: int, termValue: int) returns (c: nat)
      requires Valid() && i < |sims|
      modifies this`sims, this`wins, this`colour, this`ownSims, this`ownWins, forest
      ensures Valid() && c == old(|sims|) && |sims| == c + 1
      ensures forest.parent == old(forest.parent) + [i]
      ensures forest.children == (old(forest.children) + [[]])[i := old(forest.children[i]) + [c]]
      ensures colour == old(colour) + [childColour]
      ensures ownSims == old(ownSims) + [1] && ownWins == old(ownWins) + [termValue]
      ensures sims[c] == 1 && wins[c] == termValue
      ensures Climbed(old(sims), sims[..c], Lineage(old(forest.parent), i), 1)
      ensures Climbed(old(wins), wins[..c], Lineage(old(forest.parent), i), termValue)
      ensures old(Bounded()) && -1 <= termValue <= 1 ==> Bounded()
    {
      ghost var sims0, wins0, ownSims0, ownWins0 := sims, wins, ownSims, ownWins;
      ghost var line := Lineage(forest.parent, i);
      c := Attach(i, childColour);
      RandomSim(c, termValue);
      ChildClimbed(sims0, sims, line, 1);
      ChildClimbed(wins0, wins, line, termValue);
      assert (ownSims0 + [0])[c := 0 + 1] == ownSims0 + [1];
      assert (ownWins0 + [0])[c := 0 + termValue] == ownWins0 + [termValue];
    }

    /** The first two steps of `new_child()` as intended: the new `NodeMCTS` becomes the last
        child of node `i`, with node `i`'s lineage as its ancestors. */
    method Attach(i: nat, childColour: int) returns (c: nat)
      requires Valid() && i < |sims|
      modifies this`sims, this`wins, this`colour, this`ownSims, this`ownWins, forest
      ensures Valid() && c == old(|sims|)
      ensures forest.parent == old(forest.parent) + [i]
      ensures forest.children == (old(forest.children) + [[]])[i := old(forest.children[i]) + [c]]
      ensures sims == old(sims) + [0] && wins == old(wins) + [0] && colour == old(colour) + [childColour]
      ensures ownSims == old(ownSims) + [0] && ownWins == old(ownWins) + [0]
      ensures Lineage(forest.parent, c) == {c} + Lineage(old(forest.parent), i)
      ensures old(Bounded()) ==> Bounded()
    {
      ghost var parent0 := forest.parent;
      c := Spawn(childColour);
      Adopt(i, c);
      assert forest.parent == parent0 + [i as int];
      AncestorsExtend(parent0, [i as int], i);
    }

    /** `bestchild(c=0)` on node `i`: `max(self.children, key=conf_score)`, which scores the
        children in order, raising at the first score it cannot compute, and yields the first
        child with the highest `colour * wins / sims`. */
    function BestChild(i: nat): (r: Result<nat, BestError>)
      reads this, forest
      requires Valid() && i < |sims|
      ensures r == Err(EmptySequence) <==> forest.children[i] == []
      ensures r == Err(MathDomain) <==>
        forest.children[i] != [] && sims[forest.children[i][0]] != 0 && sims[i] <= 0
      ensures r == Err(ZeroDivision) <==>
        forest.children[i] != [] && (sims[forest.children[i][0]] == 0 ||
          (0 < sims[i] && exists k :: 0 <= k < |forest.children[i]| && sims[forest.children[i][k]] == 0))
      ensures r.Ok? ==> r.value in forest.children[i]
      ensures r.Ok? ==> forall c :: c in forest.children[i] ==>
        sims[c] != 0 && sims[r.value] != 0 && Score(colour[i], wins[c], sims[c]) <= Score(colour[i], wins[r.value], sims[r.value])
      ensures r.Ok? ==> exists b :: 0 <= b < |forest.children[i]| && forest.children[i][b] == r.value && FirstBest(forest.children[i], wins, sims, colour[i], b)
    {
      var cs := forest.children[i];
      if cs == [] then Err(EmptySequence)
      else if sims[cs[0]] == 0 then Err(ZeroDivision)
      else if sims[i] <= 0 then Err(MathDomain)
      else if FirstUnsimulated(cs, sims) < |cs| then Err(ZeroDivision)
      else
        var b := ArgMax(cs, wins, sims, colour[i], |cs|);
        Ok(cs[b])
    }

    /** In a backed-up tree `bestchild` raises only for a node with no children or with a child
        that has no simulation: a parent's count covers its first child's. */
    lemma BestChildRaises(i: nat)
      requires Valid() && i < |sims|
      ensures BestChild(i).Err? <==>
        forest.children[i] == [] || exists k :: 0 <= k < |forest.children[i]| && sims[forest.children[i][k]] == 0
    {
      var cs := forest.children[i];
      if cs != [] {
        assert BackedAt(forest.children, sims, ownSims, NO_PARENT, 0, i);
        SumAtLeast(cs, sims, 0);
      }
    }
  }

  /** The tree of `test_children`: a root whose next player is `rootColour`, expanded by one
      `new_child` per entry of `values`, whose playouts end with those values. The root has
      those children in order, each simulated once, and its counts are their sums. */
  method Expanded(rootColour: int, colours: seq<int>, values: seq<int>) returns (t: SearchTree)
    requires |colours| == |values|
    ensures t.Valid() && |t.sims| == |values| + 1
    ensures t.forest.children[0] == seq(|values|, k => k + 1)
    ensures forall j :: 1 <= j <= |values| ==> t.forest.parent[j] == 0 && t.sims[j] == 1 && t.wins[j] == values[j - 1]
    ensures t.sims[0] == |values|
    ensures t.sims[0] == Sum(t.forest.children[0], t.sims) && t.wins[0] == Sum(t.forest.children[0], t.wins)
  {
    t := new SearchTree(rootColour);
    var k := 0;
    while k < |values|
      invariant 0 <= k <= |values| && Expanding(t, k, values)
    {
      Grow(t, k, colours[k], values);
      k := k + 1;
    }
    assert BackedAt(t.forest.children, t.sims, t.ownSims, NO_PARENT, 0, 0);
    assert BackedAt(t.forest.children, t.wins, t.ownWins, NO_PARENT, 0, 0);
  }

  /** The state of `Expanded` after `k` children. */
  ghost predicate Expanding(t: SearchTree, k: nat, values: seq<int>)
    reads t, t.forest
    requires k <= |values|
  {
    t.Valid() && |t.sims| == k + 1 &&
    t.ownSims[0] == 0 && t.ownWins[0] == 0 &&
    t.forest.children[0] == seq(k, j => j + 1) &&
    (forall j :: 1 <= j <= k ==> t.forest.parent[j] == 0 && t.sims[j] == 1 && t.wins[j] == values[j - 1]) &&
    t.sims[0] == k
  }

  /** One round of `test_children`'s loop: the root gets its `k + 1`st child. */
  method Grow(t: SearchTree, k: nat, colour: int, values: seq<int>)
    requires k < |values| && Expanding(t, k, values)
    modifies t, t.forest
    ensures Expanding(t, k + 1, values)
  {
    assert Lineage(t.forest.parent, 0) == {0};
    ghost var sims0, wins0 := t.sims, t.wins;
    var c := t.NewChild(0, colour, values[k]);
    forall j | 1 <= j <= k
      ensures t.sims[j] == sims0[j] && t.wins[j] == wins0[j]
    {
      assert t.sims[..c][j] == t.sims[j] && t.wins[..c][j] == t.wins[j];
    }
    assert t.sims[..c][0] == t.sims[0];
    assert seq(k + 1, j => j + 1) == seq(k, j => j + 1) + [k + 1];
  }
}
