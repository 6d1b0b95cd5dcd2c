/** src/util/tree.py: the `Node` objects the search tree is built from. A node has a list of
    children, a parent (None for a root) and the attributes given to its constructor as keyword
    arguments. The nodes live in one `Forest`, which numbers them in the order they are created;
    a node's number stands for the object. */
module TreeNodes {
  import opened Wrappers

  /** The exact type of a node object: `Node` itself, or a subclass of it such as `NodeMCTS`. */
  datatype Kind = Plain | Derived

  /** The exception `add` raises for an argument that is not exactly a `Node`. */
  datatype TreeError = TypeError

  /** The parent of a root: `None`. */
  const NO_PARENT: int := -1

  /** Every listed node is one of the first `n`. */
  predicate Below(cs: seq<nat>, n: nat) {
    forall k :: 0 <= k < |cs| ==> cs[k] < n
  }

  /** The parents after `add(c)` for each `c` of the first `k` of `cs` in turn, on a node
      numbered `n`. */
  function Adopted(parent: seq<int>, cs: seq<nat>, k: nat, n: int): (ps: seq<int>)
    requires k <= |cs| && Below(cs, |parent|)
    ensures |ps| == |parent|
  {
    if k == 0 then parent else Adopted(parent, cs, k - 1, n)[cs[k - 1] := n]
  }

  /** The adopted nodes, and only they, have `n` as their parent. */
  lemma {:induction false} AdoptedMeans(parent: seq<int>, cs: seq<nat>, k: nat, n: int, j: nat)
    requires k <= |cs| && Below(cs, |parent|) && j < |parent|
    ensures Adopted(parent, cs, k, n)[j] == if j in cs[..k] then n else parent[j]
  {
    if k > 0 {
      AdoptedMeans(parent, cs, k - 1, n, j);
      assert cs[..k] == cs[..k - 1] + [cs[k - 1]];
    }
  }

  /** The position in `cs` of the first node that is not exactly a `Node`, or `|cs|`. */
  function FirstForeign(kind: seq<Kind>, cs: seq<nat>): (f: nat)
    requires Below(cs, |kind|)
    ensures f <= |cs|
    ensures forall k :: 0 <= k < f ==> kind[cs[k]] == Plain
    ensures f < |cs| ==> kind[cs[f]] != Plain
    decreases |cs|
  {
    if cs == [] then 0
    else if kind[cs[0]] != Plain then 0
    else 1 + FirstForeign(kind, cs[1..])
  }

  class Forest {
    /** `node.parent` of every node, `NO_PARENT` for `None`. */
    var parent: seq<int>
    /** `node.children` of every node. */
    var children: seq<seq<nat>>
    /** The class of every node object. */
    var kind: seq<Kind>
    /** The keyword attributes of every node. */
    var attrs: seq<map<string, string>>

    ghost predicate Valid()
      reads this
    {
      |children| == |parent| && |kind| == |parent| && |attrs| == |parent| &&
      (forall i :: 0 <= i < |parent| ==> NO_PARENT <= parent[i] < |parent|) &&
      (forall i :: 0 <= i < |parent| ==> Below(children[i], |parent|))
    }

    /** No node yet. */
    constructor ()
      ensures Valid() && parent == [] && children == [] && kind == [] && attrs == []
    {
      parent, children, kind, attrs := [], [], [], [];
    }

    /** `add(child)`: `child` must be exactly a `Node`; it then gets this node as its parent and
        becomes the last of this node's children. An earlier parent keeps it in its list. */
    method Add(p: nat, c: nat) returns (r: Outcome<TreeError>)
      requires Valid() && p < |parent| && c < |parent|
      modifies this
      ensures Valid() && kind == old(kind) && attrs == old(attrs)
      ensures old(kind[c]) != Plain ==> r == Fail(TypeError) && parent == old(parent) && children == old(children)
      ensures old(kind[c]) == Plain ==>
        r == Pass && parent == old(parent)[c := p] && children == old(children)[p := old(children[p]) + [c]]
    {
      if kind[c] != Plain {
        return Fail(TypeError);
      }
      Link(p, c);
      r := Pass;
    }

    /** The body of `add` after its type check: `child.parent = self` and
        `self.children.append(child)`. */
    method Link(p: nat, c: nat)
      requires Valid() && p < |parent| && c < |parent|
      modifies this
      ensures Valid() && kind == old(kind) && attrs == old(attrs)
      ensures parent == old(parent)[c := p] && children == old(children)[p := old(children[p]) + [c]]
    {
      parent := parent[c := p];
      children := children[p := children[p] + [c]];
    }

    /** `Node.__init__(children, **kwargs)` for an object of class `k`: the new node adds the
        given children in order and then takes the keyword attributes and no parent. A child
        that is not exactly a `Node` raises a `TypeError`; the children added before it keep
        the unfinished node as their parent. */
    method NewNode(k: Kind, cs: seq<nat>, kwargs: map<string, string>) returns (r: Result<nat, TreeError>)
      requires Valid() && Below(cs, |parent|)
      modifies this
      ensures Valid() && |parent| == old(|parent|) + 1 && kind == old(kind) + [k]
      ensures r.Err? <==> FirstForeign(old(kind), cs) < |cs|
      ensures r.Err? ==> r.error == TypeError
      ensures r.Ok? ==> r.value == old(|parent|)
      ensures parent == Adopted(old(parent) + [NO_PARENT], cs, FirstForeign(old(kind), cs), old(|parent|))
      ensures children == old(children) + [cs[..FirstForeign(old(kind), cs)]]
      ensures attrs == old(attrs) + [if r.Ok? then kwargs else map[]]
      ensures r.Ok? ==> children[r.value] == cs && attrs[r.value] == kwargs
      ensures cs == [] ==> r.Ok? && parent == old(parent) + [NO_PARENT] && children == old(children) + [[]]
    {
      var n := |parent|;
      parent, children, kind, attrs := parent + [NO_PARENT], children + [[]], kind + [k], attrs + [map[]];
      var added := AddChildren(n, cs);
      if added.Fail? {
        return Err(added.error);
      }
      assert cs[..FirstForeign(old(kind), cs)] == cs;
      AdoptedMeans(old(parent) + [NO_PARENT], cs, |cs|, n, n);
      assert parent[n := NO_PARENT] == parent;
      parent := parent[n := NO_PARENT];
      attrs := attrs[n := kwargs];
      r := Ok(n);
    }

    /** The loop of `__init__` that adds the children `cs` to the node `n`, up to the first that
        raises. */
    method AddChildren(n: nat, cs: seq<nat>) returns (r: Outcome<TreeError>)
      requires Valid() && n < |parent| && Below(cs, n) && children[n] == []
      modifies this
      ensures Valid() && |parent| == old(|parent|) && kind == old(kind) && attrs == old(attrs)
      ensures r.Fail? <==> FirstForeign(kind, cs) < |cs|
      ensures r.Fail? ==> r.error == TypeError
      ensures parent == Adopted(old(parent), cs, FirstForeign(kind, cs), n)
      ensures children == old(children)[n := cs[..FirstForeign(kind, cs)]]
    {
      assert old(children)[n := cs[..0]] == children;
      var j := 0;
      while j < |cs|
        invariant Valid() && |parent| == old(|parent|) && kind == old(kind) && attrs == old(attrs)
        invariant 0 <= j <= FirstForeign(kind, cs)
        invariant parent == Adopted(old(parent), cs, j, n)
        invariant children == old(children)[n := cs[..j]]
      {
        var added := Add(n, cs[j]);
        if added.Fail? {
          return added;
        }
        assert cs[..j + 1] == cs[..j] + [cs[j]];
        j := j + 1;
      }
      r := Pass;
    }
  }

  /** When every listed node is exactly a `Node`, no child raises. */
  lemma {:induction false} AllPlain(kind: seq<Kind>, cs: seq<nat>)
    requires Below(cs, |kind|) && forall k :: 0 <= k < |cs| ==> kind[cs[k]] == Plain
    ensures FirstForeign(kind, cs) == |cs|
    decreases |cs|
  {
    if cs != [] {
      AllPlain(kind, cs[1..]);
    }
  }

  /** A node made of `Node` children only gets exactly those children, in order, and is the
      parent of each of them and of no other node. */
  lemma NewNodeFamily(parent: seq<int>, kind: seq<Kind>, cs: seq<nat>, n: nat, j: nat)
    requires |kind| == |parent| && Below(cs, |parent|) && FirstForeign(kind, cs) == |cs| && j < |parent|
    ensures Adopted(parent + [NO_PARENT], cs, FirstForeign(kind, cs), n)[j] == if j in cs then n else parent[j]
  {
    assert cs[..|cs|] == cs;
    AdoptedMeans(parent + [NO_PARENT], cs, |cs|, n, j);
  }

  /** The doctest of `Node`: a grandmother with a daughter and a son, each with a granddaughter
      and a grandson. */
  method NodeDoctest() returns (rel0: string, rel1: string, rel2: string)
    ensures rel0 == "grandmother" && rel1 == "daughter" && rel2 == "granddaughter"
  {
    var forest := new Forest();
    var daughter := Parent(forest, "daughter");
    var son := Parent(forest, "son");
    AllPlain(forest.kind, [daughter, son]);
    var tree := forest.NewNode(Plain, [daughter, son], map["rel0" := "grandmother"]);
    rel0 := forest.attrs[tree.value]["rel0"];
    var first := forest.children[tree.value][0];
    rel1 := forest.attrs[first]["rel1"];
    rel2 := forest.attrs[forest.children[first][0]]["rel2"];
  }

  /** One parent of the doctest, `Node(rel1=rel, children=[Node(rel2='granddaughter'),
      Node(rel2='grandson')])`, built in `forest` after its nodes so far. */
  method Parent(forest: Forest, rel: string) returns (p: nat)
    requires forest.Valid() && forall i :: 0 <= i < |forest.kind| ==> forest.kind[i] == Plain
    modifies forest
    ensures forest.Valid() && |forest.parent| == old(|forest.parent|) + 3 && p == |forest.parent| - 1
    ensures forall i :: 0 <= i < |forest.kind| ==> forest.kind[i] == Plain
    ensures forall i :: 0 <= i < old(|forest.parent|) ==> forest.attrs[i] == old(forest.attrs[i]) && forest.children[i] == old(forest.children[i])
    ensures forest.attrs[p] == map["rel1" := rel] && |forest.children[p]| == 2 && forest.children[p][0] < p
    ensures forest.attrs[forest.children[p][0]] == map["rel2" := "granddaughter"]
  {
    var granddaughter := forest.NewNode(Plain, [], map["rel2" := "granddaughter"]);
    var grandson := forest.NewNode(Plain, [], map["rel2" := "grandson"]);
    AllPlain(forest.kind, [granddaughter.value, grandson.value]);
    var r := forest.NewNode(Plain, [granddaughter.value, grandson.value], map["rel1" := rel]);
    p := r.value;
  }
}
