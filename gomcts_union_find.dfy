/** gomcts/unionfind.py: the union-find that gomcts/godata.py keeps its board in. Its pointer
    array is created once at its full size and never grows: an element outside the array makes
    the first index fail with an IndexError, which the `except KeyError` clause does not catch. */
module UnionFindGomcts {
  import opened Wrappers
  import opened PointerForest

  /** The exceptions of this union-find. */
  datatype UfError = IndexError | TypeError

  /** The left-hand index of `uf[elements] = target`: a single integer or a list of them. */
  datatype Elements = Single(e: int) | Many(es: seq<int>)

  /** Every find of `es` stays inside an array of length `n`. */
  predicate AllInRange(n: nat, es: seq<int>) {
    forall k :: 0 <= k < |es| ==> InRange(n, es[k])
  }

  /** The positions the finds of `es` read. */
  function Positions(n: nat, es: seq<int>): (ss: seq<nat>)
    requires AllInRange(n, es)
    ensures |ss| == |es|
  {
    seq(|es|, k requires 0 <= k < |es| => Slot(n, es[k]) as nat)
  }

  /** `repres` holds, in order, the representatives under `rep` of the positions of `es` in an
      array of length `n`, each a representative of its own. */
  ghost predicate Found(rep: nat -> nat, n: nat, es: seq<int>, repres: seq<int>)
    decreases |es|
  {
    |repres| == |es| &&
    (es != [] ==>
      var e := es[|es| - 1];
      var v := repres[|es| - 1];
      InRange(n, e) && v == rep(Slot(n, e)) && 0 <= v < n && rep(v) == v &&
      Found(rep, n, es[..|es| - 1], repres[..|es| - 1]))
  }

  lemma FoundStep(rep: nat -> nat, n: nat, es: seq<int>, k: nat, repres: seq<int>, v: int)
    requires k < |es| && Found(rep, n, es[..k], repres)
    requires InRange(n, es[k]) && v == rep(Slot(n, es[k])) && 0 <= v < n && rep(v) == v
    ensures Found(rep, n, es[..k + 1], repres + [v])
  {
    assert es[..k + 1][..k] == es[..k];
    assert (repres + [v])[..k] == repres;
  }

  lemma {:induction false} FoundMeans(rep: nat -> nat, n: nat, es: seq<int>, repres: seq<int>)
    requires Found(rep, n, es, repres)
    ensures AllInRange(n, es) && |repres| == |es|
    ensures forall j :: 0 <= j < |es| ==>
      repres[j] == rep(Positions(n, es)[j]) && 0 <= repres[j] < n && rep(repres[j]) == repres[j]
    decreases |es|
  {
    if es != [] {
      var m := |es| - 1;
      FoundMeans(rep, n, es[..m], repres[..m]);
      assert forall j :: 0 <= j < m ==> es[..m][j] == es[j] && repres[..m][j] == repres[j];
    }
  }

  class UnionFind {
    /** `None` stands for the default limit `np.infty`, which creates an empty array. */
    const sizeLimit: Option<nat>
    /** The pointer array `_pointers`. */
    var pointers: seq<int>
    ghost var rank: seq<nat>
    /** The representative of every position of the array. */
    ghost var repOf: nat -> nat

    ghost predicate Valid()
      reads this
    {
      IsForest(pointers, rank) &&
      |pointers| == (if sizeLimit.Some? then sizeLimit.value else 0) &&
      forall i: nat {:trigger repOf(i), RepOf(pointers, rank, i)} :: repOf(i) == RepOf(pointers, rank, i)
    }

    /** The live `__init__` (the first definition is overridden by the second): every element
        points at itself. */
    constructor (sizeLimit: Option<nat>)
      ensures Valid() && this.sizeLimit == sizeLimit
      ensures pointers == seq(if sizeLimit.Some? then sizeLimit.value else 0, i => i)
      ensures forall i: nat :: repOf(i) == i
    {
      var n := if sizeLimit.Some? then sizeLimit.value else 0;
      this.sizeLimit := sizeLimit;
      pointers := seq(n, i => i);
      rank := seq(n, i => 0);
      repOf := i => i;
    }

    /** `len(uf)`: the length of the pointer array. */
    method Length() returns (n: nat)
      requires Valid()
      ensures n == |pointers|
      ensures n == if sizeLimit.Some? then sizeLimit.value else 0
    {
      n := |pointers|;
    }

    /** `uf[e]`: the representative of `e`, with path compression. */
    method Find(e: int) returns (r: Result<int, UfError>)
      requires Valid()
      modifies this
      ensures Valid() && repOf == old(repOf)
      ensures r.Err? <==> !InRange(|pointers|, e)
      ensures r.Err? ==> r.error == IndexError && pointers == old(pointers) && rank == old(rank)
      ensures r.Ok? ==> 0 <= Slot(|pointers|, e) < |pointers| && r.value == repOf(Slot(|pointers|, e))
      ensures r.Ok? ==> 0 <= r.value < |pointers| && repOf(r.value) == r.value
      ensures r.Ok? ==> pointers == Compressed(old(pointers), old(rank), Slot(|pointers|, e)) && rank == old(rank)
    {
      if e < -|pointers| || e >= |pointers| {
        return Err(IndexError);
      }
      var s := if e < 0 then e + |pointers| else e;
      ghost var p := pointers;
      var v: int;
      if e < 0 || pointers[s] != e {
        // a negative element never equals the (non-negative) pointer it reads
        v := Chase(pointers[s]);
        pointers := pointers[s := v];
      } else {
        v := s;
      }
      assert pointers == Compressed(p, rank, s);
      CompressedIsForest(p, rank, s);
      forall i: nat
        ensures repOf(i) == RepOf(pointers, rank, i)
      {
        assert repOf(i) == RepOf(p, rank, i);
        if i < |pointers| {
          CompressedRoot(p, rank, s, i);
        }
      }
      assert repOf(s) == RepOf(p, rank, s);
      assert repOf(v) == RepOf(pointers, rank, v);
      r := Ok(v);
    }

    /** The recursion of find: follow pointers from `e` to the representative and point every
        element passed directly at it. */
    method Chase(e: int) returns (v: int)
      requires IsForest(pointers, rank) && 0 <= e < |pointers|
      modifies this
      ensures v == Root(old(pointers), old(rank), e)
      ensures pointers == Compressed(old(pointers), old(rank), e)
      ensures rank == old(rank) && repOf == old(repOf)
      decreases rank[e]
    {
      if pointers[e] == e {
        v := e;
      } else {
        v := Chase(pointers[e]);
        pointers := pointers[e := v];
      }
    }

    /** `uf[elements] = target`: the finds of every element and then of the target, followed by
        pointing every element's representative at the target's. A single integer on the left
        is refused because it cannot be iterated. */
    method SetItem(elements: Elements, target: int) returns (r: Outcome<UfError>)
      requires Valid()
      modifies this
      ensures Valid()
      ensures elements.Single? ==> r == Fail(TypeError) && pointers == old(pointers) && rank == old(rank)
      ensures elements.Many? ==>
        var all := elements.es + [target];
        (r.Fail? <==> !AllInRange(|pointers|, all)) &&
        (r.Fail? ==> r.error == IndexError && repOf == old(repOf)) &&
        (r.Pass? ==>
          var ss := Positions(|pointers|, all);
          var t := old(repOf(ss[|ss| - 1]));
          var merged := set k | 0 <= k < |ss| - 1 :: old(repOf(ss[k]));
          (forall i: nat :: repOf(i) == if old(repOf(i)) in merged then t else old(repOf(i))) &&
          (forall k :: 0 <= k < |ss| ==> repOf(ss[k]) == t))
    {
      if elements.Single? {
        return Fail(TypeError);
      }
      var es := elements.es;
      ghost var rep0 := repOf;
      var found := FindAll(es + [target]);
      if found.Err? {
        return Fail(found.error);
      }
      ghost var ss := Positions(|pointers|, es + [target]);
      var repres := found.value[..|es|];
      var t := found.value[|es|];
      Unite(repres, t);
      MergedClasses(rep0, repOf, repres, ss, t);
      r := Pass;
    }

    /** The finds of `uf[elements] = target`, in order: the representative of each element, or
        the IndexError of the first one outside the array. */
    method FindAll(es: seq<int>) returns (r: Result<seq<int>, UfError>)
      requires Valid()
      modifies this
      ensures Valid() && repOf == old(repOf)
      ensures r.Err? <==> !AllInRange(|pointers|, es)
      ensures r.Err? ==> r.error == IndexError
      ensures r.Ok? ==> |r.value| == |es|
      ensures r.Ok? ==> forall j :: 0 <= j < |es| ==>
        0 <= r.value[j] < |pointers| && repOf(r.value[j]) == r.value[j] &&
        r.value[j] == repOf(Positions(|pointers|, es)[j])
    {
      var repres: seq<int> := [];
      var k := 0;
      ghost var rep0 := repOf;
      ghost var n := |pointers|;
      while k < |es|
        invariant Valid() && repOf == rep0 && |pointers| == n
        invariant 0 <= k <= |es|
        invariant Found(rep0, n, es[..k], repres)
      {
        var f := Find(es[k]);
        if f.Err? {
          return Err(f.error);
        }
        FoundStep(rep0, n, es, k, repres, f.value);
        repres := repres + [f.value];
        k := k + 1;
      }
      assert es[..k] == es;
      FoundMeans(rep0, n, es, repres);
      r := Ok(repres);
    }

    /** numpy's `pointers[repres] = t`: every representative in `repres` now points at the
        representative `t`, which merges their classes into `t`'s. */
    method Unite(repres: seq<int>, t: int)
      requires Valid() && 0 <= t < |pointers| && repOf(t) == t
      requires forall j :: 0 <= j < |repres| ==> 0 <= repres[j] < |pointers| && repOf(repres[j]) == repres[j]
      modifies this
      ensures Valid()
      ensures pointers == Repointed(old(pointers), set j | 0 <= j < |repres| :: repres[j], t)
      ensures forall i: nat :: repOf(i) == if old(repOf(i)) in (set j | 0 <= j < |repres| :: repres[j])
                                           then t else old(repOf(i))
    {
      ghost var p := pointers;
      ghost var rank0 := rank;
      ghost var rep0 := repOf;
      var targets := set j | 0 <= j < |repres| :: repres[j];
      assert forall j :: 0 <= j < |repres| ==> rep0(repres[j]) == RepOf(p, rank0, repres[j]);
      assert rep0(t) == RepOf(p, rank0, t);
      assert AllRoots(p, targets);
      pointers := Repointed(pointers, targets, t);
      rank := Shifted(p, rank0, t);
      repOf := (i: nat) => if rep0(i) in targets then t else rep0(i);
      RepointedIsForest(p, rank0, targets, t);
      forall i: nat
        ensures repOf(i) == RepOf(pointers, rank, i)
      {
        assert rep0(i) == RepOf(p, rank0, i);
        if i < |pointers| {
          RepointedRoot(p, rank0, targets, t, i);
        }
      }
    }

    /** The union `pointers[repre2] = repre1` of the root draft (unionfind.py), which
        gomcts/godata.py calls on this structure: the class of `repre2` joins that of `repre1`. */
    method Link(repre1: nat, repre2: nat)
      requires Valid() && repre1 < |pointers| && repre2 < |pointers|
      requires repOf(repre1) == repre1 && repOf(repre2) == repre2
      modifies this
      ensures Valid()
      ensures pointers == old(pointers)[repre2 := repre1]
      ensures forall i: nat :: repOf(i) == if old(repOf(i)) == repre2 then repre1 else old(repOf(i))
    {
      Unite([repre2], repre1);
      assert (set j | 0 <= j < |[repre2]| :: [repre2][j]) == {repre2} by {
        assert [repre2][0] == repre2;
      }
      assert pointers == old(pointers)[repre2 := repre1];
    }

    /** `_pointers[x] = x`, as gomcts/godata.py:104 writes it: `x` becomes a representative of
        its own. Elements that reached their representative through `x` now stop at `x`. */
    method Reset(x: nat)
      requires Valid() && x < |pointers|
      modifies this
      ensures Valid()
      ensures pointers == old(pointers)[x := x]
      ensures repOf(x) == x
      ensures forall i: nat :: repOf(i) == old(repOf(i)) || (repOf(i) == x && old(repOf(i)) == old(repOf(x)))
      ensures forall i: nat :: old(repOf(i)) != old(repOf(x)) ==> repOf(i) == old(repOf(i))
      ensures forall i: nat :: old(repOf(i)) == i ==> repOf(i) == i
    {
      ghost var p := pointers;
      ghost var rep0 := repOf;
      pointers := pointers[x := x];
      ResetIsForest(p, rank, x);
      ghost var p1 := pointers;
      ghost var rank1 := rank;
      repOf := (i: nat) => RepOf(p1, rank1, i);
      forall i: nat
        ensures repOf(i) == old(repOf(i)) || (repOf(i) == x && old(repOf(i)) == old(repOf(x)))
      {
        assert rep0(i) == RepOf(p, rank, i) && rep0(x) == RepOf(p, rank, x);
        if i < |pointers| {
          ResetRoot(p, rank, x, i);
        }
      }
      forall i: nat | rep0(i) == i
        ensures repOf(i) == i
      {
        assert rep0(i) == RepOf(p, rank, i);
        if i < |pointers| {
          assert p[i] == i && pointers[i] == i;
        }
      }
    }

    /** Every representative is its own representative. */
    lemma Idempotent()
      requires Valid()
      ensures forall i: nat :: repOf(repOf(i)) == repOf(i)
    {
      forall i: nat
        ensures repOf(repOf(i)) == repOf(i)
      {
        assert repOf(i) == RepOf(pointers, rank, i);
        assert repOf(repOf(i)) == RepOf(pointers, rank, repOf(i));
      }
    }
  }
}
