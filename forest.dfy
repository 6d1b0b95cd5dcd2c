/** Pointer forests: the representation behind every union-find draft of the repository
    (util/unionfind.py, gomcts/unionfind.py and unionfind.py).

    Element `i` of a pointer array `p` points at `p[i]`; an element that points at itself is
    the representative of its class. The ghost `rank` sequence is bookkeeping that the source
    does not have: every element that does not point at itself points at an element of smaller
    rank, which is why following pointers terminates. */
module PointerForest {

  /** numpy's reading of index `e` in an array of length `n`: an index outside `-n .. n - 1`
      raises IndexError. */
  predicate InRange(n: nat, e: int) {
    -(n as int) <= e < n
  }

  /** The position numpy reads for an index `e`: a negative index counts from the end. */
  function Slot(n: nat, e: int): int {
    if e < 0 then e + n else e
  }

  /** `p` is an acyclic pointer array, witnessed by `rank`. */
  ghost predicate IsForest(p: seq<int>, rank: seq<nat>) {
    |rank| == |p| &&
    (forall i :: 0 <= i < |p| ==> 0 <= p[i] < |p|) &&
    (forall i :: 0 <= i < |p| && p[i] != i ==> rank[p[i]] < rank[i])
  }

  /** The representative of `i`: the self-pointing element reached by following pointers. */
  ghost function Root(p: seq<int>, rank: seq<nat>, i: int): (r: int)
    requires IsForest(p, rank) && 0 <= i < |p|
    ensures 0 <= r < |p| && p[r] == r
    ensures r == i || rank[r] < rank[i]
    ensures r == i <==> p[i] == i
    decreases rank[i]
  {
    if p[i] == i then i else Root(p, rank, p[i])
  }

  /** The representative of `i`, where every element past the end of `p` is its own. */
  ghost function RepOf(p: seq<int>, rank: seq<nat>, i: nat): nat
    requires IsForest(p, rank)
  {
    if i < |p| then Root(p, rank, i) else i
  }

  /** The elements passed on the way from `i` to its representative (the representative excluded). */
  ghost function Chain(p: seq<int>, rank: seq<nat>, i: int): (c: set<int>)
    requires IsForest(p, rank) && 0 <= i < |p|
    ensures forall x :: x in c ==> 0 <= x < |p| && p[x] != x && Root(p, rank, x) == Root(p, rank, i)
    ensures p[i] != i ==> i in c
    decreases rank[i]
  {
    if p[i] == i then {} else {i} + Chain(p, rank, p[i])
  }

  /** `p` after a find of `e` with path compression: the recursion compresses from the parent
      of `e` and then points `e` itself at the representative. */
  ghost function Compressed(p: seq<int>, rank: seq<nat>, e: int): (q: seq<int>)
    requires IsForest(p, rank) && 0 <= e < |p|
    ensures |q| == |p| && q[e] == Root(p, rank, e)
    decreases rank[e]
  {
    if p[e] == e then p else Compressed(p, rank, p[e])[e := Root(p, rank, e)]
  }

  /** Compression points every element of the chain at the representative and changes
      nothing else. */
  lemma {:induction false} CompressedAt(p: seq<int>, rank: seq<nat>, e: int)
    requires IsForest(p, rank) && 0 <= e < |p|
    ensures forall i :: 0 <= i < |p| ==>
      Compressed(p, rank, e)[i] == if i in Chain(p, rank, e) then Root(p, rank, e) else p[i]
    decreases rank[e]
  {
    if p[e] != e {
      CompressedAt(p, rank, p[e]);
    }
  }

  /** Compression keeps the forest acyclic under the same ranks. */
  lemma CompressedIsForest(p: seq<int>, rank: seq<nat>, e: int)
    requires IsForest(p, rank) && 0 <= e < |p|
    ensures IsForest(Compressed(p, rank, e), rank)
  {
    CompressedAt(p, rank, e);
    var q := Compressed(p, rank, e);
    var r := Root(p, rank, e);
    forall i | 0 <= i < |q| && q[i] != i
      ensures rank[q[i]] < rank[i]
    {
      if i in Chain(p, rank, e) {
        assert Root(p, rank, i) == r && p[i] != i;
      }
    }
  }

  /** Compression changes no element's representative. */
  lemma {:induction false} CompressedRoot(p: seq<int>, rank: seq<nat>, e: int, i: int)
    requires IsForest(p, rank) && 0 <= e < |p| && 0 <= i < |p|
    ensures IsForest(Compressed(p, rank, e), rank)
    ensures Root(Compressed(p, rank, e), rank, i) == Root(p, rank, i)
    decreases rank[i]
  {
    CompressedIsForest(p, rank, e);
    CompressedAt(p, rank, e);
    var q := Compressed(p, rank, e);
    var r := Root(p, rank, e);
    if i in Chain(p, rank, e) {
      assert q[i] == r && q[r] == r;
    } else if p[i] != i {
      CompressedRoot(p, rank, e, p[i]);
    }
  }

  /** A second find returns what the first one did: find(find(x)) == find(x), and the state
      after the first find already resolves every element to its old representative. */
  lemma FindIdempotent(p: seq<int>, rank: seq<nat>, e: int)
    requires IsForest(p, rank) && 0 <= e < |p|
    ensures IsForest(Compressed(p, rank, e), rank)
    ensures Root(Compressed(p, rank, e), rank, Root(p, rank, e)) == Root(p, rank, e)
    ensures Root(Compressed(p, rank, e), rank, e) == Root(p, rank, e)
  {
    CompressedRoot(p, rank, e, Root(p, rank, e));
    CompressedRoot(p, rank, e, e);
  }

  /** `p` with every element of `targets` pointing at `t`: a union of the classes of `targets`
      into the class of `t`. */
  function Repointed(p: seq<int>, targets: set<int>, t: int): (q: seq<int>)
    ensures |q| == |p|
  {
    seq(|p|, i requires 0 <= i < |p| => if i in targets then t else p[i])
  }

  /** Every element of `targets` is a representative in `p`. */
  ghost predicate AllRoots(p: seq<int>, targets: set<int>) {
    forall x :: x in targets ==> 0 <= x < |p| && p[x] == x
  }

  /** The ranks after a union into representative `t`: every class other than `t`'s moves
      above `t`. */
  ghost function Shifted(p: seq<int>, rank: seq<nat>, t: int): (s: seq<nat>)
    requires IsForest(p, rank) && 0 <= t < |p|
    ensures |s| == |p|
  {
    seq(|p|, i requires 0 <= i < |p| => if Root(p, rank, i) == t then rank[i] else rank[i] + rank[t] + 1)
  }

  lemma RepointedIsForest(p: seq<int>, rank: seq<nat>, targets: set<int>, t: int)
    requires IsForest(p, rank) && 0 <= t < |p| && p[t] == t && AllRoots(p, targets)
    ensures IsForest(Repointed(p, targets, t), Shifted(p, rank, t))
  {
    var q := Repointed(p, targets, t);
    var s := Shifted(p, rank, t);
    forall i | 0 <= i < |q| && q[i] != i
      ensures s[q[i]] < s[i]
    {
      if i in targets {
        assert Root(p, rank, i) == i && Root(p, rank, t) == t;
      } else {
        assert Root(p, rank, p[i]) == Root(p, rank, i);
      }
    }
  }

  /** After the union, an element resolves to `t` exactly when its old representative was one of
      `targets` (or `t` itself); every other element keeps its representative. */
  lemma {:induction false} RepointedRoot(p: seq<int>, rank: seq<nat>, targets: set<int>, t: int, i: int)
    requires IsForest(p, rank) && 0 <= t < |p| && p[t] == t && AllRoots(p, targets) && 0 <= i < |p|
    ensures IsForest(Repointed(p, targets, t), Shifted(p, rank, t))
    ensures Root(Repointed(p, targets, t), Shifted(p, rank, t), i)
         == if Root(p, rank, i) in targets then t else Root(p, rank, i)
    decreases rank[i]
  {
    RepointedIsForest(p, rank, targets, t);
    var q := Repointed(p, targets, t);
    var s := Shifted(p, rank, t);
    if i in targets {
      assert q[t] == t;
    } else if p[i] != i {
      RepointedRoot(p, rank, targets, t, p[i]);
    }
  }

  /** `p` extended with self-pointing elements up to length `n`. */
  function Grown(p: seq<int>, n: int): (q: seq<int>)
    requires |p| <= n
    ensures |q| == n && q[..|p|] == p
    ensures forall k :: |p| <= k < n ==> q[k] == k
    ensures n == |p| ==> q == p
  {
    p + seq(n - |p|, k requires 0 <= k < n - |p| => |p| + k)
  }

  /** The ranks of a grown array: the new elements get rank 0. */
  ghost function GrownRank(rank: seq<nat>, n: int): (s: seq<nat>)
    requires |rank| <= n
    ensures |s| == n && s[..|rank|] == rank
    ensures n == |rank| ==> s == rank
  {
    rank + seq(n - |rank|, k => 0)
  }

  /** Growth keeps the forest and every old representative; each new element is its own. */
  lemma {:induction false} GrownRoot(p: seq<int>, rank: seq<nat>, n: int, i: int)
    requires IsForest(p, rank) && |p| <= n && 0 <= i < n
    ensures IsForest(Grown(p, n), GrownRank(rank, n))
    ensures Root(Grown(p, n), GrownRank(rank, n), i) == if i < |p| then Root(p, rank, i) else i
    decreases if i < |p| then rank[i] else 0
  {
    var q := Grown(p, n);
    var s := GrownRank(rank, n);
    assert forall j :: 0 <= j < |p| ==> q[j] == p[j] && s[j] == rank[j];
    assert IsForest(q, s);
    if i < |p| && p[i] != i {
      GrownRoot(p, rank, n, p[i]);
    }
  }

  /** Re-pointing `x` at itself keeps the forest under the same ranks. */
  lemma ResetIsForest(p: seq<int>, rank: seq<nat>, x: int)
    requires IsForest(p, rank) && 0 <= x < |p|
    ensures IsForest(p[x := x], rank)
  {
  }

  /** After re-pointing `x` at itself, an element either keeps its representative or now
      resolves to `x`, and the latter only when it used to share `x`'s representative. */
  lemma {:induction false} ResetRoot(p: seq<int>, rank: seq<nat>, x: int, i: int)
    requires IsForest(p, rank) && 0 <= x < |p| && 0 <= i < |p|
    ensures IsForest(p[x := x], rank)
    ensures var r := Root(p[x := x], rank, i);
      r == Root(p, rank, i) || (r == x && Root(p, rank, i) == Root(p, rank, x))
    decreases rank[i]
  {
    ResetIsForest(p, rank, x);
    if i != x && p[i] != i {
      ResetRoot(p, rank, x, p[i]);
    }
  }

  /** The classes a union merges, stated on the positions of the elements and the target rather
      than on the representatives the finds returned. */
  lemma MergedClasses(rep0: nat -> nat, rep1: nat -> nat, repres: seq<int>, ss: seq<nat>, t: nat)
    requires |ss| == |repres| + 1 && t == rep0(ss[|repres|]) && rep0(t) == t
    requires forall j :: 0 <= j < |repres| ==> repres[j] == rep0(ss[j]) && rep0(repres[j]) == repres[j]
    requires forall i: nat :: rep1(i) == if rep0(i) in (set j | 0 <= j < |repres| :: repres[j]) then t else rep0(i)
    ensures forall i: nat :: rep1(i) == if rep0(i) in (set k | 0 <= k < |ss| - 1 :: rep0(ss[k])) then t else rep0(i)
    ensures forall k :: 0 <= k < |ss| ==> rep1(ss[k]) == t
  {
    IndexedSet(repres, ss[..|repres|], rep0);
    assert (set k | 0 <= k < |ss| - 1 :: rep0(ss[k])) == set k | 0 <= k < |repres| :: rep0(ss[..|repres|][k]);
    forall k | 0 <= k < |ss|
      ensures rep1(ss[k]) == t
    {
      if k < |repres| {
        assert rep0(ss[k]) == repres[k];
      }
    }
  }

  /** Collecting `f` of the positions is collecting the values they map to. */
  lemma IndexedSet(vs: seq<int>, ss: seq<int>, f: nat -> nat)
    requires |vs| == |ss| && forall k :: 0 <= k < |ss| ==> 0 <= ss[k] && vs[k] == f(ss[k])
    ensures (set k | 0 <= k < |vs| :: vs[k]) == set k | 0 <= k < |ss| :: f(ss[k])
  {
  }
}
