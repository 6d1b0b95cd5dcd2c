/** util/unionfind.py: a union-find structure over the integers 0, 1, 2, …, stored as a
    pointer list that, without a size limit, grows on demand. */
module UnionFindUtil {
  import opened Wrappers
  import opened PointerForest

  /** The exceptions a find or a union raises. */
  datatype UfError = KeyError | IndexError | TypeError

  /** The left-hand index of `uf[elements] = target`: a single integer or a list of them. */
  datatype Elements = Single(e: int) | Many(es: seq<int>)

  /** The exception find raises for `e` in a list of length `len`, if any (corrected guard: an
      element at or past a finite limit is refused). */
  function FindError(limit: Option<nat>, len: nat, e: int): Option<UfError> {
    if InRange(len, e) then None
    else if limit.Some? && e >= limit.value then Some(KeyError)
    else if e < -(len as int) then Some(IndexError)
    else None
  }

  /** The length of the pointer list after a successful find of `e` (corrected guard). */
  function LengthAfter(limit: Option<nat>, len: nat, e: int): nat {
    if FindError(limit, len, e).None? && e >= len then e + 1 else len
  }

  /** The length of the pointer list after find of `e` as util/unionfind.py:66-73 is written:
      the guard refuses only elements strictly greater than the limit. */
  function LengthAfterAsWritten(limit: Option<nat>, len: nat, e: int): nat {
    if InRange(len, e) then len
    else if limit.Some? && e > limit.value then len
    else if e < len then len
    else e + 1
  }

  /** As written, finding the element equal to the size limit grows the list past the limit. */
  lemma LimitOverrunAsWritten(n: nat)
    ensures LengthAfterAsWritten(Some(n), n, n) == n + 1
  {
  }

  /** With the corrected guard, finds never grow a list that is already at its limit. */
  lemma LengthWithinLimit(limit: nat, e: int)
    ensures LengthAfter(Some(limit), limit, e) == limit
    ensures FindError(Some(limit), limit, e).None? <==> -(limit as int) <= e < limit
  {
  }

  /** The positions the finds of `es` read, in order, and the final list length, or the first
      exception. */
  function Slots(limit: Option<nat>, len: nat, es: seq<int>): (r: Result<(seq<nat>, nat), UfError>)
    ensures r.Ok? ==> |r.value.0| == |es| && r.value.1 >= len
    decreases |es|
  {
    if es == [] then Ok(([], len))
    else
      match Slots(limit, len, es[..|es| - 1])
      case Err(err) => Err(err)
      case Ok((ss, m)) =>
        var e := es[|es| - 1];
        match FindError(limit, m, e)
        case Some(err) => Err(err)
        case None =>
          var n := LengthAfter(limit, m, e);
          Ok((ss + [Slot(n, e) as nat], n))
  }

  class UnionFind {
    /** `None` stands for the default limit `np.infty`. */
    const sizeLimit: Option<nat>
    /** The pointer list `_pointers`. */
    var pointers: seq<int>
    ghost var rank: seq<nat>
    /** The representative of every element (elements past the end are their own). */
    ghost var repOf: nat -> nat

    ghost predicate Valid()
      reads this
    {
      IsForest(pointers, rank) &&
      (sizeLimit.Some? ==> |pointers| == sizeLimit.value) &&
      forall i: nat {:trigger repOf(i), RepOf(pointers, rank, i)} :: repOf(i) == RepOf(pointers, rank, i)
    }

    /** A finite limit creates all its elements at once; without one the list starts empty.
        Every element is its own representative. */
    constructor (sizeLimit: Option<nat>)
      ensures Valid() && this.sizeLimit == sizeLimit
      ensures pointers == seq(if sizeLimit.Some? then sizeLimit.value else 0, i => i)
      ensures forall i: nat :: repOf(i) == i
    {
      var n := if sizeLimit.Some? then sizeLimit.value else 0;
      this.sizeLimit := sizeLimit;
      pointers := seq(n, i => i);
      rank := seq(n, i => 0);
      repOf := i => i;
    }

    /** `len(uf)`: the length of the pointer list. */
    method Length() returns (n: nat)
      requires Valid()
      ensures n == |pointers|
      ensures sizeLimit.Some? ==> n == sizeLimit.value
    {
      n := |pointers|;
    }

    /** `uf[e]`: the representative of `e`, with path compression; without a size limit the
        list first grows to hold `e`. */
    method Find(e: int) returns (r: Result<int, UfError>)
      requires Valid()
      modifies this
      ensures Valid() && repOf == old(repOf)
      ensures r.Err? <==> FindError(sizeLimit, old(|pointers|), e).Some?
      ensures r.Err? ==> r.error == FindError(sizeLimit, old(|pointers|), e).value
      ensures r.Err? ==> pointers == old(pointers) && rank == old(rank)
      ensures |pointers| == LengthAfter(sizeLimit, old(|pointers|), e)
      ensures r.Ok? ==> 0 <= Slot(|pointers|, e) && r.value == repOf(Slot(|pointers|, e))
      ensures r.Ok? ==> 0 <= r.value < |pointers| && repOf(r.value) == r.value
      ensures r.Ok? ==> rank == GrownRank(old(rank), |pointers|)
      ensures r.Ok? ==> pointers == Compressed(Grown(old(pointers), |pointers|), rank, Slot(|pointers|, e))
    {
      if e < -|pointers| || e >= |pointers| {
        if sizeLimit.Some? && e >= sizeLimit.value {
          return Err(KeyError);
        }
        if e < -|pointers| {
          // range(len, e + 1) is empty: nothing is appended and the index fails again
          return Err(IndexError);
        }
        Grow(e + 1);
      }
      var s := if e < 0 then e + |pointers| else e;
      ghost var p := pointers;
      var v: int;
      if e < 0 || pointers[s] != e {
        // a negative element never equals the (non-negative) pointer it reads
        v := Chase(pointers[s]);
        pointers := pointers[s := v];
      } else {
        v := s;
      }
      assert pointers == Compressed(p, rank, s);
      CompressedIsForest(p, rank, s);
      forall i: nat
        ensures repOf(i) == RepOf(pointers, rank, i)
      {
        assert repOf(i) == RepOf(p, rank, i);
        if i < |pointers| {
          CompressedRoot(p, rank, s, i);
        }
      }
      assert repOf(s) == RepOf(p, rank, s);
      assert repOf(v) == RepOf(pointers, rank, v);
      r := Ok(v);
    }

    /** `np.append(pointers, range(len(self), n))`: new elements that point at themselves. */
    method Grow(n: int)
      requires Valid() && |pointers| < n && sizeLimit.None?
      modifies this
      ensures Valid() && repOf == old(repOf)
      ensures pointers == Grown(old(pointers), n) && rank == GrownRank(old(rank), n)
    {
      ghost var p0 := pointers;
      ghost var rank0 := rank;
      pointers := Grown(pointers, n);
      rank := GrownRank(rank, n);
      forall i: nat
        ensures repOf(i) == RepOf(pointers, rank, i)
      {
        assert repOf(i) == RepOf(p0, rank0, i);
        if i < n {
          GrownRoot(p0, rank0, n, i);
        }
      }
    }

    /** The recursion of find: follow pointers from `e` to the representative and point every
        element passed directly at it. */
    method Chase(e: int) returns (v: int)
      requires IsForest(pointers, rank) && 0 <= e < |pointers|
      modifies this
      ensures v == Root(old(pointers), old(rank), e)
      ensures pointers == Compressed(old(pointers), old(rank), e)
      ensures rank == old(rank) && repOf == old(repOf)
      decreases rank[e]
    {
      if pointers[e] == e {
        v := e;
      } else {
        v := Chase(pointers[e]);
        pointers := pointers[e := v];
      }
    }

    /** `uf[elements] = target`: find every element, then find the target, then point every
        element's representative at the target's. A single integer on the left is refused
        because it cannot be iterated. */
    method SetItem(elements: Elements, target: int) returns (r: Outcome<UfError>)
      requires Valid()
      modifies this
      ensures Valid()
      ensures elements.Single? ==> r == Fail(TypeError) && pointers == old(pointers) && rank == old(rank)
      ensures elements.Many? ==>
        var all := Slots(sizeLimit, old(|pointers|), elements.es + [target]);
        (r.Fail? <==> all.Err?) &&
        (r.Fail? ==> r.error == all.error && repOf == old(repOf)) &&
        (r.Pass? ==>
          var ss := all.value.0;
          var t := old(repOf(ss[|ss| - 1]));
          var merged := set k | 0 <= k < |ss| - 1 :: old(repOf(ss[k]));
          |pointers| == all.value.1 &&
          (forall i: nat :: repOf(i) == if old(repOf(i)) in merged then t else old(repOf(i))) &&
          (forall k :: 0 <= k < |ss| ==> repOf(ss[k]) == t))
    {
      if elements.Single? {
        return Fail(TypeError);
      }
      var es := elements.es;
      ghost var rep0 := repOf;
      var found := FindAll(es + [target]);
      if found.Err? {
        return Fail(found.error);
      }
      ghost var ss := Slots(sizeLimit, old(|pointers|), es + [target]).value.0;
      var repres := found.value[..|es|];
      var t := found.value[|es|];
      Unite(repres, t);
      MergedClasses(rep0, repOf, repres, ss, t);
      r := Pass;
    }

    /** The finds of `uf[elements] = target`, in order (the elements, then the target): the
        representative of each, or the first exception. */
    method FindAll(es: seq<int>) returns (r: Result<seq<int>, UfError>)
      requires Valid()
      modifies this
      ensures Valid() && repOf == old(repOf)
      ensures r.Err? <==> Slots(sizeLimit, old(|pointers|), es).Err?
      ensures r.Err? ==> r.error == Slots(sizeLimit, old(|pointers|), es).error
      ensures r.Ok? ==> |pointers| == Slots(sizeLimit, old(|pointers|), es).value.1
      ensures r.Ok? ==> |r.value| == |es|
      ensures r.Ok? ==> forall j :: 0 <= j < |es| ==>
          0 <= r.value[j] < |pointers| && repOf(r.value[j]) == r.value[j] &&
          r.value[j] == repOf(Slots(sizeLimit, old(|pointers|), es).value.0[j])
    {
      var repres: seq<int> := [];
      var k := 0;
      ghost var ss: seq<nat> := [];
      ghost var rep0 := repOf;
      while k < |es|
        invariant Valid() && repOf == rep0
        invariant 0 <= k <= |es|
        invariant Slots(sizeLimit, old(|pointers|), es[..k]) == Ok((ss, |pointers|))
        invariant Resolved(rep0, |pointers|, ss, repres)
      {
        SlotsStep(sizeLimit, old(|pointers|), es, k);
        ghost var n := |pointers|;
        var f := Find(es[k]);
        if f.Err? {
          SlotsErrPrefix(sizeLimit, old(|pointers|), es, k + 1);
          return Err(f.error);
        }
        ResolvedStep(rep0, n, |pointers|, ss, repres, Slot(|pointers|, es[k]) as nat, f.value);
        repres := repres + [f.value];
        ss := ss + [Slot(|pointers|, es[k]) as nat];
        k := k + 1;
      }
      assert es[..k] == es;
      ResolvedMeans(rep0, |pointers|, ss, repres);
      r := Ok(repres);
    }

    /** numpy's `pointers[repres] = t`: every representative in `repres` now points at the
        representative `t`, which merges their classes into `t`'s. */
    method Unite(repres: seq<int>, t: int)
      requires Valid() && 0 <= t < |pointers| && repOf(t) == t
      requires forall j :: 0 <= j < |repres| ==> 0 <= repres[j] < |pointers| && repOf(repres[j]) == repres[j]
      modifies this
      ensures Valid()
      ensures pointers == Repointed(old(pointers), set j | 0 <= j < |repres| :: repres[j], t)
      ensures forall i: nat :: repOf(i) == if old(repOf(i)) in (set j | 0 <= j < |repres| :: repres[j])
                                           then t else old(repOf(i))
    {
      ghost var p := pointers;
      ghost var rank0 := rank;
      ghost var rep0 := repOf;
      var targets := set j | 0 <= j < |repres| :: repres[j];
      assert forall j :: 0 <= j < |repres| ==> rep0(repres[j]) == RepOf(p, rank0, repres[j]);
      assert rep0(t) == RepOf(p, rank0, t);
      assert AllRoots(p, targets);
      pointers := Repointed(pointers, targets, t);
      rank := Shifted(p, rank0, t);
      repOf := (i: nat) => if rep0(i) in targets then t else rep0(i);
      RepointedIsForest(p, rank0, targets, t);
      forall i: nat
        ensures repOf(i) == RepOf(pointers, rank, i)
      {
        assert rep0(i) == RepOf(p, rank0, i);
        if i < |pointers| {
          RepointedRoot(p, rank0, targets, t, i);
        }
      }
    }
  }

  /** `repres` holds, in order, the representatives under `rep` of the positions `ss`, each
      a representative of its own below `n`. */
  ghost predicate Resolved(rep: nat -> nat, n: nat, ss: seq<nat>, repres: seq<int>)
    decreases |ss|
  {
    |repres| == |ss| &&
    (ss != [] ==>
      var v := repres[|ss| - 1];
      v == rep(ss[|ss| - 1]) && 0 <= v < n && rep(v) == v &&
      Resolved(rep, n, ss[..|ss| - 1], repres[..|ss| - 1]))
  }

  lemma ResolvedStep(rep: nat -> nat, n: nat, n': nat, ss: seq<nat>, repres: seq<int>, s: nat, v: int)
    requires Resolved(rep, n, ss, repres) && n <= n' && v == rep(s) && 0 <= v < n' && rep(v) == v
    ensures Resolved(rep, n', ss + [s], repres + [v])
  {
    ResolvedGrows(rep, n, n', ss, repres);
    assert (ss + [s])[..|ss|] == ss;
    assert (repres + [v])[..|ss|] == repres;
  }

  lemma {:induction false} ResolvedGrows(rep: nat -> nat, n: nat, n': nat, ss: seq<nat>, repres: seq<int>)
    requires Resolved(rep, n, ss, repres) && n <= n'
    ensures Resolved(rep, n', ss, repres)
    decreases |ss|
  {
    if ss != [] {
      ResolvedGrows(rep, n, n', ss[..|ss| - 1], repres[..|ss| - 1]);
    }
  }

  lemma {:induction false} ResolvedMeans(rep: nat -> nat, n: nat, ss: seq<nat>, repres: seq<int>)
    requires Resolved(rep, n, ss, repres)
    ensures |repres| == |ss|
    ensures forall j :: 0 <= j < |ss| ==> repres[j] == rep(ss[j]) && 0 <= repres[j] < n && rep(repres[j]) == repres[j]
    decreases |ss|
  {
    if ss != [] {
      var m := |ss| - 1;
      ResolvedMeans(rep, n, ss[..m], repres[..m]);
      assert forall j :: 0 <= j < m ==> ss[..m][j] == ss[j] && repres[..m][j] == repres[j];
    }
  }

  /** One more find: the slots of `es[..k + 1]` extend those of `es[..k]`. */
  lemma SlotsStep(limit: Option<nat>, len: nat, es: seq<int>, k: nat)
    requires k < |es| && Slots(limit, len, es[..k]).Ok?
    ensures var (ss, m) := Slots(limit, len, es[..k]).value;
      Slots(limit, len, es[..k + 1]) ==
        if FindError(limit, m, es[k]).Some? then Err(FindError(limit, m, es[k]).value)
        else Ok((ss + [Slot(LengthAfter(limit, m, es[k]), es[k]) as nat], LengthAfter(limit, m, es[k])))
  {
    assert es[..k + 1][..k] == es[..k];
  }

  /** A failing prefix makes the whole list fail with the same exception. */
  lemma SlotsErrPrefix(limit: Option<nat>, len: nat, es: seq<int>, k: nat)
    requires k <= |es| && Slots(limit, len, es[..k]).Err?
    ensures Slots(limit, len, es) == Slots(limit, len, es[..k])
  {
    SlotsErrExtends(limit, len, es[..k], es[k..]);
    assert es[..k] + es[k..] == es;
  }

  /** Once a prefix of the elements fails, the whole list fails with the same exception. */
  lemma {:induction false} SlotsErrExtends(limit: Option<nat>, len: nat, es: seq<int>, more: seq<int>)
    requires Slots(limit, len, es).Err?
    ensures Slots(limit, len, es + more) == Slots(limit, len, es)
    decreases |more|
  {
    if more != [] {
      var front := more[..|more| - 1];
      SlotsErrExtends(limit, len, es, front);
      assert es + more != [];
      assert (es + more)[..|es + more| - 1] == es + front;
      assert Slots(limit, len, es + front).Err?;
    } else {
      assert es + more == es;
    }
  }
}
