/** unionfind.py: the earliest union-find draft, with `union(repre1, repre2)` and
    `multi_union`. Its pointer array starts empty and nothing in the class ever makes it longer:
    the `except KeyError` branch computes an extended array and discards it, and `union` only
    assigns into existing positions. So every find on a fresh instance raises IndexError. */
module UnionFindDraft {
  import opened Wrappers
  import opened PointerForest

  /** The exceptions of this draft. `__len__` reads the misspelt attribute `piinters`. */
  datatype UfError = IndexError | AttributeError | StopIteration

  class UnionFind {
    /** The pointer array `pointers`. */
    var pointers: seq<int>
    ghost var rank: seq<nat>
    /** The representative of every position (positions past the end are their own). */
    ghost var repOf: nat -> nat

    ghost predicate Valid()
      reads this
    {
      IsForest(pointers, rank) &&
      forall i: nat {:trigger repOf(i), RepOf(pointers, rank, i)} :: repOf(i) == RepOf(pointers, rank, i)
    }

    /** `np.array([])`: an empty pointer array. */
    constructor ()
      ensures Valid() && pointers == []
      ensures forall i: nat :: repOf(i) == i
    {
      pointers := [];
      rank := [];
      repOf := i => i;
    }

    /** `len(uf)` always raises: the attribute it reads does not exist. */
    method Length() returns (r: Result<nat, UfError>)
      ensures r == Err(AttributeError)
    {
      r := Err(AttributeError);
    }

    /** `uf[e]`: the representative of `e`, with path compression. An index outside the array
        raises IndexError, which the `except KeyError` clause does not catch; the array never
        grows. */
    method Find(e: int) returns (r: Result<int, UfError>)
      requires Valid()
      modifies this
      ensures Valid() && repOf == old(repOf) && rank == old(rank) && |pointers| == old(|pointers|)
      ensures r.Err? <==> !InRange(|pointers|, e)
      ensures r.Err? ==> r.error == IndexError && pointers == old(pointers)
      ensures r.Ok? ==> 0 <= Slot(|pointers|, e) < |pointers| && r.value == repOf(Slot(|pointers|, e))
      ensures r.Ok? ==> 0 <= r.value < |pointers| && repOf(r.value) == r.value && pointers[r.value] == r.value
      ensures r.Ok? ==> pointers == Compressed(old(pointers), rank, Slot(|pointers|, e))
    {
      if e < -|pointers| || e >= |pointers| {
        return Err(IndexError);
      }
      var s := if e < 0 then e + |pointers| else e;
      ghost var p := pointers;
      var v: int;
      if e < 0 || pointers[s] != e {
        // a negative element never equals the (non-negative) pointer it reads
        v := Chase(pointers[s]);
        pointers := pointers[s := v];
      } else {
        v := s;
      }
      assert pointers == Compressed(p, rank, s);
      CompressedIsForest(p, rank, s);
      forall i: nat
        ensures repOf(i) == RepOf(pointers, rank, i)
      {
        assert repOf(i) == RepOf(p, rank, i);
        if i < |pointers| {
          CompressedRoot(p, rank, s, i);
        }
      }
      assert repOf(s) == RepOf(p, rank, s);
      assert repOf(v) == RepOf(pointers, rank, v);
      r := Ok(v);
    }

    /** The recursive call of find on an element read from the array: follow pointers to the
        representative and point every element passed directly at it. */
    method Chase(e: int) returns (v: int)
      requires IsForest(pointers, rank) && 0 <= e < |pointers|
      modifies this
      ensures v == Root(old(pointers), old(rank), e)
      ensures pointers == Compressed(old(pointers), old(rank), e)
      ensures rank == old(rank) && repOf == old(repOf)
      decreases rank[e]
    {
      if pointers[e] == e {
        v := e;
      } else {
        v := Chase(pointers[e]);
        pointers := pointers[e := v];
      }
    }

    /** `union(repre1, repre2)`: `pointers[repre2] = repre1` and nothing else. The names demand
        that `repre1` is a representative, and `repre2` either one too or already pointing at
        `repre1`; an index `repre2` outside the array raises IndexError. */
    method Union(repre1: int, repre2: int) returns (r: Outcome<UfError>)
      requires Valid() && 0 <= repre1 < |pointers| && pointers[repre1] == repre1
      requires InRange(|pointers|, repre2) ==>
        var s := Slot(|pointers|, repre2);
        pointers[s] == s || pointers[s] == repre1
      modifies this
      ensures Valid() && |pointers| == old(|pointers|) && pointers[repre1] == repre1
      ensures r.Fail? <==> !InRange(old(|pointers|), repre2)
      ensures r.Fail? ==> r.error == IndexError && pointers == old(pointers) && repOf == old(repOf)
      ensures r.Pass? ==> 0 <= Slot(|pointers|, repre2) < |pointers|
      ensures r.Pass? ==> pointers == old(pointers)[Slot(|pointers|, repre2) := repre1]
      ensures r.Pass? ==> forall i: nat ::
        repOf(i) == if old(repOf(i)) == Slot(|pointers|, repre2) then repre1 else old(repOf(i))
    {
      if repre2 < -|pointers| || repre2 >= |pointers| {
        return Fail(IndexError);
      }
      var s := if repre2 < 0 then repre2 + |pointers| else repre2;
      ghost var p := pointers;
      ghost var rank0 := rank;
      ghost var rep0 := repOf;
      assert rep0(repre1) == RepOf(p, rank0, repre1);
      if pointers[s] == s {
        assert rep0(s) == RepOf(p, rank0, s);
        pointers := Repointed(pointers, {s}, repre1);
        rank := Shifted(p, rank0, repre1);
        repOf := (i: nat) => if rep0(i) == s then repre1 else rep0(i);
        RepointedIsForest(p, rank0, {s}, repre1);
        forall i: nat
          ensures repOf(i) == RepOf(pointers, rank, i)
        {
          assert rep0(i) == RepOf(p, rank0, i);
          if i < |pointers| {
            RepointedRoot(p, rank0, {s}, repre1, i);
          }
        }
        assert pointers == p[s := repre1];
      } else {
        // `repre2` already points at `repre1`: the assignment writes the value it holds
        pointers := pointers[s := repre1];
        assert pointers == p;
        forall i: nat
          ensures repOf(i) == if rep0(i) == s then repre1 else rep0(i)
        {
          assert rep0(i) == RepOf(p, rank0, i);
          if i < |p| {
            assert Root(p, rank0, i) != s;
          }
        }
      }
      r := Pass;
    }

    /** `multi_union(iter)`: take the first element of the iterator and point every later one
        at it, in order; an empty iterator raises StopIteration, and the first later element
        outside the array raises IndexError after the unions before it have been made. */
    method MultiUnion(repres: seq<int>) returns (r: Outcome<UfError>)
      requires Valid()
      requires |repres| > 0 ==> 0 <= repres[0] < |pointers| && pointers[repres[0]] == repres[0]
      requires forall k :: 0 < k < |repres| && InRange(|pointers|, repres[k]) ==>
        var s := Slot(|pointers|, repres[k]); pointers[s] == s
      modifies this
      ensures Valid() && |pointers| == old(|pointers|)
      ensures |repres| == 0 ==> r == Fail(StopIteration) && pointers == old(pointers) && repOf == old(repOf)
      ensures |repres| > 0 ==>
        var done := FirstOutside(|pointers|, repres, 1);
        (r.Fail? <==> done < |repres|) &&
        (r.Fail? ==> r.error == IndexError) &&
        forall i: nat :: repOf(i) == if old(repOf(i)) in Later(|pointers|, repres[..done]) then repres[0] else old(repOf(i))
    {
      if |repres| == 0 {
        return Fail(StopIteration);
      }
      var first := repres[0];
      ghost var rep0 := repOf;
      ghost var n := |pointers|;
      ghost var done := FirstOutside(n, repres, 1);
      var k := 1;
      while k < |repres|
        invariant Valid() && |pointers| == n && 1 <= k <= done
        invariant pointers[first] == first
        invariant forall j :: k <= j < |repres| && InRange(n, repres[j]) ==>
          var s := Slot(n, repres[j]); pointers[s] == s || pointers[s] == first
        invariant forall i: nat :: repOf(i) == if rep0(i) in Later(n, repres[..k]) then first else rep0(i)
      {
        var u := Union(first, repres[k]);
        if u.Fail? {
          return u;
        }
        LaterStep(n, repres, k);
        k := k + 1;
      }
      r := Pass;
    }
  }

  /** The index of the first element of `repres` from `from` on that lies outside an array of
      length `n`, or `|repres|` when there is none. */
  function FirstOutside(n: nat, repres: seq<int>, from: nat): (k: nat)
    requires from <= |repres|
    ensures from <= k <= |repres|
    ensures forall j :: from <= j < k ==> InRange(n, repres[j])
    ensures k < |repres| ==> !InRange(n, repres[k])
    decreases |repres| - from
  {
    if from == |repres| || !InRange(n, repres[from]) then from else FirstOutside(n, repres, from + 1)
  }

  /** The positions of the later elements of `repres` that lie inside an array of length `n`. */
  function Later(n: nat, repres: seq<int>): (s: set<nat>)
    ensures forall k :: 0 < k < |repres| && InRange(n, repres[k]) ==> Slot(n, repres[k]) in s
  {
    set k | 0 < k < |repres| && InRange(n, repres[k]) :: Slot(n, repres[k]) as nat
  }

  lemma LaterStep(n: nat, repres: seq<int>, k: nat)
    requires 0 < k < |repres| && InRange(n, repres[k])
    ensures Later(n, repres[..k + 1]) == Later(n, repres[..k]) + {Slot(n, repres[k]) as nat}
  {
    assert forall j :: 0 <= j < k ==> repres[..k + 1][j] == repres[..k][j];
  }
}
