/** gomcts/godata.py: a Go position kept "thick". A union-find over the flattened points maps
    every stone to the representative of its group, and a dictionary maps each live
    representative to a `Group(colour, size, liberties)` record. An empty point is one whose
    representative has no record; it reads as `OPEN_POINT`. Captured groups are only deleted
    from the dictionary: their stones keep pointing at the old representative until a read
    resets them. */
module GoPosition {
  import opened Wrappers
  import opened Adjacency
  import UnionFindGomcts
  import PointerForest

  const BLACK: int := 1
  const WHITE: int := -1

  /** The record of a group: its colour, its number of stones and its liberty count. */
  datatype Group = Group(colour: int, size: int, liberties: int)

  /** What an empty point reads as. The source compares against it by identity (`is`); every
      record the position stores has colour 1 or -1, so equality of values decides the same. */
  const OPEN_POINT: Group := Group(0, 0, 0)

  /** The exceptions `move` raises: its three `MoveError`s, the `ValueError` for a colour other
      than 0, 1 and -1, and the `IndexError` and `KeyError` of the lookups it makes. */
  datatype MoveError = KoPoint | OnStone | SelfCapture | UnrecognisedColour | IndexError | KeyError

  // ---------------------------------------------------------------------------------------
  // What the position says about a point

  /** The record point `q` reads under the representative map `rep`. */
  ghost function Reading(rep: nat -> nat, groups: map<int, Group>, q: nat): Group {
    if rep(q) in groups then groups[rep(q)] else OPEN_POINT
  }

  /** Every key of `groups` is a point of the board that is its own representative. */
  ghost predicate KeysAreRoots(rep: nat -> nat, groups: map<int, Group>) {
    forall r :: r in groups ==> r >= 0 && rep(r) == r
  }

  /** `rep1` is what the reads of `move` can make of `rep0`: every point keeps a representative
      in its old class, the points of live groups keep theirs, and roots stay roots. */
  ghost predicate Benign(rep0: nat -> nat, rep1: nat -> nat, groups: map<int, Group>) {
    (forall i: nat :: rep0(rep1(i)) == rep0(i)) &&
    (forall i: nat :: rep0(i) in groups ==> rep1(i) == rep0(i)) &&
    (forall i: nat :: rep0(i) == i ==> rep1(i) == i)
  }

  lemma BenignTrans(rep0: nat -> nat, rep1: nat -> nat, rep2: nat -> nat, groups: map<int, Group>)
    requires Benign(rep0, rep1, groups) && Benign(rep1, rep2, groups)
    ensures Benign(rep0, rep2, groups)
  {
    forall i: nat
      ensures rep0(rep2(i)) == rep0(i)
    {
      assert rep1(rep2(i)) == rep1(i);
      assert rep0(rep1(rep2(i))) == rep0(rep2(i));
    }
  }

  /** Reads that only reset pointers of dead groups change no point's record. */
  lemma SameReadings(rep0: nat -> nat, rep1: nat -> nat, groups: map<int, Group>)
    requires KeysAreRoots(rep0, groups) && Benign(rep0, rep1, groups)
    ensures forall q: nat :: Reading(rep1, groups, q) == Reading(rep0, groups, q)
  {
  }

  // ---------------------------------------------------------------------------------------
  // The neighbour scan of `move`

  /** The three accumulators of `move`'s scan: `liberty_count`, `player_groups` and
      `dead_opp_groups`. */
  datatype Tally = Tally(liberties: int, players: seq<int>, deadOpps: seq<int>)

  /** The scan of `move` over the (representative, record) pairs of the neighbours of a stone
      of colour `colour`, in order. */
  function Tallied(pairs: seq<(int, Group)>, colour: int): (t: Tally)
    ensures |t.players| + |t.deadOpps| <= |pairs|
    decreases |pairs|
  {
    if pairs == [] then Tally(0, [], [])
    else
      var t := Tallied(pairs[..|pairs| - 1], colour);
      var qt := pairs[|pairs| - 1].0;
      var g := pairs[|pairs| - 1].1;
      if g == OPEN_POINT then t.(liberties := t.liberties + 1)
      else if g.colour == colour then Tally(t.liberties + g.liberties - 1, t.players + [qt], t.deadOpps)
      else if g.liberties == 1 then t.(deadOpps := t.deadOpps + [qt])
      else t
  }

  /** A neighbour pair is a friendly group. */
  predicate Friendly(p: (int, Group), colour: int) {
    p.1 != OPEN_POINT && p.1.colour == colour
  }

  /** A neighbour pair is an opposing group in atari. */
  predicate InAtari(p: (int, Group), colour: int) {
    p.1 != OPEN_POINT && p.1.colour != colour && p.1.liberties == 1
  }

  /** The scan lists exactly the representatives of the friendly neighbours as player groups and
      exactly those of the opposing neighbours in atari as dead groups. */
  lemma {:induction false} TalliedMembers(pairs: seq<(int, Group)>, colour: int, r: int)
    ensures r in Tallied(pairs, colour).players <==>
      exists j :: 0 <= j < |pairs| && Friendly(pairs[j], colour) && pairs[j].0 == r
    ensures r in Tallied(pairs, colour).deadOpps <==>
      exists j :: 0 <= j < |pairs| && InAtari(pairs[j], colour) && pairs[j].0 == r
    decreases |pairs|
  {
    if pairs != [] {
      var init := pairs[..|pairs| - 1];
      TalliedMembers(init, colour, r);
      assert forall j :: 0 <= j < |init| ==> init[j] == pairs[j];
      var last := |pairs| - 1;
      if exists j :: 0 <= j < |pairs| && Friendly(pairs[j], colour) && pairs[j].0 == r {
        var j :| 0 <= j < |pairs| && Friendly(pairs[j], colour) && pairs[j].0 == r;
        if j < last {
          assert Friendly(init[j], colour) && init[j].0 == r;
        }
      }
      if exists j :: 0 <= j < |pairs| && InAtari(pairs[j], colour) && pairs[j].0 == r {
        var j :| 0 <= j < |pairs| && InAtari(pairs[j], colour) && pairs[j].0 == r;
        if j < last {
          assert InAtari(init[j], colour) && init[j].0 == r;
        }
      }
    }
  }

  /** When every friendly neighbour group has a liberty, the scan finds no liberty and no capture
      exactly when no neighbour is open, every friendly neighbour group is in atari and no
      opposing one is: the move would take its own last liberty. */
  lemma {:induction false} SelfCaptureMeans(pairs: seq<(int, Group)>, colour: int)
    requires forall j :: 0 <= j < |pairs| && Friendly(pairs[j], colour) ==> pairs[j].1.liberties >= 1
    ensures var t := Tallied(pairs, colour);
      (t.liberties == 0 && t.deadOpps == []) <==>
      forall j :: 0 <= j < |pairs| ==>
        pairs[j].1 != OPEN_POINT && (Friendly(pairs[j], colour) ==> pairs[j].1.liberties == 1) &&
        !InAtari(pairs[j], colour)
    decreases |pairs|
  {
    if pairs != [] {
      var init := pairs[..|pairs| - 1];
      assert forall j :: 0 <= j < |init| ==> init[j] == pairs[j];
      SelfCaptureMeans(init, colour);
      TalliedNonNegative(init, colour);
    }
  }

  /** Under the same assumption the liberty count of the scan is never negative. */
  lemma {:induction false} TalliedNonNegative(pairs: seq<(int, Group)>, colour: int)
    requires forall j :: 0 <= j < |pairs| && Friendly(pairs[j], colour) ==> pairs[j].1.liberties >= 1
    ensures Tallied(pairs, colour).liberties >= 0
    decreases |pairs|
  {
    if pairs != [] {
      var init := pairs[..|pairs| - 1];
      assert forall j :: 0 <= j < |init| ==> init[j] == pairs[j];
      TalliedNonNegative(init, colour);
    }
  }

  /** With only open neighbours the scan counts one liberty for each and lists no group. */
  lemma {:induction false} AllOpenTallied(pairs: seq<(int, Group)>, colour: int)
    requires forall j :: 0 <= j < |pairs| ==> pairs[j].1 == OPEN_POINT
    ensures Tallied(pairs, colour) == Tally(|pairs|, [], [])
    decreases |pairs|
  {
    if pairs != [] {
      var init := pairs[..|pairs| - 1];
      assert forall j :: 0 <= j < |init| ==> init[j] == pairs[j];
      AllOpenTallied(init, colour);
    }
  }

  /** The scan reads a representative only for a neighbour that is not open, so two lists of
      pairs that agree on the records, and on the representatives of the stones, scan alike. */
  ghost predicate Agree(pairs: seq<(int, Group)>, pairs': seq<(int, Group)>) {
    |pairs| == |pairs'| &&
    forall j :: 0 <= j < |pairs| ==> pairs[j].1 == pairs'[j].1 && (pairs[j].1 != OPEN_POINT ==> pairs[j].0 == pairs'[j].0)
  }

  lemma {:induction false} AgreeTallied(pairs: seq<(int, Group)>, pairs': seq<(int, Group)>, colour: int)
    requires Agree(pairs, pairs')
    ensures Tallied(pairs, colour) == Tallied(pairs', colour)
    decreases |pairs|
  {
    if pairs != [] {
      var n := |pairs| - 1;
      assert Agree(pairs[..n], pairs'[..n]);
      AgreeTallied(pairs[..n], pairs'[..n], colour);
    }
  }

  /** The neighbour pairs as they read under `rep`: a stone with its representative, an open
      point with itself. */
  ghost function Around(rep: nat -> nat, groups: map<int, Group>, ns: seq<int>): (pairs: seq<(int, Group)>)
    ensures |pairs| == |ns|
  {
    seq(|ns|, j requires 0 <= j < |ns| =>
      if ns[j] < 0 then (ns[j], OPEN_POINT)
      else if rep(ns[j]) in groups then (rep(ns[j]), groups[rep(ns[j])])
      else (ns[j], OPEN_POINT))
  }

  /** The first `|pairs|` neighbours of `ns` were yielded as `neigh_groups` does: each with its
      record under `rep`, a stone with its representative, and a point that is its own
      representative with itself. */
  ghost predicate Yielded(rep: nat -> nat, groups: map<int, Group>, ns: seq<int>, pairs: seq<(int, Group)>) {
    |pairs| <= |ns| &&
    forall j :: 0 <= j < |pairs| ==>
      ns[j] >= 0 && pairs[j].1 == Reading(rep, groups, ns[j]) &&
      (pairs[j].1 != OPEN_POINT || rep(ns[j]) == ns[j] ==> pairs[j].0 == rep(ns[j]))
  }

  lemma YieldedAround(rep: nat -> nat, groups: map<int, Group>, ns: seq<int>, pairs: seq<(int, Group)>)
    requires Yielded(rep, groups, ns, pairs) && |pairs| == |ns|
    ensures Agree(pairs, Around(rep, groups, ns))
  {
  }

  /** The scan `move` makes for a stone of colour `colour` at `pt`, from the position before
      the move. */
  ghost function Planned(rep: nat -> nat, groups: map<int, Group>, size: nat, pt: int, colour: int): Tally
    requires size > 0
  {
    Tallied(Around(rep, groups, Neighbours(size, pt)), colour)
  }

  // ---------------------------------------------------------------------------------------
  // The commit of `move`

  /** The members of `rs`, each once, in the order of their first occurrence. */
  function Distinct(rs: seq<int>): (d: seq<int>)
    ensures forall r :: r in d <==> r in rs
    ensures forall i, j :: 0 <= i < j < |d| ==> d[i] != d[j]
    decreases |rs|
  {
    if rs == [] then []
    else
      var d := Distinct(rs[..|rs| - 1]);
      assert rs == rs[..|rs| - 1] + [rs[|rs| - 1]];
      if rs[|rs| - 1] in d then d else d + [rs[|rs| - 1]]
  }

  /** The total number of stones of the groups `rs` that have records, counted once per listing. */
  function SizeSum(rs: seq<int>, groups: map<int, Group>): int
    decreases |rs|
  {
    if rs == [] then 0
    else SizeSum(rs[..|rs| - 1], groups) + (if rs[|rs| - 1] in groups then groups[rs[|rs| - 1]].size else 0)
  }

  /** A sum over groups of at least one stone each is at least the number of groups listed. */
  lemma {:induction false} SizeSumBound(rs: seq<int>, groups: map<int, Group>)
    requires forall r :: r in rs ==> r in groups && groups[r].size >= 1
    ensures SizeSum(rs, groups) >= |rs|
    decreases |rs|
  {
    if rs != [] {
      var init := rs[..|rs| - 1];
      assert forall r :: r in init ==> r in rs;
      SizeSumBound(init, groups);
      var x := rs[|rs| - 1];
      assert x in rs;
      assert SizeSum(rs, groups) == SizeSum(init, groups) + groups[x].size;
    }
  }

  /** The sum reads only the records of the groups listed. */
  lemma {:induction false} SizeSumFrame(rs: seq<int>, groups: map<int, Group>, groups': map<int, Group>)
    requires forall j :: 0 <= j < |rs| ==> (rs[j] in groups <==> rs[j] in groups') && (rs[j] in groups ==> groups'[rs[j]] == groups[rs[j]])
    ensures SizeSum(rs, groups') == SizeSum(rs, groups)
    decreases |rs|
  {
    if rs != [] {
      SizeSumFrame(rs[..|rs| - 1], groups, groups');
    }
  }

  /** The first index from `from` on whose entry occurs earlier in `rs`, or `|rs|`. */
  function FirstRepeat(rs: seq<int>, from: nat): (k: nat)
    requires from <= |rs|
    ensures from <= k <= |rs|
    ensures k < |rs| ==> rs[k] in rs[..k]
    decreases |rs| - from
  {
    if from == |rs| || rs[from] in rs[..from] then from else FirstRepeat(rs, from + 1)
  }

  /** No entry before the first repeat occurs earlier. */
  lemma {:induction false} BeforeFirstRepeat(rs: seq<int>, from: nat, j: nat)
    requires from <= j < |rs| && j < FirstRepeat(rs, from)
    ensures rs[j] !in rs[..j]
    decreases j - from
  {
    if j > from {
      BeforeFirstRepeat(rs, from + 1, j);
    }
  }

  /** The first repeat is past the end exactly when no entry of `rs` occurs twice. */
  lemma FirstRepeatMeans(rs: seq<int>)
    ensures FirstRepeat(rs, 0) == |rs| <==> forall i, j :: 0 <= i < j < |rs| ==> rs[i] != rs[j]
  {
    var k := FirstRepeat(rs, 0);
    if k == |rs| {
      forall i, j | 0 <= i < j < |rs|
        ensures rs[i] != rs[j]
      {
        BeforeFirstRepeat(rs, 0, j);
        assert rs[i] == rs[..j][i];
      }
    } else {
      var i :| 0 <= i < k && rs[..k][i] == rs[k];
      assert rs[i] == rs[k];
    }
  }

  /** The members of a list, as a set. */
  function Members(rs: seq<int>): set<int> {
    set r | r in rs
  }

  /** `rep` is `rep0` with the classes of `m` joined to `pt`. */
  ghost predicate Joined(rep0: nat -> nat, rep: nat -> nat, m: set<int>, pt: int) {
    forall i: nat {:trigger rep(i)} :: rep(i) == if rep0(i) in m then pt else rep0(i)
  }

  /** One more entry adds its group's stones to the sum over the distinct entries unless it is
      already listed. */
  lemma DistinctSnoc(pre: seq<int>, x: int, groups: map<int, Group>)
    ensures SizeSum(Distinct(pre + [x]), groups) == SizeSum(Distinct(pre), groups) + (if x in pre || x !in groups then 0 else groups[x].size)
  {
    assert (pre + [x])[..|pre|] == pre;
    var d := Distinct(pre);
    assert (d + [x])[..|d|] == d;
  }

  /** `groups` with the records of the first `k` entries of `rs` deleted, one after another. */
  function Without(groups: map<int, Group>, rs: seq<int>, k: nat): map<int, Group>
    requires k <= |rs|
  {
    if k == 0 then groups else Without(groups, rs, k - 1) - {rs[k - 1]}
  }

  /** The stones of the records of the first `k` entries of `rs`, counted once per listing. */
  function SumTo(rs: seq<int>, k: nat, groups: map<int, Group>): int
    requires k <= |rs|
  {
    if k == 0 then 0 else SumTo(rs, k - 1, groups) + (if rs[k - 1] in groups then groups[rs[k - 1]].size else 0)
  }

  lemma {:induction false} WithoutHas(groups: map<int, Group>, rs: seq<int>, k: nat, x: int)
    requires k <= |rs|
    ensures x in Without(groups, rs, k) <==> x in groups && x !in rs[..k]
    ensures x in Without(groups, rs, k) ==> Without(groups, rs, k)[x] == groups[x]
  {
    if k > 0 {
      WithoutHas(groups, rs, k - 1, x);
      assert rs[..k] == rs[..k - 1] + [rs[k - 1]];
    }
  }

  /** Deleting the entries one after another deletes all of them. */
  lemma WithoutMembers(groups: map<int, Group>, rs: seq<int>, k: nat)
    requires k <= |rs|
    ensures Without(groups, rs, k) == groups - Members(rs[..k])
  {
    forall x
      ensures x in Without(groups, rs, k) <==> x in groups - Members(rs[..k])
      ensures x in Without(groups, rs, k) ==> Without(groups, rs, k)[x] == groups[x]
    {
      WithoutHas(groups, rs, k, x);
    }
  }

  lemma {:induction false} SumToSizeSum(rs: seq<int>, k: nat, groups: map<int, Group>)
    requires k <= |rs|
    ensures SumTo(rs, k, groups) == SizeSum(rs[..k], groups)
  {
    if k > 0 {
      SumToSizeSum(rs, k - 1, groups);
      assert rs[..k][..k - 1] == rs[..k - 1];
    }
  }

  /** Before the first repeat the next dead group still has its record, and at the first repeat
      it has none. */
  lemma CaptureProgress(groups: map<int, Group>, dead: seq<int>, k: nat)
    requires k < |dead| && k <= FirstRepeat(dead, 0) && dead[k] in groups
    ensures dead[k] in Without(groups, dead, k) <==> k < FirstRepeat(dead, 0)
    ensures dead[k] in Without(groups, dead, k) ==> Without(groups, dead, k)[dead[k]] == groups[dead[k]]
  {
    WithoutHas(groups, dead, k, dead[k]);
    if k < FirstRepeat(dead, 0) {
      BeforeFirstRepeat(dead, 0, k);
    }
  }

  /** The first `k` entries of `rs`, as a set. */
  function Prefix(rs: seq<int>, k: nat): set<int>
    requires k <= |rs|
  {
    if k == 0 then {} else Prefix(rs, k - 1) + {rs[k - 1]}
  }

  /** The stones of the records of the first `k` entries of `rs`, each group counted once. */
  function DistinctSumTo(rs: seq<int>, k: nat, groups: map<int, Group>): int
    requires k <= |rs|
  {
    if k == 0 then 0
    else DistinctSumTo(rs, k - 1, groups) + (if rs[k - 1] in Prefix(rs, k - 1) || rs[k - 1] !in groups then 0 else groups[rs[k - 1]].size)
  }

  lemma {:induction false} PrefixHas(rs: seq<int>, k: nat, x: int)
    requires k <= |rs|
    ensures x in Prefix(rs, k) <==> x in rs[..k]
  {
    if k > 0 {
      PrefixHas(rs, k - 1, x);
      assert rs[..k] == rs[..k - 1] + [rs[k - 1]];
    }
  }

  lemma {:induction false} WithoutPrefix(groups: map<int, Group>, rs: seq<int>, k: nat, x: int)
    requires k <= |rs|
    ensures x in Without(groups, rs, k) <==> x in groups && x !in Prefix(rs, k)
    ensures x in Without(groups, rs, k) ==> Without(groups, rs, k)[x] == groups[x]
  {
    if k > 0 {
      WithoutPrefix(groups, rs, k - 1, x);
    }
  }

  lemma {:induction false} DistinctSumToMeans(rs: seq<int>, k: nat, groups: map<int, Group>)
    requires k <= |rs|
    ensures DistinctSumTo(rs, k, groups) == SizeSum(Distinct(rs[..k]), groups)
  {
    if k > 0 {
      var j := k - 1;
      DistinctSumToMeans(rs, j, groups);
      PrefixHas(rs, j, rs[j]);
      assert rs[..k] == rs[..j] + [rs[j]];
      DistinctSnoc(rs[..j], rs[j], groups);
    }
  }

  /** Deleting a key that is not there changes nothing. */
  lemma RemoveAbsent(groups: map<int, Group>, x: int)
    requires x !in groups
    ensures groups - {x} == groups
  {
  }

  /** What the merge loop's state at its exit says about the whole loop. */
  lemma MergeDone(groups: map<int, Group>, players: seq<int>)
    ensures Without(groups, players, |players|) == groups - Members(players)
    ensures Prefix(players, |players|) == Members(players)
    ensures DistinctSumTo(players, |players|, groups) == SizeSum(Distinct(players), groups)
  {
    assert players[..|players|] == players;
    WithoutMembers(groups, players, |players|);
    DistinctSumToMeans(players, |players|, groups);
    forall x
      ensures x in Prefix(players, |players|) <==> x in Members(players)
    {
      PrefixHas(players, |players|, x);
    }
  }

  /** What the capture loop's state at its exit says about the whole loop. */
  lemma CaptureDone(groups: map<int, Group>, dead: seq<int>, k: nat, done: bool)
    requires k <= |dead|
    requires done ==> k == |dead| && k <= FirstRepeat(dead, 0)
    ensures done ==> FirstRepeat(dead, 0) == |dead| && Without(groups, dead, k) == groups - Members(dead[..FirstRepeat(dead, 0)])
    ensures done ==> SumTo(dead, k, groups) == SizeSum(dead, groups)
    ensures !done && FirstRepeat(dead, 0) < |dead| ==>
      Without(groups, dead, FirstRepeat(dead, 0)) == groups - Members(dead[..FirstRepeat(dead, 0)])
  {
    WithoutMembers(groups, dead, FirstRepeat(dead, 0));
    if done {
      SumToSizeSum(dead, k, groups);
      assert dead[..k] == dead;
    }
  }

  /** The merge keeps the records of the opposing groups. */
  lemma MergedKeeps(groups: map<int, Group>, pt: int, colour: int, players: seq<int>, liberties: int, dead: seq<int>)
    requires pt !in groups && AllOfColour(players, groups, colour) && AllOpposedInAtari(dead, groups, colour)
    ensures var merged := Merged(groups, pt, colour, players, liberties);
      (forall j :: 0 <= j < |dead| ==> dead[j] in merged && merged[dead[j]] == groups[dead[j]]) &&
      SizeSum(dead, merged) == SizeSum(dead, groups)
  {
    var merged := Merged(groups, pt, colour, players, liberties);
    assert forall j :: 0 <= j < |dead| ==> dead[j] !in Members(players) && dead[j] != pt;
    SizeSumFrame(dead, groups, merged);
  }

  /** Linking one more class `x` to `pt` extends the joined set by `x`. */
  lemma JoinedStep(rep0: nat -> nat, rep1: nat -> nat, rep2: nat -> nat, m: set<int>, x: int, pt: int)
    requires Joined(rep0, rep1, m, pt) && x !in m && x != pt
    requires forall i: nat :: rep2(i) == if rep1(i) == x then pt else rep1(i)
    ensures Joined(rep0, rep2, m + {x}, pt)
  {
  }

  /** The dictionary after the merge of `move`: the friendly groups are replaced by one record at
      `pt` for all their stones and the new one. */
  function Merged(groups: map<int, Group>, pt: int, colour: int, players: seq<int>, liberties: int): map<int, Group>
  {
    (groups - Members(players))[pt := NewRecord(groups, colour, players, liberties)]
  }

  /** The record of the merged group: the new stone and the stones of every friendly group,
      each group counted once. */
  function NewRecord(groups: map<int, Group>, colour: int, players: seq<int>, liberties: int): Group {
    Group(colour, SizeSum(Distinct(players), groups) + 1, liberties)
  }

  /** The ko point `move` sets: the captured stone when exactly one stone is captured. */
  function KoAfter(dead: seq<int>, groups: map<int, Group>): Option<int> {
    if |dead| > 0 && SizeSum(dead, groups) == 1 then Some(dead[0]) else None
  }

  /** Every listed representative has a record of colour `colour`. */
  predicate AllOfColour(rs: seq<int>, groups: map<int, Group>, colour: int) {
    forall j :: 0 <= j < |rs| ==> rs[j] in groups && groups[rs[j]].colour == colour
  }

  /** Every listed representative has a record of another colour than `colour`, in atari. */
  predicate AllOpposedInAtari(rs: seq<int>, groups: map<int, Group>, colour: int) {
    forall j :: 0 <= j < |rs| ==> rs[j] in groups && groups[rs[j]].colour != colour && groups[rs[j]].liberties == 1
  }

  /** The groups the scan lists are groups of the position: the friendly ones of the colour
      played, the dead ones of another colour and in atari. */
  lemma {:induction false} TalliedGroups(pairs: seq<(int, Group)>, colour: int, groups: map<int, Group>)
    requires forall j :: 0 <= j < |pairs| && pairs[j].1 != OPEN_POINT ==>
      pairs[j].0 in groups && groups[pairs[j].0] == pairs[j].1
    ensures AllOfColour(Tallied(pairs, colour).players, groups, colour)
    ensures AllOpposedInAtari(Tallied(pairs, colour).deadOpps, groups, colour)
    decreases |pairs|
  {
    if pairs != [] {
      var init := pairs[..|pairs| - 1];
      assert forall j :: 0 <= j < |init| ==> init[j] == pairs[j];
      TalliedGroups(init, colour, groups);
      var last := pairs[|pairs| - 1];
      assert last.1 != OPEN_POINT ==> last.0 in groups && groups[last.0] == last.1;
    }
  }

  /** Reads that keep every record give the same neighbour pairs. */
  lemma AroundBenign(rep0: nat -> nat, rep1: nat -> nat, groups: map<int, Group>, ns: seq<int>)
    requires KeysAreRoots(rep0, groups) && Benign(rep0, rep1, groups)
    ensures Around(rep1, groups, ns) == Around(rep0, groups, ns)
  {
    SameReadings(rep0, rep1, groups);
    forall j | 0 <= j < |ns| && ns[j] >= 0
      ensures Around(rep1, groups, ns)[j] == Around(rep0, groups, ns)[j]
    {
      assert Reading(rep1, groups, ns[j]) == Reading(rep0, groups, ns[j]);
    }
  }

  /** What the points read after a move at `pt` whose new record is `g`, against what they read
      under `rep0` before: `pt` reads `g`, the stones of the `joined` groups read `g`, the
      stones of the `removed` groups read open, other stones keep their records, and an empty
      point not led by `rep0` to `anchor` stays empty. */
  ghost predicate Relabelled(rep0: nat -> nat, groups0: map<int, Group>, rep: nat -> nat, groups: map<int, Group>,
                             pt: nat, g: Group, joined: set<int>, removed: set<int>, anchor: int) {
    Reading(rep, groups, pt) == g &&
    (forall q: nat :: rep0(q) in groups0 ==>
      Reading(rep, groups, q) == if rep0(q) in joined then g else if rep0(q) in removed then OPEN_POINT else groups0[rep0(q)]) &&
    (forall q: nat :: rep0(q) !in groups0 && rep0(q) != anchor ==> Reading(rep, groups, q) == OPEN_POINT)
  }

  /** The commit's effect on the points: reads that keep every record, then the joins of the
      merge, then the deletion of the records of `removed`. */
  lemma CommitReadings(rep0: nat -> nat, rep1: nat -> nat, rep2: nat -> nat, groups: map<int, Group>, after: map<int, Group>,
                       pt: nat, joined: set<int>, removed: set<int>, g: Group)
    requires KeysAreRoots(rep0, groups) && Benign(rep0, rep1, groups)
    requires rep0(pt) == pt && pt !in groups
    requires Joined(rep1, rep2, joined, pt)
    requires joined <= groups.Keys && removed <= groups.Keys && joined * removed == {}
    requires after == (groups - joined)[pt := g] - removed
    ensures Relabelled(rep0, groups, rep2, after, pt, g, joined, removed, pt)
  {
    forall q: nat | rep0(q) !in groups && rep0(q) != pt
      ensures Reading(rep2, after, q) == OPEN_POINT
    {
      assert rep0(rep1(q)) == rep0(q);
      assert rep1(q) != pt;
    }
  }

  /** Relabelling judged against reads that kept every record is relabelling judged against the
      position before them, with the anchor moved to the class `pt` had. */
  lemma RelabelledBenign(rep0: nat -> nat, rep1: nat -> nat, groups0: map<int, Group>, rep: nat -> nat, groups: map<int, Group>,
                         pt: nat, g: Group, joined: set<int>, removed: set<int>)
    requires KeysAreRoots(rep0, groups0) && Benign(rep0, rep1, groups0) && rep1(pt) == pt
    requires Relabelled(rep1, groups0, rep, groups, pt, g, joined, removed, pt)
    ensures Relabelled(rep0, groups0, rep, groups, pt, g, joined, removed, rep0(pt))
  {
    forall q: nat | rep0(q) in groups0
      ensures rep1(q) == rep0(q)
    {
    }
    forall q: nat | rep0(q) !in groups0 && rep0(q) != rep0(pt)
      ensures rep1(q) !in groups0 && rep1(q) != pt
    {
      assert rep0(rep1(q)) == rep0(q);
    }
  }

  /** The friendly and the dead groups of a scan are never the same group. */
  lemma FriendsAreNotDead(players: seq<int>, dead: seq<int>, k: nat, groups: map<int, Group>, colour: int)
    requires k <= |dead| && AllOfColour(players, groups, colour) && AllOpposedInAtari(dead, groups, colour)
    ensures Members(players) <= groups.Keys && Members(dead[..k]) <= groups.Keys
    ensures Members(players) * Members(dead[..k]) == {}
  {
    assert forall r :: r in dead[..k] ==> r in dead;
  }

  /** The pairs `neigh_groups` yields scan as the canonical ones, and the groups the scan lists
      are groups of the position. */
  lemma YieldedTallied(rep: nat -> nat, groups: map<int, Group>, ns: seq<int>, pairs: seq<(int, Group)>, colour: int)
    requires Yielded(rep, groups, ns, pairs) && |pairs| == |ns|
    ensures Tallied(pairs, colour) == Tallied(Around(rep, groups, ns), colour)
    ensures AllOfColour(Tallied(pairs, colour).players, groups, colour)
    ensures AllOpposedInAtari(Tallied(pairs, colour).deadOpps, groups, colour)
  {
    YieldedAround(rep, groups, ns, pairs);
    AgreeTallied(pairs, Around(rep, groups, ns), colour);
    TalliedGroups(pairs, colour, groups);
  }

  // ---------------------------------------------------------------------------------------
  // What `move` promises

  /** The scan allows no move: no liberty and no capture. */
  predicate SelfCaptured(t: Tally) {
    t.liberties == 0 && t.deadOpps == []
  }

  /** The records and the readings after the commit of the scan `t` of a move at `pt`: the
      friendly groups merged into one record at `pt`, and the dead groups up to the first repeated
      one deleted. */
  ghost predicate Committed(rep0: nat -> nat, groups0: map<int, Group>, rep: nat -> nat, groups: map<int, Group>,
                            pt: nat, colour: int, t: Tally, anchor: int) {
    groups == Merged(groups0, pt, colour, t.players, t.liberties) - Members(t.deadOpps[..FirstRepeat(t.deadOpps, 0)]) &&
    Relabelled(rep0, groups0, rep, groups, pt, NewRecord(groups0, colour, t.players, t.liberties),
               Members(t.players), Members(t.deadOpps[..FirstRepeat(t.deadOpps, 0)]), anchor)
  }

  /** The outcome of a commit that deletes the groups `dead`: a `KeyError` once a dead group is
      listed twice, and otherwise the ko point and the turn passes. */
  predicate Concluded(r: Outcome<MoveError>, dead: seq<int>, groups0: map<int, Group>, ko0: Option<int>, next0: int,
                      ko: Option<int>, next: int) {
    (r.Fail? <==> FirstRepeat(dead, 0) < |dead|) &&
    (r.Fail? ==> r.error == KeyError && ko == ko0 && next == next0) &&
    (r.Pass? ==> ko == KoAfter(dead, groups0) && next == -next0)
  }

  /** Nothing the position says has changed. */
  ghost predicate Kept(rep0: nat -> nat, groups0: map<int, Group>, ko0: Option<int>, next0: int,
                       rep: nat -> nat, groups: map<int, Group>, ko: Option<int>, next: int) {
    groups == groups0 && ko == ko0 && next == next0 && Benign(rep0, rep, groups0)
  }

  /** What `move` does once `pt` is an empty point of the board and `colour` a player: a
      `KeyError` for a size the neighbour table does not hold, a refusal of self capture, and
      otherwise the commit. */
  ghost predicate Played(size: nat, rep0: nat -> nat, groups0: map<int, Group>, ko0: Option<int>, next0: int,
                         rep: nat -> nat, groups: map<int, Group>, ko: Option<int>, next: int,
                         r: Outcome<MoveError>, pt: nat, colour: int, anchor: int) {
    if !TableSize(size) then r == Fail(KeyError) && Kept(rep0, groups0, ko0, next0, rep, groups, ko, next)
    else if SelfCaptured(Planned(rep0, groups0, size, pt, colour)) then
      r == Fail(SelfCapture) && Kept(rep0, groups0, ko0, next0, rep, groups, ko, next)
    else
      Committed(rep0, groups0, rep, groups, pt, colour, Planned(rep0, groups0, size, pt, colour), anchor) &&
      Concluded(r, Planned(rep0, groups0, size, pt, colour).deadOpps, groups0, ko0, next0, ko, next)
  }

  /** The checks of `move` before its scan: the colour to play, or the error raised. The point
      itself is not range-checked: `self[pt]` reads it through numpy, which raises `IndexError`
      only outside `[-size², size²)` and reads a negative point at `size² + pt`; such a point
      then has no entry in the neighbour table, so `neigh_groups` raises `KeyError`. */
  ghost function Checked(ko: Option<int>, size: nat, rep: nat -> nat, groups: map<int, Group>, pt: int,
                         colour: int, next: int): Result<int, MoveError> {
    if ko.Some? then Err(KoPoint)
    else if !PointerForest.InRange(size * size, pt) then Err(IndexError)
    else if Reading(rep, groups, PointerForest.Slot(size * size, pt) as nat) != OPEN_POINT then Err(OnStone)
    else if colour != 0 && colour != BLACK && colour != WHITE then Err(UnrecognisedColour)
    else if pt < 0 then Err(KeyError)
    else if colour == 0 then Ok(next)
    else Ok(colour)
  }

  /** A move judged against reads that kept every record is the same move judged against the
      position before them. */
  lemma PlayedBenign(size: nat, rep0: nat -> nat, rep1: nat -> nat, groups0: map<int, Group>, ko0: Option<int>, next0: int,
                     rep: nat -> nat, groups: map<int, Group>, ko: Option<int>, next: int,
                     r: Outcome<MoveError>, pt: nat, colour: int)
    requires size > 0 && KeysAreRoots(rep0, groups0) && Benign(rep0, rep1, groups0) && rep1(pt) == pt
    requires Played(size, rep1, groups0, ko0, next0, rep, groups, ko, next, r, pt, colour, pt)
    ensures Played(size, rep0, groups0, ko0, next0, rep, groups, ko, next, r, pt, colour, rep0(pt))
  {
    AroundBenign(rep0, rep1, groups0, Neighbours(size, pt));
    assert Planned(rep1, groups0, size, pt, colour) == Planned(rep0, groups0, size, pt, colour);
    var t := Planned(rep0, groups0, size, pt, colour);
    if !TableSize(size) || SelfCaptured(t) {
      BenignTrans(rep0, rep1, rep, groups0);
    } else {
      RelabelledBenign(rep0, rep1, groups0, rep, groups, pt, NewRecord(groups0, colour, t.players, t.liberties),
                       Members(t.players), Members(t.deadOpps[..FirstRepeat(t.deadOpps, 0)]));
    }
  }

  /** The scan loop of `move` over the pairs `neigh_groups` yields. */
  method ScanNeighbours(pairs: seq<(int, Group)>, colour: int) returns (libertyCount: int, players: seq<int>, dead: seq<int>)
    ensures Tally(libertyCount, players, dead) == Tallied(pairs, colour)
  {
    libertyCount, players, dead := 0, [], [];
    var k := 0;
    while k < |pairs|
      invariant 0 <= k <= |pairs|
      invariant Tally(libertyCount, players, dead) == Tallied(pairs[..k], colour)
    {
      var (qt, group) := pairs[k];
      if group == OPEN_POINT {
        libertyCount := libertyCount + 1;
      } else if group.colour == colour {
        libertyCount := libertyCount + group.liberties - 1;
        players := players + [qt];
      } else if group.liberties == 1 {
        dead := dead + [qt];
      }
      assert pairs[..k + 1][..k] == pairs[..k];
      k := k + 1;
    }
    assert pairs[..k] == pairs;
  }

  // ---------------------------------------------------------------------------------------
  // The position

  class Position {
    const size: nat
    const board: UnionFindGomcts.UnionFind
    var groups: map<int, Group>
    var ko: Option<int>
    var nextPlayer: int

    /** The board holds `size * size` points, the next player is black or white, and every
        record belongs to a representative on the board and has stones of a colour. */
    ghost predicate Valid()
      reads this, board
    {
      board.Valid() && board.sizeLimit == Some(size * size) &&
      (nextPlayer == BLACK || nextPlayer == WHITE) &&
      forall r :: r in groups ==>
        0 <= r < size * size && board.repOf(r) == r && groups[r].size >= 1 &&
        (groups[r].colour == BLACK || groups[r].colour == WHITE)
    }

    /** An empty position: every point its own representative, no ko, black to play. */
    constructor (size: nat)
      ensures Valid() && this.size == size && fresh(board)
      ensures groups == map[] && ko == None && nextPlayer == BLACK
      ensures |board.pointers| == size * size && forall q: nat :: board.repOf(q) == q
    {
      this.size := size;
      board := new UnionFindGomcts.UnionFind(Some(size * size));
      groups := map[];
      ko := None;
      nextPlayer := BLACK;
    }

    /** `self[pt]`: the record of the group `pt` belongs to, with `pt` read as numpy indexes (a
        negative point counts from the end). An empty point that still points at a captured
        group's representative is made its own representative. */
    method GetItem(pt: int) returns (r: Result<Group, MoveError>)
      requires Valid()
      modifies board
      ensures Valid() && Benign(old(board.repOf), board.repOf, groups)
      ensures !PointerForest.InRange(size * size, pt) ==> r == Err(IndexError) && board.repOf == old(board.repOf)
      ensures PointerForest.InRange(size * size, pt) ==> r == Ok(Reading(old(board.repOf), groups, PointerForest.Slot(size * size, pt) as nat))
      ensures 0 <= pt < size * size && r == Ok(OPEN_POINT) ==> board.repOf(pt) == pt
    {
      board.Idempotent();
      var f := board.Find(pt);
      if f.Err? {
        return Err(IndexError);
      }
      var repre := f.value;
      if repre in groups {
        return Ok(groups[repre]);
      }
      if 0 <= pt && pt != repre {
        board.Reset(pt);
      }
      r := Ok(OPEN_POINT);
    }

    /** `neigh_groups(pt)`: the representative and the record of every neighbour of `pt`, in
        the order of the neighbour table, which has entries for the odd sizes 9 to 25 only. */
    method NeighGroups(pt: int) returns (r: Result<seq<(int, Group)>, MoveError>)
      requires Valid() && 0 <= pt < size * size
      modifies board
      ensures Valid() && Benign(old(board.repOf), board.repOf, groups)
      ensures !TableSize(size) ==> r == Err(KeyError) && board.repOf == old(board.repOf)
      ensures TableSize(size) ==>
        r.Ok? && |r.value| == |Neighbours(size, pt)| && Yielded(old(board.repOf), groups, Neighbours(size, pt), r.value)
    {
      board.Idempotent();
      if !TableSize(size) {
        return Err(KeyError);
      }
      var ns := GodataNeighbours(size, pt);
      SameNeighbours(size, pt);
      TablesOnBoard(size, pt);
      ghost var rep0 := board.repOf;
      assert KeysAreRoots(rep0, groups);
      assert forall j :: 0 <= j < |ns| ==> ns[j] in Neighbours(size, pt);
      var pairs := [];
      var k := 0;
      while k < |ns|
        invariant 0 <= k <= |ns| && |pairs| == k && Valid()
        invariant forall j :: 0 <= j < |ns| ==> OnBoard(size, ns[j])
        invariant KeysAreRoots(rep0, groups) && Benign(rep0, board.repOf, groups)
        invariant Yielded(rep0, groups, ns, pairs)
      {
        pairs := YieldNext(ns, k, pairs, rep0);
        k := k + 1;
      }
      r := Ok(pairs);
    }

    /** One step of `neigh_groups`: the pair of the `k`-th neighbour. */
    method YieldNext(ns: seq<int>, k: nat, pairs: seq<(int, Group)>, ghost rep0: nat -> nat)
      returns (pairs': seq<(int, Group)>)
      requires Valid() && k < |ns| && |pairs| == k && OnBoard(size, ns[k])
      requires KeysAreRoots(rep0, groups) && Benign(rep0, board.repOf, groups)
      requires Yielded(rep0, groups, ns, pairs)
      modifies board
      ensures Valid() && Benign(rep0, board.repOf, groups)
      ensures |pairs'| == k + 1 && Yielded(rep0, groups, ns, pairs')
    {
      ghost var rep1 := board.repOf;
      var a := board.Find(ns[k]);
      var g := GetItem(ns[k]);
      BenignTrans(rep0, rep1, board.repOf, groups);
      SameReadings(rep0, rep1, groups);
      pairs' := pairs + [(a.value, g.value)];
    }

    /** The merge loop of `move`: every friendly group not yet joined to `pt` is joined to it,
        its stones are counted and its record is deleted. */
    method MergeFriends(pt: int, players: seq<int>) returns (merged: int)
      requires Valid() && 0 <= pt < size * size && board.repOf(pt) == pt && pt !in groups
      requires forall j :: 0 <= j < |players| ==> players[j] in groups
      modifies this, board
      ensures Valid() && ko == old(ko) && nextPlayer == old(nextPlayer)
      ensures groups == old(groups) - Members(players)
      ensures merged == SizeSum(Distinct(players), old(groups))
      ensures Joined(old(board.repOf), board.repOf, Members(players), pt)
    {
      MergeDone(groups, players);
      merged := MergeLoop(pt, players);
    }

    /** The state of the merge loop after the first `k` entries of `players`. */
    ghost predicate Merging(rep0: nat -> nat, groups0: map<int, Group>, players: seq<int>, k: nat, pt: int, merged: int)
      reads this, board
    {
      k <= |players| && Valid() && groups == Without(groups0, players, k) &&
      merged == DistinctSumTo(players, k, groups0) && Joined(rep0, board.repOf, Prefix(players, k), pt)
    }

    /** The merge loop itself, stated one entry of `players` at a time. */
    method MergeLoop(pt: int, players: seq<int>) returns (merged: int)
      requires Valid() && 0 <= pt < size * size && board.repOf(pt) == pt && pt !in groups
      requires forall j :: 0 <= j < |players| ==> players[j] in groups
      modifies this, board
      ensures Valid() && ko == old(ko) && nextPlayer == old(nextPlayer)
      ensures groups == Without(old(groups), players, |players|)
      ensures merged == DistinctSumTo(players, |players|, old(groups))
      ensures Joined(old(board.repOf), board.repOf, Prefix(players, |players|), pt)
    {
      ghost var rep0 := board.repOf;
      ghost var groups0 := groups;
      assert forall j :: 0 <= j < |players| ==> players[j] in groups0 && 0 <= players[j] < size * size;
      assert KeysAreRoots(rep0, groups0);
      merged := 0;
      var k := 0;
      assert Merging(rep0, groups0, players, k, pt, merged);
      while k < |players|
        invariant 0 <= k <= |players| && ko == old(ko) && nextPlayer == old(nextPlayer)
        invariant Merging(rep0, groups0, players, k, pt, merged)
      {
        merged := MergeAt(pt, players, k, merged, rep0, groups0);
        k := k + 1;
      }
    }

    /** The merge loop's pass for `players[k]`, from the loop's state before it to the state
        after it. */
    method MergeAt(pt: int, players: seq<int>, k: nat, merged: int, ghost rep0: nat -> nat, ghost groups0: map<int, Group>)
      returns (merged': int)
      requires 0 <= pt < size * size
      requires k < |players| && pt !in groups0 && rep0(pt) == pt && KeysAreRoots(rep0, groups0)
      requires forall j :: 0 <= j < |players| ==> players[j] in groups0 && 0 <= players[j] < size * size
      requires Merging(rep0, groups0, players, k, pt, merged)
      modifies this, board
      ensures ko == old(ko) && nextPlayer == old(nextPlayer)
      ensures Merging(rep0, groups0, players, k + 1, pt, merged')
    {
      WithoutPrefix(groups0, players, k, players[k]);
      WithoutPrefix(groups0, players, k, pt);
      merged' := MergeOne(pt, players[k], merged, rep0, groups0, Prefix(players, k));
    }

    /** One pass of the merge loop: `repre` is skipped when it already reads `pt`, and joined
        otherwise. */
    method MergeOne(pt: int, repre: int, merged: int, ghost rep0: nat -> nat, ghost groups0: map<int, Group>, ghost m: set<int>)
      returns (merged': int)
      requires Valid() && 0 <= pt < size * size && 0 <= repre < size * size && repre in groups0
      requires pt !in groups0 && pt !in groups && rep0(pt) == pt && KeysAreRoots(rep0, groups0)
      requires (repre in groups <==> repre !in m) && (repre in groups ==> groups[repre] == groups0[repre])
      requires Joined(rep0, board.repOf, m, pt)
      modifies this, board
      ensures Valid() && ko == old(ko) && nextPlayer == old(nextPlayer)
      ensures groups == old(groups) - {repre} && Joined(rep0, board.repOf, m + {repre}, pt)
      ensures merged' == merged + if repre in m then 0 else groups0[repre].size
    {
      var f := board.Find(repre);
      if f.value == pt {
        assert repre in m && m + {repre} == m;
        RemoveAbsent(groups, repre);
        return merged;
      }
      ghost var rep1 := board.repOf;
      merged' := merged + groups[repre].size;
      JoinFriend(pt, repre);
      JoinedStep(rep0, rep1, board.repOf, m, repre, pt);
    }

    /** The body of the merge loop for a group not yet joined: `self.board.union(pt, repre)`,
        which makes `pt` the parent of `repre`, and `del self.groups[repre]`. */
    method JoinFriend(pt: int, repre: int)
      requires Valid() && 0 <= pt < size * size && board.repOf(pt) == pt && pt !in groups
      requires repre in groups
      modifies this, board
      ensures Valid() && ko == old(ko) && nextPlayer == old(nextPlayer)
      ensures groups == old(groups) - {repre}
      ensures forall i: nat :: board.repOf(i) == if old(board.repOf(i)) == repre then pt else old(board.repOf(i))
    {
      board.Link(pt, repre);
      groups := groups - {repre};
    }

    /** The capture loop of `move`: the stones of every opposing group in atari are counted and
        its record deleted. A group listed twice is found deleted the second time and raises a
        `KeyError`, after the deletions before it. */
    method Capture(dead: seq<int>) returns (r: Result<int, MoveError>)
      requires Valid() && forall j :: 0 <= j < |dead| ==> dead[j] in groups
      modifies this, board
      ensures Valid() && board.repOf == old(board.repOf) && ko == old(ko) && nextPlayer == old(nextPlayer)
      ensures r.Err? <==> FirstRepeat(dead, 0) < |dead|
      ensures r.Err? ==> r.error == KeyError
      ensures groups == old(groups) - Members(dead[..FirstRepeat(dead, 0)])
      ensures r.Ok? ==> r.value == SizeSum(dead, old(groups))
    {
      ghost var groups0 := groups;
      assert forall j :: 0 <= j < |dead| ==> dead[j] in groups0 && 0 <= dead[j] < size * size && board.repOf(dead[j]) == dead[j];
      r := Ok(0);
      var k := 0;
      while k < |dead| && r.Ok?
        invariant 0 <= k <= |dead|
        invariant Valid() && board.repOf == old(board.repOf) && ko == old(ko) && nextPlayer == old(nextPlayer)
        invariant r.Ok? ==> k <= FirstRepeat(dead, 0)
        invariant r.Ok? ==> groups == Without(groups0, dead, k) && r.value == SumTo(dead, k, groups0)
        invariant r.Err? ==> r.error == KeyError && FirstRepeat(dead, 0) < |dead|
        invariant r.Err? ==> groups == Without(groups0, dead, FirstRepeat(dead, 0))
      {
        r := CaptureAt(dead, k, r.value, groups0);
        k := k + 1;
      }
      CaptureDone(groups0, dead, k, r.Ok?);
    }

    /** The capture loop's pass for `dead[k]`, from the loop's state before it to the state
        after it. */
    method CaptureAt(dead: seq<int>, k: nat, captured: int, ghost groups0: map<int, Group>)
      returns (c: Result<int, MoveError>)
      requires Valid() && k < |dead| && k <= FirstRepeat(dead, 0)
      requires forall j :: 0 <= j < |dead| ==> dead[j] in groups0 && 0 <= dead[j] < size * size && board.repOf(dead[j]) == dead[j]
      requires groups == Without(groups0, dead, k) && captured == SumTo(dead, k, groups0)
      modifies this, board
      ensures Valid() && board.repOf == old(board.repOf) && ko == old(ko) && nextPlayer == old(nextPlayer)
      ensures c.Ok? ==> k + 1 <= FirstRepeat(dead, 0)
      ensures c.Ok? ==> groups == Without(groups0, dead, k + 1) && c.value == SumTo(dead, k + 1, groups0)
      ensures c.Err? ==> c.error == KeyError && FirstRepeat(dead, 0) < |dead|
      ensures c.Err? ==> groups == Without(groups0, dead, FirstRepeat(dead, 0))
    {
      CaptureProgress(groups0, dead, k);
      c := CaptureOne(dead[k], captured);
    }

    /** One pass of the capture loop, for `repre`, which the board maps to itself:
        `self.groups[repre]` raises a `KeyError` once the record is gone. */
    method CaptureOne(repre: int, captured: int) returns (r: Result<int, MoveError>)
      requires Valid() && 0 <= repre < size * size && board.repOf(repre) == repre
      modifies this, board
      ensures Valid() && board.repOf == old(board.repOf) && ko == old(ko) && nextPlayer == old(nextPlayer)
      ensures r.Err? <==> repre !in old(groups)
      ensures r.Err? ==> r.error == KeyError && groups == old(groups)
      ensures r.Ok? ==> r.value == captured + old(groups)[repre].size && groups == old(groups) - {repre}
    {
      var f := board.Find(repre);
      var root := f.value;
      if root !in groups {
        return Err(KeyError);
      }
      r := Ok(captured + groups[root].size);
      groups := groups - {root};
    }

    /** The merge of `move` and the record of the merged group at `pt`. */
    method Record(pt: int, colour: int, libertyCount: int, players: seq<int>)
      requires Valid() && 0 <= pt < size * size && board.repOf(pt) == pt && pt !in groups
      requires colour == BLACK || colour == WHITE
      requires AllOfColour(players, groups, colour)
      modifies this, board
      ensures Valid() && ko == old(ko) && nextPlayer == old(nextPlayer)
      ensures Joined(old(board.repOf), board.repOf, Members(players), pt)
      ensures groups == Merged(old(groups), pt, colour, players, libertyCount)
    {
      ghost var groups0 := groups;
      assert forall r :: r in players ==> r in groups0 && groups0[r].size >= 1;
      var merged := MergeFriends(pt, players);
      SizeSumBound(Distinct(players), groups0);
      ghost var kept := groups;
      var g := Group(colour, merged + 1, libertyCount);
      assert kept[pt := g] == Merged(groups0, pt, colour, players, libertyCount);
      SetRecord(pt, g);
    }

    /** `self.groups[pt] = g` for a point that is its own representative. */
    method SetRecord(pt: int, g: Group)
      requires Valid() && 0 <= pt < size * size && board.repOf(pt) == pt
      requires g.size >= 1 && (g.colour == BLACK || g.colour == WHITE)
      modifies this
      ensures Valid() && ko == old(ko) && nextPlayer == old(nextPlayer)
      ensures groups == old(groups)[pt := g]
    {
      groups := groups[pt := g];
    }

    /** The changes of `move` once its checks are complete: the friendly groups are merged
        into a record at `pt`, the dead groups are deleted, and ko and the next player are set.
        The capture loop can raise a `KeyError` part-way, after the merge. */
    method Commit(pt: int, colour: int, libertyCount: int, players: seq<int>, dead: seq<int>)
      returns (r: Outcome<MoveError>)
      requires Valid() && 0 <= pt < size * size && board.repOf(pt) == pt && pt !in groups
      requires colour == BLACK || colour == WHITE
      requires AllOfColour(players, groups, colour) && AllOpposedInAtari(dead, groups, colour)
      modifies this, board
      ensures Valid() && Joined(old(board.repOf), board.repOf, Members(players), pt)
      ensures groups == Merged(old(groups), pt, colour, players, libertyCount) - Members(dead[..FirstRepeat(dead, 0)])
      ensures Concluded(r, dead, old(groups), old(ko), old(nextPlayer), ko, nextPlayer)
    {
      ghost var groups0 := groups;
      Record(pt, colour, libertyCount, players);
      MergedKeeps(groups0, pt, colour, players, libertyCount, dead);
      var captured := Capture(dead);
      if captured.Err? {
        return Fail(captured.error);
      }
      if captured.value == 1 {
        ko := Some(dead[0]);
      } else {
        ko := None;
      }
      nextPlayer := -nextPlayer;
      r := Pass;
    }

    /** `move` for an empty point `pt` of the board and a player `colour`: the neighbour scan,
        the self-capture check and the commit. */
    method Play(pt: nat, colour: int) returns (r: Outcome<MoveError>)
      requires Valid() && pt < size * size && board.repOf(pt) == pt && pt !in groups
      requires colour == BLACK || colour == WHITE
      modifies this, board
      ensures Valid()
      ensures Played(size, old(board.repOf), old(groups), old(ko), old(nextPlayer), board.repOf, groups, ko, nextPlayer, r, pt, colour, pt)
    {
      ghost var rep0 := board.repOf;
      var yielded := NeighGroups(pt);
      if yielded.Err? {
        return Fail(yielded.error);
      }
      var pairs := yielded.value;
      YieldedTallied(rep0, groups, Neighbours(size, pt), pairs, colour);
      var libertyCount, players, dead := ScanNeighbours(pairs, colour);
      if libertyCount == 0 && |dead| == 0 {
        return Fail(SelfCapture);
      }
      ghost var rep1 := board.repOf;
      ghost var groups0 := groups;
      ghost var removed := Members(dead[..FirstRepeat(dead, 0)]);
      FriendsAreNotDead(players, dead, FirstRepeat(dead, 0), groups, colour);
      r := Commit(pt, colour, libertyCount, players, dead);
      CommitReadings(rep0, rep1, board.repOf, groups0, groups, pt, Members(players), removed,
                     NewRecord(groups0, colour, players, libertyCount));
    }

    /** `move(pt, colour)`: refused on any ko, for a point numpy cannot index, on a stone, for an
        unrecognised colour and, at the neighbour table, for a negative point; a colour of 0
        stands for the next player; then played. */
    method Move(pt: int, colour: int) returns (r: Outcome<MoveError>)
      requires Valid()
      modifies this, board
      ensures Valid()
      ensures Checked(old(ko), size, old(board.repOf), old(groups), pt, colour, old(nextPlayer)).Err? ==>
        r == Fail(Checked(old(ko), size, old(board.repOf), old(groups), pt, colour, old(nextPlayer)).error) &&
        Kept(old(board.repOf), old(groups), old(ko), old(nextPlayer), board.repOf, groups, ko, nextPlayer)
      ensures Checked(old(ko), size, old(board.repOf), old(groups), pt, colour, old(nextPlayer)).Ok? ==>
        0 <= pt &&
        Played(size, old(board.repOf), old(groups), old(ko), old(nextPlayer), board.repOf, groups, ko, nextPlayer, r, pt,
               Checked(old(ko), size, old(board.repOf), old(groups), pt, colour, old(nextPlayer)).value, old(board.repOf)(pt))
    {
      board.Idempotent();
      ghost var rep0 := board.repOf;
      if ko.Some? {
        return Fail(KoPoint);
      }
      var here := GetItem(pt);
      if here.Err? {
        return Fail(here.error);
      }
      if here.value != OPEN_POINT {
        return Fail(OnStone);
      }
      var c := colour;
      if colour == 0 {
        c := nextPlayer;
      } else if colour != BLACK && colour != WHITE {
        return Fail(UnrecognisedColour);
      }
      if pt < 0 {
        return Fail(KeyError);
      }
      ghost var rep1 := board.repOf;
      assert pt !in groups;
      r := Play(pt, c);
      PlayedBenign(size, rep0, rep1, old(groups), old(ko), old(nextPlayer), board.repOf, groups, ko, nextPlayer, r, pt, c);
    }
  }

  /** The doctest of `move`: on an empty 19x19 position a black stone at 200 reads
      `Group(colour=1, size=1, liberties=4)`, and a black stone at 201 beside it then reads
      `Group(colour=1, size=2, liberties=6)`. */
  method MoveDoctest() returns (first: Group, second: Group)
    ensures first == Group(BLACK, 1, 4) && second == Group(BLACK, 2, 6)
  {
    var pos := new Position(19);
    ghost var rep0 := pos.board.repOf;
    FirstStone(rep0);
    var played := pos.Move(200, BLACK);
    ghost var rep1, groups1 := pos.board.repOf, pos.groups;
    PlayedStone(19, rep0, map[], None, BLACK, rep1, groups1, pos.ko, pos.nextPlayer, played, 200, BLACK, 200, Tally(4, [], []));
    assert Members([]) == {} && groups1 == map[200 := Group(BLACK, 1, 4)];
    var at200 := pos.GetItem(200);
    first := at200.value;
    ghost var rep2 := pos.board.repOf;
    SecondStone(rep0, rep1, rep2, groups1);
    played := pos.Move(201, BLACK);
    PlayedStone(19, rep2, groups1, None, WHITE, pos.board.repOf, pos.groups, pos.ko, pos.nextPlayer, played, 201, BLACK,
                rep2(201), Tally(6, [200], []));
    var at201 := pos.GetItem(201);
    second := at201.value;
  }

  /** A move that the scan `t` allows and that captures nothing: it passes, clears the ko, passes
      the turn and merges the friendly groups into the record at `pt`. */
  lemma PlayedStone(size: nat, rep0: nat -> nat, groups0: map<int, Group>, ko0: Option<int>, next0: int,
                    rep: nat -> nat, groups: map<int, Group>, ko: Option<int>, next: int,
                    r: Outcome<MoveError>, pt: nat, colour: int, anchor: int, t: Tally)
    requires Played(size, rep0, groups0, ko0, next0, rep, groups, ko, next, r, pt, colour, anchor)
    requires TableSize(size) && Planned(rep0, groups0, size, pt, colour) == t && t.deadOpps == [] && t.liberties > 0
    ensures r == Pass && ko == None && next == -next0
    ensures groups == (groups0 - Members(t.players))[pt := NewRecord(groups0, colour, t.players, t.liberties)]
    ensures Relabelled(rep0, groups0, rep, groups, pt, NewRecord(groups0, colour, t.players, t.liberties), Members(t.players), {}, anchor)
  {
    assert Members(t.deadOpps[..0]) == {};
  }

  /** The first stone of the doctest passes the checks of `move` and finds four empty points. */
  lemma FirstStone(rep0: nat -> nat)
    requires forall q: nat :: rep0(q) == q
    ensures Checked(None, 19, rep0, map[], 200, BLACK, BLACK) == Ok(BLACK)
    ensures Planned(rep0, map[], 19, 200, BLACK) == Tally(4, [], [])
  {
    InteriorNeighbours(19, 200);
    AllOpenTallied(Around(rep0, map[], Neighbours(19, 200)), BLACK);
  }

  /** After the first stone of the doctest, at 201 the second stone finds three empty points
      and the first stone's group. */
  lemma SecondStone(rep0: nat -> nat, rep1: nat -> nat, rep2: nat -> nat, groups: map<int, Group>)
    requires forall q: nat :: rep0(q) == q
    requires groups == map[200 := Group(BLACK, 1, 4)] && KeysAreRoots(rep1, groups) && Benign(rep1, rep2, groups)
    requires Relabelled(rep0, map[], rep1, groups, 200, Group(BLACK, 1, 4), {}, {}, 200)
    ensures Checked(None, 19, rep2, groups, 201, BLACK, WHITE) == Ok(BLACK)
    ensures Planned(rep2, groups, 19, 201, BLACK) == Tally(6, [200], [])
    ensures NewRecord(groups, BLACK, [200], 6) == Group(BLACK, 2, 6)
  {
    SameReadings(rep1, rep2, groups);
    InteriorNeighbours(19, 201);
    assert Reading(rep1, groups, 182) == OPEN_POINT && Reading(rep1, groups, 220) == OPEN_POINT;
    assert Reading(rep1, groups, 201) == OPEN_POINT && Reading(rep1, groups, 202) == OPEN_POINT;
    assert rep2(200) == 200;
    ScanOfSecondStone(Around(rep2, groups, Neighbours(19, 201)));
    assert Distinct([200]) == [200];
  }

  /** A negative point is not refused by the range check: numpy reads `-1` at 360, so on an empty
      board `move` gets past the occupied-point check and raises KeyError at the neighbour
      table; with a stone at 360 the same call is refused as occupied; `-362` is out of range. */
  lemma NegativePoints(rep0: nat -> nat)
    requires forall q: nat :: rep0(q) == q
    ensures Checked(None, 19, rep0, map[], -1, BLACK, BLACK) == Err(KeyError)
    ensures Checked(None, 19, rep0, map[360 := Group(WHITE, 1, 2)], -1, BLACK, BLACK) == Err(OnStone)
    ensures Checked(None, 19, rep0, map[], -361, BLACK, BLACK) == Err(KeyError)
    ensures Checked(None, 19, rep0, map[], -362, BLACK, BLACK) == Err(IndexError)
  {
    assert rep0(360) == 360 && rep0(0) == 0;
  }

  /** The scan of the second stone of the doctest. */
  lemma ScanOfSecondStone(pairs: seq<(int, Group)>)
    requires pairs == [(182, OPEN_POINT), (220, OPEN_POINT), (200, Group(BLACK, 1, 4)), (202, OPEN_POINT)]
    ensures Tallied(pairs, BLACK) == Tally(6, [200], [])
  {
    var p1, p2, p3 := pairs[..1], pairs[..2], pairs[..3];
    assert p1[..0] == [] && p2[..1] == p1 && p3[..2] == p2 && pairs[..3] == p3;
    assert Tallied(p1, BLACK) == Tally(1, [], []);
    assert Tallied(p2, BLACK) == Tally(2, [], []);
    assert Tallied(p3, BLACK) == Tally(5, [200], []);
  }

  /** The doctest of `__getitem__`: point 200 of an empty 19x19 position reads open. */
  method GetItemDoctest() returns (g: Group)
    ensures g == OPEN_POINT
  {
    var pos := new Position(19);
    var r := pos.GetItem(200);
    g := r.value;
  }

  /** The doctest of `neigh_groups`: the first neighbour of 200 on an empty 19x19 position is the
      empty point 181. */
  method NeighGroupsDoctest() returns (first: (int, Group))
    ensures first == (181, OPEN_POINT)
  {
    var pos := new Position(19);
    InteriorNeighbours(19, 200);
    var yielded := pos.NeighGroups(200);
    first := yielded.value[0];
  }
}
