# GoFamiliar core, modelled in Dafny

GoFamiliar is a collection of Python drafts for playing and analysing the game of Go. Its
modellable core is integer, set and string bookkeeping. This project models it in four groups:

- **Union-find pointer arrays.** Three variants are modelled:
  - `util/unionfind.py`: find with path compression, lazy growth and multi-element union.
  - `gomcts/unionfind.py`: a draft whose array never grows.
  - `unionfind.py`: a draft with `union` and `multi_union`.

  All three are classes over a `seq<int>` pointer array that their methods rewrite. They share
  the pure forest theory of `PointerForest` (`forest.dfy`): representatives, compression,
  re-pointing and growth. A ghost `rank` sequence witnesses that the pointers have no cycles.
- **The Go board engine.**
  - The neighbour and diagonal tables of `go.py` and `gomcts/godata.py` (`adjacency.dfy`).
  - `go.py`'s `Board` as a class over an abstract `Snapshot` (`board.dfy`, `board_model.dfy`):
    `change_colour`, `_find`, `_find_liberties`, `_union`, `_board_crawl` and `liberty_lb`.
  - The rule engine `Position.move` of `gomcts/godata.py` (`position.dfy`).
- **Search-tree bookkeeping.**
  - The `Node` arena of `src/util/tree.py` (`tree.dfy`).
  - The simulation counters of `mcts.py`'s `NodeMCTS` (`mcts.dfy`). The value of a random
    playout is a parameter.
- **Game-record helpers.**
  - The SGF node readers shared by four files (`sgf_nodes.dfy`), and each file's own node loop:
    - `src/sgf.py` and `src/sgf/read.py` (`src_sgf.dfy`);
    - `sgf/read.py` (`sgf_read.dfy`);
    - `pro_heat/sgf.py` (`pro_heat_sgf.dfy`).
  - The older `sgf.py` (`sgf_draft.dfy`).
  - The stone accumulator of `pro_heat/go_objects.py` (`go_objects.dfy`).
  - The colour encoding of `src/openai_go/positions.py` (`observation.dfy`).
  - `text.dfy` gives the Python string built-ins these use: `split`, `join` and `replace`, and
    `str` and `int` (which ignores surrounding whitespace).

## Modelling decisions

- **Groups by identity.** `Group` in `go.py` carries only a colour, so all groups of one colour
  compare equal as dictionary keys. The model gives every group a distinct id; id 0 is
  `OPEN_POINT`.
- **go.py:210.** `set += set` raises TypeError in Python. The model updates with the evident
  `|=` (`BoardModel.Touch`). `BoardModel.TouchAsWritten` keeps the as-written behaviour.
- **go.py:272.** This line compares an `int` with a `set`. The model compares the two lengths
  (`BoardModel.SwapForLiberties`). `BoardModel.UnionAsWritten` keeps the as-written comparison.
- **The board crawl.** `_board_crawl` (go.py:279-293) has no visited set; it only ends when its
  caller breaks out. The model keeps a set of searched points and does not queue them again.
- **godata.py:153.** This line calls `self.board.union`, which `gomcts/unionfind.py` does not
  define. The model uses `union(r1, r2)` of `unionfind.py:26-27` instead
  (`UnionFindGomcts.UnionFind.Link`).
- **Ko and liberties in `Position.move`, as written.** A ko blocks every move while it is set.
  The liberties of neighbouring groups are never updated.
- **Uniterable single elements.** `__setitem__` of both complete union-find versions iterates
  `elements`. A single integer on the left raises TypeError, although the util doctest
  (util/unionfind.py:110) uses that form.
- **`nodelist_to_boardlist` length.** The model returns one board more than there are nodes
  (the initial empty board), as sgf.py:89-100 does. The unit test at
  unittests/sgf_unittests.py:33 expects equal lengths instead; the model follows the code.
- **pro_heat `add_move`.** Its docstring promises `MoveError` examples
  (pro_heat/go_objects.py:68-72). The code (line 77) only adds the stone value, and the model
  follows the code (`GoObjects.SameMoveTwice`). The model stores the board size on the
  object; the source only reads it from the array.
- **`src/sgf/read.py`.** It repeats `main_branch`, `node_to_gomove`, `intmove`, `info` and the
  `store_parser` node loop of `src/sgf.py`, with the same bodies. The members cited below for
  `src/sgf.py` model both files:

  | function | src/sgf.py | src/sgf/read.py |
  |---|---|---|
  | `main_branch` | 85-102 | 89-106 |
  | `node_to_gomove` | 118-146 | 122-150 |
  | `intmove` | 149-158 | 153-162 |
  | `info` | 161-174 | 165-178 |
  | the node loop | 216-233 | 224-241 |

## Model

| member | source | states |
|---|---|---|
| PointerForest.Root | util/unionfind.py:74-79 | the representative reached from `i` points at itself, and is `i` exactly when `i` points at itself |
| PointerForest.CompressedAt | util/unionfind.py:74-79 | path compression points every element of the followed chain directly at the representative and leaves every other pointer unchanged |
| PointerForest.Compressed | util/unionfind.py:74-79 | the array after a find with compression: same length, and the found element points at its representative |
| PointerForest.CompressedRoot | util/unionfind.py:74-79 | compression keeps the structure a forest and changes no element's representative |
| PointerForest.FindIdempotent | util/unionfind.py:50-53 | after a find, finding again returns the same representative: find(find(x)) == find(x) |
| PointerForest.RepointedRoot | util/unionfind.py:119-121 | after pointing a set of representatives at `t`, an element resolves to `t` exactly when its old representative was one of them, and every other element keeps its representative |
| PointerForest.Repointed | util/unionfind.py:121 | the fancy-indexed assignment: same length, the listed elements point at the target |
| PointerForest.GrownRoot | util/unionfind.py:66-73 | growth appends self-pointing elements and keeps every old element's representative |
| PointerForest.Grown | util/unionfind.py:71-72 | the grown array keeps the old pointers as a prefix, and every new element points at itself |
| PointerForest.ResetRoot | gomcts/godata.py:103-104 | re-pointing `x` at itself moves elements only from `x`'s old class to `x`; every other element keeps its representative |
| PointerForest.MergedClasses | util/unionfind.py:119-121 | the classes a union merges, stated on the elements rather than on the representatives the finds returned: every listed element ends in the target's class |
| UnionFindUtil.UnionFind.constructor | util/unionfind.py:21-41 | a finite limit `n` creates exactly `n` elements, each its own representative; no limit starts empty |
| UnionFindUtil.UnionFind.Length | util/unionfind.py:91-99 | corrected guard, see Findings: `len` is the array length, which equals a finite limit |
| UnionFindUtil.UnionFind.Find | util/unionfind.py:44-79 | corrected guard, see Findings: errors exactly when the element is outside the limit; otherwise returns the representative of the element's slot, grows the array when there is no limit, compresses the chain and changes no representative |
| UnionFindUtil.UnionFind.Grow | util/unionfind.py:71-72 | the array is extended with self-pointing elements up to the requested length, and every representative is kept |
| UnionFindUtil.UnionFind.Chase | util/unionfind.py:74-78 | the recursion returns the representative and leaves the array compressed along the chain |
| UnionFindUtil.UnionFind.SetItem | util/unionfind.py:101-121 | a single integer raises TypeError; otherwise it fails exactly when a find fails, and on success every listed element and the target resolve to the target's old representative while elements of other classes keep theirs |
| UnionFindUtil.UnionFind.FindAll | util/unionfind.py:119-120 | the finds return, in order, the representative of each element, or the first element's error |
| UnionFindUtil.UnionFind.Unite | util/unionfind.py:121 | the index assignment merges exactly the classes of the listed representatives into the target's class |
| UnionFindUtil.Slots | util/unionfind.py:119-120 | the slots the finds read, one per element, and a final length no smaller than the start |
| UnionFindUtil.SlotsErrExtends | util/unionfind.py:119-120 | once a prefix of the elements fails, the whole list fails with that prefix's error |
| UnionFindUtil.SlotsErrPrefix | util/unionfind.py:119-120 | a failing prefix decides the outcome of the whole list |
| UnionFindUtil.LimitOverrunAsWritten | util/unionfind.py:69 | as written, finding the element equal to the limit grows the array past the limit |
| UnionFindUtil.LengthWithinLimit | util/unionfind.py:66-73 | with the corrected guard, a find never grows an array that is at its limit, and succeeds exactly for indices numpy accepts |
| UnionFindGomcts.UnionFind.constructor | gomcts/unionfind.py:6-12 | the live second constructor: a finite limit gives that many self-pointing elements, none gives an empty array |
| UnionFindGomcts.UnionFind.Length | gomcts/unionfind.py:33-34 | `len` is the limit, or 0 without one |
| UnionFindGomcts.UnionFind.Find | gomcts/unionfind.py:15-28 | an index outside the array raises IndexError, which `except KeyError` does not catch, so the array never grows; otherwise it returns the slot's representative and compresses the chain |
| UnionFindGomcts.UnionFind.Chase | gomcts/unionfind.py:23-28 | the recursion returns the representative and compresses the chain |
| UnionFindGomcts.UnionFind.SetItem | gomcts/unionfind.py:36-56 | a single integer raises TypeError; otherwise it fails exactly when an index is outside the array, and on success all listed elements and the target share the target's old representative, other classes unchanged |
| UnionFindGomcts.UnionFind.FindAll | gomcts/unionfind.py:54-55 | the finds return the representative of every element in order, or IndexError |
| UnionFindGomcts.UnionFind.Unite | gomcts/unionfind.py:56 | the index assignment merges exactly the classes of the listed representatives into the target's |
| UnionFindGomcts.UnionFind.Link | unionfind.py:26-27 | `pointers[r2] = r1` on two representatives: `r2`'s class joins `r1`'s and nothing else changes |
| UnionFindGomcts.UnionFind.Reset | gomcts/godata.py:103-104 | `x` becomes its own representative; only elements of `x`'s old class may move, and only to `x`; representatives stay representatives |
| UnionFindGomcts.UnionFind.Idempotent | gomcts/unionfind.py:23-28 | every representative is its own representative |
| UnionFindGomcts.Positions | gomcts/unionfind.py:54-55 | one slot per element |
| UnionFindGomcts.FoundMeans | gomcts/unionfind.py:54-55 | the finds' bookkeeping means every element is in range and each result is the representative of its element |
| UnionFindDraft.UnionFind.constructor | unionfind.py:4-5 | the draft starts with an empty array |
| UnionFindDraft.UnionFind.Length | unionfind.py:23-24 | `len` always raises, because it reads a misspelt attribute |
| UnionFindDraft.UnionFind.Find | unionfind.py:7-18 | an index outside the array raises IndexError and the array never grows; otherwise it returns a self-pointing representative and compresses the chain |
| UnionFindDraft.UnionFind.Chase | unionfind.py:13-17 | the recursion returns the representative and compresses the chain |
| UnionFindDraft.UnionFind.Union | unionfind.py:26-27 | only `repre2`'s pointer changes, to `repre1`, so `repre2`'s class joins `repre1`'s; an index outside the array raises IndexError |
| UnionFindDraft.UnionFind.MultiUnion | unionfind.py:29-32 | an empty iterator raises StopIteration; otherwise every later element inside the array, up to the first outside it, is pointed at the first element, whose class absorbs theirs |
| UnionFindDraft.FirstOutside | unionfind.py:31-32 | the first later element outside the array, before which all lie inside |
| UnionFindDraft.Later | unionfind.py:31-32 | every later element inside the array is among the re-pointed slots |
| Adjacency.NeighboursByCoordinates | go.py:39-73 | for the point at row `r`, column `c`, the neighbours are the points one row up, one down, one column left and one right, in that order, each exactly when it is on the board |
| Adjacency.DiagonalsByCoordinates | go.py:39-73 | the diagonals are up-left, up-right, down-right and down-left, in that order, each exactly when it is on the board |
| Adjacency.RowTests | go.py:40-56 | the tests `pt < size` and `pt >= size * (size - 1)` pick out exactly the top and the bottom row |
| Adjacency.ColumnTests | go.py:58-70 | the tests `pt % size == 0` and `(pt + 1) % size == 0` pick out exactly the left and the right column |
| Adjacency.Coordinates | go.py:39 | row and column recover a point's coordinates, and the point lies in `[0, size²)` |
| Adjacency.AtInjective | go.py:39 | two coordinate pairs on the board name one point only when they are equal |
| Adjacency.AdjacentAt | go.py:71-72 | a point is a neighbour of another exactly when their coordinates differ by one step, and a diagonal exactly when they differ by one in both |
| Adjacency.TablesOnBoard | go.py:71-72 | every listed neighbour and diagonal lies on the board |
| Adjacency.NeighboursAreAdjacent | go.py:71-72 | the tables list exactly the orthogonally adjacent points as neighbours and exactly the diagonally adjacent ones as diagonals |
| Adjacency.NeighboursSymmetric | go.py:71-72 | `q` is a neighbour (diagonal) of `p` exactly when `p` is one of `q` |
| Adjacency.NeighbourCount | go.py:71 | a point has 2 neighbours in a corner, 3 on an edge and 4 inside, with no repeats |
| Adjacency.SameNeighbours | gomcts/godata.py:9-58 | `gomcts/godata.py` builds the same neighbour lists as `go.py` |
| Adjacency.InteriorNeighbours | go.py:39-73 | a point away from every edge has the four neighbours `pt - size`, `pt + size`, `pt - 1`, `pt + 1` |
| Adjacency.NeighboursOfThree | go.py:24-34 | on the 3 × 3 board every neighbour list is the doctest's, e.g. point 4 gives `[1, 7, 3, 5]` |
| Adjacency.DiagonalsOfThree | go.py:24-34 | on the 3 × 3 board every diagonal list is the doctest's, e.g. point 4 gives `[0, 2, 8, 6]` |
| Adjacency.Neighbours | go.py:39-73 | definition of the neighbours `make_boxes` lists; `Adjacency.NeighboursByCoordinates`, `Adjacency.NeighboursSymmetric` and `Adjacency.NeighbourCount` state their meaning |
| Adjacency.Diagonals | go.py:39-73 | definition of the diagonals `make_boxes` lists; `Adjacency.DiagonalsByCoordinates` states their meaning |
| Adjacency.GodataNeighbours | gomcts/godata.py:9-58 | definition of `gomcts/godata.py`'s neighbour lists; `Adjacency.SameNeighbours` states they agree with `go.py`'s |
| BoardModel.GroupOf | go.py:229-243 | the group a point resolves to is a top group, one that `_pointers` does not map further |
| BoardModel.Found | go.py:229-243 | `_find` keeps the keys and every point's group |
| BoardModel.FoundKeeps | go.py:229-243 | a find keeps the board well formed, every colour and every liberty set |
| BoardModel.WrittenEffect | go.py:162-175 | writing a point gives it the new colour and changes no other point's colour or group |
| BoardModel.PlacedColours | go.py:220-226 | one step of `change_colour` gives `pt` the colour `c` and keeps every other point's colour and group |
| BoardModel.PlacedLiberties | go.py:202-212 | a stone removes `pt` from the liberties of every neighbouring group, and reopening `pt` adds it to every neighbouring stone group; no other liberty set changes, and an off-board `pt` changes none |
| BoardModel.PlacedAround | go.py:202-212 | exactly the groups around an on-board point have their liberties touched |
| BoardModel.NeighbourLibs | go.py:202-212 | `update_neigh_libs` over a neighbour list keeps every point linked to a group |
| BoardModel.Written | go.py:162-175 | writing a point makes it a key, adds no other key, and keeps every point linked to a group |
| BoardModel.Attempted | go.py:220-226 | `change_colour` writes every point, or those up to and including the first off-board one |
| BoardModel.PlacedAllColours | go.py:214-226 | after `change_colour(pts, c)` every point it wrote has colour `c` and every other point keeps its colour |
| BoardModel.PlacedAll | go.py:214-226 | the loop of `change_colour` keeps the board well formed |
| BoardModel.PlacedPair | go.py:214-226 | `change_colour([a, b], c)` on two board points gives both colour `c` and keeps every other colour |
| BoardModel.InitialOpen | go.py:133-143 | a new board is well formed, has a key for exactly the board points, and every point is open |
| BoardModel.MergedEffect | go.py:274-276 | a merge moves exactly the points of one group into the other, keeps every colour, and gives the kept group both liberty sets |
| BoardModel.MergedKeeps | go.py:274-276 | a merge keeps every colour, and both groups' points end in the kept group with the union of their liberties |
| BoardModel.RecordedKeeps | go.py:245-254 | `_find_liberties` on a stone keeps every colour and the group's liberties |
| BoardModel.NeighbourLibsFrame | go.py:202-212 | `update_neigh_libs` changes no colour, no group link and no point's group |
| BoardModel.NeighbourLibsPointers | go.py:207-208 | `update_neigh_libs` points each neighbour directly at its group, and no other point changes |
| BoardModel.NeighbourLibsLiberties | go.py:207-212 | `update_neigh_libs` touches the liberties of exactly the neighbouring groups |
| BoardModel.UnionAsWrittenNeverMerges | go.py:272 | as written, `_union` of two distinct groups of one colour raises TypeError, so nothing ever merges |
| BoardModel.ReopenAsWrittenRaises | go.py:210 | as written, reopening a point beside a stone group raises TypeError; the corrected update adds the point to the group's liberties |
| BoardModel.ClosedHoldsPaths | go.py:279-293 | a region closed under same-coloured neighbours holds every point a same-coloured path reaches from inside it |
| BoardModel.CrawlComplete | go.py:279-293 | a finished crawl's liberties hold every open neighbour of the start's whole same-coloured region |
| BoardModel.CrawlMissesStart | go.py:279-293 | a finished crawl that never saw its start shows that the start has no neighbour of its own colour |
| BoardModel.OpenNeighboursCounted | go.py:295-315 | a point with three open neighbours is never reported with fewer than three liberties: a short result would have to hold all three |
| BoardModel.Sound | go.py:245-254 | definition of "every recorded liberty set holds only open points next to a stone of its group"; `BoardModel.InitialSound`, `BoardModel.PlacedSound` and `BoardModel.MergedSound` state where it holds |
| BoardModel.GroupLiberties | go.py:295-298 | definition of a group's liberties on the board: the open points next to one of its stones; `GoBoard.Board.LibertyLb` states its bound against it |
| BoardModel.InitialSound | go.py:133-143 | a new board is sound |
| BoardModel.PlacedSound | go.py:202-226 | colouring an open point with a stone keeps the board sound: the point leaves every liberty set and the stone's own group records nothing |
| BoardModel.PlacedAllSound | go.py:214-226 | `change_colour` with a stone colour over distinct open points keeps the board sound |
| BoardModel.MergedSound | go.py:274-276 | the merge keeps the board sound: the merged group adjoins every point either group adjoined |
| BoardModel.MergedJoins | go.py:274-276 | after the merge, both stones are in one group and the first stone's group keeps all its points |
| BoardModel.RecordedRegroups | go.py:229-254 | `_find` and `_find_liberties` keep every group's points and keep the board sound |
| BoardModel.AddedRegroups | go.py:310-311 | adding a liberty of the group to its stored set keeps the board sound |
| BoardModel.FoundTwice | go.py:268 | the two finds of `_union` keep every group's points and keep the board sound |
| BoardModel.UnionRegroups | go.py:268-276 | `_union` of two stones of one colour in different groups puts both in one group, keeps the first stone's group, and keeps the board sound, whichever way the merge goes |
| BoardModel.RecordedBound | go.py:315 | the final `_find_liberties` on a sound board returns only liberties of the group, and a region inside the group stays inside it |
| BoardModel.ExactWhenReached | go.py:297-298 | when every stone of the group is reached by a same-coloured path from the start, a set holding the region's open neighbours and only the group's liberties is exactly the group's liberties |
| BoardModel.CrawlConcluded | go.py:279-315 | a finished crawl's liberties hold every open neighbour of the start's region, and that region lies inside the start's group |
| BoardModel.PairLeavesThreeOpen | go.py:301-304 | two stones side by side away from the edges leave the first with three open neighbours: the doctest's position |
| BoardModel.Placed | go.py:187-227 | definition of the state `change_colour` leaves; `BoardModel.PlacedColours`, `BoardModel.PlacedLiberties` and `BoardModel.PlacedAround` state its effect |
| BoardModel.Merged | go.py:274-276 | definition of a merge; `BoardModel.MergedEffect` and `BoardModel.MergedKeeps` state its effect |
| BoardModel.UnionAsWritten | go.py:256-277 | definition of `_union` as written; `BoardModel.UnionAsWrittenNeverMerges` states that it never merges |
| BoardModel.TouchAsWritten | go.py:202-212 | definition of `update_neigh_libs` as written; `BoardModel.ReopenAsWrittenRaises` states that reopening beside a group raises |
| GoBoard.Board.constructor | go.py:133-143 | a new board maps every point to `OPEN_POINT` and records no liberties |
| GoBoard.Board.Get | go.py:152-160 | `self[pt]` succeeds exactly for a point key |
| GoBoard.Board.Colour | go.py:177-185 | `colour(pt)` is the colour of the point's group, and a KeyError for a point that is not a key |
| GoBoard.Board.SetItem | go.py:162-175 | storing anything but a group raises BoardError and changes nothing; a group is stored at the point |
| GoBoard.Board.Find | go.py:229-243 | `_find` returns the point's group and compresses its pointer; a point that is not a key raises |
| GoBoard.Board.UpdateNeighbourLibs | go.py:202-212 | an off-board point raises KeyError and changes nothing; otherwise the neighbouring groups' liberties are updated as `BoardModel.NeighbourLibs` describes |
| GoBoard.Board.TouchNeighbour | go.py:207-212 | one neighbour is found and its group's liberties touched |
| GoBoard.Board.Place | go.py:220-226 | one point is coloured, raising KeyError exactly when it is off the board |
| GoBoard.Board.ChangeColour | go.py:187-227 | an unrecognised colour raises BoardError before anything changes; otherwise the points are coloured in turn and KeyError is raised exactly when one is off the board |
| GoBoard.Board.PlaceAll | go.py:220-226 | the loop colours the points in turn and fails exactly when one is off the board |
| GoBoard.Board.PlaceNext | go.py:220-226 | one turn of the loop either continues `BoardModel.PlacedAll` or ends it with KeyError at an off-board point |
| GoBoard.Board.FindLiberties | go.py:245-254 | returns the group's liberty set, inserting an empty one when missing; an open point raises BoardError, and a point that is not a key raises |
| GoBoard.Board.Union | go.py:256-277 | the same group or different colours raise BoardError; otherwise the group with fewer liberties is merged into the other, which takes both liberty sets |
| GoBoard.Board.Merge | go.py:274-276 | the merge of two top groups of one colour, as `BoardModel.MergedEffect` describes |
| GoBoard.Board.AddLiberty | go.py:310-311 | the set `_find_liberties` returns is the stored one, so the crawled point joins the group's liberties; the group keeps its points, and the board stays sound when the point is a liberty of the group |
| GoBoard.Board.Visit | go.py:306-313 | one crawled point: stop once the group has more than two liberties, otherwise record an open point or union a same-coloured stone; liberties only grow, the group keeps its points and takes a same-coloured stone, and a sound board stays sound when the point adjoins the group |
| GoBoard.Board.Respond | go.py:309-313 | an open point joins the liberties, a same-coloured stone is unioned into the group, an opposing stone is passed over; a sound board stays sound when the point adjoins the group |
| GoBoard.Board.JoinStone | go.py:312-313 | unioning a stone of the group's colour puts it in the group and keeps the group's points and a sound board; as written, a stone already in the group raises 'Cannot union same group' |
| GoBoard.Board.Crawl | go.py:279-315 | a point that is not a key, or is off the board, raises KeyError, and an open point raises BoardError; a result of fewer than three liberties holds every open neighbour of the group's region, and that region lies inside the group; on a sound board the result holds only liberties of the group, and the board stays sound |
| GoBoard.Board.Search | go.py:284-293 | the crawl's outer loop: KeyError for a start off the board, otherwise it stops with more than two liberties or ends with every point of the region searched |
| GoBoard.Board.Conclude | go.py:315 | the value returned after the crawl is the group's liberty set; with fewer than three points it holds every open neighbour of a region that lies inside the group; on a sound board it holds only liberties of the group |
| GoBoard.Board.SearchPoint | go.py:287-293 | one popped point of the crawl keeps the crawl's invariant: every seen open point is a liberty, and every seen stone of the crawl colour is queued or searched |
| GoBoard.Board.YieldNeighbour | go.py:290-293 | one yielded neighbour keeps the crawl's invariant |
| GoBoard.Board.LibertyLbAsWritten | go.py:295-315 | as written, a result of fewer than three liberties only comes back for a stone with no neighbour of its own colour; any other crawl that reaches the group again raises SameGroup (this presupposes distinct group ids and the go.py:272 fix, see Findings); on a sound board the result holds only liberties of the group, so its size is a lower bound |
| GoBoard.Board.LibertyLb | go.py:295-315 | corrected: any stone gets its group's liberty set, which holds every open neighbour of its region when it has fewer than three points, and has more than two when three neighbours are open; on a sound board it holds only liberties of the group, so its size is a lower bound on theirs, and the board stays sound |
| GoBoard.NewBoard | go.py:133-143 | a size outside 9, 11, ..., 25 raises KeyError; otherwise the board starts all open |
| GoBoard.LibertyLbDoctest | go.py:301-304 | black stones at 200 and 201 on a new 19 × 19 board report more than two liberties for 200 |
| GoPosition.Position.constructor | gomcts/godata.py:77-88 | a new position: every point its own representative, no groups, no ko, black to play |
| GoPosition.Position.GetItem | gomcts/godata.py:90-105 | `self[pt]` raises IndexError outside `[-size², size²)`, as numpy does, and otherwise reads the record of the group of the point numpy indexes (`size² + pt` for a negative point), or open; an empty point from 0 up still pointing at a captured group is made its own representative |
| GoPosition.Position.NeighGroups | gomcts/godata.py:172-183 | yields the representative and the record of every neighbour, in table order; a size with no table raises KeyError |
| GoPosition.Position.YieldNext | gomcts/godata.py:181-183 | one neighbour's pair |
| GoPosition.Position.MergeFriends | gomcts/godata.py:149-155 | every friendly group is joined to `pt`, counted once, and its record deleted |
| GoPosition.Position.MergeLoop | gomcts/godata.py:149-155 | the merge loop keeps its state one entry at a time |
| GoPosition.Position.MergeOne | gomcts/godata.py:150-155 | an entry already joined to `pt` is skipped; otherwise it is joined |
| GoPosition.Position.MergeAt | gomcts/godata.py:149-155 | one pass of the merge loop takes the loop state for the first `k` entries to that for `k + 1` |
| GoPosition.Position.JoinFriend | gomcts/godata.py:153-155 | the friendly group's class joins `pt`'s and its record is deleted |
| GoPosition.Position.Capture | gomcts/godata.py:157-161 | every opposing group in atari is counted and deleted; a group listed twice raises KeyError after the deletions before it |
| GoPosition.Position.CaptureOne | gomcts/godata.py:158-161 | one dead group's stones are counted and its record deleted, or KeyError once it is gone |
| GoPosition.Position.CaptureAt | gomcts/godata.py:157-161 | one pass of the capture loop takes the loop state for the first `k` dead groups to that for `k + 1` |
| GoPosition.Position.Record | gomcts/godata.py:147-156 | the merged record at `pt` holds the new stone and every friendly group's stones, each group once |
| GoPosition.Position.SetRecord | gomcts/godata.py:156 | the record is stored at `pt` |
| GoPosition.Position.Commit | gomcts/godata.py:147-168 | friendly groups merged into `pt`, dead groups deleted, ko set to the captured stone when exactly one is captured, and the turn passes |
| GoPosition.Position.Play | gomcts/godata.py:133-168 | on an empty point: the scan, then self-capture refused with nothing changed, otherwise the commit |
| GoPosition.Position.Move | gomcts/godata.py:107-182 | checks in order ko, numpy's index range, occupied point (a negative point read from the end), colour (0 meaning the next player) and, at the neighbour table, a negative point (KeyError), changing nothing when one fails; then plays |
| GoPosition.ScanNeighbours | gomcts/godata.py:133-143 | the scan counts open neighbours plus friendly liberties minus one, and lists friendly groups and opposing groups in atari |
| GoPosition.Tallied | gomcts/godata.py:133-143 | the scan over a list of neighbour pairs, as a function of that list |
| GoPosition.TalliedMembers | gomcts/godata.py:133-143 | the scan lists exactly the friendly neighbours' groups as players and exactly the opposing ones in atari as dead |
| GoPosition.TalliedGroups | gomcts/godata.py:133-143 | the groups the scan lists are groups of the position: friendly ones of the colour played, dead ones of another colour and in atari |
| GoPosition.FriendsAreNotDead | gomcts/godata.py:147-161 | the friendly and the dead groups of a scan are never the same group |
| GoPosition.YieldedTallied | gomcts/godata.py:172-183 | the pairs `neigh_groups` yields give the scan of the canonical neighbour pairs, whose groups belong to the position |
| GoPosition.SelfCaptureMeans | gomcts/godata.py:144-145 | self capture is reported exactly when no neighbour is open, every friendly group is in atari and no opposing one is |
| GoPosition.TalliedNonNegative | gomcts/godata.py:133-143 | the liberty count of the scan is never negative |
| GoPosition.AllOpenTallied | gomcts/godata.py:133-143 | with only open neighbours the scan counts one liberty each and lists no group |
| GoPosition.SameReadings | gomcts/godata.py:99-105 | reads that only reset pointers of dead groups change no point's record |
| GoPosition.Distinct | gomcts/godata.py:149-155 | the listed groups, each once, in order of first appearance |
| GoPosition.SizeSumBound | gomcts/godata.py:154 | a sum over groups of at least one stone is at least the number of groups |
| GoPosition.FirstRepeat | gomcts/godata.py:157-161 | the first dead group listed twice, before which none repeats |
| GoPosition.FirstRepeatMeans | gomcts/godata.py:157-161 | the first repeat is past the end exactly when no dead group is listed twice |
| GoPosition.CommitReadings | gomcts/godata.py:147-161 | after the commit each point reads its old record, the merged record, or nothing when its group was captured |
| GoPosition.PlayedBenign | gomcts/godata.py:99-105 | a move judged after record-keeping reads is the same move judged before them |
| GoPosition.PlayedStone | gomcts/godata.py:147-168 | a move that captures nothing passes, clears the ko, passes the turn and records the merged group at `pt` |
| GoPosition.FirstStone | gomcts/godata.py:116-118 | the first doctest stone passes the checks and sees four open points |
| GoPosition.SecondStone | gomcts/godata.py:119-121 | the second doctest stone sees three open points and the first stone's group |
| GoPosition.ScanOfSecondStone | gomcts/godata.py:119-121 | the second stone's scan counts 6 liberties and lists the first stone's group |
| GoPosition.MoveDoctest | gomcts/godata.py:116-121 | black at 200 reads `(1, 1, 4)`, then black at 201 reads `(1, 2, 6)` |
| GoPosition.GetItemDoctest | gomcts/godata.py:95-97 | point 200 of an empty position reads open |
| GoPosition.NeighGroupsDoctest | gomcts/godata.py:178-180 | the first neighbour of 200 on an empty position is the open point 181 |
| GoPosition.NegativePoints | gomcts/godata.py:123-131 | a negative point passes the range check: `-1` on an empty board raises KeyError at the neighbour table, on a stone at 360 it is refused as occupied, and `-362` raises IndexError |
| GoPosition.Checked | gomcts/godata.py:123-131 | definition of the checks of `move` before its scan, including the neighbour-table lookup at line 182; `GoPosition.Position.Move` is stated through it |
| GoPosition.Merged | gomcts/godata.py:147-156 | definition of the merged record; `GoPosition.Position.Record` states what it holds |
| TreeNodes.Forest.constructor | src/util/tree.py:24-40 | an empty arena of nodes |
| TreeNodes.Forest.Add | src/util/tree.py:42-53 | anything but exactly a `Node` raises TypeError and changes nothing; a `Node` gets this node as parent and becomes its last child |
| TreeNodes.Forest.Link | src/util/tree.py:52-53 | the child's parent is set and it is appended to the children |
| TreeNodes.Forest.NewNode | src/util/tree.py:24-40 | the new node adds its children in order, takes the keyword attributes and has no parent; a child that is not exactly a `Node` raises TypeError after the ones before it were adopted |
| TreeNodes.Forest.AddChildren | src/util/tree.py:33-35 | the children are added in order, up to the first that raises |
| TreeNodes.Adopted | src/util/tree.py:33-35 | the parents after adding the first `k` children |
| TreeNodes.AdoptedMeans | src/util/tree.py:33-35 | the adopted nodes, and only they, have the new node as parent |
| TreeNodes.FirstForeign | src/util/tree.py:48-51 | the first child that is not exactly a `Node`, before which all are |
| TreeNodes.AllPlain | src/util/tree.py:48-51 | when every child is exactly a `Node`, none raises |
| TreeNodes.NewNodeFamily | src/util/tree.py:24-40 | a node built from `Node` children is the parent of exactly those children |
| TreeNodes.NodeDoctest | src/util/tree.py:8-22 | the doctest's family: grandmother, daughter, granddaughter |
| TreeNodes.Parent | src/util/tree.py:8-22 | one parent of the doctest, with its two children and its attribute |
| Mcts.SearchTree.constructor | mcts.py:19-27 | a tree of one root with no simulation |
| Mcts.SearchTree.UpdateParent | mcts.py:59-70 | `sims` rises by 1 and `wins` by the value at every strict ancestor, stopping at the root |
| Mcts.SearchTree.RandomSim | mcts.py:49-57 | one more simulation and `termValue` more wins at the node and every ancestor; every count stays the sum of its own playouts and its children's counts, and values in [-1, 1] keep \|wins\| ≤ sims |
| Mcts.SearchTree.Count | mcts.py:53-57 | the node and its ancestors are counted |
| Mcts.SearchTree.Spawn | mcts.py:45 | a new root with no simulation |
| Mcts.SearchTree.Adopt | mcts.py:46 | the new node becomes the last child of its parent |
| Mcts.SearchTree.NewChildAsWritten | mcts.py:38-47 | as written, `add` refuses the `NodeMCTS` with TypeError: the child stays a root and no count changes |
| Mcts.SearchTree.NewChild | mcts.py:38-47 | corrected: the new child is the last child of node `i`, has one simulation with the playout value, and the value is counted up its lineage |
| Mcts.SearchTree.Attach | mcts.py:45-46 | the new child's lineage is itself followed by its parent's |
| Mcts.SearchTree.BestChild | mcts.py:72-87 | with c = 0, returns the first child with the highest `colour * wins / sims`; no children, an unsimulated child or a parent with no simulations raise |
| Mcts.SearchTree.BestChildRaises | mcts.py:72-87 | in a backed-up tree `bestchild` raises exactly for a node with no children or with an unsimulated child |
| Mcts.Expanded | tests/test_mcts.py:59-84 | a root expanded `k` times has those children in order, each simulated once, and its `sims` and `wins` are the sums of its children's |
| Mcts.Grow | tests/test_mcts.py:59-84 | one round of that expansion |
| Mcts.Ancestors | mcts.py:59-70 | the nodes `update_parent` walks through |
| Mcts.Lineage | mcts.py:49-57 | the node and its ancestors |
| Mcts.ClimbBounded | mcts.py:49-70 | counting a value in [-1, 1] keeps every node's wins within ± its simulations |
| Mcts.SumAtLeast | tests/test_mcts.py:81-82 | with no negative counts, a sum over the children is at least each child's count |
| Mcts.FirstUnsimulated | mcts.py:80-85 | the first child without a simulation, before which all have one |
| Mcts.ArgMax | mcts.py:86-87 | the first child with the highest score among the first `k` |
| Mcts.Shift | mcts.py:59-70 | adding the value at one node moves the deficit to its parent |
| Mcts.Climb | mcts.py:59-70 | the walk to the root restores every count |
| Mcts.Simulated | mcts.py:49-70 | one playout counted along the lineage keeps every count backed up |
| Mcts.Alone | mcts.py:19-27 | a single root is a backed-up tree |
| Mcts.SpawnBacked | mcts.py:45 | a new root keeps every count backed up |
| Mcts.SpawnFamily | mcts.py:45 | a new root keeps the parent and child links consistent |
| Mcts.AdoptBacked | mcts.py:46 | adopting an unsimulated root keeps every count backed up |
| Mcts.AdoptFamily | mcts.py:46 | adopting a root keeps the parent and child links consistent |
| Mcts.Score | mcts.py:80-85 | definition of `conf_score` with `c = 0`; `Mcts.ArgMax` and `Mcts.SearchTree.BestChild` state which child maximises it |
| GoObjects.GoPosition.constructor | pro_heat/go_objects.py:32-49 | a zero board of the given size storing komi, last move and ko lock |
| GoObjects.GoPosition.AddMove | pro_heat/go_objects.py:58-77 | the player value is added to the targeted cell and no other cell changes; a cell off the board raises IndexError and changes nothing |
| GoObjects.GoPosition.AddMoves | pro_heat/go_objects.py:51-55 | the moves are added in order, up to the first one off the board |
| GoObjects.Make | pro_heat/go_objects.py:32-55 | a negative size raises; `moves=None` leaves the board empty; otherwise the moves are added in order, each cell holding the sum of the moves that target it |
| GoObjects.Doctests | pro_heat/go_objects.py:38-41 | a new board is empty, and black at (4, 4) puts 1 at `[3][3]` |
| GoObjects.Axis | pro_heat/go_objects.py:77 | numpy reads `v - 1` for coordinates from `1 - size` to `size`, wrapping negative indices |
| GoObjects.FirstOff | pro_heat/go_objects.py:51-55 | the first move off the board, before which all are on it |
| GoObjects.TargetOnBoard | pro_heat/go_objects.py:64-67 | a 1-based move lands at `(x - 1, y - 1)` |
| GoObjects.ZeroWraps | pro_heat/go_objects.py:77 | a coordinate of 0 wraps to the last row and column |
| GoObjects.TallyConcat | pro_heat/go_objects.py:51-55 | the moves add up independently of how the list is cut |
| GoObjects.TallyRotate | pro_heat/go_objects.py:51-55 | the order of the moves does not matter |
| GoObjects.SameMoveTwice | pro_heat/go_objects.py:68-77 | no legality check: the same move twice puts twice its value on the cell |
| GoObjects.Target | pro_heat/go_objects.py:77 | definition of the cell `add_move` changes, with numpy's negative indices; `GoObjects.TargetOnBoard`, `GoObjects.FirstOff` and `GoObjects.ZeroWraps` state where it lands |
| GoObjects.Tally | pro_heat/go_objects.py:51-55 | definition of the sum the moves leave at one cell; `GoObjects.TallyConcat`, `GoObjects.TallyRotate` and `GoObjects.SameMoveTwice` state its properties |
| Observation.Convert | src/openai_go/positions.py:5-20 | each pixel is 1 · black + 255 · white + 127 · board, read from axis 1, giving one image per board; an axis 1 that is neither 1 nor 3 raises |
| Observation.SingleIsBatchOfOne | src/openai_go/positions.py:15-16 | a single observation is converted as a batch of one |
| Observation.OneHot | src/openai_go/positions.py:8-10 | the one-hot planes of a board in black, white, board order |
| Observation.OneHotRoundTrip | src/openai_go/positions.py:8-10 | one-hot black, white and empty points map to 1, 255 and 127, so each point's colour can be read back |
| Observation.ChannelsLastRaises | src/openai_go/positions.py:12-13 | the docstring's channels-last layout cannot be converted on a 19 × 19 board |
| Observation.Pixel | src/openai_go/positions.py:18-20 | definition of one output pixel; `Observation.Convert` states that every pixel of the result is this value |
| SgfNodes.FirstBranch | src/sgf.py:96-102 | the first sublist, before which all items are strings |
| SgfNodes.Texts | src/sgf.py:96-98 | the strings of a list without sublists, in order |
| SgfNodes.MainBranchSplits | src/sgf.py:85-102 | the main branch is the strings before the first sublist, then that sublist's main branch, ignoring everything later |
| SgfNodes.MainBranchIsPrefix | src/sgf.py:85-102 | the main branch is a prefix of all strings of the record in order |
| SgfNodes.FirstMoveAt | src/sgf.py:139 | where the leftmost move match starts, with none before it |
| SgfNodes.Coord | src/sgf.py:143-145 | a coordinate letter gives a value from 1 to 19 |
| SgfNodes.ReadMove | src/sgf.py:138-146 | the first move match gives player ±1 and coordinates in 1..19; there is no move exactly when nothing matches |
| SgfNodes.Letter | src/sgf.py:143-145 | the letter of a coordinate reads back as that coordinate |
| SgfNodes.ReadMoveNode | src/sgf.py:118-146 | reading the node written for a move gives the move back |
| SgfNodes.MoveNodeOfRead | src/sgf.py:118-146 | writing a read move gives back the matched text |
| SgfNodes.NodeToMove | sgf/read.py:96-123 | a move of the SGF grid, or ValueError with the file's message exactly when nothing matches |
| SgfNodes.PointOfInverse | src/sgf.py:149-158 | a move on the board gives a point in `[0, size²)` from which column and row are recovered |
| SgfNodes.Close | src/sgf.py:29 | where the lazy `.+?` stops: the first `]` with no newline before it |
| SgfNodes.InfoAt | src/sgf.py:29 | a property match: a one- or two-letter upper-case name and a non-empty value in brackets |
| SgfNodes.FirstInfoAt | src/sgf.py:170 | where the leftmost property match starts, with none before it |
| SgfNodes.Info | src/sgf.py:161-174 | the name and value of the leftmost property, or ValueError exactly when there is none |
| SgfNodes.InfoOfProperty | src/sgf.py:161-174 | a property written `name[value]` reads back as that name and value |
| SgfNodes.KindOf | src/sgf.py:216-233 | a node is a move exactly when it matches a move, fails exactly when it is neither a move nor a property, and is otherwise non-blank information or skipped |
| SgfNodes.MainBranch | src/sgf.py:85-102 | definition of what `main_branch` yields; its shape is stated by `SgfNodes.MainBranchSplits` and `SgfNodes.MainBranchIsPrefix` |
| SgfNodes.Preorder | src/sgf.py:85-102 | reference definition, every string of the record in order, against which `SgfNodes.MainBranchIsPrefix` measures the main branch |
| SgfNodes.MoveAt | src/sgf.py:28 | definition of a match of `[BW]\[[a-s][a-s]\]` at one position; `SgfNodes.FirstMoveAt` and `SgfNodes.ReadMove` state what the search finds |
| SgfNodes.ValueAt | src/sgf.py:29 | the group `(.+?)` of `\[(.+?)\]` with `[` at `b`: present exactly when a `]` closes it on the same line; then at least one character, no newline in it, no `]` after its first character, and a `]` right after it |
| SgfNodes.PointOf | src/sgf.py:149-158 | definition of `intmove`'s point; `SgfNodes.PointOfInverse` states that it is in range and invertible |
| SrcSgf.NodeToGoMove | src/sgf.py:118-146 | a move of the SGF grid, or ValueError exactly when nothing matches |
| SrcSgf.IntMoveOnBoard | src/sgf.py:149-158 | a move node gives a point in `[0, 361)`, from which the point and the player give the move back |
| SrcSgf.SetupFromMeans | src/sgf.py:223-229 | the setup entries fail exactly when one is neither `tt` nor a point, and otherwise append the point of every entry but `tt`, in order |
| SrcSgf.SetupFromShift | src/sgf.py:223-229 | pushing onto a longer list gives the same result behind it |
| SrcSgf.StoreParserNodes | src/sgf.py:216-233 | the node loop computes the stored details of its nodes, or the first exception |
| SrcSgf.PushSetup | src/sgf.py:224-229 | the inner loop over setup entries, as `SrcSgf.SetupFromMeans` describes |
| SrcSgf.FailsMeans | src/sgf.py:216-233 | a node fails exactly when it is neither a move nor a property, or is setup with a bad entry |
| SrcSgf.SetupMeans | src/sgf.py:223-229 | an `AB`/`AW` node contributes the points of its entries but `tt`, in order |
| SrcSgf.StepMeans | src/sgf.py:216-233 | one node appends its move, its setup points, and writes its key, or fails |
| SrcSgf.StoredFails | src/sgf.py:216-233 | the loop fails exactly when one of its nodes does |
| SrcSgf.StoredLists | src/sgf.py:216-229 | the moves are the move nodes in order and the setup the points of the `AB`/`AW` entries in order |
| SrcSgf.StoredKeeps | src/sgf.py:230-233 | a key no node writes keeps its value |
| SrcSgf.StoredLastWrite | src/sgf.py:230-233 | each piece of information is stored under its key, `C` plus the number of moves so far for a comment, unless a later node writes that key |
| SrcSgf.NodeToGoMoveDoctest | src/sgf.py:126-129 | `B[dc]` reads `(1, 4, 3)` and `W[pq]` reads `(-1, 16, 17)` |
| SrcSgf.NodeToGoMoveRaises | src/sgf.py:140-141 | `error` raises ValueError with the file's message |
| SrcSgf.IntMoveDoctest | src/sgf.py:155-156 | `(-1, 16, 17)` is point 319 for white |
| SrcSgf.InfoDoctest | src/sgf.py:166-167 | `SZ[19]` reads `('SZ', '19')` |
| SrcSgf.MainBranchDoctest | src/sgf.py:92-94 | the doctest's record gives `SZ[19]`, `B[qd]`, `W[dd]`, `B[oc]` |
| SrcSgf.MainBranchNested | tests/test_sgf.py:49-63 | the nested branching record's main branch is its first five nodes, then `B[pd]` and `W[pp]` |
| SrcSgf.IntMove | src/sgf.py:149-158 | definition of `intmove`; `SrcSgf.IntMoveOnBoard` states that it gives the move back |
| SrcSgf.SetupFrom | src/sgf.py:223-229 | definition of the setup loop; `SrcSgf.SetupFromMeans` states what it appends and when it fails |
| SrcSgf.Classify | src/sgf.py:216-233 | definition of the loop's view of one node; `SrcSgf.FailsMeans` and `SrcSgf.SetupMeans` state when it fails and what setup it gives |
| SrcSgf.Step | src/sgf.py:216-233 | definition of one pass of the node loop; `SrcSgf.StepMeans` states its effect |
| SrcSgf.Stored | src/sgf.py:216-233 | definition of the loop over a node list; `SrcSgf.StoredLists`, `SrcSgf.StoredFails`, `SrcSgf.StoredKeeps` and `SrcSgf.StoredLastWrite` state its results |
| SgfRead.ReadNodes | sgf/read.py:249-263 | the node loop of `create_pro_hdf5` computes the game of its nodes, or the first exception |
| SgfRead.ReadSplit | sgf/read.py:249-263 | the loop over two stretches is the loop over the first continued over the second |
| SgfRead.BadSizeRaises | sgf/read.py:251 | once a size that is not an integer is stored, the next node raises whatever it is |
| SgfRead.ReadFixedSize | sgf/read.py:249-263 | while the size stays `n`, the loop does what `create_sgf_hdf5`'s loop does, with each move replaced by its point |
| SgfRead.IntMoveDoctest | sgf/read.py:126-135 | `(16, 17)` is point 319 |
| SgfRead.NodeToGoMoveDoctest | sgf/read.py:96-123 | `B[dc]` and `W[pq]` read as in the doctest, and `error` raises |
| SgfRead.SizeInForce | sgf/read.py:250-253 | definition of the size read at the top of each pass; `SgfRead.BadSizeRaises` states the failure it causes |
| SgfRead.Step | sgf/read.py:249-263 | definition of one pass of the node loop; `SgfRead.ReadFixedSize` and `SgfRead.BadSizeRaises` state its effect |
| SgfRead.Read | sgf/read.py:249-263 | definition of the loop over a node list; `SgfRead.ReadSplit`, `SgfRead.ReadFixedSize` and `SgfRead.BadSizeRaises` state its results |
| ProHeatSgf.SgfMainBranch | pro_heat/sgf.py:75-94 | the returned list is the main branch |
| ProHeatSgf.CollectNodes | pro_heat/sgf.py:233-242 | the node loop computes the game of its nodes, or the first exception |
| ProHeatSgf.GroupOf | pro_heat/sgf.py:243-253 | a game is filed under its `SZ` value, `19` when it has none; a size with no group raises |
| ProHeatSgf.CollectedFails | pro_heat/sgf.py:233-242 | the loop raises exactly when a node is neither a move nor a property, with the first such node's exception |
| ProHeatSgf.CollectedMoves | pro_heat/sgf.py:233-242 | the moves are those of the move nodes, in order |
| ProHeatSgf.CollectedKeys | pro_heat/sgf.py:233-242 | the information is stored under exactly the keys of the information nodes, comments tied to the moves before them |
| ProHeatSgf.NodeToMoveDoctest | pro_heat/sgf.py:97-123 | `B[dc]` and `W[pq]` read as in the doctest |
| ProHeatSgf.SgfInfoDoctest | pro_heat/sgf.py:126-139 | `SZ[19]` reads `('SZ', '19')` |
| ProHeatSgf.Step | pro_heat/sgf.py:233-242 | definition of one pass of the node loop; `ProHeatSgf.CollectedMoves` and `ProHeatSgf.CollectedKeys` state its effect |
| ProHeatSgf.Collected | pro_heat/sgf.py:233-242 | definition of the loop over a node list; `ProHeatSgf.CollectedMoves`, `ProHeatSgf.CollectedKeys` and `ProHeatSgf.CollectedFails` state its results |
| SgfDraft.NonBlank | sgf.py:62-63 | no `''` is left, and nothing new appears |
| SgfDraft.RemoveBlanks | sgf.py:62-63 | the removal loop gives the list without its blanks |
| SgfDraft.ReadChunks | sgf.py:53-64 | `branchreader` on a list of chunks |
| SgfDraft.BranchReader | sgf.py:42-64 | `branchreader` on a record: newlines dropped, split at `(` |
| SgfDraft.BranchesFails | sgf.py:53-60 | `branchreader` raises IndexError exactly when no chunk is left to read, that is when the last chunk is empty |
| SgfDraft.BranchReaderFails | sgf.py:48-60 | on a record it raises exactly when the record without newlines is empty or ends with `(` |
| SgfDraft.BranchesNoBlank | sgf.py:62-63 | no `''` remains at any nesting level |
| SgfDraft.LeadingEmptySkipped | sgf.py:55-56 | a leading empty chunk is skipped |
| SgfDraft.BranchesLinear | sgf.py:53-60 | each chunk after the first is the last element of the one before, so the record is read as its main branch |
| SgfDraft.BranchesPreorder | sgf.py:48-63 | every non-empty node of every chunk is kept, in order, and none is invented |
| SgfDraft.IndexOf | sgf.py:18-26 | a letter gives an index below 19 |
| SgfDraft.FirstProperty | sgf.py:77 | the first property match is at least four characters long |
| SgfDraft.NodeToBoard | sgf.py:69-86 | no property gives the zero board; otherwise KeyError exactly when the player or a letter is unknown, naming the first unknown character |
| SgfDraft.NodeToBoardOfMove | sgf.py:69-86 | a move node draws black 1 or white -1 at its row and column, counted from 0 |
| SgfDraft.Boards | sgf.py:89-100 | one board more than there are nodes |
| SgfDraft.NodelistToBoardlist | sgf.py:89-100 | the loop computes the running boards |
| SgfDraft.BoardsStep | sgf.py:95-99 | each node adds the previous board plus its own |
| SgfDraft.BoardsStop | sgf.py:95-99 | a node that raises ends the list with its error |
| SgfDraft.FirstBad | sgf.py:95-99 | the first node that raises, before which none does |
| SgfDraft.BoardsFail | sgf.py:89-100 | the list raises exactly when some node does, with the first such node's error |
| SgfDraft.BoardsTally | sgf.py:89-100 | the `k`-th board holds at each cell the sum of what the first `k` nodes drew there |
| SgfDraft.NodeToBoardDoctest | unittests/sgf_unittests.py:26-28 | `B[dd]` puts 1 at `[3][3]` and `W[sa]` puts -1 at `[0][18]` |
| SgfDraft.Branches | sgf.py:50-64 | definition of `branchreader` on chunks; `SgfDraft.BranchesPreorder`, `SgfDraft.BranchesNoBlank`, `SgfDraft.BranchesFails` and `SgfDraft.LeadingEmptySkipped` state its results |
| Text.Split | src/sgf.py:224 | `split` gives at least one piece, none holding the separator |
| Text.JoinSplit | src/sgf.py:224 | joining the pieces gives back the string |
| Text.SplitJoin | src/sgf.py:224 | splitting joined separator-free pieces gives them back |
| Text.LastPieceEmpty | sgf.py:49 | the last piece is empty exactly when the string is empty or ends with the separator |
| Text.Delete | sgf.py:49 | `replace(c, '')` removes every `c` and adds nothing |
| Text.Strip | sgf/read.py:251 | the whitespace `int()` ignores: what remains has neither a leading nor a trailing blank |
| Text.Decimal | src/sgf.py:231 | `str(n)` is decimal digits without leading zeros |
| Text.ParseInt | sgf/read.py:251 | `int(s)` succeeds exactly for optionally signed digits inside whitespace |
| Text.ParseDecimal | sgf/read.py:251 | `int(str(n)) == n` |
| Text.DecimalValue | src/sgf.py:231 | the digits of `str(n)` have the value `n` |

## Left out

- Parsing an SGF file into nested lists (`parser`, `sgf_parser`). These rewrite the text with
  regular expressions and hand it to Python's literal evaluator. `main_branch` and the node
  loops take the nested list or the node strings as input.
- File, CSV and HDF5 input and output: `store`, `store_parser`'s file walking, `create_pro_csv`,
  and the dataset writes of `create_pro_hdf5` and `create_sgf_hdf5`. Only their node loops are
  modelled.
- The user interface, multiprocessing, plotting and neural-network code.
- The random playout of `mcts.py`, `deepcopy` and `random_move`. The playout's value is a
  parameter. The deep copy of the state is not modelled, so the claim that no two nodes share a
  state is not stated.
- `search` and `treepolicy` of `mcts.py`. They call functions that the repository does not
  define.
- Mcts.SearchTree.BestChild: only the exploration constant c = 0. The term
  `c * sqrt(2 log N / n)` is floating point. The model compares exact fractions.
- The external `thick_goban` package, and the tests that exercise versions of `Position` that
  are not part of this model.
- The six-group result of the two-corner game in gomcts/test_godata.py:11-45. It replays a
  long literal game, which is beyond what the proofs here afford. `GoPosition.MoveDoctest` is
  the documented two-move case.
- numpy integer widths (`int32`, `int8`). The model uses unbounded integers; no overflow is
  possible at Go board sizes.
- Observation.Convert: only 3- and 4-dimensional observations. An empty batch gives an empty
  result. With nested sequences, the axis lengths of an empty batch are lost; numpy would
  still raise for an axis 1 that is neither 1 nor 3.
- GoObjects.GoPosition.constructor: komi is a `real`. The model does not capture the
  float-specific behaviour of Python's floats.
- UnionFindDraft.UnionFind.Union: `repre2` must be a representative or already point at
  `repre1`, as the parameter names say. Re-pointing an inner element, which could split a
  class, is not modelled.
- UnionFindDraft.UnionFind.MultiUnion: the later elements must be representatives, for the same
  reason.
- GoPosition.Position.Move: an open point whose stale representative is `pt` itself would read
  the new group, as written. The model promises "open stays open" only for points of other
  classes.
- GoPosition.Position.GetItem: for a negative point that reads open, the source stores `pt`
  itself, a negative pointer, in slot `size² + pt` (gomcts/godata.py:103-104). The model leaves
  the pointers unchanged there, because its representative function has no negative values.
- GoPosition.Position.Move: for the same reason, the pointer write that a negative open point
  causes before the KeyError is not modelled. "Nothing changes on failure" is stated for the
  model's pointers, not for that slot.
- GoBoard.Board.LibertyLb: the upper half of "exact if < 3" (go.py:297-298) is stated under two
  conditions. The result holds only liberties of the group when the recorded liberties are sound
  (`BoardModel.Sound`). A new board is sound, and placing stones on open points and merging keep
  it sound. `change_colour` onto a stone, or back to open, can leave stale points in a recorded
  set, so soundness is a hypothesis and not an invariant of `Valid()`. Equality with the group's
  liberties is proved (`BoardModel.ExactWhenReached`) when every stone of the group is reached by
  a same-coloured path from the start. After an overwrite a group can hold stones that are not
  connected to the start; that case is not claimed.
- Text.Strip: only ASCII whitespace is stripped and only ASCII digits are read. Python's
  `strip()` and `int()` also drop `\x1c`-`\x1f`, `\x85` and Unicode spaces, and accept Unicode
  digits. Board sizes in game records are plain ASCII.
- GoPosition.Position.Capture: a dead group that touches `pt` twice raises KeyError after the
  merge, as written. The model states that outcome; it does not state a corrected capture.

## Findings

| source | as written | input that shows it | evidently intended | confidence | as-written member | corrected member |
|---|---|---|---|---|---|---|
| util/unionfind.py:69 | `if elem > self.size_limit` lets `elem == size_limit` through to the growth branch | `UnionFind(size_limit=5)`, then `uf[5]`: the array grows to 6 elements | refuse `elem >= size_limit` | not executed | UnionFindUtil.LimitOverrunAsWritten | UnionFindUtil.LengthWithinLimit |
| go.py:210 | `self._liberties[g] += {pt}` on two sets | `change_colour(pt, OPEN)` next to a stone group raises TypeError | `\|=` | not executed | BoardModel.ReopenAsWrittenRaises | BoardModel.PlacedLiberties |
| go.py:272 | `len(self._liberties[f]) < self._liberties[s]` compares an int with a set | `_union` of any two distinct groups of one colour raises TypeError | compare the two lengths | not executed | BoardModel.UnionAsWrittenNeverMerges | GoBoard.Board.Union |
| go.py:312-313 | `liberty_lb` unions every same-coloured crawled stone, including stones already in the group | black stones at 0 and 1 on a new board, with distinct group ids and go.py:272 comparing lengths: `liberty_lb(0)` unions 1, then reaches 0 again from 1 and raises 'Cannot union same group'. As written, the first `_union` raises TypeError at go.py:272 instead; with only line 272 fixed, the two equal `Group(colour=1)` keys make `_pointers[Group(1)] = Group(1)` and the next `_find` loops forever (go.py:237-241) | skip stones already in the group | not executed | GoBoard.Board.LibertyLbAsWritten | GoBoard.Board.LibertyLb |
| src/util/tree.py:48-51 | `assert type(child) == Node` rejects subclasses, and mcts.py:45-46 adds a `NodeMCTS` | any `new_child()` call raises TypeError | accept subclasses of `Node` | not executed | Mcts.SearchTree.NewChildAsWritten | Mcts.SearchTree.NewChild |
