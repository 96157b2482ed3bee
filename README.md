# A model of the generalized Čech complex builder

In `gcech/cech.py`, a builder object takes the centres (`positions`) and
radii (`radius`) of discs in the plane, plus an optional cap `maxK`. It
builds the generalized Čech complex level by level:

- `S[0]` holds the single balls.
- `S[1]` holds the intersecting pairs; building it also fills a neighbour
  set for each ball.
- Each later level `S[k]` holds the (k+1)-ball lists that `verify` accepts.

There are two strategies:

- **Optimized** (`CechComplex`). It builds level-k candidates by extending
  each simplex of level k-1 with each common neighbour. It sends each
  vertex set to `verify` at most once, using the `verified` dictionary. It
  keeps one witness point per accepted vertex set in the `intersections`
  memo. Its `verify` tries three things in order: the containment
  shortcut, reuse of the memoized witness, then a search over the crossing
  points of the last disc with each earlier one.
- **Baseline** (`CechComplexLE`). Its candidates are a ball followed by
  each k-combination of that ball's neighbours. It does not deduplicate.
  Its `verify` tests the crossing points of every pair.

The model is Dafny. The class `Cech.CechComplex` has the fields of the
Python object:

- `positions`, `radius`, `maxK`, `N`;
- `neighbor`, one set per ball;
- `S`, a sequence of levels;
- `intersections`, a map from vertex sets to points.

The `strategy` constant says which subclass the object stands for. Each
Python method that has loops becomes a method with the same loops. The
loop-free helpers `sim0`, `intersects`, `isCellInsideCell`,
`isPointInsideCell` and `intersection` become functions and predicates.
Each method is proved equal to a function over the object's state:

- `Sim0` and `Edges` build levels 0 and 1 (`CechBase`);
- `Candidates` and `CandidatesLE` build the candidates (`CandidateGen`);
- `Decide` and `DecideLE` are the two verdicts (`Verification`);
- `Accepted` and `AcceptedLE` describe one pass of `_simk` (`Levels`).

The properties are proved about those functions. They include:

- the neighbour relation is symmetric, irreflexive and equal to overlap;
- every optimized simplex is a clique of distinct balls whose prefix is in
  the level below;
- no vertex set is repeated within an optimized level, and each is
  verified at most once;
- the memo gains exactly the accepted vertex sets;
- the memo lookup of `verify` never fails;
- both `simk` loops terminate and stop for the source's reasons.

Both Python subclasses inherit everything else from `CechComplexBase`, so
one class with a `strategy` constant models both.

Geometry enters only through three predicates on squared distances
(`Intersects`, `IsCellInsideCell` and `IsPointInsideCell`) and through
`get_intersections`. That function is a parameter of the object
(`crossing`), and the model assumes nothing about it. Python iterates
over the sets `neighbor[i]` and `cand`; the model takes them in ascending
order.

Two behaviours of the code are easy to miss, and the model keeps both:

- `isCellInsideCell` compares the distance with `abs(radius[i] - radius[j])`,
  whichever ball is larger.
- With no balls, `cech` returns `[[], []]`.

## Model

| member | source | states |
|---|---|---|
| Geometry.DistanceAtMost | gcech/cech.py:88-91 | for a distance d, `d <= s` holds exactly when s is non-negative and the squared distance is at most s²; this is why the model compares squares |
| CechBase.Intersects | gcech/cech.py:81-91 | `intersects(i, j)` compared on squares; `IntersectsByDistance` shows it is the source's distance test |
| CechBase.IsCellInsideCell | gcech/cech.py:71-72 | `isCellInsideCell(i, j)` compared on squares; `CellInsideByDistance` shows it is the source's test |
| CechBase.IsPointInsideCell | gcech/cech.py:75-78 | `isPointInsideCell(p, c)`: p lies in the closed disc of c, compared on squares |
| CechBase.Intersection | gcech/cech.py:98-101 | `intersection(i, j)` passes the two centres and radii to the `crossing` parameter |
| CechBase.IntersectsByDistance | gcech/cech.py:81-91 | the squared overlap test holds exactly when `not (d > radius[i] + radius[j])` for the Euclidean distance d |
| CechBase.CellInsideByDistance | gcech/cech.py:71-72 | the squared containment test holds exactly when `d <= abs(radius[i] - radius[j])` |
| CechBase.IntersectsSymmetric | gcech/cech.py:81-96 | `intersects(i, j)` equals `intersects(j, i)` |
| CechBase.ShortcutCentreInside | gcech/cech.py:215-223 | when the other ball contains the smallest ball, the smallest ball's centre lies in the other ball's disc, so the witness `positions[smallest]` is sound |
| CechBase.Sim0 | gcech/cech.py:53-54 | level 0, `[[0], ..., [N-1]]`; `LevelZero` states what it holds |
| CechBase.LevelZero | gcech/cech.py:53-54 | `sim0` lists each one-ball simplex `[i]` with i < N exactly once, and nothing else |
| CechBase.RowEdges | gcech/cech.py:61-65 | the pairs appended by row i of `sim1`'s nested loop; `RowEdgesMember` and `RowEdgesSorted` state what it holds |
| CechBase.Edges | gcech/cech.py:56-66 | level 1, the rows one after the other; `EdgesMember`, `EdgesSorted` and `EdgesUnique` state what it holds |
| CechBase.RowEdgesMember | gcech/cech.py:61-65 | row i of the nested loop appends exactly the pairs `[i, j]` with i < j < N that intersect |
| CechBase.EdgesMember | gcech/cech.py:56-66 | level 1 lists exactly the pairs `[i, j]` with i < j < N whose discs intersect |
| CechBase.EdgesSorted | gcech/cech.py:60-65 | level 1 is in strict lexicographic order |
| CechBase.EdgesUnique | gcech/cech.py:56-66 | no two pairs of level 1 have the same vertex set |
| CechBase.NeighborRelation | gcech/cech.py:56-66 | after `sim1`, `j in neighbor[i]` iff `i in neighbor[j]`, iff i ≠ j and the two discs intersect |
| Simplices.VertexSetsMember | gcech/cech.py:183-184 | a set is a vertex set of a list of simplices exactly when some entry has it as `frozenset` |
| Simplices.AscendingListsSet | gcech/cech.py:204-205 | iterating a set of balls visits exactly its members below N, each once and in increasing order |
| Simplices.PrependMember | gcech/cech.py:131-132 | `[i, *cand]` for cand in a list gives exactly the lists with head i whose tail is in that list |
| Simplices.CombinationShape | gcech/cech.py:131 | every `combinations(xs, k)` entry has k entries, all drawn from xs |
| Simplices.CombinationIncreasing | gcech/cech.py:131 | the combinations of an increasing list are increasing |
| Simplices.CombinationComplete | gcech/cech.py:131 | every increasing k-list drawn from an increasing list is one of its combinations |
| Simplices.FlattenMember | gcech/cech.py:130-133 | an item is in the concatenated rows exactly when it is in one of the rows |
| Simplices.DistinctBound | gcech/cech.py:191-200 | a list of distinct balls below N has at most N entries, which bounds the number of levels |
| CandidateGen.Common | gcech/cech.py:204 | `set.intersection(*[neighbor[i] for i in s])`; `CommonMember` states what it holds |
| CandidateGen.CommonMember | gcech/cech.py:204 | `set.intersection(*[neighbor[i] for i in s])` holds exactly the balls that are a neighbour of every vertex of s |
| CandidateGen.Extensions | gcech/cech.py:204-207 | the lists one simplex yields; `ExtensionsMember` states what it holds |
| CandidateGen.ExtensionsMember | gcech/cech.py:204-207 | one simplex s yields exactly the lists `s + [c]` with c < N outside s and a neighbour of every vertex of s |
| CandidateGen.Candidates | gcech/cech.py:202-207 | the optimized `getCandidates(k)` over a level; `CandidateMember` and `CandidatesAreSimplices` state what it holds |
| CandidateGen.CandidatesStep | gcech/cech.py:203-207 | the candidates of one more simplex follow those built so far |
| CandidateGen.CandidateMember | gcech/cech.py:202-207 | the optimized candidates are exactly the lists `s + [c]` with s in level k-1 and c a common neighbour outside s |
| CandidateGen.ExtendSimplex | gcech/cech.py:204-206 | a common neighbour outside a (k-1)-simplex extends it to a k-simplex: k+1 distinct, pairwise neighbouring balls |
| CandidateGen.CandidatesAreSimplices | gcech/cech.py:202-207 | every candidate built from a level of (k-1)-simplices is a k-simplex whose prefix `cells[:-1]` is in that level |
| CandidateGen.StarRow | gcech/cech.py:131-133 | centre c in front of each k-combination of its neighbours; `StarRowSound` and `StarRowComplete` state what it holds |
| CandidateGen.CandidatesLE | gcech/cech.py:129-133 | the baseline `getCandidates(k)`, the rows of centres 0 .. i-1; `CandidateLEMember` states what it holds |
| CandidateGen.StarRowSound | gcech/cech.py:131-133 | every list of centre c's row is c followed by k increasing neighbours of c |
| CandidateGen.StarRowComplete | gcech/cech.py:131-133 | every ball c followed by k increasing neighbours of c is in c's row |
| CandidateGen.CandidatesLEStep | gcech/cech.py:130-133 | the baseline candidates of one more centre i follow those of the centres before i |
| CandidateGen.CandidateLERow | gcech/cech.py:130-133 | every baseline candidate comes from the row of its own head |
| CandidateGen.StarRowIncluded | gcech/cech.py:130-133 | the row of every centre is part of the baseline candidates |
| CandidateGen.CandidateLEMember | gcech/cech.py:129-133 | the baseline candidates for level k are exactly the lists made of a ball i followed by k of its neighbours in increasing order |
| CandidateGen.StarCandidateDistinct | gcech/cech.py:129-133 | with an irreflexive neighbour relation, the balls of a baseline candidate are distinct and below N |
| CandidateGen.CandidatesLERepeatVertexSet | gcech/cech.py:129-133 | the baseline does not deduplicate: among 3 pairwise neighbours it yields both `[0, 1, 2]` and `[1, 0, 2]`, which have the same vertex set |
| Verification.MinBall | gcech/cech.py:210-213 | the running minimum of the radius scan: a ball among the start and the scanned cells; `MinBallIsMin` states that it is minimal |
| Verification.Smallest | gcech/cech.py:210-213 | `smallest` after the scan: one of the cells; `SmallestIsFirstMin` states that it is the first of minimum radius |
| Verification.AllInside | gcech/cech.py:215-220 | the shortcut's condition: every cell other than `smallest` contains it |
| Verification.MinBallIsMin | gcech/cech.py:210-213 | the running `smallest` has minimum radius among the cells scanned; when it changed, it is the first cell of that radius |
| Verification.SmallestIsFirstMin | gcech/cech.py:137-140 | `smallest` is a cell of minimum radius, and every cell before it has a strictly larger radius |
| Verification.FirstInside | gcech/cech.py:228-231 | the first crossing point inside the new cell, or none exactly when no crossing point is inside it |
| Verification.FirstInsideAllBut | gcech/cech.py:239-248 | the first point inside every cell at the other positions, or none exactly when no point is |
| Verification.SearchFrom | gcech/cech.py:234-249 | the fallback finds a point only when it crosses the last cell and some earlier cell j and lies in every other cell; it finds none exactly when no such point exists |
| Verification.Reuse | gcech/cech.py:225-233 | the reuse branch returns only a point inside the last cell. With 3 cells it is the first crossing point of cells 0 and 1 inside cell 2. With more cells it is the memo entry of the prefix, if that entry is inside the last cell |
| Verification.Decide | gcech/cech.py:209-249 | `(True, positions[smallest])` when every cell contains `smallest`; a positive answer comes from the shortcut, the reuse branch or a fallback witness; `(False, [])` exactly when all three fail |
| Verification.DecideFrame | gcech/cech.py:232-233 | `verify` reads the memo only at the vertex set of the prefix |
| Verification.TagMember | gcech/cech.py:156 | `[(p, i, j) for p in x]` holds exactly the points of x tagged with i and j |
| Verification.RowPointsMember | gcech/cech.py:153-156 | the points listed for a first position a are exactly the crossing points of a with a later position, tagged with their balls |
| Verification.PairPointsMember | gcech/cech.py:152-156 | `inter` holds exactly the crossing points of each pair of positions a < b, tagged `(p, cells[a], cells[b])` |
| Verification.PairPoints | gcech/cech.py:152-156 | the baseline's `inter` list; `PairPointsMember` states what it holds |
| Verification.DecideLE | gcech/cech.py:136-169 | the baseline `verify`: the shortcut, or a point of `inter` inside every cell other than its pair's balls; `DecideLEByPairs` restates it over pairs |
| Verification.DecideLEByPairs | gcech/cech.py:136-169 | the baseline accepts exactly when the shortcut holds or some pair has a crossing point inside every cell other than the pair's two balls |
| Levels.Capped | gcech/cech.py:119 | `self.maxK and k > self.maxK`: a cap of `None` or `0` means no cap (also gcech/cech.py:192) |
| Levels.Calls | gcech/cech.py:180-189 | the candidates one `_simk` pass submits to `verify`; `CallsSets` and `CallsOnce` state what it holds |
| Levels.Accepted | gcech/cech.py:180-189 | the level one `_simk` pass returns; `AcceptedCalls`, `AcceptedSets` and `AcceptedDistinct` state what it holds |
| Levels.CallsInCands | gcech/cech.py:182-185 | only candidates are submitted to `verify` |
| Levels.CallsSets | gcech/cech.py:182-185 | the vertex sets submitted are exactly the candidates' vertex sets that were not already keys |
| Levels.CallsOnce | gcech/cech.py:183-185 | no vertex set is submitted to `verify` twice |
| Levels.AcceptedCalls | gcech/cech.py:185-188 | a candidate is kept exactly when it is submitted and accepted |
| Levels.AcceptedSets | gcech/cech.py:184-188 | the kept vertex sets are candidates' vertex sets that were not keys before |
| Levels.AcceptedDistinct | gcech/cech.py:180-189 | no two entries kept by one pass have the same vertex set |
| Levels.AcceptedUnseen | gcech/cech.py:184 | keys that no candidate can have do not change what is kept |
| Levels.AcceptedFrame | gcech/cech.py:187 | memo entries added during the pass do not change what it keeps |
| Levels.AcceptedLE | gcech/cech.py:109-114 | the level one baseline `_simk` pass returns; `AcceptedLEMember` states what it holds |
| Levels.AcceptedLEMember | gcech/cech.py:109-114 | the baseline keeps exactly the candidates that `verify` accepts |
| Levels.LevelSetsMember | gcech/cech.py:187 | every entry of a level from 2 on has its vertex set among the memo keys |
| Levels.EmptyLevel | gcech/cech.py:195-200 | a pass that keeps nothing leaves the memo as it was and ends the loop |
| Levels.WitnessFrame | gcech/cech.py:187 | a recorded witness stays in place and stays `verify`'s answer when later entries are added |
| Levels.RecordedFrame | gcech/cech.py:187 | later memo entries keep a whole level's witnesses in place |
| Levels.EdgesAreSimplices | gcech/cech.py:56-66 | every entry of level 1 is a 1-simplex of neighbours |
| Levels.LevelSimplices | gcech/cech.py:175-207 | every entry of level j is a j-simplex, and from level 2 on its prefix `cells[:-1]` is an entry of level j-1 |
| Levels.LevelsUnique | gcech/cech.py:180-189 | no optimized level holds two entries with the same vertex set |
| Levels.NextCandidate | gcech/cech.py:232 | every candidate is a j-simplex with j+1 distinct balls; for more than three cells, `frozenset(pre_set)` is a key of `intersections`, so the lookup never fails |
| Levels.NextLevelReady | gcech/cech.py:182-185 | every candidate of the next pass can be verified, and its vertex set has j+1 balls |
| Levels.LevelFrame | gcech/cech.py:187 | memo entries added later leave the result of an earlier pass unchanged |
| Levels.PrefixFrame | gcech/cech.py:187 | memo entries added later leave every built level and its witnesses in place |
| Levels.NewLevel | gcech/cech.py:195-198 | a non-empty pass result, with the memo after it, is the next level, and every entry has a recorded witness |
| Levels.AppendLevel | gcech/cech.py:196-198 | appending the pass result keeps the levels well built |
| Levels.LevelCount | gcech/cech.py:191-200 | besides levels 0 and 1 there are at most N levels in all, so the loop terminates |
| Levels.CapBound | gcech/cech.py:192-193 | for a truthy `maxK`, the levels number at most `max(2, maxK + 1)` |
| Levels.LevelStarsLE | gcech/cech.py:108-133 | every entry of a baseline level j is a ball followed by j of its neighbours in increasing order, with distinct balls |
| Levels.AppendLevelLE | gcech/cech.py:121-126 | appending a non-empty, uncapped baseline level keeps the levels well built |
| Levels.LevelCountLE | gcech/cech.py:118-126 | the baseline builds at most N levels besides levels 0 and 1 |
| Levels.LevelRepeatsVertexSetLE | gcech/cech.py:109-133 | the baseline does not deduplicate: for three concentric discs of radii 1, 2 and 3, level 2 keeps both `[0, 1, 2]` and `[1, 0, 2]`, which have the same vertex set |
| Cech.NeighborStep | gcech/cech.py:62-64 | one inner step of `sim1` records pair (i, j) on both sides exactly when the discs intersect |
| Cech.NeighborRow | gcech/cech.py:60-66 | after all rows every intersecting pair is recorded on both sides and nothing else is |
| Cech.CandidateLECells | gcech/cech.py:111-112 | every baseline candidate is a non-empty list of ball indices that `verify` can take |
| Cech.PassStart | gcech/cech.py:180-182 | a pass starts with nothing kept and `verified` and the memo as they were |
| Cech.PassFinish | gcech/cech.py:182-189 | after the last candidate the pass has covered all of them |
| Cech.DoneSkip | gcech/cech.py:184 | a candidate whose vertex set is already a key leaves `verified` as it is |
| Cech.DoneVisit | gcech/cech.py:185-187 | a submitted candidate adds its vertex set to `verified` with its result, true exactly when it gets a memo entry |
| Cech.MemoAccept | gcech/cech.py:186-188 | an accepted candidate adds its witness under its vertex set and keeps every earlier entry |
| Cech.PassSkip | gcech/cech.py:183-184 | a skipped candidate is neither submitted nor kept |
| Cech.PassRejected | gcech/cech.py:185-186 | a rejected candidate is recorded as false and not kept |
| Cech.PassAccepted | gcech/cech.py:185-188 | an accepted candidate is recorded as true, kept, and has its witness stored |
| Cech.SimkStart | gcech/cech.py:176-178 | `simk` starts from levels 0 and 1 with an empty memo and nothing verified |
| Cech.PassKeySizes | gcech/cech.py:183-185 | after a pass over (j+1)-ball candidates, every key of `verified` has at most j+1 balls |
| Cech.SimkAdvance | gcech/cech.py:195-200 | an empty pass leaves the memo as it was and ends the loop; a non-empty pass becomes the next level |
| Cech.CechComplex.constructor | gcech/cech.py:36-37 | a fresh object of a given strategy has empty state |
| Cech.CechComplex.Cech | gcech/cech.py:39-51 | `cech` stores its arguments and returns `S`: `S[0]` is `sim0`, `S[1]` is the intersecting pairs with exact neighbour sets, and the later levels are those of the strategy, built until the loop's stop condition |
| Cech.CechComplex.Levels | gcech/cech.py:50 | `self.simk()` runs the strategy's level loop and leaves levels 0 and 1 untouched |
| Cech.CechComplex.Sim1 | gcech/cech.py:56-66 | `sim1` leaves the exact, symmetric, irreflexive neighbour sets and returns the intersecting pairs in lexicographic order |
| Cech.CechComplex.Sim1Row | gcech/cech.py:61-65 | the inner loop of row i records the intersecting pairs `[i, j]` and appends them in order |
| Cech.CechComplex.ScanSmallest | gcech/cech.py:210-213 | the scan returns `Smallest`, the first cell of minimum radius |
| Cech.CechComplex.ScanInside | gcech/cech.py:215-220 | `inside` is true exactly when every other cell contains `smallest` |
| Cech.CechComplex.Verify | gcech/cech.py:209-249 | the method's answer is `Decide` on the current memo |
| Cech.CechComplex.Fallback | gcech/cech.py:234-249 | the loop over earlier positions j returns the fallback's first witness, or none |
| Cech.CechComplex.ScanCrossings | gcech/cech.py:237-248 | for one j, the first crossing point of the last cell with cell j that lies in every other cell |
| Cech.CechComplex.ScanAllBut | gcech/cech.py:240-246 | whether p lies in every cell at a position other than i and j |
| Cech.CechComplex.GetCandidates | gcech/cech.py:202-207 | the generator yields exactly `Candidates` of level k-1, in order |
| Cech.CechComplex.Extend | gcech/cech.py:204-207 | one simplex yields `s + [c]` for each common neighbour c outside s, in ascending order |
| Cech.CechComplex.SimkLevel | gcech/cech.py:180-189 | one `_simk` pass: the calls made, the kept level, the new `verified` and the grown memo are those of the pass functions |
| Cech.CechComplex.SimkStep | gcech/cech.py:182-188 | the loop body of `_simk` advances the pass state by one candidate |
| Cech.CechComplex.SimkPass | gcech/cech.py:191-200 | one round of the `while` loop: an empty result ends the loop, a non-empty one is a valid next level |
| Cech.CechComplex.Simk | gcech/cech.py:175-200 | the optimized `simk` builds well-formed levels with their memo and stops only when capped or when the next level is empty |
| Cech.CechComplex.GetCandidatesLE | gcech/cech.py:129-133 | the baseline generator yields exactly `CandidatesLE`, in order |
| Cech.CechComplex.StarsLE | gcech/cech.py:131-133 | `[i, *cand]` for each combination, in order |
| Cech.CechComplex.VerifyLE | gcech/cech.py:136-169 | the baseline `verify` answers `DecideLE` |
| Cech.CechComplex.PairPointsLE | gcech/cech.py:152-156 | the `inter` list built by the loops is `PairPoints` |
| Cech.CechComplex.RowPointsLE | gcech/cech.py:153-156 | the tagged points of the pairs whose first position is a |
| Cech.CechComplex.ScanWitness | gcech/cech.py:158-167 | whether the tagged point lies in every cell other than the balls i and j |
| Cech.CechComplex.SimkLevelLE | gcech/cech.py:109-114 | one baseline `_simk` pass keeps exactly the accepted candidates, in order |
| Cech.CechComplex.SimkLE | gcech/cech.py:108-126 | the baseline `simk` builds its levels and stops only when capped or when the next level is empty |

## Left out

- `get_intersections` (gcech/cech.py:5-30) is not modelled. It is the `crossing` parameter, and the model assumes nothing about the points it returns, not even that there are at most two. So nothing is proved about where a witness lies beyond what `verify` checks.
- `dist` and its `math.sqrt` (gcech/cech.py:93-96): the predicates compare squared distances, and `Geometry.DistanceAtMost` states why this gives the same test.
- Floating-point arithmetic: coordinates and radii are mathematical reals, so rounding and NaN are not modelled.
- Python iterates over sets (`for c in cand`, `combinations(self.neighbor[i], k)`) in an order the language does not fix. The model takes members in ascending order. Properties that hold for any order, such as the vertex-set uniqueness and memo facts, do not depend on that choice.
- Generators are modelled as the full candidate list. `_simk` consumes each generator fully before `S` or `neighbor` change, so laziness makes no difference.
- The model has no strategy-equivalence or geometric-correctness theorem. Such a theorem would say that an accepted list's discs really share a point, or that the two strategies build the same complex. Both depend on the unmodelled intersection formula, and a baseline level provably keeps a vertex set twice (`Levels.LevelRepeatsVertexSetLE`).
- Input validation: the source does none.
- Cech.CechComplex.Cech: requires that every ball has a radius (`|positions| <= |radius|`). With two or more balls, `sim1` reads `radius[i]` for every ball, so this excludes only failing calls. With one ball, the source reads no radius: `cech([p], [])` returns `[[[0]], []]`. The model does not cover that call.
- `intersections[frozenset(pre_set)]` could raise `KeyError`. That path is not modelled because `Levels.NextCandidate` proves the key is always present.
- The unused `verified = {}` of the baseline `simk` and the unused `inter = []` of the optimized `verify` are left out.
- The commented-out progress message at gcech/cech.py:194 and the empty `CechComplexBase.simk` (gcech/cech.py:68-69) are left out.
- The arbitrary-precision integers of Python need no wrap-around modelling.
