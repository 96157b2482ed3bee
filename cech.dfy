/**
 * The builder object of `gcech/cech.py`: the fields `cech()` sets and the
 * methods that fill them. `CechComplex` (the optimized strategy) and
 * `CechComplexLE` (the baseline) share the base-class state and `sim0`,
 * `sim1`; the `strategy` of an object says which `simk` it runs.
 */
module Cech {
  import opened Wrappers
  import opened Geometry
  import opened Simplices
  import opened CechBase
  import opened CandidateGen
  import opened Verification
  import opened Levels

  /** Which subclass the object is: `CechComplex` or `CechComplexLE`. */
  datatype Strategy = Optimized | Baseline

  /** Pair a < b has been visited by the loops of `sim1` before pair (i, j). */
  predicate Visited(a: nat, b: nat, i: nat, j: nat)
  {
    a < i || (a == i && b < j)
  }

  /**
   * The neighbour sets part-way through `sim1`: every visited intersecting
   * pair is recorded on both sides, and nothing else is.
   */
  predicate NeighborsSoFar(sc: Scene, neighbor: seq<set<nat>>, i: nat, j: nat)
    requires WellFormed(sc)
  {
    && |neighbor| == |sc.positions|
    && (forall a, v :: 0 <= a < |neighbor| && v in neighbor[a] ==> v < |neighbor|)
    && (forall a :: 0 <= a < |neighbor| ==> a !in neighbor[a])
    && (forall a, b :: 0 <= a < b < |neighbor| ==>
          && (b in neighbor[a] <==> Visited(a, b, i, j) && Intersects(sc, a, b))
          && (a in neighbor[b] <==> Visited(a, b, i, j) && Intersects(sc, a, b)))
  }

  /** One step of the inner loop of `sim1`: pair (i, j) is recorded when it intersects. */
  lemma NeighborStep(sc: Scene, neighbor: seq<set<nat>>, i: nat, j: nat)
    requires WellFormed(sc) && NeighborsSoFar(sc, neighbor, i, j) && i < j < |neighbor|
    ensures Intersects(sc, i, j) ==>
              NeighborsSoFar(sc, neighbor[i := neighbor[i] + {j}][j := neighbor[j] + {i}], i, j + 1)
    ensures !Intersects(sc, i, j) ==> NeighborsSoFar(sc, neighbor, i, j + 1)
  {
    var linked := neighbor[i := neighbor[i] + {j}][j := neighbor[j] + {i}];
    var chosen := if Intersects(sc, i, j) then linked else neighbor;
    forall a, b | 0 <= a < b < |neighbor|
      ensures b in chosen[a] <==> Visited(a, b, i, j + 1) && Intersects(sc, a, b)
      ensures a in chosen[b] <==> Visited(a, b, i, j + 1) && Intersects(sc, a, b)
    {
      if a != i || b != j {
        assert Visited(a, b, i, j + 1) <==> Visited(a, b, i, j);
        assert b in chosen[a] <==> b in neighbor[a];
        assert a in chosen[b] <==> a in neighbor[b];
      }
    }
    assert forall a :: 0 <= a < |chosen| ==> a !in chosen[a];
    assert forall a, v :: 0 <= a < |chosen| && v in chosen[a] ==> v < |chosen|;
    assert NeighborsSoFar(sc, chosen, i, j + 1);
  }

  /** The end of a row of `sim1`: all pairs from row i are visited. */
  lemma NeighborRow(sc: Scene, neighbor: seq<set<nat>>, i: nat)
    requires WellFormed(sc) && NeighborsSoFar(sc, neighbor, i, |neighbor|)
    ensures NeighborsSoFar(sc, neighbor, i + 1, i + 2)
    ensures i >= |neighbor| ==> NeighborsOk(sc, neighbor)
  {
    forall a, b | 0 <= a < b < |neighbor|
      ensures Visited(a, b, i, |neighbor|) <==> Visited(a, b, i + 1, i + 2)
    {
    }
    if i >= |neighbor| {
      forall a, b | 0 <= a < b < |neighbor|
        ensures (b in neighbor[a] <==> Intersects(sc, a, b)) && (a in neighbor[b] <==> Intersects(sc, a, b))
      {
        assert Visited(a, b, i, |neighbor|);
      }
    }
  }

  /** A baseline candidate is a non-empty list of ball indices. */
  lemma CandidateLECells(sc: Scene, neighbor: seq<set<nat>>, k: nat, x: seq<nat>)
    requires WellFormed(sc) && NeighborsOk(sc, neighbor)
    requires x in CandidatesLE(neighbor, |neighbor|, k, |neighbor|)
    ensures Cells(sc, x) && |x| > 0
  {
    CandidateLEMember(neighbor, |neighbor|, k, |neighbor|, x);
    StarCandidateDistinct(neighbor, |neighbor|, x, k);
  }

  /**
   * The state of `_simk` after the candidates `seen`: the candidates
   * submitted to `verify` and those kept, the keys recorded in `verified`
   * (`done`) with their results, and the memo of witnesses (`inters`),
   * which has grown from `memo` by one entry per kept candidate.
   */
  predicate PassDone(sc: Scene, memo: map<set<nat>, Point>, verified: map<set<nat>, bool>, seen: seq<seq<nat>>,
                     Sk: seq<seq<nat>>, done: map<set<nat>, bool>, calls: seq<seq<nat>>, inters: map<set<nat>, Point>)
  {
    && calls == Calls(verified.Keys, seen)
    && Sk == Accepted(sc, memo, verified.Keys, seen)
    && DoneState(verified, seen, done, inters)
    && MemoState(sc, memo, Sk, inters)
  }

  /** The state of `_simk` after the first t candidates. */
  predicate PassState(sc: Scene, memo: map<set<nat>, Point>, verified: map<set<nat>, bool>, cands: seq<seq<nat>>, t: nat,
                      Sk: seq<seq<nat>>, done: map<set<nat>, bool>, calls: seq<seq<nat>>, inters: map<set<nat>, Point>)
    requires t <= |cands|
  {
    PassDone(sc, memo, verified, cands[..t], Sk, done, calls, inters)
  }

  /** Before the first candidate: nothing kept, nothing called, `verified` and the memo as given. */
  lemma PassStart(sc: Scene, memo: map<set<nat>, Point>, verified: map<set<nat>, bool>, cands: seq<seq<nat>>)
    requires memo.Keys <= verified.Keys
    requires forall K :: K in verified ==> (verified[K] <==> K in memo)
    ensures PassState(sc, memo, verified, cands, 0, [], verified, [], memo)
  {
    assert cands[..0] == [];
  }

  /** After the last candidate the pass has seen all of them. */
  lemma PassFinish(sc: Scene, memo: map<set<nat>, Point>, verified: map<set<nat>, bool>, cands: seq<seq<nat>>,
                   Sk: seq<seq<nat>>, done: map<set<nat>, bool>, calls: seq<seq<nat>>, inters: map<set<nat>, Point>)
    requires PassState(sc, memo, verified, cands, |cands|, Sk, done, calls, inters)
    ensures PassDone(sc, memo, verified, cands, Sk, done, calls, inters)
  {
    PrefixAll(cands);
  }

  /**
   * `verified` after some candidates: the keys it had, plus the vertex set
   * of each candidate seen, true exactly for the keys with a memo entry.
   */
  predicate DoneState(verified: map<set<nat>, bool>, seen: seq<seq<nat>>, done: map<set<nat>, bool>, inters: map<set<nat>, Point>)
  {
    && done.Keys == verified.Keys + VertexSets(seen)
    && (forall K :: K in verified ==> done[K] == verified[K])
    && inters.Keys <= done.Keys
    && (forall K :: K in done ==> (done[K] <==> K in inters))
  }

  /** Skipping candidate t, whose vertex set is known, leaves `verified` as it is. */
  lemma DoneSkip(verified: map<set<nat>, bool>, cands: seq<seq<nat>>, t: nat, done: map<set<nat>, bool>, inters: map<set<nat>, Point>)
    requires t < |cands| && DoneState(verified, cands[..t], done, inters) && Vertices(cands[t]) in done
    ensures DoneState(verified, cands[..t + 1], done, inters)
  {
    VertexSetsStep(cands, t);
  }

  /** Verifying candidate t, whose vertex set is new, records it with the result. */
  lemma DoneVisit(verified: map<set<nat>, bool>, cands: seq<seq<nat>>, t: nat, done: map<set<nat>, bool>,
                  inters: map<set<nat>, Point>, ok: bool, inters': map<set<nat>, Point>)
    requires t < |cands| && DoneState(verified, cands[..t], done, inters) && Vertices(cands[t]) !in done
    requires inters'.Keys == if ok then inters.Keys + {Vertices(cands[t])} else inters.Keys
    ensures DoneState(verified, cands[..t + 1], done[Vertices(cands[t]) := ok], inters')
  {
    VertexSetsStep(cands, t);
  }

  /** Keeping an accepted candidate adds its witness to the memo. */
  lemma MemoAccept(sc: Scene, memo: map<set<nat>, Point>, Sk: seq<seq<nat>>, inters: map<set<nat>, Point>, c: seq<nat>)
    requires MemoState(sc, memo, Sk, inters) && Vertices(c) !in inters && Accepts(sc, memo, c)
    ensures MemoState(sc, memo, Sk + [c], inters[Vertices(c) := Decide(sc, memo, c).point])
  {
    var Sk' := Sk + [c];
    var inters' := inters[Vertices(c) := Decide(sc, memo, c).point];
    VertexSetsSnoc(Sk, c);
    forall u | 0 <= u < |Sk'|
      ensures Accepts(sc, memo, Sk'[u]) && Vertices(Sk'[u]) in inters' && inters'[Vertices(Sk'[u])] == Decide(sc, memo, Sk'[u]).point
    {
      if u < |Sk| {
        assert Sk'[u] == Sk[u];
      }
    }
  }

  /** Candidate t of `_simk` is skipped when its vertex set is already a key of `verified`. */
  lemma PassSkip(sc: Scene, memo: map<set<nat>, Point>, verified: map<set<nat>, bool>, cands: seq<seq<nat>>, t: nat,
                 Sk: seq<seq<nat>>, done: map<set<nat>, bool>, calls: seq<seq<nat>>, inters: map<set<nat>, Point>)
    requires t < |cands| && PassState(sc, memo, verified, cands, t, Sk, done, calls, inters)
    requires Vertices(cands[t]) in done
    ensures PassState(sc, memo, verified, cands, t + 1, Sk, done, calls, inters)
  {
    var c := cands[t];
    CallsStep(verified.Keys, cands, t);
    AcceptedStep(sc, memo, verified.Keys, cands, t);
    DoneSkip(verified, cands, t, done, inters);
  }

  /** Candidate t of `_simk` is verified, rejected and recorded as such. */
  lemma PassRejected(sc: Scene, memo: map<set<nat>, Point>, verified: map<set<nat>, bool>, cands: seq<seq<nat>>, t: nat,
                     Sk: seq<seq<nat>>, done: map<set<nat>, bool>, calls: seq<seq<nat>>, inters: map<set<nat>, Point>)
    requires t < |cands| && PassState(sc, memo, verified, cands, t, Sk, done, calls, inters)
    requires Vertices(cands[t]) !in done && !Accepts(sc, memo, cands[t])
    ensures PassState(sc, memo, verified, cands, t + 1, Sk, done[Vertices(cands[t]) := false], calls + [cands[t]], inters)
  {
    var c := cands[t];
    CallsStep(verified.Keys, cands, t);
    AcceptedStep(sc, memo, verified.Keys, cands, t);
    DoneVisit(verified, cands, t, done, inters, false, inters);
  }

  /** Candidate t of `_simk` is verified, accepted, kept, and its witness recorded. */
  lemma PassAccepted(sc: Scene, memo: map<set<nat>, Point>, verified: map<set<nat>, bool>, cands: seq<seq<nat>>, t: nat,
                     Sk: seq<seq<nat>>, done: map<set<nat>, bool>, calls: seq<seq<nat>>, inters: map<set<nat>, Point>)
    requires t < |cands| && PassState(sc, memo, verified, cands, t, Sk, done, calls, inters)
    requires Vertices(cands[t]) !in done && Accepts(sc, memo, cands[t])
    ensures PassState(sc, memo, verified, cands, t + 1, Sk + [cands[t]], done[Vertices(cands[t]) := true], calls + [cands[t]],
                      inters[Vertices(cands[t]) := Decide(sc, memo, cands[t]).point])
  {
    var c := cands[t];
    CallsStep(verified.Keys, cands, t);
    AcceptedStep(sc, memo, verified.Keys, cands, t);
    var inters' := inters[Vertices(c) := Decide(sc, memo, c).point];
    DoneVisit(verified, cands, t, done, inters, true, inters');
    MemoAccept(sc, memo, Sk, inters, c);
  }

  /**
   * The state between two passes of `CechComplex.simk`: the levels built so
   * far with their memo, and the keys of `verified`, each with the result
   * recorded for it (true exactly when it has a memo entry) and none with
   * more balls than there are levels.
   */
  predicate SimkState(sc: Scene, neighbor: seq<set<nat>>, maxK: Option<int>, S: seq<seq<seq<nat>>>,
                      inters: map<set<nat>, Point>, verified: map<set<nat>, bool>)
  {
    && WellFormed(sc) && NeighborsOk(sc, neighbor) && LevelsBuilt(sc, neighbor, maxK, S, inters)
    && S[1] == Edges(sc, |sc.positions|) && |S| <= |sc.positions| + 2
    && inters.Keys <= verified.Keys
    && (forall K :: K in verified ==> (verified[K] <==> K in inters))
    && (forall K :: K in verified ==> |K| <= |S|)
  }

  /** Before the first pass: levels 0 and 1, an empty memo and nothing verified. */
  lemma SimkStart(sc: Scene, neighbor: seq<set<nat>>, maxK: Option<int>, S: seq<seq<seq<nat>>>)
    requires WellFormed(sc) && NeighborsOk(sc, neighbor) && |S| == 2 && S[1] == Edges(sc, |sc.positions|)
    ensures SimkState(sc, neighbor, maxK, S, map[], map[])
  {
    forall e | e in S[1] ensures Extendable(neighbor, e) {
      EdgesAreSimplices(sc, neighbor, e);
    }
  }

  /** After a pass over candidates of j + 1 balls, every key of `verified` has at most j + 1 balls. */
  lemma PassKeySizes(verified: map<set<nat>, bool>, cands: seq<seq<nat>>, done: map<set<nat>, bool>,
                     inters: map<set<nat>, Point>, j: nat)
    requires DoneState(verified, cands, done, inters)
    requires forall K :: K in verified ==> |K| <= j
    requires forall K :: K in VertexSets(cands) ==> |K| == j + 1
    ensures forall K :: K in done ==> |K| <= j + 1
  {
  }

  /**
   * One pass of `simk`: a non-empty result becomes the next level, and an
   * empty one (which leaves the memo as it was) ends the construction.
   */
  lemma SimkAdvance(sc: Scene, neighbor: seq<set<nat>>, maxK: Option<int>, S: seq<seq<seq<nat>>>,
                    memo: map<set<nat>, Point>, seen: map<set<nat>, bool>, Sk: seq<seq<nat>>,
                    verified: map<set<nat>, bool>, calls: seq<seq<nat>>, inters: map<set<nat>, Point>)
    requires SimkState(sc, neighbor, maxK, S, memo, seen) && !Capped(maxK, |S|)
    requires PassDone(sc, memo, seen, Candidates(neighbor, |neighbor|, S[|S| - 1]), Sk, verified, calls, inters)
    ensures Sk == [] ==> inters == memo && Stopped(sc, neighbor, maxK, S, inters)
    ensures Sk != [] ==> SimkState(sc, neighbor, maxK, S + [Sk], inters, verified)
  {
    var cands := Candidates(neighbor, |neighbor|, S[|S| - 1]);
    NextLevelReady(sc, neighbor, maxK, S, memo, |S|);
    assert forall c :: c in cands ==> Vertices(c) !in seen.Keys;
    if Sk == [] {
      EmptyLevel(sc, neighbor, maxK, S, memo, inters, seen.Keys);
    } else {
      AppendLevel(sc, neighbor, maxK, S, memo, inters, seen.Keys, Sk);
      PassKeySizes(seen, cands, verified, inters, |S|);
      assert (S + [Sk])[1] == S[1];
      LevelCount(sc, neighbor, maxK, S + [Sk], inters);
    }
  }

  class CechComplex {
    const strategy: Strategy
    /** `get_intersections`, which the model does not look inside. */
    const crossing: Crossing
    var positions: seq<Point>
    var radius: seq<real>
    var maxK: Option<int>
    var N: nat
    var neighbor: seq<set<nat>>
    var S: seq<seq<seq<nat>>>
    var intersections: map<set<nat>, Point>

    constructor (strategy: Strategy, crossing: Crossing)
      ensures this.strategy == strategy && this.crossing == crossing
      ensures positions == [] && radius == [] && maxK == None && N == 0
      ensures neighbor == [] && S == [] && intersections == map[]
    {
      this.strategy := strategy;
      this.crossing := crossing;
      positions, radius, maxK, N := [], [], None, 0;
      neighbor, S, intersections := [], [], map[];
    }

    /** The balls the object was given. */
    function Balls(): Scene
      reads this`positions, this`radius
    {
      Scene(positions, radius, crossing)
    }

    /** The fields `cech()` sets before building level 0. */
    predicate Given()
      reads this`positions, this`radius, this`N
    {
      WellFormed(Balls()) && N == |positions|
    }

    /**
     * `cech(positions, radius, maxK)`: level 0, then level 1 with the
     * neighbour sets, then the levels of the object's strategy. Every ball
     * needs a radius; with a single ball the construction would not read it,
     * and that call is not covered.
     */
    method Cech(positions: seq<Point>, radius: seq<real>, maxK: Option<int>) returns (result: seq<seq<seq<nat>>>)
      requires |positions| <= |radius|
      modifies this
      ensures this.positions == positions && this.radius == radius && this.maxK == maxK
      ensures N == |positions| && NeighborsOk(Balls(), neighbor)
      ensures result == S && |S| >= 2 && S[0] == Sim0(N) && S[1] == Edges(Balls(), N)
      ensures strategy == Optimized ==>
                LevelsBuilt(Balls(), neighbor, maxK, S, intersections) && Stopped(Balls(), neighbor, maxK, S, intersections)
      ensures strategy == Baseline ==>
                LevelsBuiltLE(Balls(), neighbor, maxK, S) && StoppedLE(Balls(), neighbor, maxK, S)
      ensures strategy == Baseline ==> intersections == old(intersections)
    {
      this.positions, this.radius, this.maxK, N := positions, radius, maxK, |positions|;
      neighbor := seq(N, i => {});
      var s0 := Sim0(N);
      var s1 := Sim1();
      S := [s0, s1];
      Levels();
      assert S[0] == s0;
      result := S;
    }

    /** The levels from 2 on, by the object's strategy. */
    method Levels()
      requires Given() && NeighborsOk(Balls(), neighbor) && |S| == 2 && S[1] == Edges(Balls(), N)
      modifies this`S, this`intersections
      ensures |S| >= 2 && S[0] == old(S[0]) && S[1] == old(S[1])
      ensures strategy == Optimized ==>
                LevelsBuilt(Balls(), neighbor, maxK, S, intersections) && Stopped(Balls(), neighbor, maxK, S, intersections)
      ensures strategy == Baseline ==>
                LevelsBuiltLE(Balls(), neighbor, maxK, S) && StoppedLE(Balls(), neighbor, maxK, S)
      ensures strategy == Baseline ==> intersections == old(intersections)
    {
      if strategy == Optimized {
        Simk();
      } else {
        SimkLE();
      }
    }

    /**
     * `sim1()`: the neighbour sets and level 1, the intersecting pairs
     * [i, j] with i < j in lexicographic order.
     */
    method Sim1() returns (S1: seq<seq<nat>>)
      requires Given() && |neighbor| == N
      modifies this`neighbor
      ensures NeighborsOk(Balls(), neighbor)
      ensures S1 == Edges(Balls(), N)
    {
      var sc := Balls();
      for i := 0 to N
        invariant |neighbor| == N && forall a :: 0 <= a < i ==> neighbor[a] == {}
      {
        neighbor := neighbor[i := {}];
      }
      S1 := [];
      assert NeighborsSoFar(sc, neighbor, 0, 1);
      for i := 0 to N
        invariant NeighborsSoFar(sc, neighbor, i, i + 1)
        invariant S1 == Edges(sc, i)
      {
        S1 := Sim1Row(sc, i, S1);
      }
      NeighborRow(sc, neighbor, N);
    }

    /** Row i of the nested loop of `sim1`: ball i against every later ball j. */
    method Sim1Row(sc: Scene, i: nat, S1: seq<seq<nat>>) returns (row: seq<seq<nat>>)
      requires WellFormed(sc) && i < N == |sc.positions| && NeighborsSoFar(sc, neighbor, i, i + 1)
      modifies this`neighbor
      ensures NeighborsSoFar(sc, neighbor, i + 1, i + 2)
      ensures row == S1 + RowEdges(sc, i, N)
    {
      row := S1;
      for j := i + 1 to N
        invariant NeighborsSoFar(sc, neighbor, i, j)
        invariant row == S1 + RowEdges(sc, i, j)
      {
        NeighborStep(sc, neighbor, i, j);
        if Intersects(sc, i, j) {
          neighbor := neighbor[i := neighbor[i] + {j}];
          neighbor := neighbor[j := neighbor[j] + {i}];
          row := row + [[i, j]];
        }
      }
      NeighborRow(sc, neighbor, i);
    }

    /** The first scan of `verify`: the first cell of minimum radius. */
    method ScanSmallest(cells: seq<nat>) returns (smallest: nat)
      requires Cells(Balls(), cells) && |cells| > 0
      ensures smallest == Smallest(Balls(), cells)
    {
      smallest := cells[0];
      for t := 0 to |cells|
        invariant smallest == MinBall(Balls(), cells[0], cells[..t])
      {
        var c := cells[t];
        assert cells[..t + 1][..t] == cells[..t];
        if radius[c] < radius[smallest] {
          smallest := c;
        }
      }
      PrefixAll(cells);
    }

    /** The second scan of `verify`: whether every other cell contains `smallest`. */
    method ScanInside(cells: seq<nat>, smallest: nat) returns (inside: bool)
      requires Cells(Balls(), cells) && smallest < N && Given()
      ensures inside == AllInside(Balls(), cells, smallest)
    {
      inside := true;
      for t := 0 to |cells|
        invariant inside == forall u :: 0 <= u < t ==> cells[u] == smallest || IsCellInsideCell(Balls(), cells[u], smallest)
      {
        var c := cells[t];
        if c == smallest || IsCellInsideCell(Balls(), c, smallest) {
          continue;
        } else {
          inside := false;
        }
      }
    }

    /**
     * The fallback of the optimized `verify`: for each earlier position j,
     * the crossing points of the last cell with cell j, each compared with
     * every cell at a position other than the two.
     */
    method Fallback(cells: seq<nat>) returns (found: Option<Point>)
      requires Cells(Balls(), cells) && |cells| > 0
      ensures found == SearchFrom(Balls(), cells, 0)
    {
      var sc := Balls();
      var i := |cells| - 1;
      for j := 0 to i
        invariant SearchFrom(sc, cells, 0) == SearchFrom(sc, cells, j)
      {
        var here := ScanCrossings(sc, cells, j);
        if here.Some? {
          return here;
        }
      }
      return None;
    }

    /** The crossing points of the last cell with cell j, first one inside every other cell. */
    method ScanCrossings(sc: Scene, cells: seq<nat>, j: nat) returns (found: Option<Point>)
      requires Cells(sc, cells) && j < |cells| - 1
      ensures found == FirstInsideAllBut(sc, cells, |cells| - 1, j, Intersection(sc, cells[|cells| - 1], cells[j]))
    {
      var i := |cells| - 1;
      var x := Intersection(sc, cells[i], cells[j]);
      for t := 0 to |x|
        invariant FirstInsideAllBut(sc, cells, i, j, x) == FirstInsideAllBut(sc, cells, i, j, x[t..])
      {
        assert x[t..][1..] == x[t + 1..];
        var holds := ScanAllBut(sc, cells, i, j, x[t]);
        if holds {
          return Some(x[t]);
        }
      }
      return None;
    }

    /** Whether p lies in every cell except those at positions i and j. */
    method ScanAllBut(sc: Scene, cells: seq<nat>, i: nat, j: nat, p: Point) returns (holds: bool)
      requires Cells(sc, cells)
      ensures holds == InsideAllBut(sc, cells, i, j, p)
    {
      var u := 0;
      while u < |cells|
        invariant 0 <= u <= |cells|
        invariant forall w :: 0 <= w < u && w != i && w != j ==> IsPointInsideCell(sc, p, cells[w])
      {
        if u == i || u == j {
          u := u + 1;
          continue;
        }
        if !IsPointInsideCell(sc, p, cells[u]) {
          return false;
        }
        u := u + 1;
      }
      return true;
    }

    /**
     * `CechComplex.verify(cells)`: the containment shortcut, the reuse of a
     * known witness, then the fallback.
     */
    method Verify(cells: seq<nat>) returns (v: Verdict)
      requires Given() && DecideReady(Balls(), intersections, cells)
      ensures v == Decide(Balls(), intersections, cells)
    {
      var smallest := ScanSmallest(cells);
      var inside := ScanInside(cells, smallest);
      if inside {
        return Verified(positions[smallest]);
      }
      var newCand := cells[|cells| - 1];
      var preSet := cells[..|cells| - 1];
      if |preSet| == 2 {
        var x := Intersection(Balls(), cells[0], cells[1]);
        for t := 0 to |x|
          invariant FirstInside(Balls(), x, newCand) == FirstInside(Balls(), x[t..], newCand)
        {
          assert x[t..][1..] == x[t + 1..];
          if IsPointInsideCell(Balls(), x[t], newCand) {
            return Verified(x[t]);
          }
        }
      } else if |preSet| > 2 && IsPointInsideCell(Balls(), intersections[Vertices(preSet)], newCand) {
        return Verified(intersections[Vertices(preSet)]);
      }
      var found := Fallback(cells);
      if found.Some? {
        return Verified(found.value);
      }
      return Rejected;
    }

    /** `CechComplex.getCandidates(k)`: each simplex of level k-1 extended by each common neighbour. */
    method GetCandidates(k: nat) returns (cands: seq<seq<nat>>)
      requires 1 <= k <= |S| && |neighbor| == N && LevelExtendable(neighbor, S[k - 1])
      ensures cands == Candidates(neighbor, N, S[k - 1])
    {
      var level := S[k - 1];
      cands := [];
      for t := 0 to |level|
        invariant cands == Candidates(neighbor, N, level[..t])
      {
        CandidatesStep(neighbor, N, level, t);
        var row := Extend(level[t]);
        cands := cands + row;
      }
      PrefixAll(level);
    }

    /** The inner loop of `getCandidates`: s followed by each common neighbour outside s, in ascending order. */
    method Extend(s: seq<nat>) returns (row: seq<seq<nat>>)
      requires |neighbor| == N && Extendable(neighbor, s)
      ensures row == Extensions(neighbor, N, s)
    {
      var cand := Common(neighbor, s) - Vertices(s);
      var order := Ascending(cand, N);
      row := [];
      for u := 0 to |order|
        invariant row == seq(u, w requires 0 <= w < u => s + [order[w]])
      {
        row := row + [s + [order[u]]];
      }
    }

    /**
     * One pass of `_simk` in `CechComplex.simk`: each candidate whose vertex
     * set is not yet a key of `verified` is verified, recorded in `verified`,
     * and kept with its witness when accepted.
     */
    method SimkLevel(k: nat, verified: map<set<nat>, bool>) returns (Sk: seq<seq<nat>>, done: map<set<nat>, bool>, ghost calls: seq<seq<nat>>)
      requires Given() && |neighbor| == N && 2 <= k <= |S| && LevelExtendable(neighbor, S[k - 1])
      requires forall c :: c in Candidates(neighbor, N, S[k - 1]) ==> DecideReady(Balls(), intersections, c)
      requires intersections.Keys <= verified.Keys
      requires forall K :: K in verified ==> (verified[K] <==> K in intersections)
      modifies this`intersections
      ensures PassDone(Balls(), old(intersections), verified, Candidates(neighbor, N, S[k - 1]), Sk, done, calls, intersections)
    {
      var sc := Balls();
      var cands := GetCandidates(k);
      ghost var memo := intersections;
      Sk, done, calls := [], verified, [];
      PassStart(sc, memo, verified, cands);
      for t := 0 to |cands|
        invariant sc == Balls() && Given()
        invariant PassState(sc, memo, verified, cands, t, Sk, done, calls, intersections)
      {
        Sk, done, calls := SimkStep(sc, memo, verified, cands, t, Sk, done, calls);
      }
      PassFinish(sc, memo, verified, cands, Sk, done, calls, intersections);
    }

    /** The body of the loop of `_simk`: the candidate at position t. */
    method SimkStep(sc: Scene, ghost memo: map<set<nat>, Point>, verified: map<set<nat>, bool>, cands: seq<seq<nat>>, t: nat,
                    Sk: seq<seq<nat>>, done: map<set<nat>, bool>, ghost calls: seq<seq<nat>>)
      returns (Sk': seq<seq<nat>>, done': map<set<nat>, bool>, ghost calls': seq<seq<nat>>)
      requires sc == Balls() && Given() && t < |cands|
      requires forall c :: c in cands ==> DecideReady(sc, memo, c)
      requires PassState(sc, memo, verified, cands, t, Sk, done, calls, intersections)
      modifies this`intersections
      ensures PassState(sc, memo, verified, cands, t + 1, Sk', done', calls', intersections)
    {
      var cand := cands[t];
      var sig := Vertices(cand);
      assert cand in cands;
      Sk', done', calls' := Sk, done, calls;
      if sig !in done {
        DecideFrame(sc, memo, intersections, cand);
        var v := Verify(cand);
        if v.Verified? {
          PassAccepted(sc, memo, verified, cands, t, Sk, done, calls, intersections);
          intersections := intersections[sig := v.point];
          Sk' := Sk + [cand];
        } else {
          PassRejected(sc, memo, verified, cands, t, Sk, done, calls, intersections);
        }
        done' := done[sig := v.Verified?];
        calls' := calls + [cand];
      } else {
        PassSkip(sc, memo, verified, cands, t, Sk, done, calls, intersections);
      }
    }

    /**
     * `CechComplex.simk()`: build levels 2, 3, ... until the cap is passed or
     * a level comes out empty.
     */
    method Simk()
      requires Given() && NeighborsOk(Balls(), neighbor) && |S| == 2 && S[1] == Edges(Balls(), N)
      modifies this`S, this`intersections
      ensures |S| >= 2 && S[0] == old(S[0]) && S[1] == old(S[1])
      ensures LevelsBuilt(Balls(), neighbor, maxK, S, intersections)
      ensures Stopped(Balls(), neighbor, maxK, S, intersections)
    {
      var sc := Balls();
      intersections := map[];
      var verified: map<set<nat>, bool> := map[];
      var k := 2;
      SimkStart(sc, neighbor, maxK, S);
      while true
        invariant k == |S| && S[0] == old(S[0]) && S[1] == old(S[1]) && k <= N + 2
        invariant SimkState(sc, neighbor, maxK, S, intersections, verified)
        decreases N + 2 - k
      {
        if Capped(maxK, k) {
          break;
        }
        var Sk;
        Sk, verified := SimkPass(sc, k, verified);
        if |Sk| == 0 {
          break;
        }
        S := S + [Sk];
        k := k + 1;
      }
    }

    /** One round of the loop of `simk`: `_simk` on the last level, and what its result means. */
    method SimkPass(sc: Scene, k: nat, verified: map<set<nat>, bool>) returns (Sk: seq<seq<nat>>, done: map<set<nat>, bool>)
      requires sc == Balls() && Given() && k == |S| && !Capped(maxK, k)
      requires SimkState(sc, neighbor, maxK, S, intersections, verified)
      modifies this`intersections
      ensures Sk == [] ==> intersections == old(intersections) && Stopped(sc, neighbor, maxK, S, intersections)
      ensures Sk != [] ==> SimkState(sc, neighbor, maxK, S + [Sk], intersections, done)
    {
      ghost var memo := intersections;
      NextLevelReady(sc, neighbor, maxK, S, intersections, k);
      ghost var calls;
      Sk, done, calls := SimkLevel(k, verified);
      SimkAdvance(sc, neighbor, maxK, S, memo, verified, Sk, done, calls, intersections);
    }

    /** `CechComplexLE.getCandidates(k)`: each ball followed by each k-combination of its neighbours. */
    method GetCandidatesLE(k: nat) returns (cands: seq<seq<nat>>)
      requires |neighbor| == N
      ensures cands == CandidatesLE(neighbor, N, k, N)
    {
      cands := [];
      for i := 0 to N
        invariant cands == CandidatesLE(neighbor, N, k, i)
      {
        CandidatesLEStep(neighbor, N, k, i);
        var row := StarsLE(i, Combinations(Ascending(neighbor[i], N), k));
        cands := cands + row;
      }
    }

    /** The inner loop of the baseline `getCandidates`: `[i, *cand]` for each combination. */
    method StarsLE(i: nat, combos: seq<seq<nat>>) returns (row: seq<seq<nat>>)
      ensures row == Prepend(i, combos)
    {
      row := [];
      for t := 0 to |combos|
        invariant row == Prepend(i, combos[..t])
      {
        PrependStep(i, combos, t);
        row := row + [[i] + combos[t]];
      }
      PrefixAll(combos);
    }

    /**
     * `CechComplexLE.verify(cells)`: the containment shortcut, then every
     * crossing point of every pair of cells, compared with the cells other
     * than the pair's two balls.
     */
    method VerifyLE(cells: seq<nat>) returns (ok: bool)
      requires Given() && Cells(Balls(), cells) && |cells| > 0
      ensures ok == DecideLE(Balls(), cells)
    {
      var sc := Balls();
      var smallest := ScanSmallest(cells);
      var inside := ScanInside(cells, smallest);
      if inside {
        return true;
      }
      var inter := PairPointsLE(sc, cells);
      for t := 0 to |inter|
        invariant forall w :: 0 <= w < t ==> !Witnessed(sc, cells, inter[w])
      {
        var holds := ScanWitness(sc, cells, inter[t]);
        if holds {
          return true;
        }
      }
      return false;
    }

    /** The `inter` list of the baseline `verify`: the tagged crossing points of every pair of cells. */
    method PairPointsLE(sc: Scene, cells: seq<nat>) returns (inter: seq<(Point, nat, nat)>)
      requires Cells(sc, cells)
      ensures inter == PairPoints(sc, cells, |cells|)
    {
      inter := [];
      for a := 0 to |cells|
        invariant inter == PairPoints(sc, cells, a)
      {
        PairRowsSnoc(sc, cells, a);
        FlattenSnoc(PairRows(sc, cells, a), RowPoints(sc, cells, a, |cells|));
        var row := RowPointsLE(sc, cells, a);
        inter := inter + row;
      }
    }

    /** The tagged crossing points of the pairs whose first position is a. */
    method RowPointsLE(sc: Scene, cells: seq<nat>, a: nat) returns (row: seq<(Point, nat, nat)>)
      requires Cells(sc, cells) && a < |cells|
      ensures row == RowPoints(sc, cells, a, |cells|)
    {
      row := [];
      for b := a + 1 to |cells|
        invariant row == RowPoints(sc, cells, a, b)
      {
        var x := Intersection(sc, cells[a], cells[b]);
        FlattenSnoc(PairTags(sc, cells, a, b), Tag(x, cells[a], cells[b]));
        row := row + Tag(x, cells[a], cells[b]);
      }
    }

    /** Whether the tagged point (p, i, j) lies in every cell other than the balls i and j. */
    method ScanWitness(sc: Scene, cells: seq<nat>, x: (Point, nat, nat)) returns (holds: bool)
      requires Cells(sc, cells)
      ensures holds == Witnessed(sc, cells, x)
    {
      var (p, i, j) := x;
      var u := 0;
      while u < |cells|
        invariant 0 <= u <= |cells|
        invariant forall w :: 0 <= w < u && cells[w] != i && cells[w] != j ==> IsPointInsideCell(sc, p, cells[w])
      {
        var cellid := cells[u];
        if cellid == i || cellid == j {
          u := u + 1;
          continue;
        } else if !IsPointInsideCell(sc, p, cellid) {
          return false;
        }
        u := u + 1;
      }
      return true;
    }

    /** One pass of `_simk` in `CechComplexLE.simk`: the candidates `verify` accepts, in order. */
    method SimkLevelLE(k: nat) returns (Sk: seq<seq<nat>>)
      requires Given() && NeighborsOk(Balls(), neighbor)
      ensures Sk == AcceptedLE(Balls(), CandidatesLE(neighbor, N, k, N))
    {
      var sc := Balls();
      var cands := GetCandidatesLE(k);
      Sk := [];
      for t := 0 to |cands|
        invariant Sk == AcceptedLE(sc, cands[..t])
      {
        var cand := cands[t];
        CandidateLECells(sc, neighbor, k, cand);
        var ok := VerifyLE(cand);
        AcceptedLEStep(sc, cands, t);
        if ok {
          Sk := Sk + [cand];
        }
      }
      PrefixAll(cands);
    }

    /**
     * `CechComplexLE.simk()`: build levels 2, 3, ... until the cap is passed
     * or a level comes out empty.
     */
    method SimkLE()
      requires Given() && NeighborsOk(Balls(), neighbor) && |S| == 2
      modifies this`S
      ensures |S| >= 2 && S[0] == old(S[0]) && S[1] == old(S[1])
      ensures LevelsBuiltLE(Balls(), neighbor, maxK, S) && StoppedLE(Balls(), neighbor, maxK, S)
    {
      var k := 2;
      while true
        invariant k == |S| && S[0] == old(S[0]) && S[1] == old(S[1]) && k <= N + 2
        invariant LevelsBuiltLE(Balls(), neighbor, maxK, S)
        decreases N + 2 - k
      {
        if Capped(maxK, k) {
          break;
        }
        var Sk := SimkLevelLE(k);
        if |Sk| == 0 {
          break;
        }
        assert LevelLE(Balls(), neighbor, maxK, k, Sk);
        AppendLevelLE(Balls(), neighbor, maxK, S, Sk);
        S := S + [Sk];
        k := k + 1;
        LevelCountLE(Balls(), neighbor, maxK, S);
      }
    }
  }
}
