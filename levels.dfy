/**
 * The levels `simk` appends, as values. For the optimized strategy a level is
 * what `_simk` keeps of the candidates: each vertex set is submitted to
 * `verify` once (at its first candidate) and kept when the verdict is
 * positive. For the baseline a level is the candidates that `verify` accepts.
 */
module Levels {
  import opened Wrappers
  import opened Geometry
  import opened Simplices
  import opened CechBase
  import opened CandidateGen
  import opened Verification

  /** `self.maxK and k > self.maxK`: a cap of `None` or `0` means no cap. */
  predicate Capped(maxK: Option<int>, k: int)
  {
    maxK.Some? && maxK.value != 0 && k > maxK.value
  }

  /** `verify(cand)` can be called on cand and returns `True`. */
  predicate Accepts(sc: Scene, memo: map<set<nat>, Point>, c: seq<nat>)
  {
    DecideReady(sc, memo, c) && Decide(sc, memo, c).Verified?
  }

  /** The candidates `_simk` passes to `verify`: those whose vertex set is not yet a key of `verified`. */
  function Calls(seen: set<set<nat>>, cands: seq<seq<nat>>): seq<seq<nat>>
  {
    if cands == [] then []
    else
      var init := cands[..|cands| - 1];
      var c := cands[|cands| - 1];
      Calls(seen, init) + (if Vertices(c) in seen + VertexSets(init) then [] else [c])
  }

  /** The level `_simk` returns: the submitted candidates that `verify` accepts. */
  function Accepted(sc: Scene, memo: map<set<nat>, Point>, seen: set<set<nat>>, cands: seq<seq<nat>>): seq<seq<nat>>
  {
    if cands == [] then []
    else
      var init := cands[..|cands| - 1];
      var c := cands[|cands| - 1];
      Accepted(sc, memo, seen, init) +
        (if Vertices(c) !in seen + VertexSets(init) && Accepts(sc, memo, c) then [c] else [])
  }

  /** One more candidate of a pass of `_simk`: the calls made. */
  lemma CallsStep(seen: set<set<nat>>, cands: seq<seq<nat>>, t: nat)
    requires t < |cands|
    ensures Calls(seen, cands[..t + 1]) ==
            Calls(seen, cands[..t]) + (if Vertices(cands[t]) in seen + VertexSets(cands[..t]) then [] else [cands[t]])
  {
    assert cands[..t + 1][..t] == cands[..t];
  }

  /** One more candidate of a pass of `_simk`: the candidates kept. */
  lemma AcceptedStep(sc: Scene, memo: map<set<nat>, Point>, seen: set<set<nat>>, cands: seq<seq<nat>>, t: nat)
    requires t < |cands|
    ensures Accepted(sc, memo, seen, cands[..t + 1]) ==
            Accepted(sc, memo, seen, cands[..t]) +
              (if Vertices(cands[t]) !in seen + VertexSets(cands[..t]) && Accepts(sc, memo, cands[t]) then [cands[t]] else [])
  {
    assert cands[..t + 1][..t] == cands[..t];
  }

  lemma {:induction false} CallsInCands(seen: set<set<nat>>, cands: seq<seq<nat>>, x: seq<nat>)
    requires x in Calls(seen, cands)
    ensures x in cands
  {
    var init := cands[..|cands| - 1];
    if x in Calls(seen, init) {
      CallsInCands(seen, init, x);
      assert x in init;
    }
  }

  /** Every vertex set of a candidate that is not already a key is submitted, and no other. */
  lemma {:induction false} CallsSets(seen: set<set<nat>>, cands: seq<seq<nat>>)
    ensures VertexSets(Calls(seen, cands)) == VertexSets(cands) - seen
  {
    if cands != [] {
      var init := cands[..|cands| - 1];
      var c := cands[|cands| - 1];
      CallsSets(seen, init);
      assert VertexSets(cands) == VertexSets(init) + {Vertices(c)};
      if Vertices(c) !in seen + VertexSets(init) {
        assert Calls(seen, cands) == Calls(seen, init) + [c];
        VertexSetsSnoc(Calls(seen, init), c);
      } else {
        assert Calls(seen, cands) == Calls(seen, init);
      }
    }
  }

  /** Each vertex set is submitted at most once. */
  lemma {:induction false} CallsOnce(seen: set<set<nat>>, cands: seq<seq<nat>>)
    ensures SetsDistinct(Calls(seen, cands))
  {
    if cands != [] {
      var init := cands[..|cands| - 1];
      var c := cands[|cands| - 1];
      CallsOnce(seen, init);
      CallsSets(seen, init);
      var prev := Calls(seen, init);
      if Vertices(c) !in seen + VertexSets(init) {
        forall a | 0 <= a < |prev| ensures Vertices(prev[a]) != Vertices(c) {
          VertexSetsMember(prev, Vertices(prev[a]));
        }
      }
    }
  }

  /** A candidate is kept exactly when it is submitted and accepted. */
  lemma {:induction false} AcceptedCalls(sc: Scene, memo: map<set<nat>, Point>, seen: set<set<nat>>, cands: seq<seq<nat>>, x: seq<nat>)
    ensures x in Accepted(sc, memo, seen, cands) <==> x in Calls(seen, cands) && Accepts(sc, memo, x)
  {
    if cands != [] {
      AcceptedCalls(sc, memo, seen, cands[..|cands| - 1], x);
    }
  }

  /** The vertex sets kept are vertex sets of candidates that were not keys before. */
  lemma {:induction false} AcceptedSets(sc: Scene, memo: map<set<nat>, Point>, seen: set<set<nat>>, cands: seq<seq<nat>>)
    ensures VertexSets(Accepted(sc, memo, seen, cands)) <= VertexSets(cands) - seen
  {
    if cands != [] {
      var init := cands[..|cands| - 1];
      var c := cands[|cands| - 1];
      AcceptedSets(sc, memo, seen, init);
      assert VertexSets(cands) == VertexSets(init) + {Vertices(c)};
      if Vertices(c) !in seen + VertexSets(init) && Accepts(sc, memo, c) {
        assert Accepted(sc, memo, seen, cands) == Accepted(sc, memo, seen, init) + [c];
        VertexSetsSnoc(Accepted(sc, memo, seen, init), c);
      } else {
        assert Accepted(sc, memo, seen, cands) == Accepted(sc, memo, seen, init);
      }
    }
  }

  /** No two entries of a level share a vertex set. */
  lemma {:induction false} AcceptedDistinct(sc: Scene, memo: map<set<nat>, Point>, seen: set<set<nat>>, cands: seq<seq<nat>>)
    ensures SetsDistinct(Accepted(sc, memo, seen, cands))
  {
    if cands != [] {
      var init := cands[..|cands| - 1];
      var c := cands[|cands| - 1];
      AcceptedDistinct(sc, memo, seen, init);
      AcceptedSets(sc, memo, seen, init);
      var prev := Accepted(sc, memo, seen, init);
      if Vertices(c) !in seen + VertexSets(init) && Accepts(sc, memo, c) {
        forall a | 0 <= a < |prev| ensures Vertices(prev[a]) != Vertices(c) {
          VertexSetsMember(prev, Vertices(prev[a]));
        }
      }
    }
  }

  /** Keys that no candidate can have do not change which candidates are kept. */
  lemma {:induction false} AcceptedUnseen(sc: Scene, memo: map<set<nat>, Point>, seen: set<set<nat>>, cands: seq<seq<nat>>)
    requires forall c :: c in cands ==> Vertices(c) !in seen
    ensures Accepted(sc, memo, seen, cands) == Accepted(sc, memo, {}, cands)
  {
    if cands != [] {
      var init := cands[..|cands| - 1];
      AcceptedUnseen(sc, memo, seen, init);
    }
  }

  /** m2 holds every entry of m1 unchanged. */
  predicate MemoGrows(m1: map<set<nat>, Point>, m2: map<set<nat>, Point>)
  {
    forall K :: K in m1 ==> K in m2 && m2[K] == m1[K]
  }

  /** Entries added to the memo later do not change which candidates are kept. */
  lemma {:induction false} AcceptedFrame(sc: Scene, m1: map<set<nat>, Point>, m2: map<set<nat>, Point>,
                                         seen: set<set<nat>>, cands: seq<seq<nat>>)
    requires forall c :: c in cands ==> DecideReady(sc, m1, c)
    requires MemoGrows(m1, m2)
    ensures Accepted(sc, m1, seen, cands) == Accepted(sc, m2, seen, cands)
  {
    if cands != [] {
      var c := cands[|cands| - 1];
      AcceptedFrame(sc, m1, m2, seen, cands[..|cands| - 1]);
      DecideFrame(sc, m1, m2, c);
    }
  }

  /** The baseline keeps c when it is a non-empty list of balls that `verify` accepts. */
  predicate AcceptsLE(sc: Scene, c: seq<nat>)
  {
    Cells(sc, c) && |c| > 0 && DecideLE(sc, c)
  }

  /** `[cand for cand in getCandidates(k) if verify(cand)]`. */
  function AcceptedLE(sc: Scene, cands: seq<seq<nat>>): seq<seq<nat>>
  {
    if cands == [] then []
    else
      AcceptedLE(sc, cands[..|cands| - 1]) +
        (if AcceptsLE(sc, cands[|cands| - 1]) then [cands[|cands| - 1]] else [])
  }

  /** One more candidate of the baseline pass. */
  lemma AcceptedLEStep(sc: Scene, cands: seq<seq<nat>>, t: nat)
    requires t < |cands|
    ensures AcceptedLE(sc, cands[..t + 1]) == AcceptedLE(sc, cands[..t]) + (if AcceptsLE(sc, cands[t]) then [cands[t]] else [])
  {
    assert cands[..t + 1][..t] == cands[..t];
  }

  lemma {:induction false} AcceptedLEMember(sc: Scene, cands: seq<seq<nat>>, x: seq<nat>)
    ensures x in AcceptedLE(sc, cands) <==> x in cands && AcceptsLE(sc, x)
  {
    if cands != [] {
      var init := cands[..|cands| - 1];
      AcceptedLEMember(sc, init, x);
      assert cands == init + [cands[|cands| - 1]];
    }
  }

  /** The memo keys `simk` has added by the time S has |S| levels: the vertex sets of levels 2 .. |S|-1. */
  function LevelSets(S: seq<seq<seq<nat>>>): set<set<nat>>
  {
    if |S| <= 2 then {} else LevelSets(S[..|S| - 1]) + VertexSets(S[|S| - 1])
  }

  lemma {:induction false} LevelSetsMember(S: seq<seq<seq<nat>>>, j: nat, s: seq<nat>)
    requires 2 <= j < |S| && s in S[j]
    ensures Vertices(s) in LevelSets(S)
  {
    if j < |S| - 1 {
      assert S[..|S| - 1][j] == S[j];
      LevelSetsMember(S[..|S| - 1], j, s);
    } else {
      var t :| 0 <= t < |S[j]| && S[j][t] == s;
      VertexSetsMember(S[j], Vertices(s));
    }
  }

  /**
   * The optimized levels built so far: each level from 2 on was allowed by
   * the cap, is non-empty, and is exactly what `_simk` keeps of the candidates
   * of the level before; the memo holds one entry per vertex set of those
   * levels, the witness `verify` returned for it.
   */
  predicate LevelsBuilt(sc: Scene, neighbor: seq<set<nat>>, maxK: Option<int>, S: seq<seq<seq<nat>>>, memo: map<set<nat>, Point>)
  {
    && |neighbor| == |sc.positions| && |S| >= 2
    && (forall j :: 1 <= j < |S| ==> LevelExtendable(neighbor, S[j]))
    && (forall j :: 2 <= j < |S| ==> Level(sc, neighbor, maxK, memo, j, S[j - 1], S[j]) && AllRecorded(sc, memo, S[j]))
    && memo.Keys == LevelSets(S)
  }

  /** Level j, uncapped and non-empty, is what `_simk` keeps of the candidates built from `prev`. */
  predicate Level(sc: Scene, neighbor: seq<set<nat>>, maxK: Option<int>, memo: map<set<nat>, Point>,
                  j: nat, prev: seq<seq<nat>>, level: seq<seq<nat>>)
  {
    && LevelExtendable(neighbor, prev) && !Capped(maxK, j) && level != []
    && level == Accepted(sc, memo, {}, Candidates(neighbor, |neighbor|, prev))
  }

  /** Every entry of the level has its witness in the memo. */
  predicate AllRecorded(sc: Scene, memo: map<set<nat>, Point>, level: seq<seq<nat>>)
  {
    forall t :: 0 <= t < |level| ==> Recorded(sc, memo, level[t])
  }

  /** c is accepted and the memo holds, under its vertex set, the witness `verify` returned for it. */
  predicate Recorded(sc: Scene, memo: map<set<nat>, Point>, c: seq<nat>)
  {
    Accepts(sc, memo, c) && Vertices(c) in memo && memo[Vertices(c)] == Decide(sc, memo, c).point
  }

  /** The memo has gained, for each kept candidate, the witness `verify` returned for it. */
  predicate MemoState(sc: Scene, memo: map<set<nat>, Point>, Sk: seq<seq<nat>>, inters: map<set<nat>, Point>)
  {
    && memo.Keys <= inters.Keys && inters.Keys == memo.Keys + VertexSets(Sk)
    && MemoGrows(memo, inters)
    && (forall u :: 0 <= u < |Sk| ==>
          && Accepts(sc, memo, Sk[u]) && Vertices(Sk[u]) in inters
          && inters[Vertices(Sk[u])] == Decide(sc, memo, Sk[u]).point)
  }

  /** A pass that keeps nothing leaves the memo as it was and closes the construction. */
  lemma EmptyLevel(sc: Scene, neighbor: seq<set<nat>>, maxK: Option<int>, S: seq<seq<seq<nat>>>,
                   memo: map<set<nat>, Point>, inters: map<set<nat>, Point>, seen: set<set<nat>>)
    requires LevelsBuilt(sc, neighbor, maxK, S, memo)
    requires forall c :: c in Candidates(neighbor, |neighbor|, S[|S| - 1]) ==> Vertices(c) !in seen
    requires Accepted(sc, memo, seen, Candidates(neighbor, |neighbor|, S[|S| - 1])) == []
    requires MemoState(sc, memo, [], inters)
    ensures inters == memo && Stopped(sc, neighbor, maxK, S, inters)
  {
    assert inters.Keys == memo.Keys;
    AcceptedUnseen(sc, memo, seen, Candidates(neighbor, |neighbor|, S[|S| - 1]));
  }

  /** Entries added to the memo later leave a recorded witness in place. */
  lemma WitnessFrame(sc: Scene, m1: map<set<nat>, Point>, m2: map<set<nat>, Point>, c: seq<nat>)
    requires Accepts(sc, m1, c) && Vertices(c) in m2 && m2[Vertices(c)] == Decide(sc, m1, c).point
    requires MemoGrows(m1, m2)
    ensures Recorded(sc, m2, c)
  {
    DecideFrame(sc, m1, m2, c);
  }

  lemma RecordedFrame(sc: Scene, m1: map<set<nat>, Point>, m2: map<set<nat>, Point>, level: seq<seq<nat>>)
    requires AllRecorded(sc, m1, level) && MemoGrows(m1, m2)
    ensures AllRecorded(sc, m2, level)
  {
    forall t | 0 <= t < |level| ensures Recorded(sc, m2, level[t]) {
      WitnessFrame(sc, m1, m2, level[t]);
    }
  }

  /** Why the loop stopped: the cap was reached, or the next level would be empty. */
  predicate Stopped(sc: Scene, neighbor: seq<set<nat>>, maxK: Option<int>, S: seq<seq<seq<nat>>>, memo: map<set<nat>, Point>)
    requires LevelsBuilt(sc, neighbor, maxK, S, memo)
  {
    Capped(maxK, |S|) || Accepted(sc, memo, {}, Candidates(neighbor, |neighbor|, S[|S| - 1])) == []
  }

  /** Level 1 lists pairs of neighbours: they are 1-simplices. */
  lemma EdgesAreSimplices(sc: Scene, neighbor: seq<set<nat>>, e: seq<nat>)
    requires WellFormed(sc) && NeighborsOk(sc, neighbor)
    requires e in Edges(sc, |sc.positions|)
    ensures Simplex(neighbor, |neighbor|, e, 1) && Extendable(neighbor, e)
  {
    EdgesMember(sc, |sc.positions|, e);
  }

  /**
   * Every entry of level j is a j-simplex (j+1 distinct balls, pairwise
   * neighbours), and from level 2 on its prefix without the last ball is an
   * entry of level j-1.
   */
  lemma {:induction false} LevelSimplices(sc: Scene, neighbor: seq<set<nat>>, maxK: Option<int>,
                                          S: seq<seq<seq<nat>>>, memo: map<set<nat>, Point>, j: nat, s: seq<nat>)
    requires WellFormed(sc) && NeighborsOk(sc, neighbor) && LevelsBuilt(sc, neighbor, maxK, S, memo)
    requires S[1] == Edges(sc, |sc.positions|)
    requires 1 <= j < |S| && s in S[j]
    ensures Simplex(neighbor, |neighbor|, s, j)
    ensures j >= 2 ==> s[..j] in S[j - 1]
  {
    if j == 1 {
      EdgesAreSimplices(sc, neighbor, s);
    } else {
      var cands := Candidates(neighbor, |neighbor|, S[j - 1]);
      AcceptedCalls(sc, memo, {}, cands, s);
      CallsInCands({}, cands, s);
      var prev := S[j - 1];
      forall p | p in prev ensures Simplex(neighbor, |neighbor|, p, j - 1) {
        LevelSimplices(sc, neighbor, maxK, S, memo, j - 1, p);
      }
      CandidatesAreSimplices(neighbor, S[j - 1], j, s);
    }
  }

  /** No level holds two entries with the same vertex set. */
  lemma LevelsUnique(sc: Scene, neighbor: seq<set<nat>>, maxK: Option<int>, S: seq<seq<seq<nat>>>, memo: map<set<nat>, Point>, j: nat)
    requires WellFormed(sc) && LevelsBuilt(sc, neighbor, maxK, S, memo)
    requires 2 <= j < |S|
    ensures SetsDistinct(S[j])
  {
    AcceptedDistinct(sc, memo, {}, Candidates(neighbor, |neighbor|, S[j - 1]));
  }

  /**
   * The candidates built from level j-1 are j-simplices with j+1 distinct
   * balls, and the memo lookup of `verify` never misses on them: for a
   * candidate with more than three cells, the vertex set of its first cells
   * is a key of the memo.
   */
  lemma NextCandidate(sc: Scene, neighbor: seq<set<nat>>, maxK: Option<int>, S: seq<seq<seq<nat>>>,
                      memo: map<set<nat>, Point>, j: nat, c: seq<nat>)
    requires WellFormed(sc) && NeighborsOk(sc, neighbor) && LevelsBuilt(sc, neighbor, maxK, S, memo)
    requires S[1] == Edges(sc, |sc.positions|)
    requires 2 <= j <= |S| && c in Candidates(neighbor, |neighbor|, S[j - 1])
    ensures Simplex(neighbor, |neighbor|, c, j) && |Vertices(c)| == j + 1
    ensures DecideReady(sc, memo, c)
  {
    var prev := S[j - 1];
    forall p | p in prev ensures Simplex(neighbor, |neighbor|, p, j - 1) {
      LevelSimplices(sc, neighbor, maxK, S, memo, j - 1, p);
    }
    CandidatesAreSimplices(neighbor, prev, j, c);
    DistinctSize(c);
    if |c| > 3 {
      LevelSetsMember(S, j - 1, c[..j]);
      assert c[..|c| - 1] == c[..j];
    }
  }

  /**
   * All candidates built from level j-1 can be verified against the memo,
   * and their vertex sets have j+1 balls.
   */
  lemma NextLevelReady(sc: Scene, neighbor: seq<set<nat>>, maxK: Option<int>, S: seq<seq<seq<nat>>>,
                       memo: map<set<nat>, Point>, j: nat)
    requires WellFormed(sc) && NeighborsOk(sc, neighbor) && LevelsBuilt(sc, neighbor, maxK, S, memo)
    requires S[1] == Edges(sc, |sc.positions|)
    requires 2 <= j <= |S|
    ensures forall c :: c in Candidates(neighbor, |neighbor|, S[j - 1]) ==>
              DecideReady(sc, memo, c) && |Vertices(c)| == j + 1
    ensures forall K :: K in VertexSets(Candidates(neighbor, |neighbor|, S[j - 1])) ==> |K| == j + 1
  {
    var cands := Candidates(neighbor, |neighbor|, S[j - 1]);
    forall c | c in cands ensures DecideReady(sc, memo, c) && |Vertices(c)| == j + 1 {
      NextCandidate(sc, neighbor, maxK, S, memo, j, c);
    }
    forall K | K in VertexSets(cands) ensures |K| == j + 1 {
      VertexSetsMember(cands, K);
    }
  }

  /** Entries added to the memo later leave the levels already built as they were. */
  lemma LevelFrame(sc: Scene, neighbor: seq<set<nat>>, maxK: Option<int>, S: seq<seq<seq<nat>>>,
                   m1: map<set<nat>, Point>, m2: map<set<nat>, Point>, seen: set<set<nat>>, j: nat)
    requires WellFormed(sc) && NeighborsOk(sc, neighbor) && LevelsBuilt(sc, neighbor, maxK, S, m1)
    requires S[1] == Edges(sc, |sc.positions|)
    requires MemoGrows(m1, m2) && 2 <= j <= |S|
    ensures Accepted(sc, m1, seen, Candidates(neighbor, |neighbor|, S[j - 1])) ==
            Accepted(sc, m2, seen, Candidates(neighbor, |neighbor|, S[j - 1]))
  {
    var cands := Candidates(neighbor, |neighbor|, S[j - 1]);
    forall c | c in cands ensures DecideReady(sc, m1, c) {
      NextCandidate(sc, neighbor, maxK, S, m1, j, c);
    }
    AcceptedFrame(sc, m1, m2, seen, cands);
  }

  /** Entries added to the memo later leave every level built so far, with its witnesses, in place. */
  lemma PrefixFrame(sc: Scene, neighbor: seq<set<nat>>, maxK: Option<int>, S: seq<seq<seq<nat>>>,
                    m1: map<set<nat>, Point>, m2: map<set<nat>, Point>)
    requires WellFormed(sc) && NeighborsOk(sc, neighbor) && LevelsBuilt(sc, neighbor, maxK, S, m1)
    requires S[1] == Edges(sc, |sc.positions|)
    requires MemoGrows(m1, m2)
    ensures forall j :: 2 <= j < |S| ==> Level(sc, neighbor, maxK, m2, j, S[j - 1], S[j]) && AllRecorded(sc, m2, S[j])
  {
    forall j | 2 <= j < |S|
      ensures Level(sc, neighbor, maxK, m2, j, S[j - 1], S[j]) && AllRecorded(sc, m2, S[j])
    {
      LevelFrame(sc, neighbor, maxK, S, m1, m2, {}, j);
      RecordedFrame(sc, m1, m2, S[j]);
    }
  }

  /**
   * Appending the level `_simk` returns keeps the levels well built, once
   * the memo has gained the witnesses of its entries.
   */
  lemma AppendLevel(sc: Scene, neighbor: seq<set<nat>>, maxK: Option<int>, S: seq<seq<seq<nat>>>,
                    m1: map<set<nat>, Point>, m2: map<set<nat>, Point>, seen: set<set<nat>>, Sk: seq<seq<nat>>)
    requires WellFormed(sc) && NeighborsOk(sc, neighbor) && LevelsBuilt(sc, neighbor, maxK, S, m1)
    requires S[1] == Edges(sc, |sc.positions|)
    requires !Capped(maxK, |S|) && Sk != []
    requires forall c :: c in Candidates(neighbor, |neighbor|, S[|S| - 1]) ==> Vertices(c) !in seen
    requires Sk == Accepted(sc, m1, seen, Candidates(neighbor, |neighbor|, S[|S| - 1]))
    requires MemoState(sc, m1, Sk, m2)
    ensures LevelsBuilt(sc, neighbor, maxK, S + [Sk], m2)
  {
    var k := |S|;
    var S' := S + [Sk];
    PrefixFrame(sc, neighbor, maxK, S, m1, m2);
    NewLevel(sc, neighbor, maxK, S, m1, m2, seen, Sk);
    assert S'[..k] == S && S'[k] == Sk;
    forall j | 2 <= j < |S'|
      ensures Level(sc, neighbor, maxK, m2, j, S'[j - 1], S'[j]) && AllRecorded(sc, m2, S'[j])
    {
      assert S'[j - 1] == S[j - 1];
      if j < k {
        assert S'[j] == S[j];
      }
    }
    assert forall j :: 1 <= j < k ==> S'[j] == S[j];
  }

  /** The level `_simk` returns for S, with the memo after it, is the next level of S. */
  lemma NewLevel(sc: Scene, neighbor: seq<set<nat>>, maxK: Option<int>, S: seq<seq<seq<nat>>>,
                 m1: map<set<nat>, Point>, m2: map<set<nat>, Point>, seen: set<set<nat>>, Sk: seq<seq<nat>>)
    requires WellFormed(sc) && NeighborsOk(sc, neighbor) && LevelsBuilt(sc, neighbor, maxK, S, m1)
    requires S[1] == Edges(sc, |sc.positions|)
    requires !Capped(maxK, |S|) && Sk != []
    requires forall c :: c in Candidates(neighbor, |neighbor|, S[|S| - 1]) ==> Vertices(c) !in seen
    requires Sk == Accepted(sc, m1, seen, Candidates(neighbor, |neighbor|, S[|S| - 1]))
    requires MemoState(sc, m1, Sk, m2)
    ensures Level(sc, neighbor, maxK, m2, |S|, S[|S| - 1], Sk) && AllRecorded(sc, m2, Sk)
    ensures LevelExtendable(neighbor, Sk)
  {
    var k := |S|;
    var cands := Candidates(neighbor, |neighbor|, S[k - 1]);
    AcceptedUnseen(sc, m1, seen, cands);
    LevelFrame(sc, neighbor, maxK, S, m1, m2, {}, k);
    forall t | 0 <= t < |Sk| ensures Recorded(sc, m2, Sk[t]) {
      WitnessFrame(sc, m1, m2, Sk[t]);
    }
    forall c | c in Sk ensures Extendable(neighbor, c) {
      AcceptedCalls(sc, m1, seen, cands, c);
      CallsInCands(seen, cands, c);
      NextCandidate(sc, neighbor, maxK, S, m1, k, c);
    }
  }

  /** A level-j simplex needs j+1 distinct balls, so only levels below N can be non-empty. */
  lemma LevelCount(sc: Scene, neighbor: seq<set<nat>>, maxK: Option<int>, S: seq<seq<seq<nat>>>, memo: map<set<nat>, Point>)
    requires WellFormed(sc) && NeighborsOk(sc, neighbor) && LevelsBuilt(sc, neighbor, maxK, S, memo)
    requires S[1] == Edges(sc, |sc.positions|)
    ensures |S| == 2 || |S| <= |sc.positions|
  {
    if |S| > 2 {
      var j := |S| - 1;
      assert Level(sc, neighbor, maxK, memo, j, S[j - 1], S[j]);
      var s := S[j][0];
      LevelSimplices(sc, neighbor, maxK, S, memo, j, s);
      DistinctBound(s, |neighbor|);
    }
  }

  /** A truthy cap m bounds the number of levels by m+1 (and the first two levels are always there). */
  lemma CapBound(maxK: Option<int>, S: seq<seq<seq<nat>>>)
    requires |S| >= 2 && forall j :: 2 <= j < |S| ==> !Capped(maxK, j)
    requires maxK.Some? && maxK.value != 0
    ensures |S| <= if maxK.value + 1 < 2 then 2 else maxK.value + 1
  {
    if |S| > 2 {
      assert !Capped(maxK, |S| - 1);
    }
  }

  /**
   * The baseline levels built so far: each level from 2 on was allowed by
   * the cap, is non-empty, and holds the candidates `verify` accepts, in order.
   */
  predicate LevelsBuiltLE(sc: Scene, neighbor: seq<set<nat>>, maxK: Option<int>, S: seq<seq<seq<nat>>>)
  {
    && |neighbor| == |sc.positions| && |S| >= 2
    && forall j :: 2 <= j < |S| ==> LevelLE(sc, neighbor, maxK, j, S[j])
  }

  /** Baseline level j, uncapped and non-empty, is what `_simk` keeps of its candidates. */
  predicate LevelLE(sc: Scene, neighbor: seq<set<nat>>, maxK: Option<int>, j: nat, level: seq<seq<nat>>)
  {
    && !Capped(maxK, j) && level != []
    && level == AcceptedLE(sc, CandidatesLE(neighbor, |neighbor|, j, |neighbor|))
  }

  predicate StoppedLE(sc: Scene, neighbor: seq<set<nat>>, maxK: Option<int>, S: seq<seq<seq<nat>>>)
    requires LevelsBuiltLE(sc, neighbor, maxK, S)
  {
    Capped(maxK, |S|) || AcceptedLE(sc, CandidatesLE(neighbor, |neighbor|, |S|, |neighbor|)) == []
  }

  /**
   * Every entry of a baseline level j is a ball followed by j of its
   * neighbours in increasing order; its balls are distinct.
   */
  lemma LevelStarsLE(sc: Scene, neighbor: seq<set<nat>>, maxK: Option<int>, S: seq<seq<seq<nat>>>, j: nat, s: seq<nat>)
    requires WellFormed(sc) && NeighborsOk(sc, neighbor) && LevelsBuiltLE(sc, neighbor, maxK, S)
    requires 2 <= j < |S| && s in S[j]
    ensures StarCandidate(neighbor, |neighbor|, s, j) && Distinct(s) && InRange(s, |neighbor|)
  {
    var cands := CandidatesLE(neighbor, |neighbor|, j, |neighbor|);
    AcceptedLEMember(sc, cands, s);
    CandidateLEMember(neighbor, |neighbor|, j, |neighbor|, s);
    StarCandidateDistinct(neighbor, |neighbor|, s, j);
  }

  /** A non-empty, uncapped baseline level extends a built sequence of levels. */
  lemma AppendLevelLE(sc: Scene, neighbor: seq<set<nat>>, maxK: Option<int>, S: seq<seq<seq<nat>>>, Sk: seq<seq<nat>>)
    requires LevelsBuiltLE(sc, neighbor, maxK, S) && LevelLE(sc, neighbor, maxK, |S|, Sk)
    ensures LevelsBuiltLE(sc, neighbor, maxK, S + [Sk])
  {
    var S' := S + [Sk];
    forall j | 2 <= j < |S'| ensures LevelLE(sc, neighbor, maxK, j, S'[j]) {
      if j < |S| {
        assert S'[j] == S[j];
      } else {
        assert j == |S| && S'[j] == Sk;
      }
    }
  }

  /** Only baseline levels below N can be non-empty. */
  lemma LevelCountLE(sc: Scene, neighbor: seq<set<nat>>, maxK: Option<int>, S: seq<seq<seq<nat>>>)
    requires WellFormed(sc) && NeighborsOk(sc, neighbor) && LevelsBuiltLE(sc, neighbor, maxK, S)
    ensures |S| == 2 || |S| <= |sc.positions|
  {
    if |S| > 2 {
      var j := |S| - 1;
      LevelStarsLE(sc, neighbor, maxK, S, j, S[j][0]);
      DistinctBound(S[j][0], |neighbor|);
    }
  }

  /** Three concentric discs of radii 1, 2, 3. */
  predicate Concentric(sc: Scene)
  {
    && sc.positions == [Point(0.0, 0.0), Point(0.0, 0.0), Point(0.0, 0.0)]
    && sc.radius == [1.0, 2.0, 3.0]
  }

  /** Concentric discs are pairwise neighbours. */
  lemma ConcentricNeighbors(sc: Scene)
    requires Concentric(sc)
    ensures WellFormed(sc) && NeighborsOk(sc, [{1, 2}, {0, 2}, {0, 1}])
  {
    forall i: nat, j: nat | i < j < 3 ensures Intersects(sc, i, j) {
      assert SqDist(sc.positions[i], sc.positions[j]) == 0.0;
    }
  }

  /** The baseline accepts both orderings of the three concentric discs by the containment shortcut. */
  lemma ConcentricAccepts(sc: Scene, x: seq<nat>)
    requires Concentric(sc)
    requires x == [0, 1, 2] || x == [1, 0, 2]
    ensures AcceptsLE(sc, x)
  {
    assert Cells(sc, x);
    assert x[..1] == [x[0]] && x[..2] == [x[0], x[1]];
    assert x[..2][..1] == x[..1];
    assert MinBall(sc, x[0], x[..1]) == x[0];
    assert MinBall(sc, x[0], x[..2]) == 0;
    assert Smallest(sc, x) == 0;
    forall t | 0 <= t < 3 ensures x[t] == 0 || IsCellInsideCell(sc, x[t], 0) {
      assert SqDist(sc.positions[x[t]], sc.positions[0]) == 0.0;
    }
  }

  /**
   * The baseline keeps a vertex set more than once in one level: three
   * concentric discs are pairwise neighbours, and level 2 keeps both
   * `[0, 1, 2]` and `[1, 0, 2]`, whose vertex sets are equal.
   */
  lemma LevelRepeatsVertexSetLE(sc: Scene)
    requires Concentric(sc)
    ensures WellFormed(sc) && NeighborsOk(sc, [{1, 2}, {0, 2}, {0, 1}])
    ensures LevelLE(sc, [{1, 2}, {0, 2}, {0, 1}], None, 2, AcceptedLE(sc, CandidatesLE([{1, 2}, {0, 2}, {0, 1}], 3, 2, 3)))
    ensures [0, 1, 2] in AcceptedLE(sc, CandidatesLE([{1, 2}, {0, 2}, {0, 1}], 3, 2, 3))
    ensures [1, 0, 2] in AcceptedLE(sc, CandidatesLE([{1, 2}, {0, 2}, {0, 1}], 3, 2, 3))
    ensures Vertices([0, 1, 2]) == Vertices([1, 0, 2])
  {
    var cands := CandidatesLE([{1, 2}, {0, 2}, {0, 1}], 3, 2, 3);
    ConcentricNeighbors(sc);
    CandidatesLERepeatVertexSet();
    ConcentricAccepts(sc, [0, 1, 2]);
    ConcentricAccepts(sc, [1, 0, 2]);
    AcceptedLEMember(sc, cands, [0, 1, 2]);
    AcceptedLEMember(sc, cands, [1, 0, 2]);
  }
}
