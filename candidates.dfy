/**
 * Candidate generation for level k of both strategies, as values:
 * `CechComplex.getCandidates` extends each simplex of level k-1 by each common
 * neighbour, `CechComplexLE.getCandidates` puts each ball in front of each
 * k-combination of its neighbours.
 */
module CandidateGen {
  import opened Simplices

  /** Each later vertex of s is a neighbour of each earlier one. */
  predicate Clique(neighbor: seq<set<nat>>, s: seq<nat>)
  {
    forall a, b :: 0 <= a < b < |s| ==> s[a] < |neighbor| && s[b] in neighbor[s[a]]
  }

  /** A k-simplex of the optimized strategy: k+1 distinct balls below n, pairwise neighbours. */
  predicate Simplex(neighbor: seq<set<nat>>, n: nat, s: seq<nat>, k: nat)
  {
    |s| == k + 1 && Distinct(s) && InRange(s, n) && Clique(neighbor, s)
  }

  /** What `getCandidates` needs of a simplex: some vertices, all with a neighbour set. */
  predicate Extendable(neighbor: seq<set<nat>>, s: seq<nat>)
  {
    |s| > 0 && InRange(s, |neighbor|)
  }

  predicate LevelExtendable(neighbor: seq<set<nat>>, level: seq<seq<nat>>)
  {
    forall s :: s in level ==> Extendable(neighbor, s)
  }

  /** `set.intersection(*[neighbor[i] for i in s])`. */
  function Common(neighbor: seq<set<nat>>, s: seq<nat>): set<nat>
    requires Extendable(neighbor, s)
  {
    if |s| == 1 then neighbor[s[0]]
    else Common(neighbor, s[..|s| - 1]) * neighbor[s[|s| - 1]]
  }

  /** The common neighbours of s are the balls that are a neighbour of every vertex of s. */
  lemma {:induction false} CommonMember(neighbor: seq<set<nat>>, s: seq<nat>, c: nat)
    requires Extendable(neighbor, s)
    ensures c in Common(neighbor, s) <==> forall v :: v in s ==> c in neighbor[v]
  {
    if |s| > 1 {
      var t := s[..|s| - 1];
      CommonMember(neighbor, t, c);
      assert s == t + [s[|s| - 1]];
    }
  }

  /** The candidates one simplex s yields: `[*s, c]` for each common neighbour c not in s. */
  function Extensions(neighbor: seq<set<nat>>, n: nat, s: seq<nat>): seq<seq<nat>>
    requires Extendable(neighbor, s)
  {
    var cs := Ascending(Common(neighbor, s) - Vertices(s), n);
    seq(|cs|, t requires 0 <= t < |cs| => s + [cs[t]])
  }

  /** x is s followed by one ball below n that is outside s and a neighbour of all of s. */
  predicate Extends(neighbor: seq<set<nat>>, n: nat, s: seq<nat>, x: seq<nat>)
  {
    && |x| == |s| + 1 && x[..|s|] == s
    && x[|s|] < n && x[|s|] !in s
    && forall v :: v in s ==> v < |neighbor| && x[|s|] in neighbor[v]
  }

  lemma ExtensionsMember(neighbor: seq<set<nat>>, n: nat, s: seq<nat>, x: seq<nat>)
    requires Extendable(neighbor, s)
    ensures x in Extensions(neighbor, n, s) <==> Extends(neighbor, n, s, x)
  {
    var cs := Ascending(Common(neighbor, s) - Vertices(s), n);
    AscendingListsSet(Common(neighbor, s) - Vertices(s), n);
    var es := Extensions(neighbor, n, s);
    if x in es {
      var t :| 0 <= t < |es| && es[t] == x;
      CommonMember(neighbor, s, cs[t]);
      assert cs[t] in cs;
      assert x[..|s|] == s;
    }
    if Extends(neighbor, n, s, x) {
      var c := x[|s|];
      CommonMember(neighbor, s, c);
      assert c in cs;
      var t :| 0 <= t < |cs| && cs[t] == c;
      assert x == s + [c];
      assert es[t] == x;
    }
  }

  /** `getCandidates(k)` of the optimized strategy, for level = S[k-1]. */
  function Candidates(neighbor: seq<set<nat>>, n: nat, level: seq<seq<nat>>): seq<seq<nat>>
    requires LevelExtendable(neighbor, level)
  {
    if level == [] then []
    else Candidates(neighbor, n, level[..|level| - 1]) + Extensions(neighbor, n, level[|level| - 1])
  }

  /** One more simplex of the level: its extensions follow the candidates so far. */
  lemma CandidatesStep(neighbor: seq<set<nat>>, n: nat, level: seq<seq<nat>>, t: nat)
    requires LevelExtendable(neighbor, level) && t < |level|
    ensures LevelExtendable(neighbor, level[..t]) && LevelExtendable(neighbor, level[..t + 1])
    ensures Candidates(neighbor, n, level[..t + 1]) == Candidates(neighbor, n, level[..t]) + Extensions(neighbor, n, level[t])
  {
    assert level[t] in level;
    assert level[..t + 1][..t] == level[..t];
  }

  /**
   * The candidates are exactly the lists `s ++ [c]`, for s in the level and c a
   * ball below n outside s that is a neighbour of every vertex of s.
   */
  lemma {:induction false} CandidateMember(neighbor: seq<set<nat>>, n: nat, level: seq<seq<nat>>, x: seq<nat>)
    requires LevelExtendable(neighbor, level)
    ensures x in Candidates(neighbor, n, level) <==>
              |x| > 0 && x[..|x| - 1] in level && Extends(neighbor, n, x[..|x| - 1], x)
  {
    if level != [] {
      var init := level[..|level| - 1];
      var s := level[|level| - 1];
      CandidateMember(neighbor, n, init, x);
      ExtensionsMember(neighbor, n, s, x);
      assert level == init + [s];
      if x in Extensions(neighbor, n, s) {
        assert x[..|x| - 1] == s;
      }
    }
  }

  /** Adding a common neighbour outside a (k-1)-simplex gives a k-simplex. */
  lemma ExtendSimplex(neighbor: seq<set<nat>>, s: seq<nat>, x: seq<nat>, k: nat)
    requires k >= 1 && Simplex(neighbor, |neighbor|, s, k - 1)
    requires Extends(neighbor, |neighbor|, s, x)
    ensures Simplex(neighbor, |neighbor|, x, k)
  {
    var c := x[k - 1 + 1];
    assert x == s + [c];
    forall a | 0 <= a < |s| ensures x[a] == s[a] && s[a] != c && s[a] < |neighbor| && c in neighbor[s[a]] {
      assert s[a] in s;
    }
  }

  /**
   * Extending (k-1)-simplices gives k-simplices: every candidate has k+1
   * distinct vertices that are pairwise neighbours, and its prefix is in the level.
   */
  lemma CandidatesAreSimplices(neighbor: seq<set<nat>>, level: seq<seq<nat>>, k: nat, x: seq<nat>)
    requires k >= 1 && LevelExtendable(neighbor, level)
    requires forall s :: s in level ==> Simplex(neighbor, |neighbor|, s, k - 1)
    requires x in Candidates(neighbor, |neighbor|, level)
    ensures Simplex(neighbor, |neighbor|, x, k) && x[..k] in level
  {
    CandidateMember(neighbor, |neighbor|, level, x);
    var s := x[..|x| - 1];
    ExtendSimplex(neighbor, s, x, k);
  }


  /**
   * A baseline level-k candidate: a ball followed by k of its neighbours below
   * n, in increasing order.
   */
  predicate StarCandidate(neighbor: seq<set<nat>>, n: nat, x: seq<nat>, k: nat)
  {
    && |x| == k + 1 && x[0] < n && x[0] < |neighbor| && Increasing(x[1..])
    && forall v :: v in x[1..] ==> v < n && v in neighbor[x[0]]
  }

  /** The baseline candidates with centre c: c in front of each k-combination of its neighbours. */
  function StarRow(neighbor: seq<set<nat>>, n: nat, k: nat, c: nat): seq<seq<nat>>
    requires c < |neighbor|
  {
    Prepend(c, Combinations(Ascending(neighbor[c], n), k))
  }

  /** The rows of the centres below i. */
  function StarRows(neighbor: seq<set<nat>>, n: nat, k: nat, i: nat): (r: seq<seq<seq<nat>>>)
    requires i <= |neighbor|
    ensures |r| == i
  {
    if i == 0 then [] else StarRows(neighbor, n, k, i - 1) + [StarRow(neighbor, n, k, i - 1)]
  }

  lemma {:induction false} StarRowsIndex(neighbor: seq<set<nat>>, n: nat, k: nat, i: nat, c: nat)
    requires c < i <= |neighbor|
    ensures StarRows(neighbor, n, k, i)[c] == StarRow(neighbor, n, k, c)
  {
    if c < i - 1 {
      StarRowsIndex(neighbor, n, k, i - 1, c);
    }
  }

  /** `getCandidates(k)` of the baseline strategy, over the balls below i: the rows of centres 0 .. i-1. */
  function CandidatesLE(neighbor: seq<set<nat>>, n: nat, k: nat, i: nat): seq<seq<nat>>
    requires i <= |neighbor|
  {
    Flatten(StarRows(neighbor, n, k, i))
  }

  /** One more centre appends its row. */
  lemma CandidatesLEStep(neighbor: seq<set<nat>>, n: nat, k: nat, i: nat)
    requires i < |neighbor|
    ensures CandidatesLE(neighbor, n, k, i + 1) == CandidatesLE(neighbor, n, k, i) + StarRow(neighbor, n, k, i)
  {
    FlattenSnoc(StarRows(neighbor, n, k, i), StarRow(neighbor, n, k, i));
  }

  /** A candidate with centre c is a star candidate with centre c. */
  lemma StarRowSound(neighbor: seq<set<nat>>, n: nat, k: nat, c: nat, x: seq<nat>)
    requires c < |neighbor| && c < n
    requires x in StarRow(neighbor, n, k, c)
    ensures StarCandidate(neighbor, n, x, k) && x[0] == c
  {
    var xs := Ascending(neighbor[c], n);
    AscendingListsSet(neighbor[c], n);
    PrependMember(c, Combinations(xs, k), x);
    CombinationShape(xs, k, x[1..]);
    CombinationIncreasing(xs, k, x[1..]);
  }

  /** A star candidate with centre c is a candidate with centre c. */
  lemma StarRowComplete(neighbor: seq<set<nat>>, n: nat, k: nat, c: nat, x: seq<nat>)
    requires c < |neighbor| && c < n
    requires StarCandidate(neighbor, n, x, k) && x[0] == c
    ensures x in StarRow(neighbor, n, k, c)
  {
    var xs := Ascending(neighbor[c], n);
    AscendingListsSet(neighbor[c], n);
    CombinationComplete(xs, k, x[1..]);
    PrependMember(c, Combinations(xs, k), x);
  }

  /** Every baseline candidate below i comes from the row of its own centre, which is below i. */
  lemma CandidateLERow(neighbor: seq<set<nat>>, n: nat, k: nat, i: nat, x: seq<nat>)
    requires i <= |neighbor|
    requires x in CandidatesLE(neighbor, n, k, i)
    ensures |x| > 0 && x[0] < i && x in StarRow(neighbor, n, k, x[0])
  {
    var rows := StarRows(neighbor, n, k, i);
    FlattenMember(rows, x);
    var c :| 0 <= c < |rows| && x in rows[c];
    StarRowsIndex(neighbor, n, k, i, c);
    PrependMember(c, Combinations(Ascending(neighbor[c], n), k), x);
  }

  /** The row of every centre c below i is part of the baseline candidates below i. */
  lemma StarRowIncluded(neighbor: seq<set<nat>>, n: nat, k: nat, c: nat, i: nat, x: seq<nat>)
    requires c < i <= |neighbor|
    requires x in StarRow(neighbor, n, k, c)
    ensures x in CandidatesLE(neighbor, n, k, i)
  {
    StarRowsIndex(neighbor, n, k, i, c);
    FlattenMember(StarRows(neighbor, n, k, i), x);
  }

  /** Every baseline candidate is a star candidate whose centre is below i. */
  lemma CandidateLESound(neighbor: seq<set<nat>>, n: nat, k: nat, i: nat, x: seq<nat>)
    requires i <= |neighbor| && i <= n
    requires x in CandidatesLE(neighbor, n, k, i)
    ensures StarCandidate(neighbor, n, x, k) && x[0] < i
  {
    CandidateLERow(neighbor, n, k, i, x);
    StarRowSound(neighbor, n, k, x[0], x);
  }

  /** Every star candidate whose centre is below i is a baseline candidate. */
  lemma CandidateLEComplete(neighbor: seq<set<nat>>, n: nat, k: nat, i: nat, x: seq<nat>)
    requires i <= |neighbor| && i <= n
    requires StarCandidate(neighbor, n, x, k) && x[0] < i
    ensures x in CandidatesLE(neighbor, n, k, i)
  {
    StarRowComplete(neighbor, n, k, x[0], x);
    StarRowIncluded(neighbor, n, k, x[0], i, x);
  }

  /** The baseline candidates are exactly the star candidates whose centre is below i. */
  lemma CandidateLEMember(neighbor: seq<set<nat>>, n: nat, k: nat, i: nat, x: seq<nat>)
    requires i <= |neighbor| && i <= n
    ensures x in CandidatesLE(neighbor, n, k, i) <==> StarCandidate(neighbor, n, x, k) && x[0] < i
  {
    if x in CandidatesLE(neighbor, n, k, i) {
      CandidateLESound(neighbor, n, k, i, x);
    }
    if StarCandidate(neighbor, n, x, k) && x[0] < i {
      CandidateLEComplete(neighbor, n, k, i, x);
    }
  }

  /** With an irreflexive neighbour relation the vertices of a star candidate are distinct. */
  lemma StarCandidateDistinct(neighbor: seq<set<nat>>, n: nat, x: seq<nat>, k: nat)
    requires StarCandidate(neighbor, n, x, k)
    requires forall i :: 0 <= i < |neighbor| ==> i !in neighbor[i]
    ensures Distinct(x) && InRange(x, n)
  {
    forall a, b | 0 <= a < b < |x| ensures x[a] != x[b] {
      assert x[b] in x[1..];
      if a > 0 {
        assert x[1..][a - 1] < x[1..][b - 1];
      }
    }
    forall t | 0 <= t < |x| ensures x[t] < n {
      if t > 0 {
        assert x[1..][t - 1] in x[1..];
      }
    }
  }

  /**
   * The baseline does not deduplicate: when three balls are pairwise
   * neighbours, level 2 gets the vertex set {0, 1, 2} once per centre.
   */
  lemma CandidatesLERepeatVertexSet()
    ensures [0, 1, 2] in CandidatesLE([{1, 2}, {0, 2}, {0, 1}], 3, 2, 3)
    ensures [1, 0, 2] in CandidatesLE([{1, 2}, {0, 2}, {0, 1}], 3, 2, 3)
    ensures Vertices([0, 1, 2]) == Vertices([1, 0, 2])
  {
    var neighbor: seq<set<nat>> := [{1, 2}, {0, 2}, {0, 1}];
    var x: seq<nat>, y: seq<nat> := [0, 1, 2], [1, 0, 2];
    assert x[1..] == [1, 2] && y[1..] == [0, 2];
    assert StarCandidate(neighbor, 3, x, 2);
    assert StarCandidate(neighbor, 3, y, 2);
    CandidateLEMember(neighbor, 3, 2, 3, x);
    CandidateLEMember(neighbor, 3, 2, 3, y);
    assert Vertices(x) == {0, 1, 2} == Vertices(y);
  }
}
