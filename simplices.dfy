/**
 * Simplices as the construction stores them: lists of ball indices.
 * Their vertex sets (`frozenset(cand)` in the source), the ascending listing
 * that stands for iterating a Python set, and `itertools.combinations`.
 */
module Simplices {

  /** The vertex set of a simplex. */
  function Vertices(s: seq<nat>): set<nat>
  {
    set v | v in s
  }

  /** The vertex sets of a list of simplices. */
  function VertexSets(xs: seq<seq<nat>>): set<set<nat>>
  {
    if xs == [] then {} else VertexSets(xs[..|xs| - 1]) + {Vertices(xs[|xs| - 1])}
  }

  lemma {:induction false} VertexSetsMember(xs: seq<seq<nat>>, K: set<nat>)
    ensures K in VertexSets(xs) <==> exists t :: 0 <= t < |xs| && Vertices(xs[t]) == K
  {
    if xs != [] {
      var init := xs[..|xs| - 1];
      VertexSetsMember(init, K);
      if K in VertexSets(init) {
        var t :| 0 <= t < |init| && Vertices(init[t]) == K;
        assert xs[t] == init[t];
      }
    }
  }

  lemma VertexSetsSnoc(xs: seq<seq<nat>>, x: seq<nat>)
    ensures VertexSets(xs + [x]) == VertexSets(xs) + {Vertices(x)}
  {
    assert (xs + [x])[..|xs|] == xs;
  }

  /** The prefix of a sequence up to its length is the sequence. */
  lemma PrefixAll<T>(s: seq<T>)
    ensures s[..|s|] == s
  {
  }

  lemma VertexSetsStep(xs: seq<seq<nat>>, t: nat)
    requires t < |xs|
    ensures VertexSets(xs[..t + 1]) == VertexSets(xs[..t]) + {Vertices(xs[t])}
  {
    assert xs[..t + 1][..t] == xs[..t];
  }

  /** The rows of a list of rows, one after the other. */
  function Flatten<T>(rows: seq<seq<T>>): seq<T>
  {
    if rows == [] then [] else Flatten(rows[..|rows| - 1]) + rows[|rows| - 1]
  }

  lemma {:induction false} FlattenMember<T>(rows: seq<seq<T>>, x: T)
    ensures x in Flatten(rows) <==> exists c :: 0 <= c < |rows| && x in rows[c]
  {
    if rows != [] {
      var init := rows[..|rows| - 1];
      FlattenMember(init, x);
      if x in Flatten(init) {
        var c :| 0 <= c < |init| && x in init[c];
        assert rows[c] == init[c];
      }
    }
  }

  lemma FlattenSnoc<T>(rows: seq<seq<T>>, row: seq<T>)
    ensures Flatten(rows + [row]) == Flatten(rows) + row
  {
    assert (rows + [row])[..|rows|] == rows;
  }

  predicate Distinct(s: seq<nat>)
  {
    forall a, b :: 0 <= a < b < |s| ==> s[a] != s[b]
  }

  predicate InRange(s: seq<nat>, n: nat)
  {
    forall t :: 0 <= t < |s| ==> s[t] < n
  }

  predicate Increasing(s: seq<nat>)
  {
    forall a, b :: 0 <= a < b < |s| ==> s[a] < s[b]
  }

  /** No two entries of a level share a vertex set. */
  predicate SetsDistinct(xs: seq<seq<nat>>)
  {
    forall a, b :: 0 <= a < b < |xs| ==> Vertices(xs[a]) != Vertices(xs[b])
  }

  /** The indices 0 .. n-1. */
  function Range(n: nat): set<nat>
  {
    if n == 0 then {} else Range(n - 1) + {n - 1}
  }

  lemma {:induction false} RangeSize(n: nat)
    ensures |Range(n)| == n
    ensures forall v: nat :: v in Range(n) <==> v < n
  {
    if n > 0 {
      RangeSize(n - 1);
      assert Range(n) == Range(n - 1) + {n - 1};
    }
  }

  lemma {:induction false} SubsetSize(a: set<nat>, b: set<nat>)
    requires a <= b
    ensures |a| <= |b|
  {
    if a != {} {
      var x :| x in a;
      SubsetSize(a - {x}, b - {x});
    }
  }

  /** A simplex of distinct vertices has as many vertices as entries. */
  lemma {:induction false} DistinctSize(s: seq<nat>)
    requires Distinct(s)
    ensures |Vertices(s)| == |s|
  {
    if s != [] {
      var t := s[..|s| - 1];
      assert Distinct(t);
      DistinctSize(t);
      assert s == t + [s[|s| - 1]];
      assert Vertices(s) == Vertices(t) + {s[|s| - 1]};
      assert s[|s| - 1] !in Vertices(t);
    }
  }

  /** Pigeonhole: a simplex of distinct vertices below n has at most n vertices. */
  lemma DistinctBound(s: seq<nat>, n: nat)
    requires Distinct(s) && InRange(s, n)
    ensures |s| <= n
  {
    DistinctSize(s);
    RangeSize(n);
    assert Vertices(s) <= Range(n);
    SubsetSize(Vertices(s), Range(n));
  }

  /**
   * The members of `xs` below `n`, smallest first: the order in which the model
   * iterates a set of ball indices.
   */
  function Ascending(xs: set<nat>, n: nat): seq<nat>
  {
    if n == 0 then [] else Ascending(xs, n - 1) + (if n - 1 in xs then [n - 1] else [])
  }

  lemma {:induction false} AscendingListsSet(xs: set<nat>, n: nat)
    ensures forall v :: v in Ascending(xs, n) <==> v in xs && v < n
    ensures Increasing(Ascending(xs, n))
  {
    if n > 0 {
      AscendingListsSet(xs, n - 1);
      var prev := Ascending(xs, n - 1);
      assert forall t :: 0 <= t < |prev| ==> prev[t] in prev;
    }
  }

  /** Each list of `cs` with `v` in front. */
  function Prepend(v: nat, cs: seq<seq<nat>>): (r: seq<seq<nat>>)
    ensures |r| == |cs|
  {
    seq(|cs|, t requires 0 <= t < |cs| => [v] + cs[t])
  }

  lemma PrependStep(v: nat, cs: seq<seq<nat>>, t: nat)
    requires t < |cs|
    ensures Prepend(v, cs[..t + 1]) == Prepend(v, cs[..t]) + [[v] + cs[t]]
  {
    assert Prepend(v, cs[..t + 1])[t] == [v] + cs[t];
  }

  lemma PrependMember(v: nat, cs: seq<seq<nat>>, x: seq<nat>)
    ensures x in Prepend(v, cs) <==> |x| > 0 && x[0] == v && x[1..] in cs
  {
    if |x| > 0 && x[0] == v && x[1..] in cs {
      var t :| 0 <= t < |cs| && cs[t] == x[1..];
      assert Prepend(v, cs)[t] == x;
    }
  }

  /**
   * `itertools.combinations(xs, k)`: the k-element sub-lists of `xs`, in the
   * lexicographic order of their positions.
   */
  function Combinations(xs: seq<nat>, k: nat): seq<seq<nat>>
    decreases |xs|
  {
    if k == 0 then [[]]
    else if xs == [] then []
    else Prepend(xs[0], Combinations(xs[1..], k - 1)) + Combinations(xs[1..], k)
  }

  /** Every combination has k entries, all from `xs`. */
  lemma {:induction false} CombinationShape(xs: seq<nat>, k: nat, c: seq<nat>)
    requires c in Combinations(xs, k)
    ensures |c| == k
    ensures forall v :: v in c ==> v in xs
    decreases |xs|
  {
    if k > 0 && xs != [] {
      var tail := xs[1..];
      if c in Prepend(xs[0], Combinations(tail, k - 1)) {
        PrependMember(xs[0], Combinations(tail, k - 1), c);
        CombinationShape(tail, k - 1, c[1..]);
        assert c == [xs[0]] + c[1..];
      } else {
        CombinationShape(tail, k, c);
      }
    }
  }

  /** The tail of an increasing list is increasing and above its head. */
  lemma IncreasingTail(xs: seq<nat>)
    requires Increasing(xs) && xs != []
    ensures Increasing(xs[1..])
    ensures forall v :: v in xs[1..] ==> xs[0] < v
  {
    var tail := xs[1..];
    forall v | v in tail ensures xs[0] < v {
      var u :| 0 <= u < |tail| && tail[u] == v;
      assert tail[u] == xs[u + 1];
    }
  }

  /** A head below an increasing tail gives an increasing list. */
  lemma IncreasingCons(c: seq<nat>)
    requires c != [] && Increasing(c[1..])
    requires forall v :: v in c[1..] ==> c[0] < v
    ensures Increasing(c)
  {
    var rest := c[1..];
    forall a, b | 0 <= a < b < |c| ensures c[a] < c[b] {
      assert c[b] == rest[b - 1];
      if a == 0 {
        assert rest[b - 1] in rest;
      } else {
        assert c[a] == rest[a - 1];
      }
    }
  }

  /** One unfolding of `Combinations`: a combination either uses the head or draws only from the tail. */
  lemma CombinationCases(xs: seq<nat>, k: nat, c: seq<nat>)
    requires k > 0 && xs != [] && c in Combinations(xs, k)
    ensures c !in Combinations(xs[1..], k) ==> |c| > 0 && c[0] == xs[0] && c[1..] in Combinations(xs[1..], k - 1)
  {
    var shorter := Combinations(xs[1..], k - 1);
    if c in Prepend(xs[0], shorter) {
      PrependMember(xs[0], shorter, c);
    }
  }

  /** The combinations of an increasing list are increasing. */
  lemma {:induction false} CombinationIncreasing(xs: seq<nat>, k: nat, c: seq<nat>)
    requires c in Combinations(xs, k) && Increasing(xs)
    ensures Increasing(c)
    decreases |xs|
  {
    if k > 0 && xs != [] {
      var tail := xs[1..];
      CombinationCases(xs, k, c);
      IncreasingTail(xs);
      if c in Combinations(tail, k) {
        CombinationIncreasing(tail, k, c);
      } else {
        CombinationIncreasing(tail, k - 1, c[1..]);
        CombinationShape(tail, k - 1, c[1..]);
        IncreasingCons(c);
      }
    }
  }

  /** Conversely, every increasing k-list drawn from an increasing `xs` is a combination. */
  lemma {:induction false} CombinationComplete(xs: seq<nat>, k: nat, c: seq<nat>)
    requires Increasing(xs) && Increasing(c) && |c| == k
    requires forall v :: v in c ==> v in xs
    ensures c in Combinations(xs, k)
    decreases |xs|
  {
    if k == 0 {
      assert c == [];
    } else {
      assert c[0] in c;
      var tail := xs[1..];
      assert Increasing(tail);
      if c[0] == xs[0] {
        forall v | v in c[1..] ensures v in tail {
          assert v in c;
          var t :| 0 <= t < |xs| && xs[t] == v;
          assert t != 0;
        }
        CombinationComplete(tail, k - 1, c[1..]);
        PrependMember(xs[0], Combinations(tail, k - 1), c);
      } else {
        forall v | v in c ensures v in tail {
          var t :| 0 <= t < |xs| && xs[t] == v;
          var u :| 0 <= u < |xs| && xs[u] == c[0];
          assert u != 0;
          var w :| 0 <= w < |c| && c[w] == v;
          assert w == 0 || c[0] < c[w];
          assert xs[0] < v;
        }
        CombinationComplete(tail, k, c);
      }
    }
  }
}
