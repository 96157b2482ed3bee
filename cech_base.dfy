/**
 * The part of the construction both strategies share (`CechComplexBase`):
 * the balls, the geometric predicates over them, level 0 and the neighbour
 * graph with level 1.
 */
module CechBase {
  import opened Geometry
  import opened Simplices

  /**
   * What `cech(positions, radius)` stores about the balls, with the
   * intersection formula it calls.
   */
  datatype Scene = Scene(positions: seq<Point>, radius: seq<real>, crossing: Crossing)

  /** The construction reads `radius[i]` for every ball index i below `len(positions)`. */
  predicate WellFormed(sc: Scene)
  {
    |sc.positions| <= |sc.radius|
  }

  /** `intersects(i, j)`: the discs overlap, `dist(i, j) <= radius[i] + radius[j]`. */
  predicate Intersects(sc: Scene, i: nat, j: nat)
    requires WellFormed(sc) && i < |sc.positions| && j < |sc.positions|
  {
    var s := sc.radius[i] + sc.radius[j];
    0.0 <= s && SqDist(sc.positions[i], sc.positions[j]) <= s * s
  }

  /** `isCellInsideCell(i, j)`: `dist(i, j) <= abs(radius[i] - radius[j])`. */
  predicate IsCellInsideCell(sc: Scene, i: nat, j: nat)
    requires WellFormed(sc) && i < |sc.positions| && j < |sc.positions|
  {
    var a := Abs(sc.radius[i] - sc.radius[j]);
    SqDist(sc.positions[i], sc.positions[j]) <= a * a
  }

  /** `isPointInsideCell(p, c)`: p lies in the closed disc of ball c. */
  predicate IsPointInsideCell(sc: Scene, p: Point, c: nat)
    requires WellFormed(sc) && c < |sc.positions|
  {
    SqDist(sc.positions[c], p) <= sc.radius[c] * sc.radius[c]
  }

  /** `intersection(i, j)`: the boundary crossings of circles i and j. */
  function Intersection(sc: Scene, i: nat, j: nat): seq<Point>
    requires WellFormed(sc) && i < |sc.positions| && j < |sc.positions|
  {
    sc.crossing(sc.positions[i], sc.radius[i], sc.positions[j], sc.radius[j])
  }

  /** The overlap test is the source's distance test, for d the Euclidean distance. */
  lemma IntersectsByDistance(sc: Scene, i: nat, j: nat, d: real)
    requires WellFormed(sc) && i < |sc.positions| && j < |sc.positions|
    requires 0.0 <= d && d * d == SqDist(sc.positions[i], sc.positions[j])
    ensures Intersects(sc, i, j) <==> !(d > sc.radius[i] + sc.radius[j])
  {
    DistanceAtMost(d, SqDist(sc.positions[i], sc.positions[j]), sc.radius[i] + sc.radius[j]);
  }

  /** The containment test is the source's distance test, for d the Euclidean distance. */
  lemma CellInsideByDistance(sc: Scene, i: nat, j: nat, d: real)
    requires WellFormed(sc) && i < |sc.positions| && j < |sc.positions|
    requires 0.0 <= d && d * d == SqDist(sc.positions[i], sc.positions[j])
    ensures IsCellInsideCell(sc, i, j) <==> d <= Abs(sc.radius[i] - sc.radius[j])
  {
    DistanceAtMost(d, SqDist(sc.positions[i], sc.positions[j]), Abs(sc.radius[i] - sc.radius[j]));
  }

  lemma IntersectsSymmetric(sc: Scene, i: nat, j: nat)
    requires WellFormed(sc) && i < |sc.positions| && j < |sc.positions|
    ensures Intersects(sc, i, j) == Intersects(sc, j, i)
  {
    SqDistSymmetric(sc.positions[i], sc.positions[j]);
  }

  /**
   * Why the containment shortcut's witness is sound: when ball m has the
   * smaller, non-negative radius and `isCellInsideCell(c, m)` holds, the
   * centre of m lies in the disc of c.
   */
  lemma ShortcutCentreInside(sc: Scene, m: nat, c: nat)
    requires WellFormed(sc) && m < |sc.positions| && c < |sc.positions|
    requires 0.0 <= sc.radius[m] <= sc.radius[c]
    requires IsCellInsideCell(sc, c, m)
    ensures IsPointInsideCell(sc, sc.positions[m], c)
  {
    SquareMonotonic(sc.radius[c] - sc.radius[m], sc.radius[c]);
  }

  /** `sim0()`: level 0, the singletons `[[0], [1], ..., [N-1]]`. */
  function Sim0(n: nat): seq<seq<nat>>
  {
    seq(n, i requires 0 <= i < n => [i])
  }

  /** Level 0 holds each one-vertex simplex below n exactly once, and nothing else. */
  lemma LevelZero(n: nat)
    ensures forall e :: e in Sim0(n) <==> |e| == 1 && e[0] < n
    ensures |Sim0(n)| == n && SetsDistinct(Sim0(n))
  {
    forall e | |e| == 1 && e[0] < n ensures e in Sim0(n) {
      assert Sim0(n)[e[0]] == e;
    }
    forall a, b | 0 <= a < b < n ensures Vertices(Sim0(n)[a]) != Vertices(Sim0(n)[b]) {
      assert a in Vertices(Sim0(n)[a]);
    }
  }

  /**
   * The neighbour sets `sim1` leaves behind: for each pair i < j, each of i and
   * j lists the other exactly when `intersects(i, j)`; nothing lists itself or
   * an index outside 0 .. N-1.
   */
  predicate NeighborsOk(sc: Scene, neighbor: seq<set<nat>>)
    requires WellFormed(sc)
  {
    && |neighbor| == |sc.positions|
    && (forall i, j :: 0 <= i < |neighbor| && j in neighbor[i] ==> j < |neighbor|)
    && (forall i :: 0 <= i < |neighbor| ==> i !in neighbor[i])
    && (forall i, j :: 0 <= i < j < |neighbor| ==>
          (j in neighbor[i] <==> Intersects(sc, i, j)) && (i in neighbor[j] <==> Intersects(sc, i, j)))
  }

  /** The neighbour relation is symmetric, irreflexive and is exactly overlap. */
  lemma NeighborRelation(sc: Scene, neighbor: seq<set<nat>>, i: nat, j: nat)
    requires WellFormed(sc) && NeighborsOk(sc, neighbor)
    requires i < |neighbor| && j < |neighbor|
    ensures j in neighbor[i] <==> i in neighbor[j]
    ensures j in neighbor[i] <==> i != j && Intersects(sc, i, j)
  {
    IntersectsSymmetric(sc, i, j);
  }

  /** The pairs `[i, b]` with i < b < j that intersect, by increasing b. */
  function RowEdges(sc: Scene, i: nat, j: nat): seq<seq<nat>>
    requires WellFormed(sc) && i < |sc.positions| && j <= |sc.positions|
    decreases j
  {
    if j <= i + 1 then []
    else RowEdges(sc, i, j - 1) + (if Intersects(sc, i, j - 1) then [[i, j - 1]] else [])
  }

  /** The intersecting pairs whose smaller index is below i, in lexicographic order. */
  function Edges(sc: Scene, i: nat): seq<seq<nat>>
    requires WellFormed(sc) && i <= |sc.positions|
  {
    if i == 0 then [] else Edges(sc, i - 1) + RowEdges(sc, i - 1, |sc.positions|)
  }

  lemma {:induction false} RowEdgesMember(sc: Scene, i: nat, j: nat, e: seq<nat>)
    requires WellFormed(sc) && i < |sc.positions| && j <= |sc.positions|
    ensures e in RowEdges(sc, i, j) <==> |e| == 2 && e[0] == i && i < e[1] < j && Intersects(sc, i, e[1])
    decreases j
  {
    if j > i + 1 {
      RowEdgesMember(sc, i, j - 1, e);
      if |e| == 2 && e[0] == i && e[1] == j - 1 {
        assert e == [i, j - 1];
      }
    }
  }

  /** Level 1 lists exactly the pairs `[i, j]` with i < j whose discs intersect. */
  lemma {:induction false} EdgesMember(sc: Scene, i: nat, e: seq<nat>)
    requires WellFormed(sc) && i <= |sc.positions|
    ensures e in Edges(sc, i) <==>
              |e| == 2 && e[0] < i && e[0] < e[1] < |sc.positions| && Intersects(sc, e[0], e[1])
  {
    if i > 0 {
      EdgesMember(sc, i - 1, e);
      RowEdgesMember(sc, i - 1, |sc.positions|, e);
    }
  }

  predicate PairLess(e: seq<nat>, f: seq<nat>)
  {
    |e| == 2 && |f| == 2 && (e[0] < f[0] || (e[0] == f[0] && e[1] < f[1]))
  }

  predicate LexSorted(es: seq<seq<nat>>)
  {
    forall a, b :: 0 <= a < b < |es| ==> PairLess(es[a], es[b])
  }

  lemma {:induction false} RowEdgesSorted(sc: Scene, i: nat, j: nat)
    requires WellFormed(sc) && i < |sc.positions| && j <= |sc.positions|
    ensures LexSorted(RowEdges(sc, i, j))
    decreases j
  {
    if j > i + 1 {
      RowEdgesSorted(sc, i, j - 1);
      var prev := RowEdges(sc, i, j - 1);
      forall t | 0 <= t < |prev| ensures |prev[t]| == 2 && prev[t][0] == i && prev[t][1] < j - 1 {
        RowEdgesMember(sc, i, j - 1, prev[t]);
      }
    }
  }

  /** Level 1 is in lexicographic order, so no pair occurs twice. */
  lemma {:induction false} EdgesSorted(sc: Scene, i: nat)
    requires WellFormed(sc) && i <= |sc.positions|
    ensures LexSorted(Edges(sc, i))
  {
    if i > 0 {
      EdgesSorted(sc, i - 1);
      RowEdgesSorted(sc, i - 1, |sc.positions|);
      var prev := Edges(sc, i - 1);
      var row := RowEdges(sc, i - 1, |sc.positions|);
      forall t | 0 <= t < |prev| ensures |prev[t]| == 2 && prev[t][0] < i - 1 {
        EdgesMember(sc, i - 1, prev[t]);
      }
      forall t | 0 <= t < |row| ensures |row[t]| == 2 && row[t][0] == i - 1 {
        RowEdgesMember(sc, i - 1, |sc.positions|, row[t]);
      }
    }
  }

  /** No two pairs of level 1 have the same vertex set. */
  lemma EdgesUnique(sc: Scene)
    requires WellFormed(sc)
    ensures SetsDistinct(Edges(sc, |sc.positions|))
  {
    var es := Edges(sc, |sc.positions|);
    EdgesSorted(sc, |sc.positions|);
    forall a, b | 0 <= a < b < |es| ensures Vertices(es[a]) != Vertices(es[b]) {
      EdgesMember(sc, |sc.positions|, es[a]);
      EdgesMember(sc, |sc.positions|, es[b]);
      var e, f := es[a], es[b];
      if e[0] < f[0] {
        assert e[0] in Vertices(e);
      } else {
        assert e[1] in Vertices(e);
      }
    }
  }
}
