/**
 * What `verify(cells)` decides, as values: the optimized test of
 * `CechComplex.verify` (a `Verdict` with its witness point) and the baseline
 * test of `CechComplexLE.verify` (a boolean). The methods of the class compute
 * them with the source's loops and are proved equal to these functions.
 */
module Verification {
  import opened Wrappers
  import opened Geometry
  import opened Simplices
  import opened CechBase

  /** `(True, p)` or `(False, [])`. */
  datatype Verdict = Verified(point: Point) | Rejected

  /** The cells are ball indices of the scene. */
  predicate Cells(sc: Scene, cells: seq<nat>)
  {
    WellFormed(sc) && InRange(cells, |sc.positions|)
  }

  /**
   * The running minimum of the scan `for c in cells: if radius[c] < radius[smallest]`,
   * started at m and run over cs.
   */
  function MinBall(sc: Scene, m: nat, cs: seq<nat>): (b: nat)
    requires Cells(sc, cs) && m < |sc.positions|
    ensures b == m || b in cs
    ensures b < |sc.positions|
  {
    if cs == [] then m
    else
      var b := MinBall(sc, m, cs[..|cs| - 1]);
      var c := cs[|cs| - 1];
      if sc.radius[c] < sc.radius[b] then c else b
  }

  /** `smallest` after the scan of `verify`. */
  function Smallest(sc: Scene, cells: seq<nat>): (m: nat)
    requires Cells(sc, cells) && |cells| > 0
    ensures m in cells && m < |sc.positions|
  {
    MinBall(sc, cells[0], cells)
  }

  lemma {:induction false} MinBallIsMin(sc: Scene, m: nat, cs: seq<nat>)
    requires Cells(sc, cs) && m < |sc.positions|
    ensures var b := MinBall(sc, m, cs);
      && sc.radius[b] <= sc.radius[m]
      && (forall t :: 0 <= t < |cs| ==> sc.radius[b] <= sc.radius[cs[t]])
      && (b == m || exists p :: 0 <= p < |cs| && cs[p] == b && sc.radius[b] < sc.radius[m] &&
                               forall u :: 0 <= u < p ==> sc.radius[b] < sc.radius[cs[u]])
  {
    if cs != [] {
      var init := cs[..|cs| - 1];
      assert Cells(sc, init);
      MinBallIsMin(sc, m, init);
    }
  }

  /**
   * `smallest` is a cell of minimum radius, and the first one: every cell
   * before it has a strictly larger radius.
   */
  lemma SmallestIsFirstMin(sc: Scene, cells: seq<nat>)
    requires Cells(sc, cells) && |cells| > 0
    ensures var m := Smallest(sc, cells);
      && (forall t :: 0 <= t < |cells| ==> sc.radius[m] <= sc.radius[cells[t]])
      && exists p :: 0 <= p < |cells| && cells[p] == m &&
                     forall u :: 0 <= u < p ==> sc.radius[m] < sc.radius[cells[u]]
  {
    MinBallIsMin(sc, cells[0], cells);
  }

  /** Every cell other than m contains m: `c == smallest or isCellInsideCell(c, smallest)`. */
  predicate AllInside(sc: Scene, cells: seq<nat>, m: nat)
    requires Cells(sc, cells) && m < |sc.positions|
  {
    forall t :: 0 <= t < |cells| ==> cells[t] == m || IsCellInsideCell(sc, cells[t], m)
  }

  /** The first point of pts inside ball c, as the loop `for p in x` of the reuse branch finds it. */
  function FirstInside(sc: Scene, pts: seq<Point>, c: nat): (r: Option<Point>)
    requires WellFormed(sc) && c < |sc.positions|
    ensures r.Some? ==> r.value in pts && IsPointInsideCell(sc, r.value, c)
    ensures r.None? <==> forall t :: 0 <= t < |pts| ==> !IsPointInsideCell(sc, pts[t], c)
  {
    if pts == [] then None
    else if IsPointInsideCell(sc, pts[0], c) then Some(pts[0])
    else FirstInside(sc, pts[1..], c)
  }

  /** p lies in every cell except those at positions i and j of cells. */
  predicate InsideAllBut(sc: Scene, cells: seq<nat>, i: nat, j: nat, p: Point)
    requires Cells(sc, cells)
  {
    forall t :: 0 <= t < |cells| && t != i && t != j ==> IsPointInsideCell(sc, p, cells[t])
  }

  /** The first point of pts that lies in every cell except those at positions i and j. */
  function FirstInsideAllBut(sc: Scene, cells: seq<nat>, i: nat, j: nat, pts: seq<Point>): (r: Option<Point>)
    requires Cells(sc, cells)
    ensures r.Some? ==> r.value in pts && InsideAllBut(sc, cells, i, j, r.value)
    ensures r.None? <==> forall t :: 0 <= t < |pts| ==> !InsideAllBut(sc, cells, i, j, pts[t])
  {
    if pts == [] then None
    else if InsideAllBut(sc, cells, i, j, pts[0]) then Some(pts[0])
    else FirstInsideAllBut(sc, cells, i, j, pts[1..])
  }

  /** p is a crossing point of the last cell with the cell at position t and lies in every other cell. */
  predicate CrossingWitness(sc: Scene, cells: seq<nat>, t: nat, p: Point)
    requires Cells(sc, cells) && t < |cells|
  {
    p in Intersection(sc, cells[|cells| - 1], cells[t]) && InsideAllBut(sc, cells, |cells| - 1, t, p)
  }

  /** No crossing point of the last cell with the cell at position t lies in every other cell. */
  predicate NoCrossingWitness(sc: Scene, cells: seq<nat>, t: nat)
    requires Cells(sc, cells) && t < |cells|
  {
    var pts := Intersection(sc, cells[|cells| - 1], cells[t]);
    forall u :: 0 <= u < |pts| ==> !InsideAllBut(sc, cells, |cells| - 1, t, pts[u])
  }

  /**
   * The fallback of the optimized `verify`, from earlier position j on: the
   * first crossing point of the last cell with an earlier cell that lies in
   * every other cell.
   */
  function SearchFrom(sc: Scene, cells: seq<nat>, j: nat): (r: Option<Point>)
    requires Cells(sc, cells) && |cells| > 0 && j <= |cells| - 1
    ensures r.Some? ==> exists t :: j <= t < |cells| - 1 && CrossingWitness(sc, cells, t, r.value)
    ensures r.None? <==> forall t :: j <= t < |cells| - 1 ==> NoCrossingWitness(sc, cells, t)
    decreases |cells| - 1 - j
  {
    var i := |cells| - 1;
    if j == i then None
    else
      var here := FirstInsideAllBut(sc, cells, i, j, Intersection(sc, cells[i], cells[j]));
      if here.Some? then
        assert CrossingWitness(sc, cells, j, here.value) && !NoCrossingWitness(sc, cells, j);
        here
      else
        assert NoCrossingWitness(sc, cells, j);
        SearchFrom(sc, cells, j + 1)
  }

  /**
   * What the optimized `verify` needs: a non-empty list of balls and, when the
   * list has more than three cells, a memo entry for the vertex set of all
   * but the last cell.
   */
  predicate DecideReady(sc: Scene, memo: map<set<nat>, Point>, cells: seq<nat>)
  {
    Cells(sc, cells) && |cells| > 0 && (|cells| > 3 ==> Vertices(cells[..|cells| - 1]) in memo)
  }

  /** The reuse branch: a point already known to lie in all cells but the last, if it lies in the last. */
  function Reuse(sc: Scene, memo: map<set<nat>, Point>, cells: seq<nat>): (r: Option<Point>)
    requires DecideReady(sc, memo, cells)
    ensures r.Some? ==> IsPointInsideCell(sc, r.value, cells[|cells| - 1])
    ensures |cells| == 3 ==> r == FirstInside(sc, Intersection(sc, cells[0], cells[1]), cells[2])
    ensures |cells| > 3 ==> var w := memo[Vertices(cells[..|cells| - 1])];
              r == (if IsPointInsideCell(sc, w, cells[|cells| - 1]) then Some(w) else None)
    ensures |cells| < 3 ==> r == None
  {
    var last := cells[|cells| - 1];
    if |cells| - 1 == 2 then FirstInside(sc, Intersection(sc, cells[0], cells[1]), last)
    else if |cells| - 1 > 2 && IsPointInsideCell(sc, memo[Vertices(cells[..|cells| - 1])], last) then
      Some(memo[Vertices(cells[..|cells| - 1])])
    else None
  }

  /** The optimized `verify(cells)`: shortcut, then reuse, then fallback. */
  function Decide(sc: Scene, memo: map<set<nat>, Point>, cells: seq<nat>): (r: Verdict)
    requires DecideReady(sc, memo, cells)
    ensures AllInside(sc, cells, Smallest(sc, cells)) ==> r == Verified(sc.positions[Smallest(sc, cells)])
    ensures r.Verified? ==>
              || (AllInside(sc, cells, Smallest(sc, cells)) && r.point == sc.positions[Smallest(sc, cells)])
              || Reuse(sc, memo, cells) == Some(r.point)
              || exists t :: 0 <= t < |cells| - 1 && CrossingWitness(sc, cells, t, r.point)
    ensures r.Rejected? <==>
              && !AllInside(sc, cells, Smallest(sc, cells))
              && Reuse(sc, memo, cells) == None
              && forall t :: 0 <= t < |cells| - 1 ==> NoCrossingWitness(sc, cells, t)
  {
    var m := Smallest(sc, cells);
    if AllInside(sc, cells, m) then Verified(sc.positions[m])
    else match Reuse(sc, memo, cells)
      case Some(p) => Verified(p)
      case None =>
        match SearchFrom(sc, cells, 0)
        case Some(p) => Verified(p)
        case None => Rejected
  }

  /**
   * The verdict reads the memo at one key only, the vertex set of all but
   * the last cell; two memos that agree there give the same verdict.
   */
  lemma DecideFrame(sc: Scene, m1: map<set<nat>, Point>, m2: map<set<nat>, Point>, cells: seq<nat>)
    requires DecideReady(sc, m1, cells)
    requires |cells| > 3 ==> var key := Vertices(cells[..|cells| - 1]); key in m2 && m2[key] == m1[key]
    ensures DecideReady(sc, m2, cells) && Decide(sc, m2, cells) == Decide(sc, m1, cells)
  {
    assert Reuse(sc, m2, cells) == Reuse(sc, m1, cells);
  }

  /** `self.intersection(i, j)` for each point p, tagged `(p, i, j)` as in `inter.extend`. */
  function Tag(pts: seq<Point>, i: nat, j: nat): (r: seq<(Point, nat, nat)>)
    ensures |r| == |pts| && forall t :: 0 <= t < |r| ==> r[t] == (pts[t], i, j)
  {
    seq(|pts|, t requires 0 <= t < |pts| => (pts[t], i, j))
  }

  lemma TagMember(pts: seq<Point>, i: nat, j: nat, x: (Point, nat, nat))
    ensures x in Tag(pts, i, j) <==> x.0 in pts && x.1 == i && x.2 == j
  {
    if x.0 in pts && x.1 == i && x.2 == j {
      var t :| 0 <= t < |pts| && pts[t] == x.0;
      assert Tag(pts, i, j)[t] == x;
    }
  }

  /** The tagged crossing points of each pair at positions (a, b), for a < b < e. */
  function PairTags(sc: Scene, cells: seq<nat>, a: nat, e: nat): (r: seq<seq<(Point, nat, nat)>>)
    requires Cells(sc, cells) && a < |cells| && e <= |cells|
    ensures |r| == if e <= a + 1 then 0 else e - a - 1
    decreases e
  {
    if e <= a + 1 then []
    else PairTags(sc, cells, a, e - 1) + [Tag(Intersection(sc, cells[a], cells[e - 1]), cells[a], cells[e - 1])]
  }

  lemma {:induction false} PairTagsIndex(sc: Scene, cells: seq<nat>, a: nat, e: nat, b: nat)
    requires Cells(sc, cells) && a < b < e <= |cells|
    ensures PairTags(sc, cells, a, e)[b - a - 1] == Tag(Intersection(sc, cells[a], cells[b]), cells[a], cells[b])
    decreases e
  {
    if b < e - 1 {
      PairTagsIndex(sc, cells, a, e - 1, b);
    }
  }

  /** The tagged crossing points of the pairs at positions (a, b) with a < b < e, by increasing b. */
  function RowPoints(sc: Scene, cells: seq<nat>, a: nat, e: nat): seq<(Point, nat, nat)>
    requires Cells(sc, cells) && a < |cells| && e <= |cells|
  {
    Flatten(PairTags(sc, cells, a, e))
  }

  /** The rows of tagged points of the first positions below a. */
  function PairRows(sc: Scene, cells: seq<nat>, a: nat): (r: seq<seq<(Point, nat, nat)>>)
    requires Cells(sc, cells) && a <= |cells|
    ensures |r| == a
  {
    seq(a, a' requires 0 <= a' < a => RowPoints(sc, cells, a', |cells|))
  }

  lemma PairRowsSnoc(sc: Scene, cells: seq<nat>, a: nat)
    requires Cells(sc, cells) && a < |cells|
    ensures PairRows(sc, cells, a + 1) == PairRows(sc, cells, a) + [RowPoints(sc, cells, a, |cells|)]
  {
    assert PairRows(sc, cells, a + 1)[..a] == PairRows(sc, cells, a);
  }

  /** The `inter` list of the baseline `verify`, for the pairs whose first position is below a. */
  function PairPoints(sc: Scene, cells: seq<nat>, a: nat): seq<(Point, nat, nat)>
    requires Cells(sc, cells) && a <= |cells|
  {
    Flatten(PairRows(sc, cells, a))
  }

  /** A pair (a, b) of positions with a < b and a tagged point crossing their balls. */
  predicate PairCrossing(sc: Scene, cells: seq<nat>, a: nat, b: nat, x: (Point, nat, nat))
    requires Cells(sc, cells)
  {
    a < b < |cells| && x.1 == cells[a] && x.2 == cells[b] && x.0 in Intersection(sc, cells[a], cells[b])
  }

  lemma RowPointsMember(sc: Scene, cells: seq<nat>, a: nat, e: nat, x: (Point, nat, nat))
    requires Cells(sc, cells) && a < |cells| && e <= |cells|
    ensures x in RowPoints(sc, cells, a, e) <==> exists b: nat :: b < e && PairCrossing(sc, cells, a, b, x)
  {
    var tags := PairTags(sc, cells, a, e);
    FlattenMember(tags, x);
    if x in RowPoints(sc, cells, a, e) {
      var j :| 0 <= j < |tags| && x in tags[j];
      var b := a + 1 + j;
      PairTagsIndex(sc, cells, a, e, b);
      TagMember(Intersection(sc, cells[a], cells[b]), cells[a], cells[b], x);
      assert PairCrossing(sc, cells, a, b, x);
    }
    if exists b: nat :: b < e && PairCrossing(sc, cells, a, b, x) {
      var b: nat :| b < e && PairCrossing(sc, cells, a, b, x);
      PairTagsIndex(sc, cells, a, e, b);
      TagMember(Intersection(sc, cells[a], cells[b]), cells[a], cells[b], x);
      assert x in tags[b - a - 1];
    }
  }

  /**
   * `inter` holds exactly the points `(p, cells[a], cells[b])` with a < b and
   * p a crossing point of the two balls.
   */
  lemma PairPointsMember(sc: Scene, cells: seq<nat>, a: nat, x: (Point, nat, nat))
    requires Cells(sc, cells) && a <= |cells|
    ensures x in PairPoints(sc, cells, a) <==> exists a': nat, b: nat :: a' < a && PairCrossing(sc, cells, a', b, x)
  {
    var rows := PairRows(sc, cells, a);
    FlattenMember(rows, x);
    if x in PairPoints(sc, cells, a) {
      var a': nat :| a' < |rows| && x in rows[a'];
      RowPointsMember(sc, cells, a', |cells|, x);
      var b: nat :| b < |cells| && PairCrossing(sc, cells, a', b, x);
    }
    if exists a': nat, b: nat :: a' < a && PairCrossing(sc, cells, a', b, x) {
      var a': nat, b: nat :| a' < a && PairCrossing(sc, cells, a', b, x);
      RowPointsMember(sc, cells, a', |cells|, x);
      assert x in rows[a'];
    }
  }

  /** The baseline's test of one tagged point: it lies in every cell other than the balls i and j. */
  predicate Witnessed(sc: Scene, cells: seq<nat>, x: (Point, nat, nat))
    requires Cells(sc, cells)
  {
    forall t :: 0 <= t < |cells| && cells[t] != x.1 && cells[t] != x.2 ==> IsPointInsideCell(sc, x.0, cells[t])
  }

  /** The baseline `verify(cells)`: the containment shortcut, or some tagged point of `inter` is witnessed. */
  predicate DecideLE(sc: Scene, cells: seq<nat>)
    requires Cells(sc, cells) && |cells| > 0
  {
    var inter := PairPoints(sc, cells, |cells|);
    AllInside(sc, cells, Smallest(sc, cells)) || exists t :: 0 <= t < |inter| && Witnessed(sc, cells, inter[t])
  }

  /** Positions a < b whose balls cross at p, with p lying in every other cell. */
  predicate PairWitnessed(sc: Scene, cells: seq<nat>, a: nat, b: nat, p: Point)
    requires Cells(sc, cells)
  {
    a < b < |cells| && PairCrossing(sc, cells, a, b, (p, cells[a], cells[b])) && Witnessed(sc, cells, (p, cells[a], cells[b]))
  }

  /** A witnessed point of `inter` is a witnessed crossing of some pair. */
  lemma ListedWitnessPair(sc: Scene, cells: seq<nat>, x: (Point, nat, nat))
    requires Cells(sc, cells) && x in PairPoints(sc, cells, |cells|) && Witnessed(sc, cells, x)
    ensures exists a: nat, b: nat :: PairWitnessed(sc, cells, a, b, x.0)
  {
    PairPointsMember(sc, cells, |cells|, x);
    var a: nat, b: nat :| a < |cells| && PairCrossing(sc, cells, a, b, x);
    assert x == (x.0, cells[a], cells[b]);
    assert PairWitnessed(sc, cells, a, b, x.0);
  }

  /** A witnessed crossing of a pair is a witnessed point of `inter`. */
  lemma PairWitnessListed(sc: Scene, cells: seq<nat>, a: nat, b: nat, p: Point)
    requires Cells(sc, cells) && PairWitnessed(sc, cells, a, b, p)
    ensures exists t :: 0 <= t < |PairPoints(sc, cells, |cells|)| && Witnessed(sc, cells, PairPoints(sc, cells, |cells|)[t])
  {
    var x := (p, cells[a], cells[b]);
    PairPointsMember(sc, cells, |cells|, x);
    var inter := PairPoints(sc, cells, |cells|);
    var t :| 0 <= t < |inter| && inter[t] == x;
  }

  /**
   * The baseline accepts exactly when the shortcut holds or some pair of
   * positions a < b has a crossing point lying in every cell other than the
   * balls of the pair.
   */
  lemma DecideLEByPairs(sc: Scene, cells: seq<nat>)
    requires Cells(sc, cells) && |cells| > 0
    ensures DecideLE(sc, cells) <==>
              AllInside(sc, cells, Smallest(sc, cells)) || exists a: nat, b: nat, p :: PairWitnessed(sc, cells, a, b, p)
  {
    var inter := PairPoints(sc, cells, |cells|);
    if exists t :: 0 <= t < |inter| && Witnessed(sc, cells, inter[t]) {
      var t :| 0 <= t < |inter| && Witnessed(sc, cells, inter[t]);
      ListedWitnessPair(sc, cells, inter[t]);
    }
    if exists a: nat, b: nat, p :: PairWitnessed(sc, cells, a, b, p) {
      var a: nat, b: nat, p :| PairWitnessed(sc, cells, a, b, p);
      PairWitnessListed(sc, cells, a, b, p);
    }
  }
}
