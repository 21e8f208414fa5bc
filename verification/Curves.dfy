/** Piecewise-linear DER curves (models/der_curves.py). Interpolation is on exact rationals. */
module Curves {
  import opened Common

  datatype Point = Point(x: int, y: Option<int>, excitation: Option<bool>)

  // ----- the stable sort of list.sort(key=xvalue) -----

  /** A point goes behind the points whose x is not greater. */
  function Insert(sorted: seq<Point>, p: Point): (r: seq<Point>)
    ensures |r| == |sorted| + 1
  {
    var last := |sorted| - 1;
    if sorted != [] && p.x < sorted[last].x then Insert(sorted[..last], p) + [sorted[last]] else sorted + [p]
  }

  function Sort(points: seq<Point>): (r: seq<Point>)
    ensures |r| == |points|
  {
    if points == [] then [] else Insert(Sort(points[..|points| - 1]), points[|points| - 1])
  }

  ghost predicate Sorted(points: seq<Point>) {
    forall i, j :: 0 <= i < j < |points| ==> points[i].x <= points[j].x
  }

  ghost predicate StrictlySorted(points: seq<Point>) {
    forall i, j :: 0 <= i < j < |points| ==> points[i].x < points[j].x
  }

  ghost predicate DistinctX(points: seq<Point>) {
    forall i, j :: 0 <= i < j < |points| ==> points[i].x != points[j].x
  }

  lemma {:induction false} InsertPermutes(sorted: seq<Point>, p: Point)
    ensures multiset(Insert(sorted, p)) == multiset(sorted) + multiset{p}
  {
    var last := |sorted| - 1;
    if sorted != [] && p.x < sorted[last].x {
      InsertPermutes(sorted[..last], p);
      assert sorted == sorted[..last] + [sorted[last]];
    }
  }

  lemma {:induction false} InsertSorts(sorted: seq<Point>, p: Point)
    requires Sorted(sorted)
    ensures Sorted(Insert(sorted, p))
    ensures forall q :: q in Insert(sorted, p) ==> q == p || q in sorted
  {
    var last := |sorted| - 1;
    if sorted != [] && p.x < sorted[last].x {
      InsertSorts(sorted[..last], p);
      var r := Insert(sorted[..last], p);
      forall i | 0 <= i < |r| ensures r[i].x <= sorted[last].x {
        assert r[i] in r;
      }
    }
  }

  lemma {:induction false} SortSorts(points: seq<Point>)
    ensures Sorted(Sort(points)) && multiset(Sort(points)) == multiset(points)
  {
    if points != [] {
      var last := |points| - 1;
      SortSorts(points[..last]);
      InsertSorts(Sort(points[..last]), points[last]);
      InsertPermutes(Sort(points[..last]), points[last]);
      assert points == points[..last] + [points[last]];
    }
  }

  /** The points at x, in order. */
  function PointsAt(points: seq<Point>, x: int): seq<Point> {
    if points == [] then []
    else
      var last := points[|points| - 1];
      PointsAt(points[..|points| - 1], x) + if last.x == x then [last] else []
  }

  lemma {:induction false} InsertIsStable(sorted: seq<Point>, p: Point, x: int)
    ensures PointsAt(Insert(sorted, p), x) == PointsAt(sorted, x) + if p.x == x then [p] else []
  {
    var last := |sorted| - 1;
    if sorted != [] && p.x < sorted[last].x {
      InsertIsStable(sorted[..last], p, x);
      assert Insert(sorted, p)[..|sorted|] == Insert(sorted[..last], p);
    } else {
      assert (sorted + [p])[..|sorted|] == sorted;
    }
  }

  /** The sort is stable: points with the same x keep their order. */
  lemma {:induction false} SortIsStable(points: seq<Point>, x: int)
    ensures PointsAt(Sort(points), x) == PointsAt(points, x)
  {
    if points != [] {
      SortIsStable(points[..|points| - 1], x);
      InsertIsStable(Sort(points[..|points| - 1]), points[|points| - 1], x);
    }
  }

  lemma SameHead(a: seq<Point>, b: seq<Point>)
    requires StrictlySorted(a) && Sorted(b) && multiset(a) == multiset(b) && a != [] && b != []
    ensures a[0] == b[0]
  {
    assert a[0] in multiset(b) && b[0] in multiset(a);
    var i :| 0 <= i < |b| && b[i] == a[0];
    var j :| 0 <= j < |a| && a[j] == b[0];
    assert b[0].x <= b[i].x;
  }

  /** A strictly sorted list is determined by its points. */
  lemma {:induction false} SortedIsUnique(a: seq<Point>, b: seq<Point>)
    requires StrictlySorted(a) && Sorted(b) && multiset(a) == multiset(b)
    ensures a == b
  {
    assert |a| == |multiset(a)| == |multiset(b)| == |b|;
    if a != [] {
      SameHead(a, b);
      assert a == [a[0]] + a[1..] && b == [b[0]] + b[1..];
      assert multiset(a[1..]) == multiset(a) - multiset{a[0]};
      assert multiset(b[1..]) == multiset(b) - multiset{b[0]};
      SortedIsUnique(a[1..], b[1..]);
    }
  }

  // ----- adding points -----

  function AddAll(points: seq<Point>): seq<Point> {
    if points == [] then [] else Sort(AddAll(points[..|points| - 1]) + [points[|points| - 1]])
  }

  lemma AddAllSorts(points: seq<Point>)
    ensures Sorted(AddAll(points))
  {
    if points != [] {
      SortSorts(AddAll(points[..|points| - 1]) + [points[|points| - 1]]);
    }
  }

  lemma {:induction false} AddAllKeepsPoints(points: seq<Point>)
    ensures multiset(AddAll(points)) == multiset(points)
  {
    if points != [] {
      hide Sort, Sorted;
      var front, p := points[..|points| - 1], points[|points| - 1];
      AddAllKeepsPoints(front);
      SortSorts(AddAll(front) + [p]);
      assert points == front + [p];
    }
  }

  lemma DistinctMultiset(a: seq<Point>, b: seq<Point>, i: nat, j: nat)
    requires multiset(a) == multiset(b) && DistinctX(a) && i < j < |b|
    ensures b[i].x != b[j].x
  {
    if b[i].x == b[j].x {
      assert b[i] in multiset(a) && b[j] in multiset(a);
      var k :| 0 <= k < |a| && a[k] == b[i];
      var l :| 0 <= l < |a| && a[l] == b[j];
      assert k == l;
      assert b == b[..i] + [b[i]] + b[i + 1..j] + [b[j]] + b[j + 1..];
      assert multiset(b)[b[i]] >= 2;
      OnlyOnce(a, k);
    }
  }

  lemma {:induction false} OnlyOnce(a: seq<Point>, k: nat)
    requires DistinctX(a) && k < |a|
    ensures multiset(a)[a[k]] == 1
  {
    assert a == a[..k] + [a[k]] + a[k + 1..];
    assert a[k] !in a[..k] && a[k] !in a[k + 1..];
    assert a[k] !in multiset(a[..k]) && a[k] !in multiset(a[k + 1..]);
  }

  /** With distinct x values the curve is strictly sorted and the same in whatever order its points are added. */
  lemma OrderOfAddingDoesNotMatter(points: seq<Point>, other: seq<Point>)
    requires DistinctX(points) && multiset(points) == multiset(other)
    ensures StrictlySorted(AddAll(points)) && AddAll(points) == AddAll(other)
  {
    AddAllSorts(points);
    AddAllSorts(other);
    AddAllKeepsPoints(points);
    AddAllKeepsPoints(other);
    var a := AddAll(points);
    forall i, j | 0 <= i < j < |a| ensures a[i].x < a[j].x {
      DistinctMultiset(points, a, i, j);
    }
    SortedIsUnique(a, AddAll(other));
  }

  // ----- interpolation -----

  /** A missing y counts as 0 between two points. */
  function YOrZero(p: Point): int {
    if p.y.Some? then p.y.value else 0
  }

  /** The part a/d of a difference e. */
  function Share(a: int, d: int, e: int): real
    requires d != 0
  {
    a as real / d as real * e as real
  }

  function Segment(p: Point, q: Point, x: int): int {
    if q.x == p.x then YOrZero(p)
    else Trunc(YOrZero(p) as real + Share(x - p.x, q.x - p.x, YOrZero(q) - YOrZero(p)))
  }

  /** The first pair of neighbours from i on with x between them. */
  function Search(points: seq<Point>, x: int, i: nat): Option<int>
    decreases |points| - i
  {
    if i + 1 >= |points| then None
    else if points[i].x <= x <= points[i + 1].x then Some(Segment(points[i], points[i + 1], x))
    else Search(points, x, i + 1)
  }

  /** interpolate_y on sorted points */
  function Interpolate(points: seq<Point>, x: int): Option<int> {
    if points == [] then None
    else if |points| == 1 || x <= points[0].x then points[0].y
    else if x >= points[|points| - 1].x then points[|points| - 1].y
    else Search(points, x, 0)
  }

  ghost predicate Complete(points: seq<Point>) {
    forall i :: 0 <= i < |points| ==> points[i].y.Some?
  }

  predicate Brackets(points: seq<Point>, i: nat, x: int) {
    i + 1 < |points| && points[i].x <= x <= points[i + 1].x
  }

  lemma {:induction false} SearchFindsBracket(points: seq<Point>, x: int, i: nat)
    requires i + 1 < |points| && points[i].x <= x <= points[|points| - 1].x
    ensures exists k ::
      i <= k && Brackets(points, k, x) && Search(points, x, i) == Some(Segment(points[k], points[k + 1], x))
    decreases |points| - i
  {
    if Brackets(points, i, x) {
    } else {
      SearchFindsBracket(points, x, i + 1);
    }
  }

  // ----- one segment -----

  lemma ProductIsNonNegative(t: real, u: real)
    requires t >= 0.0 && u >= 0.0
    ensures t * u >= 0.0
  {
  }

  lemma ShareStaysBetween(a: int, d: int, e: int)
    requires 0 <= a <= d && 0 < d
    ensures e >= 0 ==> 0.0 <= Share(a, d, e) <= e as real
    ensures e <= 0 ==> e as real <= Share(a, d, e) <= 0.0
  {
    var t := a as real / d as real;
    var u := e as real;
    assert 0.0 <= t <= 1.0;
    if e >= 0 {
      ProductIsNonNegative(t, u);
      ProductIsNonNegative(1.0 - t, u);
    } else {
      ProductIsNonNegative(t, -u);
      ProductIsNonNegative(1.0 - t, -u);
    }
  }

  lemma ShareMonotone(a: int, b: int, d: int, e: int)
    requires 0 <= a <= b <= d && 0 < d && 0 <= e
    ensures Share(a, d, e) <= Share(b, d, e)
  {
    var t := (b - a) as real / d as real;
    assert t * e as real >= 0.0;
    assert b as real / d as real == a as real / d as real + t;
  }

  /** Truncation does not leave the interval between two whole numbers. */
  lemma TruncBetween(lo: int, v: real, hi: int)
    requires lo as real <= v <= hi as real
    ensures lo <= Trunc(v) <= hi
  {
    TruncMonotone(lo as real, v);
    TruncMonotone(v, hi as real);
    assert Trunc(lo as real) == lo && Trunc(hi as real) == hi;
  }

  function Min(a: int, b: int): int {
    if a <= b then a else b
  }

  function Max(a: int, b: int): int {
    if a <= b then b else a
  }

  lemma SegmentStaysBetween(p: Point, q: Point, x: int)
    requires p.x <= x <= q.x
    ensures Min(YOrZero(p), YOrZero(q)) <= Segment(p, q, x) <= Max(YOrZero(p), YOrZero(q))
  {
    if p.x != q.x {
      ShareStaysBetween(x - p.x, q.x - p.x, YOrZero(q) - YOrZero(p));
      hide Share, Trunc;
      TruncBetween(Min(YOrZero(p), YOrZero(q)),
                   YOrZero(p) as real + Share(x - p.x, q.x - p.x, YOrZero(q) - YOrZero(p)),
                   Max(YOrZero(p), YOrZero(q)));
    }
  }

  lemma SegmentHitsKnots(p: Point, q: Point)
    requires p.x < q.x
    ensures Segment(p, q, p.x) == YOrZero(p) && Segment(p, q, q.x) == YOrZero(q)
  {
    var d := (q.x - p.x) as real;
    assert (q.x - p.x) as real / d == 1.0;
    assert (p.x - p.x) as real / d == 0.0;
  }

  /** d times a height on the line through (0, a) and (d, a + e), at x. */
  function Line(a: int, d: int, e: int, x: int): int {
    a * d + x * e
  }

  /** The segment truncates the height of the straight line toward zero. */
  lemma SegmentIsLinear(p: Point, q: Point, x: int)
    requires p.x < q.x
    ensures var d := q.x - p.x; var y := Segment(p, q, x);
      var exact := Line(YOrZero(p), d, YOrZero(q) - YOrZero(p), x - p.x);
      if exact >= 0 then y * d <= exact < (y + 1) * d else (y - 1) * d < exact <= y * d
  {
    var a, d, e := YOrZero(p), q.x - p.x, YOrZero(q) - YOrZero(p);
    var v := a as real + Share(x - p.x, d, e);
    ShareTimes(x - p.x, d, e);
    LineTimes(a, d, e, x - p.x, Share(x - p.x, d, e));
    hide Share, Line, Trunc;
    TruncTimes(v, d, Line(a, d, e, x - p.x));
  }

  lemma LineTimes(a: int, d: int, e: int, x: int, share: real)
    requires share * d as real == (x * e) as real
    ensures (a as real + share) * d as real == Line(a, d, e, x) as real
  {
    assert (a * d) as real == a as real * d as real;
  }

  lemma ShareTimes(a: int, d: int, e: int)
    requires d != 0
    ensures Share(a, d, e) * d as real == (a * e) as real
  {
    var t := a as real / d as real;
    assert t * d as real == a as real;
    assert t * e as real * d as real == (t * d as real) * e as real;
  }

  lemma Times(a: real, b: real, d: real)
    requires d > 0.0
    ensures (a <= b <==> a * d <= b * d) && (a < b <==> a * d < b * d)
  {
    if a < b {
      assert (b - a) * d > 0.0;
    } else {
      assert (a - b) * d >= 0.0;
    }
  }

  /** m <= v as whole multiples of d. */
  lemma WholeTimes(m: int, v: real, d: int, n: int)
    requires d > 0 && v * d as real == n as real
    ensures (m as real <= v <==> m * d <= n) && (m as real < v <==> m * d < n)
  {
    Times(m as real, v, d as real);
    assert m as real * d as real == (m * d) as real;
  }

  lemma TruncTimes(v: real, d: int, n: int)
    requires d > 0 && v * d as real == n as real
    ensures if n >= 0 then Trunc(v) * d <= n < (Trunc(v) + 1) * d else (Trunc(v) - 1) * d < n <= Trunc(v) * d
  {
    var t := Trunc(v);
    WholeTimes(0, v, d, n);
    WholeTimes(t, v, d, n);
    WholeTimes(t + 1, v, d, n);
    WholeTimes(t - 1, v, d, n);
  }

  /** a and b in the order of a rising or of a falling curve. */
  predicate Ordered(up: bool, a: int, b: int) {
    if up then a <= b else b <= a
  }

  lemma SegmentMonotone(p: Point, q: Point, x: int, x': int, up: bool)
    requires p.x <= x <= x' <= q.x && p.x < q.x && Ordered(up, YOrZero(p), YOrZero(q))
    ensures Ordered(up, Segment(p, q, x), Segment(p, q, x'))
  {
    hide Share, Trunc;
    var d, e := q.x - p.x, YOrZero(q) - YOrZero(p);
    var u, v := Share(x - p.x, d, e), Share(x' - p.x, d, e);
    if up {
      ShareMonotone(x - p.x, x' - p.x, d, e);
      TruncMonotone(YOrZero(p) as real + u, YOrZero(p) as real + v);
    } else {
      ShareFalls(x - p.x, x' - p.x, d, e);
      TruncMonotone(YOrZero(p) as real + v, YOrZero(p) as real + u);
    }
  }

  lemma ShareFalls(a: int, b: int, d: int, e: int)
    requires 0 <= a <= b <= d && 0 < d && e <= 0
    ensures Share(b, d, e) <= Share(a, d, e)
  {
    ShareMonotone(a, b, d, -e);
    assert Share(a, d, -e) == -Share(a, d, e) && Share(b, d, -e) == -Share(b, d, e);
  }

  // ----- the curve -----

  /** Inside the curve a bracket is always found, and every bracket of x gives the same answer. */
  lemma InterpolateUsesAnyBracket(points: seq<Point>, x: int, i: nat)
    requires StrictlySorted(points) && Complete(points) && Brackets(points, i, x)
    ensures Interpolate(points, x) == Some(Segment(points[i], points[i + 1], x))
  {
    SegmentHitsKnots(points[i], points[i + 1]);
    var last := |points| - 1;
    if x <= points[0].x {
      assert i == 0;
    } else if x >= points[last].x {
      assert i + 1 == last;
    } else {
      SearchFindsBracket(points, x, 0);
      var k :| 0 <= k && Brackets(points, k, x) && Search(points, x, 0) == Some(Segment(points[k], points[k + 1], x));
      SegmentHitsKnots(points[k], points[k + 1]);
      assert k == i || k + 1 == i || i + 1 == k;
    }
  }

  /** A curve with points answers everywhere. */
  lemma InterpolateAnswers(points: seq<Point>, x: int)
    requires Sorted(points) && Complete(points) && points != []
    ensures Interpolate(points, x).Some?
  {
    if |points| > 1 && points[0].x < x < points[|points| - 1].x {
      SearchFindsBracket(points, x, 0);
    }
  }

  /** Between two points the curve is the straight line through them, truncated toward zero. */
  lemma InterpolateIsLinear(points: seq<Point>, x: int, i: nat)
    requires StrictlySorted(points) && Complete(points) && Brackets(points, i, x)
    ensures var p, q := points[i], points[i + 1]; var d := q.x - p.x;
      var exact := p.y.value * d + (x - p.x) * (q.y.value - p.y.value);
      && Interpolate(points, x).Some?
      && var y := Interpolate(points, x).value;
         if exact >= 0 then y * d <= exact < (y + 1) * d else (y - 1) * d < exact <= y * d
  {
    InterpolateUsesAnyBracket(points, x, i);
    SegmentIsLinear(points[i], points[i + 1], x);
    hide Segment, Interpolate;
  }

  /** Outside its points the curve stays at its first and at its last y, whether complete or not. */
  lemma InterpolateIsFlatOutside(points: seq<Point>, x: int)
    requires StrictlySorted(points) && points != []
    ensures x <= points[0].x ==> Interpolate(points, x) == points[0].y
    ensures x >= points[|points| - 1].x ==> Interpolate(points, x) == points[|points| - 1].y
  {
  }

  /** The curve goes through each of its points. */
  lemma InterpolateIsExactAtKnots(points: seq<Point>, k: nat)
    requires StrictlySorted(points) && Complete(points) && k < |points|
    ensures Interpolate(points, points[k].x) == points[k].y
  {
    if |points| > 1 {
      var i := if k == 0 then 0 else k - 1;
      assert Brackets(points, i, points[k].x);
      InterpolateUsesAnyBracket(points, points[k].x, i);
      SegmentHitsKnots(points[i], points[i + 1]);
    }
  }

  /** Between two points the curve stays between their y values, truncation included. */
  lemma InterpolateStaysBetween(points: seq<Point>, x: int, i: nat)
    requires StrictlySorted(points) && Complete(points) && Brackets(points, i, x)
    ensures var y, y' := points[i].y.value, points[i + 1].y.value;
      Interpolate(points, x).Some? && Min(y, y') <= Interpolate(points, x).value <= Max(y, y')
  {
    InterpolateUsesAnyBracket(points, x, i);
    SegmentStaysBetween(points[i], points[i + 1], x);
  }

  /** The y values of the points never fall, or never rise. */
  ghost predicate Monotone(points: seq<Point>, up: bool)
    requires Complete(points)
  {
    forall i, j :: 0 <= i < j < |points| ==> Ordered(up, points[i].y.value, points[j].y.value)
  }

  lemma FindBracket(points: seq<Point>, x: int) returns (i: nat)
    requires |points| > 1 && points[0].x <= x <= points[|points| - 1].x
    ensures Brackets(points, i, x)
  {
    SearchFindsBracket(points, x, 0);
    i :| Brackets(points, i, x);
  }

  lemma MonotoneInside(points: seq<Point>, x: int, x': int, up: bool)
    requires StrictlySorted(points) && Complete(points) && Monotone(points, up) && |points| > 1
    requires points[0].x <= x <= x' <= points[|points| - 1].x
    ensures Interpolate(points, x).Some? && Interpolate(points, x').Some?
    ensures Ordered(up, Interpolate(points, x).value, Interpolate(points, x').value)
  {
    var i := FindBracket(points, x);
    var j := FindBracket(points, x');
    InterpolateStaysBetween(points, x, i);
    InterpolateStaysBetween(points, x', j);
    if i == j {
      InterpolateUsesAnyBracket(points, x, i);
      InterpolateUsesAnyBracket(points, x', i);
      SegmentMonotone(points[i], points[i + 1], x, x', up);
    } else if j < i {
      assert x == x';
    }
  }

  /** A curve whose points rise never falls, and one whose points fall never rises. */
  lemma InterpolateIsMonotone(points: seq<Point>, x: int, x': int, up: bool)
    requires StrictlySorted(points) && Complete(points) && Monotone(points, up) && points != [] && x <= x'
    ensures Interpolate(points, x).Some? && Interpolate(points, x').Some?
    ensures Ordered(up, Interpolate(points, x).value, Interpolate(points, x').value)
  {
    if |points| > 1 {
      var lo, hi := points[0].x, points[|points| - 1].x;
      var u := if x < lo then lo else if x > hi then hi else x;
      var v := if x' < lo then lo else if x' > hi then hi else x';
      MonotoneInside(points, u, v, up);
      assert Interpolate(points, x) == Interpolate(points, u);
      assert Interpolate(points, x') == Interpolate(points, v);
    }
  }

  // ----- the curve object -----

  class DERCurve {
    var curveData: seq<Point>

    constructor ()
      ensures curveData == []
    {
      curveData := [];
    }

    method AddPoint(x: int, y: Option<int>, excitation: Option<bool>)
      modifies this
      ensures curveData == Sort(old(curveData) + [Point(x, y, excitation)])
      ensures Sorted(curveData) && multiset(curveData) == multiset(old(curveData)) + multiset{Point(x, y, excitation)}
    {
      curveData := curveData + [Point(x, y, excitation)];
      SortSorts(curveData);
      SortInPlace();
    }

    /** list.sort(key=xvalue) */
    method SortInPlace()
      modifies this
      ensures curveData == Sort(old(curveData))
    {
      ghost var original := curveData;
      var sorted: seq<Point> := [];
      for i := 0 to |curveData|
        invariant curveData == original && sorted == Sort(original[..i])
      {
        sorted := Insert(sorted, curveData[i]);
        assert original[..i + 1][..i] == original[..i];
      }
      assert original[..|original|] == original;
      curveData := sorted;
    }

    method InterpolateY(x: int) returns (y: Option<int>)
      ensures y == if |curveData| <= 1 then Interpolate(curveData, x) else Interpolate(Sort(curveData), x)
    {
      if curveData == [] {
        return None;
      }
      if |curveData| == 1 {
        return curveData[0].y;
      }
      hide Sort, Search;
      var points := Sort(curveData);
      if x <= points[0].x {
        return points[0].y;
      }
      if x >= points[|points| - 1].x {
        return points[|points| - 1].y;
      }
      y := ScanSegments(points, x);
    }

    /** The loop of interpolate_y */
    static method ScanSegments(points: seq<Point>, x: int) returns (y: Option<int>)
      requires points != []
      ensures y == Search(points, x, 0)
    {
      for i := 0 to |points| - 1
        invariant Search(points, x, 0) == Search(points, x, i)
      {
        if points[i].x <= x <= points[i + 1].x {
          return Some(Segment(points[i], points[i + 1], x));
        }
      }
      return None;
    }
  }
}
