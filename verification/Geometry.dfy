// Geometry of strokes: nearest points, hit testing, thinning and smoothing, resize transforms.
// Distances are compared squared, so no square root is needed.
module Geometry {
  import opened Prelude
  import opened Drawing

  // Named, so that a proof can hide them and treat products as atoms.
  function Times(x: real, y: real): real {
    x * y
  }

  function Sq(x: real): real {
    x * x
  }

  function DistSq(a: Point, b: Point): real {
    Sq(a.x - b.x) + Sq(a.y - b.y)
  }

  // ---- the nearest point of a segment ----

  // The point a fraction t of the way from a to b.
  function Along(a: Point, b: Point, t: real): Point {
    Point(a.x + Times(t, b.x - a.x), a.y + Times(t, b.y - a.y))
  }

  function Dot(p: Point, a: Point, b: Point): real {
    Times(p.x - a.x, b.x - a.x) + Times(p.y - a.y, b.y - a.y)
  }

  function DistSqToSegment(p: Point, a: Point, b: Point): real {
    var lenSq := DistSq(b, a);
    if lenSq == 0.0 then DistSq(p, a)
    else DistSq(p, Along(a, b, Clamp(Dot(p, a, b) / lenSq, 0.0, 1.0)))
  }

  lemma SquareOfMinus(u: real, v: real)
    ensures Sq(u - v) == Sq(u) - 2.0 * Times(u, v) + Sq(v)
  {
  }

  lemma ProductsSwap(u: real, t: real, w: real)
    ensures Times(u, Times(t, w)) == Times(t, Times(u, w))
  {
    assert u * (t * w) == t * (u * w);
  }

  lemma SquareOfProduct(t: real, w: real)
    ensures Sq(Times(t, w)) == Times(Sq(t), Sq(w))
  {
    assert (t * w) * (t * w) == (t * t) * (w * w);
  }

  lemma SquareOfDifference(u: real, t: real, w: real)
    ensures Sq(u - Times(t, w)) == Sq(u) - 2.0 * Times(t, Times(u, w)) + Times(Sq(t), Sq(w))
  {
    hide Sq, Times;
    SquareOfMinus(u, Times(t, w));
    ProductsSwap(u, t, w);
    SquareOfProduct(t, w);
  }

  lemma Distributes(k: real, x: real, y: real)
    ensures Times(k, x + y) == Times(k, x) + Times(k, y)
  {
  }

  // The squared distance to a point along the segment is a parabola in its parameter.
  lemma Parabola(p: Point, a: Point, b: Point, t: real)
    ensures DistSq(p, Along(a, b, t)) == DistSq(p, a) - 2.0 * Times(t, Dot(p, a, b)) + Times(Sq(t), DistSq(b, a))
  {
    hide Times, Sq;
    var ux, uy, wx, wy := p.x - a.x, p.y - a.y, b.x - a.x, b.y - a.y;
    SquareOfDifference(ux, t, wx);
    SquareOfDifference(uy, t, wy);
    Distributes(t, Times(ux, wx), Times(uy, wy));
    Distributes(Sq(t), Sq(wx), Sq(wy));
    var at := Along(a, b, t);
    assert p.x - at.x == ux - Times(t, wx) && p.y - at.y == uy - Times(t, wy);
  }

  lemma Positive(x: real, y: real)
    requires x >= 0.0 && y >= 0.0
    ensures Times(x, y) >= 0.0
    ensures x > 0.0 && y > 0.0 ==> Times(x, y) > 0.0
  {
  }

  lemma Square(x: real)
    ensures Sq(x) >= 0.0
    ensures x != 0.0 ==> Sq(x) > 0.0
  {
    if x > 0.0 {
      Positive(x, x);
    } else if x < 0.0 {
      var y := -x;
      Positive(y, y);
    }
  }

  lemma DistSqIsPositive(a: Point, b: Point)
    ensures DistSq(a, b) >= 0.0
    ensures a != b ==> DistSq(a, b) > 0.0
  {
    hide Sq;
    Square(a.x - b.x);
    Square(a.y - b.y);
  }

  lemma AlongNothing(a: Point, t: real)
    ensures Along(a, a, t) == a
  {
  }

  // The clamped vertex against any other parameter: the two factors of the difference agree in sign.
  lemma ClampedGap(u: real, s: real)
    requires 0.0 <= s <= 1.0
    ensures var t := Clamp(u, 0.0, 1.0); Times(s - t, s + t - 2.0 * u) >= 0.0
  {
    if u < 0.0 {
      Positive(s, s - 2.0 * u);
    } else if u > 1.0 {
      Positive(1.0 - s, 2.0 * u - 1.0 - s);
      assert (s - 1.0) * (s + 1.0 - 2.0 * u) == (1.0 - s) * (2.0 * u - 1.0 - s);
    } else {
      Square(s - u);
    }
  }

  lemma GapTimesLength(s: real, t: real, u: real, len: real)
    ensures Times(Times(s - t, s + t - 2.0 * u), len)
      == (Times(Sq(s), len) - 2.0 * Times(s, Times(u, len))) - (Times(Sq(t), len) - 2.0 * Times(t, Times(u, len)))
  {
    assert (s - t) * (s + t - 2.0 * u) == s * s - t * t - 2.0 * (s * u) + 2.0 * (t * u);
    assert (s * u) * len == s * (u * len);
    assert (t * u) * len == t * (u * len);
  }

  lemma Quotient(x: real, y: real)
    requires y > 0.0
    ensures Times(x / y, y) == x
  {
  }

  // An upward parabola over [0, 1] is lowest at its vertex clamped into the interval.
  lemma VertexIsLowest(dot: real, len: real, s: real)
    requires len > 0.0 && 0.0 <= s <= 1.0
    ensures var t := Clamp(dot / len, 0.0, 1.0);
      Times(Sq(t), len) - 2.0 * Times(t, dot) <= Times(Sq(s), len) - 2.0 * Times(s, dot)
  {
    hide Times, Sq, Clamp;
    var u := dot / len;
    var t := Clamp(u, 0.0, 1.0);
    Quotient(dot, len);
    ClampedGap(u, s);
    Positive(Times(s - t, s + t - 2.0 * u), len);
    GapTimesLength(s, t, u, len);
  }

  // No point of the segment is nearer than the clamped projection.
  lemma NoneNearer(p: Point, a: Point, b: Point, s: real)
    requires 0.0 <= s <= 1.0
    ensures DistSqToSegment(p, a, b) <= DistSq(p, Along(a, b, s))
  {
    hide DistSq, Dot, Clamp, Along;
    DistSqIsPositive(b, a);
    if a == b {
      AlongNothing(a, s);
      var len := DistSq(b, a);
      if len != 0.0 {
        AlongNothing(a, Clamp(Dot(p, a, b) / len, 0.0, 1.0));
      }
    } else {
      Parabola(p, a, b, Clamp(Dot(p, a, b) / DistSq(b, a), 0.0, 1.0));
      Parabola(p, a, b, s);
      VertexIsLowest(Dot(p, a, b), DistSq(b, a), s);
    }
  }

  // The clamped projection is the nearest of all points of the segment, and one of them.
  lemma NearestPoint(p: Point, a: Point, b: Point)
    ensures forall s: real :: 0.0 <= s <= 1.0 ==> DistSqToSegment(p, a, b) <= DistSq(p, Along(a, b, s))
    ensures exists t: real :: 0.0 <= t <= 1.0 && DistSqToSegment(p, a, b) == DistSq(p, Along(a, b, t))
  {
    forall s: real | 0.0 <= s <= 1.0 ensures DistSqToSegment(p, a, b) <= DistSq(p, Along(a, b, s)) {
      NoneNearer(p, a, b, s);
    }
    hide DistSq, Dot, Along;
    var len := DistSq(b, a);
    if len == 0.0 {
      DistSqIsPositive(b, a);
      AlongNothing(a, 0.0);
      assert DistSqToSegment(p, a, b) == DistSq(p, Along(a, b, 0.0));
    } else {
      var t := Clamp(Dot(p, a, b) / len, 0.0, 1.0);
      assert DistSqToSegment(p, a, b) == DistSq(p, Along(a, b, t));
    }
  }

  // ---- distance to a polyline ----

  function SegmentDistSq(p: Point, line: seq<Point>, i: nat): real
    requires i < |line| - 1
  {
    DistSqToSegment(p, line[i], line[i + 1])
  }

  function OnLine(line: seq<Point>, i: nat, t: real): Point
    requires i < |line| - 1
  {
    Along(line[i], line[i + 1], t)
  }

  // Some segment of the polyline comes within the radius.
  predicate Within(p: Point, line: seq<Point>, radiusSq: real) {
    exists i :: 0 <= i < |line| - 1 && SegmentDistSq(p, line, i) <= radiusSq
  }

  lemma OneSegment(p: Point, a: Point, b: Point, radiusSq: real)
    ensures Within(p, [a, b], radiusSq) <==> DistSqToSegment(p, a, b) <= radiusSq
  {
    hide DistSqToSegment;
    assert SegmentDistSq(p, [a, b], 0) == DistSqToSegment(p, a, b);
  }

  lemma Cancel(x: real, y: real, length: real)
    requires length > 0.0 && Times(x, length) == Times(y, length)
    ensures x == y
  {
    assert (x - y) * length == 0.0;
  }

  lemma Share(t: real, length: real)
    requires length > 0.0
    ensures Times(t, length) <= 0.0 ==> t <= 0.0
    ensures Times(t, length) >= length ==> t >= 1.0
    ensures 0.0 <= Times(t, length) <= length ==> 0.0 <= t <= 1.0
  {
    assert (1.0 - t) * length == length - Times(t, length);
    if t > 0.0 {
      Positive(t, length);
    } else {
      Positive(-t, length);
      assert -t * length == -Times(t, length);
    }
    if t < 1.0 {
      Positive(1.0 - t, length);
    } else {
      Positive(t - 1.0, length);
      assert (t - 1.0) * length == Times(t, length) - length;
    }
  }

  lemma Fraction(gap: real, length: real)
    requires length > 0.0 && Sq(length) > 0.0
    ensures Times(Times(gap, length) / Sq(length), length) == gap
  {
    var t := Times(gap, length) / Sq(length);
    assert t * (length * length) == gap * length;
    assert t * (length * length) == (t * length) * length;
    Cancel(Times(t, length), gap, length);
  }

  // On a horizontal segment the nearest point is straight below, or an end.
  lemma LevelDistance(p: Point, a: Point, b: Point)
    requires a.y == b.y && a.x < b.x
    ensures a.x <= p.x <= b.x ==> DistSqToSegment(p, a, b) == Sq(p.y - a.y)
    ensures p.x <= a.x ==> DistSqToSegment(p, a, b) == DistSq(p, a)
    ensures p.x >= b.x ==> DistSqToSegment(p, a, b) == DistSq(p, b)
  {
    var length, gap := b.x - a.x, p.x - a.x;
    LevelLength(p, a, b);
    Fraction(gap, length);
    Share(Times(gap, length) / Sq(length), length);
    AlongLevel(a, b, Clamp(Times(gap, length) / Sq(length), 0.0, 1.0));
    assert Sq(0.0) == 0.0 && Times(0.0, length) == 0.0 && Times(1.0, length) == length;
    hide Times, Along, Dot, Sq;
  }

  lemma LevelLength(p: Point, a: Point, b: Point)
    requires a.y == b.y && a.x < b.x
    ensures DistSq(b, a) == Sq(b.x - a.x) && Sq(b.x - a.x) > 0.0 && Dot(p, a, b) == Times(p.x - a.x, b.x - a.x)
  {
    assert b.y - a.y == 0.0;
    assert Sq(b.y - a.y) == 0.0 && Times(p.y - a.y, b.y - a.y) == 0.0;
    Positive(b.x - a.x, b.x - a.x);
  }

  lemma AlongLevel(a: Point, b: Point, t: real)
    requires a.y == b.y
    ensures Along(a, b, t) == Point(a.x + Times(t, b.x - a.x), a.y)
  {
  }

  // What that means geometrically: some point on the drawn line is that close.
  lemma WithinIff(p: Point, line: seq<Point>, radiusSq: real)
    ensures Within(p, line, radiusSq)
      <==> exists i, t: real :: 0 <= i < |line| - 1 && 0.0 <= t <= 1.0 && DistSq(p, OnLine(line, i, t)) <= radiusSq
  {
    if Within(p, line, radiusSq) {
      var i :| 0 <= i < |line| - 1 && SegmentDistSq(p, line, i) <= radiusSq;
      NearestPoint(p, line[i], line[i + 1]);
      var t: real :| 0.0 <= t <= 1.0 && DistSqToSegment(p, line[i], line[i + 1]) == DistSq(p, Along(line[i], line[i + 1], t));
      assert DistSq(p, OnLine(line, i, t)) <= radiusSq;
    }
    if i, t: real :| 0 <= i < |line| - 1 && 0.0 <= t <= 1.0 && DistSq(p, OnLine(line, i, t)) <= radiusSq {
      NearestPoint(p, line[i], line[i + 1]);
      assert SegmentDistSq(p, line, i) <= radiusSq;
    }
  }

  // `best` is None for the source's initial Infinity. The loop stops early, so a result within the
  // threshold need not be the minimum; a result beyond it is.
  method DistanceToPolyline(p: Point, line: seq<Point>, thresholdSq: real) returns (best: Option<real>)
    ensures best.Some? && best.value <= thresholdSq <==> Within(p, line, thresholdSq)
    ensures best.None? <==> |line| < 2
    ensures best.Some? ==> exists i :: 0 <= i < |line| - 1 && best.value == SegmentDistSq(p, line, i)
    ensures best.Some? && best.value > thresholdSq ==> forall i :: 0 <= i < |line| - 1 ==> best.value <= SegmentDistSq(p, line, i)
  {
    best := None;
    if |line| < 2 {
      return;
    }
    for i := 0 to |line| - 1
      invariant best.None? <==> i == 0
      invariant best.Some? ==> best.value > thresholdSq
      invariant best.Some? ==> exists k :: 0 <= k < i && best.value == SegmentDistSq(p, line, k)
      invariant best.Some? ==> forall k :: 0 <= k < i ==> best.value <= SegmentDistSq(p, line, k)
    {
      var d := SegmentDistSq(p, line, i);
      if best.None? || d < best.value {
        best := Some(d);
      }
      if best.value <= thresholdSq {
        return;
      }
    }
  }

  // ---- thinning ----

  // Indices of the samples kept: the first, and each later one far enough from the last one kept.
  function KeptIndices(points: seq<Point>, minSq: real): (r: seq<nat>)
    requires points != []
    ensures r != [] && r[0] == 0
    ensures forall k :: 0 <= k < |r| ==> r[k] < |points|
  {
    if |points| == 1 then [0]
    else
      var n := |points| - 1;
      var kept := KeptIndices(points[..n], minSq);
      if DistSq(points[n], points[kept[|kept| - 1]]) >= minSq then kept + [n] else kept
  }

  // Neighbouring kept samples are at least the minimum distance apart.
  ghost predicate Spread(points: seq<Point>, kept: seq<nat>, minSq: real)
    requires forall k :: 0 <= k < |kept| ==> kept[k] < |points|
  {
    forall k :: 0 < k < |kept| ==> kept[k - 1] < kept[k] && DistSq(points[kept[k]], points[kept[k - 1]]) >= minSq
  }

  // Where the samples dropped after the k-th kept one end.
  function Until(kept: seq<nat>, k: nat, end: nat): nat {
    if k + 1 < |kept| then kept[k + 1] else end
  }

  // A sample that is not kept is nearer than that to the last kept sample before it.
  ghost predicate DroppedForReason(points: seq<Point>, kept: seq<nat>, minSq: real)
    requires forall k :: 0 <= k < |kept| ==> kept[k] < |points|
  {
    forall k, j :: 0 <= k < |kept| && kept[k] < j < Until(kept, k, |points|) ==>
      DistSq(points[j], points[kept[k]]) < minSq
  }

  lemma {:induction false} ThinningSpreads(points: seq<Point>, minSq: real)
    requires points != []
    ensures Spread(points, KeptIndices(points, minSq), minSq)
  {
    hide DistSq;
    if |points| > 1 {
      var n := |points| - 1;
      var init := points[..n];
      ThinningSpreads(init, minSq);
      var before, kept := KeptIndices(init, minSq), KeptIndices(points, minSq);
      assert kept == before || (kept == before + [n] && DistSq(points[n], points[before[|before| - 1]]) >= minSq);
      hide KeptIndices;
      forall k | 0 < k < |kept|
        ensures kept[k - 1] < kept[k] && DistSq(points[kept[k]], points[kept[k - 1]]) >= minSq
      {
        assert kept[k - 1] == before[k - 1];
        if k < |before| {
          assert DistSq(init[before[k]], init[before[k - 1]]) >= minSq;
        }
      }
    }
  }

  lemma {:induction false} ThinningDropsForReason(points: seq<Point>, minSq: real)
    requires points != []
    ensures DroppedForReason(points, KeptIndices(points, minSq), minSq)
  {
    hide DistSq, DroppedForReason;
    if |points| > 1 {
      var n := |points| - 1;
      ThinningDropsForReason(points[..n], minSq);
      var before := KeptIndices(points[..n], minSq);
      assert points == points[..n] + [points[n]];
      if DistSq(points[n], points[before[|before| - 1]]) >= minSq {
        DropsOneMore(points[..n], before, points[n], minSq);
      } else {
        DropsTheLast(points[..n], before, points[n], minSq);
      }
    } else {
      OnlyOneKept(points, minSq);
    }
  }

  lemma OnlyOneKept(points: seq<Point>, minSq: real)
    requires |points| == 1
    ensures DroppedForReason(points, [0], minSq)
  {
  }

  lemma DropsOneMore(init: seq<Point>, kept: seq<nat>, p: Point, minSq: real)
    requires kept != [] && forall k :: 0 <= k < |kept| ==> kept[k] < |init|
    requires DroppedForReason(init, kept, minSq)
    ensures DroppedForReason(init + [p], kept + [|init|], minSq)
  {
    var all := init + [p];
    forall k, j | 0 <= k < |kept| && kept[k] < j < Until(kept, k, |init|)
      ensures DistSq(all[j], all[kept[k]]) < minSq
    {
      assert DistSq(init[j], init[kept[k]]) < minSq;
    }
  }

  lemma DropsTheLast(init: seq<Point>, kept: seq<nat>, p: Point, minSq: real)
    requires kept != [] && forall k :: 0 <= k < |kept| ==> kept[k] < |init|
    requires DroppedForReason(init, kept, minSq) && DistSq(p, init[kept[|kept| - 1]]) < minSq
    ensures DroppedForReason(init + [p], kept, minSq)
  {
    var all := init + [p];
    forall k, j | 0 <= k < |kept| && kept[k] < j < Until(kept, k, |all|)
      ensures DistSq(all[j], all[kept[k]]) < minSq
    {
      if j < |init| {
        assert DistSq(init[j], init[kept[k]]) < minSq;
      } else {
        assert k == |kept| - 1;
      }
    }
  }

  function Picked(points: seq<Point>, indices: seq<nat>): seq<Point>
    requires forall k :: 0 <= k < |indices| ==> indices[k] < |points|
  {
    seq(|indices|, k requires 0 <= k < |indices| => points[indices[k]])
  }

  function Decimated(points: seq<Point>, minSq: real): seq<Point> {
    if points == [] then [] else Picked(points, KeptIndices(points, minSq))
  }

  lemma DecimatedNone(minSq: real)
    ensures Decimated([], minSq) == []
  {
  }

  lemma DecimatedOne(p: Point, minSq: real)
    ensures Decimated([p], minSq) == [p]
  {
  }

  lemma KeptSnoc(points: seq<Point>, p: Point, minSq: real)
    requires points != []
    ensures var r := KeptIndices(points, minSq);
      KeptIndices(points + [p], minSq) == if DistSq(p, points[r[|r| - 1]]) >= minSq then r + [|points|] else r
  {
    assert (points + [p])[..|points|] == points;
  }

  lemma DecimatedSnoc(points: seq<Point>, p: Point, minSq: real)
    requires points != []
    ensures Decimated(points, minSq) != []
    ensures var kept := Decimated(points, minSq);
      Decimated(points + [p], minSq) == if DistSq(p, kept[|kept| - 1]) >= minSq then kept + [p] else kept
  {
    hide DistSq, KeptIndices, Picked;
    var r := KeptIndices(points, minSq);
    KeptSnoc(points, p, minSq);
    PickedMore(points, r, p);
    PickedLast(points, r);
  }

  lemma PickedLast(points: seq<Point>, indices: seq<nat>)
    requires indices != [] && forall k :: 0 <= k < |indices| ==> indices[k] < |points|
    ensures |Picked(points, indices)| == |indices|
    ensures Picked(points, indices)[|indices| - 1] == points[indices[|indices| - 1]]
  {
  }

  // One more sample: kept when it is far enough from the last one kept.
  lemma DecimatedStep(points: seq<Point>, i: nat, minSq: real)
    requires 0 < i < |points|
    ensures var kept := Decimated(points[..i], minSq);
      && kept != []
      && Decimated(points[..i + 1], minSq) == if DistSq(points[i], kept[|kept| - 1]) >= minSq then kept + [points[i]] else kept
  {
    hide DistSq, Decimated;
    DecimatedSnoc(points[..i], points[i], minSq);
    assert points[..i + 1] == points[..i] + [points[i]];
  }

  lemma DecimatedEnds(points: seq<Point>, minSq: real)
    requires points != []
    ensures Decimated(points[..1], minSq) == [points[0]]
    ensures Decimated(points[..|points|], minSq) == Decimated(points, minSq)
  {
    hide Decimated;
    DecimatedOne(points[0], minSq);
    assert points[..1] == [points[0]] && points[..|points|] == points;
  }

  lemma PickedMore(points: seq<Point>, indices: seq<nat>, p: Point)
    requires forall k :: 0 <= k < |indices| ==> indices[k] < |points|
    ensures Picked(points + [p], indices) == Picked(points, indices)
    ensures Picked(points + [p], indices + [|points|]) == Picked(points, indices) + [p]
  {
  }

  method Decimate(points: seq<Point>, minDist: real) returns (out: seq<Point>)
    ensures out == Decimated(points, Sq(minDist))
  {
    hide *;
    if points == [] {
      DecimatedNone(Sq(minDist));
      return [];
    }
    var minSq := Sq(minDist);
    var last := points[0];
    out := [last];
    DecimatedEnds(points, minSq);
    for i := 1 to |points|
      invariant out == Decimated(points[..i], minSq)
      invariant out != [] && last == out[|out| - 1]
    {
      DecimatedStep(points, i, minSq);
      if DistSq(points[i], last) >= minSq {
        out := out + [points[i]];
        last := points[i];
      }
    }
  }

  // ---- smoothing ----

  // The two points that replace a corner between a and b.
  function Corner(a: Point, b: Point): seq<Point> {
    [Along(a, b, 0.25), Along(a, b, 0.75)]
  }

  function Corners(points: seq<Point>): seq<Point> {
    if |points| < 2 then [] else Corners(points[..|points| - 1]) + Corner(points[|points| - 2], points[|points| - 1])
  }

  function CutCorners(points: seq<Point>): seq<Point>
    requires points != []
  {
    [points[0]] + Corners(points) + [points[|points| - 1]]
  }

  function Smoothed(points: seq<Point>, iterations: nat): (r: seq<Point>)
    requires points != []
    ensures r != []
  {
    if iterations == 0 then points else CutCorners(Smoothed(points, iterations - 1))
  }

  ghost predicate InBox(points: seq<Point>, lo: Point, hi: Point) {
    forall p :: p in points ==> lo.x <= p.x <= hi.x && lo.y <= p.y <= hi.y
  }

  lemma {:induction false} CornersLength(points: seq<Point>)
    requires points != []
    ensures |Corners(points)| == 2 * (|points| - 1)
  {
    if |points| >= 2 {
      CornersLength(points[..|points| - 1]);
    }
  }

  lemma {:induction false} CornersStayInBox(points: seq<Point>, lo: Point, hi: Point)
    requires points != [] && InBox(points, lo, hi)
    ensures InBox(Corners(points), lo, hi)
  {
    if |points| >= 2 {
      var n := |points| - 1;
      CornersStayInBox(points[..n], lo, hi);
    }
  }

  // Each pass doubles the points and keeps both ends.
  lemma SmoothedLength(points: seq<Point>, iterations: nat)
    requires points != []
    ensures |Smoothed(points, iterations + 1)| == 2 * |Smoothed(points, iterations)|
    ensures Smoothed(points, iterations + 1)[0] == Smoothed(points, iterations)[0]
    ensures var r, s := Smoothed(points, iterations + 1), Smoothed(points, iterations);
      r[|r| - 1] == s[|s| - 1]
  {
    CornersLength(Smoothed(points, iterations));
  }

  // The smoothed line leaves no box the samples lay in.
  lemma {:induction false} SmoothedStaysInBox(points: seq<Point>, iterations: nat, lo: Point, hi: Point)
    requires points != [] && InBox(points, lo, hi)
    ensures InBox(Smoothed(points, iterations), lo, hi)
  {
    if iterations > 0 {
      SmoothedStaysInBox(points, iterations - 1, lo, hi);
      CornersStayInBox(Smoothed(points, iterations - 1), lo, hi);
    }
  }

  // The corners of the i-th segment lie at a quarter and at three quarters of it, in that order.
  lemma {:induction false} CornersAtQuarters(points: seq<Point>, i: nat)
    requires i + 1 < |points|
    ensures |Corners(points)| == 2 * (|points| - 1)
    ensures AtQuarters(points[i], points[i + 1], Corners(points)[2 * i], Corners(points)[2 * i + 1])
  {
    CornersLength(points);
    CornersLength(points[..|points| - 1]);
    if i + 2 < |points| {
      CornersAtQuarters(points[..|points| - 1], i);
    }
  }

  predicate AtQuarters(a: Point, b: Point, first: Point, second: Point) {
    && 4.0 * (first.x - a.x) == b.x - a.x && 4.0 * (first.y - a.y) == b.y - a.y
    && 4.0 * (b.x - second.x) == b.x - a.x && 4.0 * (b.y - second.y) == b.y - a.y
  }

  // Each pass puts two points on every segment, a quarter of it from either end, in order.
  lemma SmoothedAtQuarters(points: seq<Point>, iterations: nat, i: nat)
    requires points != [] && i + 1 < |Smoothed(points, iterations)|
    ensures var before, after := Smoothed(points, iterations), Smoothed(points, iterations + 1);
      && |after| == 2 * |before|
      && AtQuarters(before[i], before[i + 1], after[2 * i + 1], after[2 * i + 2])
  {
    CornersAtQuarters(Smoothed(points, iterations), i);
  }

  lemma CornersEnds(points: seq<Point>)
    requires points != []
    ensures Corners(points[..1]) == [] && Corners(points[..|points|]) == Corners(points)
  {
    assert points[..|points|] == points;
  }

  // The corners of one more point.
  lemma CornersSnoc(points: seq<Point>, i: nat)
    requires i + 1 < |points|
    ensures Corners(points[..i + 2]) == Corners(points[..i + 1]) + Corner(points[i], points[i + 1])
  {
    hide Corner;
    var more := points[..i + 2];
    assert more[..|more| - 1] == points[..i + 1];
  }

  lemma Regroup(a: seq<Point>, b: seq<Point>, c: seq<Point>)
    ensures a + b + c == a + (b + c)
  {
  }

  method Chaikin(points: seq<Point>, iterations: nat) returns (r: seq<Point>)
    ensures r == if |points| < 3 then points else Smoothed(points, iterations)
  {
    if |points| < 3 {
      return points;
    }
    var current := points;
    hide Corner, Corners;
    for pass := 0 to iterations
      invariant |current| >= 2 && current == Smoothed(points, pass)
    {
      var next := [current[0]];
      CornersEnds(current);
      assert next + [] == next;
      for i := 0 to |current| - 1
        invariant |next| >= 1 && next == [current[0]] + Corners(current[..i + 1])
      {
        CornersSnoc(current, i);
        Regroup([current[0]], Corners(current[..i + 1]), Corner(current[i], current[i + 1]));
        next := next + Corner(current[i], current[i + 1]);
      }
      current := next + [current[|current| - 1]];
    }
    return current;
  }

  // ---- resizing ----

  datatype Box = Box(minX: real, minY: real, maxX: real, maxY: real)

  ghost predicate Encloses(b: Box, points: seq<Point>) {
    forall p :: p in points ==> b.minX <= p.x <= b.maxX && b.minY <= p.y <= b.maxY
  }

  // Every side of the box touches a point.
  ghost predicate Tight(b: Box, points: seq<Point>) {
    && (exists p :: p in points && p.x == b.minX) && (exists p :: p in points && p.x == b.maxX)
    && (exists p :: p in points && p.y == b.minY) && (exists p :: p in points && p.y == b.maxY)
  }

  method BoundsOf(points: seq<Point>) returns (r: Option<Box>)
    ensures r.None? <==> points == []
    ensures r.Some? ==> Encloses(r.value, points) && Tight(r.value, points)
  {
    if points == [] {
      return None;
    }
    var b := Box(points[0].x, points[0].y, points[0].x, points[0].y);
    assert points[0] in points;
    for i := 1 to |points|
      invariant forall k :: 0 <= k < i ==> b.minX <= points[k].x <= b.maxX && b.minY <= points[k].y <= b.maxY
      invariant Tight(b, points)
    {
      var p := points[i];
      assert p in points;
      b := Box(if p.x < b.minX then p.x else b.minX, if p.y < b.minY then p.y else b.minY,
               if p.x > b.maxX then p.x else b.maxX, if p.y > b.maxY then p.y else b.maxY);
    }
    return Some(b);
  }

  datatype Handle = NW | N | NE | E | SE | S | SW | W

  const MIN_BBOX_DIMENSION := 0.001
  const MIN_SCALE := 0.001
  const MAX_SCALE := 1000.0

  function Abs(x: real): real {
    if x < 0.0 then -x else x
  }

  function SafeScaleFactor(newLength: real, oldLength: real): (r: real)
    ensures MIN_SCALE <= r <= MAX_SCALE
  {
    var denom := if Abs(oldLength) < MIN_BBOX_DIMENSION then MIN_BBOX_DIMENSION else oldLength;
    Clamp(newLength / denom, MIN_SCALE, MAX_SCALE)
  }

  function Opposite(h: Handle): Handle {
    match h
    case NW => SE
    case N => S
    case NE => SW
    case E => W
    case SE => NW
    case S => N
    case SW => NE
    case W => E
  }

  function HandlePosition(b: Box, h: Handle): Point {
    var midX, midY := (b.minX + b.maxX) / 2.0, (b.minY + b.maxY) / 2.0;
    match h
    case NW => Point(b.minX, b.minY)
    case N => Point(midX, b.minY)
    case NE => Point(b.maxX, b.minY)
    case E => Point(b.maxX, midY)
    case SE => Point(b.maxX, b.maxY)
    case S => Point(midX, b.maxY)
    case SW => Point(b.minX, b.maxY)
    case W => Point(b.minX, midY)
  }

  datatype Transform = Transform(anchor: Point, scaleX: real, scaleY: real)

  function ComputeResizeTransform(b: Box, h: Handle, to: Point): (r: Transform)
    ensures MIN_SCALE <= r.scaleX <= MAX_SCALE && MIN_SCALE <= r.scaleY <= MAX_SCALE
  {
    var anchor, at := HandlePosition(b, Opposite(h)), HandlePosition(b, h);
    Transform(anchor,
      if h != N && h != S then SafeScaleFactor(to.x - anchor.x, at.x - anchor.x) else 1.0,
      if h != W && h != E then SafeScaleFactor(to.y - anchor.y, at.y - anchor.y) else 1.0)
  }

  // The scale that would bring the edge under the cursor is in the accepted range.
  predicate Reachable(anchor: real, at: real, to: real) {
    at != anchor && MIN_SCALE <= (to - anchor) / (at - anchor) <= MAX_SCALE
  }

  // The dragged edge ends up under the cursor exactly when the scale it would take is in the
  // accepted range; the opposite edge never moves.
  lemma EdgeFollowsCursorIff(anchor: real, at: real, to: real)
    requires Abs(at - anchor) >= MIN_BBOX_DIMENSION
    ensures var scale := SafeScaleFactor(to - anchor, at - anchor);
      && (ScaledFrom(anchor, at, scale) == to <==> Reachable(anchor, at, to))
      && ScaledFrom(anchor, anchor, scale) == anchor
  {
    var length := at - anchor;
    var ratio := (to - anchor) / length;
    var scale := SafeScaleFactor(to - anchor, length);
    assert length * ratio == to - anchor;
    if length * scale == length * ratio {
      assert length * (scale - ratio) == 0.0;
    }
  }

  // The handles that are shown: none whose scale would be taken from a side without extent.
  function VisibleHandles(b: Box): seq<Handle> {
    var thin, flat := b.maxX - b.minX < MIN_BBOX_DIMENSION, b.maxY - b.minY < MIN_BBOX_DIMENSION;
    if thin && flat then []
    else if thin then [N, S]
    else if flat then [W, E]
    else [NW, N, NE, E, SE, S, SW, W]
  }

  lemma ResizeFollowsCursor(b: Box, h: Handle, to: Point)
    requires h in VisibleHandles(b)
    ensures var r := ComputeResizeTransform(b, h, to);
      var at := HandlePosition(b, h);
      var moved := ScalePoints([at, r.anchor], r.anchor, r.scaleX, r.scaleY);
      && moved[1] == r.anchor
      && (if h == N || h == S then moved[0].x == at.x else moved[0].x == to.x <==> Reachable(r.anchor.x, at.x, to.x))
      && (if h == W || h == E then moved[0].y == at.y else moved[0].y == to.y <==> Reachable(r.anchor.y, at.y, to.y))
  {
    Opposites(b, h);
    hide SafeScaleFactor, HandlePosition, ScaledFrom, Reachable;
    var r := ComputeResizeTransform(b, h, to);
    var at := HandlePosition(b, h);
    hide ScalePoints;
    if h != N && h != S {
      EdgeFollowsCursorIff(r.anchor.x, at.x, to.x);
    }
    if h != W && h != E {
      EdgeFollowsCursorIff(r.anchor.y, at.y, to.y);
    }
  }

  lemma Opposites(b: Box, h: Handle)
    requires h in VisibleHandles(b)
    ensures var at, anchor := HandlePosition(b, h), HandlePosition(b, Opposite(h));
      && (h != N && h != S ==> Abs(at.x - anchor.x) >= MIN_BBOX_DIMENSION)
      && (h != W && h != E ==> Abs(at.y - anchor.y) >= MIN_BBOX_DIMENSION)
  {
  }

  // ---- the box of a resized line ----

  predicate DragsLeft(h: Handle) {
    h == NW || h == W || h == SW
  }

  predicate DragsRight(h: Handle) {
    h == NE || h == E || h == SE
  }

  predicate DragsTop(h: Handle) {
    h == NW || h == N || h == NE
  }

  predicate DragsBottom(h: Handle) {
    h == SW || h == S || h == SE
  }

  // The box with the sides that the handle drags brought to the cursor.
  function Dragged(b: Box, h: Handle, to: Point): Box {
    Box(if DragsLeft(h) then to.x else b.minX, if DragsTop(h) then to.y else b.minY,
        if DragsRight(h) then to.x else b.maxX, if DragsBottom(h) then to.y else b.maxY)
  }

  // The scale that takes a side of the given length to the wanted one is in the accepted range.
  predicate InRange(length: real, wanted: real)
    requires length > 0.0
  {
    MIN_SCALE <= wanted / length <= MAX_SCALE
  }

  predicate CanReach(b: Box, h: Handle, to: Point) {
    && (DragsLeft(h) || DragsRight(h) ==>
         b.maxX > b.minX && InRange(b.maxX - b.minX, Dragged(b, h, to).maxX - Dragged(b, h, to).minX))
    && (DragsTop(h) || DragsBottom(h) ==>
         b.maxY > b.minY && InRange(b.maxY - b.minY, Dragged(b, h, to).maxY - Dragged(b, h, to).minY))
  }

  lemma AxisScaled(lo: real, hi: real, anchor: real, scale: real, x: real)
    requires lo <= x <= hi && scale > 0.0
    ensures ScaledFrom(anchor, lo, scale) <= ScaledFrom(anchor, x, scale) <= ScaledFrom(anchor, hi, scale)
  {
    assert (x - lo) * scale >= 0.0 && (hi - x) * scale >= 0.0;
  }

  // Scaling a side from one end by the wanted ratio gives it the wanted length.
  lemma SideScaled(anchor: real, at: real, to: real)
    requires Abs(at - anchor) >= MIN_BBOX_DIMENSION && MIN_SCALE <= (to - anchor) / (at - anchor) <= MAX_SCALE
    ensures ScaledFrom(anchor, at, SafeScaleFactor(to - anchor, at - anchor)) == to
    ensures ScaledFrom(anchor, anchor, SafeScaleFactor(to - anchor, at - anchor)) == anchor
  {
    FactorInRange(to - anchor, at - anchor);
    TimesRatio(to - anchor, at - anchor);
    hide SafeScaleFactor;
    ScaledTo(anchor, at, to, SafeScaleFactor(to - anchor, at - anchor));
  }

  lemma FactorInRange(newLength: real, oldLength: real)
    requires Abs(oldLength) >= MIN_BBOX_DIMENSION && MIN_SCALE <= newLength / oldLength <= MAX_SCALE
    ensures SafeScaleFactor(newLength, oldLength) == newLength / oldLength
  {
  }

  lemma ScaledTo(anchor: real, at: real, to: real, scale: real)
    requires (at - anchor) * scale == to - anchor
    ensures ScaledFrom(anchor, at, scale) == to && ScaledFrom(anchor, anchor, scale) == anchor
  {
  }

  lemma TimesRatio(x: real, y: real)
    requires y != 0.0
    ensures y * (x / y) == x
  {
  }


  lemma UnscaledStays(anchor: real, x: real)
    ensures ScaledFrom(anchor, x, 1.0) == x
  {
  }

  // A side dragged at its upper end, and one dragged at its lower end.
  lemma UpperEndFollows(lo: real, hi: real, to: real)
    requires hi - lo >= MIN_BBOX_DIMENSION && InRange(hi - lo, to - lo)
    ensures var scale := SafeScaleFactor(to - lo, hi - lo); ScaledFrom(lo, hi, scale) == to && ScaledFrom(lo, lo, scale) == lo
  {
    SideScaled(lo, hi, to);
  }

  lemma LowerEndFollows(lo: real, hi: real, to: real)
    requires hi - lo >= MIN_BBOX_DIMENSION && InRange(hi - lo, hi - to)
    ensures var scale := SafeScaleFactor(to - hi, lo - hi); ScaledFrom(hi, lo, scale) == to && ScaledFrom(hi, hi, scale) == hi
  {
    NegatedRatio(hi - to, hi - lo);
    SideScaled(hi, lo, to);
  }

  lemma NegatedRatio(x: real, y: real)
    requires y != 0.0
    ensures (-x) / (-y) == x / y
  {
    assert -x == (-y) * (x / y);
  }

  // Both ends of the box go where they should, axis by axis.
  lemma SidesFollowX(b: Box, h: Handle, to: Point)
    requires h in VisibleHandles(b) && CanReach(b, h, to)
    ensures var t, d := ComputeResizeTransform(b, h, to), Dragged(b, h, to);
      ScaledFrom(t.anchor.x, b.minX, t.scaleX) == d.minX && ScaledFrom(t.anchor.x, b.maxX, t.scaleX) == d.maxX
  {
    hide SafeScaleFactor, ScaledFrom, InRange;
    if DragsRight(h) {
      UpperEndFollows(b.minX, b.maxX, to.x);
    } else if DragsLeft(h) {
      LowerEndFollows(b.minX, b.maxX, to.x);
    } else {
      var t := ComputeResizeTransform(b, h, to);
      UnscaledStays(t.anchor.x, b.minX);
      UnscaledStays(t.anchor.x, b.maxX);
    }
  }

  lemma SidesFollowY(b: Box, h: Handle, to: Point)
    requires h in VisibleHandles(b) && CanReach(b, h, to)
    ensures var t, d := ComputeResizeTransform(b, h, to), Dragged(b, h, to);
      ScaledFrom(t.anchor.y, b.minY, t.scaleY) == d.minY && ScaledFrom(t.anchor.y, b.maxY, t.scaleY) == d.maxY
  {
    hide SafeScaleFactor, ScaledFrom, InRange;
    if DragsBottom(h) {
      UpperEndFollows(b.minY, b.maxY, to.y);
    } else if DragsTop(h) {
      LowerEndFollows(b.minY, b.maxY, to.y);
    } else {
      var t := ComputeResizeTransform(b, h, to);
      UnscaledStays(t.anchor.y, b.minY);
      UnscaledStays(t.anchor.y, b.maxY);
    }
  }

  lemma ResizedBoxFollows(points: seq<Point>, b: Box, h: Handle, to: Point)
    requires Encloses(b, points) && Tight(b, points) && h in VisibleHandles(b) && CanReach(b, h, to)
    ensures var t := ComputeResizeTransform(b, h, to);
      var after := ScalePoints(points, t.anchor, t.scaleX, t.scaleY);
      Encloses(Dragged(b, h, to), after) && Tight(Dragged(b, h, to), after)
  {
    SidesFollowX(b, h, to);
    SidesFollowY(b, h, to);
    var t := ComputeResizeTransform(b, h, to);
    hide VisibleHandles, CanReach, Dragged, ComputeResizeTransform, Encloses, Tight, ScaledFrom, ScalePoints;
    BoxScaled(points, b, t);
    assert Dragged(b, h, to) == Box(Dragged(b, h, to).minX, Dragged(b, h, to).minY, Dragged(b, h, to).maxX, Dragged(b, h, to).maxY);
  }

  lemma BoxScaled(points: seq<Point>, b: Box, t: Transform)
    requires Encloses(b, points) && Tight(b, points) && t.scaleX > 0.0 && t.scaleY > 0.0
    ensures var after := ScalePoints(points, t.anchor, t.scaleX, t.scaleY);
      var d := Box(ScaledFrom(t.anchor.x, b.minX, t.scaleX), ScaledFrom(t.anchor.y, b.minY, t.scaleY),
                   ScaledFrom(t.anchor.x, b.maxX, t.scaleX), ScaledFrom(t.anchor.y, b.maxY, t.scaleY));
      Encloses(d, after) && Tight(d, after)
  {
    var after := ScalePoints(points, t.anchor, t.scaleX, t.scaleY);
    forall i | 0 <= i < |points|
      ensures ScaledFrom(t.anchor.x, b.minX, t.scaleX) <= after[i].x <= ScaledFrom(t.anchor.x, b.maxX, t.scaleX)
      ensures ScaledFrom(t.anchor.y, b.minY, t.scaleY) <= after[i].y <= ScaledFrom(t.anchor.y, b.maxY, t.scaleY)
    {
      assert points[i] in points;
      AxisScaled(b.minX, b.maxX, t.anchor.x, t.scaleX, points[i].x);
      AxisScaled(b.minY, b.maxY, t.anchor.y, t.scaleY, points[i].y);
    }
    hide ScaledFrom;
    forall p | p in points ensures Point(ScaledFrom(t.anchor.x, p.x, t.scaleX), ScaledFrom(t.anchor.y, p.y, t.scaleY)) in after {
      var i :| 0 <= i < |points| && points[i] == p;
      assert after[i] in after;
    }
  }
}
