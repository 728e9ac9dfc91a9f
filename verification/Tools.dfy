// Tool rules: finishing a pen stroke, clipping under the eraser, hit testing.
module Tools {
  import opened Prelude
  import opened Drawing
  import opened Geometry
  import opened Validator

  const PEN_MIN_DIST := 1.5
  const PEN_SMOOTH_ITERATIONS := 2

  // ---- pen ----

  function PenPoints(raw: seq<Point>): Option<seq<Point>> {
    var thinned := Decimated(raw, Sq(PEN_MIN_DIST));
    if |thinned| < 2 then None
    else if |thinned| < 3 then Some(thinned)
    else Some(Smoothed(thinned, PEN_SMOOTH_ITERATIONS))
  }

  method FinalizePenStroke(id: string, raw: seq<Point>, style: Style, creatorId: Option<string>) returns (r: Option<Stroke>)
    ensures r == match PenPoints(raw) case None => None case Some(points) => Some(Stroke(id, points, style, creatorId))
  {
    var thinned := Decimate(raw, PEN_MIN_DIST);
    if |thinned| < 2 {
      return None;
    }
    var smoothed := Chaikin(thinned, PEN_SMOOTH_ITERATIONS);
    return Some(Stroke(id, smoothed, style, creatorId));
  }

  // The server takes a finished pen stroke exactly when at most 1000 samples survive thinning:
  // smoothing quadruples them, and nothing on the client checks the server's point limit.
  lemma PenStrokeAcceptedIff(id: string, raw: seq<Point>, style: Style, creatorId: Option<string>)
    requires PenPoints(raw).Some? && id != ""
    requires MatchesServerColor(style.color) && 1.0 <= style.width <= 64.0 && 0.0 <= style.opacity <= 1.0
    ensures GoodStroke(Stroke(id, PenPoints(raw).value, style, creatorId))
      <==> |Decimated(raw, Sq(PEN_MIN_DIST))| <= 1000
  {
    var thinned := Decimated(raw, Sq(PEN_MIN_DIST));
    if |thinned| >= 3 {
      SmoothedLength(thinned, 0);
      SmoothedLength(thinned, 1);
    }
  }

  // Samples along a straight line, just far enough apart to be kept.
  function Line(n: nat): seq<Point> {
    seq(n, i => Point(PEN_MIN_DIST * i as real, 0.0))
  }

  lemma LineSnoc(n: nat) returns (p: Point)
    ensures |Line(n)| == n && Line(n + 1) == Line(n) + [p]
    ensures n > 0 ==> DistSq(p, Line(n)[n - 1]) == Sq(PEN_MIN_DIST)
  {
    p := Point(PEN_MIN_DIST * n as real, 0.0);
    if n > 0 {
      assert PEN_MIN_DIST * n as real - PEN_MIN_DIST * (n - 1) as real == PEN_MIN_DIST;
    }
  }

  lemma LineStart()
    ensures Decimated(Line(0), Sq(PEN_MIN_DIST)) == Line(0) && Decimated(Line(1), Sq(PEN_MIN_DIST)) == Line(1)
  {
    assert Line(1) == [Point(0.0, 0.0)];
    DecimatedOne(Point(0.0, 0.0), Sq(PEN_MIN_DIST));
  }

  lemma {:induction false} LineIsKept(n: nat)
    ensures Decimated(Line(n), Sq(PEN_MIN_DIST)) == Line(n)
  {
    hide *;
    if n <= 1 {
      LineStart();
    } else {
      LineIsKept(n - 1);
      var p := LineSnoc(n - 1);
      DecimatedSnoc(Line(n - 1), p, Sq(PEN_MIN_DIST));
    }
  }

  // A case: 1001 samples 1.5 apart make a stroke of 4004 points, which the server finds too large.
  lemma LongLineIsRefused(id: string, style: Style, creatorId: Option<string>)
    requires id != "" && MatchesServerColor(style.color) && 1.0 <= style.width <= 64.0 && 0.0 <= style.opacity <= 1.0
    ensures PenPoints(Line(1001)).Some? && |PenPoints(Line(1001)).value| == 4004
    ensures CheckStroke(Stroke(id, PenPoints(Line(1001)).value, style, creatorId)) == Some(TooLarge)
  {
    LineIsKept(1001);
    hide Decimated, Smoothed;
    SmoothedLength(Line(1001), 0);
    SmoothedLength(Line(1001), 1);
    SmoothedLength(Line(1001), 2);
  }

  // ---- eraser ----

  function HitsStroke(p: Point, s: Stroke, radiusSq: real): bool {
    Within(p, s.points, radiusSq)
  }

  // Which points lie outside the eraser's reach.
  function FarFlags(points: seq<Point>, path: seq<Point>, radiusSq: real): seq<bool> {
    seq(|points|, i requires 0 <= i < |points| => !Within(points[i], path, radiusSq))
  }

  datatype Run = Run(start: nat, end: nat)

  // Where the run of far points that reaches the end starts; |far| when the last point is near.
  function OpenStart(far: seq<bool>): (r: nat)
    ensures r <= |far|
    ensures forall i :: r <= i < |far| ==> far[i]
    ensures r > 0 ==> !far[r - 1]
  {
    if far == [] then 0
    else if far[|far| - 1] then OpenStart(far[..|far| - 1])
    else |far|
  }

  // The runs of far points already ended by a near one.
  function ClosedRuns(far: seq<bool>): (r: seq<Run>)
    ensures forall k :: 0 <= k < |r| ==> r[k].start < r[k].end < |far|
  {
    if far == [] then []
    else
      var n := |far| - 1;
      var init := far[..n];
      if !far[n] && OpenStart(init) < n then ClosedRuns(init) + [Run(OpenStart(init), n)]
      else ClosedRuns(init)
  }

  function AllRuns(far: seq<bool>): (r: seq<Run>)
    ensures forall k :: 0 <= k < |r| ==> r[k].start < r[k].end <= |far|
  {
    ClosedRuns(far) + if OpenStart(far) < |far| then [Run(OpenStart(far), |far|)] else []
  }

  // A stretch of far points that cannot be made longer on either side.
  ghost predicate MaximalRun(far: seq<bool>, r: Run) {
    && r.start < r.end <= |far|
    && (forall i :: r.start <= i < r.end ==> far[i])
    && (r.start > 0 ==> !far[r.start - 1])
    && (r.end < |far| ==> !far[r.end])
  }

  lemma MaximalSnoc(far: seq<bool>, r: Run)
    requires far != []
    ensures var n := |far| - 1;
      MaximalRun(far, r) && r.end < |far| <==>
        (MaximalRun(far[..n], r) && r.end < n) || (!far[n] && r == Run(OpenStart(far[..n]), n) && OpenStart(far[..n]) < n)
  {
    var n := |far| - 1;
    var init := far[..n];
    assert forall i :: 0 <= i < n ==> init[i] == far[i];
  }

  lemma {:induction false} ClosedRunsExact(far: seq<bool>, r: Run)
    ensures r in ClosedRuns(far) <==> MaximalRun(far, r) && r.end < |far|
  {
    if far != [] {
      ClosedRunsExact(far[..|far| - 1], r);
      MaximalSnoc(far, r);
    }
  }

  // The runs the scan finds are the maximal runs of far points, all of them.
  lemma AllRunsExact(far: seq<bool>, r: Run)
    ensures r in AllRuns(far) <==> MaximalRun(far, r)
  {
    ClosedRunsExact(far, r);
  }

  // In order, with at least one erased point between neighbours.
  ghost predicate InOrder(runs: seq<Run>) {
    forall i, j :: 0 <= i < j < |runs| ==> runs[i].end < runs[j].start
  }

  lemma {:induction false} ClosedRunsInOrder(far: seq<bool>)
    ensures InOrder(ClosedRuns(far))
    ensures forall k :: 0 <= k < |ClosedRuns(far)| ==> ClosedRuns(far)[k].end < OpenStart(far)
  {
    if far != [] {
      ClosedRunsInOrder(far[..|far| - 1]);
    }
  }

  function Piece(points: seq<Point>, r: Run): seq<Point>
    requires r.start <= r.end <= |points|
  {
    points[r.start..r.end]
  }

  function Pieces(points: seq<Point>, runs: seq<Run>): seq<seq<Point>>
    requires forall k :: 0 <= k < |runs| ==> runs[k].start <= runs[k].end <= |points|
  {
    seq(|runs|, k requires 0 <= k < |runs| => Piece(points, runs[k]))
  }

  // A single point is not a line: only pieces of two or more points survive.
  function LongRuns(runs: seq<Run>): (r: seq<Run>)
    ensures forall x :: x in r <==> x in runs && x.end - x.start >= 2
  {
    if runs == [] then []
    else
      var rest := LongRuns(runs[..|runs| - 1]);
      if runs[|runs| - 1].end - runs[|runs| - 1].start >= 2 then rest + [runs[|runs| - 1]] else rest
  }

  // Where the surviving pieces lie.
  function SurvivingRuns(points: seq<Point>, path: seq<Point>, radiusSq: real): (r: seq<Run>)
    ensures forall k :: 0 <= k < |r| ==> r[k].start + 2 <= r[k].end <= |points|
  {
    var all := AllRuns(FarFlags(points, path, radiusSq));
    var r := LongRuns(all);
    assert forall k :: 0 <= k < |r| ==> r[k] in r && r[k] in all;
    r
  }

  function Clip(points: seq<Point>, path: seq<Point>, radiusSq: real): (r: seq<seq<Point>>)
    ensures forall piece :: piece in r ==> 2 <= |piece| <= |points|
  {
    Pieces(points, SurvivingRuns(points, path, radiusSq))
  }

  lemma {:induction false} LongRunsInOrder(runs: seq<Run>)
    requires InOrder(runs)
    ensures InOrder(LongRuns(runs))
  {
    if runs != [] {
      var n := |runs| - 1;
      LongRunsInOrder(runs[..n]);
      var rest := LongRuns(runs[..n]);
      forall i | 0 <= i < |rest| ensures rest[i].end < runs[n].start {
        assert rest[i] in rest;
        var j :| 0 <= j < n && runs[j] == rest[i];
      }
    }
  }

  // Clipping is exact: the surviving pieces are, in order, the maximal contiguous runs of two or
  // more points out of the eraser's reach. A path of one point reaches nothing.
  lemma ClipIsExact(points: seq<Point>, path: seq<Point>, radiusSq: real)
    ensures var runs, far := SurvivingRuns(points, path, radiusSq), FarFlags(points, path, radiusSq);
      && Clip(points, path, radiusSq) == Pieces(points, runs)
      && (forall r :: r in runs <==> MaximalRun(far, r) && r.end - r.start >= 2)
      && InOrder(runs)
  {
    var far := FarFlags(points, path, radiusSq);
    var all := AllRuns(far);
    forall r ensures r in all <==> MaximalRun(far, r) {
      AllRunsExact(far, r);
    }
    ClosedRunsInOrder(far);
    LongRunsInOrder(all);
  }

  lemma AllFarClipsNothing(points: seq<Point>, path: seq<Point>, radiusSq: real)
    requires |points| >= 2 && forall i :: 0 <= i < |points| ==> !Within(points[i], path, radiusSq)
    ensures Clip(points, path, radiusSq) == [points]
  {
    var far := FarFlags(points, path, radiusSq);
    AllFar(far);
    var whole := Run(0, |points|);
    assert AllRuns(far) == [whole];
    assert [whole][..0] == [];
    assert LongRuns([whole]) == [whole];
    assert Piece(points, whole) == points;
  }

  lemma WholeIsAllFar(points: seq<Point>, path: seq<Point>, radiusSq: real)
    requires |points| >= 2 && Clip(points, path, radiusSq) == [points]
    ensures forall i :: 0 <= i < |points| ==> !Within(points[i], path, radiusSq)
  {
    ClipIsExact(points, path, radiusSq);
    hide Within, Clip, SurvivingRuns;
    var runs, far := SurvivingRuns(points, path, radiusSq), FarFlags(points, path, radiusSq);
    assert Pieces(points, runs) == [points];
    assert |runs| == |Pieces(points, runs)| && Piece(points, runs[0]) == Pieces(points, runs)[0];
    assert runs[0] in runs;
    forall i | 0 <= i < |points| ensures !Within(points[i], path, radiusSq) {
      assert far[i];
    }
  }

  // Clipping leaves a stroke whole exactly when none of its samples is in reach, wherever the line
  // between them runs.
  lemma ClipsNothingIff(points: seq<Point>, path: seq<Point>, radiusSq: real)
    requires |points| >= 2
    ensures Clip(points, path, radiusSq) == [points] <==> forall i :: 0 <= i < |points| ==> !Within(points[i], path, radiusSq)
  {
    hide Clip, Within;
    if Clip(points, path, radiusSq) == [points] {
      WholeIsAllFar(points, path, radiusSq);
    }
    if forall i :: 0 <= i < |points| ==> !Within(points[i], path, radiusSq) {
      AllFarClipsNothing(points, path, radiusSq);
    }
  }

  lemma {:induction false} AllFar(far: seq<bool>)
    requires forall i :: 0 <= i < |far| ==> far[i]
    ensures OpenStart(far) == 0 && ClosedRuns(far) == []
  {
    if far != [] {
      AllFar(far[..|far| - 1]);
    }
  }

  lemma OpenStartSnoc(far: seq<bool>, i: nat)
    requires i < |far|
    ensures OpenStart(far[..i + 1]) == if far[i] then OpenStart(far[..i]) else i + 1
    ensures ClosedRuns(far[..i + 1])
      == ClosedRuns(far[..i]) + if !far[i] && OpenStart(far[..i]) < i then [Run(OpenStart(far[..i]), i)] else []
  {
    assert far[..i + 1][..i] == far[..i];
  }

  lemma PiecesSnoc(points: seq<Point>, runs: seq<Run>, r: Run)
    requires forall k :: 0 <= k < |runs| ==> runs[k].start <= runs[k].end <= |points|
    requires r.start <= r.end <= |points|
    ensures Pieces(points, runs + [r]) == Pieces(points, runs) + [points[r.start..r.end]]
  {
  }

  lemma LongSnoc(runs: seq<Run>, i: nat)
    requires i < |runs|
    ensures LongRuns(runs[..i + 1]) == LongRuns(runs[..i]) + if runs[i].end - runs[i].start >= 2 then [runs[i]] else []
  {
    assert runs[..i + 1][..i] == runs[..i];
  }

  datatype Scan = Scan(segments: seq<seq<Point>>, current: seq<Point>)

  // What the scan has collected after the first i points.
  ghost function Scanned(points: seq<Point>, far: seq<bool>, i: nat): Scan
    requires i <= |points| == |far|
  {
    Scan(Pieces(points, ClosedRuns(far[..i])), points[OpenStart(far[..i])..i])
  }

  lemma ScanOne(points: seq<Point>, far: seq<bool>, i: nat)
    requires i < |points| == |far|
    ensures var s := Scanned(points, far, i);
      Scanned(points, far, i + 1) ==
        if far[i] then Scan(s.segments, s.current + [points[i]])
        else Scan(if s.current == [] then s.segments else s.segments + [s.current], [])
  {
    OpenStartSnoc(far, i);
    var open := OpenStart(far[..i]);
    if !far[i] && open < i {
      PiecesSnoc(points, ClosedRuns(far[..i]), Run(open, i));
    }
  }

  lemma ScanAll(points: seq<Point>, far: seq<bool>)
    requires |points| == |far|
    ensures Scanned(points, far, 0) == Scan([], [])
    ensures var s := Scanned(points, far, |points|);
      Pieces(points, AllRuns(far)) == if s.current == [] then s.segments else s.segments + [s.current]
  {
    assert far[..|points|] == far;
    if OpenStart(far) < |far| {
      PiecesSnoc(points, ClosedRuns(far), Run(OpenStart(far), |points|));
    }
  }

  method ClipToEraser(points: seq<Point>, path: seq<Point>, radiusSq: real) returns (r: seq<seq<Point>>)
    ensures r == Clip(points, path, radiusSq)
  {
    ghost var far := FarFlags(points, path, radiusSq);
    ghost var all := AllRuns(far);
    ScanAll(points, far);
    r := CutOut(points, far, path, radiusSq);
    r := KeepLong(points, all, r);
  }

  method Exceeds(p: Point, path: seq<Point>, radiusSq: real) returns (r: bool)
    ensures r == !Within(p, path, radiusSq)
  {
    var d := DistanceToPolyline(p, path, radiusSq);
    return d.None? || d.value > radiusSq;
  }

  method CutOut(points: seq<Point>, ghost far: seq<bool>, path: seq<Point>, radiusSq: real) returns (segments: seq<seq<Point>>)
    requires far == FarFlags(points, path, radiusSq)
    ensures segments == Pieces(points, AllRuns(far))
  {
    assert forall i :: 0 <= i < |points| ==> far[i] == !Within(points[i], path, radiusSq);
    ScanAll(points, far);
    hide Scanned, Within, FarFlags, AllRuns, Pieces;
    var current: seq<Point>;
    segments, current := [], [];
    for i := 0 to |points|
      invariant Scan(segments, current) == Scanned(points, far, i)
    {
      ScanOne(points, far, i);
      var beyond := Exceeds(points[i], path, radiusSq);
      if beyond {
        current := current + [points[i]];
      } else {
        if |current| > 0 {
          segments := segments + [current];
        }
        current := [];
      }
    }
    if |current| > 0 {
      segments := segments + [current];
    }
  }

  function LongPieces(points: seq<Point>, runs: seq<Run>): seq<seq<Point>>
    requires forall k :: 0 <= k < |runs| ==> runs[k].start < runs[k].end <= |points|
  {
    var long := LongRuns(runs);
    assert forall k :: 0 <= k < |long| ==> long[k] in long && long[k] in runs;
    Pieces(points, long)
  }

  lemma LongPiecesSnoc(points: seq<Point>, runs: seq<Run>, i: nat)
    requires i < |runs| && forall k :: 0 <= k < |runs| ==> runs[k].start < runs[k].end <= |points|
    ensures LongPieces(points, runs[..i + 1]) == LongPieces(points, runs[..i])
      + if runs[i].end - runs[i].start >= 2 then [Piece(points, runs[i])] else []
  {
    LongSnoc(runs, i);
    var long := LongRuns(runs[..i]);
    assert forall k :: 0 <= k < |long| ==> long[k] in long && long[k] in runs[..i];
    PiecesSnoc(points, long, runs[i]);
  }

  method KeepLong(points: seq<Point>, ghost runs: seq<Run>, segments: seq<seq<Point>>) returns (r: seq<seq<Point>>)
    requires forall k :: 0 <= k < |runs| ==> runs[k].start < runs[k].end <= |points|
    requires segments == Pieces(points, runs)
    ensures r == LongPieces(points, runs)
  {
    r := [];
    assert LongPieces(points, runs[..0]) == [];
    hide LongPieces;
    for i := 0 to |segments|
      invariant r == LongPieces(points, runs[..i])
    {
      LongPiecesSnoc(points, runs, i);
      if |segments[i]| >= 2 {
        r := r + [segments[i]];
      }
    }
    assert runs[..|segments|] == runs;
  }
}
