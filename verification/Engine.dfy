// The client's engine: gestures become reversible local edits, and envelopes for the server.
module Engine {
  import opened Prelude
  import opened Drawing
  import opened Replay
  import opened Validator
  import opened Ledger
  import opened Geometry
  import opened Tools
  import opened EngineOps
  import C = ClientBoard

  const ERASER_RADIUS_SQ := 144.0
  const TRANSFORM_EPSILON := 0.000001

  // ---- ids made up by the client ----

  function Decimal(n: nat): string {
    if n < 10 then ["0123456789"[n]] else Decimal(n / 10) + ["0123456789"[n % 10]]
  }

  function PenId(n: nat, stamp: string): string {
    "s-" + Decimal(n) + "-" + stamp
  }

  function PieceId(parent: string, n: nat): string {
    parent + "#" + Decimal(n)
  }

  lemma {:induction false} DecimalHasNoHash(n: nat)
    ensures '#' !in Decimal(n) && Decimal(n) != []
  {
    assert '#' !in "0123456789";
    if n >= 10 {
      DecimalHasNoHash(n / 10);
    }
  }

  lemma {:induction false} DecimalHasNoDash(n: nat)
    ensures '-' !in Decimal(n)
  {
    assert '-' !in "0123456789";
    if n >= 10 {
      DecimalHasNoDash(n / 10);
    }
  }

  // No two strokes drawn under different numbers have the same id, whatever the clock says.
  lemma PenIdTellsNumber(n: nat, stamp: string, m: nat, stamp': string)
    requires PenId(n, stamp) == PenId(m, stamp')
    ensures n == m
  {
    DecimalHasNoDash(n);
    DecimalHasNoDash(m);
    var a, b := Decimal(n) + "-" + stamp, Decimal(m) + "-" + stamp';
    assert PenId(n, stamp)[2..] == a && PenId(m, stamp')[2..] == b;
    SplitsAtFirst(Decimal(n), stamp, Decimal(m), stamp', '-');
    DecimalTellsNumber(n, m);
  }

  lemma {:induction false} DecimalTellsNumber(n: nat, m: nat)
    requires Decimal(n) == Decimal(m)
    ensures n == m
  {
    var s, t := Decimal(n), Decimal(m);
    assert s[|s| - 1] == "0123456789"[n % 10] && t[|t| - 1] == "0123456789"[m % 10];
    if n >= 10 {
      assert s[..|s| - 1] == Decimal(n / 10) && t[..|t| - 1] == Decimal(m / 10);
      DecimalTellsNumber(n / 10, m / 10);
    }
  }

  // What follows the last '#'.
  function AfterHash(s: string): string {
    if s == "" then ""
    else if s[|s| - 1] == '#' then ""
    else AfterHash(s[..|s| - 1]) + [s[|s| - 1]]
  }

  lemma {:induction false} AfterHashIs(p: string, t: string)
    requires '#' !in t
    ensures AfterHash(p + "#" + t) == t
  {
    var all := p + "#" + t;
    if t != "" {
      var init := t[..|t| - 1];
      AfterHashIs(p, init);
      assert all[..|all| - 1] == p + "#" + init;
      assert all[|all| - 1] == t[|t| - 1];
    }
  }

  // Pieces cut with different counter values have different ids, whatever strokes they come from.
  lemma PieceIdTellsNumber(p: string, n: nat, q: string, m: nat)
    requires PieceId(p, n) == PieceId(q, m)
    ensures n == m
  {
    DecimalHasNoHash(n);
    DecimalHasNoHash(m);
    AfterHashIs(p, Decimal(n));
    AfterHashIs(q, Decimal(m));
    DecimalTellsNumber(n, m);
  }

  // ---- erasing ----

  predicate Sweeps(s: Stroke, path: seq<Point>) {
    exists p :: p in path && HitsStroke(p, s, ERASER_RADIUS_SQ)
  }

  function Removed(strokes: seq<Stroke>, path: seq<Point>): seq<Stroke> {
    if strokes == [] then []
    else
      var init, last := strokes[..|strokes| - 1], strokes[|strokes| - 1];
      Removed(init, path) + if Sweeps(last, path) then [last] else []
  }

  // The segments of a stroke as strokes of their own, numbered from n on.
  function Cut(s: Stroke, segments: seq<seq<Point>>, n: nat): seq<Stroke> {
    seq(|segments|, k requires 0 <= k < |segments| => s.(id := PieceId(s.id, n + k), points := segments[k]))
  }

  function PiecesOf(s: Stroke, path: seq<Point>, n: nat): seq<Stroke> {
    Cut(s, Clip(s.points, path, ERASER_RADIUS_SQ), n)
  }

  // What is left of the swept strokes, numbered from n on.
  function Kept(strokes: seq<Stroke>, path: seq<Point>, n: nat): seq<Stroke> {
    if strokes == [] then []
    else
      var init, last := strokes[..|strokes| - 1], strokes[|strokes| - 1];
      var before := Kept(init, path, n);
      before + if Sweeps(last, path) then PiecesOf(last, path, n + |before|) else []
  }

  function EraseOps(strokes: seq<Stroke>, path: seq<Point>, n: nat): seq<C.Op> {
    var removed, kept := Removed(strokes, path), Kept(strokes, path, n);
    if path == [] || removed == [] then []
    else [C.Remove(removed)] + if kept == [] then [] else [C.Add(kept)]
  }

  // A piece's id begins with its parent's: no stroke is cut, at any remove, from another.
  ghost predicate NoDescendants(strokes: seq<Stroke>) {
    forall s: Stroke, t: Stroke :: s in strokes && t in strokes ==> !Descends(t.id, s.id)
  }

  predicate Descends(id: string, ancestor: string) {
    ancestor + "#" <= id
  }

  lemma PieceDescends(parent: string, n: nat)
    ensures Descends(PieceId(parent, n), parent)
  {
  }

  lemma DescendsFurther(id: string, mid: string, ancestor: string)
    requires Descends(id, mid) && Descends(mid, ancestor)
    ensures Descends(id, ancestor)
  {
  }

  // A piece descends from its parent and from what the parent descends from, and from nothing else.
  lemma AncestorsOfPiece(parent: string, n: nat, ancestor: string)
    ensures Descends(PieceId(parent, n), ancestor) <==> ancestor == parent || Descends(parent, ancestor)
  {
    var piece, digits := PieceId(parent, n), Decimal(n);
    DecimalHasNoHash(n);
    assert forall i :: |parent| < i < |piece| ==> piece[i] == digits[i - |parent| - 1];
    if Descends(piece, ancestor) {
      assert piece[|ancestor|] == '#' && ancestor == piece[..|ancestor|];
    }
    PieceDescends(parent, n);
    if Descends(parent, ancestor) {
      DescendsFurther(piece, parent, ancestor);
    }
  }

  lemma {:induction false} RemovedHas(strokes: seq<Stroke>, path: seq<Point>, s: Stroke)
    ensures s in Removed(strokes, path) <==> s in strokes && Sweeps(s, path)
  {
    if strokes != [] {
      var init, last := strokes[..|strokes| - 1], strokes[|strokes| - 1];
      RemovedHas(init, path, s);
      assert strokes == init + [last];
    }
  }

  lemma RemovedAre(strokes: seq<Stroke>, path: seq<Point>)
    ensures forall s :: s in Removed(strokes, path) <==> s in strokes && Sweeps(s, path)
  {
    forall s ensures s in Removed(strokes, path) <==> s in strokes && Sweeps(s, path) {
      RemovedHas(strokes, path, s);
    }
  }

  lemma {:induction false} RemovedDistinct(strokes: seq<Stroke>, path: seq<Point>)
    requires DistinctIds(strokes)
    ensures DistinctIds(Removed(strokes, path))
  {
    if strokes != [] {
      hide Sweeps;
      var init, last := strokes[..|strokes| - 1], strokes[|strokes| - 1];
      assert strokes == init + [last];
      LastIsNew(init, last);
      RemovedDistinct(init, path);
      RemovedAre(init, path);
      IdsLookUp(Removed(init, path), last.id);
      C.DistinctAppend(Removed(init, path), [last]);
      assert |Ids([last])| == 1 && Removed(init, path) + [] == Removed(init, path);
    }
  }

  // A surviving piece: a stretch of a swept stroke, in its style, under a new number.
  ghost predicate CutFrom(s: Stroke, parent: Stroke, path: seq<Point>, number: nat) {
    && Sweeps(parent, path)
    && s.points in Clip(parent.points, path, ERASER_RADIUS_SQ)
    && s.id == PieceId(parent.id, number) && s.style == parent.style && s.creatorId == parent.creatorId
  }

  lemma PieceIsCut(s: Stroke, path: seq<Point>, n: nat, k: nat)
    requires Sweeps(s, path) && k < |PiecesOf(s, path, n)|
    ensures CutFrom(PiecesOf(s, path, n)[k], s, path, n + k)
  {
    hide Sweeps, Clip;
  }

  lemma {:induction false} KeptArePieces(strokes: seq<Stroke>, path: seq<Point>, n: nat, k: nat) returns (parent: Stroke)
    requires k < |Kept(strokes, path, n)|
    ensures parent in strokes && CutFrom(Kept(strokes, path, n)[k], parent, path, n + k)
  {
    hide CutFrom, PiecesOf, Sweeps;
    var init, last := strokes[..|strokes| - 1], strokes[|strokes| - 1];
    var before := Kept(init, path, n);
    if k < |before| {
      parent := KeptArePieces(init, path, n, k);
    } else {
      parent := last;
      PieceIsCut(last, path, n + |before|, k - |before|);
    }
  }

  // The k-th piece carries number n + k.
  lemma KeptNumber(strokes: seq<Stroke>, path: seq<Point>, n: nat, k: nat) returns (parent: string)
    requires k < |Kept(strokes, path, n)|
    ensures Kept(strokes, path, n)[k].id == PieceId(parent, n + k)
  {
    hide Kept;
    var p := KeptArePieces(strokes, path, n, k);
    parent := p.id;
  }

  lemma KeptDistinct(strokes: seq<Stroke>, path: seq<Point>, n: nat)
    ensures DistinctIds(Kept(strokes, path, n))
  {
    hide Kept;
    var kept := Kept(strokes, path, n);
    forall i, j | 0 <= i < j < |kept| ensures Ids(kept)[i] != Ids(kept)[j] {
      var p := KeptNumber(strokes, path, n, i);
      var q := KeptNumber(strokes, path, n, j);
      hide PieceId;
      if kept[i].id == kept[j].id {
        PieceIdTellsNumber(p, n + i, q, n + j);
      }
    }
  }

  // Whose piece the k-th piece is.
  lemma KeptParent(strokes: seq<Stroke>, path: seq<Point>, n: nat, k: nat) returns (parent: Stroke)
    requires k < |Kept(strokes, path, n)|
    ensures parent in Removed(strokes, path) && Kept(strokes, path, n)[k].id == PieceId(parent.id, n + k)
  {
    hide Kept, Removed;
    parent := KeptArePieces(strokes, path, n, k);
    RemovedHas(strokes, path, parent);
  }

  ghost predicate PieceOfSwept(s: Stroke, strokes: seq<Stroke>, path: seq<Point>) {
    exists parent: Stroke, m: nat :: parent in Removed(strokes, path) && s.id == PieceId(parent.id, m)
  }

  lemma KeptOfSwept(strokes: seq<Stroke>, path: seq<Point>, n: nat)
    ensures forall s :: s in Kept(strokes, path, n) ==> PieceOfSwept(s, strokes, path)
  {
    hide Kept, PieceId, Removed;
    var kept := Kept(strokes, path, n);
    forall s | s in kept ensures PieceOfSwept(s, strokes, path) {
      var k :| 0 <= k < |kept| && kept[k] == s;
      var parent := KeptParent(strokes, path, n, k);
    }
  }

  // The strokes the eraser leaves alone.
  function Left(strokes: seq<Stroke>, path: seq<Point>): seq<Stroke> {
    Without(strokes, Elems(Ids(Removed(strokes, path))))
  }

  lemma LeftHas(strokes: seq<Stroke>, path: seq<Point>)
    requires DistinctIds(strokes)
    ensures forall s :: s in Left(strokes, path) <==> s in strokes && s !in Removed(strokes, path)
    ensures forall s :: s in Removed(strokes, path) ==> s in strokes
  {
    hide Removed;
    var removed := Removed(strokes, path);
    WithoutMembers(strokes, Elems(Ids(removed)));
    RemovedAre(strokes, path);
    forall s | s in strokes ensures s.id in Ids(removed) <==> s in removed {
      IdsLookUp(removed, s.id);
      if t: Stroke :| t in removed && t.id == s.id {
        SameId(strokes, s, t);
      }
    }
  }

  // Whatever the counter, a piece's id is new: its parent has no descendants yet.
  lemma PieceIsNew(strokes: seq<Stroke>, path: seq<Point>, s: Stroke)
    requires DistinctIds(strokes) && NoDescendants(strokes) && PieceOfSwept(s, strokes, path)
    ensures s.id !in Ids(strokes)
  {
    hide Removed, PieceId;
    var parent: Stroke, m: nat :| parent in Removed(strokes, path) && s.id == PieceId(parent.id, m);
    RemovedAre(strokes, path);
    PieceDescends(parent.id, m);
    IdsLookUp(strokes, s.id);
  }

  lemma LeftAndPiece(strokes: seq<Stroke>, path: seq<Point>, s: Stroke, t: Stroke)
    requires DistinctIds(strokes) && NoDescendants(strokes)
    requires s in Left(strokes, path) && PieceOfSwept(t, strokes, path)
    ensures !Descends(t.id, s.id) && !Descends(s.id, t.id)
  {
    hide Removed, PieceId, Left, Descends;
    LeftHas(strokes, path);
    var parent: Stroke, m: nat :| parent in Removed(strokes, path) && t.id == PieceId(parent.id, m);
    AncestorsOfPiece(parent.id, m, s.id);
    if s.id == parent.id {
      SameId(strokes, s, parent);
    }
    if Descends(s.id, t.id) {
      PieceDescends(parent.id, m);
      DescendsFurther(s.id, t.id, parent.id);
    }
  }

  lemma PieceAndPiece(strokes: seq<Stroke>, path: seq<Point>, s: Stroke, t: Stroke)
    requires DistinctIds(strokes) && NoDescendants(strokes)
    requires PieceOfSwept(s, strokes, path) && PieceOfSwept(t, strokes, path)
    ensures !Descends(t.id, s.id)
  {
    hide Removed, PieceId, Descends;
    RemovedAre(strokes, path);
    var p: Stroke, m: nat :| p in Removed(strokes, path) && s.id == PieceId(p.id, m);
    var q: Stroke, k: nat :| q in Removed(strokes, path) && t.id == PieceId(q.id, k);
    AncestorsOfPiece(q.id, k, s.id);
    PieceDescends(p.id, m);
    if Descends(q.id, s.id) {
      DescendsFurther(q.id, s.id, p.id);
    }
  }

  // Neither removing the swept strokes nor adding their pieces makes one stroke another's descendant.
  lemma EraseKeepsNoDescendants(strokes: seq<Stroke>, path: seq<Point>, n: nat)
    requires DistinctIds(strokes) && NoDescendants(strokes)
    ensures NoDescendants(Left(strokes, path)) && NoDescendants(Left(strokes, path) + Kept(strokes, path, n))
  {
    hide Kept, Removed, Left, PieceOfSwept, Descends;
    LeftHas(strokes, path);
    KeptOfSwept(strokes, path, n);
    var left, kept := Left(strokes, path), Kept(strokes, path, n);
    forall s: Stroke, t: Stroke | s in left + kept && t in left + kept ensures !Descends(t.id, s.id) {
      if s in left && t in left {
      } else if s in left {
        LeftAndPiece(strokes, path, s, t);
      } else if t in left {
        LeftAndPiece(strokes, path, t, s);
      } else {
        PieceAndPiece(strokes, path, s, t);
      }
    }
  }

  lemma KeptNew(strokes: seq<Stroke>, path: seq<Point>, n: nat)
    requires DistinctIds(strokes) && NoDescendants(strokes)
    ensures forall s :: s in Kept(strokes, path, n) ==> s.id !in Ids(Left(strokes, path))
  {
    hide Kept, Removed, Left, PieceOfSwept;
    LeftHas(strokes, path);
    KeptOfSwept(strokes, path, n);
    forall s | s in Kept(strokes, path, n) ensures s.id !in Ids(Left(strokes, path)) {
      PieceIsNew(strokes, path, s);
      IdsLookUp(Left(strokes, path), s.id);
      IdsLookUp(strokes, s.id);
    }
  }

  lemma CutIsGood(s: Stroke, parent: Stroke, path: seq<Point>, number: nat)
    requires CutFrom(s, parent, path, number) && GoodStroke(parent)
    ensures GoodStroke(s)
  {
    hide Sweeps, Clip, Decimal;
  }

  datatype Sweep = Sweep(removed: seq<Stroke>, kept: seq<Stroke>)

  // Where the sweep over the board stands after the first i strokes.
  ghost function SweepAt(strokes: seq<Stroke>, path: seq<Point>, n: nat, i: nat): Sweep
    requires i <= |strokes|
  {
    Sweep(Removed(strokes[..i], path), Kept(strokes[..i], path, n))
  }

  lemma SweepOneMore(strokes: seq<Stroke>, path: seq<Point>, n: nat, i: nat)
    requires i < |strokes|
    ensures var s, now := strokes[i], SweepAt(strokes, path, n, i);
      SweepAt(strokes, path, n, i + 1) ==
        if !Sweeps(s, path) then now
        else Sweep(now.removed + [s], now.kept + Cut(s, Clip(s.points, path, ERASER_RADIUS_SQ), n + |now.kept|))
  {
    hide Clip, HitsStroke, Cut;
    assert strokes[..i + 1][..i] == strokes[..i];
    var before := Kept(strokes[..i], path, n);
    assert before + [] == before && Removed(strokes[..i], path) + [] == Removed(strokes[..i], path);
  }

  lemma SweepAll(strokes: seq<Stroke>, path: seq<Point>, n: nat)
    ensures SweepAt(strokes, path, n, 0) == Sweep([], [])
    ensures SweepAt(strokes, path, n, |strokes|) == Sweep(Removed(strokes, path), Kept(strokes, path, n))
  {
    assert strokes[..|strokes|] == strokes;
  }

  // ---- the edits each gesture makes ----

  function PenOps(raw: seq<Point>, id: string, style: Style): seq<C.Op> {
    match PenPoints(raw)
    case None => []
    case Some(points) => [C.Add([Stroke(id, points, style, None)])]
  }

  function DeleteOps(strokes: seq<Stroke>, id: string): seq<C.Op> {
    if Only(strokes, id) == [] then [] else [C.Remove(Only(strokes, id))]
  }

  function ClearOps(strokes: seq<Stroke>, confirmed: bool): seq<C.Op> {
    if strokes == [] || !confirmed then [] else [C.Clear(strokes)]
  }

  function DragOps(from: Stroke, start: Point, end: Point): seq<C.Op> {
    var dx, dy := end.x - start.x, end.y - start.y;
    if Abs(dx) < TRANSFORM_EPSILON && Abs(dy) < TRANSFORM_EPSILON then []
    else [C.Move(from, Moved(from, dx, dy))]
  }

  // The stroke follows the cursor: what lay under it at the start lies under it at the end. Nothing is
  // committed exactly for a drag below the threshold on both axes.
  lemma DragFollowsCursor(from: Stroke, start: Point, end: Point)
    ensures DragOps(from, start, end) == [] <==>
      -0.000001 < end.x - start.x < 0.000001 && -0.000001 < end.y - start.y < 0.000001
    ensures DragOps(from, start, end) != [] ==>
      && |DragOps(from, start, end)| == 1 && DragOps(from, start, end)[0].Move?
      && var op := DragOps(from, start, end)[0];
      && op.from == from && op.to.id == from.id && op.to.style == from.style && op.to.creatorId == from.creatorId
      && |op.to.points| == |from.points|
      && forall i :: 0 <= i < |from.points| ==>
        && op.to.points[i].x - from.points[i].x == end.x - start.x
        && op.to.points[i].y - from.points[i].y == end.y - start.y
        && (from.points[i] == start ==> op.to.points[i] == end)
  {
  }

  function ResizeOps(from: Stroke, box: Box, h: Handle, end: Point): seq<C.Op> {
    var t := ComputeResizeTransform(box, h, end);
    if Abs(t.scaleX - 1.0) < TRANSFORM_EPSILON && Abs(t.scaleY - 1.0) < TRANSFORM_EPSILON then []
    else [C.Resize(from, Resized(from, t.anchor, t.scaleX, t.scaleY), t.anchor, t.scaleX, t.scaleY)]
  }

  // The box of the stroke follows the cursor on the sides the handle drags; its other sides stay. Nothing is
  // committed exactly when both scales are within the threshold of 1.
  lemma ResizeFollowsHandle(from: Stroke, box: Box, h: Handle, end: Point)
    requires Encloses(box, from.points) && Tight(box, from.points) && h in VisibleHandles(box)
    ensures var t := ComputeResizeTransform(box, h, end);
      ResizeOps(from, box, h, end) == [] <==>
        -0.000001 < t.scaleX - 1.0 < 0.000001 && -0.000001 < t.scaleY - 1.0 < 0.000001
    ensures ResizeOps(from, box, h, end) != [] ==>
      && |ResizeOps(from, box, h, end)| == 1 && ResizeOps(from, box, h, end)[0].Resize?
      && var op := ResizeOps(from, box, h, end)[0];
      && op.from == from && op.to.id == from.id && op.to.style == from.style && op.to.creatorId == from.creatorId
      && |op.to.points| == |from.points|
      && (CanReach(box, h, end) ==> Encloses(Dragged(box, h, end), op.to.points) && Tight(Dragged(box, h, end), op.to.points))
  {
    if CanReach(box, h, end) {
      ResizedBoxFollows(from.points, box, h, end);
    }
    hide ComputeResizeTransform, Encloses, Tight, CanReach, VisibleHandles;
  }

  lemma OneEdit(d: Doc, op: C.Op, uuids: Uuids)
    requires Sendable(op)
    ensures CommittedAll(d, [op]) == Committed(d, op)
    ensures EmittedAll(d, [op], uuids) == Emitted(d, op, uuids)
    ensures AllBuilt(d, [op]) <==> Built(d.board.strokes, op)
  {
    assert [op][..0] == [];
  }

  lemma TwoEdits(d: Doc, a: C.Op, b: C.Op, uuids: Uuids)
    requires Sendable(a) && Sendable(b)
    ensures CommittedAll(d, [a, b]) == Committed(Committed(d, a), b)
    ensures EmittedAll(d, [a, b], uuids) == Emitted(d, a, uuids) + Emitted(Committed(d, a), b, uuids)
    ensures AllBuilt(d, [a, b]) <==> Built(d.board.strokes, a) && Built(Committed(d, a).board.strokes, b)
  {
    assert [a, b][..1] == [a];
    OneEdit(d, a, uuids);
  }

  lemma NothingSent(d: Doc, uuids: Uuids)
    ensures CommittedAll(d, []) == d && EmittedAll(d, [], uuids) == []
  {
  }

  ghost predicate GoodBoard(strokes: seq<Stroke>) {
    DistinctIds(strokes) && forall s :: s in strokes ==> GoodStroke(s)
  }

  lemma NoEdits(d: Doc)
    ensures AllBuilt(d, []) && AllAcceptable([]) && CommittedAll(d, []) == d
  {
  }

  lemma RemovalIsBuilt(strokes: seq<Stroke>, path: seq<Point>)
    requires GoodBoard(strokes)
    ensures Built(strokes, C.Remove(Removed(strokes, path))) && Acceptable(C.Remove(Removed(strokes, path)))
  {
    RemovedAre(strokes, path);
    RemovedDistinct(strokes, path);
    forall s | s in Removed(strokes, path) ensures s.id != "" {
      assert GoodStroke(s);
    }
  }

  lemma PiecesAreBuilt(strokes: seq<Stroke>, path: seq<Point>, n: nat)
    requires GoodBoard(strokes) && NoDescendants(strokes)
    ensures var left, kept := Left(strokes, path), Kept(strokes, path, n);
      && Built(left, C.Add(kept)) && Acceptable(C.Add(kept))
      && C.NextStrokes(left, C.Add(kept)) == left + kept
  {
    hide Kept, Left, NoDescendants;
    var left, kept := Left(strokes, path), Kept(strokes, path, n);
    KeptDistinct(strokes, path, n);
    KeptNew(strokes, path, n);
    KeptAreGood(strokes, path, n);
    WithoutAbsent(kept, Elems(Ids(left)));
  }

  lemma OneIsFine(d: Doc, a: C.Op)
    requires Sendable(a) && Built(d.board.strokes, a) && Acceptable(a)
    ensures AllBuilt(d, [a]) && AllAcceptable([a])
    ensures CommittedAll(d, [a]).board.strokes == C.NextStrokes(d.board.strokes, a)
  {
    OneEdit(d, a, i => "");
  }

  lemma TwoAreFine(d: Doc, a: C.Op, b: C.Op)
    requires Sendable(a) && Sendable(b)
    requires Built(d.board.strokes, a) && Acceptable(a)
    requires Built(C.NextStrokes(d.board.strokes, a), b) && Acceptable(b)
    ensures AllBuilt(d, [a, b]) && AllAcceptable([a, b])
    ensures CommittedAll(d, [a, b]).board.strokes == C.NextStrokes(C.NextStrokes(d.board.strokes, a), b)
  {
    hide Acceptable, Built;
    TwoEdits(d, a, b, i => "");
  }

  // Erasing removes what was swept and then adds the pieces, under ids nobody has, whatever the
  // counter stands at; and no stroke is another's descendant afterwards either.
  lemma EraseIsBuilt(d: Doc, path: seq<Point>, n: nat)
    requires GoodBoard(d.board.strokes) && NoDescendants(d.board.strokes)
    ensures var ops := EraseOps(d.board.strokes, path, n);
      && AllBuilt(d, ops) && AllAcceptable(ops)
      && NoDescendants(CommittedAll(d, ops).board.strokes)
  {
    hide Kept, Removed, GoodBoard, NoDescendants, AllBuilt, AllAcceptable, CommittedAll;
    var strokes := d.board.strokes;
    var removed, kept := Removed(strokes, path), Kept(strokes, path, n);
    if path == [] || removed == [] {
      NoEdits(d);
    } else if kept == [] {
      assert [C.Remove(removed)] + [] == [C.Remove(removed)];
      EraseWhole(d, path);
    } else {
      assert [C.Remove(removed)] + [C.Add(kept)] == [C.Remove(removed), C.Add(kept)];
      ErasePartly(d, path, n);
    }
  }

  // Without that hypothesis, an erase is built exactly when no piece's id is that of a stroke it leaves.
  lemma EraseIsBuiltIff(d: Doc, path: seq<Point>, n: nat)
    requires GoodBoard(d.board.strokes)
    ensures AllBuilt(d, EraseOps(d.board.strokes, path, n))
      <==> forall s :: s in Kept(d.board.strokes, path, n) ==> s.id !in Ids(Left(d.board.strokes, path))
  {
    var strokes := d.board.strokes;
    hide Kept, Removed, Sweeps, AllBuilt, Left;
    var removed, kept := Removed(strokes, path), Kept(strokes, path, n);
    NothingSweptNothingKept(strokes, path, n);
    if path == [] || removed == [] {
      NoEdits(d);
    } else if kept == [] {
      assert [C.Remove(removed)] + [] == [C.Remove(removed)];
      RemovalIsBuilt(strokes, path);
      OneEdit(d, C.Remove(removed), i => "");
    } else {
      assert [C.Remove(removed)] + [C.Add(kept)] == [C.Remove(removed), C.Add(kept)];
      RemovalIsBuilt(strokes, path);
      TwoEdits(d, C.Remove(removed), C.Add(kept), i => "");
      LeftIs(strokes, path);
      KeptDistinct(strokes, path, n);
    }
  }

  lemma NothingSweptNothingKept(strokes: seq<Stroke>, path: seq<Point>, n: nat)
    ensures path == [] ==> Removed(strokes, path) == []
    ensures Removed(strokes, path) == [] ==> Kept(strokes, path, n) == []
  {
    RemovedAre(strokes, path);
    SomeMember(Removed(strokes, path));
    if |Kept(strokes, path, n)| > 0 {
      var parent := KeptParent(strokes, path, n, 0);
    }
  }

  lemma EraseWhole(d: Doc, path: seq<Point>)
    requires GoodBoard(d.board.strokes) && NoDescendants(d.board.strokes)
    ensures var ops := [C.Remove(Removed(d.board.strokes, path))];
      && AllBuilt(d, ops) && AllAcceptable(ops)
      && NoDescendants(CommittedAll(d, ops).board.strokes)
  {
    var strokes := d.board.strokes;
    var removed := Removed(strokes, path);
    RemovalIsBuilt(strokes, path);
    EraseKeepsNoDescendants(strokes, path, 0);
    hide Removed, Built, Acceptable, NoDescendants;
    OneIsFine(d, C.Remove(removed));
    hide AllBuilt, AllAcceptable, CommittedAll;
  }

  lemma ErasePartly(d: Doc, path: seq<Point>, n: nat)
    requires GoodBoard(d.board.strokes) && NoDescendants(d.board.strokes)
    ensures var ops := [C.Remove(Removed(d.board.strokes, path)), C.Add(Kept(d.board.strokes, path, n))];
      && AllBuilt(d, ops) && AllAcceptable(ops)
      && NoDescendants(CommittedAll(d, ops).board.strokes)
  {
    hide Removed, Kept, Built, Acceptable, AllBuilt, AllAcceptable, CommittedAll;
    var strokes := d.board.strokes;
    var remove, add := C.Remove(Removed(strokes, path)), C.Add(Kept(strokes, path, n));
    RemovalIsBuilt(strokes, path);
    EraseKeepsNoDescendants(strokes, path, n);
    assert C.NextStrokes(strokes, remove) == Left(strokes, path);
    hide Left, Without, NoDescendants, GoodBoard;
    PiecesAreBuilt(strokes, path, n);
    TwoAreFine(d, remove, add);
  }

  lemma NoNewIds(strokes: seq<Stroke>, after: seq<Stroke>)
    requires NoDescendants(strokes) && forall s :: s in after ==> s.id in Ids(strokes)
    ensures NoDescendants(after)
  {
    hide Descends;
    forall s: Stroke, t: Stroke | s in after && t in after ensures !Descends(t.id, s.id) {
      IdsLookUp(strokes, s.id);
      IdsLookUp(strokes, t.id);
    }
  }

  // No edit but an addition can make one stroke another's descendant.
  lemma OthersKeepNoDescendants(strokes: seq<Stroke>, op: C.Op)
    requires Built(strokes, op) && !op.Add? && NoDescendants(strokes)
    ensures NoDescendants(C.NextStrokes(strokes, op))
  {
    hide NoDescendants;
    var after := C.NextStrokes(strokes, op);
    if op.Remove? {
      WithoutMembers(strokes, Elems(Ids(op.strokes)));
    }
    forall s | s in after ensures s.id in Ids(strokes) {
      IdsLookUp(strokes, s.id);
      if !op.Remove? {
        var i :| 0 <= i < |after| && after[i] == s;
        assert Ids(strokes)[i] == s.id;
      }
    }
    NoNewIds(strokes, after);
  }

  lemma DescendsHasHash(id: string, ancestor: string)
    ensures Descends(id, ancestor) ==> '#' in id
  {
    if Descends(id, ancestor) {
      assert id[|ancestor|] == '#';
    }
  }

  // A finished pen stroke does so exactly when pieces of an earlier stroke of that very id are there.
  lemma PenKeepsNoDescendantsIff(strokes: seq<Stroke>, s: Stroke, n: nat, stamp: string)
    requires NoDescendants(strokes) && s.id == PenId(n, stamp) && '#' !in stamp
    ensures NoDescendants(strokes + [s]) <==> forall t :: t in strokes ==> !Descends(t.id, s.id)
  {
    DecimalHasNoHash(n);
    assert '#' !in s.id;
    forall t: Stroke ensures !Descends(s.id, t.id) {
      DescendsHasHash(s.id, t.id);
    }
    hide Descends, PenId;
    var all := strokes + [s];
    assert forall t :: t in all <==> t in strokes || t == s;
  }

  // The strokes under fresh piece numbers from n on, otherwise as they are.
  function Renumbered(strokes: seq<Stroke>, n: nat): seq<Stroke> {
    seq(|strokes|, k requires 0 <= k < |strokes| => strokes[k].(id := PieceId(strokes[k].id, n + k)))
  }

  lemma RenumberedSnoc(strokes: seq<Stroke>, s: Stroke, n: nat)
    ensures Renumbered(strokes + [s], n) == Renumbered(strokes, n) + [s.(id := PieceId(s.id, n + |strokes|))]
  {
    hide PieceId;
  }

  // Some sample of the stroke lies within the eraser's reach of the drawn path.
  predicate InReach(s: Stroke, path: seq<Point>) {
    exists i :: 0 <= i < |s.points| && Within(s.points[i], path, ERASER_RADIUS_SQ)
  }

  // Sweeping looks at the samples of the path, and the line of the stroke.
  lemma SweepsIff(s: Stroke, path: seq<Point>)
    ensures Sweeps(s, path) <==> exists k, i, t: real ::
      0 <= k < |path| && 0 <= i < |s.points| - 1 && 0.0 <= t <= 1.0 && DistSq(path[k], OnLine(s.points, i, t)) <= ERASER_RADIUS_SQ
  {
    hide Within, DistSq, OnLine;
    if Sweeps(s, path) {
      var p :| p in path && HitsStroke(p, s, ERASER_RADIUS_SQ);
      var k :| 0 <= k < |path| && path[k] == p;
      WithinIff(path[k], s.points, ERASER_RADIUS_SQ);
    }
    if k, i, t: real :|
      0 <= k < |path| && 0 <= i < |s.points| - 1 && 0.0 <= t <= 1.0 && DistSq(path[k], OnLine(s.points, i, t)) <= ERASER_RADIUS_SQ
    {
      WithinIff(path[k], s.points, ERASER_RADIUS_SQ);
      assert path[k] in path && HitsStroke(path[k], s, ERASER_RADIUS_SQ);
    }
  }

  // Clipping looks at the samples of the stroke, and the line of the path: a stroke is kept whole, under
  // a new id, exactly when none of its samples is in reach.
  lemma WholePieceIff(s: Stroke, path: seq<Point>, n: nat)
    requires |s.points| >= 2
    ensures PiecesOf(s, path, n) == [s.(id := PieceId(s.id, n))] <==> !InReach(s, path)
  {
    hide PieceId, Clip, Within;
    ClipsNothingIff(s.points, path, ERASER_RADIUS_SQ);
    if PiecesOf(s, path, n) == [s.(id := PieceId(s.id, n))] {
      var segments := Clip(s.points, path, ERASER_RADIUS_SQ);
      assert |segments| == 1 && segments[0] == PiecesOf(s, path, n)[0].points;
    }
  }

  lemma PieceTellsParent(p: string, q: string, n: nat)
    requires PieceId(p, n) == PieceId(q, n)
    ensures p == q
  {
    assert p == PieceId(p, n)[..|p|] && q == PieceId(q, n)[..|q|];
  }

  ghost predicate CutFromOne(id: string, strokes: seq<Stroke>, number: nat) {
    exists s :: s in strokes && id == PieceId(s.id, number)
  }

  // Pieces of other strokes cannot pass for the renamed last one, nor its pieces for theirs.
  lemma LastKeptIff(before: seq<Stroke>, removed: seq<Stroke>, last: Stroke, pieces: seq<Stroke>, n: nat)
    requires forall s :: s in removed ==> s.id != last.id
    requires forall k :: 0 <= k < |before| ==> CutFromOne(before[k].id, removed, n + k)
    requires forall k :: 0 <= k < |pieces| ==> pieces[k].id == PieceId(last.id, n + |before| + k)
    ensures var whole := last.(id := PieceId(last.id, n + |removed|));
      before + pieces == Renumbered(removed, n) + [whole] <==> before == Renumbered(removed, n) && pieces == [whole]
  {
    hide PieceId;
    var whole, renamed := last.(id := PieceId(last.id, n + |removed|)), Renumbered(removed, n);
    if before + pieces == renamed + [whole] {
      var all := before + pieces;
      if |before| < |removed| {
        assert all[|before|] == pieces[0] && all[|before|] == renamed[|before|];
        assert removed[|before|] in removed;
        PieceTellsParent(last.id, removed[|before|].id, n + |before|);
      } else if |before| > |removed| {
        assert all[|removed|] == before[|removed|] && all[|removed|] == whole;
        var s :| s in removed && before[|removed|].id == PieceId(s.id, n + |removed|);
        PieceTellsParent(s.id, last.id, n + |removed|);
      } else {
        assert all[..|before|] == before && (renamed + [whole])[..|removed|] == renamed;
        assert all[|before|..] == pieces && (renamed + [whole])[|removed|..] == [whole];
      }
    }
  }

  lemma OneMoreKept(init: seq<Stroke>, last: Stroke, path: seq<Point>, n: nat)
    ensures var kept, removed := Kept(init, path, n), Removed(init, path);
      if Sweeps(last, path) then
        Removed(init + [last], path) == removed + [last] && Kept(init + [last], path, n) == kept + PiecesOf(last, path, n + |kept|)
      else Removed(init + [last], path) == removed && Kept(init + [last], path, n) == kept
  {
    hide Sweeps, PiecesOf;
    assert (init + [last])[..|init|] == init;
    assert Kept(init, path, n) + [] == Kept(init, path, n) && Removed(init, path) + [] == Removed(init, path);
  }

  lemma PieceIds(s: Stroke, path: seq<Point>, n: nat)
    ensures forall k :: 0 <= k < |PiecesOf(s, path, n)| ==> PiecesOf(s, path, n)[k].id == PieceId(s.id, n + k)
  {
    hide PieceId, Clip;
  }

  lemma KeptIds(strokes: seq<Stroke>, path: seq<Point>, n: nat)
    ensures forall k :: 0 <= k < |Kept(strokes, path, n)| ==> CutFromOne(Kept(strokes, path, n)[k].id, Removed(strokes, path), n + k)
  {
    hide Kept, Removed, PieceId;
    var kept, removed := Kept(strokes, path, n), Removed(strokes, path);
    forall k | 0 <= k < |kept| ensures CutFromOne(kept[k].id, removed, n + k) {
      var parent := KeptParent(strokes, path, n, k);
    }
  }

  ghost predicate NoneInReach(strokes: seq<Stroke>, path: seq<Point>) {
    forall s :: s in strokes ==> !InReach(s, path)
  }

  lemma NoneInReachSnoc(strokes: seq<Stroke>, s: Stroke, path: seq<Point>)
    ensures NoneInReach(strokes + [s], path) <==> NoneInReach(strokes, path) && !InReach(s, path)
  {
    hide InReach;
    assert s in strokes + [s] && forall x :: x in strokes ==> x in strokes + [s];
  }

  // The eraser leaves everything it sweeps whole, renamed, exactly when it has no sample of it in reach.
  lemma {:induction false} KeptWholeIff(strokes: seq<Stroke>, path: seq<Point>, n: nat)
    requires DistinctIds(strokes) && forall s :: s in strokes ==> |s.points| >= 2
    ensures Kept(strokes, path, n) == Renumbered(Removed(strokes, path), n) <==> NoneInReach(Removed(strokes, path), path)
  {
    if strokes == [] {
      assert Renumbered([], n) == [];
    } else {
      var init, last := strokes[..|strokes| - 1], strokes[|strokes| - 1];
      assert strokes == init + [last];
      LastIsNew(init, last);
      hide Kept, Removed, Renumbered, NoneInReach, InReach, Sweeps, PiecesOf, PieceId, DistinctIds;
      KeptWholeIff(init, path, n);
      OneMoreKept(init, last, path, n);
      if Sweeps(last, path) {
        LastWholeIff(init, last, path, n);
        NoneInReachSnoc(Removed(init, path), last, path);
      }
    }
  }

  lemma LastWholeIff(init: seq<Stroke>, last: Stroke, path: seq<Point>, n: nat)
    requires |last.points| >= 2 && forall s :: s in init ==> s.id != last.id
    ensures var kept, removed := Kept(init, path, n), Removed(init, path);
      kept + PiecesOf(last, path, n + |kept|) == Renumbered(removed + [last], n) <==>
        kept == Renumbered(removed, n) && !InReach(last, path)
  {
    hide Kept, Removed, InReach, PiecesOf, PieceId;
    var kept, removed := Kept(init, path, n), Removed(init, path);
    RemovedAre(init, path);
    KeptIds(init, path, n);
    PieceIds(last, path, n + |kept|);
    LastKeptIff(kept, removed, last, PiecesOf(last, path, n + |kept|), n);
    RenumberedSnoc(removed, last, n);
    WholePieceIff(last, path, n + |kept|);
  }

  // What the board is after an erase.
  lemma EraseLeaves(d: Doc, path: seq<Point>, n: nat)
    requires GoodBoard(d.board.strokes) && NoDescendants(d.board.strokes)
    ensures var strokes, ops := d.board.strokes, EraseOps(d.board.strokes, path, n);
      AllBuilt(d, ops) && CommittedAll(d, ops).board.strokes == Left(strokes, path) + Kept(strokes, path, n)
  {
    var strokes := d.board.strokes;
    var removed, kept := Removed(strokes, path), Kept(strokes, path, n);
    NothingSweptNothingKept(strokes, path, n);
    EraseIsBuilt(d, path, n);
    hide Kept, Removed, Sweeps, AllBuilt, CommittedAll;
    assert Left(strokes, path) + [] == Left(strokes, path);
    if removed == [] {
      NothingLeftOut(strokes);
      NoEdits(d);
    } else if kept == [] {
      assert [C.Remove(removed)] + [] == [C.Remove(removed)];
      RemovalIsBuilt(strokes, path);
      LeftIs(strokes, path);
      hide Left, Built, NoDescendants, Acceptable, C.NextStrokes;
      OneIsFine(d, C.Remove(removed));
    } else {
      assert [C.Remove(removed)] + [C.Add(kept)] == [C.Remove(removed), C.Add(kept)];
      RemovalIsBuilt(strokes, path);
      PiecesAreBuilt(strokes, path, n);
      LeftIs(strokes, path);
      hide Left, Built, NoDescendants, Acceptable, C.NextStrokes;
      TwoAreFine(d, C.Remove(removed), C.Add(kept));
    }
  }

  // An erase takes no ink away, but lifts what it sweeps to the top under new ids, exactly when no
  // sample of a swept stroke is in its reach.
  lemma EraseOnlyLiftsIff(d: Doc, path: seq<Point>, n: nat)
    requires GoodBoard(d.board.strokes) && NoDescendants(d.board.strokes)
    ensures var strokes, ops := d.board.strokes, EraseOps(d.board.strokes, path, n);
      && AllBuilt(d, ops)
      && (CommittedAll(d, ops).board.strokes == Left(strokes, path) + Renumbered(Removed(strokes, path), n) <==>
           NoneInReach(Removed(strokes, path), path))
  {
    var strokes := d.board.strokes;
    EraseLeaves(d, path, n);
    forall s | s in strokes ensures |s.points| >= 2 {
      assert GoodStroke(s);
    }
    hide Kept, Removed, Left, EraseOps, CommittedAll, AllBuilt, Renumbered, NoneInReach, NoDescendants;
    KeptWholeIff(strokes, path, n);
    SameTail(Left(strokes, path), Kept(strokes, path, n), Renumbered(Removed(strokes, path), n));
  }

  lemma SameTail(a: seq<Stroke>, b: seq<Stroke>, c: seq<Stroke>)
    ensures a + b == a + c <==> b == c
  {
    assert (a + b)[|a|..] == b && (a + c)[|a|..] == c;
  }

  // In particular a tap never takes ink away: a path of one point has nothing in reach.
  lemma TapReachesNothing(strokes: seq<Stroke>, p: Point)
    ensures NoneInReach(strokes, [p])
  {
  }

  // A straight stroke with a sample at each end.
  function Bar(style: Style): Stroke {
    Stroke("s", [Point(0.0, 0.0), Point(100.0, 0.0)], style, None)
  }

  lemma BarHit(p: Point, style: Style)
    requires 0.0 <= p.x <= 100.0
    ensures HitsStroke(p, Bar(style), ERASER_RADIUS_SQ) <==> Sq(p.y) <= 12.0 * 12.0
  {
    hide DistSqToSegment, Sq;
    var a, b := Point(0.0, 0.0), Point(100.0, 0.0);
    LevelDistance(p, a, b);
    assert p.y - a.y == p.y;
    OneSegment(p, a, b, ERASER_RADIUS_SQ);
  }

  // Cases: a tap on the middle of the bar, and a short stroke of the eraser along it, sweep the bar and
  // leave it whole.
  lemma TapSweepsBar(style: Style, n: nat)
    ensures var path := [Point(50.0, 5.0)];
      Sweeps(Bar(style), path) && PiecesOf(Bar(style), path, n) == [Bar(style).(id := PieceId(Bar(style).id, n))]
  {
    var path := [Point(50.0, 5.0)];
    MiddleIsHit(style);
    TapReachesNothing([Bar(style)], path[0]);
    assert Bar(style) in [Bar(style)] && |Bar(style).points| == 2;
    hide PieceId, PiecesOf, Within, HitsStroke, InReach, Sweeps, Bar;
    SweptByFirst(Bar(style), path);
    WholePieceIff(Bar(style), path, n);
  }

  lemma MiddleIsHit(style: Style)
    ensures HitsStroke(Point(50.0, 5.0), Bar(style), ERASER_RADIUS_SQ)
  {
    hide HitsStroke;
    BarHit(Point(50.0, 5.0), style);
  }

  lemma EndsAreFar()
    ensures !Within(Point(0.0, 0.0), [Point(50.0, 5.0), Point(51.0, 5.0)], ERASER_RADIUS_SQ)
    ensures !Within(Point(100.0, 0.0), [Point(50.0, 5.0), Point(51.0, 5.0)], ERASER_RADIUS_SQ)
  {
    hide DistSqToSegment, Within;
    var a, b := Point(50.0, 5.0), Point(51.0, 5.0);
    LevelDistance(Point(0.0, 0.0), a, b);
    LevelDistance(Point(100.0, 0.0), a, b);
    OneSegment(Point(0.0, 0.0), a, b, ERASER_RADIUS_SQ);
    OneSegment(Point(100.0, 0.0), a, b, ERASER_RADIUS_SQ);
  }

  lemma ShortEraseSweepsBar(style: Style, n: nat)
    ensures var path := [Point(50.0, 5.0), Point(51.0, 5.0)];
      Sweeps(Bar(style), path) && PiecesOf(Bar(style), path, n) == [Bar(style).(id := PieceId(Bar(style).id, n))]
  {
    var path := [Point(50.0, 5.0), Point(51.0, 5.0)];
    hide *;
    MiddleIsHit(style);
    SweptByFirst(Bar(style), path);
    EndsAreFar();
    BarIsApart(style, path);
    WholePieceIff(Bar(style), path, n);
  }

  lemma SweptByFirst(s: Stroke, path: seq<Point>)
    requires path != [] && HitsStroke(path[0], s, ERASER_RADIUS_SQ)
    ensures Sweeps(s, path)
  {
    hide HitsStroke;
    assert path[0] in path;
  }

  lemma BarIsApart(style: Style, path: seq<Point>)
    requires !Within(Point(0.0, 0.0), path, ERASER_RADIUS_SQ) && !Within(Point(100.0, 0.0), path, ERASER_RADIUS_SQ)
    ensures |Bar(style).points| == 2 && !InReach(Bar(style), path)
  {
    hide Within;
  }

  lemma SidesAreMissed(style: Style)
    ensures !HitsStroke(Point(50.0, -50.0), Bar(style), ERASER_RADIUS_SQ)
    ensures !HitsStroke(Point(50.0, 50.0), Bar(style), ERASER_RADIUS_SQ)
  {
    hide HitsStroke;
    BarHit(Point(50.0, -50.0), style);
    BarHit(Point(50.0, 50.0), style);
  }

  lemma CrossAtMiddle(style: Style)
    ensures OnLine([Point(50.0, -50.0), Point(50.0, 50.0)], 0, 0.5) == Point(50.0, 0.0)
    ensures OnLine(Bar(style).points, 0, 0.5) == Point(50.0, 0.0)
  {
  }

  // A case of the converse: the path crosses the bar, and does not sweep it.
  lemma SlashMissesBar(style: Style)
    ensures var path := [Point(50.0, -50.0), Point(50.0, 50.0)];
      OnLine(path, 0, 0.5) == OnLine(Bar(style).points, 0, 0.5) && !Sweeps(Bar(style), path)
  {
    SidesAreMissed(style);
    CrossAtMiddle(style);
    hide HitsStroke, OnLine;
  }

  lemma NothingLeftOut(strokes: seq<Stroke>)
    ensures Without(strokes, Elems(Ids([]))) == strokes
  {
    WithoutAbsent(strokes, Elems(Ids([])));
  }

  lemma LeftIs(strokes: seq<Stroke>, path: seq<Point>)
    ensures C.NextStrokes(strokes, C.Remove(Removed(strokes, path))) == Left(strokes, path)
  {
    hide Removed, Without;
  }

  lemma KeptAreGood(strokes: seq<Stroke>, path: seq<Point>, n: nat)
    requires forall s :: s in strokes ==> GoodStroke(s)
    ensures forall s :: s in Kept(strokes, path, n) ==> GoodStroke(s)
  {
    hide Kept, CutFrom, GoodStroke;
    var kept := Kept(strokes, path, n);
    forall s | s in kept ensures GoodStroke(s) {
      var k :| 0 <= k < |kept| && kept[k] == s;
      var parent := KeptArePieces(strokes, path, n, k);
      CutIsGood(s, parent, path, n + k);
    }
  }

  lemma PenIsBuilt(d: Doc, raw: seq<Point>, id: string, style: Style)
    requires id !in Ids(d.board.strokes) && id != "" && IsNormal(style)
    ensures var ops := PenOps(raw, id, style);
      AllBuilt(d, ops) && (AllAcceptable(ops) <==> |Decimated(raw, Sq(PEN_MIN_DIST))| <= 1000)
  {
    if PenPoints(raw).None? {
      NoEdits(d);
    } else {
      var stroke := Stroke(id, PenPoints(raw).value, style, None);
      NormalStyle(style);
      PenStrokeAcceptedIff(id, raw, style, None);
      assert Ids([stroke]) == [id];
      OneEdit(d, C.Add([stroke]), i => "");
      assert stroke in [stroke];
      AcceptableSnoc([], C.Add([stroke]));
    }
  }

  lemma DeleteIsBuilt(d: Doc, id: string)
    requires GoodBoard(d.board.strokes)
    ensures var ops := DeleteOps(d.board.strokes, id); AllBuilt(d, ops) && AllAcceptable(ops)
  {
    OnlyMembers(d.board.strokes, id);
    var victims := Only(d.board.strokes, id);
    if victims == [] {
      NoEdits(d);
    } else {
      forall s | s in victims ensures s.id != "" {
        assert GoodStroke(s);
      }
      OneIsFine(d, C.Remove(victims));
    }
  }

  // Drawing puts one stroke on top, in the style of the pen, from the first sample to the last one kept; deleting
  // takes away what has the id and nothing else; a confirmed clear leaves nothing.
  lemma PenDraws(d: Doc, raw: seq<Point>, id: string, style: Style)
    requires id !in Ids(d.board.strokes)
    ensures var thinned, after := Decimated(raw, Sq(1.5)), CommittedAll(d, PenOps(raw, id, style)).board.strokes;
      if |thinned| < 2 then after == d.board.strokes
      else
        && |after| == |d.board.strokes| + 1 && after[..|d.board.strokes|] == d.board.strokes
        && var s := after[|d.board.strokes|];
        && s.id == id && s.style == style && |s.points| == (if |thinned| == 2 then 2 else 4 * |thinned|)
        && s.points[0] == raw[0] && s.points[|s.points| - 1] == thinned[|thinned| - 1]
  {
    PenLine(raw);
    hide Decimated, Smoothed, Without, CommittedAll;
    if PenPoints(raw).Some? {
      AddsOne(d, Stroke(id, PenPoints(raw).value, style, None));
    } else {
      NoEdits(d);
    }
  }

  lemma PenLine(raw: seq<Point>)
    ensures var thinned := Decimated(raw, Sq(1.5));
      && (PenPoints(raw).Some? <==> |thinned| >= 2)
      && (|thinned| >= 2 ==>
           && var points := PenPoints(raw).value;
           && |points| == (if |thinned| == 2 then 2 else 4 * |thinned|)
           && raw != [] && points[0] == raw[0] && points[|points| - 1] == thinned[|thinned| - 1])
  {
    var thinned := Decimated(raw, Sq(PEN_MIN_DIST));
    if |thinned| >= 2 {
      ThinnedStarts(raw, Sq(PEN_MIN_DIST));
      hide Decimated;
      if |thinned| >= 3 {
        SmoothedLength(thinned, 0);
        SmoothedLength(thinned, 1);
      }
    }
  }

  lemma AddsOne(d: Doc, s: Stroke)
    requires s.id !in Ids(d.board.strokes) && s.points != []
    ensures CommittedAll(d, [C.Add([s])]).board.strokes == d.board.strokes + [s]
  {
    OneEdit(d, C.Add([s]), i => "");
    hide Without;
    WithoutOne(s, Elems(Ids(d.board.strokes)));
  }

  lemma ThinnedStarts(raw: seq<Point>, minSq: real)
    requires raw != []
    ensures Decimated(raw, minSq) != [] && Decimated(raw, minSq)[0] == raw[0]
  {
    hide DistSq;
  }

  lemma DeleteRemoves(d: Doc, id: string)
    ensures CommittedAll(d, DeleteOps(d.board.strokes, id)).board.strokes == Without(d.board.strokes, {id})
    ensures DeleteOps(d.board.strokes, id) == [] <==> id !in Ids(d.board.strokes)
  {
    var strokes := d.board.strokes;
    RemoteDelete(strokes, id);
    OnlyMembers(strokes, id);
    var victims := Only(strokes, id);
    IdsLookUp(strokes, id);
    if victims == [] {
      NoEdits(d);
    } else {
      assert victims[0] in victims;
      hide Only, Without;
      OneEdit(d, C.Remove(victims), i => "");
    }
  }

  lemma ClearEmpties(d: Doc, confirmed: bool)
    ensures CommittedAll(d, ClearOps(d.board.strokes, confirmed)).board.strokes == if confirmed then [] else d.board.strokes
    ensures ClearOps(d.board.strokes, confirmed) == [] <==> !confirmed || d.board.strokes == []
  {
    if ClearOps(d.board.strokes, confirmed) == [] {
      NoEdits(d);
    } else {
      OneEdit(d, ClearOps(d.board.strokes, confirmed)[0], i => "");
    }
  }

  lemma ClearIsBuilt(d: Doc, confirmed: bool)
    ensures var ops := ClearOps(d.board.strokes, confirmed); AllBuilt(d, ops) && AllAcceptable(ops)
  {
    if ClearOps(d.board.strokes, confirmed) == [] {
      NoEdits(d);
    } else {
      OneIsFine(d, C.Clear(d.board.strokes));
    }
  }

  // A drag or a resize is acceptable whatever became of the stroke it began on, and built against the
  // board exactly when that stroke is still there as it was.
  lemma DragIsBuilt(d: Doc, from: Stroke, start: Point, end: Point)
    requires GoodStroke(from)
    ensures var ops := DragOps(from, start, end);
      AllAcceptable(ops) && (AllBuilt(d, ops) <==> ops == [] || from in d.board.strokes)
  {
    var dx, dy := end.x - start.x, end.y - start.y;
    if DragOps(from, start, end) == [] {
      NoEdits(d);
    } else {
      TranslationIsRead(from, dx, dy);
      OneIsFineIff(d, C.Move(from, Moved(from, dx, dy)));
    }
  }

  lemma ResizeIsBuilt(d: Doc, from: Stroke, box: Box, h: Handle, end: Point)
    requires GoodStroke(from)
    ensures var ops := ResizeOps(from, box, h, end);
      AllAcceptable(ops) && (AllBuilt(d, ops) <==> ops == [] || from in d.board.strokes)
  {
    hide ComputeResizeTransform;
    var t := ComputeResizeTransform(box, h, end);
    if ResizeOps(from, box, h, end) == [] {
      NoEdits(d);
    } else {
      OneIsFineIff(d, C.Resize(from, Resized(from, t.anchor, t.scaleX, t.scaleY), t.anchor, t.scaleX, t.scaleY));
    }
  }

  lemma OneIsFineIff(d: Doc, a: C.Op)
    requires Sendable(a) && Acceptable(a)
    ensures AllAcceptable([a]) && (AllBuilt(d, [a]) <==> Built(d.board.strokes, a))
  {
    hide Acceptable, Built;
    OneEdit(d, a, i => "");
  }

  lemma OneIsSent(d: Doc, op: C.Op, uuids: Uuids)
    requires Sendable(op)
    ensures OpsOf(EmittedAll(d, [op], uuids)) == ServerOps(op)
    ensures CommittedAll(d, [op]).board.strokes == C.NextStrokes(d.board.strokes, op)
  {
    hide ServerOps, C.NextStrokes;
    OneEdit(d, op, uuids);
  }

  // From agreement, a transform is accepted, and both sides agree afterwards exactly when the stroke it
  // began on has been deleted meanwhile or is still as it was.
  lemma TransformAgreesIff(b: Board, d: Doc, op: C.Op, actor: string, uuids: Uuids, measure: Measure)
    requires Agree(b, d) && !b.archived && FreshUuids(b, uuids, d.issued) && IsTransform(op) && Sendable(op) && Acceptable(op)
    requires forall e :: e in EmittedAll(d, [op], uuids) ==> measure(e.op) <= PayloadCap(e.op)
    ensures var es := EmittedAll(d, [op], uuids);
      && Accepts(b, es, measure)
      && (Agree(Submitted(b, actor, es, measure), CommittedAll(d, [op])) <==> Unchanged(d.board.strokes, op.from))
  {
    OneIsFineIff(d, op);
    SentIsValidIff(d, [op], uuids, measure);
    assert ServerOps(op) != [];
    OneEdit(d, op, uuids);
    hide EmittedAll, CommittedAll, Accepts, Submitted, FirstInvalid, Agree, AllAcceptable, Acceptable, FreshUuids, IsTransform;
    SentAgreesIff(b, d, [op], actor, uuids, measure);
    OneIsSent(d, op, uuids);
    TransformPaintsIff(d.board.strokes, op);
  }

  lemma DragAgreesIff(b: Board, d: Doc, from: Stroke, start: Point, end: Point, actor: string, uuids: Uuids, measure: Measure)
    requires Agree(b, d) && !b.archived && FreshUuids(b, uuids, d.issued) && GoodStroke(from)
    requires DragOps(from, start, end) != []
    requires forall e :: e in EmittedAll(d, DragOps(from, start, end), uuids) ==> measure(e.op) <= PayloadCap(e.op)
    ensures var ops := DragOps(from, start, end);
      var es := EmittedAll(d, ops, uuids);
      && Accepts(b, es, measure)
      && (Agree(Submitted(b, actor, es, measure), CommittedAll(d, ops)) <==> Unchanged(d.board.strokes, from))
  {
    hide *;
    var op := DragOp(from, start, end);
    TransformAgreesIff(b, d, op, actor, uuids, measure);
  }

  lemma DragOp(from: Stroke, start: Point, end: Point) returns (op: C.Op)
    requires GoodStroke(from) && DragOps(from, start, end) != []
    ensures DragOps(from, start, end) == [op] && IsTransform(op) && op.from == from && Sendable(op) && Acceptable(op)
  {
    TranslationIsRead(from, end.x - start.x, end.y - start.y);
    op := DragOps(from, start, end)[0];
  }

  lemma ResizeAgreesIff(b: Board, d: Doc, from: Stroke, box: Box, h: Handle, end: Point, actor: string, uuids: Uuids, measure: Measure)
    requires Agree(b, d) && !b.archived && FreshUuids(b, uuids, d.issued) && GoodStroke(from)
    requires ResizeOps(from, box, h, end) != []
    requires forall e :: e in EmittedAll(d, ResizeOps(from, box, h, end), uuids) ==> measure(e.op) <= PayloadCap(e.op)
    ensures var ops := ResizeOps(from, box, h, end);
      var es := EmittedAll(d, ops, uuids);
      && Accepts(b, es, measure)
      && (Agree(Submitted(b, actor, es, measure), CommittedAll(d, ops)) <==> Unchanged(d.board.strokes, from))
  {
    hide *;
    var op := ResizeOp(from, box, h, end);
    TransformAgreesIff(b, d, op, actor, uuids, measure);
  }

  lemma ResizeOp(from: Stroke, box: Box, h: Handle, end: Point) returns (op: C.Op)
    requires GoodStroke(from) && ResizeOps(from, box, h, end) != []
    ensures ResizeOps(from, box, h, end) == [op] && IsTransform(op) && op.from == from && Sendable(op) && Acceptable(op)
  {
    hide ComputeResizeTransform;
    op := ResizeOps(from, box, h, end)[0];
  }

  // A case: a drag begins on a stroke, the partner moves that stroke to the right, and the drag ends
  // further down. The client shows the old stroke moved down, the server the new one.
  lemma DragOfMovedStroke(s: Stroke, start: Point)
    requires s.points != []
    ensures var now := ApplyRemote(C.Board([s], [], [], 0), MoveObject(s.id, 1.0, 0.0)).strokes;
      var ops := DragOps(s, start, Point(start.x, start.y + 1.0));
      && now == [Moved(s, 1.0, 0.0)] && ops == [C.Move(s, Moved(s, 0.0, 1.0))]
      && C.NextStrokes(now, ops[0]) == [Moved(s, 0.0, 1.0)]
      && Sendable(ops[0]) && PaintAll(now, ServerOps(ops[0])) == [Moved(Moved(s, 1.0, 0.0), 0.0, 1.0)]
      && Moved(s, 0.0, 1.0) != Moved(Moved(s, 1.0, 0.0), 0.0, 1.0)
  {
    var right, down := Moved(s, 1.0, 0.0), Moved(s, 0.0, 1.0);
    assert Find([s], s.id) == Some(s);
    TranslationIsRead(s, 0.0, 1.0);
    var op := C.Move(s, down);
    OnePaint([right], ServerOps(op)[0]);
    assert Moved(right, 0.0, 1.0).points[0].x == down.points[0].x + 1.0;
  }

  // From agreement, whatever acceptable edits send within the byte caps is accepted by a server nobody
  // else writes to, and both sides then show the same strokes in the same order.
  lemma EditsReachServer(b: Board, d: Doc, ops: seq<C.Op>, actor: string, uuids: Uuids, measure: Measure)
    requires Agree(b, d) && !b.archived && FreshUuids(b, uuids, d.issued)
    requires AllBuilt(d, ops) && AllAcceptable(ops) && ops != []
    requires forall op :: op in ops ==> (op.Add? || op.Remove? ==> op.strokes != [])
    requires forall e :: e in EmittedAll(d, ops, uuids) ==> measure(e.op) <= PayloadCap(e.op)
    ensures var es := EmittedAll(d, ops, uuids);
      && Accepts(b, es, measure)
      && OneByOne(b, actor, es, measure) == Submitted(b, actor, es, measure)
      && Agree(Submitted(b, actor, es, measure), CommittedAll(d, ops))
  {
    SentIsValidIff(d, ops, uuids, measure);
    hide Accepts, Submitted, OneByOne, EmittedAll, CommittedAll, AllAcceptable, FirstInvalid;
    LocalEditsCommute(b, d, ops, actor, uuids, measure);
  }

  lemma EraseReachesServer(b: Board, d: Doc, path: seq<Point>, n: nat, actor: string, uuids: Uuids, measure: Measure)
    requires Agree(b, d) && !b.archived && FreshUuids(b, uuids, d.issued)
    requires GoodBoard(d.board.strokes) && NoDescendants(d.board.strokes)
    requires EraseOps(d.board.strokes, path, n) != []
    requires forall op :: op in EraseOps(d.board.strokes, path, n) ==> Sendable(op)
    requires forall e :: e in EmittedAll(d, EraseOps(d.board.strokes, path, n), uuids) ==> measure(e.op) <= PayloadCap(e.op)
    ensures var ops := EraseOps(d.board.strokes, path, n);
      var es := EmittedAll(d, ops, uuids);
      Accepts(b, es, measure) && Agree(Submitted(b, actor, es, measure), CommittedAll(d, ops))
  {
    EraseIsBuilt(d, path, n);
    EraseNames(d.board.strokes, path, n);
    hide EraseOps, AllBuilt, AllAcceptable, CommittedAll, EmittedAll, Accepts, Submitted, Agree, GoodBoard, NoDescendants, FreshUuids;
    EditsReachServer(b, d, EraseOps(d.board.strokes, path, n), actor, uuids, measure);
  }

  lemma EraseNames(strokes: seq<Stroke>, path: seq<Point>, n: nat)
    ensures forall op :: op in EraseOps(strokes, path, n) ==> (op.Add? || op.Remove? ==> op.strokes != [])
  {
  }

  // ---- the engine ----

  class Engine {
    const uuids: Uuids
    var board: C.Board
    var serverVersion: int
    var issued: nat
    var nextId: nat
    var style: Style
    var selectedId: Option<string>
    var dragOriginal: Option<Stroke>
    var dragStart: Point
    var resizeOriginal: Option<Stroke>
    var resizeBox: Option<Box>
    var resizeHandle: Option<Handle>

    ghost function Value(): Doc
      reads this
    {
      Doc(board, serverVersion, issued)
    }

    constructor (uuids: Uuids, color: string, width: real, opacity: real)
      ensures Value() == Doc(C.NEW_BOARD, 0, 0) && nextId == 1
      ensures this.uuids == uuids && style == PenStyle(color, width, opacity) && IsNormal(style)
      ensures selectedId == None && dragOriginal == None && resizeOriginal == None
    {
      this.uuids := uuids;
      board, serverVersion, issued, nextId := C.NEW_BOARD, 0, 0, 1;
      style := PenStyle(color, width, opacity);
      selectedId, dragOriginal, dragStart := None, None, Point(0.0, 0.0);
      resizeOriginal, resizeBox, resizeHandle := None, None, None;
      new;
      PenStyleIsNormal(color, width, opacity);
    }

    method SetColor(color: string)
      modifies this`style
      ensures style == old(style).(color := ResolveColor(color))
      ensures IsHexColor(color) ==> SameButForCase(style.color, color)
      ensures IsNormal(old(style)) ==> IsNormal(style)
    {
      style := style.(color := ResolveColor(color));
      ResolvedColor(color);
      ColorIsKept(color);
    }

    method SetWidth(width: real)
      modifies this`style
      ensures style == old(style).(width := NormalizeWidth(width))
      ensures 1.0 <= width <= 64.0 ==> -0.5 < style.width - width <= 0.5
      ensures IsNormal(old(style)) ==> IsNormal(style)
    {
      style := style.(width := NormalizeWidth(width));
      WidthIsNearest(width);
    }

    method SetOpacity(opacity: real)
      modifies this`style
      ensures style == old(style).(opacity := NormalizeOpacity(opacity))
      ensures 0.0 <= opacity <= 1.0 ==> -0.0005 < style.opacity - opacity <= 0.0005
      ensures IsNormal(old(style)) ==> IsNormal(style)
    {
      style := style.(opacity := NormalizeOpacity(opacity));
      OpacityIsNearest(opacity);
    }

    method SetServerVersion(version: int)
      modifies this`serverVersion
      ensures Value() == old(Value()).(serverVersion := version)
    {
      serverVersion := version;
    }

    method LoadServerState(strokes: seq<Stroke>)
      modifies this`board
      ensures Value() == old(Value()).(board := C.LoadServerState(old(board), strokes))
    {
      board := C.LoadServerState(board, strokes);
    }

    // Edits from the server are never sent back. Answers whether the board changed.
    method ApplyRemoteOperation(op: Operation) returns (changed: bool)
      modifies this`board, this`selectedId
      ensures Value() == old(Value()).(board := ApplyRemote(old(board), op))
      ensures changed <==> RemoteOp(op, old(board.strokes)).Some?
      ensures selectedId ==
        if changed && old(selectedId).Some? && old(selectedId).value !in Ids(board.strokes) then None else old(selectedId)
    {
      var local := RemoteOp(op, board.strokes);
      if local.None? {
        return false;
      }
      board := C.Commit(board, local.value);
      if selectedId.Some? && Find(board.strokes, selectedId.value).None? {
        selectedId := None;
      }
      return true;
    }

    // None stands for the exception on a stroke without points.
    method EmitServerOps(op: C.Op) returns (emitted: Option<seq<Envelope>>)
      modifies this`serverVersion, this`issued
      ensures emitted.Some? <==> Sendable(op)
      ensures emitted.Some? ==>
        && emitted.value == EnvelopesFor(ServerOps(op), old(serverVersion), uuids, old(issued))
        && serverVersion == old(serverVersion) + |ServerOps(op)| && issued == old(issued) + |ServerOps(op)|
      ensures emitted.None? ==> serverVersion == old(serverVersion)
    {
      if !Sendable(op) {
        issued := issued + 1;
        return None;
      }
      var envelopes: seq<Envelope> := [];
      ghost var ops := ServerOps(op);
      match op {
        case Add(strokes) =>
          for i := 0 to |strokes|
            modifies {}
            invariant envelopes == EnvelopesFor(ops[..i], serverVersion, uuids, issued)
          {
            envelopes := envelopes + [Envelope(uuids(issued + |envelopes|), serverVersion + |envelopes|, CreateStroke(strokes[i]), None)];
          }
          assert ops[..|strokes|] == ops;
        case Remove(strokes) =>
          for i := 0 to |strokes|
            modifies {}
            invariant envelopes == EnvelopesFor(ops[..i], serverVersion, uuids, issued)
          {
            envelopes := envelopes + [Envelope(uuids(issued + |envelopes|), serverVersion + |envelopes|, DeleteObject(strokes[i].id), None)];
          }
          assert ops[..|strokes|] == ops;
        case Clear(_) =>
          envelopes := [Envelope(uuids(issued), serverVersion, ClearCanvas, None)];
        case Move(from, to) =>
          envelopes := [Envelope(uuids(issued), serverVersion,
            MoveObject(to.id, to.points[0].x - from.points[0].x, to.points[0].y - from.points[0].y), None)];
        case Resize(_, to, anchor, sx, sy) =>
          envelopes := [Envelope(uuids(issued), serverVersion, ResizeObject(to.id, anchor, sx, sy), None)];
      }
      assert envelopes == EnvelopesFor(ops, serverVersion, uuids, issued);
      issued := issued + |envelopes|;
      serverVersion := serverVersion + |envelopes|;
      return Some(envelopes);
    }

    method Commit(op: C.Op) returns (emitted: Option<seq<Envelope>>)
      modifies this`board, this`serverVersion, this`issued
      ensures emitted.Some? <==> Sendable(op)
      ensures emitted.Some? ==> Value() == Committed(old(Value()), op) && emitted.value == Emitted(old(Value()), op, uuids)
      ensures emitted.None? ==> board == C.Commit(old(board), op) && serverVersion == old(serverVersion)
    {
      board := C.Commit(board, op);
      emitted := EmitServerOps(op);
    }

    // The end of a pen gesture; `stamp` is the clock's part of the id.
    method OnEndPen(raw: seq<Point>, stamp: string) returns (emitted: seq<Envelope>)
      modifies this`board, this`serverVersion, this`issued, this`nextId
      ensures nextId == old(nextId) + 1
      ensures var ops := PenOps(raw, PenId(old(nextId), stamp), style);
        && (forall op :: op in ops ==> Sendable(op))
        && Value() == CommittedAll(old(Value()), ops) && emitted == EmittedAll(old(Value()), ops, uuids)
    {
      emitted := [];
      var id := PenId(nextId, stamp);
      nextId := nextId + 1;
      var done := FinalizePenStroke(id, raw, style, None);
      if done.Some? {
        var op := C.Add([done.value]);
        OneEdit(Value(), op, uuids);
        var sent := Commit(op);
        emitted := sent.value;
      }
    }

    method SweepsStroke(s: Stroke, path: seq<Point>) returns (r: bool)
      ensures r == Sweeps(s, path)
    {
      for i := 0 to |path|
        invariant forall k :: 0 <= k < i ==> !HitsStroke(path[k], s, ERASER_RADIUS_SQ)
      {
        if HitsStroke(path[i], s, ERASER_RADIUS_SQ) {
          return true;
        }
      }
      return false;
    }

    // The last point of the path is tried first, then the whole path.
    method IsSwept(s: Stroke, path: seq<Point>) returns (r: bool)
      requires path != []
      ensures r == Sweeps(s, path)
    {
      assert path[|path| - 1] in path;
      if HitsStroke(path[|path| - 1], s, ERASER_RADIUS_SQ) {
        return true;
      }
      r := SweepsStroke(s, path);
    }

    method FinishErase(path: seq<Point>) returns (emitted: seq<Envelope>)
      modifies this`board, this`serverVersion, this`issued, this`nextId
      ensures path != [] ==> nextId == old(nextId) + |Kept(old(board.strokes), path, old(nextId))|
      ensures var ops := EraseOps(old(board.strokes), path, old(nextId));
        && (forall op :: op in ops ==> Sendable(op))
        && Value() == CommittedAll(old(Value()), ops) && emitted == EmittedAll(old(Value()), ops, uuids)
    {
      if |path| == 0 {
        return [];
      }
      var removed, added := SweepBoard(path);
      hide Removed, Kept, Sweeps;
      if |removed| == 0 {
        return [];
      }
      ghost var before := old(Value());
      var remove := C.Remove(removed);
      var first := Commit(remove);
      if |added| == 0 {
        assert [remove] + [] == [remove];
        OneEdit(before, remove, uuids);
        return first.value;
      }
      var add := C.Add(added);
      assert [remove] + [add] == [remove, add];
      TwoEdits(before, remove, add, uuids);
      var second := Commit(add);
      return first.value + second.value;
    }

    method SweepBoard(path: seq<Point>) returns (removed: seq<Stroke>, added: seq<Stroke>)
      requires path != []
      modifies this`nextId
      ensures removed == Removed(board.strokes, path) && added == Kept(board.strokes, path, old(nextId))
      ensures nextId == old(nextId) + |added|
    {
      hide Removed, Kept, Sweeps, Clip, Cut, SweepAt;
      var strokes := board.strokes;
      SweepAll(strokes, path, nextId);
      removed, added := [], [];
      for i := 0 to |strokes|
        modifies this`nextId
        invariant Sweep(removed, added) == SweepAt(strokes, path, old(nextId), i)
        invariant nextId == old(nextId) + |added|
      {
        var stroke := strokes[i];
        SweepOneMore(strokes, path, old(nextId), i);
        var swept := IsSwept(stroke, path);
        if !swept {
          continue;
        }
        var segments := ClipToEraser(stroke.points, path, ERASER_RADIUS_SQ);
        removed := removed + [stroke];
        var pieces := CutPieces(stroke, segments);
        added := added + pieces;
      }
    }

    // The surviving segments of one stroke as strokes of their own, each under the next number.
    method CutPieces(stroke: Stroke, segments: seq<seq<Point>>) returns (pieces: seq<Stroke>)
      modifies this`nextId
      ensures pieces == Cut(stroke, segments, old(nextId))
      ensures |pieces| == |segments| && nextId == old(nextId) + |segments|
    {
      pieces := [];
      for k := 0 to |segments|
        modifies this`nextId
        invariant nextId == old(nextId) + k
        invariant |pieces| == k
        invariant forall j :: 0 <= j < k ==>
          pieces[j] == stroke.(id := PieceId(stroke.id, old(nextId) + j), points := segments[j])
      {
        pieces := pieces + [stroke.(id := PieceId(stroke.id, nextId), points := segments[k])];
        nextId := nextId + 1;
      }
    }

    method DeleteSelection() returns (deleted: bool, emitted: seq<Envelope>)
      modifies this`board, this`serverVersion, this`issued, this`selectedId
      ensures selectedId == None
      ensures var ops := if old(selectedId).None? then [] else DeleteOps(old(board.strokes), old(selectedId).value);
        && (forall op :: op in ops ==> Sendable(op))
        && Value() == CommittedAll(old(Value()), ops) && emitted == EmittedAll(old(Value()), ops, uuids)
        && (deleted <==> ops != [])
    {
      if selectedId.None? {
        return false, [];
      }
      var victims := Only(board.strokes, selectedId.value);
      selectedId := None;
      if |victims| == 0 {
        return false, [];
      }
      var op := C.Remove(victims);
      OneEdit(Value(), op, uuids);
      var sent := Commit(op);
      return true, sent.value;
    }

    method Clear(confirmed: bool) returns (emitted: seq<Envelope>)
      modifies this`board, this`serverVersion, this`issued
      ensures var ops := ClearOps(old(board.strokes), confirmed);
        && (forall op :: op in ops ==> Sendable(op))
        && Value() == CommittedAll(old(Value()), ops) && emitted == EmittedAll(old(Value()), ops, uuids)
    {
      if |board.strokes| == 0 {
        return [];
      }
      if !confirmed {
        return [];
      }
      var op := C.Clear(board.strokes);
      OneEdit(Value(), op, uuids);
      var sent := Commit(op);
      return sent.value;
    }

    method OnBeginObjectDrag(world: Point)
      modifies this`dragOriginal, this`dragStart
      ensures var s := if selectedId.None? then None else Find(board.strokes, selectedId.value);
        if s.None? then dragOriginal == old(dragOriginal) && dragStart == old(dragStart)
        else dragOriginal == s && dragStart == world
    {
      if selectedId.None? {
        return;
      }
      var stroke := Find(board.strokes, selectedId.value);
      if stroke.None? {
        return;
      }
      dragOriginal := stroke;
      dragStart := world;
    }

    // None stands for the exception on a stroke without points, which the local board survives.
    method OnEndObjectDrag(world: Point) returns (emitted: Option<seq<Envelope>>)
      modifies this`board, this`serverVersion, this`issued, this`dragOriginal
      ensures dragOriginal == None
      ensures var ops := if old(dragOriginal).None? then [] else DragOps(old(dragOriginal).value, old(dragStart), world);
        && (emitted.Some? <==> forall op :: op in ops ==> Sendable(op))
        && (emitted.Some? ==> Value() == CommittedAll(old(Value()), ops) && emitted.value == EmittedAll(old(Value()), ops, uuids))
    {
      NothingSent(Value(), uuids);
      hide CommittedAll, EmittedAll, Committed, Emitted;
      var from := dragOriginal;
      dragOriginal := None;
      if from.None? {
        return Some([]);
      }
      var dx, dy := world.x - dragStart.x, world.y - dragStart.y;
      if Abs(dx) < TRANSFORM_EPSILON && Abs(dy) < TRANSFORM_EPSILON {
        return Some([]);
      }
      var op := C.Move(from.value, from.value.(points := TranslatePoints(from.value.points, dx, dy)));
      assert op in [op];
      if Sendable(op) {
        OneEdit(Value(), op, uuids);
      }
      emitted := Commit(op);
    }

    method OnBeginResize(h: Handle)
      modifies this`resizeOriginal, this`resizeBox, this`resizeHandle
      ensures var s := if selectedId.None? then None else Find(board.strokes, selectedId.value);
        if s.None? || s.value.points == [] then
          resizeOriginal == old(resizeOriginal) && resizeBox == old(resizeBox) && resizeHandle == old(resizeHandle)
        else
          && resizeOriginal == s && resizeHandle == Some(h)
          && resizeBox.Some? && Encloses(resizeBox.value, s.value.points) && Tight(resizeBox.value, s.value.points)
    {
      if selectedId.None? {
        return;
      }
      var stroke := Find(board.strokes, selectedId.value);
      if stroke.None? {
        return;
      }
      var box := BoundsOf(stroke.value.points);
      if box.None? {
        return;
      }
      resizeOriginal, resizeBox, resizeHandle := stroke, box, Some(h);
    }

    method OnEndResize(world: Point) returns (emitted: seq<Envelope>)
      modifies this`board, this`serverVersion, this`issued, this`resizeOriginal, this`resizeBox, this`resizeHandle
      ensures resizeOriginal == None && resizeBox == None && resizeHandle == None
      ensures var ready := old(resizeOriginal).Some? && old(resizeBox).Some? && old(resizeHandle).Some?;
        var ops := if ready then ResizeOps(old(resizeOriginal).value, old(resizeBox).value, old(resizeHandle).value, world) else [];
        && (forall op :: op in ops ==> Sendable(op))
        && Value() == CommittedAll(old(Value()), ops) && emitted == EmittedAll(old(Value()), ops, uuids)
    {
      var from, box, h := resizeOriginal, resizeBox, resizeHandle;
      resizeOriginal, resizeBox, resizeHandle := None, None, None;
      if from.None? || box.None? || h.None? {
        return [];
      }
      var t := ComputeResizeTransform(box.value, h.value, world);
      if Abs(t.scaleX - 1.0) < TRANSFORM_EPSILON && Abs(t.scaleY - 1.0) < TRANSFORM_EPSILON {
        return [];
      }
      var to := from.value.(points := ScalePoints(from.value.points, t.anchor, t.scaleX, t.scaleY));
      var op := C.Resize(from.value, to, t.anchor, t.scaleX, t.scaleY);
      OneEdit(Value(), op, uuids);
      var sent := Commit(op);
      return sent.value;
    }

    // Undo and redo are local: nothing is sent.
    method Undo()
      modifies this`board
      ensures Value() == old(Value()).(board := C.Undo(old(board)))
    {
      board := C.Undo(board);
    }

    method Redo()
      modifies this`board
      ensures Value() == old(Value()).(board := C.Redo(old(board)))
    {
      board := C.Redo(board);
    }
  }
}
