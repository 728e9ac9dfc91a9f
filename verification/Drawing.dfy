// The values both sides exchange: points, strokes and the server's typed operations.
// The wire object of the server and the client's stroke carry the same data; the
// repository's conversion between them only renames fields, so one datatype serves both.
module Drawing {
  import opened Prelude

  datatype Point = Point(x: real, y: real)

  datatype Style = Style(color: string, width: real, opacity: real)

  datatype Stroke = Stroke(id: string, points: seq<Point>, style: Style, creatorId: Option<string>)

  datatype Operation =
    | CreateStroke(stroke: Stroke)
    | DeleteObject(objectId: string)
    | ClearCanvas
    | MoveObject(objectId: string, dx: real, dy: real)
    | ResizeObject(objectId: string, anchor: Point, scaleX: real, scaleY: real)
    | RestoreVersion(targetSequence: int, objects: seq<Stroke>)

  function TranslatePoints(points: seq<Point>, dx: real, dy: real): seq<Point> {
    seq(|points|, i requires 0 <= i < |points| => Point(points[i].x + dx, points[i].y + dy))
  }

  // Where scaling about the anchor takes a coordinate.
  function ScaledFrom(anchor: real, at: real, scale: real): real {
    anchor + (at - anchor) * scale
  }

  function ScalePoints(points: seq<Point>, anchor: Point, sx: real, sy: real): seq<Point> {
    seq(|points|, i requires 0 <= i < |points| =>
      Point(ScaledFrom(anchor.x, points[i].x, sx), ScaledFrom(anchor.y, points[i].y, sy)))
  }

  function Moved(s: Stroke, dx: real, dy: real): Stroke {
    s.(points := TranslatePoints(s.points, dx, dy))
  }

  function Resized(s: Stroke, anchor: Point, sx: real, sy: real): Stroke {
    s.(points := ScalePoints(s.points, anchor, sx, sy))
  }

  // ---- lists of strokes ----

  function Ids(strokes: seq<Stroke>): seq<string> {
    seq(|strokes|, i requires 0 <= i < |strokes| => strokes[i].id)
  }

  // The strokes whose id is not in `ids`, in their original order.
  function Without(strokes: seq<Stroke>, ids: set<string>): seq<Stroke> {
    if strokes == [] then []
    else if strokes[0].id in ids then Without(strokes[1..], ids)
    else [strokes[0]] + Without(strokes[1..], ids)
  }

  // Every stroke that carries the id of `to` becomes `to`, in place.
  function ReplaceById(strokes: seq<Stroke>, to: Stroke): seq<Stroke> {
    seq(|strokes|, i requires 0 <= i < |strokes| => if strokes[i].id == to.id then to else strokes[i])
  }

  ghost predicate DistinctIds(strokes: seq<Stroke>) {
    NoDup(Ids(strokes))
  }

  lemma {:induction false} WithoutMembers(strokes: seq<Stroke>, ids: set<string>)
    ensures forall s :: s in Without(strokes, ids) <==> s in strokes && s.id !in ids
  {
    if strokes != [] {
      WithoutMembers(strokes[1..], ids);
      assert strokes == [strokes[0]] + strokes[1..];
    }
  }

  lemma DistinctTail(strokes: seq<Stroke>)
    requires strokes != []
    ensures DistinctIds(strokes) <==> DistinctIds(strokes[1..]) && forall s :: s in strokes[1..] ==> s.id != strokes[0].id
  {
    var rest := strokes[1..];
    assert Ids(strokes) == [strokes[0].id] + Ids(rest);
    NoDupCons(strokes[0].id, Ids(rest));
    IdsLookUp(rest, strokes[0].id);
  }

  lemma NoDupCons<T>(x: T, s: seq<T>)
    ensures NoDup([x] + s) <==> NoDup(s) && x !in s
  {
    var all := [x] + s;
    assert forall i :: 0 <= i < |s| ==> all[i + 1] == s[i];
    if NoDup(all) {
      assert forall i, j :: 0 <= i < j < |s| ==> s[i] == all[i + 1] && s[j] == all[j + 1];
      forall i | 0 <= i < |s| ensures s[i] != x {
        assert all[0] != all[i + 1];
      }
    }
  }

  lemma IdsLookUp(strokes: seq<Stroke>, id: string)
    ensures id in Ids(strokes) <==> exists s :: s in strokes && s.id == id
  {
    if id in Ids(strokes) {
      var i :| 0 <= i < |Ids(strokes)| && Ids(strokes)[i] == id;
      assert strokes[i] in strokes;
    }
    if s :| s in strokes && s.id == id {
      var i :| 0 <= i < |strokes| && strokes[i] == s;
      assert Ids(strokes)[i] == id;
    }
  }

  lemma {:induction false} WithoutDistinct(strokes: seq<Stroke>, ids: set<string>)
    requires DistinctIds(strokes)
    ensures DistinctIds(Without(strokes, ids))
  {
    if strokes != [] {
      DistinctTail(strokes);
      WithoutDistinct(strokes[1..], ids);
      WithoutMembers(strokes[1..], ids);
      if strokes[0].id !in ids {
        var r := Without(strokes[1..], ids);
        assert Without(strokes, ids) == [strokes[0]] + r;
        assert ([strokes[0]] + r)[1..] == r;
        DistinctTail([strokes[0]] + r);
      }
    }
  }

  lemma WithoutCons(x: Stroke, s: seq<Stroke>, ids: set<string>)
    ensures Without([x] + s, ids) == (if x.id in ids then [] else [x]) + Without(s, ids)
  {
    assert ([x] + s)[1..] == s;
    assert [] + Without(s, ids) == Without(s, ids);
  }

  lemma {:induction false} WithoutAppend(s: seq<Stroke>, t: seq<Stroke>, ids: set<string>)
    ensures Without(s + t, ids) == Without(s, ids) + Without(t, ids)
  {
    if s == [] {
      assert s + t == t;
    } else {
      hide Without;
      var x, rest := s[0], s[1..];
      assert s == [x] + rest && s + t == [x] + (rest + t);
      WithoutCons(x, rest + t, ids);
      WithoutCons(x, rest, ids);
      WithoutAppend(rest, t, ids);
    }
  }

  // Removing ids that do not occur changes nothing, and only then.
  lemma {:induction false} WithoutAbsent(strokes: seq<Stroke>, ids: set<string>)
    ensures |Without(strokes, ids)| <= |strokes|
    ensures Without(strokes, ids) == strokes <==> (forall s :: s in strokes ==> s.id !in ids)
  {
    if strokes != [] {
      WithoutAbsent(strokes[1..], ids);
      assert strokes == [strokes[0]] + strokes[1..];
    }
  }

  lemma WithoutOne(s: Stroke, ids: set<string>)
    ensures Without([s], ids) == if s.id in ids then [] else [s]
  {
    assert [s][1..] == [];
  }

  lemma {:induction false} WithoutTwice(strokes: seq<Stroke>, a: set<string>, b: set<string>)
    ensures Without(Without(strokes, a), b) == Without(strokes, a + b)
  {
    if strokes != [] {
      WithoutTwice(strokes[1..], a, b);
      var r := Without(strokes[1..], a);
      if strokes[0].id !in a {
        assert Without(strokes, a) == [strokes[0]] + r;
        assert ([strokes[0]] + r)[1..] == r;
        assert ([strokes[0]] + r)[0] == strokes[0];
      }
    }
  }
}
