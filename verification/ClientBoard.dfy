// The client's document: an ordered list of strokes changed only by reversible operations.
module ClientBoard {
  import opened Prelude
  import opened Drawing
  import opened Replay

  datatype Op =
    | Add(strokes: seq<Stroke>)
    | Remove(strokes: seq<Stroke>)
    | Clear(strokes: seq<Stroke>)
    | Move(from: Stroke, to: Stroke)
    | Resize(from: Stroke, to: Stroke, anchor: Point, scaleX: real, scaleY: real)

  datatype Board = Board(strokes: seq<Stroke>, past: seq<Op>, future: seq<Op>, version: nat)

  const NEW_BOARD := Board([], [], [], 0)

  // The source's 1 / 0 is Infinity; no board ever looks at the scale of an inverted resize.
  function Reciprocal(x: real): real {
    if x == 0.0 then 0.0 else 1.0 / x
  }

  function InvertOp(op: Op): Op {
    match op
    case Add(strokes) => Remove(strokes)
    case Remove(strokes) => Add(strokes)
    case Clear(strokes) => Add(strokes)
    case Move(from, to) => Move(to, from)
    case Resize(from, to, anchor, sx, sy) => Resize(to, from, anchor, Reciprocal(sx), Reciprocal(sy))
  }

  function NextStrokes(strokes: seq<Stroke>, op: Op): seq<Stroke> {
    match op
    case Add(added) => strokes + Without(added, Elems(Ids(strokes)))
    case Remove(removed) => Without(strokes, Elems(Ids(removed)))
    case Clear(_) => []
    case Move(_, to) => ReplaceById(strokes, to)
    case Resize(_, to, _, _, _) => ReplaceById(strokes, to)
  }

  function Commit(b: Board, op: Op): Board {
    Board(NextStrokes(b.strokes, op), b.past + [op], [], b.version + 1)
  }

  function Undo(b: Board): Board {
    if b.past == [] then b
    else
      var op := b.past[|b.past| - 1];
      Board(NextStrokes(b.strokes, InvertOp(op)), b.past[..|b.past| - 1], b.future + [op], b.version + 1)
  }

  function Redo(b: Board): Board {
    if b.future == [] then b
    else
      var op := b.future[|b.future| - 1];
      Board(NextStrokes(b.strokes, op), b.past + [op], b.future[..|b.future| - 1], b.version + 1)
  }

  function LoadServerState(b: Board, strokes: seq<Stroke>): Board {
    Board(strokes, if strokes == [] then [] else [Add(strokes)], [], b.version + 1)
  }

  // ---- content: which stroke each id stands for, whatever the order ----

  type Content = map<string, Stroke>

  function ContentOf(strokes: seq<Stroke>): Content {
    FileAll(strokes)
  }

  function ApplyContent(m: Content, op: Op): Content {
    match op
    case Add(added) => FileAll(added) + m
    case Remove(removed) => m - Elems(Ids(removed))
    case Clear(_) => map[]
    case Move(_, to) => if to.id in m then m[to.id := to] else m
    case Resize(_, to, _, _, _) => if to.id in m then m[to.id := to] else m
  }

  // What replaying a stack of operations from an empty board means.
  function Meaning(past: seq<Op>): Content {
    if past == [] then map[] else ApplyContent(Meaning(past[..|past| - 1]), past[|past| - 1])
  }

  // An operation names each stroke once, and a transform keeps the id.
  ghost predicate Shaped(op: Op) {
    match op
    case Add(strokes) => DistinctIds(strokes)
    case Remove(strokes) => DistinctIds(strokes)
    case Clear(strokes) => DistinctIds(strokes)
    case Move(from, to) => from.id == to.id
    case Resize(from, to, _, _, _) => from.id == to.id
  }

  // The operation describes the content it is applied to: what it adds is new, what it takes
  // away or transforms is there as described.
  ghost predicate Fits(m: Content, op: Op) {
    && Shaped(op)
    && match op
       case Add(strokes) => FileAll(strokes).Keys !! m.Keys
       case Remove(strokes) => FileAll(strokes).Items <= m.Items
       case Clear(strokes) => FileAll(strokes) == m
       case Move(from, _) => from.id in m ==> m[from.id] == from
       case Resize(from, _, _, _, _) => from.id in m ==> m[from.id] == from
  }

  lemma ContentKeys(strokes: seq<Stroke>)
    ensures ContentOf(strokes).Keys == Elems(Ids(strokes))
  {
    FileAllLooksUp(strokes);
  }

  // With distinct ids, the content lists exactly the strokes.
  lemma ContentLists(strokes: seq<Stroke>, s: Stroke)
    requires DistinctIds(strokes)
    ensures s in strokes <==> s.id in ContentOf(strokes) && ContentOf(strokes)[s.id] == s
  {
    FileAllFinds(strokes);
    FileAllLooksUp(strokes);
  }

  lemma SameContent(strokes: seq<Stroke>, m: Content)
    requires DistinctIds(strokes)
    requires forall id :: id in m ==> m[id].id == id && m[id] in strokes
    requires forall s :: s in strokes ==> s.id in m
    ensures ContentOf(strokes) == m
  {
    FileAllLooksUp(strokes);
    forall id | id in m ensures id in FileAll(strokes) && FileAll(strokes)[id] == m[id] {
      ContentLists(strokes, m[id]);
    }
  }

  lemma AddedContent(strokes: seq<Stroke>, added: seq<Stroke>)
    requires DistinctIds(strokes) && DistinctIds(added)
    ensures var next := NextStrokes(strokes, Add(added));
      DistinctIds(next) && ContentOf(next) == FileAll(added) + ContentOf(strokes)
  {
    var known := Elems(Ids(strokes));
    var novel := Without(added, known);
    WithoutMembers(added, known);
    WithoutDistinct(added, known);
    forall s | s in novel ensures s.id !in Ids(strokes) {
    }
    DistinctAppend(strokes, novel);
    var m := FileAll(added) + FileAll(strokes);
    FileAllLooksUp(added);
    FileAllLooksUp(strokes);
    forall id | id in m ensures m[id].id == id && m[id] in strokes + novel {
      if id !in FileAll(strokes) {
        assert m[id] == FileAll(added)[id];
      }
    }
    forall s | s in strokes + novel ensures s.id in m {
      if s in strokes { ContentLists(strokes, s); } else { ContentLists(added, s); }
    }
    SameContent(strokes + novel, m);
  }

  lemma DistinctAppend(a: seq<Stroke>, b: seq<Stroke>)
    ensures DistinctIds(a + b) <==> DistinctIds(a) && DistinctIds(b) && forall s :: s in b ==> s.id !in Ids(a)
  {
    var ab := a + b;
    assert Ids(ab) == Ids(a) + Ids(b);
    if DistinctIds(ab) {
      assert forall i :: 0 <= i < |a| ==> Ids(ab)[i] == Ids(a)[i];
      assert forall i :: 0 <= i < |b| ==> Ids(ab)[|a| + i] == Ids(b)[i];
      forall s | s in b ensures s.id !in Ids(a) {
        var j :| 0 <= j < |b| && b[j] == s;
        assert Ids(ab)[|a| + j] == s.id;
      }
    }
    if DistinctIds(a) && DistinctIds(b) && forall s :: s in b ==> s.id !in Ids(a) {
      forall i, j | 0 <= i < j < |ab| ensures Ids(ab)[i] != Ids(ab)[j] {
        if i < |a| <= j {
          assert b[j - |a|] in b && Ids(a)[i] in Ids(a);
        } else if |a| <= i {
          assert Ids(b)[i - |a|] != Ids(b)[j - |a|];
        }
      }
    }
  }

  lemma RemovedContent(strokes: seq<Stroke>, ids: set<string>)
    requires DistinctIds(strokes)
    ensures DistinctIds(Without(strokes, ids)) && ContentOf(Without(strokes, ids)) == ContentOf(strokes) - ids
  {
    WithoutDistinct(strokes, ids);
    WithoutMembers(strokes, ids);
    var m := ContentOf(strokes) - ids;
    FileAllLooksUp(strokes);
    forall s | s in Without(strokes, ids) ensures s.id in m {
      ContentLists(strokes, s);
    }
    SameContent(Without(strokes, ids), m);
  }

  lemma ReplacedContent(strokes: seq<Stroke>, to: Stroke)
    requires DistinctIds(strokes)
    ensures var m := ContentOf(strokes);
      DistinctIds(ReplaceById(strokes, to)) && ContentOf(ReplaceById(strokes, to)) == if to.id in m then m[to.id := to] else m
  {
    var r := ReplaceById(strokes, to);
    assert Ids(r) == Ids(strokes);
    var m := ContentOf(strokes);
    var m' := if to.id in m then m[to.id := to] else m;
    FileAllLooksUp(strokes);
    forall id | id in m' ensures m'[id].id == id && m'[id] in r {
      var i :| 0 <= i < |strokes| && Ids(strokes)[i] == id;
      FileAllFinds(strokes);
      assert r[i] == m'[id];
    }
    forall s | s in r ensures s.id in m' {
      var i :| 0 <= i < |r| && r[i] == s;
      assert Ids(r)[i] == s.id;
    }
    SameContent(r, m');
  }

  // The ordered list implements the content map.
  lemma NextContent(strokes: seq<Stroke>, op: Op)
    requires DistinctIds(strokes) && (op.Add? ==> DistinctIds(op.strokes))
    ensures DistinctIds(NextStrokes(strokes, op))
    ensures ContentOf(NextStrokes(strokes, op)) == ApplyContent(ContentOf(strokes), op)
  {
    match op
    case Add(added) => AddedContent(strokes, added);
    case Remove(removed) => RemovedContent(strokes, Elems(Ids(removed)));
    case Clear(_) =>
    case Move(_, to) => ReplacedContent(strokes, to);
    case Resize(_, to, _, _, _) => ReplacedContent(strokes, to);
  }

  // ---- one undo ----

  // On content, the inverse takes an operation back exactly when the operation fitted.
  lemma InverseIff(m: Content, op: Op)
    requires Shaped(op) && forall id :: id in m ==> m[id].id == id
    ensures ApplyContent(ApplyContent(m, op), InvertOp(op)) == m <==> Fits(m, op)
  {
    match op
    case Add(added) =>
      ContentKeys(added);
      assert ApplyContent(ApplyContent(m, op), InvertOp(op)) == m - FileAll(added).Keys;
    case Remove(removed) =>
      ContentKeys(removed);
      var f := FileAll(removed);
      var back := f + (m - f.Keys);
      if Fits(m, op) {
        forall id | id in f ensures id in m && m[id] == f[id] {
          assert (id, f[id]) in f.Items;
        }
        assert back == m;
      }
      if back == m {
        forall p | p in f.Items ensures p in m.Items {
          assert back[p.0] == p.1;
        }
      }
    case Clear(cleared) =>
    case Move(from, to) =>
    case Resize(from, to, _, _, _) =>
  }

  // Undo right after a commit gives back the same strokes under the same ids exactly when the
  // committed operation described the board it was committed to.
  lemma UndoRestoresContentIff(b: Board, op: Op)
    requires DistinctIds(b.strokes) && Shaped(op)
    ensures ContentOf(Undo(Commit(b, op)).strokes) == ContentOf(b.strokes) <==> Fits(ContentOf(b.strokes), op)
  {
    NextContent(b.strokes, op);
    NextContent(NextStrokes(b.strokes, op), InvertOp(op));
    FileAllLooksUp(b.strokes);
    InverseIff(ContentOf(b.strokes), op);
  }

  // When the order comes back as well. For a removal that takes strokes from anywhere but the
  // top it does not: undo puts them back on top.
  ghost predicate OrderKept(strokes: seq<Stroke>, op: Op) {
    match op
    case Add(added) => forall s :: s in added ==> s.id !in Ids(strokes)
    case Remove(removed) => |removed| <= |strokes| && strokes[|strokes| - |removed|..] == removed
    case Clear(cleared) => cleared == strokes
    case Move(from, _) => forall s :: s in strokes && s.id == from.id ==> s == from
    case Resize(from, _, _, _, _) => forall s :: s in strokes && s.id == from.id ==> s == from
  }

  lemma UndoRestoresOrderIff(b: Board, op: Op)
    requires DistinctIds(b.strokes) && Shaped(op)
    ensures Undo(Commit(b, op)).strokes == b.strokes <==> OrderKept(b.strokes, op)
    ensures Undo(Commit(b, op)).past == b.past
  {
    match op
    case Add(added) => UndoAddIff(b.strokes, added);
    case Remove(removed) => UndoRemoveIff(b.strokes, removed);
    case Clear(cleared) =>
      WithoutAbsent(cleared, {});
      assert Elems(Ids([])) == {};
      assert NextStrokes([], Add(cleared)) == cleared;
    case Move(from, to) => ReplaceBackIff(b.strokes, from, to);
    case Resize(from, to, _, _, _) => ReplaceBackIff(b.strokes, from, to);
  }

  lemma UndoAddIff(strokes: seq<Stroke>, added: seq<Stroke>)
    ensures NextStrokes(NextStrokes(strokes, Add(added)), Remove(added)) == strokes
      <==> forall s :: s in added ==> s.id !in Ids(strokes)
  {
    var known, ids := Elems(Ids(strokes)), Elems(Ids(added));
    var novel := Without(added, known);
    WithoutAppend(strokes, novel, ids);
    WithoutMembers(added, known);
    WithoutMembers(novel, ids);
    forall s | s in novel ensures s.id in ids {
      IdsLookUp(added, s.id);
    }
    SomeMember(Without(novel, ids));
    WithoutAbsent(strokes, ids);
    if forall s :: s in strokes ==> s.id !in ids {
      forall s | s in added ensures s.id !in Ids(strokes) {
        IdsLookUp(added, s.id);
        IdsLookUp(strokes, s.id);
      }
    }
    if forall s :: s in added ==> s.id !in Ids(strokes) {
      forall s | s in strokes ensures s.id !in ids {
        IdsLookUp(added, s.id);
        IdsLookUp(strokes, s.id);
      }
    }
  }

  lemma UndoRemoveIff(strokes: seq<Stroke>, removed: seq<Stroke>)
    requires DistinctIds(strokes) && DistinctIds(removed)
    ensures NextStrokes(NextStrokes(strokes, Remove(removed)), Add(removed)) == strokes
      <==> |removed| <= |strokes| && strokes[|strokes| - |removed|..] == removed
  {
    var ids := Elems(Ids(removed));
    var kept := Without(strokes, ids);
    WithoutMembers(strokes, ids);
    forall s | s in removed ensures s.id !in Elems(Ids(kept)) {
      IdsLookUp(removed, s.id);
      IdsLookUp(kept, s.id);
    }
    WithoutAbsent(removed, Elems(Ids(kept)));
    assert NextStrokes(NextStrokes(strokes, Remove(removed)), Add(removed)) == kept + removed;
    if |removed| <= |strokes| && strokes[|strokes| - |removed|..] == removed {
      var base := strokes[..|strokes| - |removed|];
      assert strokes == base + removed;
      DistinctAppend(base, removed);
      WithoutAppend(base, removed, ids);
      TakenAway(base, removed);
      assert kept == base;
    }
  }

  lemma TakenAway(base: seq<Stroke>, removed: seq<Stroke>)
    requires forall s :: s in removed ==> s.id !in Ids(base)
    ensures Without(base, Elems(Ids(removed))) == base
    ensures Without(removed, Elems(Ids(removed))) == []
  {
    var ids := Elems(Ids(removed));
    forall s | s in base ensures s.id !in ids {
      IdsLookUp(removed, s.id);
      IdsLookUp(base, s.id);
    }
    WithoutAbsent(base, ids);
    WithoutMembers(removed, ids);
    forall s | s in removed ensures s.id in ids {
      IdsLookUp(removed, s.id);
    }
    SomeMember(Without(removed, ids));
  }

  lemma ReplaceBackIff(strokes: seq<Stroke>, from: Stroke, to: Stroke)
    requires from.id == to.id
    ensures ReplaceById(ReplaceById(strokes, to), from) == strokes <==> forall s :: s in strokes && s.id == from.id ==> s == from
  {
    var back := ReplaceById(ReplaceById(strokes, to), from);
    if back == strokes {
      forall s | s in strokes && s.id == from.id ensures s == from {
        var i :| 0 <= i < |strokes| && strokes[i] == s;
        assert back[i] == from;
      }
    }
  }

  // A case: removing the lower of two strokes and undoing that swaps them.
  lemma UndoSwaps(a: Stroke, b: Stroke)
    requires a.id != b.id
    ensures var board := Board([a, b], [], [], 0);
      Undo(Commit(board, Remove([a]))).strokes == [b, a] && [b, a] != [a, b]
  {
    assert Ids([a]) == [a.id] && Elems(Ids([a])) == {a.id};
    assert [a, b][1..] == [b];
    WithoutOne(b, {a.id});
    assert Without([a, b], {a.id}) == [b];
    assert Ids([b]) == [b.id] && Elems(Ids([b])) == {b.id};
    WithoutOne(a, {b.id});
    assert [b, a][0] == b;
  }

  // What it takes for an operation to leave a board as it is.
  ghost predicate Idle(strokes: seq<Stroke>, op: Op) {
    match op
    case Add(added) => forall s :: s in added ==> s.id in Ids(strokes)
    case Remove(removed) => forall s :: s in removed ==> s.id !in Ids(strokes)
    case Clear(_) => strokes == []
    case Move(_, to) => forall s :: s in strokes && s.id == to.id ==> s == to
    case Resize(_, to, _, _, _) => forall s :: s in strokes && s.id == to.id ==> s == to
  }

  lemma IdleIff(strokes: seq<Stroke>, op: Op)
    ensures NextStrokes(strokes, op) == strokes <==> Idle(strokes, op)
  {
    match op
    case Add(added) => AddsNothingIff(strokes, added);
    case Remove(removed) => RemovesNothingIff(strokes, removed);
    case Clear(_) =>
    case Move(_, to) => ReplacesNothingIff(strokes, to);
    case Resize(_, to, _, _, _) => ReplacesNothingIff(strokes, to);
  }

  lemma AddsNothingIff(strokes: seq<Stroke>, added: seq<Stroke>)
    ensures NextStrokes(strokes, Add(added)) == strokes <==> forall s :: s in added ==> s.id in Ids(strokes)
  {
    var novel := Without(added, Elems(Ids(strokes)));
    WithoutMembers(added, Elems(Ids(strokes)));
    SomeMember(novel);
    assert strokes + novel == strokes <==> novel == [] by {
      assert |strokes + novel| == |strokes| + |novel|;
    }
  }

  lemma RemovesNothingIff(strokes: seq<Stroke>, removed: seq<Stroke>)
    ensures NextStrokes(strokes, Remove(removed)) == strokes <==> forall s :: s in removed ==> s.id !in Ids(strokes)
  {
    var ids := Elems(Ids(removed));
    WithoutAbsent(strokes, ids);
    forall s | s in strokes ensures s.id in ids <==> exists r :: r in removed && r.id == s.id {
      IdsLookUp(removed, s.id);
    }
    forall r | r in removed ensures r.id in Ids(strokes) <==> exists s :: s in strokes && s.id == r.id {
      IdsLookUp(strokes, r.id);
    }
  }

  lemma ReplacesNothingIff(strokes: seq<Stroke>, to: Stroke)
    ensures ReplaceById(strokes, to) == strokes <==> forall s :: s in strokes && s.id == to.id ==> s == to
  {
    var r := ReplaceById(strokes, to);
    if r == strokes {
      forall s | s in strokes && s.id == to.id ensures s == to {
        var i :| 0 <= i < |strokes| && strokes[i] == s;
        assert r[i] == to;
      }
    }
  }

  // ---- whole runs ----

  datatype Edit = CommitOp(op: Op) | UndoOnce | RedoOnce | Reload(strokes: seq<Stroke>)

  function PerformEdit(b: Board, e: Edit): Board {
    match e
    case CommitOp(op) => Commit(b, op)
    case UndoOnce => Undo(b)
    case RedoOnce => Redo(b)
    case Reload(strokes) => LoadServerState(b, strokes)
  }

  function RunEdits(edits: seq<Edit>): Board {
    if edits == [] then NEW_BOARD else PerformEdit(RunEdits(edits[..|edits| - 1]), edits[|edits| - 1])
  }

  // Commits describe the board they are made on; the server sends distinct ids.
  ghost predicate Proper(b: Board, e: Edit) {
    match e
    case CommitOp(op) => Fits(ContentOf(b.strokes), op)
    case UndoOnce => true
    case RedoOnce => true
    case Reload(strokes) => DistinctIds(strokes)
  }

  ghost predicate ProperRun(edits: seq<Edit>) {
    edits != [] ==>
      ProperRun(edits[..|edits| - 1]) && Proper(RunEdits(edits[..|edits| - 1]), edits[|edits| - 1])
  }

  // Every operation of the stack fitted where it stands.
  ghost predicate Chain(past: seq<Op>) {
    past != [] ==> Chain(past[..|past| - 1]) && Fits(Meaning(past[..|past| - 1]), past[|past| - 1])
  }

  // The undone operations still fit, last undone first.
  ghost predicate Redoable(m: Content, future: seq<Op>)
    decreases |future|
  {
    future != [] ==>
      var op := future[|future| - 1];
      Fits(m, op) && Redoable(ApplyContent(m, op), future[..|future| - 1])
  }

  ghost predicate Inv(b: Board) {
    && DistinctIds(b.strokes)
    && ContentOf(b.strokes) == Meaning(b.past)
    && Chain(b.past)
    && Redoable(Meaning(b.past), b.future)
  }

  lemma CommitKeepsInv(b: Board, op: Op)
    requires Inv(b) && Fits(ContentOf(b.strokes), op)
    ensures Inv(Commit(b, op))
  {
    NextContent(b.strokes, op);
  }

  lemma UndoKeepsInv(b: Board)
    requires Inv(b)
    ensures Inv(Undo(b))
  {
    if b.past != [] {
      var init, op := b.past[..|b.past| - 1], b.past[|b.past| - 1];
      FileAllLooksUp(b.strokes);
      NextContent(b.strokes, InvertOp(op));
      MeaningIsFiled(init);
      InverseIff(Meaning(init), op);
      assert (b.future + [op])[..|b.future|] == b.future;
    }
  }

  lemma {:induction false} MeaningIsFiled(past: seq<Op>)
    ensures forall id :: id in Meaning(past) ==> Meaning(past)[id].id == id
  {
    if past != [] {
      MeaningIsFiled(past[..|past| - 1]);
      var op := past[|past| - 1];
      if op.Add? {
        FileAllLooksUp(op.strokes);
      }
    }
  }

  lemma RedoKeepsInv(b: Board)
    requires Inv(b)
    ensures Inv(Redo(b))
  {
    if b.future != [] {
      var op := b.future[|b.future| - 1];
      NextContent(b.strokes, op);
    }
  }

  lemma ReloadKeepsInv(b: Board, strokes: seq<Stroke>)
    requires DistinctIds(strokes)
    ensures Inv(LoadServerState(b, strokes))
  {
    assert [] + [Add(strokes)] == [Add(strokes)];
    assert FileAll(strokes) + map[] == FileAll(strokes);
  }

  // Over any run of fitting commits, undos, redos and server reloads, ids stay unique and the
  // board is what replaying its undo stack means.
  lemma {:induction false} BoardIsItsUndoStack(edits: seq<Edit>)
    requires ProperRun(edits)
    ensures Inv(RunEdits(edits))
  {
    if edits != [] {
      var b := RunEdits(edits[..|edits| - 1]);
      BoardIsItsUndoStack(edits[..|edits| - 1]);
      match edits[|edits| - 1]
      case CommitOp(op) => CommitKeepsInv(b, op);
      case UndoOnce => UndoKeepsInv(b);
      case RedoOnce => RedoKeepsInv(b);
      case Reload(strokes) => ReloadKeepsInv(b, strokes);
    }
  }

  // Loading puts exactly the server's strokes on the board, leaves nothing to redo, and one undo takes them away.
  lemma LoadReplaces(b: Board, strokes: seq<Stroke>)
    ensures var after := LoadServerState(b, strokes);
      && after.strokes == strokes && after.future == [] && |after.past| <= 1 && after.version == b.version + 1
      && Undo(after).strokes == []
  {
    if strokes != [] {
      WithoutAll(strokes, Elems(Ids(strokes)));
    }
  }

  lemma {:induction false} WithoutAll(strokes: seq<Stroke>, ids: set<string>)
    requires Elems(Ids(strokes)) <= ids
    ensures Without(strokes, ids) == []
  {
    if strokes != [] {
      assert strokes[0].id == Ids(strokes)[0];
      assert forall i :: 0 <= i < |strokes| - 1 ==> Ids(strokes[1..])[i] == Ids(strokes)[i + 1];
      WithoutAll(strokes[1..], ids);
    }
  }

  // The edits that do something.
  ghost predicate Effective(b: Board, e: Edit) {
    match e
    case CommitOp(_) => true
    case UndoOnce => b.past != []
    case RedoOnce => b.future != []
    case Reload(_) => true
  }

  ghost function EffectiveEdits(edits: seq<Edit>): nat {
    if edits == [] then 0
    else
      var init := edits[..|edits| - 1];
      EffectiveEdits(init) + if Effective(RunEdits(init), edits[|edits| - 1]) then 1 else 0
  }

  // The version of the board counts its changes, an undo or redo with nothing to do not being one.
  lemma {:induction false} VersionCountsChanges(edits: seq<Edit>)
    ensures RunEdits(edits).version == EffectiveEdits(edits)
  {
    if edits != [] {
      VersionCountsChanges(edits[..|edits| - 1]);
    }
  }

  function UndoN(b: Board, k: nat): Board {
    if k == 0 then b else Undo(UndoN(b, k - 1))
  }

  function RedoN(b: Board, k: nat): Board {
    if k == 0 then b else Redo(RedoN(b, k - 1))
  }

  function CommitAll(b: Board, ops: seq<Op>): Board {
    if ops == [] then b else Commit(CommitAll(b, ops[..|ops| - 1]), ops[|ops| - 1])
  }

  ghost predicate AllFit(b: Board, ops: seq<Op>) {
    ops != [] ==>
      AllFit(b, ops[..|ops| - 1]) && Fits(ContentOf(CommitAll(b, ops[..|ops| - 1]).strokes), ops[|ops| - 1])
  }

  lemma UndoStacks(b: Board)
    requires b.past != []
    ensures Undo(b).past == b.past[..|b.past| - 1] && |Undo(b).future| == |b.future| + 1
  {
    hide NextStrokes;
  }

  lemma InvMeans(b: Board)
    requires Inv(b)
    ensures ContentOf(b.strokes) == Meaning(b.past)
  {
  }

  // After k undos the board means the stack without its last k operations.
  lemma {:induction false} UndoNMeans(b: Board, k: nat)
    requires Inv(b) && k <= |b.past|
    ensures Inv(UndoN(b, k))
    ensures UndoN(b, k).past == b.past[..|b.past| - k]
    ensures |UndoN(b, k).future| == |b.future| + k
    ensures ContentOf(UndoN(b, k).strokes) == Meaning(b.past[..|b.past| - k])
  {
    hide Inv, Undo, ContentOf, Meaning;
    if k == 0 {
      assert b.past[..|b.past|] == b.past;
      InvMeans(b);
    } else {
      var u := UndoN(b, k - 1);
      UndoNMeans(b, k - 1);
      UndoStacks(u);
      UndoKeepsInv(u);
      InvMeans(Undo(u));
      assert u.past[..|u.past| - 1] == b.past[..|b.past| - k];
    }
  }

  lemma RedoAfterUndo(b: Board)
    requires Inv(b) && b.past != []
    ensures Redo(Undo(b)).past == b.past && Redo(Undo(b)).future == b.future
    ensures Inv(Redo(Undo(b))) && ContentOf(Redo(Undo(b)).strokes) == ContentOf(b.strokes)
  {
    UndoRedoStacks(b);
    hide Inv, Undo, Redo, ContentOf;
    UndoKeepsInv(b);
    RedoKeepsInv(Undo(b));
  }

  lemma UndoRedoStacks(b: Board)
    requires b.past != []
    ensures Redo(Undo(b)).past == b.past && Redo(Undo(b)).future == b.future
  {
    hide NextStrokes;
    assert b.past[..|b.past| - 1] + [b.past[|b.past| - 1]] == b.past;
    assert (b.future + [b.past[|b.past| - 1]])[..|b.future|] == b.future;
  }

  lemma {:induction false} RedoNFirst(b: Board, k: nat)
    requires k > 0
    ensures RedoN(b, k) == RedoN(Redo(b), k - 1)
  {
    if k > 1 {
      RedoNFirst(b, k - 1);
    }
  }

  // Two boards with the same stacks, both satisfying the invariant, redo to the same content.
  lemma {:induction false} RedoNAgrees(a: Board, b: Board, k: nat)
    requires Inv(a) && Inv(b) && a.past == b.past && a.future == b.future
    ensures Inv(RedoN(a, k)) && Inv(RedoN(b, k))
    ensures RedoN(a, k).past == RedoN(b, k).past && RedoN(a, k).future == RedoN(b, k).future
  {
    if k > 0 {
      RedoNAgrees(a, b, k - 1);
      RedoKeepsInv(RedoN(a, k - 1));
      RedoKeepsInv(RedoN(b, k - 1));
    }
  }

  // Redoing what was undone brings back the content and both stacks.
  lemma {:induction false} RedoBringsBack(b: Board, k: nat)
    requires Inv(b) && k <= |b.past|
    ensures RedoN(UndoN(b, k), k).past == b.past && RedoN(UndoN(b, k), k).future == b.future
    ensures ContentOf(RedoN(UndoN(b, k), k).strokes) == ContentOf(b.strokes)
    ensures Inv(RedoN(UndoN(b, k), k))
  {
    hide Inv, Undo, Redo, ContentOf;
    if k > 0 {
      var u := UndoN(b, k - 1);
      UndoNMeans(b, k - 1);
      RedoAfterUndo(u);
      RedoNFirst(Undo(u), k);
      RedoNAgrees(Redo(Undo(u)), u, k - 1);
      RedoBringsBack(b, k - 1);
      assert RedoN(UndoN(b, k), k) == RedoN(Redo(Undo(u)), k - 1);
    }
  }

  lemma LastCommit(b: Board, ops: seq<Op>) returns (init: seq<Op>, op: Op, mid: Board)
    requires ops != [] && AllFit(b, ops)
    ensures ops == init + [op] && |init| < |ops| && AllFit(b, init)
    ensures mid == CommitAll(b, init) && Fits(ContentOf(mid.strokes), op)
    ensures CommitAll(b, ops) == Commit(mid, op) && CommitAll(b, ops).past == mid.past + [op]
  {
    init, op := ops[..|ops| - 1], ops[|ops| - 1];
    mid := CommitAll(b, init);
    hide NextStrokes, Fits, ContentOf;
  }

  lemma {:induction false} CommitAllStacks(b: Board, ops: seq<Op>)
    requires Inv(b) && AllFit(b, ops)
    ensures Inv(CommitAll(b, ops)) && CommitAll(b, ops).past == b.past + ops
  {
    if ops == [] {
      assert b.past + [] == b.past;
    } else {
      hide *;
      var init, op, mid := LastCommit(b, ops);
      CommitAllStacks(b, init);
      CommitKeepsInv(mid, op);
      assert (b.past + init) + [op] == b.past + (init + [op]);
    }
  }

  // Any number of commits, all undone, leave the content as it was.
  lemma CommitsUndone(b: Board, ops: seq<Op>)
    requires Inv(b) && AllFit(b, ops)
    ensures ContentOf(UndoN(CommitAll(b, ops), |ops|).strokes) == ContentOf(b.strokes)
    ensures UndoN(CommitAll(b, ops), |ops|).past == b.past
  {
    CommitAllStacks(b, ops);
    UndoNMeans(CommitAll(b, ops), |ops|);
    assert (b.past + ops)[..|b.past|] == b.past;
  }

  lemma {:induction false} UndoNLast(b: Board, k: nat)
    requires k > 0
    ensures UndoN(b, k) == UndoN(Undo(b), k - 1)
  {
    if k > 1 {
      UndoNLast(b, k - 1);
    }
  }

  // Undo looks only at the strokes and the past.
  lemma {:induction false} UndoNAgrees(a: Board, b: Board, k: nat)
    requires a.strokes == b.strokes && a.past == b.past
    ensures UndoN(a, k).strokes == UndoN(b, k).strokes && UndoN(a, k).past == UndoN(b, k).past
  {
    if k > 0 {
      UndoNAgrees(a, b, k - 1);
    }
  }

  ghost predicate AllOrderKept(b: Board, ops: seq<Op>) {
    ops != [] ==>
      AllOrderKept(b, ops[..|ops| - 1]) && OrderKept(CommitAll(b, ops[..|ops| - 1]).strokes, ops[|ops| - 1])
  }

  // When each commit is one whose undo keeps the order, undoing them all keeps it too.
  lemma {:induction false} CommitsUndoneInOrder(b: Board, ops: seq<Op>)
    requires Inv(b) && AllFit(b, ops) && AllOrderKept(b, ops)
    ensures UndoN(CommitAll(b, ops), |ops|).strokes == b.strokes
  {
    if ops != [] {
      var init, op := ops[..|ops| - 1], ops[|ops| - 1];
      var mid := CommitAll(b, init);
      CommitAllStacks(b, init);
      UndoRestoresOrderIff(mid, op);
      UndoNLast(Commit(mid, op), |ops|);
      UndoNAgrees(Undo(Commit(mid, op)), mid, |init|);
      CommitsUndoneInOrder(b, init);
    }
  }
}
