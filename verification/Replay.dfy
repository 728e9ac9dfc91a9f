// Deterministic replay of the operation ledger: a map of objects plus a z-order.
module Replay {
  import opened Prelude
  import opened Drawing

  datatype State = State(objects: map<string, Stroke>, order: seq<string>)

  const EMPTY := State(map[], [])

  // Holds of every replay, whatever the payloads: each object is filed under its own id
  // and has a place in the z-order, so `order.remove` always finds what it removes.
  ghost predicate Filed(st: State) {
    forall id :: id in st.objects ==> st.objects[id].id == id && id in st.order
  }

  // The z-order lists each object exactly once and nothing else.
  ghost predicate Coherent(st: State) {
    Filed(st) && NoDup(st.order) && forall id :: id in st.order ==> id in st.objects
  }

  // A dict built from a list: a later entry with the same id wins.
  function FileAll(objects: seq<Stroke>): map<string, Stroke> {
    if objects == [] then map[]
    else
      var last := objects[|objects| - 1];
      FileAll(objects[..|objects| - 1])[last.id := last]
  }

  function Apply(st: State, op: Operation): State {
    match op
    case CreateStroke(s) =>
      var order := if s.id in st.objects then RemoveFirst(st.order, s.id) else st.order;
      State(st.objects[s.id := s], order + [s.id])
    case DeleteObject(id) => State(st.objects - {id}, RemoveFirst(st.order, id))
    case ClearCanvas => EMPTY
    case MoveObject(id, dx, dy) =>
      if id in st.objects then
        var s := st.objects[id];
        st.(objects := st.objects[s.id := Moved(s, dx, dy)])
      else st
    case ResizeObject(id, anchor, sx, sy) =>
      if id in st.objects then
        var s := st.objects[id];
        st.(objects := st.objects[s.id := Resized(s, anchor, sx, sy)])
      else st
    case RestoreVersion(_, objects) => State(FileAll(objects), Ids(objects))
  }

  function ReplayFrom(start: State, ops: seq<Operation>): State {
    if ops == [] then start
    else Apply(ReplayFrom(start, ops[..|ops| - 1]), ops[|ops| - 1])
  }

  function Reconstruct(ops: seq<Operation>): State {
    ReplayFrom(EMPTY, ops)
  }

  // The strokes bottom to top.
  function Drawn(st: State): (r: seq<Stroke>)
    requires forall id :: id in st.order ==> id in st.objects
    ensures |r| == |st.order|
    ensures forall i :: 0 <= i < |r| ==> r[i] == st.objects[st.order[i]]
  {
    seq(|st.order|, i requires 0 <= i < |st.order| => st.objects[st.order[i]])
  }

  // An independent meaning of the operations on a plain list of strokes, bottom to top.
  function Paint(strokes: seq<Stroke>, op: Operation): seq<Stroke> {
    match op
    case CreateStroke(s) => Without(strokes, {s.id}) + [s]
    case DeleteObject(id) => Without(strokes, {id})
    case ClearCanvas => []
    case MoveObject(id, dx, dy) =>
      seq(|strokes|, i requires 0 <= i < |strokes| => if strokes[i].id == id then Moved(strokes[i], dx, dy) else strokes[i])
    case ResizeObject(id, anchor, sx, sy) =>
      seq(|strokes|, i requires 0 <= i < |strokes| => if strokes[i].id == id then Resized(strokes[i], anchor, sx, sy) else strokes[i])
    case RestoreVersion(_, objects) => objects
  }

  function PaintAll(strokes: seq<Stroke>, ops: seq<Operation>): seq<Stroke> {
    if ops == [] then strokes
    else Paint(PaintAll(strokes, ops[..|ops| - 1]), ops[|ops| - 1])
  }

  // A restore payload that names an object twice.
  ghost predicate RepeatsId(op: Operation) {
    op.RestoreVersion? && !DistinctIds(op.objects)
  }

  // ---- lemmas ----

  lemma {:induction false} FileAllLooksUp(objects: seq<Stroke>)
    ensures forall id :: id in FileAll(objects) <==> id in Ids(objects)
    ensures forall id :: id in FileAll(objects) ==> FileAll(objects)[id].id == id && FileAll(objects)[id] in objects
  {
    if objects != [] {
      var n := |objects| - 1;
      FileAllLooksUp(objects[..n]);
      assert Ids(objects) == Ids(objects[..n]) + [objects[n].id];
    }
  }

  lemma {:induction false} FileAllFinds(objects: seq<Stroke>)
    requires DistinctIds(objects)
    ensures forall i :: 0 <= i < |objects| ==> objects[i].id in FileAll(objects) && FileAll(objects)[objects[i].id] == objects[i]
  {
    if objects != [] {
      var n := |objects| - 1;
      var init := objects[..n];
      assert forall i :: 0 <= i < n ==> Ids(init)[i] == Ids(objects)[i];
      FileAllFinds(init);
      forall i | 0 <= i < n ensures objects[i].id in FileAll(objects) && FileAll(objects)[objects[i].id] == objects[i] {
        assert Ids(objects)[i] != Ids(objects)[n];
        assert init[i] == objects[i];
      }
    }
  }

  lemma ApplyKeepsFiled(st: State, op: Operation)
    requires Filed(st)
    ensures Filed(Apply(st, op))
  {
    match op
    case CreateStroke(s) =>
      RemoveFirstMembers(st.order, s.id);
    case DeleteObject(id) =>
      RemoveFirstMembers(st.order, id);
    case ClearCanvas =>
    case MoveObject(id, dx, dy) =>
    case ResizeObject(id, anchor, sx, sy) =>
    case RestoreVersion(_, objects) =>
      FileAllLooksUp(objects);
  }

  // No ledger, however odd its restore payloads, makes replay look for a missing z-order entry.
  lemma {:induction false} ReplayFiles(ops: seq<Operation>)
    ensures Filed(Reconstruct(ops))
  {
    if ops != [] {
      ReplayFiles(ops[..|ops| - 1]);
      ApplyKeepsFiled(Reconstruct(ops[..|ops| - 1]), ops[|ops| - 1]);
    }
  }

  lemma ApplyCoherentIff(st: State, op: Operation)
    requires Coherent(st)
    ensures Coherent(Apply(st, op)) <==> !RepeatsId(op)
  {
    ApplyKeepsFiled(st, op);
    match op
    case CreateStroke(s) =>
      RemoveFirstMembers(st.order, s.id);
    case DeleteObject(id) =>
      RemoveFirstMembers(st.order, id);
    case ClearCanvas =>
    case MoveObject(id, dx, dy) =>
    case ResizeObject(id, anchor, sx, sy) =>
    case RestoreVersion(_, objects) =>
      FileAllLooksUp(objects);
  }

  // The z-order is a duplicate-free listing of the objects throughout a ledger exactly when
  // no restore payload in it repeats an id.
  lemma {:induction false} CoherentIff(ops: seq<Operation>)
    ensures CoherentThroughout(ops) <==> NoRepeats(ops)
  {
    if ops != [] {
      var init, last := ops[..|ops| - 1], ops[|ops| - 1];
      assert Reconstruct(ops) == Apply(Reconstruct(init), last);
      hide Coherent, RepeatsId, NoRepeats, Apply, ReplayFrom;
      NoRepeatSnoc(ops);
      CoherentIff(init);
      if Coherent(Reconstruct(init)) {
        ApplyCoherentIff(Reconstruct(init), last);
      }
    }
  }

  ghost predicate NoRepeats(ops: seq<Operation>) {
    forall i :: 0 <= i < |ops| ==> !RepeatsId(ops[i])
  }

  lemma NoRepeatSnoc(ops: seq<Operation>)
    requires ops != []
    ensures NoRepeats(ops) <==> NoRepeats(ops[..|ops| - 1]) && !RepeatsId(ops[|ops| - 1])
  {
  }

  // Coherent at every version up to this one.
  ghost predicate CoherentThroughout(ops: seq<Operation>) {
    Coherent(Reconstruct(ops)) && (ops != [] ==> CoherentThroughout(ops[..|ops| - 1]))
  }

  lemma DrawnIds(st: State)
    requires Coherent(st)
    ensures Ids(Drawn(st)) == st.order
    ensures DistinctIds(Drawn(st))
  {
    assert forall i :: 0 <= i < |st.order| ==> Drawn(st)[i].id == st.order[i];
  }

  lemma DrawnCons(objects: map<string, Stroke>, x: string, rest: seq<string>)
    requires x in objects && forall y :: y in rest ==> y in objects
    ensures forall y :: y in [x] + rest ==> y in objects
    ensures Drawn(State(objects, [x] + rest)) == [objects[x]] + Drawn(State(objects, rest))
  {
  }

  // Dropping the first z-order entry of an id is dropping the stroke with that id.
  lemma {:induction false} DrawnWithout(objects: map<string, Stroke>, order: seq<string>, id: string)
    requires NoDup(order)
    requires forall x :: x in order ==> x in objects && objects[x].id == x
    ensures forall x :: x in RemoveFirst(order, id) ==> x in objects
    ensures Drawn(State(objects, RemoveFirst(order, id))) == Without(Drawn(State(objects, order)), {id})
  {
    RemoveFirstMembers(order, id);
    if order != [] {
      var x, rest := order[0], order[1..];
      assert order == [x] + rest;
      NoDupCons(x, rest);
      DrawnCons(objects, x, rest);
      DrawnWithout(objects, rest, id);
      var tail := Drawn(State(objects, rest));
      assert Drawn(State(objects, order)) == [objects[x]] + tail;
      assert ([objects[x]] + tail)[1..] == tail;
      if x == id {
        WithoutAbsent(tail, {id});
      } else {
        RemoveFirstMembers(rest, id);
        DrawnCons(objects, x, RemoveFirst(rest, id));
      }
    }
  }

  lemma CreatePaints(st: State, s: Stroke)
    requires Coherent(st)
    ensures Coherent(Apply(st, CreateStroke(s)))
    ensures Drawn(Apply(st, CreateStroke(s))) == Without(Drawn(st), {s.id}) + [s]
  {
    ApplyCoherentIff(st, CreateStroke(s));
    DrawnWithout(st.objects, st.order, s.id);
    RemoveFirstMembers(st.order, s.id);
    if s.id !in st.objects {
      RemoveAbsent(st.order, s.id);
    }
  }

  lemma DeletePaints(st: State, id: string)
    requires Coherent(st)
    ensures Coherent(Apply(st, DeleteObject(id)))
    ensures Drawn(Apply(st, DeleteObject(id))) == Without(Drawn(st), {id})
  {
    ApplyCoherentIff(st, DeleteObject(id));
    hide Without;
    DrawnWithout(st.objects, st.order, id);
    RemoveFirstMembers(st.order, id);
    if id in st.objects {
    } else {
      RemoveAbsent(st.order, id);
    }
  }

  // The map-and-order structure is a faithful implementation of the plain list of strokes.
  lemma ApplyPaints(st: State, op: Operation)
    requires Coherent(st) && !RepeatsId(op)
    ensures Coherent(Apply(st, op))
    ensures Drawn(Apply(st, op)) == Paint(Drawn(st), op)
  {
    ApplyCoherentIff(st, op);
    match op
    case CreateStroke(s) => CreatePaints(st, s);
    case DeleteObject(id) => DeletePaints(st, id);
    case ClearCanvas =>
    case MoveObject(id, dx, dy) =>
    case ResizeObject(id, anchor, sx, sy) =>
    case RestoreVersion(_, objects) => FileAllFinds(objects);
  }

  lemma {:induction false} ReplayFromPaints(st: State, ops: seq<Operation>)
    requires Coherent(st)
    requires NoRepeats(ops)
    ensures Coherent(ReplayFrom(st, ops))
    ensures Drawn(ReplayFrom(st, ops)) == PaintAll(Drawn(st), ops)
  {
    if ops != [] {
      var init := ops[..|ops| - 1];
      ReplayFromPaints(st, init);
      ApplyPaints(ReplayFrom(st, init), ops[|ops| - 1]);
    }
  }

  lemma {:induction false} ReplayFromAppend(st: State, a: seq<Operation>, b: seq<Operation>)
    ensures ReplayFrom(st, a + b) == ReplayFrom(ReplayFrom(st, a), b)
  {
    if b == [] {
      assert a + b == a;
    } else {
      var n := |b| - 1;
      ReplayFromAppend(st, a, b[..n]);
      assert (a + b)[..|a + b| - 1] == a + b[..n];
      assert (a + b)[|a + b| - 1] == b[n];
    }
  }

  lemma {:induction false} PaintAllAppend(s: seq<Stroke>, a: seq<Operation>, b: seq<Operation>)
    ensures PaintAll(s, a + b) == PaintAll(PaintAll(s, a), b)
  {
    if b == [] {
      assert a + b == a;
    } else {
      var n := |b| - 1;
      PaintAllAppend(s, a, b[..n]);
      assert (a + b)[..|a + b| - 1] == a + b[..n];
      assert (a + b)[|a + b| - 1] == b[n];
    }
  }

  // ---- creating and deleting several strokes ----

  function Creates(strokes: seq<Stroke>): seq<Operation> {
    seq(|strokes|, i requires 0 <= i < |strokes| => CreateStroke(strokes[i]))
  }

  lemma {:induction false} CreatesPaint(base: seq<Stroke>, strokes: seq<Stroke>)
    requires DistinctIds(base + strokes)
    ensures PaintAll(base, Creates(strokes)) == base + strokes
  {
    if strokes != [] {
      var init, last := strokes[..|strokes| - 1], strokes[|strokes| - 1];
      assert base + strokes == (base + init) + [last];
      LastIsNew(base + init, last);
      CreatesPaint(base, init);
      assert Creates(strokes)[..|strokes| - 1] == Creates(init);
      WithoutAbsent(base + init, {last.id});
    }
  }

  lemma LastIsNew(init: seq<Stroke>, last: Stroke)
    requires DistinctIds(init + [last])
    ensures DistinctIds(init)
    ensures forall s :: s in init ==> s.id != last.id
  {
    var all := init + [last];
    forall i | 0 <= i < |init| ensures init[i].id != last.id {
      assert Ids(all)[i] != Ids(all)[|init|];
    }
    assert forall i :: 0 <= i < |init| ==> Ids(init)[i] == Ids(all)[i];
  }

  function Deletes(ids: seq<string>): seq<Operation> {
    seq(|ids|, i requires 0 <= i < |ids| => DeleteObject(ids[i]))
  }

  lemma {:induction false} DeletesPaint(base: seq<Stroke>, ids: seq<string>)
    ensures PaintAll(base, Deletes(ids)) == Without(base, Elems(ids))
  {
    if ids == [] {
      WithoutAbsent(base, Elems(ids));
    } else {
      var init, last := ids[..|ids| - 1], ids[|ids| - 1];
      DeletesPaint(base, init);
      assert Deletes(ids)[..|ids| - 1] == Deletes(init);
      WithoutTwice(base, Elems(init), {last});
      assert Elems(ids) == Elems(init) + {last};
    }
  }

  // ---- the builder that mutates its state ----

  class ReconstructedState {
    var objects: map<string, Stroke>
    var order: seq<string>

    ghost function Value(): State
      reads this
    {
      State(objects, order)
    }

    constructor ()
      ensures Value() == EMPTY
    {
      objects, order := map[], [];
    }

    method ApplyInPlace(op: Operation)
      requires Filed(Value())
      modifies this
      ensures Filed(Value())
      ensures Value() == Apply(old(Value()), op)
    {
      ApplyKeepsFiled(Value(), op);
      match op
      case CreateStroke(s) =>
        if s.id in objects {
          assert s.id in order;
          order := RemoveFirst(order, s.id);
        }
        objects := objects[s.id := s];
        order := order + [s.id];
      case DeleteObject(id) =>
        objects := objects - {id};
        if id in order {
          order := RemoveFirst(order, id);
        } else {
          RemoveAbsent(order, id);
        }
      case ClearCanvas =>
        objects := map[];
        order := [];
      case MoveObject(id, dx, dy) =>
        if id !in objects {
          return;
        }
        var existing := objects[id];
        objects := objects[existing.id := Moved(existing, dx, dy)];
      case ResizeObject(id, anchor, sx, sy) =>
        if id !in objects {
          return;
        }
        var existing := objects[id];
        objects := objects[existing.id := Resized(existing, anchor, sx, sy)];
      case RestoreVersion(_, restored) =>
        objects := map[];
        order := [];
        for i := 0 to |restored|
          invariant objects == FileAll(restored[..i])
          invariant order == Ids(restored[..i])
        {
          assert restored[..i + 1] == restored[..i] + [restored[i]];
          objects := objects[restored[i].id := restored[i]];
          order := order + [restored[i].id];
        }
        assert restored[..|restored|] == restored;
    }
  }

  lemma {:induction false} RemoveAbsent(order: seq<string>, id: string)
    requires id !in order
    ensures RemoveFirst(order, id) == order
  {
    if order != [] {
      RemoveAbsent(order[1..], id);
    }
  }

  // A fresh structure is built; the starting one is left alone.
  method ReplayOnto(ops: seq<Operation>, start: ReconstructedState) returns (state: ReconstructedState)
    requires Filed(start.Value())
    ensures fresh(state) && Filed(state.Value())
    ensures state.Value() == ReplayFrom(old(start.Value()), ops)
    ensures start.Value() == old(start.Value())
  {
    state := new ReconstructedState();
    state.objects := start.objects;
    state.order := start.order;
    for i := 0 to |ops|
      invariant Filed(state.Value())
      invariant state.Value() == ReplayFrom(start.Value(), ops[..i])
    {
      assert ops[..i + 1][..i] == ops[..i];
      state.ApplyInPlace(ops[i]);
    }
    assert ops[..|ops|] == ops;
  }
}
