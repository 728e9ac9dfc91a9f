// Restoring a board to an earlier version: a snapshot taken before the lock, submitted as one more operation.
module Restore {
  import opened Prelude
  import opened Drawing
  import opened Replay
  import opened Validator
  import opened Ledger

  // The objects in z-order; None stands for the KeyError on an order entry without an object.
  function Snapshot(st: State): Option<seq<Stroke>> {
    if forall id :: id in st.order ==> id in st.objects then Some(Drawn(st)) else None
  }

  // Applying a snapshot, to whatever board, gives back the very state it was taken from:
  // same objects and same z-order, even where the z-order repeats an id.
  lemma SnapshotIsExact(st: State, current: State, target: int)
    requires Filed(st) && Snapshot(st).Some?
    ensures Apply(current, RestoreVersion(target, Snapshot(st).value)) == st
  {
    var objects := Snapshot(st).value;
    assert Ids(objects) == st.order by {
      assert forall i :: 0 <= i < |objects| ==> st.order[i] in st.order && objects[i].id == st.order[i];
    }
    FileAllLooksUp(objects);
    var filed := FileAll(objects);
    assert filed.Keys == st.objects.Keys;
    forall id | id in filed ensures filed[id] == st.objects[id] {
      var i :| 0 <= i < |objects| && objects[i] == filed[id];
      assert st.order[i] in st.order;
    }
    assert filed == st.objects;
  }

  // A snapshot of a ledger whose restore payloads name each object once never fails.
  lemma SnapshotSucceeds(ops: seq<Operation>)
    requires NoRepeats(ops)
    ensures Snapshot(Reconstruct(ops)).Some?
  {
    CoherentIff(ops);
  }

  // How often an id is listed.
  function Count(ids: seq<string>, x: string): nat {
    if ids == [] then 0 else (if ids[0] == x then 1 else 0) + Count(ids[1..], x)
  }

  // What one operation does to whether the object x is there, and to the number of z-order places it
  // holds: a restore gives it one per mention, a delete takes one, a create of an absent object adds one.
  function PresentAfter(op: Operation, present: bool, x: string): bool {
    match op
    case CreateStroke(s) => s.id == x || present
    case DeleteObject(id) => id != x && present
    case ClearCanvas => false
    case RestoreVersion(_, objects) => x in Ids(objects)
    case _ => present
  }

  function PlacesAfter(op: Operation, present: bool, places: nat, x: string): nat {
    match op
    case CreateStroke(s) => if s.id == x && !present then places + 1 else places
    case DeleteObject(id) => if id == x && places > 0 then places - 1 else places
    case ClearCanvas => 0
    case RestoreVersion(_, objects) => Count(Ids(objects), x)
    case _ => places
  }

  // Both read off the ledger alone, without replaying it.
  function Present(ops: seq<Operation>, x: string): bool {
    if ops == [] then false else PresentAfter(ops[|ops| - 1], Present(ops[..|ops| - 1], x), x)
  }

  function Places(ops: seq<Operation>, x: string): nat {
    if ops == [] then 0
    else PlacesAfter(ops[|ops| - 1], Present(ops[..|ops| - 1], x), Places(ops[..|ops| - 1], x), x)
  }

  lemma {:induction false} CountAppend(a: seq<string>, b: seq<string>, x: string)
    ensures Count(a + b, x) == Count(a, x) + Count(b, x)
  {
    if a == [] {
      assert a + b == b;
    } else {
      CountAppend(a[1..], b, x);
      assert (a + b)[1..] == a[1..] + b && (a + b)[0] == a[0];
    }
  }

  lemma {:induction false} CountMembers(ids: seq<string>, x: string)
    ensures Count(ids, x) > 0 <==> x in ids
  {
    if ids != [] {
      CountMembers(ids[1..], x);
      assert ids == [ids[0]] + ids[1..];
    }
  }

  lemma {:induction false} CountRemoved(ids: seq<string>, y: string, x: string)
    ensures Count(RemoveFirst(ids, y), x) == if x == y && Count(ids, x) > 0 then Count(ids, x) - 1 else Count(ids, x)
  {
    if ids != [] && ids[0] != y {
      CountRemoved(ids[1..], y, x);
      var r := RemoveFirst(ids[1..], y);
      assert ([ids[0]] + r)[1..] == r;
    }
  }

  // They are what replay gives.
  lemma {:induction false} PlacesAreReplayed(ops: seq<Operation>, x: string)
    ensures Present(ops, x) <==> x in Reconstruct(ops).objects
    ensures Places(ops, x) == Count(Reconstruct(ops).order, x)
  {
    if ops != [] {
      var init := ops[..|ops| - 1];
      PlacesAreReplayed(init, x);
      ReplayFiles(init);
      PlacesStep(Reconstruct(init), ops[|ops| - 1], x);
    }
  }

  lemma PlacesStep(st: State, op: Operation, x: string)
    requires Filed(st)
    ensures x in Apply(st, op).objects <==> PresentAfter(op, x in st.objects, x)
    ensures Count(Apply(st, op).order, x) == PlacesAfter(op, x in st.objects, Count(st.order, x), x)
  {
    match op
    case CreateStroke(s) =>
      CountAppend(if s.id in st.objects then RemoveFirst(st.order, s.id) else st.order, [s.id], x);
      CountRemoved(st.order, s.id, x);
      CountMembers(st.order, x);
    case DeleteObject(id) => CountRemoved(st.order, id, x);
    case RestoreVersion(_, objects) => FileAllLooksUp(objects);
    case _ =>
  }

  // Deleted while it held more than one place.
  predicate LeftBehind(ops: seq<Operation>, x: string) {
    !Present(ops, x) && Places(ops, x) > 0
  }

  lemma LeftBehindIff(ops: seq<Operation>, x: string)
    ensures LeftBehind(ops, x) <==> x in Reconstruct(ops).order && x !in Reconstruct(ops).objects
  {
    PlacesAreReplayed(ops, x);
    CountMembers(Reconstruct(ops).order, x);
  }

  // A snapshot of a version fails exactly when some object was left behind in the order.
  lemma SnapshotFailsIff(ops: seq<Operation>)
    ensures Snapshot(Reconstruct(ops)).None? <==> exists x :: LeftBehind(ops, x)
  {
    forall x: string ensures LeftBehind(ops, x) <==> x in Reconstruct(ops).order && x !in Reconstruct(ops).objects {
      LeftBehindIff(ops, x);
    }
  }

  // The validator lets a restore payload name an object twice; deleting that object then leaves a
  // z-order entry behind, and that version cannot be snapshotted.
  lemma RepeatedIdBreaksSnapshot(s: Stroke)
    requires GoodStroke(s)
    ensures var twice, gone := RestoreVersion(0, [s, s]), DeleteObject(s.id);
      && CheckPayload(twice).None? && CheckPayload(gone).None?
      && Snapshot(Reconstruct([twice])) == Some([s, s])
      && Snapshot(Reconstruct([twice, gone])).None?
  {
    var twice, gone := RestoreVersion(0, [s, s]), DeleteObject(s.id);
    CheckStrokesIff([s, s]);
    assert [twice][..0] == [] && [twice, gone][..1] == [twice];
    assert FileAll([s]) == map[s.id := s] by {
      assert [s][..0] == [];
    }
    assert [s, s][..1] == [s];
    assert Ids([s, s]) == [s.id, s.id];
    var st := Reconstruct([twice]);
    assert st == State(map[s.id := s], [s.id, s.id]);
    assert Drawn(st) == [s, s];
    assert RemoveFirst(st.order, s.id) == [s.id];
    assert Reconstruct([twice, gone]).order == [s.id];
  }

  // A snapshot of validated content passes the validator, unless it holds too many objects.
  lemma SnapshotIsValid(ops: seq<Operation>, target: int)
    requires target >= 0
    requires forall i :: 0 <= i < |ops| ==> CheckPayload(ops[i]).None?
    requires Snapshot(Reconstruct(ops)).Some?
    ensures var objects := Snapshot(Reconstruct(ops)).value;
      CheckPayload(RestoreVersion(target, objects)) == if |objects| > MAX_RESTORE_OBJECTS then Some(TooLarge) else None
  {
    ReplayKeepsGood(ops);
    var objects := Snapshot(Reconstruct(ops)).value;
    CheckStrokesIff(objects);
  }

  lemma RestoreOpIs(operationId: string, base: int, target: int, objects: seq<Stroke>, measure: Measure)
    requires operationId != "" && base >= 0
    requires CheckPayload(RestoreVersion(target, objects)) in {None, Some(TooLarge)}
    ensures FirstInvalid([RestoreEnvelope(operationId, base, target, objects)], measure) in {None, Some(TooLarge)}
  {
    hide CheckPayload;
    var e := RestoreEnvelope(operationId, base, target, objects);
    assert [e][1..] == [];
    assert Validate(e, measure) in {None, Some(TooLarge)};
  }

  // So a restore of a version of a validated ledger can only be refused for size or object count, for
  // a stale base, or because the board is archived.
  lemma RestoreRefusals(rows: seq<Row>, target: int, b: Board, operationId: string, base: int, measure: Measure, error: Error)
    requires 0 <= target <= |rows| && ValidRows(rows) && Snapshot(StateAt(rows, target)).Some?
    requires operationId != "" && base >= 0
    requires RefusedWith(b, [RestoreEnvelope(operationId, base, target, Snapshot(StateAt(rows, target)).value)], measure, error)
    ensures error == TooLarge || error == ReadOnly || error.Stale?
  {
    var ops := Ops(rows[..target]);
    forall i | 0 <= i < |ops| ensures CheckPayload(ops[i]).None? {
      assert rows[i] in rows;
    }
    SnapshotIsValid(ops, target);
    hide ValidRows, CheckPayload, Snapshot;
    RestoreOpIs(operationId, base, target, Snapshot(StateAt(rows, target)).value, measure);
  }

  // ---- the service ----

  function RestoreEnvelope(operationId: string, base: int, target: int, objects: seq<Stroke>): Envelope {
    Envelope(operationId, base, RestoreVersion(target, objects), None)
  }

  // `seenVersion` is the version of the caller's copy of the board; `others` is whatever other
  // requests do between the snapshot and the lock.
  method RestoreBoard(board: Whiteboard, seenVersion: int, actor: string, operationId: string, base: int, target: int,
                      others: seq<Event>, measure: Measure)
    returns (r: Result<SubmitResult, Error>)
    requires board.Valid() && seenVersion <= board.version
    modifies board
    ensures board.Valid()
    ensures !(0 <= target <= seenVersion) ==> r == Err(InvalidOperation) && board.Value() == old(board.Value())
    ensures 0 <= target <= seenVersion ==>
      var snapshot := Snapshot(StateAt(old(board.rows), target));
      if snapshot.None? then r == Err(ServerError) && board.Value() == old(board.Value())
      else
        var mid, e := PerformAll(old(board.Value()), others, measure), RestoreEnvelope(operationId, base, target, snapshot.value);
        && board.Value() == Submitted(mid, actor, [e], measure)
        && (r.Ok? <==> Accepts(mid, [e], measure))
        && (r.Ok? ==> AcknowledgedBy(r.value, [e], mid.rows, board.rows))
        && (r.Err? ==> RefusedWith(mid, [e], measure, r.error))
  {
    if target < 0 {
      return Err(InvalidOperation);
    }
    if target > seenVersion {
      return Err(InvalidOperation);
    }
    var snapshot := Snapshot(StateAt(board.rows, target));
    if snapshot.None? {
      return Err(ServerError);
    }
    PerformEvents(board, others, measure);
    r := board.SubmitBatch(actor, [RestoreEnvelope(operationId, base, target, snapshot.value)], measure);
  }

  // ---- any number of restores in flight among any other requests ----

  datatype Draft = Draft(actor: string, operationId: string, base: int, target: int, objects: seq<Stroke>)

  datatype World = World(board: Board, drafts: seq<Draft>)

  datatype Action =
    | Other(event: Event)
    | BeginRestore(actor: string, operationId: string, base: int, target: int, seenVersion: int)
    | FinishRestore(k: nat)

  const NEW_BOARD := World(Board(0, false, []), [])

  ghost function Act(w: World, a: Action, measure: Measure): World {
    match a
    case Other(e) => w.(board := Perform(w.board, e, measure))
    case BeginRestore(actor, operationId, base, target, seenVersion) =>
      if 0 <= target <= seenVersion <= |w.board.rows| then
        var snapshot := Snapshot(StateAt(w.board.rows, target));
        if snapshot.None? then w
        else w.(drafts := w.drafts + [Draft(actor, operationId, base, target, snapshot.value)])
      else w
    case FinishRestore(k) =>
      if k < |w.drafts| then
        var d := w.drafts[k];
        w.(board := Submitted(w.board, d.actor, [RestoreEnvelope(d.operationId, d.base, d.target, d.objects)], measure))
      else w
  }

  ghost function ActAll(actions: seq<Action>, measure: Measure): World {
    if actions == [] then NEW_BOARD
    else Act(ActAll(actions[..|actions| - 1], measure), actions[|actions| - 1], measure)
  }

  // A draft still describes the state it was taken from, however far the board has moved on.
  ghost predicate DraftRight(rows: seq<Row>, d: Draft) {
    0 <= d.target <= |rows| && Snapshot(StateAt(rows, d.target)) == Some(d.objects)
  }

  ghost predicate Sound(w: World) {
    && WellFormed(w.board)
    && ValidRows(w.board.rows)
    && forall d :: d in w.drafts ==> DraftRight(w.board.rows, d)
  }

  lemma ActKeepsBoard(w: World, a: Action, measure: Measure)
    requires WellFormed(w.board)
    ensures WellFormed(Act(w, a, measure).board)
    ensures w.board.rows <= Act(w, a, measure).board.rows
    ensures ValidRows(w.board.rows) ==> ValidRows(Act(w, a, measure).board.rows)
  {
    match a
    case Other(e) => PerformKeeps(w.board, e, measure);
    case BeginRestore(_, _, _, _, _) =>
    case FinishRestore(k) =>
      if k < |w.drafts| {
        var d := w.drafts[k];
        PerformKeeps(w.board, Submit(d.actor, [RestoreEnvelope(d.operationId, d.base, d.target, d.objects)]), measure);
      }
  }

  lemma ActKeepsSound(w: World, a: Action, measure: Measure)
    requires Sound(w)
    ensures Sound(Act(w, a, measure))
  {
    ActKeepsBoard(w, a, measure);
    var w' := Act(w, a, measure);
    forall d | d in w.drafts ensures DraftRight(w'.board.rows, d) {
      PastIsFixed(w.board.rows, w'.board.rows, d.target);
    }
  }

  // Ledger shape under any clients: in every run the sequences are gapless, ids unique, rows valid.
  lemma {:induction false} EveryRunIsSound(actions: seq<Action>, measure: Measure)
    ensures Sound(ActAll(actions, measure))
  {
    if actions != [] {
      EveryRunIsSound(actions[..|actions| - 1], measure);
      ActKeepsSound(ActAll(actions[..|actions| - 1], measure), actions[|actions| - 1], measure);
    }
  }

  // History is never rewritten: what a later run sees at an earlier sequence is what was there.
  lemma {:induction false} HistoryIsAppendOnly(actions: seq<Action>, more: seq<Action>, measure: Measure)
    ensures ActAll(actions, measure).board.rows <= ActAll(actions + more, measure).board.rows
    ensures forall s :: 0 <= s <= |ActAll(actions, measure).board.rows| ==>
      StateAt(ActAll(actions + more, measure).board.rows, s) == StateAt(ActAll(actions, measure).board.rows, s)
  {
    var before := ActAll(actions, measure).board.rows;
    if more == [] {
      assert actions + more == actions;
    } else {
      var n := |more| - 1;
      HistoryIsAppendOnly(actions, more[..n], measure);
      assert (actions + more)[..|actions + more| - 1] == actions + more[..n];
      EveryRunIsSound(actions + more[..n], measure);
      ActKeepsBoard(ActAll(actions + more[..n], measure), more[n], measure);
    }
    var after := ActAll(actions + more, measure).board.rows;
    forall s | 0 <= s <= |before| ensures StateAt(after, s) == StateAt(before, s) {
      PastIsFixed(before, after, s);
    }
  }

  // In every interleaving: when a restore to `target` commits as a new row, replaying up to that
  // row gives exactly what replaying up to `target` gives.
  lemma RestoreIsRight(actions: seq<Action>, k: nat, measure: Measure)
    requires k < |ActAll(actions, measure).drafts|
    ensures var w, w' := ActAll(actions, measure), Act(ActAll(actions, measure), FinishRestore(k), measure);
      var target := w.drafts[k].target;
      && 0 <= target <= |w.board.rows|
      && (w'.board.rows != w.board.rows ==>
        |w'.board.rows| == |w.board.rows| + 1
        && StateAt(w'.board.rows, |w'.board.rows|) == StateAt(w'.board.rows, target))
  {
    EveryRunIsSound(actions, measure);
    var w := ActAll(actions, measure);
    var d := w.drafts[k];
    assert DraftRight(w.board.rows, d);
    hide ActAll, WellFormed, Accepts, Snapshot, Coherent;
    RestoreCommits(w.board, d, measure);
  }

  // Submitting a draft that is still right: if it adds a row, that row brings back its target.
  lemma RestoreCommits(b: Board, d: Draft, measure: Measure)
    requires WellFormed(b) && DraftRight(b.rows, d)
    ensures var rows := Submitted(b, d.actor, [RestoreEnvelope(d.operationId, d.base, d.target, d.objects)], measure).rows;
      && d.target <= |rows|
      && (rows != b.rows ==> |rows| == |b.rows| + 1 && StateAt(rows, |rows|) == StateAt(rows, d.target))
  {
    var e := RestoreEnvelope(d.operationId, d.base, d.target, d.objects);
    hide Submitted, WellFormed, StateAt;
    OneSubmitted(b, d.actor, e, measure);
    if Submitted(b, d.actor, [e], measure).rows != b.rows {
      RestoreRow(b.rows, Row(e.operationId, b.version + 1, d.actor, e.op, e.baseVersion, b.version + 1), d);
    }
  }

  lemma RestoreRow(before: seq<Row>, row: Row, d: Draft)
    requires DraftRight(before, d) && row.op == RestoreVersion(d.target, d.objects)
    ensures StateAt(before + [row], |before| + 1) == StateAt(before + [row], d.target)
  {
    hide Snapshot;
    PastIsFixed(before, before + [row], d.target);
    ReplayFiles(Ops(before[..d.target]));
    SnapshotIsExact(StateAt(before, d.target), StateAt(before, |before|), d.target);
  }

}
