// The append-only operation ledger of one whiteboard and its only write path.
module Ledger {
  import opened Prelude
  import opened Drawing
  import opened Replay
  import opened Validator

  datatype Envelope = Envelope(operationId: string, baseVersion: int, op: Operation, wireBytes: Option<nat>)

  datatype Row = Row(
    operationId: string, sequence: int, actor: string, op: Operation,
    baseVersion: int, resultingVersion: int)

  datatype Board = Board(version: int, archived: bool, rows: seq<Row>)

  datatype Ack = Ack(operationId: string, sequence: int, resultingVersion: int, duplicate: bool)

  datatype SubmitResult = SubmitResult(acks: seq<Ack>, applied: nat) {
    function Version(): int {
      if acks == [] then 0 else acks[|acks| - 1].resultingVersion
    }
  }

  // ---- reading the ledger ----

  function RowIds(rows: seq<Row>): set<string> {
    if rows == [] then {} else RowIds(rows[..|rows| - 1]) + {rows[|rows| - 1].operationId}
  }

  function EnvelopeIds(ops: seq<Envelope>): set<string> {
    if ops == [] then {} else EnvelopeIds(ops[..|ops| - 1]) + {ops[|ops| - 1].operationId}
  }

  function Ops(rows: seq<Row>): seq<Operation> {
    seq(|rows|, i requires 0 <= i < |rows| => rows[i].op)
  }

  function StateAt(rows: seq<Row>, sequence: int): State
    requires 0 <= sequence <= |rows|
  {
    Reconstruct(Ops(rows[..sequence]))
  }

  // The state at a sequence comes from the empty board by the operations up to it, one by one.
  lemma StateSteps(rows: seq<Row>, sequence: int)
    requires 0 <= sequence <= |rows|
    ensures StateAt(rows, 0) == EMPTY
    ensures sequence > 0 ==> StateAt(rows, sequence) == Apply(StateAt(rows, sequence - 1), rows[sequence - 1].op)
  {
    if sequence > 0 {
      var ops := Ops(rows[..sequence]);
      assert ops[..sequence - 1] == Ops(rows[..sequence - 1]);
    }
  }

  function FindRow(rows: seq<Row>, id: string): (r: Option<Row>)
    ensures r.Some? <==> id in RowIds(rows)
    ensures r.Some? ==> r.value in rows && r.value.operationId == id
  {
    if rows == [] then None
    else
      var init, last := rows[..|rows| - 1], rows[|rows| - 1];
      var earlier := FindRow(init, id);
      if earlier.Some? then earlier
      else if last.operationId == id then Some(last)
      else None
  }

  // Sequences run 1, 2, 3, ... with no gap, each row builds on the one before it,
  // no operation id occurs twice, and the board's version is the last sequence.
  ghost predicate WellFormed(b: Board) {
    b.version == |b.rows| && Tidy(b.rows)
  }

  ghost predicate Tidy(rows: seq<Row>) {
    && (forall i :: 0 <= i < |rows| ==> rows[i].sequence == i + 1)
    && (forall i :: 0 <= i < |rows| ==> rows[i].baseVersion == i)
    && (forall i :: 0 <= i < |rows| ==> rows[i].resultingVersion == i + 1)
    && (forall i, j :: 0 <= i < j < |rows| ==> rows[i].operationId != rows[j].operationId)
  }

  // ---- what a submit means ----

  function Validate(e: Envelope, measure: Measure): Option<Error> {
    if e.wireBytes.Some? && e.wireBytes.value > PayloadCap(e.op) then Some(TooLarge)
    else if e.operationId == "" then Some(InvalidPayload)
    else if e.baseVersion < 0 then Some(InvalidPayload)
    else if measure(e.op) > PayloadCap(e.op) then Some(TooLarge)
    else CheckPayload(e.op)
  }

  // An operation passes with an id, a base version that can exist, a payload that passes, and neither
  // its size on the wire nor that of its payload over the cap for its type.
  lemma OperationPassesIff(e: Envelope, measure: Measure)
    ensures Validate(e, measure).None? <==>
      && |e.operationId| > 0 && 0 <= e.baseVersion && CheckPayload(e.op).None?
      && measure(e.op) <= PayloadCap(e.op) && (e.wireBytes.Some? ==> e.wireBytes.value <= PayloadCap(e.op))
    ensures Validate(e, measure) == Some(TooLarge) <==>
      || (e.wireBytes.Some? && e.wireBytes.value > PayloadCap(e.op))
      || (|e.operationId| > 0 && 0 <= e.baseVersion && (measure(e.op) > PayloadCap(e.op) || CheckPayload(e.op) == Some(TooLarge)))
  {
  }

  function FirstInvalid(ops: seq<Envelope>, measure: Measure): Option<Error> {
    if ops == [] then None
    else if Validate(ops[0], measure).Some? then Validate(ops[0], measure)
    else FirstInvalid(ops[1..], measure)
  }

  // The envelopes whose id is not in `seen` and did not occur earlier in the batch.
  function Novel(ops: seq<Envelope>, seen: set<string>): seq<Envelope> {
    if ops == [] then []
    else
      var init, last := ops[..|ops| - 1], ops[|ops| - 1];
      if last.operationId in seen + EnvelopeIds(init) then Novel(init, seen)
      else Novel(init, seen) + [last]
  }

  // The n-th identifier a generator hands out.
  type Uuids = nat -> string

  // Each operation was made against the version its predecessor produces.
  ghost predicate Chained(ops: seq<Envelope>, version: int) {
    forall i :: 0 <= i < |ops| ==> ops[i].baseVersion == version + i
  }

  function Numbered(ops: seq<Envelope>, actor: string, version: int): seq<Row> {
    seq(|ops|, i requires 0 <= i < |ops| =>
      Row(ops[i].operationId, version + i + 1, actor, ops[i].op, ops[i].baseVersion, version + i + 1))
  }

  function Append(b: Board, actor: string, ops: seq<Envelope>): Board {
    var novel := Novel(ops, RowIds(b.rows));
    b.(version := b.version + |novel|, rows := b.rows + Numbered(novel, actor, b.version))
  }

  ghost predicate Accepts(b: Board, ops: seq<Envelope>, measure: Measure) {
    && ops != []
    && FirstInvalid(ops, measure).None?
    && !b.archived
    && Chained(Novel(ops, RowIds(b.rows)), b.version)
  }

  ghost function Submitted(b: Board, actor: string, ops: seq<Envelope>, measure: Measure): Board {
    if Accepts(b, ops, measure) then Append(b, actor, ops) else b
  }

  // One ack per distinct operation id of the batch, in order: the row that carries the id once
  // the batch is in, marked as a duplicate exactly when it was there before.
  function AcksOf(distinct: seq<Envelope>, before: seq<Row>, after: seq<Row>): seq<Ack>
    requires EnvelopeIds(distinct) <= RowIds(after)
  {
    seq(|distinct|, i requires 0 <= i < |distinct| =>
      EnvelopeIdsHave(distinct, i);
      var row := FindRow(after, distinct[i].operationId).value;
      Ack(row.operationId, row.sequence, row.resultingVersion, row.operationId in RowIds(before)))
  }

  ghost predicate AcknowledgedBy(res: SubmitResult, ops: seq<Envelope>, before: seq<Row>, after: seq<Row>) {
    var distinct := Novel(ops, {});
    && EnvelopeIds(distinct) <= RowIds(after)
    && res.acks == AcksOf(distinct, before, after)
    && res.applied == |after| - |before|
  }

  ghost predicate Reports(a: Ack, rows: seq<Row>) {
    exists r :: r in rows && r.operationId == a.operationId && r.sequence == a.sequence && r.resultingVersion == a.resultingVersion
  }

  // Every id of the batch has one ack: the sequence and version of the row that carries it, and
  // whether that row was there before.
  lemma AcksTell(res: SubmitResult, ops: seq<Envelope>, before: seq<Row>, after: seq<Row>)
    requires AcknowledgedBy(res, ops, before, after)
    ensures forall e :: e in ops ==> exists i :: 0 <= i < |res.acks| && res.acks[i].operationId == e.operationId
    ensures forall i, j :: 0 <= i < j < |res.acks| ==> res.acks[i].operationId != res.acks[j].operationId
    ensures forall i :: 0 <= i < |res.acks| ==>
      && Reports(res.acks[i], after)
      && (res.acks[i].duplicate <==> exists r :: r in before && r.operationId == res.acks[i].operationId)
  {
    var distinct := Novel(ops, {});
    NovelDistinct(ops, {});
    NovelIds(ops, {});
    hide Novel, RowIds, FindRow;
    forall e | e in ops ensures exists i :: 0 <= i < |res.acks| && res.acks[i].operationId == e.operationId {
      var k :| 0 <= k < |ops| && ops[k] == e;
      EnvelopeIdsHave(ops, k);
      var i := PlaceOf(distinct, e.operationId);
      assert res.acks[i].operationId == e.operationId;
    }
    forall i | 0 <= i < |res.acks|
      ensures res.acks[i].operationId == distinct[i].operationId && Reports(res.acks[i], after)
      ensures res.acks[i].duplicate <==> exists r :: r in before && r.operationId == res.acks[i].operationId
    {
      EnvelopeIdsHave(distinct, i);
      var row := FindRow(after, distinct[i].operationId).value;
      assert row in after;
      CarriedBy(before, row.operationId);
    }
    assert |res.acks| == |distinct|;
  }

  lemma {:induction false} PlaceOf(ops: seq<Envelope>, id: string) returns (i: nat)
    requires id in EnvelopeIds(ops)
    ensures i < |ops| && ops[i].operationId == id
  {
    if ops[|ops| - 1].operationId == id {
      i := |ops| - 1;
    } else {
      i := PlaceOf(ops[..|ops| - 1], id);
    }
  }

  lemma {:induction false} CarriedBy(rows: seq<Row>, id: string)
    ensures id in RowIds(rows) <==> exists r :: r in rows && r.operationId == id
  {
    if rows != [] {
      var init, last := rows[..|rows| - 1], rows[|rows| - 1];
      CarriedBy(init, id);
      assert forall r :: r in rows <==> r in init || r == last;
    }
  }

  // Why a batch is refused: the first check that fails, in the order the service makes them.
  ghost predicate RefusedWith(b: Board, ops: seq<Envelope>, measure: Measure, e: Error) {
    if ops == [] then e == InvalidOperation
    else if FirstInvalid(ops, measure).Some? then e == FirstInvalid(ops, measure).value
    else if b.archived then e == ReadOnly
    else
      var novel := Novel(ops, RowIds(b.rows));
      exists i :: 0 <= i < |novel| && e == Stale(b.version + i, novel[i].baseVersion)
        && novel[i].baseVersion != b.version + i && Chained(novel[..i], b.version)
  }

  // The reason of a refusal: an empty batch; the first operation that does not pass; all pass but the
  // board is archived; or the first new operation whose base version breaks the chain.
  lemma RefusalIff(b: Board, ops: seq<Envelope>, measure: Measure, e: Error)
    ensures RefusedWith(b, ops, measure, e) <==>
      || (ops == [] && e == InvalidOperation)
      || HasFault(ops, measure, e)
      || (ops != [] && AllPass(ops, measure) && b.archived && e == ReadOnly)
      || (ops != [] && AllPass(ops, measure) && !b.archived && BreaksChain(Novel(ops, RowIds(b.rows)), b.version, e))
  {
    hide Validate, Novel, RowIds, Chained, HasFault, AllPass;
    FirstInvalidTells(ops, measure, e);
  }

  ghost predicate AllPass(ops: seq<Envelope>, measure: Measure) {
    forall i :: 0 <= i < |ops| ==> Validate(ops[i], measure).None?
  }

  ghost predicate BreaksChain(novel: seq<Envelope>, version: int, e: Error) {
    exists i :: 0 <= i < |novel| && e == Stale(version + i, novel[i].baseVersion)
      && novel[i].baseVersion != version + i && Chained(novel[..i], version)
  }

  ghost predicate FirstFault(ops: seq<Envelope>, k: int, measure: Measure, e: Error)
    requires 0 <= k < |ops|
  {
    Validate(ops[k], measure) == Some(e) && AllPass(ops[..k], measure)
  }

  lemma FaultComesFirst(ops: seq<Envelope>, k: int, measure: Measure, e: Error)
    requires 0 <= k < |ops| && FirstFault(ops, k, measure, e)
    ensures k == 0 || Validate(ops[0], measure).None?
  {
    hide Validate;
    if k > 0 {
      assert ops[..k][0] == ops[0];
    }
  }

  ghost predicate HasFault(ops: seq<Envelope>, measure: Measure, e: Error) {
    exists k :: 0 <= k < |ops| && FirstFault(ops, k, measure, e)
  }

  lemma HeadFaults(ops: seq<Envelope>, measure: Measure, e: Error)
    requires ops != [] && Validate(ops[0], measure).Some?
    ensures !AllPass(ops, measure) && (HasFault(ops, measure, e) <==> Validate(ops[0], measure) == Some(e))
  {
    hide Validate, FirstFault;
    if Validate(ops[0], measure) == Some(e) {
      OnlyHead(ops, measure, e);
    }
    if HasFault(ops, measure, e) {
      var k :| 0 <= k < |ops| && FirstFault(ops, k, measure, e);
      FaultComesFirst(ops, k, measure, e);
      FaultIs(ops, k, measure, e);
    }
  }

  lemma OnlyHead(ops: seq<Envelope>, measure: Measure, e: Error)
    requires ops != [] && Validate(ops[0], measure) == Some(e)
    ensures FirstFault(ops, 0, measure, e)
  {
    hide Validate;
  }

  lemma FaultIs(ops: seq<Envelope>, k: int, measure: Measure, e: Error)
    requires 0 <= k < |ops| && FirstFault(ops, k, measure, e)
    ensures Validate(ops[k], measure) == Some(e)
  {
    hide Validate;
  }

  lemma FaultShifts(ops: seq<Envelope>, k: int, measure: Measure, e: Error)
    requires ops != [] && Validate(ops[0], measure).None? && 0 <= k < |ops| - 1
    ensures FirstFault(ops, k + 1, measure, e) <==> FirstFault(ops[1..], k, measure, e)
  {
    hide Validate;
    var before, after := ops[1..][..k], ops[..k + 1];
    assert |before| == k && |after| == k + 1 && after[0] == ops[0] && ops[1..][k] == ops[k + 1];
    assert forall i :: 0 <= i < k ==> before[i] == after[i + 1];
    assert forall j :: 0 < j <= k ==> after[j] == before[j - 1];
  }

  lemma HeadPasses(ops: seq<Envelope>, measure: Measure, e: Error)
    requires ops != [] && Validate(ops[0], measure).None?
    ensures AllPass(ops, measure) <==> AllPass(ops[1..], measure)
    ensures HasFault(ops, measure, e) <==> HasFault(ops[1..], measure, e)
  {
    hide Validate;
    assert forall i :: 0 <= i < |ops| - 1 ==> ops[1..][i] == ops[i + 1];
    hide FirstFault;
    if HasFault(ops, measure, e) {
      var k :| 0 <= k < |ops| && FirstFault(ops, k, measure, e);
      FaultIs(ops, k, measure, e);
      FaultShifts(ops, k - 1, measure, e);
    }
    if HasFault(ops[1..], measure, e) {
      var k :| 0 <= k < |ops[1..]| && FirstFault(ops[1..], k, measure, e);
      FaultShifts(ops, k, measure, e);
    }
  }

  lemma {:induction false} FirstInvalidTells(ops: seq<Envelope>, measure: Measure, e: Error)
    ensures FirstInvalid(ops, measure).None? <==> AllPass(ops, measure)
    ensures FirstInvalid(ops, measure) == Some(e) <==> HasFault(ops, measure, e)
  {
    if ops != [] {
      hide Validate, AllPass, HasFault;
      FirstInvalidTells(ops[1..], measure, e);
      if Validate(ops[0], measure).Some? {
        HeadFaults(ops, measure, e);
      } else {
        HeadPasses(ops, measure, e);
      }
    }
  }

  // ---- lemmas about batches ----

  lemma {:induction false} EnvelopeIdsAppend(a: seq<Envelope>, b: seq<Envelope>)
    ensures EnvelopeIds(a + b) == EnvelopeIds(a) + EnvelopeIds(b)
  {
    if b == [] {
      assert a + b == a;
    } else {
      assert (a + b)[..|a + b| - 1] == a + b[..|b| - 1];
      EnvelopeIdsAppend(a, b[..|b| - 1]);
    }
  }

  lemma {:induction false} EnvelopeIdsHave(ops: seq<Envelope>, i: nat)
    requires i < |ops|
    ensures ops[i].operationId in EnvelopeIds(ops)
  {
    if i < |ops| - 1 {
      EnvelopeIdsHave(ops[..|ops| - 1], i);
    }
  }

  lemma {:induction false} RowIdsAppend(a: seq<Row>, b: seq<Row>)
    ensures RowIds(a + b) == RowIds(a) + RowIds(b)
  {
    if b == [] {
      assert a + b == a;
    } else {
      assert (a + b)[..|a + b| - 1] == a + b[..|b| - 1];
      RowIdsAppend(a, b[..|b| - 1]);
    }
  }

  lemma {:induction false} RowIdsHave(rows: seq<Row>, i: nat)
    requires i < |rows|
    ensures rows[i].operationId in RowIds(rows)
  {
    if i < |rows| - 1 {
      RowIdsHave(rows[..|rows| - 1], i);
    }
  }

  lemma {:induction false} NumberedIds(ops: seq<Envelope>, actor: string, version: int)
    ensures RowIds(Numbered(ops, actor, version)) == EnvelopeIds(ops)
  {
    if ops != [] {
      var init := ops[..|ops| - 1];
      NumberedIds(init, actor, version);
      assert Numbered(ops, actor, version)[..|ops| - 1] == Numbered(init, actor, version);
    }
  }

  lemma {:induction false} NovelIds(ops: seq<Envelope>, seen: set<string>)
    ensures EnvelopeIds(Novel(ops, seen)) == EnvelopeIds(ops) - seen
  {
    if ops != [] {
      var init, last := ops[..|ops| - 1], ops[|ops| - 1];
      NovelIds(init, seen);
      assert (Novel(init, seen) + [last])[..|Novel(init, seen)|] == Novel(init, seen);
    }
  }

  lemma {:induction false} NovelDistinct(ops: seq<Envelope>, seen: set<string>)
    ensures forall i, j :: 0 <= i < j < |Novel(ops, seen)| ==> Novel(ops, seen)[i].operationId != Novel(ops, seen)[j].operationId
  {
    if ops != [] {
      var init, last := ops[..|ops| - 1], ops[|ops| - 1];
      NovelDistinct(init, seen);
      NovelIds(init, seen);
      if last.operationId !in seen + EnvelopeIds(init) {
        var n := Novel(init, seen);
        forall i | 0 <= i < |n| ensures n[i].operationId != last.operationId {
          EnvelopeIdsHave(n, i);
        }
      }
    }
  }

  lemma {:induction false} NovelAppend(a: seq<Envelope>, b: seq<Envelope>, seen: set<string>)
    ensures Novel(a + b, seen) == Novel(a, seen) + Novel(b, seen + EnvelopeIds(a))
  {
    if b == [] {
      assert a + b == a;
    } else {
      var init, last := b[..|b| - 1], b[|b| - 1];
      NovelAppend(a, init, seen);
      assert (a + b)[..|a + b| - 1] == a + init;
      assert (a + b)[|a + b| - 1] == last;
      EnvelopeIdsAppend(a, init);
      assert seen + EnvelopeIds(a + init) == (seen + EnvelopeIds(a)) + EnvelopeIds(init);
    }
  }

  lemma OneNovel(e: Envelope, seen: set<string>)
    ensures Novel([e], seen) == if e.operationId in seen then [] else [e]
    ensures EnvelopeIds([e]) == {e.operationId}
  {
    assert [e][..0] == [];
  }

  ghost predicate FreshIds(all: seq<Envelope>, known: set<string>) {
    && (forall i :: 0 <= i < |all| ==> all[i].operationId !in known)
    && (forall i, j :: 0 <= i < j < |all| ==> all[i].operationId != all[j].operationId)
  }

  lemma FreshInit(ops: seq<Envelope>, seen: set<string>)
    requires ops != [] && FreshIds(ops, seen)
    ensures FreshIds(ops[..|ops| - 1], seen)
    ensures ops[|ops| - 1].operationId !in seen
    ensures ops[|ops| - 1].operationId !in EnvelopeIds(ops[..|ops| - 1])
  {
    NotAmong(ops[..|ops| - 1], ops[|ops| - 1].operationId);
  }

  lemma {:induction false} NotAmong(ops: seq<Envelope>, id: string)
    requires forall i :: 0 <= i < |ops| ==> ops[i].operationId != id
    ensures id !in EnvelopeIds(ops)
  {
    if ops != [] {
      NotAmong(ops[..|ops| - 1], id);
    }
  }

  lemma {:induction false} FreshAreNovel(ops: seq<Envelope>, seen: set<string>)
    requires FreshIds(ops, seen)
    ensures Novel(ops, seen) == ops
  {
    if ops != [] {
      FreshInit(ops, seen);
      FreshAreNovel(ops[..|ops| - 1], seen);
    }
  }

  lemma RowsHaveIds(rows: seq<Row>)
    ensures forall r :: r in rows ==> r.operationId in RowIds(rows)
  {
    forall r | r in rows ensures r.operationId in RowIds(rows) {
      var i :| 0 <= i < |rows| && rows[i] == r;
      RowIdsHave(rows, i);
    }
  }

  lemma TidyAppend(rows: seq<Row>, novel: seq<Envelope>, actor: string)
    requires Tidy(rows) && Chained(novel, |rows|)
    requires EnvelopeIds(novel) !! RowIds(rows)
    requires forall i, j :: 0 <= i < j < |novel| ==> novel[i].operationId != novel[j].operationId
    ensures Tidy(rows + Numbered(novel, actor, |rows|))
  {
    forall i | 0 <= i < |rows| ensures rows[i].operationId in RowIds(rows) {
      RowIdsHave(rows, i);
    }
    forall j | 0 <= j < |novel| ensures novel[j].operationId in EnvelopeIds(novel) {
      EnvelopeIdsHave(novel, j);
    }
  }

  lemma AppendWellFormed(b: Board, actor: string, ops: seq<Envelope>)
    requires WellFormed(b)
    requires Chained(Novel(ops, RowIds(b.rows)), b.version)
    ensures WellFormed(Append(b, actor, ops))
  {
    NovelDistinct(ops, RowIds(b.rows));
    NovelIds(ops, RowIds(b.rows));
    TidyAppend(b.rows, Novel(ops, RowIds(b.rows)), actor);
  }

  // A batch of one adds its own row exactly when it is accepted and its id unknown, and nothing else.
  lemma OneSubmitted(b: Board, actor: string, e: Envelope, measure: Measure)
    ensures Submitted(b, actor, [e], measure).rows ==
      if Accepts(b, [e], measure) && e.operationId !in RowIds(b.rows)
      then b.rows + [Row(e.operationId, b.version + 1, actor, e.op, e.baseVersion, b.version + 1)]
      else b.rows
  {
    hide FirstInvalid, RowIds;
    OneNovel(e, RowIds(b.rows));
    hide Novel;
    assert b.rows + Numbered([], actor, b.version) == b.rows;
  }

  lemma {:induction false} FirstInvalidIff(ops: seq<Envelope>, measure: Measure)
    ensures FirstInvalid(ops, measure).None? <==> forall e :: e in ops ==> Validate(e, measure).None?
  {
    if ops != [] {
      FirstInvalidIff(ops[1..], measure);
      assert ops == [ops[0]] + ops[1..];
    }
  }

  lemma SubmittedWellFormed(b: Board, actor: string, ops: seq<Envelope>, measure: Measure)
    requires WellFormed(b)
    ensures WellFormed(Submitted(b, actor, ops, measure))
    ensures b.rows <= Submitted(b, actor, ops, measure).rows
  {
    if Accepts(b, ops, measure) {
      AppendWellFormed(b, actor, ops);
    }
  }

  // Earlier states of a board never change when its ledger grows.
  lemma PastIsFixed(before: seq<Row>, after: seq<Row>, sequence: int)
    requires before <= after && 0 <= sequence <= |before|
    ensures StateAt(after, sequence) == StateAt(before, sequence)
  {
    assert after[..sequence] == before[..sequence];
  }

  lemma BatchKnows(rows: seq<Row>, done: seq<Envelope>, actor: string, version: int)
    ensures RowIds(rows + Numbered(Novel(done, RowIds(rows)), actor, version)) == RowIds(rows) + EnvelopeIds(done)
  {
    var known := RowIds(rows);
    NovelIds(done, known);
    NumberedIds(Novel(done, known), actor, version);
    RowIdsAppend(rows, Numbered(Novel(done, known), actor, version));
  }

  lemma NumberedAppend(x: seq<Envelope>, y: seq<Envelope>, actor: string, version: int)
    ensures Numbered(x + y, actor, version) == Numbered(x, actor, version) + Numbered(y, actor, version + |x|)
  {
  }

  lemma AppendAppend(b: Board, actor: string, x: seq<Envelope>, y: seq<Envelope>)
    ensures Append(Append(b, actor, x), actor, y) == Append(b, actor, x + y)
  {
    var known := RowIds(b.rows);
    var nx, ny := Novel(x, known), Novel(y, known + EnvelopeIds(x));
    BatchKnows(b.rows, x, actor, b.version);
    NovelAppend(x, y, known);
    hide Novel, RowIds, EnvelopeIds, Numbered;
    NumberedAppend(nx, ny, actor, b.version);
  }

  lemma AppendAccepts(b: Board, actor: string, x: seq<Envelope>, y: seq<Envelope>, measure: Measure)
    requires x != [] && y != []
    ensures Accepts(b, x + y, measure) <==> Accepts(b, x, measure) && Accepts(Append(b, actor, x), y, measure)
  {
    var known := RowIds(b.rows);
    BatchKnows(b.rows, x, actor, b.version);
    NovelAppend(x, y, known);
    ChainedAppend(Novel(x, known), Novel(y, known + EnvelopeIds(x)), b.version);
    FirstInvalidIff(x, measure);
    FirstInvalidIff(y, measure);
    FirstInvalidIff(x + y, measure);
  }

  lemma ChainedAppend(x: seq<Envelope>, y: seq<Envelope>, version: int)
    ensures Chained(x + y, version) <==> Chained(x, version) && Chained(y, version + |x|)
  {
    if Chained(x + y, version) {
      forall i | 0 <= i < |x| ensures x[i].baseVersion == version + i {
        assert (x + y)[i] == x[i];
      }
      forall i | 0 <= i < |y| ensures y[i].baseVersion == version + |x| + i {
        assert (x + y)[|x| + i] == y[i];
      }
    }
  }

  // Submitting the operations one by one.
  ghost function OneByOne(b: Board, actor: string, ops: seq<Envelope>, measure: Measure): Board {
    if ops == [] then b
    else
      var b' := OneByOne(b, actor, ops[..|ops| - 1], measure);
      Submitted(b', actor, [ops[|ops| - 1]], measure)
  }

  // Taking the last operation of an accepted batch on its own.
  lemma LastSingle(b: Board, actor: string, init: seq<Envelope>, e: Envelope, measure: Measure)
    requires init != [] && Accepts(b, init + [e], measure)
    ensures Accepts(b, init, measure)
    ensures Accepts(Submitted(b, actor, init, measure), [e], measure)
    ensures Submitted(Submitted(b, actor, init, measure), actor, [e], measure) == Submitted(b, actor, init + [e], measure)
  {
    AppendAccepts(b, actor, init, [e], measure);
    hide Append, Accepts;
    AppendAppend(b, actor, init, [e]);
  }

  // A batch that is accepted does exactly what its operations do one at a time...
  lemma {:induction false} BatchEqualsSingles(b: Board, actor: string, ops: seq<Envelope>, measure: Measure)
    requires Accepts(b, ops, measure)
    ensures OneByOne(b, actor, ops, measure) == Submitted(b, actor, ops, measure)
  {
    assert ops != [];
    hide Accepts, Submitted, OneByOne;
    var init, last := ops[..|ops| - 1], ops[|ops| - 1];
    assert ops == init + [last];
    if init == [] {
      assert ops == [last];
    } else {
      LastSingle(b, actor, init, last, measure);
      BatchEqualsSingles(b, actor, init, measure);
    }
  }

  // ... and each of those single submits is accepted too.
  lemma {:induction false} SinglesAreAccepted(b: Board, actor: string, ops: seq<Envelope>, k: nat, measure: Measure)
    requires Accepts(b, ops, measure) && k < |ops|
    ensures Accepts(OneByOne(b, actor, ops[..k], measure), [ops[k]], measure)
    decreases |ops|
  {
    assert ops != [];
    hide Accepts, Submitted, OneByOne;
    var init, last := ops[..|ops| - 1], ops[|ops| - 1];
    assert ops == init + [last];
    if init == [] {
      assert ops == [last] && ops[..k] == [];
    } else {
      LastSingle(b, actor, init, last, measure);
      if k < |init| {
        assert init[..k] == ops[..k];
        SinglesAreAccepted(b, actor, init, k, measure);
      } else {
        BatchEqualsSingles(b, actor, init, measure);
      }
    }
  }

  lemma {:induction false} NovelNothing(ops: seq<Envelope>, seen: set<string>)
    requires EnvelopeIds(ops) <= seen
    ensures Novel(ops, seen) == []
  {
    if ops != [] {
      NovelNothing(ops[..|ops| - 1], seen);
    }
  }

  // The ledger holds every operation of an accepted batch, for ever after.
  lemma AcceptedIsKept(b: Board, actor: string, ops: seq<Envelope>, later: seq<Row>)
    requires Append(b, actor, ops).rows <= later
    ensures RowIds(b.rows) + EnvelopeIds(ops) <= RowIds(later)
  {
    BatchKnows(b.rows, ops, actor, b.version);
    GrowthKeepsIds(Append(b, actor, ops).rows, later);
  }

  lemma GrowthKeepsIds(rows: seq<Row>, later: seq<Row>)
    requires rows <= later
    ensures RowIds(rows) <= RowIds(later)
  {
    hide RowIds;
    assert later == rows + later[|rows|..];
    RowIdsAppend(rows, later[|rows|..]);
  }

  // Retrying a batch that is already in the ledger, at any later time: the board does not
  // change, and the retry is accepted exactly when the board is not archived.
  lemma RetryChangesNothing(b: Board, actor: string, ops: seq<Envelope>, later: Board, retrier: string, measure: Measure)
    requires Accepts(b, ops, measure)
    requires Append(b, actor, ops).rows <= later.rows
    ensures Submitted(later, retrier, ops, measure) == later
    ensures Accepts(later, ops, measure) <==> !later.archived
  {
    AcceptedIsKept(b, actor, ops, later.rows);
    NovelNothing(ops, RowIds(later.rows));
    assert Append(later, retrier, ops) == later;
  }

  lemma {:induction false} FindRowAppend(a: seq<Row>, b: seq<Row>, id: string)
    requires id in RowIds(a)
    ensures FindRow(a + b, id) == FindRow(a, id)
  {
    if b == [] {
      assert a + b == a;
    } else {
      assert (a + b)[..|a + b| - 1] == a + b[..|b| - 1];
      FindRowAppend(a, b[..|b| - 1], id);
    }
  }

  lemma AcksOfAppend(distinct: seq<Envelope>, before: seq<Row>, after: seq<Row>, more: seq<Row>)
    requires EnvelopeIds(distinct) <= RowIds(after)
    ensures EnvelopeIds(distinct) <= RowIds(after + more)
    ensures AcksOf(distinct, before, after + more) == AcksOf(distinct, before, after)
  {
    RowIdsAppend(after, more);
    forall i | 0 <= i < |distinct|
      ensures FindRow(after + more, distinct[i].operationId) == FindRow(after, distinct[i].operationId)
    {
      EnvelopeIdsHave(distinct, i);
      FindRowAppend(after, more, distinct[i].operationId);
    }
  }

  // The acks of a retry carry the very sequences of the original acceptance, as duplicates.
  lemma RetryKeepsSequences(b: Board, actor: string, ops: seq<Envelope>, later: seq<Row>)
    requires Append(b, actor, ops).rows <= later
    ensures EnvelopeIds(Novel(ops, {})) <= RowIds(Append(b, actor, ops).rows)
    ensures EnvelopeIds(Novel(ops, {})) <= RowIds(later)
    ensures var first := AcksOf(Novel(ops, {}), b.rows, Append(b, actor, ops).rows);
      AcksOf(Novel(ops, {}), later, later) == seq(|first|, i requires 0 <= i < |first| => first[i].(duplicate := true))
  {
    var rows := Append(b, actor, ops).rows;
    NovelIds(ops, {});
    AcceptedIsKept(b, actor, ops, rows);
    AcceptedIsKept(b, actor, ops, later);
    assert later == rows + later[|rows|..];
    AcksAgain(Novel(ops, {}), b.rows, rows, later[|rows|..]);
  }

  lemma AcksAgain(distinct: seq<Envelope>, before: seq<Row>, rows: seq<Row>, more: seq<Row>)
    requires EnvelopeIds(distinct) <= RowIds(rows)
    ensures EnvelopeIds(distinct) <= RowIds(rows + more)
    ensures var first := AcksOf(distinct, before, rows);
      AcksOf(distinct, rows + more, rows + more) == seq(|first|, i requires 0 <= i < |first| => first[i].(duplicate := true))
  {
    RowIdsAppend(rows, more);
    forall i | 0 <= i < |distinct|
      ensures distinct[i].operationId in RowIds(rows)
      ensures FindRow(rows + more, distinct[i].operationId) == FindRow(rows, distinct[i].operationId)
    {
      EnvelopeIdsHave(distinct, i);
      FindRowAppend(rows, more, distinct[i].operationId);
    }
  }

  lemma FindIsUnique(b: Board, k: int)
    requires WellFormed(b) && 0 <= k < |b.rows|
    ensures b.rows[k].operationId in RowIds(b.rows)
    ensures FindRow(b.rows, b.rows[k].operationId) == Some(b.rows[k])
  {
    RowIdsHave(b.rows, k);
    var r := FindRow(b.rows, b.rows[k].operationId).value;
    var j :| 0 <= j < |b.rows| && b.rows[j] == r;
    assert !(j < k) && !(k < j);
  }

  // The id of the batch's last operation, repeats left out.
  function LastNamed(ops: seq<Envelope>): string
    requires ops != []
  {
    LastDistinct(ops, {});
    Novel(ops, {})[|Novel(ops, {})| - 1].operationId
  }

  // The version a submit reports is its last ack's. It is the board's version exactly when the last
  // operation of the batch is new, or nothing in it is new and the last one is the newest row.
  lemma ReportedVersion(b: Board, actor: string, ops: seq<Envelope>, res: SubmitResult)
    requires WellFormed(b) && ops != [] && Chained(Novel(ops, RowIds(b.rows)), b.version)
    requires AcknowledgedBy(res, ops, b.rows, Append(b, actor, ops).rows)
    ensures res.Version() == Append(b, actor, ops).version
      <==>
      (LastNamed(ops) !in RowIds(b.rows)
        || (EnvelopeIds(ops) <= RowIds(b.rows) && b.rows[|b.rows| - 1].operationId == LastNamed(ops)))
  {
    LastDistinct(ops, RowIds(b.rows));
    AppendWellFormed(b, actor, ops);
    LastAck(b, actor, Novel(ops, {}), Novel(ops, RowIds(b.rows)));
    NothingNewIff(ops, RowIds(b.rows));
    hide Novel, EnvelopeIds, AcksOf, Numbered, Chained, Tidy;
    if LastNamed(ops) in RowIds(b.rows) {
      VersionOfKnown(b, LastNamed(ops));
    }
  }

  lemma NothingNewIff(ops: seq<Envelope>, seen: set<string>)
    ensures Novel(ops, seen) == [] <==> EnvelopeIds(ops) <= seen
  {
    NovelIds(ops, seen);
    if EnvelopeIds(ops) <= seen {
      NovelNothing(ops, seen);
    }
  }

  lemma VersionOfKnown(b: Board, id: string)
    requires WellFormed(b) && id in RowIds(b.rows)
    ensures b.rows != [] && FindRow(b.rows, id).Some?
    ensures var v := FindRow(b.rows, id).value.resultingVersion;
      v <= b.version && (v == b.version <==> b.rows[|b.rows| - 1].operationId == id)
  {
    var r := FindRow(b.rows, id).value;
    var k :| 0 <= k < |b.rows| && b.rows[k] == r;
    if b.rows[|b.rows| - 1].operationId == id {
      FindIsUnique(b, |b.rows| - 1);
    }
  }

  // The last ack: a new row's version is the board's, a known one's is its row's.
  lemma LastAck(b: Board, actor: string, distinct: seq<Envelope>, novel: seq<Envelope>)
    requires WellFormed(b) && distinct != []
    requires WellFormed(Board(b.version + |novel|, b.archived, b.rows + Numbered(novel, actor, b.version)))
    requires EnvelopeIds(distinct) <= RowIds(b.rows + Numbered(novel, actor, b.version))
    requires var id := distinct[|distinct| - 1].operationId;
      id !in RowIds(b.rows) ==> novel != [] && novel[|novel| - 1].operationId == id
    ensures var acks := AcksOf(distinct, b.rows, b.rows + Numbered(novel, actor, b.version));
      var id, v := distinct[|distinct| - 1].operationId, acks[|acks| - 1].resultingVersion;
      && (id !in RowIds(b.rows) ==> v == b.version + |novel|)
      && (id in RowIds(b.rows) ==> FindRow(b.rows, id).Some? && v == FindRow(b.rows, id).value.resultingVersion)
  {
    var id := distinct[|distinct| - 1].operationId;
    var all := b.rows + Numbered(novel, actor, b.version);
    EnvelopeIdsHave(distinct, |distinct| - 1);
    if id in RowIds(b.rows) {
      FindRowAppend(b.rows, Numbered(novel, actor, b.version), id);
    } else {
      assert all[|all| - 1].operationId == id;
      FindIsUnique(Board(|all|, b.archived, all), |all| - 1);
    }
  }

  lemma {:induction false} LastDistinct(ops: seq<Envelope>, seen: set<string>)
    requires ops != []
    ensures Novel(ops, {}) != []
    ensures var last := Novel(ops, {})[|Novel(ops, {})| - 1];
      last.operationId !in seen ==> Novel(ops, seen) != [] && Novel(ops, seen)[|Novel(ops, seen)| - 1] == last
  {
    var init, last := ops[..|ops| - 1], ops[|ops| - 1];
    if init == [] {
      assert Novel(init, {}) == [];
      assert EnvelopeIds(init) == {};
    } else {
      LastDistinct(init, seen);
    }
  }

  // ---- two cases at an input ----

  function OneRowBoard(archived: bool): Board {
    Board(1, archived, [Row("a", 1, "p", ClearCanvas, 0, 1)])
  }

  function NewThenKnown(): seq<Envelope> {
    [Envelope("b", 1, ClearCanvas, None), Envelope("a", 0, ClearCanvas, None)]
  }

  lemma OnlyOneIsNew()
    ensures RowIds(OneRowBoard(false).rows) == {"a"}
    ensures Novel(NewThenKnown(), {"a"}) == [NewThenKnown()[0]] && Novel(NewThenKnown(), {}) == NewThenKnown()
  {
    var rows, x, y := OneRowBoard(false).rows, NewThenKnown()[0], NewThenKnown()[1];
    assert rows[..0] == [] && RowIds(rows[..0]) == {};
    hide Novel;
  }

  lemma BothAreValid(measure: Measure)
    requires measure(ClearCanvas) <= PayloadCap(ClearCanvas)
    ensures FirstInvalid(NewThenKnown(), measure).None?
  {
    var x, y := NewThenKnown()[0], NewThenKnown()[1];
    assert NewThenKnown()[1..] == [y] && [y][1..] == [];
    assert Validate(x, measure).None? && Validate(y, measure).None?;
    hide Validate;
  }

  // A batch of a new operation followed by a known one reports version 1 on a board at version 2.
  lemma ReportedVersionLags(res: SubmitResult, measure: Measure)
    requires measure(ClearCanvas) <= PayloadCap(ClearCanvas)
    requires var b := OneRowBoard(false); AcknowledgedBy(res, NewThenKnown(), b.rows, Append(b, "p", NewThenKnown()).rows)
    ensures var b := OneRowBoard(false);
      Accepts(b, NewThenKnown(), measure) && Append(b, "p", NewThenKnown()).version == 2 && res.Version() == 1
  {
    var b, x, y := OneRowBoard(false), NewThenKnown()[0], NewThenKnown()[1];
    OnlyOneIsNew();
    BothAreValid(measure);
    hide Novel, RowIds, FirstInvalid, Numbered, FindRow;
    AppendWellFormed(b, "p", NewThenKnown());
    LastAck(b, "p", [x, y], [x]);
    FindIsUnique(b, 0);
  }

  // Retrying an operation the ledger holds is refused once the board is archived.
  lemma RetryOnArchivedFails()
    ensures var ops := [Envelope("a", 0, ClearCanvas, None)];
      && Accepts(OneRowBoard(false), ops, o => 0)
      && !Accepts(OneRowBoard(true), ops, o => 0)
      && RefusedWith(OneRowBoard(true), ops, o => 0, ReadOnly)
  {
    var e, rows := Envelope("a", 0, ClearCanvas, None), OneRowBoard(false).rows;
    assert rows[..0] == [] && RowIds(rows) == {"a"};
    OneNovel(e, {"a"});
    assert [e][1..] == [];
    assert FirstInvalid([e], o => 0).None?;
  }

  // ---- histories of a board ----

  datatype Event = Submit(actor: string, ops: seq<Envelope>) | SetArchived(on: bool)

  function EventIds(e: Event): set<string> {
    match e
    case Submit(_, ops) => EnvelopeIds(ops)
    case SetArchived(_) => {}
  }

  ghost function Perform(b: Board, e: Event, measure: Measure): Board {
    match e
    case Submit(actor, ops) => Submitted(b, actor, ops, measure)
    case SetArchived(on) => b.(archived := on)
  }

  ghost function PerformAll(b: Board, events: seq<Event>, measure: Measure): Board {
    if events == [] then b
    else Perform(PerformAll(b, events[..|events| - 1], measure), events[|events| - 1], measure)
  }

  ghost predicate ValidRows(rows: seq<Row>) {
    forall r :: r in rows ==> CheckPayload(r.op).None?
  }

  lemma PerformKeeps(b: Board, e: Event, measure: Measure)
    requires WellFormed(b)
    ensures WellFormed(Perform(b, e, measure))
    ensures b.rows <= Perform(b, e, measure).rows
    ensures ValidRows(b.rows) ==> ValidRows(Perform(b, e, measure).rows)
  {
    if e.Submit? && Accepts(b, e.ops, measure) {
      SubmittedWellFormed(b, e.actor, e.ops, measure);
      if ValidRows(b.rows) {
        AppendValid(b, e.actor, e.ops, measure);
      }
    }
  }

  lemma AppendValid(b: Board, actor: string, ops: seq<Envelope>, measure: Measure)
    requires Accepts(b, ops, measure) && ValidRows(b.rows)
    ensures ValidRows(Append(b, actor, ops).rows)
  {
    FirstInvalidIff(ops, measure);
    var novel := Novel(ops, RowIds(b.rows));
    NovelMembers(ops, RowIds(b.rows));
    forall r | r in Numbered(novel, actor, b.version) ensures CheckPayload(r.op).None? {
      var i :| 0 <= i < |novel| && r == Numbered(novel, actor, b.version)[i];
      assert novel[i] in ops;
    }
  }

  lemma {:induction false} NovelMembers(ops: seq<Envelope>, seen: set<string>)
    ensures forall e :: e in Novel(ops, seen) ==> e in ops
  {
    if ops != [] {
      NovelMembers(ops[..|ops| - 1], seen);
    }
  }

  // Under any mix of batches and archive toggles the ledger keeps its shape and only grows.
  lemma {:induction false} HistoryKeepsShape(b: Board, events: seq<Event>, measure: Measure)
    requires WellFormed(b)
    ensures WellFormed(PerformAll(b, events, measure))
    ensures b.rows <= PerformAll(b, events, measure).rows
    ensures ValidRows(b.rows) ==> ValidRows(PerformAll(b, events, measure).rows)
  {
    if events != [] {
      var init := events[..|events| - 1];
      HistoryKeepsShape(b, init, measure);
      PerformKeeps(PerformAll(b, init, measure), events[|events| - 1], measure);
    }
  }

  method PerformEvents(board: Whiteboard, events: seq<Event>, measure: Measure)
    requires board.Valid()
    modifies board
    ensures board.Valid()
    ensures board.Value() == PerformAll(old(board.Value()), events, measure)
  {
    for i := 0 to |events|
      invariant board.Valid()
      invariant board.Value() == PerformAll(old(board.Value()), events[..i], measure)
    {
      assert events[..i + 1][..i] == events[..i];
      match events[i]
      case Submit(actor, ops) =>
        var _ := board.SubmitBatch(actor, ops, measure);
      case SetArchived(on) =>
        board.SetArchived(on);
    }
    assert events[..|events|] == events;
  }

  // ---- the service ----

  datatype Progress = Progress(expected: int, seen: set<string>, table: seq<Row>, acks: seq<Ack>, applied: nat)

  function Start(b: Board): Progress {
    Progress(b.version, {}, b.rows, [], 0)
  }

  // What the submit loop does with one operation; None is a stale base version.
  function Step(actor: string, p: Progress, e: Envelope): Option<Progress> {
    if e.operationId in p.seen then Some(p)
    else
      var existing := FindRow(p.table, e.operationId);
      var seen := p.seen + {e.operationId};
      if existing.Some? then
        Some(p.(seen := seen, acks := p.acks + [Ack(e.operationId, existing.value.sequence, existing.value.resultingVersion, true)]))
      else if e.baseVersion != p.expected then None
      else
        var v := p.expected + 1;
        Some(Progress(v, seen, p.table + [Row(e.operationId, v, actor, e.op, e.baseVersion, v)],
                      p.acks + [Ack(e.operationId, v, v, false)], p.applied + 1))
  }

  // Where the submit loop stands after the operations `done`.
  function Run(b: Board, actor: string, done: seq<Envelope>): Option<Progress> {
    if done == [] then Some(Start(b))
    else
      var p := Run(b, actor, done[..|done| - 1]);
      if p.None? then None else Step(actor, p.value, done[|done| - 1])
  }

  lemma NovelSnoc(done: seq<Envelope>, e: Envelope, seen: set<string>)
    ensures Novel(done + [e], seen) ==
      if e.operationId in seen + EnvelopeIds(done) then Novel(done, seen) else Novel(done, seen) + [e]
    ensures EnvelopeIds(done + [e]) == EnvelopeIds(done) + {e.operationId}
  {
    assert (done + [e])[..|done + [e]| - 1] == done;
    EnvelopeIdsAppend(done, [e]);
    assert EnvelopeIds([e]) == {e.operationId};
  }

  lemma AckSnoc(distinct: seq<Envelope>, e: Envelope, before: seq<Row>, after: seq<Row>, row: Row)
    requires EnvelopeIds(distinct) <= RowIds(after)
    requires FindRow(after, e.operationId) == Some(row)
    ensures EnvelopeIds(distinct + [e]) <= RowIds(after)
    ensures AcksOf(distinct + [e], before, after) == AcksOf(distinct, before, after)
      + [Ack(e.operationId, row.sequence, row.resultingVersion, e.operationId in RowIds(before))]
  {
    NovelSnoc(distinct, e, {});
    var all := distinct + [e];
    assert forall i :: 0 <= i < |distinct| ==> all[i] == distinct[i];
  }

  lemma SnocRow(novel: seq<Envelope>, actor: string, version: int, e: Envelope)
    requires Chained(novel, version) && e.baseVersion == version + |novel|
    ensures Chained(novel + [e], version)
    ensures Numbered(novel + [e], actor, version)
      == Numbered(novel, actor, version) + [Row(e.operationId, e.baseVersion + 1, actor, e.op, e.baseVersion, e.baseVersion + 1)]
  {
  }

  // The loop's counters and table are what the declarative reading of the batch says.
  ghost predicate Tracks(b: Board, actor: string, done: seq<Envelope>, p: Progress) {
    var novel := Novel(done, RowIds(b.rows));
    && p.seen == EnvelopeIds(done)
    && p.applied == |novel|
    && p.expected == b.version + |novel|
    && p.table == b.rows + Numbered(novel, actor, b.version)
    && Chained(novel, b.version)
  }

  lemma {:induction false} RunTracks(b: Board, actor: string, done: seq<Envelope>)
    ensures Run(b, actor, done).Some? ==> Tracks(b, actor, done, Run(b, actor, done).value)
  {
    if done == [] {
      assert Numbered([], actor, b.version) == [];
    } else {
      var init, e := done[..|done| - 1], done[|done| - 1];
      RunTracks(b, actor, init);
      if Run(b, actor, done).Some? {
        StepTracks(b, actor, init, Run(b, actor, init).value, e);
        assert init + [e] == done;
      }
    }
  }

  lemma StepTracks(b: Board, actor: string, done: seq<Envelope>, p: Progress, e: Envelope)
    requires Tracks(b, actor, done, p) && Step(actor, p, e).Some?
    ensures Tracks(b, actor, done + [e], Step(actor, p, e).value)
  {
    hide Novel, Numbered, RowIds, EnvelopeIds, FindRow, Chained;
    BatchKnows(b.rows, done, actor, b.version);
    NovelSnoc(done, e, RowIds(b.rows));
    if e.operationId in p.seen {
      assert p.seen + {e.operationId} == p.seen;
    } else if FindRow(p.table, e.operationId).None? {
      NewStepTracks(b, actor, Novel(done, RowIds(b.rows)), e);
    }
  }

  lemma NewStepTracks(b: Board, actor: string, novel: seq<Envelope>, e: Envelope)
    requires Chained(novel, b.version) && e.baseVersion == b.version + |novel|
    ensures Chained(novel + [e], b.version)
    ensures b.rows + Numbered(novel + [e], actor, b.version)
      == b.rows + Numbered(novel, actor, b.version) + [Row(e.operationId, e.baseVersion + 1, actor, e.op, e.baseVersion, e.baseVersion + 1)]
  {
    hide Numbered, Chained;
    var row := Row(e.operationId, e.baseVersion + 1, actor, e.op, e.baseVersion, e.baseVersion + 1);
    SnocRow(novel, actor, b.version, e);
  }

  // The loop's acks point every distinct id of the batch to its row.
  ghost predicate Acked(b: Board, done: seq<Envelope>, p: Progress) {
    EnvelopeIds(Novel(done, {})) <= RowIds(p.table) && p.acks == AcksOf(Novel(done, {}), b.rows, p.table)
  }

  lemma {:induction false} RunAcks(b: Board, actor: string, done: seq<Envelope>)
    ensures Run(b, actor, done).Some? ==> Acked(b, done, Run(b, actor, done).value)
  {
    if done == [] {
      assert AcksOf([], b.rows, b.rows) == [];
    } else {
      var init, e := done[..|done| - 1], done[|done| - 1];
      RunAcks(b, actor, init);
      if Run(b, actor, done).Some? {
        RunTracks(b, actor, init);
        StepAcks(b, actor, init, Run(b, actor, init).value, e);
        assert init + [e] == done;
      }
    }
  }

  lemma StepAcks(b: Board, actor: string, done: seq<Envelope>, p: Progress, e: Envelope)
    requires Tracks(b, actor, done, p) && Acked(b, done, p) && Step(actor, p, e).Some?
    ensures Acked(b, done + [e], Step(actor, p, e).value)
  {
    BatchKnows(b.rows, done, actor, b.version);
    var p' := Step(actor, p, e).value;
    if e.operationId in p.seen {
      NovelSnoc(done, e, {});
      assert p' == p;
    } else if FindRow(p.table, e.operationId).Some? {
      KnownAck(b, done, e, p.table);
      assert p'.table == p.table;
    } else {
      var v := p.expected + 1;
      var row := Row(e.operationId, v, actor, e.op, e.baseVersion, v);
      assert p'.table == p.table + [row] && p'.acks == p.acks + [Ack(e.operationId, v, v, false)];
      CreateAck(b, done, e, p.table, row);
      assert p'.acks == AcksOf(Novel(done + [e], {}), b.rows, p.table + [row]);
    }
  }

  lemma KnownAck(b: Board, done: seq<Envelope>, e: Envelope, table: seq<Row>)
    requires e.operationId !in EnvelopeIds(done) && e.operationId in RowIds(b.rows)
    requires FindRow(table, e.operationId).Some?
    requires EnvelopeIds(Novel(done, {})) <= RowIds(table)
    ensures EnvelopeIds(Novel(done + [e], {})) <= RowIds(table)
    ensures AcksOf(Novel(done + [e], {}), b.rows, table)
      == AcksOf(Novel(done, {}), b.rows, table)
        + [Ack(e.operationId, FindRow(table, e.operationId).value.sequence, FindRow(table, e.operationId).value.resultingVersion, true)]
  {
    NovelSnoc(done, e, {});
    AckSnoc(Novel(done, {}), e, b.rows, table, FindRow(table, e.operationId).value);
  }

  lemma CreateAck(b: Board, done: seq<Envelope>, e: Envelope, table: seq<Row>, row: Row)
    requires e.operationId !in RowIds(table) + EnvelopeIds(done) && e.operationId !in RowIds(b.rows)
    requires EnvelopeIds(Novel(done, {})) <= RowIds(table) && row.operationId == e.operationId
    ensures EnvelopeIds(Novel(done + [e], {})) <= RowIds(table + [row])
    ensures AcksOf(Novel(done + [e], {}), b.rows, table + [row])
      == AcksOf(Novel(done, {}), b.rows, table) + [Ack(e.operationId, row.sequence, row.resultingVersion, false)]
  {
    NovelSnoc(done, e, {});
    AcksOfAppend(Novel(done, {}), b.rows, table, [row]);
    NewRowFound(table, row);
    AckSnoc(Novel(done, {}), e, b.rows, table + [row], row);
  }

  lemma NewRowFound(table: seq<Row>, row: Row)
    requires row.operationId !in RowIds(table)
    ensures FindRow(table + [row], row.operationId) == Some(row)
  {
    assert (table + [row])[..|table|] == table;
  }

  lemma StaleAt(b: Board, actor: string, ops: seq<Envelope>, i: nat, measure: Measure)
    requires i < |ops| && FirstInvalid(ops, measure).None? && !b.archived
    requires Run(b, actor, ops[..i]).Some? && Step(actor, Run(b, actor, ops[..i]).value, ops[i]).None?
    ensures !Accepts(b, ops, measure)
    ensures RefusedWith(b, ops, measure, Stale(Run(b, actor, ops[..i]).value.expected, ops[i].baseVersion))
  {
    RunTracks(b, actor, ops[..i]);
    BatchKnows(b.rows, ops[..i], actor, b.version);
    NovelAt(ops, i, RowIds(b.rows));
    StaleRefuses(b, ops, |Novel(ops[..i], RowIds(b.rows))|, measure);
  }

  lemma NovelAt(ops: seq<Envelope>, i: nat, seen: set<string>)
    requires i < |ops| && ops[i].operationId !in seen + EnvelopeIds(ops[..i])
    ensures Novel(ops[..i], seen) + [ops[i]] <= Novel(ops, seen)
  {
    var done := ops[..i];
    assert ops == (done + [ops[i]]) + ops[i + 1..];
    NovelAppend(done + [ops[i]], ops[i + 1..], seen);
    NovelSnoc(done, ops[i], seen);
  }

  lemma StaleRefuses(b: Board, ops: seq<Envelope>, k: nat, measure: Measure)
    requires ops != [] && FirstInvalid(ops, measure).None? && !b.archived
    requires k < |Novel(ops, RowIds(b.rows))|
    requires Chained(Novel(ops, RowIds(b.rows))[..k], b.version)
    requires Novel(ops, RowIds(b.rows))[k].baseVersion != b.version + k
    ensures !Accepts(b, ops, measure)
    ensures RefusedWith(b, ops, measure, Stale(b.version + k, Novel(ops, RowIds(b.rows))[k].baseVersion))
  {
  }

  lemma BatchDone(b: Board, actor: string, ops: seq<Envelope>, measure: Measure, p: Progress)
    requires WellFormed(b) && Run(b, actor, ops) == Some(p)
    requires ops != [] && FirstInvalid(ops, measure).None? && !b.archived
    ensures Accepts(b, ops, measure)
    ensures Submitted(b, actor, ops, measure) == Board(p.expected, b.archived, p.table)
    ensures WellFormed(Board(p.expected, b.archived, p.table))
    ensures p.applied == 0 ==> p.expected == b.version
    ensures AcknowledgedBy(SubmitResult(p.acks, p.applied), ops, b.rows, p.table)
  {
    RunTracks(b, actor, ops);
    RunAcks(b, actor, ops);
    AppendWellFormed(b, actor, ops);
  }

  class Whiteboard {
    var version: int
    var archived: bool
    var rows: seq<Row>

    ghost function Value(): Board
      reads this
    {
      Board(version, archived, rows)
    }

    ghost predicate Valid()
      reads this
    {
      WellFormed(Value())
    }

    constructor ()
      ensures Valid()
      ensures Value() == Board(0, false, [])
    {
      version, archived, rows := 0, false, [];
    }

    method SubmitBatch(actor: string, ops: seq<Envelope>, measure: Measure) returns (r: Result<SubmitResult, Error>)
      requires Valid()
      modifies this
      ensures Valid()
      ensures r.Ok? <==> Accepts(old(Value()), ops, measure)
      ensures Value() == Submitted(old(Value()), actor, ops, measure)
      ensures r.Ok? ==> AcknowledgedBy(r.value, ops, old(rows), rows)
      ensures r.Err? ==> RefusedWith(old(Value()), ops, measure, r.error)
    {
      if ops == [] {
        return Err(InvalidOperation);
      }
      var bad := FirstInvalid(ops, measure);
      if bad.Some? {
        return Err(bad.value);
      }
      if archived {
        return Err(ReadOnly);
      }
      ghost var b := Value();
      var expected, seen, table, acks, applied := version, {}, rows, [], 0;
      for i := 0 to |ops|
        modifies {}
        invariant Run(b, actor, ops[..i]) == Some(Progress(expected, seen, table, acks, applied))
      {
        var e := ops[i];
        assert ops[..i + 1][..i] == ops[..i];
        if e.operationId in seen {
          continue;
        }
        var existing := FindRow(table, e.operationId);
        if existing.Some? {
          acks := acks + [Ack(e.operationId, existing.value.sequence, existing.value.resultingVersion, true)];
          seen := seen + {e.operationId};
          continue;
        }
        if e.baseVersion != expected {
          StaleAt(b, actor, ops, i, measure);
          return Err(Stale(expected, e.baseVersion));
        }
        var sequence := expected + 1;
        table := table + [Row(e.operationId, sequence, actor, e.op, e.baseVersion, sequence)];
        acks := acks + [Ack(e.operationId, sequence, sequence, false)];
        applied := applied + 1;
        expected := sequence;
        seen := seen + {e.operationId};
      }
      assert ops[..|ops|] == ops;
      BatchDone(b, actor, ops, measure, Progress(expected, seen, table, acks, applied));
      rows := table;
      if applied > 0 {
        version := expected;
      }
      return Ok(SubmitResult(acks, applied));
    }

    method SetArchived(on: bool)
      requires Valid()
      modifies this`archived
      ensures Valid() && Value() == old(Value()).(archived := on)
    {
      if archived != on {
        archived := on;
      }
    }
  }
}
