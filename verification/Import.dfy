// Importing a JSON export: one clear (optional) and one create per object, submitted in chunks.
module Import {
  import opened Prelude
  import opened Drawing
  import opened Replay
  import opened Validator
  import opened Ledger

  const SUPPORTED_SCHEMA_VERSION := 1
  const MAX_IMPORT_OBJECTS := 2_000
  const MAX_BATCH_OPERATIONS := 50

  datatype ImportFile = ImportFile(schemaVersion: int, objects: seq<Stroke>)

  datatype ImportResult = ImportResult(imported: nat, version: int)

  function ValidateEnvelope(file: ImportFile): Option<Error> {
    if file.schemaVersion != SUPPORTED_SCHEMA_VERSION then Some(InvalidPayload)
    else if |file.objects| > MAX_IMPORT_OBJECTS then Some(TooLarge)
    else CheckStrokes(file.objects)
  }

  // A file passes with schema version 1 and at most 2000 strokes the server would take. Too many of
  // them, or a stroke with too many points before any other fault, are too large.
  lemma FilePassesIff(file: ImportFile)
    ensures ValidateEnvelope(file).None? <==>
      file.schemaVersion == 1 && |file.objects| <= 2000 && forall s :: s in file.objects ==> GoodStroke(s)
    ensures file.schemaVersion != 1 ==> ValidateEnvelope(file) == Some(InvalidPayload)
    ensures file.schemaVersion == 1 && |file.objects| > 2000 ==> ValidateEnvelope(file) == Some(TooLarge)
  {
    CheckStrokesIff(file.objects);
  }

  // The file's stroke under a fresh id; who created it is not imported.
  function Copy(s: Stroke, id: string): Stroke {
    s.(id := id, creatorId := None)
  }

  function Copies(objects: seq<Stroke>, objectIds: Uuids): seq<Stroke> {
    seq(|objects|, i requires 0 <= i < |objects| => Copy(objects[i], objectIds(i)))
  }

  // The same lines in the same styles, under new ids, by nobody.
  ghost predicate CopiesOf(copies: seq<Stroke>, objects: seq<Stroke>, objectIds: Uuids) {
    && |copies| == |objects|
    && forall i :: 0 <= i < |objects| ==>
      && copies[i].points == objects[i].points && copies[i].style == objects[i].style
      && copies[i].id == objectIds(i) && copies[i].creatorId == None
  }

  lemma CopiesAreCopies(objects: seq<Stroke>, objectIds: Uuids)
    ensures CopiesOf(Copies(objects, objectIds), objects, objectIds)
  {
  }

  function ImportOps(objects: seq<Stroke>, clearFirst: bool, objectIds: Uuids): seq<Operation> {
    (if clearFirst then [ClearCanvas] else []) + Creates(Copies(objects, objectIds))
  }

  function Envelopes(ops: seq<Operation>, operationIds: Uuids): seq<Envelope> {
    seq(|ops|, i requires 0 <= i < |ops| => Envelope(operationIds(i), 0, ops[i], None))
  }

  // The operations in batches of at most the batch limit.
  function Chunks(items: seq<Envelope>): (r: seq<seq<Envelope>>)
    ensures Flat(r) == items
    ensures forall c :: c in r ==> 0 < |c| <= 50
    ensures forall i :: 0 <= i < |r| - 1 ==> |r[i]| == 50
  {
    if items == [] then []
    else
      var k := Min(MAX_BATCH_OPERATIONS, |items|);
      [items[..k]] + Chunks(items[k..])
  }

  function Flat(chunks: seq<seq<Envelope>>): seq<Envelope> {
    if chunks == [] then [] else chunks[0] + Flat(chunks[1..])
  }

  // The base versions of a chunk, counting up from `version`.
  function Rebased(ops: seq<Envelope>, version: int): seq<Envelope> {
    seq(|ops|, i requires 0 <= i < |ops| => ops[i].(baseVersion := version + i))
  }

  // The board an import leaves and either the version it reports or the chunk that was refused there.
  datatype Outcome = Outcome(board: Board, end: Result<int, seq<Envelope>>)

  // What an import does with the chunks still to come, number c first; `others(c)` is what other
  // requests do just before chunk c.
  ghost function ImportFrom(b: Board, actor: string, chunks: seq<seq<Envelope>>, c: nat, version: int,
                            others: nat -> seq<Event>, measure: Measure): Outcome
    decreases |chunks|
  {
    if chunks == [] then Outcome(b, Ok(version))
    else
      var mid, chunk := PerformAll(b, others(c), measure), Rebased(chunks[0], version);
      if Accepts(mid, chunk, measure) then
        ImportFrom(Append(mid, actor, chunk), actor, chunks[1..], c + 1, ReportedBy(mid, actor, chunk), others, measure)
      else Outcome(mid, Err(chunk))
  }

  ghost function ReportedBy(b: Board, actor: string, ops: seq<Envelope>): int {
    AcceptedIsKept(b, actor, ops, Append(b, actor, ops).rows);
    NovelIds(ops, {});
    SubmitResult(AcksOf(Novel(ops, {}), b.rows, Append(b, actor, ops).rows), 0).Version()
  }

  method ImportBoard(board: Whiteboard, seenVersion: int, actor: string, file: ImportFile, clearFirst: bool,
                     operationIds: Uuids, objectIds: Uuids, others: nat -> seq<Event>, measure: Measure)
    returns (r: Result<ImportResult, Error>)
    requires board.Valid()
    modifies board
    ensures board.Valid()
    ensures ValidateEnvelope(file).Some? ==> r == Err(ValidateEnvelope(file).value) && board.Value() == old(board.Value())
    ensures ValidateEnvelope(file).None? ==>
      var all := Envelopes(ImportOps(file.objects, clearFirst, objectIds), operationIds);
      var out := ImportFrom(old(board.Value()), actor, Chunks(all), 0, seenVersion, others, measure);
      && board.Value() == out.board
      && (r.Ok? <==> out.end.Ok?)
      && (r.Ok? ==> r.value == ImportResult(|file.objects|, out.end.value))
      && (r.Err? ==> RefusedWith(out.board, out.end.error, measure, r.error))
  {
    var bad := ValidateEnvelope(file);
    if bad.Some? {
      return Err(bad.value);
    }
    var operations := [];
    if clearFirst {
      operations := [ClearCanvas];
    }
    operations := operations + Creates(Copies(file.objects, objectIds));
    assert operations == ImportOps(file.objects, clearFirst, objectIds);
    var all := Envelopes(operations, operationIds);
    var version, chunks := seenVersion, Chunks(all);
    ghost var whole := ImportFrom(board.Value(), actor, chunks, 0, seenVersion, others, measure);
    for c := 0 to |chunks|
      invariant board.Valid()
      invariant ImportFrom(board.Value(), actor, chunks[c..], c, version, others, measure) == whole
    {
      assert chunks[c..][1..] == chunks[c + 1..];
      PerformEvents(board, others(c), measure);
      ghost var mid := board.Value();
      var chunk := Rebased(chunks[c], version);
      var result := board.SubmitBatch(actor, chunk, measure);
      if result.Err? {
        return Err(result.error);
      }
      assert result.value.Version() == ReportedBy(mid, actor, chunk);
      version := result.value.Version();
    }
    return Ok(ImportResult(|file.objects|, version));
  }

  // ---- an import nobody interferes with ----

  lemma FreshReport(b: Board, actor: string, ops: seq<Envelope>)
    requires WellFormed(b) && ops != [] && FreshIds(ops, RowIds(b.rows)) && Chained(ops, b.version)
    ensures Append(b, actor, ops).version == b.version + |ops|
    ensures Append(b, actor, ops).rows == b.rows + Numbered(ops, actor, b.version)
    ensures ReportedBy(b, actor, ops) == b.version + |ops|
  {
    FreshAreNovel(ops, RowIds(b.rows));
    FreshAreNovel(ops, {});
    AcceptedIsKept(b, actor, ops, Append(b, actor, ops).rows);
    var acks := AcksOf(ops, b.rows, Append(b, actor, ops).rows);
    ReportedVersion(b, actor, ops, SubmitResult(acks, |ops|));
  }

  lemma {:induction false} RebasedIds(ops: seq<Envelope>, version: int)
    ensures EnvelopeIds(Rebased(ops, version)) == EnvelopeIds(ops)
    ensures Chained(Rebased(ops, version), version)
  {
    if ops != [] {
      RebasedIds(ops[..|ops| - 1], version);
      assert Rebased(ops, version)[..|ops| - 1] == Rebased(ops[..|ops| - 1], version);
    }
  }

  // Splitting fresh operations: the later half is fresh also to a board that has the first.
  lemma FreshSplit(x: seq<Envelope>, y: seq<Envelope>, seen: set<string>)
    requires FreshIds(x + y, seen)
    ensures FreshIds(x, seen)
    ensures FreshIds(y, seen + EnvelopeIds(x))
  {
    assert forall i :: 0 <= i < |x| ==> (x + y)[i] == x[i];
    assert forall i :: 0 <= i < |y| ==> (x + y)[|x| + i] == y[i];
    forall i | 0 <= i < |y| ensures y[i].operationId !in EnvelopeIds(x) {
      NotAmong(x, y[i].operationId);
    }
  }

  ghost predicate Submittable(all: seq<Envelope>, measure: Measure) {
    forall e :: e in all ==> e.baseVersion == 0 && Validate(e, measure).None?
  }

  lemma RebasedValid(ops: seq<Envelope>, version: int, measure: Measure)
    requires version >= 0 && Submittable(ops, measure)
    ensures FirstInvalid(Rebased(ops, version), measure).None?
  {
    FirstInvalidIff(Rebased(ops, version), measure);
    forall e | e in Rebased(ops, version) ensures Validate(e, measure).None? {
      var i :| 0 <= i < |ops| && e == Rebased(ops, version)[i];
      assert ops[i] in ops;
    }
  }

  // A chunk of fresh operations made against the board's version becomes the next rows, in one piece.
  lemma ChunkLands(b: Board, actor: string, first: seq<Envelope>, rest: seq<Envelope>)
    requires WellFormed(b) && first != [] && FreshIds(first + rest, RowIds(b.rows))
    ensures var chunk := Rebased(first, b.version);
      var b' := Append(b, actor, chunk);
      && Novel(chunk, RowIds(b.rows)) == chunk && Chained(chunk, b.version)
      && WellFormed(b')
      && b' == Board(b.version + |first|, b.archived, b.rows + Numbered(chunk, actor, b.version))
      && ReportedBy(b, actor, chunk) == b'.version
      && FreshIds(rest, RowIds(b'.rows))
  {
    var chunk := Rebased(first, b.version);
    FreshSplit(first, rest, RowIds(b.rows));
    RebasedIds(first, b.version);
    FreshReport(b, actor, chunk);
    FreshAreNovel(chunk, RowIds(b.rows));
    AppendWellFormed(b, actor, chunk);
    BatchKnows(b.rows, chunk, actor, b.version);
  }

  ghost predicate NoOthers(others: nat -> seq<Event>) {
    forall c: nat :: others(c) == []
  }

  // With no other writer, no chunk is ever stale, however many there are.
  lemma {:induction false} ImportAlone(b: Board, actor: string, chunks: seq<seq<Envelope>>, c: nat, others: nat -> seq<Event>, measure: Measure)
    requires WellFormed(b) && !b.archived && NoOthers(others)
    requires forall x :: x in chunks ==> x != []
    requires FreshIds(Flat(chunks), RowIds(b.rows)) && Submittable(Flat(chunks), measure)
    ensures ImportFrom(b, actor, chunks, c, b.version, others, measure) == Imported(b, actor, Flat(chunks))
    decreases |chunks|
  {
    if chunks == [] {
      assert b.rows + Numbered(Rebased(Flat(chunks), b.version), actor, b.version) == b.rows;
    } else {
      var rest := Flat(chunks[1..]);
      assert chunks[0] in chunks && forall x :: x in chunks[1..] ==> x in chunks;
      var b' := AloneStep(b, actor, chunks, c, others, measure);
      ImportAlone(b', actor, chunks[1..], c + 1, others, measure);
      ImportedOneMore(b, actor, chunks[0], rest);
    }
  }

  ghost function Imported(b: Board, actor: string, all: seq<Envelope>): Outcome {
    var version := b.version + |all|;
    Outcome(b.(version := version, rows := b.rows + Numbered(Rebased(all, b.version), actor, b.version)), Ok(version))
  }

  lemma ImportedOneMore(b: Board, actor: string, first: seq<Envelope>, rest: seq<Envelope>)
    ensures Imported(Imported(b, actor, first).board, actor, rest) == Imported(b, actor, first + rest)
  {
    var x := Numbered(Rebased(first, b.version), actor, b.version);
    var y := Numbered(Rebased(rest, b.version + |first|), actor, b.version + |first|);
    assert (b.rows + x) + y == b.rows + (x + y);
  }

  lemma AloneStep(b: Board, actor: string, chunks: seq<seq<Envelope>>, c: nat, others: nat -> seq<Event>, measure: Measure)
    returns (b': Board)
    requires WellFormed(b) && !b.archived && NoOthers(others)
    requires chunks != [] && chunks[0] != []
    requires FreshIds(Flat(chunks), RowIds(b.rows)) && Submittable(Flat(chunks), measure)
    ensures b' == Imported(b, actor, chunks[0]).board && WellFormed(b')
    ensures FreshIds(Flat(chunks[1..]), RowIds(b'.rows)) && Submittable(Flat(chunks[1..]), measure)
    ensures ImportFrom(b, actor, chunks, c, b.version, others, measure)
      == ImportFrom(b', actor, chunks[1..], c + 1, b'.version, others, measure)
  {
    var first, rest := chunks[0], Flat(chunks[1..]);
    var chunk := Rebased(first, b.version);
    b' := Append(b, actor, chunk);
    ChunkLands(b, actor, first, rest);
    assert forall e :: e in first || e in rest ==> e in first + rest;
    RebasedValid(first, b.version, measure);
    assert Accepts(b, chunk, measure);
    assert PerformAll(b, others(c), measure) == b;
  }

  // What was on the board below the imported strokes.
  ghost function Retained(rows: seq<Row>, clearFirst: bool): seq<Stroke>
    requires !clearFirst ==> Coherent(Reconstruct(Ops(rows)))
  {
    if clearFirst then [] else Drawn(Reconstruct(Ops(rows)))
  }

  // Operation ids are new, none of the generated ids is empty, and every operation is within its cap.
  ghost predicate Importable(b: Board, ops: seq<Operation>, operationIds: Uuids, objectIds: Uuids, measure: Measure) {
    && FreshIds(Envelopes(ops, operationIds), RowIds(b.rows))
    && (forall i: nat :: operationIds(i) != "" && objectIds(i) != "")
    && (forall op :: op in ops ==> measure(op) <= PayloadCap(op))
  }

  // The round trip: an undisturbed import draws the file's strokes, in file order, above what was
  // there (or above nothing after a clear) and reports the board's version.
  lemma ImportDraws(b: Board, actor: string, file: ImportFile, clearFirst: bool,
                    operationIds: Uuids, objectIds: Uuids, others: nat -> seq<Event>, measure: Measure)
    requires WellFormed(b) && !b.archived && ValidateEnvelope(file).None? && NoOthers(others)
    requires !clearFirst ==> Coherent(Reconstruct(Ops(b.rows)))
    requires Importable(b, ImportOps(file.objects, clearFirst, objectIds), operationIds, objectIds, measure)
    requires DistinctIds(Retained(b.rows, clearFirst) + Copies(file.objects, objectIds))
    ensures var all := Envelopes(ImportOps(file.objects, clearFirst, objectIds), operationIds);
      var out := ImportFrom(b, actor, Chunks(all), 0, b.version, others, measure);
      && out.end == Ok(out.board.version)
      && out.board.version == b.version + |file.objects| + (if clearFirst then 1 else 0)
      && Coherent(Reconstruct(Ops(out.board.rows)))
      && Drawn(Reconstruct(Ops(out.board.rows))) == Retained(b.rows, clearFirst) + Copies(file.objects, objectIds)
    ensures CopiesOf(Copies(file.objects, objectIds), file.objects, objectIds)
  {
    CopiesAreCopies(file.objects, objectIds);
    var ops := ImportOps(file.objects, clearFirst, objectIds);
    var all := Envelopes(ops, operationIds);
    ImportIsValid(b, file, clearFirst, operationIds, objectIds, measure);
    var out := ChunksAlone(b, actor, all, others, measure);
    NumberedOps(b.rows, ops, operationIds, actor, b.version);
    OpsDraw(Ops(b.rows), file.objects, clearFirst, objectIds);
  }

  // A file that passes its check yields operations that pass theirs.
  lemma ImportIsValid(b: Board, file: ImportFile, clearFirst: bool, operationIds: Uuids, objectIds: Uuids, measure: Measure)
    requires ValidateEnvelope(file).None?
    requires Importable(b, ImportOps(file.objects, clearFirst, objectIds), operationIds, objectIds, measure)
    ensures Submittable(Envelopes(ImportOps(file.objects, clearFirst, objectIds), operationIds), measure)
  {
    var ops := ImportOps(file.objects, clearFirst, objectIds);
    CheckStrokesIff(file.objects);
    forall i | 0 <= i < |ops| ensures CheckPayload(ops[i]).None? {
      ImportedPasses(file.objects, clearFirst, objectIds, i);
    }
    hide CheckPayload, ImportOps, FreshIds, ValidateEnvelope;
    forall i | 0 <= i < |ops| ensures Validate(Envelopes(ops, operationIds)[i], measure).None? {
      assert ops[i] in ops;
    }
  }

  lemma ImportedPasses(objects: seq<Stroke>, clearFirst: bool, objectIds: Uuids, i: nat)
    requires (forall s :: s in objects ==> GoodStroke(s)) && forall k: nat :: objectIds(k) != ""
    requires i < |ImportOps(objects, clearFirst, objectIds)|
    ensures CheckPayload(ImportOps(objects, clearFirst, objectIds)[i]).None?
  {
    var k := i - if clearFirst then 1 else 0;
    if k >= 0 {
      assert objects[k] in objects;
      assert ImportOps(objects, clearFirst, objectIds)[i] == CreateStroke(Copy(objects[k], objectIds(k)));
      CopyPasses(objects[k], objectIds(k));
    }
  }

  lemma CopyPasses(s: Stroke, id: string)
    requires GoodStroke(s) && id != ""
    ensures GoodStroke(Copy(s, id))
  {
  }

  lemma ChunksAlone(b: Board, actor: string, all: seq<Envelope>, others: nat -> seq<Event>, measure: Measure) returns (out: Outcome)
    requires WellFormed(b) && !b.archived && NoOthers(others)
    requires FreshIds(all, RowIds(b.rows)) && Submittable(all, measure)
    ensures out == ImportFrom(b, actor, Chunks(all), 0, b.version, others, measure)
    ensures out.end == Ok(out.board.version) && out.board.version == b.version + |all|
    ensures out.board.rows == b.rows + Numbered(Rebased(all, b.version), actor, b.version)
  {
    hide ImportFrom;
    ImportAlone(b, actor, Chunks(all), 0, others, measure);
    out := Imported(b, actor, all);
  }

  lemma NumberedOps(rows: seq<Row>, ops: seq<Operation>, operationIds: Uuids, actor: string, version: int)
    ensures Ops(rows + Numbered(Rebased(Envelopes(ops, operationIds), version), actor, version)) == Ops(rows) + ops
  {
  }

  lemma OpsDraw(before: seq<Operation>, objects: seq<Stroke>, clearFirst: bool, objectIds: Uuids)
    requires !clearFirst ==> Coherent(Reconstruct(before))
    requires DistinctIds((if clearFirst then [] else Drawn(Reconstruct(before))) + Copies(objects, objectIds))
    ensures var after := Reconstruct(before + ImportOps(objects, clearFirst, objectIds));
      && Coherent(after)
      && Drawn(after) == (if clearFirst then [] else Drawn(Reconstruct(before))) + Copies(objects, objectIds)
  {
    var copies := Copies(objects, objectIds);
    if clearFirst {
      ReplayFromAppend(EMPTY, before, [ClearCanvas]);
      assert [ClearCanvas][..0] == [];
      assert before + ([ClearCanvas] + Creates(copies)) == (before + [ClearCanvas]) + Creates(copies);
      CreatesDraw(before + [ClearCanvas], copies);
      assert Drawn(EMPTY) + copies == [] + copies;
    } else {
      assert ImportOps(objects, clearFirst, objectIds) == Creates(copies);
      CreatesDraw(before, copies);
    }
  }

  lemma CreatesDraw(before: seq<Operation>, strokes: seq<Stroke>)
    requires Coherent(Reconstruct(before)) && DistinctIds(Drawn(Reconstruct(before)) + strokes)
    ensures var after := Reconstruct(before + Creates(strokes));
      Coherent(after) && Drawn(after) == Drawn(Reconstruct(before)) + strokes
  {
    ReplayFromAppend(EMPTY, before, Creates(strokes));
    ReplayFromPaints(Reconstruct(before), Creates(strokes));
    CreatesPaint(Drawn(Reconstruct(before)), strokes);
  }

  // ---- an import with other writers between its chunks ----

  lemma {:induction false} PerformIds(b: Board, events: seq<Event>, measure: Measure, avoid: set<string>)
    requires RowIds(b.rows) !! avoid
    requires forall e :: e in events ==> EventIds(e) !! avoid
    ensures RowIds(PerformAll(b, events, measure).rows) !! avoid
  {
    if events != [] {
      var init, last := events[..|events| - 1], events[|events| - 1];
      PerformIds(b, init, measure, avoid);
      var mid := PerformAll(b, init, measure);
      assert last in events;
      if last.Submit? && Accepts(mid, last.ops, measure) {
        BatchKnows(mid.rows, last.ops, last.actor, mid.version);
      }
    }
  }

  // The operations stand in one piece, in order, at rows[start..].
  ghost predicate StandsAt(rows: seq<Row>, start: nat, ops: seq<Envelope>) {
    && start + |ops| <= |rows|
    && forall j :: 0 <= j < |ops| ==> rows[start + j].operationId == ops[j].operationId && rows[start + j].op == ops[j].op
  }

  // The first chunks stand in the rows from `lo` on, each in one piece, one after another.
  ghost predicate StandInOrder(rows: seq<Row>, lo: nat, starts: seq<nat>, chunks: seq<seq<Envelope>>)
    decreases |chunks|
  {
    |starts| <= |chunks| &&
    (starts != [] ==>
      && lo <= starts[0]
      && StandsAt(rows, starts[0], chunks[0])
      && StandInOrder(rows, starts[0] + |chunks[0]|, starts[1..], chunks[1..]))
  }

  ghost predicate OthersAvoid(others: nat -> seq<Event>, ids: set<string>) {
    forall c: nat, e :: e in others(c) ==> EventIds(e) !! ids
  }

  // Whatever others do between the chunks, what an import leaves in the ledger is a prefix of its
  // operations made of whole chunks, each in one piece and in order; the whole of it iff it succeeds.
  lemma {:induction false} ImportCommitsWholeChunks(
    b: Board, actor: string, chunks: seq<seq<Envelope>>, c: nat, version: int, others: nat -> seq<Event>, measure: Measure)
    returns (starts: seq<nat>)
    requires WellFormed(b) && forall x :: x in chunks ==> x != []
    requires FreshIds(Flat(chunks), RowIds(b.rows)) && OthersAvoid(others, EnvelopeIds(Flat(chunks)))
    ensures var out := ImportFrom(b, actor, chunks, c, version, others, measure);
      && WellFormed(out.board) && b.rows <= out.board.rows
      && StandInOrder(out.board.rows, |b.rows|, starts, chunks)
      && (out.end.Ok? <==> |starts| == |chunks|)
      && EnvelopeIds(Flat(chunks[|starts|..])) !! RowIds(out.board.rows)
    decreases |chunks|
  {
    starts := [];
    if chunks == [] {
      FreshIsDisjoint([], RowIds(b.rows));
    } else {
      OthersKeepFresh(b, Flat(chunks), others(c), measure);
      var mid := PerformAll(b, others(c), measure);
      assert chunks[0] in chunks && forall x :: x in chunks[1..] ==> x in chunks;
      if Accepts(mid, Rebased(chunks[0], version), measure) {
        var b', start := ChunkStep(b, actor, chunks, c, version, others, measure);
        var more := ImportCommitsWholeChunks(b', actor, chunks[1..], c + 1, b'.version, others, measure);
        starts := [start] + more;
        var rows := ImportFrom(b', actor, chunks[1..], c + 1, b'.version, others, measure).board.rows;
        StandsLonger(b'.rows, rows, start, chunks[0]);
        StandsFirst(rows, |b.rows|, start, |b'.rows|, more, chunks);
        assert chunks[|starts|..] == chunks[1..][|more|..];
      } else {
        assert chunks[0..] == chunks;
        FreshIsDisjoint(Flat(chunks), RowIds(mid.rows));
      }
    }
  }

  lemma StandsFirst(rows: seq<Row>, lo: nat, start: nat, next: nat, more: seq<nat>, chunks: seq<seq<Envelope>>)
    requires chunks != [] && lo <= start && next == start + |chunks[0]|
    requires StandsAt(rows, start, chunks[0]) && StandInOrder(rows, next, more, chunks[1..])
    ensures StandInOrder(rows, lo, [start] + more, chunks)
  {
    assert ([start] + more)[1..] == more;
  }

  lemma StandsLonger(rows: seq<Row>, later: seq<Row>, start: nat, ops: seq<Envelope>)
    requires rows <= later && StandsAt(rows, start, ops)
    ensures StandsAt(later, start, ops)
  {
  }

  lemma ChunkStep(b: Board, actor: string, chunks: seq<seq<Envelope>>, c: nat, version: int, others: nat -> seq<Event>, measure: Measure)
    returns (b': Board, start: nat)
    requires WellFormed(b) && chunks != [] && chunks[0] != []
    requires OthersAvoid(others, EnvelopeIds(Flat(chunks)))
    requires var mid := PerformAll(b, others(c), measure);
      && WellFormed(mid) && b.rows <= mid.rows && FreshIds(Flat(chunks), RowIds(mid.rows))
      && Accepts(mid, Rebased(chunks[0], version), measure)
    ensures WellFormed(b') && b.rows <= b'.rows
    ensures |b.rows| <= start && start + |chunks[0]| == |b'.rows|
    ensures StandsAt(b'.rows, start, chunks[0])
    ensures FreshIds(Flat(chunks[1..]), RowIds(b'.rows)) && OthersAvoid(others, EnvelopeIds(Flat(chunks[1..])))
    ensures ImportFrom(b, actor, chunks, c, version, others, measure)
      == ImportFrom(b', actor, chunks[1..], c + 1, b'.version, others, measure)
  {
    hide ImportFrom, StandsAt, FreshIds, WellFormed, Append, ReportedBy, Accepts;
    var first, rest := chunks[0], Flat(chunks[1..]);
    var mid, chunk := PerformAll(b, others(c), measure), Rebased(first, version);
    b', start := Append(mid, actor, chunk), |mid.rows|;
    AcceptedAtVersion(mid, first, rest, version, measure);
    ImportUnfolds(b, actor, chunks, c, version, others, measure);
    ChunkStands(mid, actor, first, rest);
    EnvelopeIdsAppend(first, rest);
  }

  lemma ImportUnfolds(b: Board, actor: string, chunks: seq<seq<Envelope>>, c: nat, version: int, others: nat -> seq<Event>, measure: Measure)
    requires chunks != []
    requires Accepts(PerformAll(b, others(c), measure), Rebased(chunks[0], version), measure)
    ensures var mid, chunk := PerformAll(b, others(c), measure), Rebased(chunks[0], version);
      ImportFrom(b, actor, chunks, c, version, others, measure)
      == ImportFrom(Append(mid, actor, chunk), actor, chunks[1..], c + 1, ReportedBy(mid, actor, chunk), others, measure)
  {
  }

  lemma ChunkStands(b: Board, actor: string, first: seq<Envelope>, rest: seq<Envelope>)
    requires WellFormed(b) && first != [] && FreshIds(first + rest, RowIds(b.rows))
    ensures var chunk := Rebased(first, b.version);
      var b' := Append(b, actor, chunk);
      && WellFormed(b') && b.rows <= b'.rows && |b'.rows| == |b.rows| + |first|
      && ReportedBy(b, actor, chunk) == b'.version
      && StandsAt(b'.rows, |b.rows|, first)
      && FreshIds(rest, RowIds(b'.rows))
  {
    ChunkLands(b, actor, first, rest);
  }

  // A fresh chunk can only be accepted at the board's own version.
  lemma AcceptedAtVersion(b: Board, first: seq<Envelope>, rest: seq<Envelope>, version: int, measure: Measure)
    requires first != [] && FreshIds(first + rest, RowIds(b.rows)) && Accepts(b, Rebased(first, version), measure)
    ensures version == b.version
  {
    FreshSplit(first, rest, RowIds(b.rows));
    FreshAreNovel(Rebased(first, version), RowIds(b.rows));
    assert Rebased(first, version)[0].baseVersion == version;
  }

  lemma OthersKeepFresh(b: Board, ops: seq<Envelope>, events: seq<Event>, measure: Measure)
    requires WellFormed(b) && FreshIds(ops, RowIds(b.rows))
    requires forall e :: e in events ==> EventIds(e) !! EnvelopeIds(ops)
    ensures var mid := PerformAll(b, events, measure);
      WellFormed(mid) && b.rows <= mid.rows && FreshIds(ops, RowIds(mid.rows))
  {
    HistoryKeepsShape(b, events, measure);
    FreshIsDisjoint(ops, RowIds(b.rows));
    PerformIds(b, events, measure, EnvelopeIds(ops));
    DisjointIsFresh(ops, RowIds(b.rows), RowIds(PerformAll(b, events, measure).rows));
  }

  lemma FreshIsDisjoint(ops: seq<Envelope>, seen: set<string>)
    requires FreshIds(ops, seen)
    ensures EnvelopeIds(ops) !! seen
  {
    forall id | id in seen ensures id !in EnvelopeIds(ops) {
      NotAmong(ops, id);
    }
  }

  lemma DisjointIsFresh(ops: seq<Envelope>, seen: set<string>, now: set<string>)
    requires FreshIds(ops, seen) && EnvelopeIds(ops) !! now
    ensures FreshIds(ops, now)
  {
    forall i | 0 <= i < |ops| ensures ops[i].operationId !in now {
      EnvelopeIdsHave(ops, i);
    }
  }
}
