// How the client's engine turns local edits into server operations and server operations into
// local edits, and that both sides then hold the same drawing.
module EngineOps {
  import opened Prelude
  import opened Drawing
  import opened Replay
  import opened Validator
  import opened Ledger
  import C = ClientBoard

  // ---- local edits to envelopes ----

  // Reading the first point of a stroke without points is an error in the source.
  predicate Sendable(op: C.Op) {
    op.Move? ==> op.from.points != [] && op.to.points != []
  }

  function ServerOps(op: C.Op): seq<Operation>
    requires Sendable(op)
  {
    match op
    case Add(strokes) => Creates(strokes)
    case Remove(strokes) => Deletes(Ids(strokes))
    case Clear(_) => [ClearCanvas]
    case Move(from, to) => [MoveObject(to.id, to.points[0].x - from.points[0].x, to.points[0].y - from.points[0].y)]
    case Resize(_, to, anchor, sx, sy) => [ResizeObject(to.id, anchor, sx, sy)]
  }

  function EnvelopesFor(ops: seq<Operation>, version: int, uuids: Uuids, issued: nat): seq<Envelope> {
    seq(|ops|, i requires 0 <= i < |ops| => Envelope(uuids(issued + i), version + i, ops[i], None))
  }

  // The part of the engine that matters to the server: its board, the version it believes the
  // server is at, and how many operation ids it has drawn.
  datatype Doc = Doc(board: C.Board, serverVersion: int, issued: nat)

  function Committed(d: Doc, op: C.Op): Doc
    requires Sendable(op)
  {
    Doc(C.Commit(d.board, op), d.serverVersion + |ServerOps(op)|, d.issued + |ServerOps(op)|)
  }

  function Emitted(d: Doc, op: C.Op, uuids: Uuids): seq<Envelope>
    requires Sendable(op)
  {
    EnvelopesFor(ServerOps(op), d.serverVersion, uuids, d.issued)
  }

  function CommittedAll(d: Doc, ops: seq<C.Op>): Doc
    requires forall op :: op in ops ==> Sendable(op)
  {
    if ops == [] then d else Committed(CommittedAll(d, ops[..|ops| - 1]), ops[|ops| - 1])
  }

  function EmittedAll(d: Doc, ops: seq<C.Op>, uuids: Uuids): seq<Envelope>
    requires forall op :: op in ops ==> Sendable(op)
  {
    if ops == [] then []
    else
      var init := ops[..|ops| - 1];
      EmittedAll(d, init, uuids) + Emitted(CommittedAll(d, init), ops[|ops| - 1], uuids)
  }

  // An edit built against these strokes: additions are new, removals are there, a clear names
  // everything, and a transform really is the translation or scaling it will be sent as.
  ghost predicate Built(strokes: seq<Stroke>, op: C.Op) {
    match op
    case Add(added) => DistinctIds(added) && forall s :: s in added ==> s.id !in Ids(strokes)
    case Remove(removed) => DistinctIds(removed) && forall s :: s in removed ==> s in strokes
    case Clear(cleared) => cleared == strokes
    case Move(from, to) =>
      && from in strokes && from.points != [] && to.points != []
      && to == Moved(from, to.points[0].x - from.points[0].x, to.points[0].y - from.points[0].y)
    case Resize(from, to, anchor, sx, sy) => from in strokes && to == Resized(from, anchor, sx, sy)
  }

  // A translated stroke tells its own translation: any one of its points does.
  lemma TranslationIsRead(from: Stroke, dx: real, dy: real)
    requires from.points != []
    ensures var to := Moved(from, dx, dy);
      to.points != [] && to.points[0].x - from.points[0].x == dx && to.points[0].y - from.points[0].y == dy
  {
  }

  lemma TransformPaints(strokes: seq<Stroke>, from: Stroke, to: Stroke, op: Operation)
    requires DistinctIds(strokes) && from in strokes && to.id == from.id
    requires match op
      case MoveObject(id, dx, dy) => id == from.id && to == Moved(from, dx, dy)
      case ResizeObject(id, anchor, sx, sy) => id == from.id && to == Resized(from, anchor, sx, sy)
      case _ => false
    ensures Paint(strokes, op) == ReplaceById(strokes, to)
  {
    forall i | 0 <= i < |strokes| && strokes[i].id == from.id ensures strokes[i] == from {
      SameId(strokes, strokes[i], from);
    }
  }

  lemma SameId(strokes: seq<Stroke>, s: Stroke, t: Stroke)
    requires DistinctIds(strokes) && s in strokes && t in strokes && s.id == t.id
    ensures s == t
  {
    var i :| 0 <= i < |strokes| && strokes[i] == s;
    var j :| 0 <= j < |strokes| && strokes[j] == t;
    assert Ids(strokes)[i] == Ids(strokes)[j];
  }

  lemma OnePaint(strokes: seq<Stroke>, op: Operation)
    ensures PaintAll(strokes, [op]) == Paint(strokes, op)
  {
    assert [op][..0] == [];
  }

  // One local edit: painting what it sends is the edit itself, order included.
  lemma EditPaints(strokes: seq<Stroke>, op: C.Op)
    requires DistinctIds(strokes) && Built(strokes, op)
    ensures Sendable(op)
    ensures PaintAll(strokes, ServerOps(op)) == C.NextStrokes(strokes, op)
    ensures DistinctIds(C.NextStrokes(strokes, op))
    ensures C.Fits(C.ContentOf(strokes), op)
  {
    BuiltFits(strokes, op);
    C.NextContent(strokes, op);
    match op
    case Add(added) =>
      C.DistinctAppend(strokes, added);
      CreatesPaint(strokes, added);
      WithoutAbsent(added, Elems(Ids(strokes)));
    case Remove(removed) => DeletesPaint(strokes, Ids(removed));
    case Clear(_) => OnePaint(strokes, ClearCanvas);
    case Move(from, to) =>
      var sent := ServerOps(op)[0];
      OnePaint(strokes, sent);
      TransformPaints(strokes, from, to, sent);
    case Resize(from, to, anchor, sx, sy) =>
      var sent := ServerOps(op)[0];
      OnePaint(strokes, sent);
      TransformPaints(strokes, from, to, sent);
  }

  // What the engine builds is what the undo stack needs.
  lemma BuiltFits(strokes: seq<Stroke>, op: C.Op)
    requires DistinctIds(strokes) && Built(strokes, op)
    ensures C.Fits(C.ContentOf(strokes), op)
  {
    match op
    case Add(added) =>
      FileAllLooksUp(added);
      FileAllLooksUp(strokes);
      forall id | id in FileAll(added) ensures id !in FileAll(strokes) {
        IdsLookUp(added, id);
      }
    case Remove(removed) =>
      FileAllLooksUp(removed);
      forall p | p in FileAll(removed).Items ensures p in FileAll(strokes).Items {
        C.ContentLists(strokes, FileAll(removed)[p.0]);
        assert FileAll(strokes)[p.0] == p.1;
      }
    case Clear(_) =>
    case Move(from, _) => C.ContentLists(strokes, from);
    case Resize(from, _, _, _, _) => C.ContentLists(strokes, from);
  }

  ghost predicate AllBuilt(d: Doc, ops: seq<C.Op>) {
    && (forall op :: op in ops ==> Sendable(op))
    && (ops != [] ==>
      && AllBuilt(d, ops[..|ops| - 1])
      && Built(CommittedAll(d, ops[..|ops| - 1]).board.strokes, ops[|ops| - 1]))
  }

  function OpsOf(es: seq<Envelope>): seq<Operation> {
    seq(|es|, i requires 0 <= i < |es| => es[i].op)
  }

  // What one more edit adds.
  lemma OneMoreEdit(d: Doc, ops: seq<C.Op>, uuids: Uuids) returns (init: seq<C.Op>, op: C.Op, mid: Doc, more: seq<Operation>)
    requires ops != [] && forall op :: op in ops ==> Sendable(op)
    ensures init == ops[..|ops| - 1] && op == ops[|ops| - 1] && Sendable(op) && forall op :: op in init ==> Sendable(op)
    ensures mid == CommittedAll(d, init) && more == ServerOps(op)
    ensures CommittedAll(d, ops).board.strokes == C.NextStrokes(mid.board.strokes, op)
    ensures CommittedAll(d, ops).serverVersion == mid.serverVersion + |more|
    ensures CommittedAll(d, ops).issued == mid.issued + |more|
    ensures EmittedAll(d, ops, uuids) == EmittedAll(d, init, uuids) + EnvelopesFor(more, mid.serverVersion, uuids, mid.issued)
  {
    init, op := ops[..|ops| - 1], ops[|ops| - 1];
    mid, more := CommittedAll(d, init), ServerOps(op);
  }

  // Any sequence of edits sends an unbroken chain from the baseline, under the next operation ids.
  lemma {:induction false} EditsChain(d: Doc, ops: seq<C.Op>, uuids: Uuids)
    requires forall op :: op in ops ==> Sendable(op)
    ensures var es, d' := EmittedAll(d, ops, uuids), CommittedAll(d, ops);
      d'.serverVersion == d.serverVersion + |es| && d'.issued == d.issued + |es|
    ensures var es := EmittedAll(d, ops, uuids);
      es == EnvelopesFor(OpsOf(es), d.serverVersion, uuids, d.issued)
  {
    hide EmittedAll, CommittedAll, ServerOps, OpsOf, EnvelopesFor, Sendable;
    if ops == [] {
      NoEditsChain(d, uuids);
    } else {
      var init, op, mid, more := OneMoreEdit(d, ops, uuids);
      EditsChain(d, init, uuids);
      ChainSnoc(EmittedAll(d, init, uuids), more, d.serverVersion, uuids, d.issued);
    }
  }

  lemma NoEditsChain(d: Doc, uuids: Uuids)
    ensures CommittedAll(d, []) == d && EmittedAll(d, [], uuids) == []
    ensures OpsOf([]) == [] && EnvelopesFor([], d.serverVersion, uuids, d.issued) == []
  {
  }

  lemma ChainSnoc(es: seq<Envelope>, more: seq<Operation>, version: int, uuids: Uuids, issued: nat)
    requires es == EnvelopesFor(OpsOf(es), version, uuids, issued)
    ensures var all := es + EnvelopesFor(more, version + |es|, uuids, issued + |es|);
      all == EnvelopesFor(OpsOf(all), version, uuids, issued) && |all| == |es| + |more|
  {
    hide OpsOf, EnvelopesFor;
    OpsOfLength(es);
    OpsOfAppend(es, more, version + |es|, uuids, issued + |es|);
    EnvelopesAppend(OpsOf(es), more, version, uuids, issued);
    EnvelopesLength(more, version + |es|, uuids, issued + |es|);
  }

  lemma OpsOfLength(es: seq<Envelope>)
    ensures |OpsOf(es)| == |es|
  {
  }

  lemma EnvelopesLength(ops: seq<Operation>, version: int, uuids: Uuids, issued: nat)
    ensures |EnvelopesFor(ops, version, uuids, issued)| == |ops|
  {
  }

  lemma EnvelopesAppend(a: seq<Operation>, b: seq<Operation>, version: int, uuids: Uuids, issued: nat)
    ensures EnvelopesFor(a + b, version, uuids, issued)
      == EnvelopesFor(a, version, uuids, issued) + EnvelopesFor(b, version + |a|, uuids, issued + |a|)
  {
  }

  lemma OpsOfAppend(es: seq<Envelope>, ops: seq<Operation>, version: int, uuids: Uuids, issued: nat)
    ensures OpsOf(es + EnvelopesFor(ops, version, uuids, issued)) == OpsOf(es) + ops
  {
  }

  // And painting what is sent is making the edits.
  lemma {:induction false} EditsPaint(d: Doc, ops: seq<C.Op>, uuids: Uuids)
    requires DistinctIds(d.board.strokes) && AllBuilt(d, ops)
    ensures DistinctIds(CommittedAll(d, ops).board.strokes)
    ensures CommittedAll(d, ops).board.strokes == PaintAll(d.board.strokes, OpsOf(EmittedAll(d, ops, uuids)))
  {
    if ops == [] {
      assert OpsOf([]) == [];
    } else {
      hide EmittedAll, CommittedAll, ServerOps, PaintAll, C.NextStrokes, OpsOf;
      var init, op, mid, more := OneMoreEdit(d, ops, uuids);
      EditsPaint(d, init, uuids);
      EditPaints(mid.board.strokes, op);
      OpsOfAppend(EmittedAll(d, init, uuids), more, mid.serverVersion, uuids, mid.issued);
      PaintAllAppend(d.board.strokes, OpsOf(EmittedAll(d, init, uuids)), more);
    }
  }

  // The server holds exactly what the client shows, at the version the client believes in.
  ghost predicate Agree(b: Board, d: Doc) {
    && WellFormed(b) && b.version == d.serverVersion
    && Coherent(Reconstruct(Ops(b.rows)))
    && Drawn(Reconstruct(Ops(b.rows))) == d.board.strokes
  }

  // None of the operation ids drawn from now on is known to the server, and they do not repeat.
  ghost predicate FreshUuids(b: Board, uuids: Uuids, issued: nat) {
    && (forall i: nat :: i >= issued ==> uuids(i) !in RowIds(b.rows) && uuids(i) != "")
    && (forall i: nat, j: nat :: issued <= i < j ==> uuids(i) != uuids(j))
  }

  lemma NumberedOpsOf(rows: seq<Row>, es: seq<Envelope>, actor: string, version: int)
    ensures Ops(rows + Numbered(es, actor, version)) == Ops(rows) + OpsOf(es)
  {
  }

  lemma SentIsAccepted(b: Board, d: Doc, ops: seq<C.Op>, actor: string, uuids: Uuids, measure: Measure)
    requires Agree(b, d) && !b.archived && FreshUuids(b, uuids, d.issued) && forall op :: op in ops ==> Sendable(op)
    requires var es := EmittedAll(d, ops, uuids); es != [] && FirstInvalid(es, measure).None?
    ensures var es := EmittedAll(d, ops, uuids);
      && Novel(es, RowIds(b.rows)) == es
      && Chained(es, b.version)
      && Accepts(b, es, measure)
      && Submitted(b, actor, es, measure) == b.(version := b.version + |es|, rows := b.rows + Numbered(es, actor, b.version))
  {
    hide EmittedAll, CommittedAll, Novel, FirstInvalid, WellFormed, Numbered, Drawn, ReplayFrom;
    EditsChain(d, ops, uuids);
    var es := EmittedAll(d, ops, uuids);
    ChainIsNovel(b, OpsOf(es), uuids, d.issued);
    hide OpsOf, EnvelopesFor;
  }

  lemma ChainIsNovel(b: Board, ops: seq<Operation>, uuids: Uuids, issued: nat)
    requires FreshUuids(b, uuids, issued)
    ensures var es := EnvelopesFor(ops, b.version, uuids, issued);
      Novel(es, RowIds(b.rows)) == es && Chained(es, b.version)
  {
    hide RowIds, Novel;
    var es := EnvelopesFor(ops, b.version, uuids, issued);
    assert FreshIds(es, RowIds(b.rows));
    FreshAreNovel(es, RowIds(b.rows));
  }

  // Whatever sequence of edits is sent, the server draws what its envelopes paint.
  lemma SentIsDrawn(b: Board, d: Doc, ops: seq<C.Op>, actor: string, uuids: Uuids)
    requires Agree(b, d) && forall op :: op in ops ==> Sendable(op)
    ensures var es, d' := EmittedAll(d, ops, uuids), CommittedAll(d, ops);
      var st := Reconstruct(Ops(b.rows + Numbered(es, actor, b.version)));
      && Coherent(st) && Drawn(st) == PaintAll(d.board.strokes, OpsOf(es))
      && d'.serverVersion == b.version + |es|
  {
    hide EmittedAll, CommittedAll, ReplayFrom, PaintAll, Numbered;
    var es := EmittedAll(d, ops, uuids);
    var st := Reconstruct(Ops(b.rows));
    EditsChain(d, ops, uuids);
    EmittedOps(d, ops, uuids);
    NumberedOpsOf(b.rows, es, actor, b.version);
    ReplayFromAppend(EMPTY, Ops(b.rows), OpsOf(es));
    hide Coherent, Drawn;
    ReplayFromPaints(st, OpsOf(es));
  }

  // So both sides agree afterwards exactly when the envelopes paint what the edits make.
  lemma SentAgreesIff(b: Board, d: Doc, ops: seq<C.Op>, actor: string, uuids: Uuids, measure: Measure)
    requires Agree(b, d) && !b.archived && FreshUuids(b, uuids, d.issued) && forall op :: op in ops ==> Sendable(op)
    requires var es := EmittedAll(d, ops, uuids); es != [] && FirstInvalid(es, measure).None?
    ensures var es := EmittedAll(d, ops, uuids);
      && Accepts(b, es, measure)
      && OneByOne(b, actor, es, measure) == Submitted(b, actor, es, measure)
      && (Agree(Submitted(b, actor, es, measure), CommittedAll(d, ops)) <==>
           PaintAll(d.board.strokes, OpsOf(es)) == CommittedAll(d, ops).board.strokes)
  {
    var es := EmittedAll(d, ops, uuids);
    SentIsAccepted(b, d, ops, actor, uuids, measure);
    BatchEqualsSingles(b, actor, es, measure);
    SubmittedWellFormed(b, actor, es, measure);
    SentIsDrawn(b, d, ops, actor, uuids);
    hide EmittedAll, CommittedAll, Accepts, Submitted, OneByOne, Reconstruct, Drawn, Coherent, PaintAll, OpsOf, WellFormed, Numbered;
  }

  // The simulation: from agreement, any sequence of edits the client builds is accepted by the
  // server, whether its envelopes arrive as one batch or one by one, and both sides agree again.
  lemma LocalEditsCommute(b: Board, d: Doc, ops: seq<C.Op>, actor: string, uuids: Uuids, measure: Measure)
    requires Agree(b, d) && !b.archived && FreshUuids(b, uuids, d.issued) && AllBuilt(d, ops)
    requires var es := EmittedAll(d, ops, uuids); es != [] && FirstInvalid(es, measure).None?
    ensures var es := EmittedAll(d, ops, uuids);
      && Accepts(b, es, measure)
      && OneByOne(b, actor, es, measure) == Submitted(b, actor, es, measure)
      && Agree(Submitted(b, actor, es, measure), CommittedAll(d, ops))
  {
    SentAgreesIff(b, d, ops, actor, uuids, measure);
    DrawnIds(Reconstruct(Ops(b.rows)));
    EditsPaint(d, ops, uuids);
  }

  // The engine never sends a restore.
  lemma {:induction false} EmittedOps(d: Doc, ops: seq<C.Op>, uuids: Uuids)
    requires forall op :: op in ops ==> Sendable(op)
    ensures forall i :: 0 <= i < |EmittedAll(d, ops, uuids)| ==> !EmittedAll(d, ops, uuids)[i].op.RestoreVersion?
  {
    if ops != [] {
      EmittedOps(d, ops[..|ops| - 1], uuids);
      var mid, op := CommittedAll(d, ops[..|ops| - 1]), ops[|ops| - 1];
      assert forall i :: 0 <= i < |ServerOps(op)| ==> !ServerOps(op)[i].RestoreVersion?;
    }
  }

  // ---- a transform of a stroke that has changed meanwhile ----

  // If the stroke is still on the board, it is as it was.
  ghost predicate Unchanged(strokes: seq<Stroke>, from: Stroke) {
    forall s :: s in strokes && s.id == from.id ==> s == from
  }

  lemma SameMove(s: Stroke, t: Stroke, dx: real, dy: real)
    requires Moved(s, dx, dy) == Moved(t, dx, dy)
    ensures s == t
  {
    var u := Moved(s, dx, dy);
    forall i | 0 <= i < |u.points| ensures s.points[i] == t.points[i] {
      assert u.points[i] == Point(s.points[i].x + dx, s.points[i].y + dy);
      assert u.points[i] == Point(t.points[i].x + dx, t.points[i].y + dy);
    }
  }

  lemma SameScaling(anchor: real, x: real, y: real, scale: real)
    requires scale > 0.0 && ScaledFrom(anchor, x, scale) == ScaledFrom(anchor, y, scale)
    ensures x == y
  {
    assert (x - y) * scale == 0.0;
  }

  lemma SameResize(s: Stroke, t: Stroke, anchor: Point, sx: real, sy: real)
    requires sx > 0.0 && sy > 0.0 && Resized(s, anchor, sx, sy) == Resized(t, anchor, sx, sy)
    ensures s == t
  {
    hide ScaledFrom;
    var u := Resized(s, anchor, sx, sy);
    forall i | 0 <= i < |u.points| ensures s.points[i] == t.points[i] {
      assert u.points[i] == Point(ScaledFrom(anchor.x, s.points[i].x, sx), ScaledFrom(anchor.y, s.points[i].y, sy));
      assert u.points[i] == Point(ScaledFrom(anchor.x, t.points[i].x, sx), ScaledFrom(anchor.y, t.points[i].y, sy));
      SameScaling(anchor.x, s.points[i].x, t.points[i].x, sx);
      SameScaling(anchor.y, s.points[i].y, t.points[i].y, sy);
    }
  }

  ghost predicate IsTransform(op: C.Op) {
    match op
    case Move(from, to) =>
      from.points != [] && to.points != [] && to == Moved(from, to.points[0].x - from.points[0].x, to.points[0].y - from.points[0].y)
    case Resize(from, to, anchor, sx, sy) => sx > 0.0 && sy > 0.0 && to == Resized(from, anchor, sx, sy)
    case _ => false
  }

  // What the server makes of a stroke it is told to transform.
  function Image(s: Stroke, op: C.Op): Stroke
    requires Sendable(op) && (op.Move? || op.Resize?)
  {
    match op
    case Move(from, to) => Moved(s, to.points[0].x - from.points[0].x, to.points[0].y - from.points[0].y)
    case Resize(_, _, anchor, sx, sy) => Resized(s, anchor, sx, sy)
  }

  lemma TransformIsSendable(op: C.Op)
    requires IsTransform(op)
    ensures (op.Move? || op.Resize?) && Sendable(op) && op.to.id == op.from.id
    ensures Image(op.from, op) == op.to
  {
  }

  lemma SameImage(s: Stroke, op: C.Op)
    requires IsTransform(op) && Sendable(op)
    ensures Image(s, op) == op.to <==> s == op.from
  {
    match op
    case Move(from, to) =>
      var dx, dy := to.points[0].x - from.points[0].x, to.points[0].y - from.points[0].y;
      if Moved(s, dx, dy) == to {
        SameMove(s, from, dx, dy);
      }
    case Resize(from, to, anchor, sx, sy) =>
      if Resized(s, anchor, sx, sy) == to {
        SameResize(s, from, anchor, sx, sy);
      }
  }

  // The server transforms the stroke it has, the client puts the old stroke transformed in its place.
  // That is the same exactly when the stroke is gone or unchanged.
  lemma TransformPaintsIff(strokes: seq<Stroke>, op: C.Op)
    requires IsTransform(op)
    ensures Sendable(op)
    ensures PaintAll(strokes, ServerOps(op)) == C.NextStrokes(strokes, op) <==> Unchanged(strokes, op.from)
  {
    TransformIsSendable(op);
    var sent := ServerOps(op)[0];
    OnePaint(strokes, sent);
    var painted, made := Paint(strokes, sent), C.NextStrokes(strokes, op);
    forall i | 0 <= i < |strokes| ensures painted[i] == made[i] <==> (strokes[i].id == op.from.id ==> strokes[i] == op.from) {
      assert painted[i] == if strokes[i].id == op.from.id then Image(strokes[i], op) else strokes[i];
      SameImage(strokes[i], op);
    }
    hide IsTransform, Paint, PaintAll, C.NextStrokes;
    SameAtEach(painted, made);
  }

  lemma SameAtEach(a: seq<Stroke>, b: seq<Stroke>)
    requires |a| == |b|
    ensures a == b <==> forall i :: 0 <= i < |a| ==> a[i] == b[i]
  {
  }

  // ---- local undo and redo are not sent ----

  // The undone operation can be taken back without the board changing.
  ghost predicate UndoneIsIdle(strokes: seq<Stroke>, op: C.Op) {
    match op
    case Add(added) => forall s :: s in added ==> s.id !in Ids(strokes)
    case Remove(removed) => forall s :: s in removed ==> s.id in Ids(strokes)
    case Clear(cleared) => forall s :: s in cleared ==> s.id in Ids(strokes)
    case Move(from, _) => forall s :: s in strokes && s.id == from.id ==> s == from
    case Resize(from, _, _, _, _) => forall s :: s in strokes && s.id == from.id ==> s == from
  }

  ghost predicate RedoneIsIdle(strokes: seq<Stroke>, op: C.Op) {
    match op
    case Add(added) => forall s :: s in added ==> s.id in Ids(strokes)
    case Remove(removed) => forall s :: s in removed ==> s.id !in Ids(strokes)
    case Clear(_) => strokes == []
    case Move(_, to) => forall s :: s in strokes && s.id == to.id ==> s == to
    case Resize(_, to, _, _, _) => forall s :: s in strokes && s.id == to.id ==> s == to
  }

  // After an undo the server still draws the client's strokes exactly when there was nothing to undo
  // or taking the operation back changes nothing.
  lemma UndoKeepsAgreementIff(b: Board, d: Doc)
    requires Agree(b, d)
    ensures Agree(b, d.(board := C.Undo(d.board)))
      <==> (d.board.past == [] || UndoneIsIdle(d.board.strokes, d.board.past[|d.board.past| - 1]))
  {
    if d.board.past != [] {
      C.IdleIff(d.board.strokes, C.InvertOp(d.board.past[|d.board.past| - 1]));
    }
  }

  lemma RedoKeepsAgreementIff(b: Board, d: Doc)
    requires Agree(b, d)
    ensures Agree(b, d.(board := C.Redo(d.board)))
      <==> (d.board.future == [] || RedoneIsIdle(d.board.strokes, d.board.future[|d.board.future| - 1]))
  {
    if d.board.future != [] {
      C.IdleIff(d.board.strokes, d.board.future[|d.board.future| - 1]);
    }
  }

  ghost function OneCreated(s: Stroke): Board {
    Board(1, false, [Row("a", 1, "p", CreateStroke(s), 0, 1)])
  }

  lemma OneCreatedIsWellFormed(s: Stroke)
    ensures WellFormed(OneCreated(s)) && Ops(OneCreated(s).rows) == [CreateStroke(s)]
  {
  }

  lemma CreatedFromNothing(s: Stroke)
    ensures Coherent(EMPTY) && Drawn(EMPTY) == []
    ensures Reconstruct([CreateStroke(s)]) == Apply(EMPTY, CreateStroke(s))
  {
    assert [CreateStroke(s)][..0] == [];
    assert ReplayFrom(EMPTY, []) == EMPTY;
    hide Apply;
  }

  lemma OneCreatedDraws(s: Stroke)
    ensures WellFormed(OneCreated(s))
    ensures Coherent(Reconstruct(Ops(OneCreated(s).rows))) && Drawn(Reconstruct(Ops(OneCreated(s).rows))) == [s]
  {
    OneCreatedIsWellFormed(s);
    CreatedFromNothing(s);
    hide OneCreated, WellFormed, Reconstruct, Drawn, Coherent, Without, Apply;
    CreatePaints(EMPTY, s);
    WithoutNone({s.id});
    assert [] + [s] == [s];
  }

  lemma WithoutNone(ids: set<string>)
    ensures Without([], ids) == []
  {
  }

  lemma FirstAdded(s: Stroke)
    ensures C.NextStrokes([], C.Add([s])) == [s]
  {
    hide Without;
    assert Ids([]) == [];
    WithoutOne(s, Elems(Ids([])));
  }

  lemma OnlyRemoved(s: Stroke)
    ensures C.NextStrokes([s], C.Remove([s])) == []
  {
    hide Without;
    assert Ids([s])[0] == s.id;
    WithoutOne(s, Elems(Ids([s])));
  }

  lemma AddedAndUndone(s: Stroke)
    ensures var added := C.Commit(C.NEW_BOARD, C.Add([s])); added.strokes == [s] && C.Undo(added).strokes == []
  {
    hide C.NextStrokes;
    FirstAdded(s);
    OnlyRemoved(s);
    var past := C.NEW_BOARD.past + [C.Add([s])];
    assert past[|past| - 1] == C.Add([s]);
  }

  // A case: a stroke is drawn, sent and accepted, and then undone. The client shows nothing, the
  // server the stroke.
  lemma UndoOfDrawing(s: Stroke)
    ensures var b, d := OneCreated(s), Committed(Doc(C.NEW_BOARD, 0, 0), C.Add([s]));
      && Agree(b, d) && !Agree(b, d.(board := C.Undo(d.board)))
      && C.Undo(d.board).strokes == [] && Drawn(Reconstruct(Ops(b.rows))) == [s]
  {
    OneCreatedDraws(s);
    AddedAndUndone(s);
    hide Reconstruct, Drawn, Coherent, C.Undo, C.Commit;
  }

  // ---- what the validator thinks of it ----

  // The parts of an edit the server checks: strokes it adds pass as objects, and scales are in range.
  ghost predicate Acceptable(op: C.Op) {
    match op
    case Add(added) => forall s :: s in added ==> GoodStroke(s)
    case Remove(removed) => forall s :: s in removed ==> s.id != ""
    case Clear(_) => true
    case Move(_, to) => to.id != ""
    case Resize(_, to, _, sx, sy) => to.id != "" && 0.001 <= sx <= 1000.0 && 0.001 <= sy <= 1000.0
  }

  // Exactly the acceptable edits translate into payloads the validator passes.
  lemma AcceptableIff(op: C.Op)
    requires Sendable(op)
    ensures (forall o :: o in ServerOps(op) ==> CheckPayload(o).None?) <==> Acceptable(op)
  {
    var ops := ServerOps(op);
    match op
    case Add(added) =>
      assert forall i :: 0 <= i < |added| ==> ops[i] == CreateStroke(added[i]);
      assert forall i :: 0 <= i < |added| ==> added[i] in added && (CheckPayload(ops[i]).None? <==> GoodStroke(added[i]));
      assert Acceptable(op) <==> forall i :: 0 <= i < |added| ==> GoodStroke(added[i]);
    case Remove(removed) =>
      assert forall i :: 0 <= i < |removed| ==> ops[i] == DeleteObject(removed[i].id);
      assert forall i :: 0 <= i < |removed| ==> removed[i] in removed && (CheckPayload(ops[i]).None? <==> removed[i].id != "");
      assert Acceptable(op) <==> forall i :: 0 <= i < |removed| ==> removed[i].id != "";
    case Clear(_) =>
    case Move(_, _) => assert CheckPayload(ops[0]).None? <==> Acceptable(op);
    case Resize(_, _, _, _, _) => assert CheckPayload(ops[0]).None? <==> Acceptable(op);
  }

  // Within the byte caps, the server finds nothing wrong with what is sent exactly when every edit
  // is acceptable.
  lemma SentIsValidIff(d: Doc, ops: seq<C.Op>, uuids: Uuids, measure: Measure)
    requires (forall op :: op in ops ==> Sendable(op)) && d.serverVersion >= 0
    requires forall i: nat :: i >= d.issued ==> uuids(i) != ""
    requires forall e :: e in EmittedAll(d, ops, uuids) ==> measure(e.op) <= PayloadCap(e.op)
    ensures FirstInvalid(EmittedAll(d, ops, uuids), measure).None? <==> AllAcceptable(ops)
  {
    var es := EmittedAll(d, ops, uuids);
    EditsChain(d, ops, uuids);
    FirstInvalidIff(es, measure);
    forall i | 0 <= i < |es| ensures es[i] in es && (Validate(es[i], measure).None? <==> CheckPayload(es[i].op).None?) {
      assert es[i] == EnvelopesFor(OpsOf(es), d.serverVersion, uuids, d.issued)[i];
    }
    PayloadsPassIff(d, ops, uuids);
  }

  ghost predicate PayloadsPass(es: seq<Envelope>) {
    forall i :: 0 <= i < |es| ==> CheckPayload(es[i].op).None?
  }

  ghost predicate AllAcceptable(ops: seq<C.Op>) {
    forall op :: op in ops ==> Acceptable(op)
  }

  lemma {:induction false} PayloadsPassIff(d: Doc, ops: seq<C.Op>, uuids: Uuids)
    requires forall op :: op in ops ==> Sendable(op)
    ensures PayloadsPass(EmittedAll(d, ops, uuids)) <==> AllAcceptable(ops)
  {
    if ops != [] {
      var init, op, x, y := LastEditPasses(d, ops, uuids);
      hide EmittedAll, PayloadsPass, AllAcceptable;
      PayloadsPassIff(d, init, uuids);
      PassAppend(x, y);
      AcceptableSnoc(init, op);
    }
  }

  lemma LastEditPasses(d: Doc, ops: seq<C.Op>, uuids: Uuids)
    returns (init: seq<C.Op>, op: C.Op, x: seq<Envelope>, y: seq<Envelope>)
    requires ops != [] && forall op :: op in ops ==> Sendable(op)
    ensures init + [op] == ops && |init| < |ops| && forall op :: op in init ==> Sendable(op)
    ensures x == EmittedAll(d, init, uuids) && EmittedAll(d, ops, uuids) == x + y
    ensures PayloadsPass(y) <==> Acceptable(op)
  {
    hide EmittedAll, CommittedAll, PayloadsPass, Acceptable, ServerOps, EnvelopesFor;
    var mid, more;
    init, op, mid, more := OneMoreEdit(d, ops, uuids);
    x, y := EmittedAll(d, init, uuids), EnvelopesFor(more, mid.serverVersion, uuids, mid.issued);
    EditPassesIff(op, mid.serverVersion, uuids, mid.issued);
  }

  lemma EditPassesIff(op: C.Op, version: int, uuids: Uuids, issued: nat)
    requires Sendable(op)
    ensures PayloadsPass(EnvelopesFor(ServerOps(op), version, uuids, issued)) <==> Acceptable(op)
  {
    hide CheckPayload, Acceptable;
    AcceptableIff(op);
    var ops := ServerOps(op);
    var es := EnvelopesFor(ops, version, uuids, issued);
    assert forall i :: 0 <= i < |ops| ==> es[i].op == ops[i];
  }

  lemma AcceptableSnoc(init: seq<C.Op>, op: C.Op)
    ensures AllAcceptable(init + [op]) <==> AllAcceptable(init) && Acceptable(op)
  {
    hide Acceptable;
    assert op in init + [op];
    assert forall x :: x in init ==> x in init + [op];
  }

  lemma PassAppend(a: seq<Envelope>, b: seq<Envelope>)
    ensures PayloadsPass(a + b) <==> PayloadsPass(a) && PayloadsPass(b)
  {
    hide CheckPayload;
    var ab := a + b;
    if PayloadsPass(ab) {
      assert forall i :: 0 <= i < |a| ==> ab[i] == a[i];
      assert forall i :: 0 <= i < |b| ==> ab[|a| + i] == b[i];
    }
  }

  // ---- server operations to local edits ----

  const DEFAULT_COLOR := "#2563eb"

  // For strokes that come from the server.
  function NormalizeColor(c: string): string {
    if IsHexColor(c) then c else DEFAULT_COLOR
  }

  function LowerChar(c: char): char {
    if 'A' <= c <= 'Z' then (c as int + 32) as char else c
  }

  function Lower(s: string): string {
    seq(|s|, i requires 0 <= i < |s| => LowerChar(s[i]))
  }

  // For the pen's own color.
  function ResolveColor(c: string): string {
    if IsHexColor(c) then Lower(c) else DEFAULT_COLOR
  }

  // The pen's color is a lower-case hex color that the server accepts and both readings leave alone.
  lemma ResolvedColor(c: string)
    ensures var r := ResolveColor(c);
      && IsHexColor(r) && MatchesServerColor(r) && (forall i :: 0 <= i < |r| ==> !('A' <= r[i] <= 'Z'))
      && ResolveColor(r) == r && NormalizeColor(r) == r
  {
    if IsHexColor(c) {
      var r := Lower(c);
      assert forall i :: 1 <= i < 7 ==> IsHexDigit(c[i]) && IsHexDigit(r[i]);
      assert Lower(r) == r;
    } else {
      assert Lower(DEFAULT_COLOR) == DEFAULT_COLOR;
    }
  }

  // Math.round: halves go up.
  function Round(x: real): real {
    (x + 0.5).Floor as real
  }

  function NormalizeWidth(w: real): real {
    Round(Clamp(w, 1.0, 64.0))
  }

  function NormalizeOpacity(o: real): real {
    Round(Clamp(o, 0.0, 1.0) * 1000.0) / 1000.0
  }

  function NormalizeStyle(s: Style): Style {
    Style(NormalizeColor(s.color), NormalizeWidth(s.width), NormalizeOpacity(s.opacity))
  }

  lemma RoundTwice(x: real)
    ensures Round(Round(x)) == Round(x)
  {
    var f := (x + 0.5).Floor;
    var g := (f as real + 0.5).Floor;
    assert g as real <= f as real + 0.5 < g as real + 1.0;
    assert g == f;
  }

  // A style the client has normalized is one the server accepts, and normalizing again changes nothing.
  lemma NormalStyle(s: Style)
    ensures var n := NormalizeStyle(s);
      && MatchesServerColor(n.color) && 1.0 <= n.width <= 64.0 && 0.0 <= n.opacity <= 1.0
      && NormalizeStyle(n) == n
  {
    var w, o := Clamp(s.width, 1.0, 64.0), Clamp(s.opacity, 0.0, 1.0);
    RoundTwice(w);
    RoundTwice(o * 1000.0);
    assert IsHexColor(DEFAULT_COLOR);
  }

  predicate IsWhole(x: real) {
    x == x.Floor as real
  }

  // The nearest whole number, the upper one of two.
  lemma RoundIsNearest(x: real)
    ensures IsWhole(Round(x)) && -0.5 < Round(x) - x <= 0.5
    ensures Round(x) == x <==> IsWhole(x)
  {
    var f := (x + 0.5).Floor;
    assert (f as real).Floor == f;
    if IsWhole(x) {
      assert x.Floor as real <= x + 0.5 < x.Floor as real + 1.0;
      assert f == x.Floor;
    }
  }

  lemma RoundedBetween(x: real, lo: int, hi: int)
    requires lo as real <= x <= hi as real
    ensures lo as real <= Round(x) <= hi as real
  {
    var f := (x + 0.5).Floor;
    assert f as real <= x + 0.5 < f as real + 1.0;
    assert lo < f + 1 && f <= hi;
  }

  // A width in range goes to the nearest whole one, any other to the nearer end of the range.
  lemma WidthIsNearest(w: real)
    ensures var r := NormalizeWidth(w);
      && IsWhole(r) && 1.0 <= r <= 64.0
      && (1.0 <= w <= 64.0 ==> -0.5 < r - w <= 0.5) && (w < 1.0 ==> r == 1.0) && (w > 64.0 ==> r == 64.0)
      && (r == w <==> IsWhole(w) && 1.0 <= w <= 64.0)
  {
    RoundIsNearest(Clamp(w, 1.0, 64.0));
    RoundedBetween(Clamp(w, 1.0, 64.0), 1, 64);
    assert IsWhole(1.0) && IsWhole(64.0);
  }

  // An opacity in range goes to the nearest thousandth, any other to the nearer end of the range.
  lemma OpacityIsNearest(o: real)
    ensures var r := NormalizeOpacity(o);
      && IsWhole(r * 1000.0) && 0.0 <= r <= 1.0
      && (0.0 <= o <= 1.0 ==> -0.0005 < r - o <= 0.0005) && (o < 0.0 ==> r == 0.0) && (o > 1.0 ==> r == 1.0)
      && (r == o <==> IsWhole(o * 1000.0) && 0.0 <= o <= 1.0)
  {
    var x := Clamp(o, 0.0, 1.0) * 1000.0;
    RoundIsNearest(x);
    RoundedBetween(x, 0, 1000);
    assert IsWhole(0.0) && IsWhole(1000.0);
    assert NormalizeOpacity(o) * 1000.0 == Round(x);
  }

  // The same letters, upper or lower.
  predicate SameButForCase(a: string, b: string) {
    |a| == |b| && forall i :: 0 <= i < |a| ==> a[i] == b[i] || ('A' <= b[i] <= 'Z' && a[i] as int == b[i] as int + 32)
  }

  // A hex color is kept letter for letter in a remote stroke, and up to case in the pen; anything else
  // becomes the default.
  lemma ColorIsKept(c: string)
    ensures NormalizeColor(c) == c <==> IsHexColor(c)
    ensures IsHexColor(c) ==> SameButForCase(ResolveColor(c), c)
    ensures !IsHexColor(c) ==> NormalizeColor(c) == "#2563eb" && ResolveColor(c) == "#2563eb"
  {
    assert IsHexColor(DEFAULT_COLOR);
  }

  // What a style looks like that normalizing leaves alone.
  predicate IsNormal(s: Style) {
    && IsHexColor(s.color)
    && IsWhole(s.width) && 1.0 <= s.width <= 64.0
    && IsWhole(s.opacity * 1000.0) && 0.0 <= s.opacity <= 1.0
  }

  lemma NormalIff(s: Style)
    ensures NormalizeStyle(s) == s <==> IsNormal(s)
    ensures IsNormal(NormalizeStyle(s))
  {
    ColorIsKept(s.color);
    WidthIsNearest(s.width);
    OpacityIsNearest(s.opacity);
    NormalStyle(s);
    ColorIsKept(NormalizeColor(s.color));
    WidthIsNearest(NormalizeWidth(s.width));
    OpacityIsNearest(NormalizeOpacity(s.opacity));
    hide NormalizeColor, NormalizeWidth, NormalizeOpacity, IsWhole, IsHexColor;
  }

  // The style of the pen.
  function PenStyle(color: string, width: real, opacity: real): Style {
    Style(ResolveColor(color), NormalizeWidth(width), NormalizeOpacity(opacity))
  }

  lemma PenStyleIsNormal(color: string, width: real, opacity: real)
    ensures var s := PenStyle(color, width, opacity);
      && IsNormal(s) && (IsHexColor(color) ==> SameButForCase(s.color, color))
      && (1.0 <= width <= 64.0 ==> -0.5 < s.width - width <= 0.5)
      && (0.0 <= opacity <= 1.0 ==> -0.0005 < s.opacity - opacity <= 0.0005)
  {
    ResolvedColor(color);
    ColorIsKept(color);
    WidthIsNearest(width);
    OpacityIsNearest(opacity);
  }

  function Find(strokes: seq<Stroke>, id: string): (r: Option<Stroke>)
    ensures r.Some? <==> id in Ids(strokes)
    ensures r.Some? ==> r.value in strokes && r.value.id == id
  {
    if strokes == [] then None
    else if strokes[0].id == id then
      assert Ids(strokes)[0] == id;
      Some(strokes[0])
    else
      assert Ids(strokes) == [strokes[0].id] + Ids(strokes[1..]);
      Find(strokes[1..], id)
  }

  // The strokes whose id is in `ids`.
  function Only(strokes: seq<Stroke>, id: string): seq<Stroke> {
    if strokes == [] then []
    else if strokes[0].id == id then [strokes[0]] + Only(strokes[1..], id)
    else Only(strokes[1..], id)
  }

  function RemoteOp(op: Operation, strokes: seq<Stroke>): Option<C.Op> {
    match op
    case CreateStroke(s) =>
      if s.points == [] then None else Some(C.Add([s.(style := NormalizeStyle(s.style))]))
    case DeleteObject(id) =>
      var victims := Only(strokes, id);
      if victims == [] then None else Some(C.Remove(victims))
    case ClearCanvas => if strokes == [] then None else Some(C.Clear(strokes))
    case MoveObject(id, dx, dy) =>
      var target := Find(strokes, id);
      if target.None? then None else Some(C.Move(target.value, Moved(target.value, dx, dy)))
    case ResizeObject(id, anchor, sx, sy) =>
      var target := Find(strokes, id);
      if target.None? then None
      else Some(C.Resize(target.value, Resized(target.value, anchor, sx, sy), anchor, sx, sy))
    case RestoreVersion(_, _) => None
  }

  function ApplyRemote(b: C.Board, op: Operation): C.Board {
    var local := RemoteOp(op, b.strokes);
    if local.None? then b else C.Commit(b, local.value)
  }

  function ApplyRemoteAll(b: C.Board, ops: seq<Operation>): C.Board {
    if ops == [] then b else ApplyRemote(ApplyRemoteAll(b, ops[..|ops| - 1]), ops[|ops| - 1])
  }

  // When the client's reading of a server operation draws what the server draws: a create must be
  // new and already normal (or be the topmost stroke itself), a restore must change nothing.
  ghost predicate Replayable(strokes: seq<Stroke>, op: Operation) {
    match op
    case CreateStroke(s) =>
      || (strokes != [] && strokes[|strokes| - 1] == s)
      || (s.id !in Ids(strokes) && s.points != [] && IsNormal(s.style))
    case DeleteObject(_) => true
    case ClearCanvas => true
    case MoveObject(_, _, _) => true
    case ResizeObject(_, _, _, _) => true
    case RestoreVersion(_, objects) => objects == strokes
  }

  lemma {:induction false} OnlyMembers(strokes: seq<Stroke>, id: string)
    ensures forall s :: s in Only(strokes, id) <==> s in strokes && s.id == id
    ensures DistinctIds(strokes) ==> DistinctIds(Only(strokes, id))
  {
    if strokes != [] {
      var rest := strokes[1..];
      OnlyMembers(rest, id);
      assert strokes == [strokes[0]] + rest;
      if DistinctIds(strokes) {
        DistinctTail(strokes);
        var r := Only(rest, id);
        assert ([strokes[0]] + r)[1..] == r;
        DistinctTail([strokes[0]] + r);
      }
    }
  }

  lemma RemoteDelete(strokes: seq<Stroke>, id: string)
    ensures var victims := Only(strokes, id);
      Without(strokes, {id}) == if victims == [] then strokes else Without(strokes, Elems(Ids(victims)))
  {
    OnlyMembers(strokes, id);
    var victims := Only(strokes, id);
    if victims == [] {
      forall s | s in strokes ensures s.id != id {
        assert s in victims || s.id != id;
      }
      WithoutAbsent(strokes, {id});
    } else {
      assert victims[0] in victims;
      assert Ids(victims)[0] == id;
      assert Elems(Ids(victims)) == {id} by {
        forall x | x in Ids(victims) ensures x == id {
          IdsLookUp(victims, x);
        }
      }
    }
  }

  lemma RemoteCreate(strokes: seq<Stroke>, s: Stroke, b: C.Board)
    requires DistinctIds(strokes) && b.strokes == strokes
    ensures ApplyRemote(b, CreateStroke(s)).strokes == Without(strokes, {s.id}) + [s] <==> Replayable(strokes, CreateStroke(s))
  {
    NormalIff(s.style);
    hide Without, NormalizeStyle, IsNormal, DistinctIds;
    ReadsCreate(strokes, s, b);
    if s.id in Ids(strokes) {
      CreateOfPresent(strokes, s);
    } else {
      CreateOfAbsent(strokes, s);
    }
  }

  // The client draws a create it does not know on top, in a normal style, and ignores the rest.
  lemma ReadsCreate(strokes: seq<Stroke>, s: Stroke, b: C.Board)
    requires b.strokes == strokes
    ensures ApplyRemote(b, CreateStroke(s)).strokes ==
      if s.points == [] || s.id in Ids(strokes) then strokes else strokes + [s.(style := NormalizeStyle(s.style))]
  {
    hide Without, NormalizeStyle;
    var n := s.(style := NormalizeStyle(s.style));
    WithoutOne(n, Elems(Ids(strokes)));
    assert strokes + [] == strokes;
  }

  lemma CreateOfPresent(strokes: seq<Stroke>, s: Stroke)
    requires DistinctIds(strokes) && s.id in Ids(strokes)
    ensures strokes != []
    ensures strokes == Without(strokes, {s.id}) + [s] <==> strokes[|strokes| - 1] == s
  {
    assert strokes != [];
    hide Without, DistinctIds, Ids;
    if strokes[|strokes| - 1] == s {
      TopCreated(strokes, s);
    } else {
    }
  }

  lemma TopCreated(strokes: seq<Stroke>, s: Stroke)
    requires DistinctIds(strokes) && strokes != [] && strokes[|strokes| - 1] == s
    ensures Without(strokes, {s.id}) + [s] == strokes
  {
    hide Without, DistinctIds;
    var init := strokes[..|strokes| - 1];
    assert init + [s] == strokes;
    TopTakenOff(init, s);
  }

  lemma CreateOfAbsent(strokes: seq<Stroke>, s: Stroke)
    requires s.id !in Ids(strokes)
    ensures Without(strokes, {s.id}) == strokes
    ensures strokes != [] ==> strokes[|strokes| - 1] != s
    ensures strokes != strokes + [s]
    ensures forall n: Stroke :: strokes + [n] == strokes + [s] <==> n == s
  {
    hide Without;
    IdsLookUp(strokes, s.id);
    WithoutAbsent(strokes, {s.id});
    if strokes != [] {
      assert strokes[|strokes| - 1] in strokes;
    }
    assert |strokes + [s]| == |strokes| + 1;
    forall n: Stroke ensures strokes + [n] == strokes + [s] <==> n == s {
      assert (strokes + [n])[|strokes|] == n && (strokes + [s])[|strokes|] == s;
    }
  }

  lemma TopTakenOff(init: seq<Stroke>, top: Stroke)
    requires DistinctIds(init + [top])
    ensures Without(init + [top], {top.id}) + [top] == init + [top]
  {
    LastIsNew(init, top);
    WithoutAppend(init, [top], {top.id});
    WithoutAbsent(init, {top.id});
    WithoutOne(top, {top.id});
    assert init + [] == init;
  }

  lemma RemoteTransform(strokes: seq<Stroke>, op: Operation)
    requires DistinctIds(strokes) && (op.MoveObject? || op.ResizeObject?)
    ensures var local := RemoteOp(op, strokes);
      Paint(strokes, op) == if local.None? then strokes else C.NextStrokes(strokes, local.value)
  {
    var target := Find(strokes, op.objectId);
    if target.Some? {
      TransformPaints(strokes, target.value, RemoteOp(op, strokes).value.to, op);
    } else {
      forall i | 0 <= i < |strokes| ensures strokes[i].id != op.objectId {
        assert Ids(strokes)[i] == strokes[i].id;
      }
    }
  }

  // One server operation: the client's list and the server's stay equal exactly when it is replayable.
  lemma RemoteStepIff(b: C.Board, op: Operation)
    requires DistinctIds(b.strokes)
    ensures ApplyRemote(b, op).strokes == Paint(b.strokes, op) <==> Replayable(b.strokes, op)
  {
    match op
    case CreateStroke(s) => RemoteCreate(b.strokes, s, b);
    case DeleteObject(id) => RemoteDelete(b.strokes, id);
    case ClearCanvas =>
    case MoveObject(_, _, _) => RemoteTransform(b.strokes, op);
    case ResizeObject(_, _, _, _) => RemoteTransform(b.strokes, op);
    case RestoreVersion(_, _) =>
  }

  // A case: creating a stroke that lies below another lifts it on the server, leaves the client's
  // strokes alone, and lets an undo take the old stroke away.
  lemma CreateBelowTop(a: Stroke, b: Stroke)
    requires a.id != b.id && a.points != []
    ensures var after := ApplyRemote(C.Board([a, b], [], [], 0), CreateStroke(a));
      && after.strokes == [a, b] && Paint([a, b], CreateStroke(a)) == [b, a] && [a, b] != [b, a]
      && C.Undo(after).strokes == [b]
  {
    var board := C.Board([a, b], [], [], 0);
    var n := a.(style := NormalizeStyle(a.style));
    hide NormalizeStyle, Without;
    assert Ids([a, b])[0] == a.id;
    ReadsCreate([a, b], a, board);
    BottomTakenOff(a, b);
    BottomUndone(board, a, b);
    assert [a, b][0] != [b, a][0];
    hide C.Undo, ApplyRemote;
  }

  lemma BottomTakenOff(a: Stroke, b: Stroke)
    requires a.id != b.id
    ensures Without([a, b], {a.id}) == [b]
  {
    hide Without;
    assert [a] + [b] == [a, b];
    WithoutCons(a, [b], {a.id});
    WithoutOne(b, {a.id});
  }

  lemma BottomUndone(board: C.Board, a: Stroke, b: Stroke)
    requires a.id != b.id && a.points != [] && board == C.Board([a, b], [], [], 0)
    ensures C.Undo(ApplyRemote(board, CreateStroke(a))).strokes == [b]
  {
    hide NormalizeStyle, Without;
    var n := a.(style := NormalizeStyle(a.style));
    assert RemoteOp(CreateStroke(a), board.strokes) == Some(C.Add([n]));
    assert Ids([a, b])[0] == a.id;
    ReadsCreate([a, b], a, board);
    assert ApplyRemote(board, CreateStroke(a)).past == [C.Add([n])];
    assert Ids([n]) == [a.id] && Elems(Ids([n])) == {a.id};
    BottomTakenOff(a, b);
  }

  // The server's pattern takes a color with a trailing newline; the client draws the default instead.
  lemma NewlineColor(s: Stroke)
    requires GoodStroke(s) && IsHexColor(s.style.color)
    ensures var odd := s.(style := s.style.(color := s.style.color + "\n"));
      && CheckPayload(CreateStroke(odd)).None? && !Replayable([], CreateStroke(odd))
      && |ApplyRemote(C.NEW_BOARD, CreateStroke(odd)).strokes| == 1
      && ApplyRemote(C.NEW_BOARD, CreateStroke(odd)).strokes[0].style.color == DEFAULT_COLOR
  {
    var color := s.style.color + "\n";
    assert color[..7] == s.style.color && !IsHexColor(color);
    var odd := s.(style := s.style.(color := color));
    var drawn := odd.(style := NormalizeStyle(odd.style));
    assert RemoteOp(CreateStroke(odd), []) == Some(C.Add([drawn]));
    assert Elems(Ids([])) == {};
    WithoutOne(drawn, {});
  }

  // A remote edit fits the undo stack except for one case: a create whose id the client already
  // has is ignored by the strokes but recorded, and undoing it would take the older stroke away.
  lemma RemoteFitsIff(op: Operation, strokes: seq<Stroke>)
    requires DistinctIds(strokes) && RemoteOp(op, strokes).Some?
    ensures C.Fits(C.ContentOf(strokes), RemoteOp(op, strokes).value)
      <==> !(op.CreateStroke? && op.stroke.id in Ids(strokes))
  {
    match op
    case CreateStroke(s) =>
      var added := RemoteOp(op, strokes).value.strokes;
      FileAllLooksUp(added);
      FileAllLooksUp(strokes);
      assert Ids(added) == [s.id];
      if C.Fits(C.ContentOf(strokes), C.Add(added)) {
        assert s.id in FileAll(added);
      }
    case DeleteObject(id) =>
      OnlyMembers(strokes, id);
      BuiltFits(strokes, C.Remove(Only(strokes, id)));
    case ClearCanvas =>
    case MoveObject(id, _, _) => C.ContentLists(strokes, Find(strokes, id).value);
    case ResizeObject(id, _, _, _) => C.ContentLists(strokes, Find(strokes, id).value);
  }

  // Reading the ledger through the client draws the same strokes at every version so far.
  ghost predicate Mirrors(ops: seq<Operation>) {
    && ApplyRemoteAll(C.NEW_BOARD, ops).strokes == PaintAll([], ops)
    && (ops != [] ==> Mirrors(ops[..|ops| - 1]))
  }

  ghost predicate ReplayableThroughout(ops: seq<Operation>) {
    ops != [] ==> ReplayableThroughout(ops[..|ops| - 1]) && Replayable(PaintAll([], ops[..|ops| - 1]), ops[|ops| - 1])
  }

  lemma PaintedIsDrawn(ops: seq<Operation>)
    requires NoRepeats(ops)
    ensures Coherent(Reconstruct(ops)) && Drawn(Reconstruct(ops)) == PaintAll([], ops)
    ensures DistinctIds(PaintAll([], ops))
  {
    ReplayFromPaints(EMPTY, ops);
    assert Drawn(EMPTY) == [];
    DrawnIds(Reconstruct(ops));
  }

  // Folding the ledger through the client agrees with the server's replay at every version
  // exactly when every operation is replayable where it stands.
  lemma {:induction false} RemoteReplayIff(ops: seq<Operation>)
    requires NoRepeats(ops)
    ensures Mirrors(ops) <==> ReplayableThroughout(ops)
  {
    if ops != [] {
      var init := ops[..|ops| - 1];
      RemoteReplayIff(init);
      PaintedIsDrawn(init);
      if Mirrors(init) {
        RemoteStepIff(ApplyRemoteAll(C.NEW_BOARD, init), ops[|ops| - 1]);
      }
    }
  }

  // The case the protocol intends: no restores, new ids, normal styles.
  lemma RemoteReplayRefines(ops: seq<Operation>)
    requires ReplayableThroughout(ops) && NoRepeats(ops)
    ensures Coherent(Reconstruct(ops))
    ensures ApplyRemoteAll(C.NEW_BOARD, ops).strokes == Drawn(Reconstruct(ops))
  {
    RemoteReplayIff(ops);
    PaintedIsDrawn(ops);
  }
}
