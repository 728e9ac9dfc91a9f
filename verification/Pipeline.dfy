// Pipelined submission: a client that sends each operation on the version it expects, a server that may
// refuse or drop it, and a partner who writes in between.
module Pipeline {
  import opened Prelude
  import opened Drawing
  import opened Validator
  import opened Ledger
  import opened Delivery
  import opened Realtime
  import R = RateLimits

  const SUBMITS_WINDOW := 60.0
  const SUBMITS_LIMIT := 120

  // What the client went by when it sent a submit: the version it knew and the submits it counted as in flight.
  datatype Stamp = Stamp(known: int, counted: set<string>)

  // One author connected to the server, both directions first in, first out. `times` is what the
  // server's limiter remembers of this connection, `stamps` has an entry for every submit sent.
  datatype Link = Link(client: Controller, up: seq<ClientMessage>, board: Board, down: seq<ServerMessage>,
                       times: seq<real>, stamps: map<string, Stamp>)

  // `turnedAway` stands for the guards every message has to pass first: its size, and the limit on messages.
  datatype Move =
    | Draw(id: string, op: Operation)
    | ServerTakes(now: real, turnedAway: bool)
    | ClientReceives
    | PartnerWrites(actor: string, e: Envelope)

  function AsEnvelope(m: ClientMessage): Envelope
    requires m.SubmitOp?
  {
    Envelope(m.id, m.base, m.op, None)
  }

  // What the consumer answers to a submit it has handled.
  ghost function Reply(b: Board, author: string, e: Envelope, measure: Measure): ServerMessage {
    match ServerAnswer(b, author, e, measure)
    case Acked(v) => Committed(e.operationId, v, e.op)
    case StaleAt(current) => Rejected(true, Some(current))
    case _ => Rejected(false, None)
  }

  // The operations after a version, for a client that catches up.
  function Missed(rows: seq<Row>, version: int): seq<Remote> {
    if 0 <= version <= |rows| then seq(|rows| - version, i requires 0 <= i < |rows| - version =>
      Remote(rows[version + i].operationId, rows[version + i].op))
    else []
  }

  function Recent(l: Link, now: real): seq<real> {
    R.After(l.times, now - SUBMITS_WINDOW)
  }

  predicate Limited(l: Link, now: real) {
    |Recent(l, now)| >= SUBMITS_LIMIT
  }

  // The client draws an operation of its own and sends it; ids are random and never reused.
  function Drawn(l: Link, id: string, op: Operation): Link {
    if id == "" || id in l.client.applied || id in RowIds(l.board.rows) then l
    else l.(client := AfterSubmit(l.client, id),
            up := l.up + [SubmitOp(id, l.client.serverVersion + |l.client.pending|, op)],
            stamps := l.stamps[id := Stamp(l.client.serverVersion, l.client.pending)])
  }

  // The server takes the next message of the client.
  ghost function Taken(l: Link, now: real, turnedAway: bool, author: string, measure: Measure): Link {
    if l.up == [] then l
    else if turnedAway then l.(up := l.up[1..], down := l.down + [Notice])
    else
      match l.up[0]
      case SyncRequest(v) => l.(up := l.up[1..], down := l.down + [SyncOps(l.board.version, Missed(l.board.rows, v))])
      case SubmitOp(_, _, _) =>
        var e := AsEnvelope(l.up[0]);
        if Limited(l, now) then l.(up := l.up[1..], down := l.down + [Notice], times := Recent(l, now))
        else l.(up := l.up[1..], board := Submitted(l.board, author, [e], measure),
                down := l.down + [Reply(l.board, author, e, measure)], times := Recent(l, now) + [now])
  }

  predicate IsReset(m: ServerMessage) {
    m.Rejected? && m.stale
  }

  function Received(l: Link): Link {
    if l.down == [] then l
    else
      var m := l.down[0];
      var client := AfterMessage(l.client, m);
      l.(client := client, down := l.down[1..],
         up := if m.Ready? || m.SyncRequired? || IsReset(m) then l.up + [SyncRequest(client.serverVersion)] else l.up)
  }

  // The partner submits; what is new is broadcast.
  ghost function PartnerWrote(l: Link, actor: string, e: Envelope, measure: Measure): Link {
    var b := Submitted(l.board, actor, [e], measure);
    if e.operationId in l.client.applied || b.rows == l.board.rows then l
    else l.(board := b, down := l.down + [Committed(e.operationId, b.version, e.op)])
  }

  ghost function LinkAfter(l: Link, move: Move, author: string, measure: Measure): Link {
    match move
    case Draw(id, op) => Drawn(l, id, op)
    case ServerTakes(now, turnedAway) => Taken(l, now, turnedAway, author, measure)
    case ClientReceives => Received(l)
    case PartnerWrites(actor, e) => PartnerWrote(l, actor, e, measure)
  }

  ghost function LinkAfterAll(l: Link, moves: seq<Move>, author: string, measure: Measure): Link {
    if moves == [] then l else LinkAfter(LinkAfterAll(l, moves[..|moves| - 1], author, measure), moves[|moves| - 1], author, measure)
  }

  // ---- what the messages on their way to the client say ----

  function Hears(v: int, m: ServerMessage): int {
    match m
    case Ready(x) => x
    case Committed(_, x, _) => x
    case SyncOps(x, _) => x
    case Rejected(stale, current) => if stale then Max(v, if current.Some? then current.value else 0) else v
    case SyncRequired => v
    case Notice => v
  }

  // The version the client will know after these messages.
  function Told(v: int, down: seq<ServerMessage>): int {
    if down == [] then v else Hears(Told(v, down[..|down| - 1]), down[|down| - 1])
  }

  ghost predicate TrueAt(m: ServerMessage, v: int, rows: seq<Row>) {
    match m
    case Committed(id, x, _) => x == v + 1 && 0 <= v < |rows| && rows[v].operationId == id
    case SyncOps(x, _) => x == v
    case Rejected(stale, current) => stale ==> current == Some(v)
    case Notice => true
    case _ => false
  }

  // Each confirmation is the next version, in ledger order; everything else tells the version reached so far.
  ghost predicate Faithful(down: seq<ServerMessage>, v: int, rows: seq<Row>) {
    down != [] ==>
      Faithful(down[..|down| - 1], v, rows) && TrueAt(down[|down| - 1], Told(v, down[..|down| - 1]), rows)
  }

  lemma ToldSnoc(v: int, down: seq<ServerMessage>, m: ServerMessage, rows: seq<Row>)
    ensures Told(v, down + [m]) == Hears(Told(v, down), m)
    ensures Faithful(down + [m], v, rows) <==> Faithful(down, v, rows) && TrueAt(m, Told(v, down), rows)
  {
    hide TrueAt, Hears;
    assert (down + [m])[..|down|] == down;
  }

  lemma {:induction false} ToldHead(v: int, down: seq<ServerMessage>, rows: seq<Row>)
    requires down != []
    ensures Told(v, down) == Told(Hears(v, down[0]), down[1..])
    ensures Faithful(down, v, rows) <==> TrueAt(down[0], v, rows) && Faithful(down[1..], Hears(v, down[0]), rows)
  {
    hide TrueAt, Hears, Told, Faithful;
    var init, last := down[..|down| - 1], down[|down| - 1];
    assert down == init + [last];
    ToldSnoc(v, init, last, rows);
    if init == [] {
      assert down[1..] == [];
      ToldNothing(v, rows);
      ToldNothing(Hears(v, last), rows);
    } else {
      ToldHead(v, init, rows);
      assert down[1..] == init[1..] + [last];
      ToldSnoc(Hears(v, down[0]), init[1..], last, rows);
    }
  }

  lemma ToldNothing(v: int, rows: seq<Row>)
    ensures Told(v, []) == v && Faithful([], v, rows)
  {
  }

  lemma {:induction false} FaithfulLater(down: seq<ServerMessage>, v: int, rows: seq<Row>, more: seq<Row>)
    requires Faithful(down, v, rows)
    ensures Faithful(down, v, rows + more)
  {
    if down != [] {
      hide Told;
      FaithfulLater(down[..|down| - 1], v, rows, more);
    }
  }

  lemma {:induction false} ToldRises(v: int, down: seq<ServerMessage>, rows: seq<Row>)
    requires Faithful(down, v, rows)
    ensures Told(v, down) >= v
    ensures Told(v, down) == v || exists m :: m in down && m.Committed?
  {
    if down != [] {
      var init, last := down[..|down| - 1], down[|down| - 1];
      ToldRises(v, init, rows);
      assert down == init + [last];
    }
  }

  // ---- rows before and since a version ----

  function Since(rows: seq<Row>, k: int): set<string> {
    if 0 <= k <= |rows| then RowIds(rows[k..]) else {}
  }

  function Before(rows: seq<Row>, k: int): set<string> {
    if 0 <= k <= |rows| then RowIds(rows[..k]) else {}
  }

  ghost predicate DistinctRows(rows: seq<Row>) {
    forall i, j :: 0 <= i < j < |rows| ==> rows[i].operationId != rows[j].operationId
  }

  lemma {:induction false} RowIdOf(rows: seq<Row>, id: string)
    ensures id in RowIds(rows) <==> exists i :: 0 <= i < |rows| && rows[i].operationId == id
  {
    if rows != [] {
      RowIdOf(rows[..|rows| - 1], id);
    }
  }

  lemma {:induction false} CountRows(rows: seq<Row>)
    requires DistinctRows(rows)
    ensures |RowIds(rows)| == |rows|
  {
    if rows != [] {
      CountRows(rows[..|rows| - 1]);
      RowIdOf(rows[..|rows| - 1], rows[|rows| - 1].operationId);
    }
  }

  lemma DisjointParts(a: seq<Row>, b: seq<Row>)
    requires DistinctRows(a + b)
    ensures DistinctRows(b) && RowIds(a) !! RowIds(b)
  {
    hide RowIds;
    var all := a + b;
    assert forall i :: 0 <= i < |a| ==> all[i] == a[i];
    assert forall i :: 0 <= i < |b| ==> all[|a| + i] == b[i];
    forall id | id in RowIds(a) ensures id !in RowIds(b) {
      RowIdOf(a, id);
      RowIdOf(b, id);
    }
  }

  lemma SplitIds(a: seq<Row>, b: seq<Row>)
    requires DistinctRows(a + b)
    ensures RowIds(a + b) == RowIds(a) + RowIds(b) && RowIds(a) !! RowIds(b) && |RowIds(b)| == |b|
  {
    hide RowIds, DistinctRows;
    RowIdsAppend(a, b);
    DisjointParts(a, b);
    CountRows(b);
  }

  lemma CutAt(rows: seq<Row>, k: int) returns (a: seq<Row>, b: seq<Row>)
    requires 0 <= k <= |rows|
    ensures a + b == rows && |b| == |rows| - k && Before(rows, k) == RowIds(a) && Since(rows, k) == RowIds(b)
  {
    hide RowIds;
    a, b := rows[..k], rows[k..];
  }

  lemma SplitRows(rows: seq<Row>, k: int)
    requires DistinctRows(rows) && 0 <= k <= |rows|
    ensures RowIds(rows) == Before(rows, k) + Since(rows, k) && Before(rows, k) !! Since(rows, k)
    ensures |Since(rows, k)| == |rows| - k
  {
    hide RowIds, DistinctRows, Before, Since;
    var a, b := CutAt(rows, k);
    SplitIds(a, b);
  }

  lemma RowInFront(row: Row, rest: seq<Row>)
    ensures RowIds([row] + rest) == RowIds(rest) + {row.operationId}
  {
    hide RowIds;
    RowIdsAppend([row], rest);
    OneRow(row);
  }

  lemma RowBehind(rows: seq<Row>, row: Row)
    ensures RowIds(rows + [row]) == RowIds(rows) + {row.operationId}
  {
    hide RowIds;
    RowIdsAppend(rows, [row]);
    OneRow(row);
  }

  lemma NextRow(rows: seq<Row>, k: int)
    requires DistinctRows(rows) && 0 <= k < |rows|
    ensures Since(rows, k) == Since(rows, k + 1) + {rows[k].operationId} && rows[k].operationId !in Since(rows, k + 1)
    ensures Before(rows, k + 1) == Before(rows, k) + {rows[k].operationId}
  {
    hide RowIds, DistinctRows;
    SplitRows(rows, k + 1);
    assert rows[k..] == [rows[k]] + rows[k + 1..] && rows[..k + 1] == rows[..k] + [rows[k]];
    RowInFront(rows[k], rows[k + 1..]);
    RowBehind(rows[..k], rows[k]);
  }

  lemma OneRow(row: Row)
    ensures RowIds([row]) == {row.operationId}
  {
    assert [row][..0] == [];
  }

  lemma MoreRows(rows: seq<Row>, row: Row, k: int)
    requires 0 <= k <= |rows|
    ensures Since(rows + [row], k) == Since(rows, k) + {row.operationId} && Before(rows + [row], k) == Before(rows, k)
    ensures RowIds(rows + [row]) == RowIds(rows) + {row.operationId}
  {
    hide RowIds;
    assert (rows + [row])[k..] == rows[k..] + [row] && (rows + [row])[..k] == rows[..k];
    RowBehind(rows[k..], row);
    RowBehind(rows, row);
  }

  // ---- what holds of every link ----

  ghost predicate SubmitTrue(m: ClientMessage, rows: seq<Row>, stamps: map<string, Stamp>) {
    m.SubmitOp? ==>
      && m.id in stamps && m.id !in RowIds(rows) && m.id != ""
      && m.base == stamps[m.id].known + |stamps[m.id].counted|
  }

  ghost predicate DistinctSubmits(up: seq<ClientMessage>) {
    forall i, j :: 0 <= i < j < |up| && up[i].SubmitOp? && up[j].SubmitOp? ==> up[i].id != up[j].id
  }

  ghost predicate LinkTrue(l: Link) {
    && WellFormed(l.board) && 0 <= l.client.serverVersion
    && Faithful(l.down, l.client.serverVersion, l.board.rows) && Told(l.client.serverVersion, l.down) == l.board.version
    && l.client.pending <= l.client.applied && l.stamps.Keys <= l.client.applied
    && (forall m :: m in l.up ==> SubmitTrue(m, l.board.rows, l.stamps))
    && DistinctSubmits(l.up)
    && (forall id :: id in l.stamps ==> 0 <= l.stamps[id].known <= |l.board.rows|)
  }

  // Just connected and caught up, with nothing on the wire.
  ghost predicate Connected(l: Link) {
    && WellFormed(l.board) && l.client.serverVersion == l.board.version && l.client.pending <= l.client.applied
    && l.up == [] && l.down == [] && l.stamps == map[]
  }

  lemma ConnectedIsTrue(l: Link)
    requires Connected(l)
    ensures LinkTrue(l)
  {
  }

  // The version the client knows is one the board has had.
  lemma KnowsThePast(l: Link)
    requires LinkTrue(l)
    ensures l.board.version == |l.board.rows| && 0 <= l.client.serverVersion <= |l.board.rows| && DistinctRows(l.board.rows)
  {
    hide Told, Faithful, TrueAt, SubmitTrue, DistinctSubmits;
    ToldRises(l.client.serverVersion, l.down, l.board.rows);
  }

  // What the server does with a submit under a new id.
  lemma FreshSubmit(b: Board, author: string, e: Envelope, measure: Measure)
    requires WellFormed(b) && e.operationId !in RowIds(b.rows)
    ensures Accepts(b, [e], measure) <==> !b.archived && Validate(e, measure).None? && e.baseVersion == b.version
    ensures var b', reply := Submitted(b, author, [e], measure), Reply(b, author, e, measure);
      && WellFormed(b') && b'.archived == b.archived
      && if Accepts(b, [e], measure) then
           && b'.rows == b.rows + [Row(e.operationId, b.version + 1, author, e.op, e.baseVersion, b.version + 1)]
           && reply == Committed(e.operationId, b.version + 1, e.op)
         else b' == b && (reply == Rejected(true, Some(b.version)) || reply == Rejected(false, None))
  {
    hide RowIds, Validate, WellFormed, FindRow;
    OneNovel(e, RowIds(b.rows));
    FirstOfOne(e, measure);
    hide Novel, FirstInvalid;
    SubmittedWellFormed(b, author, [e], measure);
    OneSubmitted(b, author, e, measure);
    NewRowFound(b.rows, Row(e.operationId, b.version + 1, author, e.op, e.baseVersion, b.version + 1));
  }

  lemma FirstOfOne(e: Envelope, measure: Measure)
    ensures FirstInvalid([e], measure) == Validate(e, measure)
  {
    hide Validate;
    assert [e][1..] == [];
  }

  // ---- each move keeps it ----

  lemma SubmitsStayTrue(up: seq<ClientMessage>, rows: seq<Row>, row: Row, stamps: map<string, Stamp>)
    requires forall m :: m in up ==> SubmitTrue(m, rows, stamps)
    requires forall m :: m in up && m.SubmitOp? ==> m.id != row.operationId
    ensures forall m :: m in up ==> SubmitTrue(m, rows + [row], stamps)
  {
    hide RowIds;
    MoreRows(rows, row, 0);
  }

  lemma AnnouncedFaithful(down: seq<ServerMessage>, v: int, rows: seq<Row>, row: Row, op: Operation)
    requires Faithful(down, v, rows) && Told(v, down) == |rows|
    ensures var more := down + [Committed(row.operationId, |rows| + 1, op)];
      Faithful(more, v, rows + [row]) && Told(v, more) == |rows| + 1
  {
    hide Faithful, Told;
    FaithfulLater(down, v, rows, [row]);
    ToldSnoc(v, down, Committed(row.operationId, |rows| + 1, op), rows + [row]);
  }

  // A row more on the board, announced to the client.
  lemma AnnouncedKeepsTrue(l: Link, b: Board, row: Row, up: seq<ClientMessage>, op: Operation, times: seq<real>)
    requires LinkTrue(l) && WellFormed(b) && b.rows == l.board.rows + [row]
    requires (forall m :: m in up ==> m in l.up) && DistinctSubmits(up)
    requires forall m :: m in up && m.SubmitOp? ==> m.id != row.operationId
    ensures LinkTrue(l.(up := up, board := b, down := l.down + [Committed(row.operationId, b.version, op)], times := times))
  {
    hide Faithful, Told, SubmitTrue, DistinctSubmits, RowIds;
    AcceptedVersion(l.board, b, row);
    KnowsThePast(l);
    hide WellFormed;
    AnnouncedFaithful(l.down, l.client.serverVersion, l.board.rows, row, op);
    SubmitsStayTrue(up, l.board.rows, row, l.stamps);
  }

  // Something said to the client that is no new row.
  lemma ToldKeepsTrue(l: Link, up: seq<ClientMessage>, m: ServerMessage, times: seq<real>)
    requires LinkTrue(l) && (forall x :: x in up ==> x in l.up) && DistinctSubmits(up)
    requires m == Notice || (m.SyncOps? && m.version == l.board.version)
      || m == Rejected(false, None) || m == Rejected(true, Some(l.board.version))
    ensures LinkTrue(l.(up := up, down := l.down + [m], times := times))
  {
    KnowsThePast(l);
    hide SubmitTrue, DistinctSubmits, RowIds, WellFormed;
    ToldSnoc(l.client.serverVersion, l.down, m, l.board.rows);
    hide Faithful, Told;
  }

  lemma TailOfUp(up: seq<ClientMessage>)
    requires up != [] && DistinctSubmits(up)
    ensures DistinctSubmits(up[1..]) && forall m :: m in up[1..] ==> m in up
    ensures up[0].SubmitOp? ==> forall m :: m in up[1..] && m.SubmitOp? ==> m.id != up[0].id
  {
    var rest := up[1..];
    assert forall i :: 0 <= i < |rest| ==> rest[i] == up[i + 1];
  }

  lemma HeadIsTrue(l: Link)
    requires LinkTrue(l) && l.up != [] && l.up[0].SubmitOp?
    ensures SubmitTrue(l.up[0], l.board.rows, l.stamps) && WellFormed(l.board)
  {
    hide Faithful, Told, SubmitTrue, DistinctSubmits;
    assert l.up[0] in l.up;
  }

  lemma TakenKeepsTrue(l: Link, now: real, turnedAway: bool, author: string, measure: Measure)
    requires LinkTrue(l)
    ensures LinkTrue(Taken(l, now, turnedAway, author, measure))
  {
    hide LinkTrue, Submitted, Reply, Accepts, DistinctSubmits, RowIds, WellFormed, Recent, Missed;
    if l.up != [] {
      UpIsDistinct(l);
      TailOfUp(l.up);
      if turnedAway {
        ToldKeepsTrue(l, l.up[1..], Notice, l.times);
      } else if l.up[0].SyncRequest? {
        ToldKeepsTrue(l, l.up[1..], SyncOps(l.board.version, Missed(l.board.rows, l.up[0].version)), l.times);
      } else if Limited(l, now) {
        ToldKeepsTrue(l, l.up[1..], Notice, Recent(l, now));
      } else {
        HeadIsTrue(l);
        var e := AsEnvelope(l.up[0]);
        FreshSubmit(l.board, author, e, measure);
        var times := Recent(l, now) + [now];
        if Accepts(l.board, [e], measure) {
          var row := Row(e.operationId, l.board.version + 1, author, e.op, e.baseVersion, l.board.version + 1);
          AcceptedVersion(l.board, Submitted(l.board, author, [e], measure), row);
          AnnouncedKeepsTrue(l, Submitted(l.board, author, [e], measure), row, l.up[1..], e.op, times);
        } else {
          ToldKeepsTrue(l, l.up[1..], Reply(l.board, author, e, measure), times);
        }
      }
    }
  }

  lemma AcceptedVersion(b: Board, b': Board, row: Row)
    requires WellFormed(b) && WellFormed(b') && b'.rows == b.rows + [row]
    ensures b'.version == b.version + 1
  {
  }

  lemma UpIsDistinct(l: Link)
    requires LinkTrue(l)
    ensures DistinctSubmits(l.up) && WellFormed(l.board)
  {
  }

  lemma DrawnKeepsTrue(l: Link, id: string, op: Operation)
    requires LinkTrue(l)
    ensures LinkTrue(Drawn(l, id, op))
  {
    KnowsThePast(l);
    hide Faithful, Told, WellFormed, RowIds;
    var l' := Drawn(l, id, op);
    if l' != l {
      forall m | m in l'.up ensures SubmitTrue(m, l'.board.rows, l'.stamps) {
        assert m in l.up || m == l'.up[|l.up|];
      }
      UpIsFresh(l, id);
    }
  }

  lemma UpIsFresh(l: Link, id: string)
    requires LinkTrue(l) && id !in l.client.applied
    ensures forall i :: 0 <= i < |l.up| && l.up[i].SubmitOp? ==> l.up[i].id in l.stamps && l.up[i].id != id
  {
    hide Faithful, Told, WellFormed, RowIds, DistinctSubmits;
    forall i | 0 <= i < |l.up| && l.up[i].SubmitOp? ensures l.up[i].id in l.stamps && l.up[i].id != id {
      assert SubmitTrue(l.up[i], l.board.rows, l.stamps);
    }
  }

  lemma ReceivedKeepsTrue(l: Link)
    requires LinkTrue(l)
    ensures LinkTrue(Received(l))
  {
    if l.down != [] {
      ToldHead(l.client.serverVersion, l.down, l.board.rows);
      HeardByClient(l.client, l.down[0]);
      AskedKeepsTrue(l.up, l.board.rows, l.stamps, Received(l).client.serverVersion);
      hide Faithful, Told, WellFormed, RowIds, SubmitTrue, DistinctSubmits, AfterMessage;
    }
  }

  lemma HeardByClient(c: Controller, m: ServerMessage)
    requires c.pending <= c.applied
    ensures var c' := AfterMessage(c, m);
      && c'.serverVersion == Hears(c.serverVersion, m) && c.applied <= c'.applied && c'.pending <= c'.applied
      && c'.pending == if IsReset(m) then {} else if m.Committed? then c.pending - {m.id} else c.pending
  {
    hide RemoteIds;
  }

  lemma AskedKeepsTrue(up: seq<ClientMessage>, rows: seq<Row>, stamps: map<string, Stamp>, version: int)
    requires (forall m :: m in up ==> SubmitTrue(m, rows, stamps)) && DistinctSubmits(up)
    ensures var asked := up + [SyncRequest(version)];
      (forall m :: m in asked ==> SubmitTrue(m, rows, stamps)) && DistinctSubmits(asked)
  {
    hide RowIds;
  }

  lemma PartnerKeepsTrue(l: Link, actor: string, e: Envelope, measure: Measure)
    requires LinkTrue(l)
    ensures LinkTrue(PartnerWrote(l, actor, e, measure))
  {
    UpIsDistinct(l);
    hide LinkTrue, Submitted, DistinctSubmits, RowIds, WellFormed, Accepts;
    var b := Submitted(l.board, actor, [e], measure);
    if e.operationId !in l.client.applied && b.rows != l.board.rows {
      OneSubmitted(l.board, actor, e, measure);
      SubmittedWellFormed(l.board, actor, [e], measure);
      UpIsFresh(l, e.operationId);
      var row := Row(e.operationId, l.board.version + 1, actor, e.op, e.baseVersion, l.board.version + 1);
      AnnouncedKeepsTrue(l, b, row, l.up, e.op, l.times);
    }
  }

  lemma {:induction false} EveryLinkIsTrue(l: Link, moves: seq<Move>, author: string, measure: Measure)
    requires LinkTrue(l)
    ensures LinkTrue(LinkAfterAll(l, moves, author, measure))
  {
    if moves != [] {
      hide LinkTrue, Taken, Drawn, Received, PartnerWrote;
      var init := moves[..|moves| - 1];
      EveryLinkIsTrue(l, init, author, measure);
      var mid := LinkAfterAll(l, init, author, measure);
      match moves[|moves| - 1]
      case Draw(id, op) => DrawnKeepsTrue(mid, id, op);
      case ServerTakes(now, turnedAway) => TakenKeepsTrue(mid, now, turnedAway, author, measure);
      case ClientReceives => ReceivedKeepsTrue(mid);
      case PartnerWrites(actor, e) => PartnerKeepsTrue(mid, actor, e, measure);
    }
  }

  // ---- exactly when a submit is accepted ----

  // The server finds nothing wrong with the operation itself.
  ghost predicate SoundOp(m: ClientMessage, measure: Measure)
    requires m.SubmitOp?
  {
    measure(m.op) <= PayloadCap(m.op) && CheckPayload(m.op).None?
  }

  lemma SameSize(a: set<string>, b: set<string>)
    ensures |a| == |b| <==> |a - b| == |b - a|
  {
    assert a == (a - b) + a * b && b == (b - a) + a * b;
  }

  // Partner and resets included: the submit at the head of the wire is accepted exactly
  // when the board is writable, its operation is sound, and as many of the submits the client counted as
  // in flight are missing from the rows since the version it knew as there are rows it did not count.
  lemma HeadAcceptedIff(l: Link, measure: Measure)
    requires LinkTrue(l) && l.up != [] && l.up[0].SubmitOp?
    ensures l.up[0].id in l.stamps
    ensures var s := l.stamps[l.up[0].id];
      var since := Since(l.board.rows, s.known);
      Accepts(l.board, [AsEnvelope(l.up[0])], measure) <==>
        !l.board.archived && SoundOp(l.up[0], measure) && |s.counted - since| == |since - s.counted|
  {
    KnowsThePast(l);
    StampOfHead(l);
    hide LinkTrue, Accepts, Since, RowIds, WellFormed, CheckPayload, DistinctRows;
    var s := l.stamps[l.up[0].id];
    SplitRows(l.board.rows, s.known);
    SameSize(s.counted, Since(l.board.rows, s.known));
    SoundSubmit(l, measure);
  }

  // The stamp of the submit at the head of the wire.
  lemma StampOfHead(l: Link)
    requires LinkTrue(l) && l.up != [] && l.up[0].SubmitOp?
    ensures l.up[0].id in l.stamps && l.up[0].id !in RowIds(l.board.rows)
    ensures var s := l.stamps[l.up[0].id]; 0 <= s.known <= |l.board.rows| && l.up[0].base == s.known + |s.counted|
  {
    HeadIsTrue(l);
    hide Told, Faithful, RowIds, WellFormed, DistinctSubmits;
  }

  lemma SoundSubmit(l: Link, measure: Measure)
    requires LinkTrue(l) && l.up != [] && l.up[0].SubmitOp?
    ensures Accepts(l.board, [AsEnvelope(l.up[0])], measure) <==>
      !l.board.archived && SoundOp(l.up[0], measure) && l.up[0].base == l.board.version
  {
    HeadIsTrue(l);
    hide LinkTrue, Accepts, RowIds, WellFormed, CheckPayload;
    FreshSubmit(l.board, "", AsEnvelope(l.up[0]), measure);
  }

  // So in every run from a fresh connection.
  lemma SubmitAcceptedIff(l: Link, moves: seq<Move>, author: string, measure: Measure)
    requires Connected(l)
    ensures var end := LinkAfterAll(l, moves, author, measure);
      end.up != [] && end.up[0].SubmitOp? ==>
        && end.up[0].id in end.stamps
        && var s := end.stamps[end.up[0].id];
        var since := Since(end.board.rows, s.known);
        (Accepts(end.board, [AsEnvelope(end.up[0])], measure) <==>
          !end.board.archived && SoundOp(end.up[0], measure) && |s.counted - since| == |since - s.counted|)
  {
    ConnectedIsTrue(l);
    EveryLinkIsTrue(l, moves, author, measure);
    var end := LinkAfterAll(l, moves, author, measure);
    hide LinkTrue, Accepts, Since, SoundOp, LinkAfterAll;
    if end.up != [] && end.up[0].SubmitOp? {
      HeadAcceptedIff(end, measure);
    }
  }

  // What the server does with it: a row more exactly when the message gets through and is accepted.
  lemma TakenAddsIff(l: Link, now: real, turnedAway: bool, author: string, measure: Measure)
    requires LinkTrue(l) && l.up != [] && l.up[0].SubmitOp?
    ensures var rows, e := Taken(l, now, turnedAway, author, measure).board.rows, AsEnvelope(l.up[0]);
      rows == if !turnedAway && !Limited(l, now) && Accepts(l.board, [e], measure)
        then l.board.rows + [Row(e.operationId, l.board.version + 1, author, e.op, e.baseVersion, l.board.version + 1)]
        else l.board.rows
  {
    HeadIsTrue(l);
    hide LinkTrue, Accepts, Submitted, Reply, RowIds, WellFormed;
    FreshSubmit(l.board, author, AsEnvelope(l.up[0]), measure);
  }

  // ---- while the client forgets nothing ----

  // Every row since the version was counted, and nothing before it was.
  ghost predicate CountsRight(known: int, counted: set<string>, rows: seq<Row>) {
    Since(rows, known) <= counted && counted !! Before(rows, known)
  }

  ghost predicate SubmitCounted(m: ClientMessage, pending: set<string>, rows: seq<Row>, stamps: map<string, Stamp>) {
    m.SubmitOp? ==>
      m.id in pending && m.id in stamps && CountsRight(stamps[m.id].known, stamps[m.id].counted, rows)
  }

  // A submit counted every one sent before it that is still on the wire.
  ghost predicate CountsEarlier(up: seq<ClientMessage>, stamps: map<string, Stamp>) {
    forall i, j :: 0 <= i < j < |up| && up[i].SubmitOp? && up[j].SubmitOp? ==>
      up[j].id in stamps && up[i].id in stamps[up[j].id].counted
  }

  ghost predicate Remembered(l: Link) {
    && CountsRight(l.client.serverVersion, l.client.pending, l.board.rows)
    && (forall m :: m in l.up ==> SubmitCounted(m, l.client.pending, l.board.rows, l.stamps))
    && CountsEarlier(l.up, l.stamps)
  }

  // The partner writes nothing and the client receives no stale answer.
  ghost predicate KeepsMemory(l: Link, move: Move) {
    && !move.PartnerWrites?
    && (move.ClientReceives? && l.down != [] ==> !IsReset(l.down[0]))
  }

  ghost predicate MemoryKept(l: Link, moves: seq<Move>, author: string, measure: Measure) {
    moves != [] ==>
      && MemoryKept(l, moves[..|moves| - 1], author, measure)
      && KeepsMemory(LinkAfterAll(l, moves[..|moves| - 1], author, measure), moves[|moves| - 1])
  }

  lemma ConnectedRemembers(l: Link)
    requires Connected(l) && l.client.pending !! RowIds(l.board.rows)
    ensures Remembered(l)
  {
    assert l.board.rows[|l.board.rows|..] == [] && l.board.rows[..|l.board.rows|] == l.board.rows;
  }

  lemma RowCountsRight(known: int, counted: set<string>, rows: seq<Row>, row: Row)
    requires 0 <= known <= |rows| && CountsRight(known, counted, rows) && row.operationId in counted
    ensures CountsRight(known, counted, rows + [row])
  {
    hide Since, Before;
    MoreRows(rows, row, known);
  }

  lemma TailCountsEarlier(up: seq<ClientMessage>, stamps: map<string, Stamp>)
    requires up != [] && CountsEarlier(up, stamps)
    ensures CountsEarlier(up[1..], stamps)
    ensures up[0].SubmitOp? ==> forall m :: m in up[1..] && m.SubmitOp? ==> m.id in stamps && up[0].id in stamps[m.id].counted
  {
    var rest := up[1..];
    assert forall i :: 0 <= i < |rest| ==> rest[i] == up[i + 1];
  }

  lemma SameRowsRemembered(l: Link, up: seq<ClientMessage>, down: seq<ServerMessage>, times: seq<real>)
    requires Remembered(l) && (forall m :: m in up ==> m in l.up) && CountsEarlier(up, l.stamps)
    ensures Remembered(l.(up := up, down := down, times := times))
  {
    hide CountsRight, SubmitCounted, CountsEarlier;
  }

  // The submit at the head of the wire becomes a row.
  lemma HeadRowRemembered(l: Link, b: Board, row: Row, down: seq<ServerMessage>, times: seq<real>)
    requires LinkTrue(l) && Remembered(l) && l.up != [] && l.up[0].SubmitOp? && row.operationId == l.up[0].id
    requires b.rows == l.board.rows + [row]
    ensures Remembered(l.(up := l.up[1..], board := b, down := down, times := times))
  {
    KnowsThePast(l);
    TailCountsEarlier(l.up, l.stamps);
    UpKnows(l);
    assert l.up[0] in l.up && SubmitCounted(l.up[0], l.client.pending, l.board.rows, l.stamps);
    hide LinkTrue, CountsRight, CountsEarlier;
    RowCountsRight(l.client.serverVersion, l.client.pending, l.board.rows, row);
    forall m | m in l.up[1..] ensures SubmitCounted(m, l.client.pending, b.rows, l.stamps) {
      assert m in l.up && SubmitCounted(m, l.client.pending, l.board.rows, l.stamps);
      if m.SubmitOp? {
        RowCountsRight(l.stamps[m.id].known, l.stamps[m.id].counted, l.board.rows, row);
      }
    }
  }

  lemma UpKnows(l: Link)
    requires LinkTrue(l)
    ensures forall m :: m in l.up && m.SubmitOp? ==>
      m.id in l.stamps && m.id !in RowIds(l.board.rows) && 0 <= l.stamps[m.id].known <= |l.board.rows|
  {
    hide Faithful, Told, WellFormed, RowIds, DistinctSubmits;
    forall m | m in l.up && m.SubmitOp? ensures m.id in l.stamps && m.id !in RowIds(l.board.rows) {
      assert SubmitTrue(m, l.board.rows, l.stamps);
    }
  }

  lemma TakenRemembers(l: Link, now: real, turnedAway: bool, author: string, measure: Measure)
    requires LinkTrue(l) && Remembered(l)
    ensures Remembered(Taken(l, now, turnedAway, author, measure))
  {
    if l.up != [] {
      var l' := Taken(l, now, turnedAway, author, measure);
      TailCountsEarlier(l.up, l.stamps);
      UpIsDistinct(l);
      TailOfUp(l.up);
      var e := if l.up[0].SubmitOp? then AsEnvelope(l.up[0]) else Envelope("", 0, ClearCanvas, None);
      if l.up[0].SubmitOp? && !turnedAway && !Limited(l, now) && Accepts(l.board, [e], measure) {
        TakenAddsIff(l, now, turnedAway, author, measure);
        hide LinkTrue, Remembered, Submitted, Reply, Accepts, Recent, Missed;
        HeadRowRemembered(l, l'.board, Row(e.operationId, l.board.version + 1, author, e.op, e.baseVersion, l.board.version + 1), l'.down, l'.times);
      } else {
        hide LinkTrue, Remembered, Reply, Accepts, Recent, Missed, CountsEarlier;
        SameRowsRemembered(l, l.up[1..], l'.down, l'.times);
      }
    }
  }

  lemma OthersStillCounted(l: Link, id: string, stamp: Stamp)
    requires Remembered(l) && forall i :: 0 <= i < |l.up| && l.up[i].SubmitOp? ==> l.up[i].id != id
    ensures forall m :: m in l.up ==> SubmitCounted(m, l.client.pending + {id}, l.board.rows, l.stamps[id := stamp])
    ensures CountsEarlier(l.up, l.stamps[id := stamp])
    ensures forall i :: 0 <= i < |l.up| && l.up[i].SubmitOp? ==> l.up[i].id in l.client.pending
  {
    hide CountsRight;
    forall i | 0 <= i < |l.up| && l.up[i].SubmitOp? ensures l.up[i].id in l.client.pending {
      assert SubmitCounted(l.up[i], l.client.pending, l.board.rows, l.stamps);
    }
    forall m | m in l.up ensures SubmitCounted(m, l.client.pending + {id}, l.board.rows, l.stamps[id := stamp]) {
      assert SubmitCounted(m, l.client.pending, l.board.rows, l.stamps);
      var i :| 0 <= i < |l.up| && l.up[i] == m;
    }
  }

  lemma NewIsCounted(known: int, counted: set<string>, rows: seq<Row>, id: string)
    requires 0 <= known <= |rows| && DistinctRows(rows) && CountsRight(known, counted, rows) && id !in RowIds(rows)
    ensures CountsRight(known, counted + {id}, rows)
  {
    SplitRows(rows, known);
    hide Since, Before, RowIds, DistinctRows;
  }

  lemma CountsAll(up: seq<ClientMessage>, m: ClientMessage, stamps: map<string, Stamp>)
    requires CountsEarlier(up, stamps) && m.SubmitOp? && m.id in stamps
    requires forall i :: 0 <= i < |up| && up[i].SubmitOp? ==> up[i].id in stamps[m.id].counted
    ensures CountsEarlier(up + [m], stamps)
  {
  }

  lemma DrawnRemembers(l: Link, id: string, op: Operation)
    requires LinkTrue(l) && Remembered(l)
    ensures Remembered(Drawn(l, id, op))
  {
    var l' := Drawn(l, id, op);
    if l' != l {
      var m, stamp := l'.up[|l.up|], Stamp(l.client.serverVersion, l.client.pending);
      assert l'.up == l.up + [m];
      KnowsThePast(l);
      UpIsFresh(l, id);
      NewIsCounted(l.client.serverVersion, l.client.pending, l.board.rows, id);
      OthersStillCounted(l, id, stamp);
      CountsAll(l.up, m, l'.stamps);
      hide LinkTrue, RowIds, CountsRight, CountsEarlier;
      assert SubmitCounted(m, l'.client.pending, l'.board.rows, l'.stamps);
      hide SubmitCounted;
      assert forall x :: x in l'.up ==> x in l.up || x == m;
    }
  }

  lemma ConfirmedCountsRight(known: int, counted: set<string>, rows: seq<Row>)
    requires 0 <= known < |rows| && DistinctRows(rows) && CountsRight(known, counted, rows)
    ensures CountsRight(known + 1, counted - {rows[known].operationId}, rows)
  {
    hide DistinctRows, Since, Before;
    NextRow(rows, known);
  }

  lemma FewerPending(up: seq<ClientMessage>, pending: set<string>, fewer: set<string>, rows: seq<Row>, stamps: map<string, Stamp>)
    requires forall m :: m in up ==> SubmitCounted(m, pending, rows, stamps)
    requires forall m :: m in up && m.SubmitOp? ==> m.id !in RowIds(rows)
    requires fewer <= pending && pending - fewer <= RowIds(rows)
    ensures forall m :: m in up ==> SubmitCounted(m, fewer, rows, stamps)
  {
    hide RowIds, CountsRight;
    forall m | m in up ensures SubmitCounted(m, fewer, rows, stamps) {
      assert SubmitCounted(m, pending, rows, stamps);
    }
  }

  lemma ReceivedRemembers(l: Link)
    requires LinkTrue(l) && Remembered(l) && l.down != [] && !IsReset(l.down[0])
    ensures Remembered(Received(l))
  {
    var m, v, rows := l.down[0], l.client.serverVersion, l.board.rows;
    KnowsThePast(l);
    ToldHead(v, l.down, rows);
    HeardByClient(l.client, m);
    UpKnows(l);
    if m.Committed? {
      ConfirmedCountsRight(v, l.client.pending, rows);
      ReceivedIsKnown(l);
    }
    hide LinkTrue, Faithful, Told, RowIds, CountsEarlier, AfterMessage, DistinctRows, CountsRight, SubmitCounted;
    FewerPending(l.up, l.client.pending, Received(l).client.pending, rows, l.stamps);
  }

  lemma ReceivedIsKnown(l: Link)
    requires LinkTrue(l) && l.down != [] && l.down[0].Committed?
    ensures l.down[0].id in RowIds(l.board.rows)
  {
    ToldHead(l.client.serverVersion, l.down, l.board.rows);
    hide WellFormed, Faithful, Told;
    RowIdsHave(l.board.rows, l.client.serverVersion);
  }

  lemma {:induction false} MemoryIsKept(l: Link, moves: seq<Move>, author: string, measure: Measure)
    requires LinkTrue(l) && Remembered(l) && MemoryKept(l, moves, author, measure)
    ensures LinkTrue(LinkAfterAll(l, moves, author, measure)) && Remembered(LinkAfterAll(l, moves, author, measure))
  {
    EveryLinkIsTrue(l, moves, author, measure);
    if moves != [] {
      hide LinkTrue, Remembered, Taken, Drawn;
      var init := moves[..|moves| - 1];
      MemoryIsKept(l, init, author, measure);
      var mid := LinkAfterAll(l, init, author, measure);
      match moves[|moves| - 1]
      case Draw(id, op) => DrawnRemembers(mid, id, op);
      case ServerTakes(now, turnedAway) => TakenRemembers(mid, now, turnedAway, author, measure);
      case ClientReceives => if mid.down != [] { ReceivedRemembers(mid); }
      case PartnerWrites(_, _) =>
    }
  }

  // While nothing is forgotten, the submit at the head is accepted exactly when the board is writable,
  // its operation is sound, and none of the submits counted before it was refused or dropped.
  lemma HeadAcceptedUnlessLost(l: Link, measure: Measure)
    requires LinkTrue(l) && Remembered(l) && l.up != [] && l.up[0].SubmitOp?
    ensures l.up[0].id in l.stamps
    ensures Accepts(l.board, [AsEnvelope(l.up[0])], measure) <==>
      !l.board.archived && SoundOp(l.up[0], measure) && l.stamps[l.up[0].id].counted <= RowIds(l.board.rows)
  {
    KnowsThePast(l);
    HeadAcceptedIff(l, measure);
    assert l.up[0] in l.up && SubmitCounted(l.up[0], l.client.pending, l.board.rows, l.stamps);
    UpKnows(l);
    var s := l.stamps[l.up[0].id];
    SplitRows(l.board.rows, s.known);
    hide LinkTrue, Since, Before, RowIds, Accepts, SoundOp;
    assert Since(l.board.rows, s.known) - s.counted == {};
    NoneMissing(s.counted, Since(l.board.rows, s.known));
  }

  lemma NoneMissing(a: set<string>, b: set<string>)
    ensures |a - b| == 0 <==> a <= b
  {
    assert |a - b| == 0 ==> a - b == {};
    assert a <= b ==> a - b == {};
    if a - b == {} {
      forall x | x in a ensures x in b {
        assert x !in a - b;
      }
    }
  }

  lemma SubmitAcceptedUnlessLost(l: Link, moves: seq<Move>, author: string, measure: Measure)
    requires LinkTrue(l) && Remembered(l) && MemoryKept(l, moves, author, measure)
    ensures var end := LinkAfterAll(l, moves, author, measure);
      end.up != [] && end.up[0].SubmitOp? ==>
        && end.up[0].id in end.stamps
        && (Accepts(end.board, [AsEnvelope(end.up[0])], measure) <==>
          !end.board.archived && SoundOp(end.up[0], measure) && end.stamps[end.up[0].id].counted <= RowIds(end.board.rows))
  {
    MemoryIsKept(l, moves, author, measure);
    var end := LinkAfterAll(l, moves, author, measure);
    hide LinkTrue, Remembered, Accepts, RowIds, SoundOp, LinkAfterAll;
    if end.up != [] && end.up[0].SubmitOp? {
      HeadAcceptedUnlessLost(end, measure);
    }
  }

  // ---- what one refused or dropped submit does ----

  // A submit the client still counts, gone from the wire and not on the board.
  ghost predicate Lost(l: Link, x: string) {
    && x in l.client.pending && x !in RowIds(l.board.rows)
    && forall m :: m in l.up && m.SubmitOp? ==> m.id != x && m.id in l.stamps && x in l.stamps[m.id].counted
  }

  lemma RefusedIsLost(l: Link, now: real, turnedAway: bool, author: string, measure: Measure)
    requires LinkTrue(l) && Remembered(l) && l.up != [] && l.up[0].SubmitOp?
    requires turnedAway || Limited(l, now) || !Accepts(l.board, [AsEnvelope(l.up[0])], measure)
    ensures Lost(Taken(l, now, turnedAway, author, measure), l.up[0].id)
  {
    TakenAddsIff(l, now, turnedAway, author, measure);
    UpIsDistinct(l);
    TailOfUp(l.up);
    TailCountsEarlier(l.up, l.stamps);
    UpKnows(l);
    assert l.up[0] in l.up && SubmitCounted(l.up[0], l.client.pending, l.board.rows, l.stamps);
    hide LinkTrue, Remembered, Submitted, Reply, Accepts, RowIds, CountsEarlier, DistinctSubmits, Limited, Recent;
    var l' := Taken(l, now, turnedAway, author, measure);
    assert l'.up == l.up[1..] && l'.client == l.client && l'.stamps == l.stamps && l'.board.rows == l.board.rows;
    hide Taken;
  }

  lemma StepStaysLost(l: Link, move: Move, x: string, author: string, measure: Measure)
    requires LinkTrue(l) && Remembered(l) && Lost(l, x) && KeepsMemory(l, move)
    ensures var l' := LinkAfter(l, move, author, measure); Lost(l', x) && l'.board.rows == l.board.rows
  {
    match move
    case Draw(id, op) =>
      LostIsApplied(l, x);
      hide LinkTrue, Remembered, RowIds;
    case ServerTakes(now, turnedAway) => TakenStaysLost(l, now, turnedAway, x, author, measure);
    case ClientReceives =>
      if l.down != [] {
        HeardByClient(l.client, l.down[0]);
        LostIsApplied(l, x);
        if l.down[0].Committed? {
          ReceivedIsKnown(l);
        }
        hide LinkTrue, Remembered, RowIds, AfterMessage;
      }
  }

  lemma LostIsApplied(l: Link, x: string)
    requires LinkTrue(l) && Lost(l, x)
    ensures x in l.client.applied && l.client.pending <= l.client.applied
  {
  }

  lemma TakenStaysLost(l: Link, now: real, turnedAway: bool, x: string, author: string, measure: Measure)
    requires LinkTrue(l) && Remembered(l) && Lost(l, x)
    ensures var l' := Taken(l, now, turnedAway, author, measure); Lost(l', x) && l'.board.rows == l.board.rows
  {
    if l.up != [] {
      UpIsDistinct(l);
      TailOfUp(l.up);
      if l.up[0].SubmitOp? {
        HeadAcceptedUnlessLost(l, measure);
        TakenAddsIff(l, now, turnedAway, author, measure);
      }
      hide LinkTrue, Remembered, Submitted, Reply, Accepts, RowIds, DistinctSubmits, Recent, Missed;
    }
  }

  // Once a submit is refused or dropped, no later one is accepted until a stale answer reaches the client.
  lemma {:induction false} LostBlocksAll(l: Link, moves: seq<Move>, x: string, author: string, measure: Measure)
    requires LinkTrue(l) && Remembered(l) && Lost(l, x) && MemoryKept(l, moves, author, measure)
    ensures var end := LinkAfterAll(l, moves, author, measure);
      Lost(end, x) && end.board.rows == l.board.rows
  {
    if moves != [] {
      hide LinkTrue, Remembered, Lost, LinkAfter, KeepsMemory;
      var init := moves[..|moves| - 1];
      LostBlocksAll(l, init, x, author, measure);
      MemoryIsKept(l, init, author, measure);
      StepStaysLost(LinkAfterAll(l, init, author, measure), moves[|moves| - 1], x, author, measure);
    }
  }

  // The stale answer wipes the slate when nothing else of this client is under way.
  lemma QuietReset(l: Link)
    requires LinkTrue(l) && l.down != [] && IsReset(l.down[0])
    requires (forall m :: m in l.up ==> !m.SubmitOp?) && forall m :: m in l.down[1..] ==> !m.Committed?
    ensures Remembered(Received(l)) && Received(l).client.pending == {}
  {
    var v, rows := l.client.serverVersion, l.board.rows;
    KnowsThePast(l);
    ToldHead(v, l.down, rows);
    HeardByClient(l.client, l.down[0]);
    var v' := Hears(v, l.down[0]);
    ToldRises(v', l.down[1..], rows);
    assert rows[|rows|..] == [] && Since(rows, |rows|) == {};
    hide LinkTrue, Faithful, Told, Before, RowIds, AfterMessage, WellFormed;
  }

  // ---- when every submit is accepted ----

  ghost predicate SentBefore(x: string, up: seq<ClientMessage>, j: int) {
    exists i :: 0 <= i < j && i < |up| && up[i].SubmitOp? && up[i].id == x
  }

  // All that is counted is on the board or on the wire ahead.
  ghost predicate NoneMissed(counted: set<string>, rows: seq<Row>, up: seq<ClientMessage>, j: int) {
    forall x :: x in counted ==> x in RowIds(rows) || SentBefore(x, up, j)
  }

  ghost predicate NothingLost(l: Link, measure: Measure) {
    && !l.board.archived
    && (forall m :: m in l.up ==> m.SubmitOp? && SoundOp(m, measure))
    && (forall m :: m in l.down ==> m.Committed?)
    && NoneMissed(l.client.pending, l.board.rows, l.up, |l.up|)
    && (forall j :: 0 <= j < |l.up| && l.up[j].SubmitOp? && l.up[j].id in l.stamps ==>
         NoneMissed(l.stamps[l.up[j].id].counted, l.board.rows, l.up, j))
  }

  ghost predicate InStep(l: Link, measure: Measure) {
    LinkTrue(l) && Remembered(l) && NothingLost(l, measure)
  }

  // Sound operations, messages that get through, and a limiter with room.
  ghost predicate SmoothMove(l: Link, move: Move, measure: Measure) {
    match move
    case Draw(_, op) => measure(op) <= PayloadCap(op) && CheckPayload(op).None?
    case ServerTakes(now, turnedAway) => !turnedAway && (l.up != [] && l.up[0].SubmitOp? ==> !Limited(l, now))
    case ClientReceives => true
    case PartnerWrites(_, _) => false
  }

  ghost predicate SmoothRun(l: Link, moves: seq<Move>, author: string, measure: Measure) {
    moves != [] ==>
      && SmoothRun(l, moves[..|moves| - 1], author, measure)
      && SmoothMove(LinkAfterAll(l, moves[..|moves| - 1], author, measure), moves[|moves| - 1], measure)
  }

  lemma InStepHead(l: Link, measure: Measure)
    requires InStep(l, measure) && l.up != []
    ensures l.up[0].SubmitOp? && l.up[0].id in l.stamps
    ensures Accepts(l.board, [AsEnvelope(l.up[0])], measure)
  {
    assert l.up[0] in l.up;
    HeadAcceptedUnlessLost(l, measure);
    hide LinkTrue, Remembered, Accepts, SoundOp, RowIds;
    forall x | x in l.stamps[l.up[0].id].counted ensures x in RowIds(l.board.rows) {
      assert NoneMissed(l.stamps[l.up[0].id].counted, l.board.rows, l.up, 0);
    }
  }

  lemma HeadLeaves(counted: set<string>, rows: seq<Row>, row: Row, up: seq<ClientMessage>, j: int)
    requires up != [] && up[0].SubmitOp? && up[0].id == row.operationId && 0 < j && NoneMissed(counted, rows, up, j)
    ensures NoneMissed(counted, rows + [row], up[1..], j - 1)
  {
    RowBehind(rows, row);
    hide RowIds;
    forall x | x in counted ensures x in RowIds(rows + [row]) || SentBefore(x, up[1..], j - 1) {
      if x !in RowIds(rows) {
        var i :| 0 <= i < j && i < |up| && up[i].SubmitOp? && up[i].id == x;
        if i > 0 {
          assert up[1..][i - 1].id == x;
        }
      }
    }
  }

  lemma TakenLosesNothing(l: Link, now: real, author: string, measure: Measure)
    requires InStep(l, measure) && SmoothMove(l, ServerTakes(now, false), measure)
    ensures NothingLost(Taken(l, now, false, author, measure), measure)
  {
    if l.up != [] {
      InStepHead(l, measure);
      var row := HeadBecomesRow(l, now, author, measure);
      var l' := Taken(l, now, false, author, measure);
      hide LinkTrue, Remembered, Accepts, SoundOp, RowIds, Taken, NoneMissed, Limited;
      HeadLeaves(l.client.pending, l.board.rows, row, l.up, |l.up|);
      StampsStillLoseNothing(l, row, measure);
    }
  }

  // An accepted submit turns into a row and its confirmation.
  lemma HeadBecomesRow(l: Link, now: real, author: string, measure: Measure) returns (row: Row)
    requires LinkTrue(l) && l.up != [] && l.up[0].SubmitOp? && !Limited(l, now)
    requires Accepts(l.board, [AsEnvelope(l.up[0])], measure)
    ensures var l' := Taken(l, now, false, author, measure);
      && l'.up == l.up[1..] && l'.client == l.client && l'.stamps == l.stamps && l'.board.archived == l.board.archived
      && row.operationId == l.up[0].id && l'.board.rows == l.board.rows + [row]
      && exists m :: l'.down == l.down + [m] && m.Committed?
  {
    HeadIsTrue(l);
    var e := AsEnvelope(l.up[0]);
    hide LinkTrue, Accepts, Submitted, Reply, RowIds, WellFormed, Limited, Recent;
    FreshSubmit(l.board, author, e, measure);
    row := Row(e.operationId, l.board.version + 1, author, e.op, e.baseVersion, l.board.version + 1);
    var m := Reply(l.board, author, e, measure);
    assert Taken(l, now, false, author, measure).down == l.down + [m] && m.Committed?;
  }

  lemma StampsStillLoseNothing(l: Link, row: Row, measure: Measure)
    requires NothingLost(l, measure) && l.up != [] && l.up[0].SubmitOp? && row.operationId == l.up[0].id
    ensures forall j :: 0 <= j < |l.up| - 1 && l.up[1..][j].SubmitOp? && l.up[1..][j].id in l.stamps ==>
      NoneMissed(l.stamps[l.up[1..][j].id].counted, l.board.rows + [row], l.up[1..], j)
  {
    hide NoneMissed, SoundOp, RowIds;
    var rest := l.up[1..];
    forall j | 0 <= j < |rest| && rest[j].SubmitOp? && rest[j].id in l.stamps
      ensures NoneMissed(l.stamps[rest[j].id].counted, l.board.rows + [row], rest, j)
    {
      assert rest[j] == l.up[j + 1];
      HeadLeaves(l.stamps[l.up[j + 1].id].counted, l.board.rows, row, l.up, j + 1);
    }
  }

  lemma LongerUp(counted: set<string>, rows: seq<Row>, up: seq<ClientMessage>, m: ClientMessage, j: int)
    requires NoneMissed(counted, rows, up, j) && j <= |up|
    ensures NoneMissed(counted, rows, up + [m], j)
    ensures m.SubmitOp? && j == |up| ==> NoneMissed(counted + {m.id}, rows, up + [m], j + 1)
  {
    hide RowIds;
    forall x | x in counted && x !in RowIds(rows) ensures SentBefore(x, up + [m], j) && SentBefore(x, up + [m], j + 1) {
      var i :| 0 <= i < j && i < |up| && up[i].SubmitOp? && up[i].id == x;
      assert (up + [m])[i] == up[i];
    }
    assert (up + [m])[|up|] == m;
  }

  lemma StampsLoseNothing(l: Link, id: string, stamp: Stamp, m: ClientMessage, measure: Measure)
    requires NothingLost(l, measure) && forall i :: 0 <= i < |l.up| && l.up[i].SubmitOp? ==> l.up[i].id in l.stamps && l.up[i].id != id
    ensures var stamps := l.stamps[id := stamp];
      forall j :: 0 <= j < |l.up| && l.up[j].SubmitOp? && l.up[j].id in stamps ==>
        NoneMissed(stamps[l.up[j].id].counted, l.board.rows, l.up + [m], j)
  {
    hide NoneMissed, SoundOp;
    forall j | 0 <= j < |l.up| && l.up[j].SubmitOp? ensures NoneMissed(l.stamps[l.up[j].id].counted, l.board.rows, l.up + [m], j) {
      LongerUp(l.stamps[l.up[j].id].counted, l.board.rows, l.up, m, j);
    }
  }

  lemma DrawnLosesNothing(l: Link, id: string, op: Operation, measure: Measure)
    requires InStep(l, measure) && measure(op) <= PayloadCap(op) && CheckPayload(op).None?
    ensures NothingLost(Drawn(l, id, op), measure)
  {
    var l' := Drawn(l, id, op);
    if l' != l {
      UpIsFresh(l, id);
      var m := l'.up[|l.up|];
      assert l'.up == l.up + [m] && SoundOp(m, measure);
      hide LinkTrue, Remembered, CheckPayload, RowIds, NoneMissed, SoundOp;
      LongerUp(l.client.pending, l.board.rows, l.up, m, |l.up|);
      StampsLoseNothing(l, id, Stamp(l.client.serverVersion, l.client.pending), m, measure);
      assert forall x :: x in l'.up ==> x in l.up || x == m;
    }
  }

  lemma ReceivedLosesNothing(l: Link, measure: Measure)
    requires InStep(l, measure)
    ensures l.down != [] ==> !IsReset(l.down[0])
    ensures NothingLost(Received(l), measure)
  {
    if l.down != [] {
      assert l.down[0] in l.down;
      HeardByClient(l.client, l.down[0]);
      hide LinkTrue, Remembered, RowIds, SoundOp, SentBefore, AfterMessage;
    }
  }

  lemma {:induction false} SmoothStaysInStep(l: Link, moves: seq<Move>, author: string, measure: Measure)
    requires InStep(l, measure) && SmoothRun(l, moves, author, measure)
    ensures InStep(LinkAfterAll(l, moves, author, measure), measure)
  {
    if moves != [] {
      var init := moves[..|moves| - 1];
      SmoothStaysInStep(l, init, author, measure);
      var mid := LinkAfterAll(l, init, author, measure);
      assert LinkTrue(mid) && Remembered(mid);
      hide LinkTrue, Remembered, NothingLost, Taken, Drawn, Received, CheckPayload, Limited;
      match moves[|moves| - 1]
      case Draw(id, op) =>
        DrawnKeepsTrue(mid, id, op);
        DrawnRemembers(mid, id, op);
        DrawnLosesNothing(mid, id, op, measure);
      case ServerTakes(now, turnedAway) =>
        TakenKeepsTrue(mid, now, turnedAway, author, measure);
        TakenRemembers(mid, now, turnedAway, author, measure);
        TakenLosesNothing(mid, now, author, measure);
      case ClientReceives =>
        ReceivedKeepsTrue(mid);
        ReceivedLosesNothing(mid, measure);
        ReceivesRemembering(mid);
    }
  }

  lemma ReceivesRemembering(l: Link)
    requires LinkTrue(l) && Remembered(l) && (l.down != [] ==> !IsReset(l.down[0]))
    ensures Remembered(Received(l))
  {
    if l.down != [] {
      ReceivedRemembers(l);
    }
  }

  function UpIds(up: seq<ClientMessage>): set<string> {
    set m | m in up && m.SubmitOp? :: m.id
  }

  lemma UpIdsHead(m: ClientMessage, rest: seq<ClientMessage>)
    requires m.SubmitOp?
    ensures UpIds([m] + rest) == UpIds(rest) + {m.id}
  {
    var up := [m] + rest;
    assert forall x :: x in up <==> x == m || x in rest;
    forall id | id in UpIds(rest) + {m.id} ensures id in UpIds(up) {
      if id != m.id {
        var x :| x in rest && x.SubmitOp? && x.id == id;
        assert x in up;
      }
    }
  }

  lemma {:induction false} CountUp(up: seq<ClientMessage>)
    requires DistinctSubmits(up) && forall m :: m in up ==> m.SubmitOp?
    ensures |UpIds(up)| == |up|
  {
    if up != [] {
      var m, rest := up[0], up[1..];
      TailOfUp(up);
      assert m in up && up == [m] + rest;
      UpIdsHead(m, rest);
      assert m.id !in UpIds(rest);
      hide UpIds, DistinctSubmits;
      CountUp(rest);
    }
  }

  // Confirmed plus in flight is the version the server will be at once it has taken what is on the wire.
  lemma NextBase(l: Link, measure: Measure)
    requires InStep(l, measure)
    ensures l.client.serverVersion + |l.client.pending| == l.board.version + |l.up|
  {
    var since := Since(l.board.rows, l.client.serverVersion);
    KnowsThePast(l);
    SplitRows(l.board.rows, l.client.serverVersion);
    UpIsDistinct(l);
    CountUp(l.up);
    UpKnows(l);
    PendingIs(l, measure);
    hide InStep, RowIds, Since, Before, DistinctSubmits, DistinctRows;
    assert since !! UpIds(l.up);
    assert |since + UpIds(l.up)| == |since| + |UpIds(l.up)|;
  }

  lemma PendingIs(l: Link, measure: Measure)
    requires InStep(l, measure)
    ensures l.client.pending == Since(l.board.rows, l.client.serverVersion) + UpIds(l.up)
  {
    KnowsThePast(l);
    SplitRows(l.board.rows, l.client.serverVersion);
    hide LinkTrue, RowIds, Since, Before, DistinctRows;
    forall x | x in UpIds(l.up) ensures x in l.client.pending {
      var m :| m in l.up && m.SubmitOp? && m.id == x;
      assert SubmitCounted(m, l.client.pending, l.board.rows, l.stamps);
    }
    forall x | x in l.client.pending && x !in RowIds(l.board.rows) ensures x in UpIds(l.up) {
      assert SentBefore(x, l.up, |l.up|);
      var i :| 0 <= i < |l.up| && l.up[i].SubmitOp? && l.up[i].id == x;
      assert l.up[i] in l.up;
    }
  }

  lemma ConnectedInStep(l: Link, measure: Measure)
    requires Connected(l) && !l.board.archived && l.client.pending == {}
    ensures InStep(l, measure)
  {
    ConnectedIsTrue(l);
    ConnectedRemembers(l);
  }

  // One author writing alone, sound operations, and a limiter with room: every submit is accepted, however
  // many are in flight.
  lemma EveryPipelinedSubmitIsAccepted(l: Link, moves: seq<Move>, author: string, measure: Measure)
    requires Connected(l) && !l.board.archived && l.client.pending == {} && SmoothRun(l, moves, author, measure)
    ensures var end := LinkAfterAll(l, moves, author, measure);
      && end.client.serverVersion + |end.client.pending| == end.board.version + |end.up|
      && (forall m :: m in end.down ==> m.Committed?)
      && (end.up != [] ==> end.up[0].SubmitOp? && Accepts(end.board, [AsEnvelope(end.up[0])], measure))
  {
    ConnectedInStep(l, measure);
    SmoothStaysInStep(l, moves, author, measure);
    var end := LinkAfterAll(l, moves, author, measure);
    NextBase(end, measure);
    if end.up != [] {
      InStepHead(end, measure);
    }
    hide LinkTrue, Remembered, NoneMissed, LinkAfterAll, Accepts, SoundOp;
  }

  // ---- with the limiter ----

  ghost predicate TakesSubmit(l: Link, move: Move) {
    move.ServerTakes? && !move.turnedAway && l.up != [] && l.up[0].SubmitOp?
  }

  // When the server takes the submits of a run.
  ghost function Arrivals(l: Link, moves: seq<Move>, author: string, measure: Measure): seq<real> {
    if moves == [] then []
    else
      var mid, last := LinkAfterAll(l, moves[..|moves| - 1], author, measure), moves[|moves| - 1];
      Arrivals(l, moves[..|moves| - 1], author, measure)
        + if TakesSubmit(mid, last) then [last.now] else []
  }

  predicate SoundMove(move: Move, measure: Measure) {
    match move
    case Draw(_, op) => measure(op) <= PayloadCap(op) && CheckPayload(op).None?
    case ServerTakes(_, turnedAway) => !turnedAway
    case ClientReceives => true
    case PartnerWrites(_, _) => false
  }

  lemma PacedTake(l: Link, before: seq<real>, now: real, author: string, measure: Measure)
    requires l.up != [] && l.up[0].SubmitOp?
    requires l.times == R.Held(before, SUBMITS_WINDOW, SUBMITS_LIMIT) && R.Paced(before + [now], SUBMITS_WINDOW, SUBMITS_LIMIT)
    ensures !Limited(l, now)
    ensures Taken(l, now, false, author, measure).times == R.Held(before + [now], SUBMITS_WINDOW, SUBMITS_LIMIT)
  {
    hide R.Held, R.After, R.Paced, Submitted, Reply;
    R.PacedIsNotFull(before, now, SUBMITS_WINDOW, SUBMITS_LIMIT);
    R.OneMore(before, now, SUBMITS_WINDOW, SUBMITS_LIMIT);
  }

  lemma OthersKeepTimes(l: Link, move: Move, author: string, measure: Measure)
    requires !TakesSubmit(l, move)
    ensures LinkAfter(l, move, author, measure).times == l.times
  {
    hide Submitted, Reply, AfterMessage, RowIds;
  }

  // Submits that come at the pace the limiter allows are never dropped.
  lemma {:induction false} PacedIsSmooth(l: Link, moves: seq<Move>, author: string, measure: Measure)
    requires l.times == [] && forall move :: move in moves ==> SoundMove(move, measure)
    requires R.Paced(Arrivals(l, moves, author, measure), SUBMITS_WINDOW, SUBMITS_LIMIT)
    ensures SmoothRun(l, moves, author, measure)
    ensures LinkAfterAll(l, moves, author, measure).times == R.Held(Arrivals(l, moves, author, measure), SUBMITS_WINDOW, SUBMITS_LIMIT)
  {
    if moves != [] {
      var init, last := moves[..|moves| - 1], moves[|moves| - 1];
      var mid, before := LinkAfterAll(l, init, author, measure), Arrivals(l, init, author, measure);
      assert last in moves && SoundMove(last, measure);
      hide R.Held, R.Paced, CheckPayload, LinkAfter, Limited;
      if TakesSubmit(mid, last) {
        PacedInit(before, last.now);
        PacedIsSmooth(l, init, author, measure);
        PacedTake(mid, before, last.now, author, measure);
        assert LinkAfter(mid, last, author, measure) == Taken(mid, last.now, false, author, measure) by {
          TakesIs(mid, last, author, measure);
        }
      } else {
        assert before + [] == before;
        PacedIsSmooth(l, init, author, measure);
        OthersKeepTimes(mid, last, author, measure);
      }
    }
  }

  lemma TakesIs(l: Link, move: Move, author: string, measure: Measure)
    requires TakesSubmit(l, move)
    ensures LinkAfter(l, move, author, measure) == Taken(l, move.now, false, author, measure)
  {
    hide Taken;
  }

  lemma PacedInit(before: seq<real>, now: real)
    requires R.Paced(before + [now], SUBMITS_WINDOW, SUBMITS_LIMIT)
    ensures R.Paced(before, SUBMITS_WINDOW, SUBMITS_LIMIT)
  {
    hide R.Paced;
    R.PacedIsNotFull(before, now, SUBMITS_WINDOW, SUBMITS_LIMIT);
  }

  // So: if no minute holds more than the limit of submits and every operation is sound, every submit is accepted.
  lemma EveryPacedSubmitIsAccepted(l: Link, moves: seq<Move>, author: string, measure: Measure)
    requires Connected(l) && !l.board.archived && l.client.pending == {} && l.times == []
    requires forall move :: move in moves ==> SoundMove(move, measure)
    requires R.Paced(Arrivals(l, moves, author, measure), 60.0, 120)
    ensures var end := LinkAfterAll(l, moves, author, measure);
      && end.client.serverVersion + |end.client.pending| == end.board.version + |end.up|
      && (forall m :: m in end.down ==> m.Committed?)
      && (end.up != [] ==> end.up[0].SubmitOp? && Accepts(end.board, [AsEnvelope(end.up[0])], measure))
  {
    PacedIsSmooth(l, moves, author, measure);
    EveryPipelinedSubmitIsAccepted(l, moves, author, measure);
  }

  // ---- a case ----

  const NEW_LINK := Link(NEW_CONTROLLER, [], Board(0, false, []), [], [], map[])

  // A submit is refused for its operation. The next one, which has nothing wrong with it, is sent on
  // version 1 to a board at version 0 and answered stale.
  lemma RefusalThenStale(author: string, measure: Measure)
    requires measure(ClearCanvas) <= PayloadCap(ClearCanvas)
    ensures var sent := Drawn(Drawn(NEW_LINK, "a", DeleteObject("")), "b", ClearCanvas);
      var one := Taken(sent, 0.0, false, author, measure);
      var two := Taken(one, 0.0, false, author, measure);
      && sent.up == [SubmitOp("a", 0, DeleteObject("")), SubmitOp("b", 1, ClearCanvas)]
      && one.board == NEW_LINK.board && one.down == [Rejected(false, None)] && one.client.pending == {"a", "b"}
      && two.board == NEW_LINK.board && two.down == [Rejected(false, None), Rejected(true, Some(0))] && two.up == []
  {
    var sent := Drawn(Drawn(NEW_LINK, "a", DeleteObject("")), "b", ClearCanvas);
    TwoSent();
    OneOfEach(author, measure);
    hide ServerAnswer, Submitted, Recent;
    assert sent.up[1..] == [SubmitOp("b", 1, ClearCanvas)];
    NoTimes();
  }

  lemma TwoSent()
    ensures var sent := Drawn(Drawn(NEW_LINK, "a", DeleteObject("")), "b", ClearCanvas);
      && sent.up == [SubmitOp("a", 0, DeleteObject("")), SubmitOp("b", 1, ClearCanvas)]
      && sent.client.pending == {"a", "b"} && sent.board == NEW_LINK.board && sent.down == [] && sent.times == []
  {
    assert "a" != "b";
  }

  lemma OneOfEach(author: string, measure: Measure)
    requires measure(ClearCanvas) <= PayloadCap(ClearCanvas)
    ensures var b := NEW_LINK.board;
      var bad, good := Envelope("a", 0, DeleteObject(""), None), Envelope("b", 1, ClearCanvas, None);
      && Submitted(b, author, [bad], measure) == b && Reply(b, author, bad, measure) == Rejected(false, None)
      && Submitted(b, author, [good], measure) == b && Reply(b, author, good, measure) == Rejected(true, Some(0))
  {
    var bad, good := Envelope("a", 0, DeleteObject(""), None), Envelope("b", 1, ClearCanvas, None);
    FirstOfOne(bad, measure);
    FirstOfOne(good, measure);
    FreshSubmit(NEW_LINK.board, author, bad, measure);
    FreshSubmit(NEW_LINK.board, author, good, measure);
    hide FirstInvalid;
  }

  lemma NoTimes()
    ensures R.After([], -SUBMITS_WINDOW) == [] && R.After([], 0.0 - SUBMITS_WINDOW) == []
    ensures R.After([0.0], 0.0 - SUBMITS_WINDOW) == [0.0]
  {
    assert [0.0][..0] == [];
  }
}
