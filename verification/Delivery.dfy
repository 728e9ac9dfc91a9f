// The offline delivery protocol as a state machine: a durable client queue, requests that may be
// lost before or after the server handles them, crashes, and a server with other writers.
module Delivery {
  import opened Prelude
  import opened Drawing
  import opened Validator
  import opened Ledger
  import opened LocalStore

  const MAX_RETRIES := 8

  // What comes back for one submitted operation. `Unavailable` is a lost reply, a lost request or
  // a server error; `Refused` any other rejection.
  datatype Answer = Acked(version: int) | StaleAt(current: int) | Limited | Unavailable | Refused

  // What the client does with it: its records, the version it now believes in, whether the pass goes on.
  datatype Reaction = Reaction(records: Records, version: int, goOn: bool)

  function React(records: Records, version: int, e: Entry, a: Answer): Reaction {
    match a
    case Acked(v) => Reaction(Compacted(WithVersion(records, e.id, Confirmed, v), v), Max(version, v), true)
    case StaleAt(current) => Reaction(WithRetries(records, e.id, Pending, e.record.retries + 1), current, false)
    case Limited => Reaction(WithRetries(records, e.id, Pending, e.record.retries + 1), version, false)
    case Unavailable =>
      Reaction(
        if e.record.retries < MAX_RETRIES then WithRetries(records, e.id, Pending, e.record.retries + 1)
        else WithStatus(records, e.id, Failed), version, false)
    case Refused => Reaction(WithRetries(records, e.id, Failed, e.record.retries + 1), version, true)
  }

  function Request(e: Entry, version: int): Envelope {
    Envelope(e.id, version, e.record.op, None)
  }

  // What the server says to a request it handles.
  ghost function ServerAnswer(b: Board, actor: string, e: Envelope, measure: Measure): Answer {
    if Accepts(b, [e], measure) then
      var row := FindRow(Append(b, actor, [e]).rows, e.operationId);
      if row.Some? then Acked(row.value.resultingVersion) else Refused
    else if FirstInvalid([e], measure).None? && !b.archived then StaleAt(b.version)
    else Refused
  }

  // What an answer leaves of each record: the one it is about, and those that are through.
  lemma AnswerOutcome(records: Records, version: int, e: Entry, a: Answer, id: string)
    requires id in records
    ensures var r := React(records, version, e, a);
      && r.goOn == (a.Acked? || a.Refused?)
      && r.version == match a { case Acked(v) => Max(version, v) case StaleAt(current) => current case _ => version }
      && (id in r.records <==> !(a.Acked? && (id == e.id || (records[id].status == Confirmed && records[id].serverVersion <= a.version))))
      && (id in r.records && id != e.id ==> r.records[id] == records[id])
      && (id in r.records && id == e.id ==>
           && r.records[id].op == records[id].op && r.records[id].clientSequence == records[id].clientSequence
           && r.records[id].status == if a.Refused? || (a.Unavailable? && e.record.retries >= 8) then Failed else Pending)
  {
  }

  // ---- the system ----

  // A pass over the queue: what is left of it, and the request it waits for.
  datatype Pass = Pass(queue: seq<Entry>, waiting: Option<nat>)

  datatype Client = Client(records: Records, version: int, pass: Option<Pass>)

  datatype Saved = Saved(op: Operation, clientSequence: int)

  // `sent` is every request ever put on the wire, `answers` what came of those already answered,
  // `saved` every operation ever accepted for local storage.
  datatype System = System(
    board: Board, client: Client, sent: seq<Envelope>, answers: map<nat, Answer>, saved: map<string, Saved>)

  const START := System(Board(0, false, []), Client(map[], 0, None), [], map[], map[])

  datatype Action =
    | SaveLocal(id: string, op: Operation, clientSequence: int)
    | BeginPass(queue: seq<Entry>, live: int)
    | SendNext
    | HandleRequest(k: nat)
    | DropRequest(k: nat, answer: Answer)
    | ReceiveAnswer
    | LoseAnswer
    | EndPass
    | SendOverSocket(id: string, base: int)
    | ConfirmFromSocket(id: string, version: int)
    | SeedVersion(version: int)
    | CrashAndRestart
    | OtherClients(event: Event)

  ghost function Finish(c: Client, e: Entry, rest: seq<Entry>, a: Answer): Client {
    var r := React(c.records, c.version, e, a);
    Client(r.records, r.version, if r.goOn then Some(Pass(rest, None)) else None)
  }

  // Steps the source cannot take from a state leave it alone.
  ghost function Next(s: System, a: Action, me: string, measure: Measure): System {
    var c := s.client;
    match a
    case SaveLocal(id, op, n) =>
      // operation ids are random and never reused
      if id in s.saved || id in RowIds(s.board.rows) || id in c.records then s
      else s.(client := c.(records := c.records[id := Record(op, n, Pending, 0, 0)]), saved := s.saved[id := Saved(op, n)])
    case BeginPass(queue, live) =>
      if c.pass.Some? || !IsQueue(c.records, queue) || live > |s.board.rows| then s
      else s.(client := c.(version := Max(c.version, live), pass := Some(Pass(queue, None))))
    case SendNext =>
      if c.pass.None? || c.pass.value.waiting.Some? || c.pass.value.queue == [] then s
      else
        var e := c.pass.value.queue[0];
        s.(client := Client(WithStatus(c.records, e.id, Submitting), c.version, Some(c.pass.value.(waiting := Some(|s.sent|)))),
           sent := s.sent + [Request(e, c.version)])
    case HandleRequest(k) =>
      if k >= |s.sent| || k in s.answers then s
      else s.(board := Submitted(s.board, me, [s.sent[k]], measure),
              answers := s.answers[k := ServerAnswer(s.board, me, s.sent[k], measure)])
    case DropRequest(k, answer) =>
      // refused on the way: a rate limiter, a proxy, a permission check
      if k >= |s.sent| || k in s.answers || answer.Acked? || answer.StaleAt? then s
      else s.(answers := s.answers[k := answer])
    case ReceiveAnswer =>
      if Waiting(s) && c.pass.value.waiting.value in s.answers then
        s.(client := Finish(c, c.pass.value.queue[0], c.pass.value.queue[1..], s.answers[c.pass.value.waiting.value]))
      else s
    case LoseAnswer =>
      if Waiting(s) then s.(client := Finish(c, c.pass.value.queue[0], c.pass.value.queue[1..], Unavailable)) else s
    case EndPass =>
      if c.pass.Some? && c.pass.value.queue == [] && c.pass.value.waiting.None? then s.(client := c.(pass := None)) else s
    case SendOverSocket(id, base) =>
      if id in c.records then s.(sent := s.sent + [Envelope(id, base, c.records[id].op, None)]) else s
    case ConfirmFromSocket(id, version) =>
      if id in RowIds(s.board.rows) && version <= |s.board.rows| then
        s.(client := c.(records := WithVersion(c.records, id, Confirmed, version), version := Max(c.version, version)))
      else s
    case SeedVersion(version) =>
      if version <= |s.board.rows| then s.(client := c.(version := Max(c.version, version))) else s
    case CrashAndRestart => s.(client := Client(Recovered(c.records), 0, None))
    case OtherClients(event) =>
      // other clients draw their own ids
      if EventIds(event) * s.saved.Keys != {} then s else s.(board := Perform(s.board, event, measure))
  }

  ghost predicate Waiting(s: System) {
    s.client.pass.Some? && s.client.pass.value.waiting.Some? && s.client.pass.value.queue != []
  }

  ghost function RunAll(actions: seq<Action>, me: string, measure: Measure): System {
    if actions == [] then START
    else Next(RunAll(actions[..|actions| - 1], me, measure), actions[|actions| - 1], me, measure)
  }

  // ---- what every run keeps ----

  // A saved operation is in the ledger, or still stored and not marked confirmed.
  ghost predicate Accounted(records: Records, saved: map<string, Saved>, ledger: set<string>) {
    forall id :: id in saved ==> id in ledger || (id in records && records[id].status != Confirmed)
  }

  ghost predicate Truthful(records: Records, saved: map<string, Saved>) {
    forall id :: id in records ==> id in saved && records[id].op == saved[id].op && records[id].clientSequence == saved[id].clientSequence
  }

  ghost predicate SentTruthful(sent: seq<Envelope>, saved: map<string, Saved>) {
    forall e :: e in sent ==> e.operationId in saved && e.op == saved[e.operationId].op
  }

  ghost predicate AnswerTrue(a: Answer, id: string, ledger: set<string>, version: int) {
    match a
    case Acked(v) => id in ledger && v <= version
    case StaleAt(current) => 0 <= current <= version
    case _ => true
  }

  ghost predicate AnswersTrue(answers: map<nat, Answer>, sent: seq<Envelope>, ledger: set<string>, version: int) {
    forall k :: k in answers ==> k < |sent| && AnswerTrue(answers[k], sent[k].operationId, ledger, version)
  }

  ghost predicate EntryTruthful(e: Entry, saved: map<string, Saved>) {
    e.id in saved && e.record.op == saved[e.id].op && e.record.clientSequence == saved[e.id].clientSequence
  }

  ghost predicate PassTruthful(pass: Option<Pass>, sent: seq<Envelope>, saved: map<string, Saved>) {
    pass.Some? ==>
      && (forall e :: e in pass.value.queue ==> EntryTruthful(e, saved))
      && (pass.value.waiting.Some? ==>
           pass.value.queue != [] && pass.value.waiting.value < |sent|
           && sent[pass.value.waiting.value].operationId == pass.value.queue[0].id)
  }

  // The ledger holds under a saved id exactly the operation that was saved.
  ghost predicate RowsTruthful(rows: seq<Row>, saved: map<string, Saved>) {
    forall r :: r in rows && r.operationId in saved ==> r.op == saved[r.operationId].op
  }

  ghost predicate Safe(s: System) {
    && WellFormed(s.board)
    && 0 <= s.client.version <= |s.board.rows|
    && Accounted(s.client.records, s.saved, RowIds(s.board.rows))
    && Truthful(s.client.records, s.saved)
    && SentTruthful(s.sent, s.saved)
    && AnswersTrue(s.answers, s.sent, RowIds(s.board.rows), |s.board.rows|)
    && PassTruthful(s.client.pass, s.sent, s.saved)
    && RowsTruthful(s.board.rows, s.saved)
  }

  // ---- the server's side ----

  lemma LedgerGrows(b: Board, e: Event, measure: Measure)
    requires WellFormed(b)
    ensures WellFormed(Perform(b, e, measure)) && |b.rows| <= |Perform(b, e, measure).rows|
    ensures RowIds(b.rows) <= RowIds(Perform(b, e, measure).rows) <= RowIds(b.rows) + EventIds(e)
  {
    PerformKeeps(b, e, measure);
    if e.Submit? && Accepts(b, e.ops, measure) {
      BatchKnows(b.rows, e.ops, e.actor, b.version);
    }
  }

  lemma AnswerIsTrue(b: Board, actor: string, e: Envelope, measure: Measure)
    requires WellFormed(b)
    ensures var b' := Submitted(b, actor, [e], measure);
      AnswerTrue(ServerAnswer(b, actor, e, measure), e.operationId, RowIds(b'.rows), |b'.rows|)
  {
    if Accepts(b, [e], measure) {
      SubmittedWellFormed(b, actor, [e], measure);
      var rows := Append(b, actor, [e]).rows;
      var row := FindRow(rows, e.operationId);
      if row.Some? {
        var i :| 0 <= i < |rows| && rows[i] == row.value;
      }
    }
  }

  // An accepted request is always acknowledged with the row that carries it.
  lemma AcceptedIsAcked(b: Board, actor: string, e: Envelope, measure: Measure)
    requires WellFormed(b) && Accepts(b, [e], measure)
    ensures ServerAnswer(b, actor, e, measure).Acked?
    ensures e.operationId in RowIds(Submitted(b, actor, [e], measure).rows)
  {
    AcceptedIsKept(b, actor, [e], Append(b, actor, [e]).rows);
    OneNovel(e, {});
  }

  lemma AnswersStayTrue(answers: map<nat, Answer>, sent: seq<Envelope>, more: seq<Envelope>,
                        ledger: set<string>, ledger': set<string>, version: int, version': int)
    requires AnswersTrue(answers, sent, ledger, version) && ledger <= ledger' && version <= version'
    ensures AnswersTrue(answers, sent + more, ledger', version')
  {
  }

  // ---- the client's side ----

  lemma ReactKeeps(records: Records, version: int, e: Entry, a: Answer, saved: map<string, Saved>, ledger: set<string>, n: int)
    requires Truthful(records, saved) && Accounted(records, saved, ledger) && version <= n
    requires AnswerTrue(a, e.id, ledger, n)
    ensures var r := React(records, version, e, a);
      Truthful(r.records, saved) && Accounted(r.records, saved, ledger) && r.version <= n
    ensures 0 <= version ==> 0 <= React(records, version, e, a).version
  {
  }

  // ---- each step keeps it ----

  lemma SaveKeepsSafe(s: System, id: string, op: Operation, n: int)
    requires Safe(s) && id !in s.saved && id !in RowIds(s.board.rows) && id !in s.client.records
    ensures Safe(s.(client := s.client.(records := s.client.records[id := Record(op, n, Pending, 0, 0)]),
                    saved := s.saved[id := Saved(op, n)]))
  {
    RowsHaveIds(s.board.rows);
  }

  lemma BoardStepKeepsSafe(s: System, b: Board, answers: map<nat, Answer>)
    requires Safe(s) && WellFormed(b) && |s.board.rows| <= |b.rows| && RowIds(s.board.rows) <= RowIds(b.rows)
    requires AnswersTrue(answers, s.sent, RowIds(b.rows), |b.rows|) && RowsTruthful(b.rows, s.saved)
    ensures Safe(s.(board := b, answers := answers))
  {
  }

  lemma ClientStepKeepsSafe(s: System, c: Client)
    requires Safe(s) && 0 <= c.version <= |s.board.rows|
    requires Accounted(c.records, s.saved, RowIds(s.board.rows)) && Truthful(c.records, s.saved)
    requires PassTruthful(c.pass, s.sent, s.saved)
    ensures Safe(s.(client := c))
  {
  }

  lemma HandledTruthful(b: Board, me: string, e: Envelope, measure: Measure, saved: map<string, Saved>)
    requires RowsTruthful(b.rows, saved) && e.operationId in saved && e.op == saved[e.operationId].op
    ensures RowsTruthful(Submitted(b, me, [e], measure).rows, saved)
  {
    hide Submitted, Accepts, RowIds;
    OneSubmitted(b, me, e, measure);
  }

  lemma HandleKeepsSafe(s: System, k: nat, me: string, measure: Measure)
    requires Safe(s) && k < |s.sent| && k !in s.answers
    ensures Safe(Next(s, HandleRequest(k), me, measure))
  {
    hide Submitted, ServerAnswer, WellFormed, Accounted, Truthful, PassTruthful, RowsTruthful, RowIds;
    var e := s.sent[k];
    assert e in s.sent;
    var b, a := Submitted(s.board, me, [e], measure), ServerAnswer(s.board, me, e, measure);
    LedgerGrows(s.board, Submit(me, [e]), measure);
    HandledTruthful(s.board, me, e, measure, s.saved);
    AnswerIsTrue(s.board, me, e, measure);
    hide SentTruthful, AnswerTrue;
    BoardStepKeepsSafe(s, b, s.answers[k := a]);
  }

  lemma OthersKeepSafe(s: System, event: Event, measure: Measure)
    requires Safe(s) && EventIds(event) * s.saved.Keys == {}
    ensures Safe(s.(board := Perform(s.board, event, measure)))
  {
    var b := Perform(s.board, event, measure);
    LedgerGrows(s.board, event, measure);
    PerformKeeps(s.board, event, measure);
    AnswersStayTrue(s.answers, s.sent, [], RowIds(s.board.rows), RowIds(b.rows), |s.board.rows|, |b.rows|);
    assert s.sent + [] == s.sent;
    var added := OthersAppend(s.board, event, measure, s.saved.Keys);
    BoardStepKeepsSafe(s, b, s.answers);
  }

  // What other clients add carries none of this client's ids.
  lemma OthersAppend(b: Board, event: Event, measure: Measure, mine: set<string>) returns (added: seq<Row>)
    requires EventIds(event) * mine == {}
    ensures Perform(b, event, measure).rows == b.rows + added
    ensures RowIds(added) !! mine
    ensures forall r :: r in added ==> r.operationId !in mine
  {
    added := [];
    if event.Submit? && Accepts(b, event.ops, measure) {
      var novel := Novel(event.ops, RowIds(b.rows));
      NovelIds(event.ops, RowIds(b.rows));
      added := Numbered(novel, event.actor, b.version);
      NumberedIds(novel, event.actor, b.version);
    }
    RowsHaveIds(added);
  }

  lemma SendKeepsSafe(s: System, me: string, measure: Measure)
    requires Safe(s)
    ensures Safe(Next(s, SendNext, me, measure))
  {
    var c := s.client;
    if c.pass.Some? && c.pass.value.waiting.None? && c.pass.value.queue != [] {
      var e := c.pass.value.queue[0];
      assert e in c.pass.value.queue;
      AnswersStayTrue(s.answers, s.sent, [Request(e, c.version)], RowIds(s.board.rows), RowIds(s.board.rows), |s.board.rows|, |s.board.rows|);
    }
  }

  lemma SocketKeepsSafe(s: System, id: string, base: int)
    requires Safe(s) && id in s.client.records
    ensures Safe(s.(sent := s.sent + [Envelope(id, base, s.client.records[id].op, None)]))
  {
    AnswersStayTrue(s.answers, s.sent, [Envelope(id, base, s.client.records[id].op, None)],
      RowIds(s.board.rows), RowIds(s.board.rows), |s.board.rows|, |s.board.rows|);
  }

  lemma FinishKeepsSafe(s: System, a: Answer)
    requires Safe(s) && Waiting(s)
    requires AnswerTrue(a, s.client.pass.value.queue[0].id, RowIds(s.board.rows), |s.board.rows|)
    ensures Safe(s.(client := Finish(s.client, s.client.pass.value.queue[0], s.client.pass.value.queue[1..], a)))
  {
    var c := s.client;
    var e, rest := c.pass.value.queue[0], c.pass.value.queue[1..];
    ReactKeeps(c.records, c.version, e, a, s.saved, RowIds(s.board.rows), |s.board.rows|);
    assert forall x :: x in rest ==> x in c.pass.value.queue;
    ClientStepKeepsSafe(s, Finish(c, e, rest, a));
  }

  lemma BeginKeepsSafe(s: System, queue: seq<Entry>, live: int)
    requires Safe(s) && IsQueue(s.client.records, queue) && live <= |s.board.rows|
    ensures Safe(s.(client := s.client.(version := Max(s.client.version, live), pass := Some(Pass(queue, None)))))
  {
    ClientStepKeepsSafe(s, s.client.(version := Max(s.client.version, live), pass := Some(Pass(queue, None))));
  }

  lemma StepKeepsSafe(s: System, a: Action, me: string, measure: Measure)
    requires Safe(s)
    ensures Safe(Next(s, a, me, measure))
  {
    hide Safe, Finish, IsQueue, Perform, Submitted, ServerAnswer;
    var c := s.client;
    if Next(s, a, me, measure) != s {
      match a {
        case SaveLocal(id, op, n) => SaveKeepsSafe(s, id, op, n);
        case BeginPass(queue, live) => BeginKeepsSafe(s, queue, live);
        case SendNext => SendKeepsSafe(s, me, measure);
        case HandleRequest(k) => HandleKeepsSafe(s, k, me, measure);
        case DropRequest(k, answer) => DropKeepsSafe(s, k, answer);
        case ReceiveAnswer => ReceiveKeepsSafe(s);
        case LoseAnswer => FinishKeepsSafe(s, Unavailable);
        case EndPass => QuietKeepsSafe(s);
        case SendOverSocket(id, base) => SocketKeepsSafe(s, id, base);
        case ConfirmFromSocket(id, version) => ConfirmKeepsSafe(s, id, version);
        case SeedVersion(version) => SeedKeepsSafe(s, version);
        case CrashAndRestart => CrashKeepsSafe(s);
        case OtherClients(event) => OthersKeepSafe(s, event, measure);
      }
    }
  }

  lemma DropKeepsSafe(s: System, k: nat, answer: Answer)
    requires Safe(s) && k < |s.sent| && !answer.Acked? && !answer.StaleAt?
    ensures Safe(s.(answers := s.answers[k := answer]))
  {
    BoardStepKeepsSafe(s, s.board, s.answers[k := answer]);
  }

  lemma ReceiveKeepsSafe(s: System)
    requires Safe(s) && Waiting(s) && s.client.pass.value.waiting.value in s.answers
    ensures var p := s.client.pass.value;
      Safe(s.(client := Finish(s.client, p.queue[0], p.queue[1..], s.answers[p.waiting.value])))
  {
    FinishKeepsSafe(s, s.answers[s.client.pass.value.waiting.value]);
  }

  lemma QuietKeepsSafe(s: System)
    requires Safe(s)
    ensures Safe(s.(client := s.client.(pass := None)))
  {
    ClientStepKeepsSafe(s, s.client.(pass := None));
  }

  lemma SeedKeepsSafe(s: System, version: int)
    requires Safe(s) && version <= |s.board.rows|
    ensures Safe(s.(client := s.client.(version := Max(s.client.version, version))))
  {
    ClientStepKeepsSafe(s, s.client.(version := Max(s.client.version, version)));
  }

  lemma ConfirmKeepsSafe(s: System, id: string, version: int)
    requires Safe(s) && id in RowIds(s.board.rows) && version <= |s.board.rows|
    ensures Safe(s.(client := s.client.(records := WithVersion(s.client.records, id, Confirmed, version),
                                        version := Max(s.client.version, version))))
  {
    ClientStepKeepsSafe(s, s.client.(records := WithVersion(s.client.records, id, Confirmed, version),
                                     version := Max(s.client.version, version)));
  }

  lemma CrashKeepsSafe(s: System)
    requires Safe(s)
    ensures Safe(s.(client := Client(Recovered(s.client.records), 0, None)))
  {
    ClientStepKeepsSafe(s, Client(Recovered(s.client.records), 0, None));
  }

  lemma {:induction false} EveryRunIsSafe(actions: seq<Action>, me: string, measure: Measure)
    ensures Safe(RunAll(actions, me, measure))
  {
    if actions != [] {
      EveryRunIsSafe(actions[..|actions| - 1], me, measure);
      StepKeepsSafe(RunAll(actions[..|actions| - 1], me, measure), actions[|actions| - 1], me, measure);
    }
  }

  // How many ledger rows carry an id.
  ghost function Occurrences(rows: seq<Row>, id: string): nat {
    if rows == [] then 0
    else Occurrences(rows[..|rows| - 1], id) + if rows[|rows| - 1].operationId == id then 1 else 0
  }

  lemma {:induction false} AbsentId(rows: seq<Row>, id: string)
    requires forall i :: 0 <= i < |rows| ==> rows[i].operationId != id
    ensures id !in RowIds(rows)
  {
    if rows != [] {
      AbsentId(rows[..|rows| - 1], id);
    }
  }

  lemma {:induction false} AtMostOneCopy(rows: seq<Row>, id: string)
    requires forall i, j :: 0 <= i < j < |rows| ==> rows[i].operationId != rows[j].operationId
    ensures Occurrences(rows, id) == if id in RowIds(rows) then 1 else 0
  {
    if rows != [] {
      AtMostOneCopy(rows[..|rows| - 1], id);
      AbsentId(rows[..|rows| - 1], rows[|rows| - 1].operationId);
    }
  }

  // Exactly-once delivery, in every run: a saved operation is in the ledger at most once and as it
  // was saved; confirmed or forgotten it is there exactly once; otherwise it is still stored, waiting,
  // in flight or failed.
  lemma ExactlyOnce(actions: seq<Action>, me: string, measure: Measure, id: string)
    requires id in RunAll(actions, me, measure).saved
    ensures var s := RunAll(actions, me, measure);
      var records, rows := s.client.records, s.board.rows;
      && Occurrences(rows, id) <= 1
      && (forall r :: r in rows && r.operationId == id ==> r.op == s.saved[id].op)
      && ((id !in records || records[id].status == Confirmed) ==> Occurrences(rows, id) == 1)
      && (Occurrences(rows, id) == 0 ==> id in records && records[id].op == s.saved[id].op && records[id].status in {Pending, Submitting, Failed})
  {
    EveryRunIsSafe(actions, me, measure);
    var s := RunAll(actions, me, measure);
    AtMostOneCopy(s.board.rows, id);
  }

  // The client's known version is that of some state of the ledger, never one still to come.
  lemma KnownVersionIsReal(actions: seq<Action>, me: string, measure: Measure)
    ensures 0 <= RunAll(actions, me, measure).client.version <= |RunAll(actions, me, measure).board.rows|
  {
    EveryRunIsSafe(actions, me, measure);
  }

  // ---- why an operation fails ----

  ghost predicate HasFailed(records: Records, id: string) {
    id in records && records[id].status == Failed
  }

  // The answer the client hears in this step, if it is about this operation.
  ghost function Heard(s: System, a: Action, id: string): Option<Answer> {
    if !Waiting(s) || s.client.pass.value.queue[0].id != id then None
    else
      var k := s.client.pass.value.waiting.value;
      match a
      case ReceiveAnswer => if k in s.answers then Some(s.answers[k]) else None
      case LoseAnswer => Some(Unavailable)
      case _ => None
  }

  // Refused, or not heard back from with its retries used up.
  ghost predicate GivenUp(s: System, a: Action, id: string) {
    || Heard(s, a, id) == Some(Refused)
    || (Heard(s, a, id) == Some(Unavailable) && s.client.pass.value.queue[0].record.retries >= MAX_RETRIES)
  }

  // An operation newly fails in exactly these two ways; no crash, confirmation or other step adds a failure.
  lemma NewlyFailsIff(s: System, a: Action, id: string, me: string, measure: Measure)
    ensures HasFailed(Next(s, a, me, measure).client.records, id) && !HasFailed(s.client.records, id) <==>
      id in s.client.records && s.client.records[id].status != Failed && GivenUp(s, a, id)
  {
    hide Submitted, ServerAnswer, Perform, RowIds, EventIds, IsQueue;
  }

  // So in every run a failed operation has been refused, or not heard back from with its retries used up.
  lemma {:induction false} FailedForReason(actions: seq<Action>, id: string, me: string, measure: Measure)
    requires HasFailed(RunAll(actions, me, measure).client.records, id)
    ensures exists k :: 0 <= k < |actions| && GivenUp(RunAll(actions[..k], me, measure), actions[k], id)
  {
    if actions != [] {
      var n := |actions| - 1;
      var init := actions[..n];
      if HasFailed(RunAll(init, me, measure).client.records, id) {
        FailedForReason(init, id, me, measure);
        var k :| 0 <= k < |init| && GivenUp(RunAll(init[..k], me, measure), init[k], id);
        assert init[..k] == actions[..k];
      } else {
        hide Next, GivenUp, HasFailed;
        NewlyFailsIff(RunAll(init, me, measure), actions[n], id, me, measure);
        assert GivenUp(RunAll(actions[..n], me, measure), actions[n], id);
      }
    }
  }

  // A try that did not succeed and is counted.
  ghost predicate CountsTry(s: System, a: Action, id: string) {
    && id in s.client.records && Heard(s, a, id).Some? && !Heard(s, a, id).value.Acked?
    && (Heard(s, a, id) == Some(Unavailable) ==> s.client.pass.value.queue[0].record.retries < MAX_RETRIES)
  }

  ghost function Tries(actions: seq<Action>, id: string, me: string, measure: Measure): nat {
    if actions == [] then 0
    else
      var n := |actions| - 1;
      Tries(actions[..n], id, me, measure) + if CountsTry(RunAll(actions[..n], me, measure), actions[n], id) then 1 else 0
  }

  // What a pass knows of the retries of its operations is what their records say.
  ghost predicate QueueCounted(c: Client) {
    c.pass.Some? ==>
      && DistinctEntries(c.pass.value.queue)
      && forall e :: e in c.pass.value.queue && e.id in c.records ==> e.record.retries == c.records[e.id].retries
  }

  ghost predicate TriesTrue(s: System, id: string, n: nat) {
    && QueueCounted(s.client)
    && (id in s.client.records ==> s.client.records[id].retries == n)
    && (id !in s.saved ==> n == 0)
  }

  lemma ReactCounts(records: Records, version: int, e: Entry, a: Answer, id: string)
    requires e.id in records ==> e.record.retries == records[e.id].retries
    ensures var r := React(records, version, e, a).records;
      var more := if id == e.id && !a.Acked? && (a.Unavailable? ==> e.record.retries < MAX_RETRIES) then 1 else 0;
      id in r ==> id in records && r[id].retries == records[id].retries + more
  {
  }

  lemma RestStaysCounted(records: Records, version: int, queue: seq<Entry>, a: Answer)
    requires queue != [] && DistinctEntries(queue)
    requires forall e :: e in queue && e.id in records ==> e.record.retries == records[e.id].retries
    ensures DistinctEntries(queue[1..])
    ensures var r := React(records, version, queue[0], a).records;
      forall e :: e in queue[1..] && e.id in r ==> e.record.retries == r[e.id].retries
  {
    hide React;
    var rest := queue[1..];
    var r := React(records, version, queue[0], a).records;
    forall e | e in rest && e.id in r ensures e.record.retries == r[e.id].retries {
      var i :| 0 <= i < |rest| && rest[i] == e;
      assert queue[i + 1] == e && queue[0] in queue;
      ReactCounts(records, version, queue[0], a, e.id);
    }
  }

  lemma FinishCounts(c: Client, a: Answer, id: string, n: nat)
    requires c.pass.Some? && c.pass.value.queue != [] && QueueCounted(c)
    requires id in c.records ==> c.records[id].retries == n
    ensures var q := c.pass.value.queue;
      var after := Finish(c, q[0], q[1..], a);
      var more := if id == q[0].id && !a.Acked? && (a.Unavailable? ==> q[0].record.retries < MAX_RETRIES) then 1 else 0;
      QueueCounted(after) && (id in after.records ==> id in c.records && after.records[id].retries == n + more)
  {
    var q := c.pass.value.queue;
    assert q[0] in q;
    RestStaysCounted(c.records, c.version, q, a);
    ReactCounts(c.records, c.version, q[0], a, id);
    hide React, DistinctEntries;
  }

  // An answer is heard.
  lemma HeardCountsTries(s: System, a: Action, id: string, n: nat, me: string, measure: Measure)
    requires Safe(s) && TriesTrue(s, id, n) && (a.ReceiveAnswer? || a.LoseAnswer?)
    ensures TriesTrue(Next(s, a, me, measure), id, n + if CountsTry(s, a, id) then 1 else 0)
  {
    if Waiting(s) {
      HeadIsSaved(s);
      var k := s.client.pass.value.waiting.value;
      if a.LoseAnswer? {
        FinishCounts(s.client, Unavailable, id, n);
      } else if k in s.answers {
        FinishCounts(s.client, s.answers[k], id, n);
      }
    }
    hide Finish, QueueCounted, Safe;
  }

  lemma HeadIsSaved(s: System)
    requires Safe(s) && Waiting(s)
    ensures s.client.pass.value.queue[0].id in s.saved
    ensures s.client.records.Keys <= s.saved.Keys
  {
    assert s.client.pass.value.queue[0] in s.client.pass.value.queue;
  }

  lemma QueueIsSaved(s: System)
    requires Safe(s)
    ensures s.client.records.Keys <= s.saved.Keys
    ensures s.client.pass.Some? ==> forall e :: e in s.client.pass.value.queue ==> e.id in s.saved
  {
  }

  // A step that hears nothing leaves the retries alone.
  lemma OthersCountNothing(s: System, a: Action, id: string, n: nat, me: string, measure: Measure)
    requires Safe(s) && TriesTrue(s, id, n) && !a.ReceiveAnswer? && !a.LoseAnswer?
    ensures TriesTrue(Next(s, a, me, measure), id, n)
  {
    QueueIsSaved(s);
    hide Safe, Submitted, ServerAnswer, Perform, RowIds, EventIds, Sorted, EntryIds;
  }

  lemma StepCountsTries(s: System, a: Action, id: string, n: nat, me: string, measure: Measure)
    requires Safe(s) && TriesTrue(s, id, n)
    ensures TriesTrue(Next(s, a, me, measure), id, n + if CountsTry(s, a, id) then 1 else 0)
  {
    if a.ReceiveAnswer? || a.LoseAnswer? {
      HeardCountsTries(s, a, id, n, me, measure);
    } else {
      OthersCountNothing(s, a, id, n, me, measure);
      hide TriesTrue, Next;
    }
  }

  // A record counts the tries of its operation that did not succeed, over the whole run.
  lemma {:induction false} RetriesAreTries(actions: seq<Action>, id: string, me: string, measure: Measure)
    ensures TriesTrue(RunAll(actions, me, measure), id, Tries(actions, id, me, measure))
  {
    if actions != [] {
      hide TriesTrue, Next, CountsTry;
      var n := |actions| - 1;
      RetriesAreTries(actions[..n], id, me, measure);
      EveryRunIsSafe(actions[..n], me, measure);
      StepCountsTries(RunAll(actions[..n], me, measure), actions[n], id, Tries(actions[..n], id, me, measure), me, measure);
    }
  }

  // So an operation given up for silence has had as many counted tries before as the budget allows.
  lemma SilentFailureHadItsTries(actions: seq<Action>, k: nat, id: string, me: string, measure: Measure)
    requires k < |actions| && id in RunAll(actions[..k], me, measure).client.records
    requires Heard(RunAll(actions[..k], me, measure), actions[k], id) == Some(Unavailable)
    ensures GivenUp(RunAll(actions[..k], me, measure), actions[k], id) <==> Tries(actions[..k], id, me, measure) >= 8
  {
    RetriesAreTries(actions[..k], id, me, measure);
  }

  // ---- one operation in flight ----

  // The record of the operation waited for says so, unless a confirmation came over the socket, and no other does.
  ghost predicate InFlightMarked(c: Client) {
    && (forall id :: id in c.records && c.records[id].status == Submitting ==>
         c.pass.Some? && c.pass.value.waiting.Some? && c.pass.value.queue != [] && c.pass.value.queue[0].id == id)
    && (c.pass.Some? && c.pass.value.waiting.Some? && c.pass.value.queue != [] && c.pass.value.queue[0].id in c.records ==>
         c.records[c.pass.value.queue[0].id].status in {Submitting, Confirmed})
  }

  lemma FinishUnmarks(c: Client, a: Answer)
    requires c.pass.Some? && c.pass.value.waiting.Some? && c.pass.value.queue != [] && InFlightMarked(c)
    ensures InFlightMarked(Finish(c, c.pass.value.queue[0], c.pass.value.queue[1..], a))
  {
    var e := c.pass.value.queue[0];
    var r := React(c.records, c.version, e, a);
    forall id | id in r.records ensures r.records[id].status != Submitting {
      assert id in c.records;
      AnswerOutcome(c.records, c.version, e, a, id);
    }
    hide React;
  }

  lemma StepMarksInFlight(s: System, a: Action, me: string, measure: Measure)
    requires Safe(s) && InFlightMarked(s.client)
    ensures InFlightMarked(Next(s, a, me, measure).client)
  {
    if Waiting(s) && (a.ReceiveAnswer? || a.LoseAnswer?) {
      var k := s.client.pass.value.waiting.value;
      if a.LoseAnswer? {
        FinishUnmarks(s.client, Unavailable);
      } else if k in s.answers {
        FinishUnmarks(s.client, s.answers[k]);
      }
      hide Finish, InFlightMarked, Safe;
    } else {
      QueueIsSaved(s);
      hide Safe, Finish, Submitted, ServerAnswer, Perform, RowIds, EventIds, IsQueue;
    }
  }

  // Over every run at most one operation is in flight, the one the pass waits for.
  lemma {:induction false} OneInFlight(actions: seq<Action>, me: string, measure: Measure)
    ensures InFlightMarked(RunAll(actions, me, measure).client)
  {
    if actions != [] {
      hide InFlightMarked, Next;
      OneInFlight(actions[..|actions| - 1], me, measure);
      EveryRunIsSafe(actions[..|actions| - 1], me, measure);
      StepMarksInFlight(RunAll(actions[..|actions| - 1], me, measure), actions[|actions| - 1], me, measure);
    } else {
      NothingInFlight();
    }
  }

  lemma NothingInFlight()
    ensures InFlightMarked(START.client)
  {
  }
}
