// Over HTTP alone, with each request handled while the client waits for it or never, this client's
// operations reach the ledger in the order they were made.
module SubmissionOrder {
  import opened Prelude
  import opened Drawing
  import opened Validator
  import opened Ledger
  import opened LocalStore
  import opened Delivery

  // Client sequences increase, nothing goes over the socket, no request is handled late.
  ghost predicate Prompt(s: System, a: Action) {
    match a
    case SaveLocal(_, _, n) => forall id :: id in s.saved ==> s.saved[id].clientSequence < n
    case HandleRequest(k) => Waiting(s) && s.client.pass.value.waiting.value == k
    case SendOverSocket(_, _) => false
    case ConfirmFromSocket(_, _) => false
    case _ => true
  }

  ghost predicate PromptRun(actions: seq<Action>, me: string, measure: Measure) {
    actions != [] ==>
      && PromptRun(actions[..|actions| - 1], me, measure)
      && Prompt(RunAll(actions[..|actions| - 1], me, measure), actions[|actions| - 1])
  }

  // In the ledger, or given up on.
  predicate Settled(records: Records, ledger: set<string>, id: string) {
    id in ledger || (id in records && records[id].status == Failed)
  }

  ghost predicate SequencesDiffer(saved: map<string, Saved>) {
    forall a, b :: a in saved && b in saved && a != b ==> saved[a].clientSequence != saved[b].clientSequence
  }

  // Nothing is in the ledger ahead of an earlier operation that may still be sent.
  ghost predicate NoneOvertaken(records: Records, ledger: set<string>, saved: map<string, Saved>) {
    forall a, b :: a in saved && b in saved && b in ledger && saved[a].clientSequence < saved[b].clientSequence ==>
      Settled(records, ledger, a)
  }

  // Everything made up to the last queued operation is queued or settled, and the queue is in order
  // and still open.
  ghost predicate QueueComplete(q: seq<Entry>, records: Records, ledger: set<string>, saved: map<string, Saved>) {
    && DistinctEntries(q)
    && (forall i, j :: 0 <= i < j < |q| ==> q[i].record.clientSequence < q[j].record.clientSequence)
    && (forall i :: 0 <= i < |q| ==> q[i].id in records && records[q[i].id].Open())
    && (q != [] ==> forall a :: a in saved && saved[a].clientSequence <= q[|q| - 1].record.clientSequence ==>
         a in EntryIds(q) || Settled(records, ledger, a))
  }

  ghost predicate RowsInOrder(rows: seq<Row>, saved: map<string, Saved>) {
    forall i, j :: 0 <= i < j < |rows| && rows[i].operationId in saved && rows[j].operationId in saved ==>
      saved[rows[i].operationId].clientSequence < saved[rows[j].operationId].clientSequence
  }

  ghost predicate InClientOrder(s: System) {
    && SequencesDiffer(s.saved)
    && NoneOvertaken(s.client.records, RowIds(s.board.rows), s.saved)
    && (s.client.pass.Some? ==> QueueComplete(s.client.pass.value.queue, s.client.records, RowIds(s.board.rows), s.saved))
    && RowsInOrder(s.board.rows, s.saved)
  }

  // ---- client steps ----

  // Records that keep what has failed keep what has been settled.
  ghost predicate KeepsFailures(before: Records, after: Records) {
    forall id :: id in before && before[id].status == Failed ==> id in after && after[id].status == Failed
  }

  lemma ClientStep(s: System, c: Client)
    requires InClientOrder(s) && KeepsFailures(s.client.records, c.records)
    requires c.pass.Some? ==> QueueComplete(c.pass.value.queue, c.records, RowIds(s.board.rows), s.saved)
    ensures InClientOrder(s.(client := c))
  {
  }

  lemma ReactKeepsFailures(records: Records, version: int, e: Entry, a: Answer)
    requires e.id in records && records[e.id].Open()
    ensures KeepsFailures(records, React(records, version, e, a).records)
  {
  }

  // The operation just answered is settled when the pass goes on, and the rest of the queue stays complete.
  lemma QueueAdvances(q: seq<Entry>, records: Records, version: int, a: Answer, ledger: set<string>, saved: map<string, Saved>)
    requires q != [] && QueueComplete(q, records, ledger, saved)
    requires a.Acked? ==> q[0].id in ledger
    requires React(records, version, q[0], a).goOn
    ensures QueueComplete(q[1..], React(records, version, q[0], a).records, ledger, saved)
  {
    var e, rest := q[0], q[1..];
    var after := React(records, version, e, a).records;
    ReactKeepsFailures(records, version, e, a);
    assert forall i :: 0 <= i < |rest| ==> rest[i] == q[i + 1];
    forall i | 0 <= i < |rest| ensures rest[i].id in after && after[rest[i].id].Open() {
      assert q[i + 1].id != q[0].id;
    }
    if rest != [] {
      forall x | x in saved && saved[x].clientSequence <= rest[|rest| - 1].record.clientSequence
        ensures x in EntryIds(rest) || Settled(after, ledger, x)
      {
        if x in EntryIds(q) {
          var y :| y in q && y.id == x;
          assert y == e || y in rest;
        }
      }
    }
  }

  lemma FinishKeepsOrder(s: System, a: Answer)
    requires Safe(s) && InClientOrder(s) && Waiting(s)
    requires a.Acked? ==> s.client.pass.value.queue[0].id in RowIds(s.board.rows)
    ensures InClientOrder(s.(client := Finish(s.client, s.client.pass.value.queue[0], s.client.pass.value.queue[1..], a)))
  {
    var c, q := s.client, s.client.pass.value.queue;
    ReactKeepsFailures(c.records, c.version, q[0], a);
    if React(c.records, c.version, q[0], a).goOn {
      QueueAdvances(q, c.records, c.version, a, RowIds(s.board.rows), s.saved);
    }
    ClientStep(s, Finish(c, q[0], q[1..], a));
  }

  // Reading the queue finds every operation that is not settled.
  lemma QueueIsComplete(s: System, q: seq<Entry>)
    requires Safe(s) && SequencesDiffer(s.saved) && IsQueue(s.client.records, q)
    ensures QueueComplete(q, s.client.records, RowIds(s.board.rows), s.saved)
  {
    var records := s.client.records;
    assert forall i :: 0 <= i < |q| ==> q[i] in q && q[i].record == records[q[i].id];
    forall i, j | 0 <= i < j < |q| ensures q[i].record.clientSequence < q[j].record.clientSequence {
      assert q[i] in q && q[j] in q;
      assert q[i].id in s.saved && q[j].id in s.saved && q[i].id != q[j].id;
    }
  }

  lemma BeginKeepsOrder(s: System, q: seq<Entry>, version: int)
    requires Safe(s) && InClientOrder(s) && IsQueue(s.client.records, q)
    ensures InClientOrder(s.(client := s.client.(version := version, pass := Some(Pass(q, None)))))
  {
    QueueIsComplete(s, q);
    ClientStep(s, s.client.(version := version, pass := Some(Pass(q, None))));
  }

  lemma SendKeepsOrder(s: System, me: string, measure: Measure)
    requires InClientOrder(s)
    ensures InClientOrder(Next(s, SendNext, me, measure))
  {
    var c := s.client;
    if c.pass.Some? && c.pass.value.waiting.None? && c.pass.value.queue != [] {
      var q := c.pass.value.queue;
      var records := WithStatus(c.records, q[0].id, Submitting);
      assert q[0].id in c.records && c.records[q[0].id].Open();
      StillComplete(q, c.records, records, RowIds(s.board.rows), s.saved);
      ClientStep(s, Client(records, c.version, Some(c.pass.value.(waiting := Some(|s.sent|)))));
    }
  }

  lemma StillComplete(q: seq<Entry>, records: Records, after: Records, ledger: set<string>, saved: map<string, Saved>)
    requires QueueComplete(q, records, ledger, saved) && KeepsFailures(records, after)
    requires forall id :: id in records && records[id].Open() ==> id in after && after[id].Open()
    ensures QueueComplete(q, after, ledger, saved)
  {
  }

  lemma SaveKeepsOrder(s: System, id: string, op: Operation, n: int)
    requires Safe(s) && InClientOrder(s) && Prompt(s, SaveLocal(id, op, n))
    requires id !in s.saved && id !in RowIds(s.board.rows) && id !in s.client.records
    ensures InClientOrder(s.(client := s.client.(records := s.client.records[id := Record(op, n, Pending, 0, 0)]),
                       saved := s.saved[id := Saved(op, n)]))
  {
    var records, saved := s.client.records[id := Record(op, n, Pending, 0, 0)], s.saved[id := Saved(op, n)];
    RowsUntouched(s.board.rows, s.saved, id, Saved(op, n));
    NoneOvertakenByNew(s.client.records, RowIds(s.board.rows), s.saved, id, op, n);
    if s.client.pass.Some? {
      var q := s.client.pass.value.queue;
      StillComplete(q, s.client.records, records, RowIds(s.board.rows), s.saved);
      if q != [] {
        assert q[|q| - 1] in q && EntryTruthful(q[|q| - 1], s.saved);
        assert q[|q| - 1].record.clientSequence < n;
      }
      CompleteWithNew(q, records, RowIds(s.board.rows), s.saved, id, Saved(op, n));
    }
    hide QueueComplete, NoneOvertaken, RowsInOrder, Safe;
  }

  lemma RowsUntouched(rows: seq<Row>, saved: map<string, Saved>, id: string, x: Saved)
    requires RowsInOrder(rows, saved) && id !in RowIds(rows)
    ensures RowsInOrder(rows, saved[id := x])
  {
    RowsHaveIds(rows);
    assert forall i :: 0 <= i < |rows| ==> rows[i] in rows;
  }

  lemma NoneOvertakenByNew(records: Records, ledger: set<string>, saved: map<string, Saved>, id: string, op: Operation, n: int)
    requires NoneOvertaken(records, ledger, saved) && id !in saved && id !in records && id !in ledger
    requires forall x :: x in saved ==> saved[x].clientSequence < n
    ensures NoneOvertaken(records[id := Record(op, n, Pending, 0, 0)], ledger, saved[id := Saved(op, n)])
  {
  }

  lemma CompleteWithNew(q: seq<Entry>, records: Records, ledger: set<string>, saved: map<string, Saved>, id: string, x: Saved)
    requires QueueComplete(q, records, ledger, saved) && id !in saved
    requires q != [] ==> q[|q| - 1].record.clientSequence < x.clientSequence
    ensures QueueComplete(q, records, ledger, saved[id := x])
  {
  }

  // ---- server steps ----

  lemma AppendInOrder(rows: seq<Row>, row: Row, saved: map<string, Saved>)
    requires RowsInOrder(rows, saved)
    requires row.operationId in saved ==> forall id :: id in RowIds(rows) && id in saved ==>
      saved[id].clientSequence < saved[row.operationId].clientSequence
    ensures RowsInOrder(rows + [row], saved)
  {
    RowsHaveIds(rows);
    assert forall i :: 0 <= i < |rows| ==> rows[i] in rows;
  }

  lemma LedgerStep(s: System, b: Board, answers: map<nat, Answer>)
    requires InClientOrder(s) && RowIds(s.board.rows) <= RowIds(b.rows)
    requires NoneOvertaken(s.client.records, RowIds(b.rows), s.saved) && RowsInOrder(b.rows, s.saved)
    ensures InClientOrder(s.(board := b, answers := answers))
  {
  }

  // Nothing made later than the awaited operation is in the ledger before it.
  lemma AwaitedIsNext(s: System, id: string)
    requires Safe(s) && InClientOrder(s) && Waiting(s)
    requires var e := s.client.pass.value.queue[0]; e.id !in RowIds(s.board.rows)
    requires id in s.saved && id in RowIds(s.board.rows)
    ensures var e := s.client.pass.value.queue[0];
      e.id in s.saved && s.saved[id].clientSequence < s.saved[e.id].clientSequence
  {
    var e := s.client.pass.value.queue[0];
    assert e in s.client.pass.value.queue && EntryTruthful(e, s.saved);
    assert id != e.id;
    assert s.client.records[e.id].Open();
    assert !Settled(s.client.records, RowIds(s.board.rows), e.id);
  }

  // Everything made before the awaited operation is settled.
  lemma EarlierAreSettled(s: System, a: string)
    requires Safe(s) && InClientOrder(s) && Waiting(s)
    requires a in s.saved && s.client.pass.value.queue[0].id in s.saved
    requires s.saved[a].clientSequence < s.saved[s.client.pass.value.queue[0].id].clientSequence
    ensures Settled(s.client.records, RowIds(s.board.rows), a)
  {
    var q := s.client.pass.value.queue;
    assert q[0] in q && EntryTruthful(q[0], s.saved);
    forall x | x in q ensures x.id != a {
      var i :| 0 <= i < |q| && q[i] == x;
      assert EntryTruthful(x, s.saved);
      assert i == 0 || q[0].record.clientSequence < q[i].record.clientSequence;
    }
    assert q[0].record.clientSequence <= q[|q| - 1].record.clientSequence;
  }

  lemma HandleKeepsOrder(s: System, k: nat, me: string, measure: Measure)
    requires Safe(s) && InClientOrder(s) && Prompt(s, HandleRequest(k)) && k < |s.sent| && k !in s.answers
    ensures InClientOrder(Next(s, HandleRequest(k), me, measure))
  {
    hide Submitted, Accepts, ServerAnswer, SequencesDiffer, NoneOvertaken, QueueComplete, RowsInOrder, RowIds;
    var e, mine := s.sent[k], s.client.pass.value.queue[0].id;
    var b := Submitted(s.board, me, [e], measure);
    var answers := s.answers[k := ServerAnswer(s.board, me, e, measure)];
    OneSubmitted(s.board, me, e, measure);
    if b.rows != s.board.rows {
      NewRowInOrder(s, mine, b.rows[|s.board.rows|]);
    }
    LedgerStep(s, b, answers);
  }

  lemma NewRowInOrder(s: System, mine: string, row: Row)
    requires Safe(s) && InClientOrder(s) && Waiting(s) && mine == s.client.pass.value.queue[0].id
    requires row.operationId == mine && mine !in RowIds(s.board.rows)
    ensures var rows := s.board.rows + [row];
      && RowIds(s.board.rows) <= RowIds(rows)
      && NoneOvertaken(s.client.records, RowIds(rows), s.saved) && RowsInOrder(rows, s.saved)
  {
    RowIdsAppend(s.board.rows, [row]);
    forall id | id in RowIds(s.board.rows) && id in s.saved
      ensures s.saved[id].clientSequence < s.saved[mine].clientSequence
    {
      AwaitedIsNext(s, id);
    }
    AppendInOrder(s.board.rows, row, s.saved);
    forall a | a in s.saved && mine in s.saved && s.saved[a].clientSequence < s.saved[mine].clientSequence
      ensures Settled(s.client.records, RowIds(s.board.rows), a)
    {
      EarlierAreSettled(s, a);
    }
    hide Safe, QueueComplete, RowsInOrder;
  }

  lemma OthersKeepOrder(s: System, event: Event, measure: Measure)
    requires InClientOrder(s) && EventIds(event) * s.saved.Keys == {}
    ensures InClientOrder(s.(board := Perform(s.board, event, measure)))
  {
    hide Perform, RowsInOrder, SequencesDiffer, NoneOvertaken, QueueComplete, RowIds;
    var added := OthersAppend(s.board, event, measure, s.saved.Keys);
    RowIdsAppend(s.board.rows, added);
    OthersRowsFit(s.board.rows, added, s.client.records, s.saved);
    LedgerStep(s, Perform(s.board, event, measure), s.answers);
  }

  lemma OthersRowsFit(rows: seq<Row>, added: seq<Row>, records: Records, saved: map<string, Saved>)
    requires RowsInOrder(rows, saved) && NoneOvertaken(records, RowIds(rows), saved)
    requires RowIds(added) !! saved.Keys && forall r :: r in added ==> r.operationId !in saved.Keys
    ensures RowsInOrder(rows + added, saved) && NoneOvertaken(records, RowIds(rows) + RowIds(added), saved)
  {
    hide RowIds;
    assert forall i :: 0 <= i < |added| ==> added[i] in added;
  }

  lemma StepKeepsOrder(s: System, a: Action, me: string, measure: Measure)
    requires Safe(s) && InClientOrder(s) && Prompt(s, a)
    ensures InClientOrder(Next(s, a, me, measure))
  {
    hide Safe, InClientOrder, Finish, IsQueue, Perform, Submitted, ServerAnswer;
    if Next(s, a, me, measure) != s {
      match a {
        case SaveLocal(id, op, n) => SaveKeepsOrder(s, id, op, n);
        case BeginPass(queue, live) => BeginKeepsOrder(s, queue, Max(s.client.version, live));
        case SendNext => SendKeepsOrder(s, me, measure);
        case HandleRequest(k) => HandleKeepsOrder(s, k, me, measure);
        case DropRequest(k, answer) => QuietKeepsOrder(s, s.client.version, s.answers[k := answer]);
        case ReceiveAnswer => ReceiveKeepsOrder(s);
        case LoseAnswer => FinishKeepsOrder(s, Unavailable);
        case EndPass => EndKeepsOrder(s);
        case SeedVersion(version) => QuietKeepsOrder(s, Max(s.client.version, version), s.answers);
        case CrashAndRestart => CrashKeepsOrder(s);
        case OtherClients(event) => OthersKeepOrder(s, event, measure);
        case _ =>
      }
    }
  }

  lemma QuietKeepsOrder(s: System, version: int, answers: map<nat, Answer>)
    requires InClientOrder(s)
    ensures InClientOrder(s.(answers := answers))
    ensures InClientOrder(s.(client := s.client.(version := version)))
  {
  }

  lemma ReceiveKeepsOrder(s: System)
    requires Safe(s) && InClientOrder(s) && Waiting(s) && s.client.pass.value.waiting.value in s.answers
    ensures var p := s.client.pass.value;
      InClientOrder(s.(client := Finish(s.client, p.queue[0], p.queue[1..], s.answers[p.waiting.value])))
  {
    FinishKeepsOrder(s, s.answers[s.client.pass.value.waiting.value]);
  }

  lemma EndKeepsOrder(s: System)
    requires InClientOrder(s)
    ensures InClientOrder(s.(client := s.client.(pass := None)))
  {
  }

  lemma CrashKeepsOrder(s: System)
    requires InClientOrder(s)
    ensures InClientOrder(s.(client := Client(Recovered(s.client.records), 0, None)))
  {
    ClientStep(s, Client(Recovered(s.client.records), 0, None));
  }

  lemma {:induction false} PromptRunsAreOrderly(actions: seq<Action>, me: string, measure: Measure)
    requires PromptRun(actions, me, measure)
    ensures InClientOrder(RunAll(actions, me, measure))
  {
    if actions != [] {
      PromptRunsAreOrderly(actions[..|actions| - 1], me, measure);
      EveryRunIsSafe(actions[..|actions| - 1], me, measure);
      StepKeepsOrder(RunAll(actions[..|actions| - 1], me, measure), actions[|actions| - 1], me, measure);
    }
  }

  // Submission order is kept despite retries, stale breaks, permanent failures and crashes.
  lemma SubmissionOrderIsKept(actions: seq<Action>, me: string, measure: Measure, i: nat, j: nat)
    requires PromptRun(actions, me, measure)
    requires var s := RunAll(actions, me, measure);
      i < j < |s.board.rows| && s.board.rows[i].operationId in s.saved && s.board.rows[j].operationId in s.saved
    ensures var s := RunAll(actions, me, measure);
      s.saved[s.board.rows[i].operationId].clientSequence < s.saved[s.board.rows[j].operationId].clientSequence
  {
    PromptRunsAreOrderly(actions, me, measure);
  }
}
