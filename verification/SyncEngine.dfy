// The client's sync engine: passes over the durable queue against an unreliable network.
module SyncEngine {
  import opened Prelude
  import opened Drawing
  import opened Validator
  import opened Ledger
  import opened LocalStore
  import opened Delivery

  // What the network does with one request.
  datatype Fate = Arrives | LostBefore | LostAfter | TurnedAway

  datatype Exchanged = Exchanged(board: Board, answer: Answer)

  ghost function Exchange(b: Board, me: string, e: Envelope, fate: Fate, measure: Measure): Exchanged {
    match fate
    case Arrives => Exchanged(Submitted(b, me, [e], measure), ServerAnswer(b, me, e, measure))
    case LostBefore => Exchanged(b, Unavailable)
    case LostAfter => Exchanged(Submitted(b, me, [e], measure), Unavailable)
    case TurnedAway => Exchanged(b, Limited)
  }

  // Whether the answer makes the operation fail for good.
  predicate GivesUp(e: Entry, a: Answer) {
    a.Refused? || (a.Unavailable? && e.record.retries >= MAX_RETRIES)
  }

  datatype PassEnd = PassEnd(board: Board, records: Records, version: int, hadFailure: bool)

  // One pass over the queue; fates(i) is what happens to the request of entry i.
  ghost function PassFrom(b: Board, records: Records, version: int, q: seq<Entry>, fates: nat -> Fate, i: nat,
                          me: string, measure: Measure): PassEnd
    decreases |q|
  {
    if q == [] then PassEnd(b, records, version, false)
    else
      var e := q[0];
      var x := Exchange(b, me, Request(e, version), fates(i), measure);
      var r := React(WithStatus(records, e.id, Submitting), version, e, x.answer);
      if r.goOn then
        var rest := PassFrom(x.board, r.records, r.version, q[1..], fates, i + 1, me, measure);
        rest.(hadFailure := rest.hadFailure || GivesUp(e, x.answer))
      else PassEnd(x.board, r.records, r.version, GivesUp(e, x.answer))
  }

  // ---- two passes drain the queue ----

  ghost predicate AllArrive(fates: nat -> Fate) {
    forall i: nat :: fates(i) == Arrives
  }

  ghost predicate NothingOpen(records: Records) {
    forall id :: id in records ==> !records[id].Open()
  }

  ghost predicate OpenAreQueued(records: Records, q: seq<Entry>) {
    forall id :: id in records && records[id].Open() ==> id in EntryIds(q)
  }

  // A request the server takes: it is acknowledged, with the board's version if it is new.
  lemma TakenAnswer(b: Board, me: string, e: Envelope, measure: Measure)
    requires WellFormed(b) && Accepts(b, [e], measure)
    ensures var b', a := Submitted(b, me, [e], measure), ServerAnswer(b, me, e, measure);
      && WellFormed(b') && |b.rows| <= |b'.rows| && a.Acked? && a.version <= |b'.rows|
      && Max(|b.rows|, a.version) == |b'.rows|
  {
    hide Accepts, WellFormed, RowIds, FindRow, Append;
    SubmittedWellFormed(b, me, [e], measure);
    AcceptedIsAcked(b, me, e, measure);
    AckedRow(b, me, e);
  }

  // At the board's own version a request is accepted or refused for good, never stale.
  lemma NeverStale(b: Board, me: string, e: Envelope, measure: Measure)
    requires WellFormed(b) && e.baseVersion == b.version
    ensures var b', a := Submitted(b, me, [e], measure), ServerAnswer(b, me, e, measure);
      && WellFormed(b') && |b.rows| <= |b'.rows|
      && (a.Acked? || a.Refused?)
      && (a.Acked? ==> Max(b.version, a.version) == |b'.rows|)
      && (a.Refused? ==> b' == b)
  {
    ChainedAtVersion(b, e);
    assert b.version == |b.rows|;
    hide WellFormed, Novel, FirstInvalid, RowIds, Append, FindRow, Chained;
    if Accepts(b, [e], measure) {
      TakenAnswer(b, me, e, measure);
    }
  }

  lemma ChainedAtVersion(b: Board, e: Envelope)
    requires e.baseVersion == b.version
    ensures Chained(Novel([e], RowIds(b.rows)), b.version)
  {
    OneNovel(e, RowIds(b.rows));
    hide Novel, RowIds;
  }

  lemma AckedRow(b: Board, me: string, e: Envelope)
    requires WellFormed(b) && WellFormed(Append(b, me, [e]))
    requires FindRow(Append(b, me, [e]).rows, e.operationId).Some?
    ensures var rows := Append(b, me, [e]).rows;
      var v := FindRow(rows, e.operationId).value.resultingVersion;
      && v <= |rows| && |b.rows| <= |rows|
      && (e.operationId in RowIds(b.rows) ==> rows == b.rows)
      && (e.operationId !in RowIds(b.rows) ==> |rows| == |b.rows| + 1 && v == |rows|)
  {
    OneNovel(e, RowIds(b.rows));
    var rows := Append(b, me, [e]).rows;
    var row := FindRow(rows, e.operationId).value;
    var k :| 0 <= k < |rows| && rows[k] == row;
    if e.operationId in RowIds(b.rows) {
      assert Numbered([], me, b.version) == [];
    } else {
      var n := |b.rows|;
      assert rows[n].operationId == e.operationId;
      assert !(k < n);
    }
  }

  // Behind the board's version the only other thing that can happen is a stale answer, which tells
  // the client the board's version.
  lemma StaleOrNot(b: Board, me: string, e: Envelope, measure: Measure)
    requires WellFormed(b)
    ensures var b', a := Submitted(b, me, [e], measure), ServerAnswer(b, me, e, measure);
      && WellFormed(b') && |b.rows| <= |b'.rows|
      && (a.Acked? || a.Refused? || a == StaleAt(|b.rows|))
      && (a.Acked? ==> a.version <= |b'.rows|)
      && (!a.Acked? ==> b' == b)
  {
    hide WellFormed, Novel, FirstInvalid, RowIds, Append, FindRow, Chained;
    if Accepts(b, [e], measure) {
      TakenAnswer(b, me, e, measure);
    }
    VersionIsLength(b);
  }

  lemma VersionIsLength(b: Board)
    requires WellFormed(b)
    ensures b.version == |b.rows|
  {
  }

  // An answered operation is no longer open, and no other operation is reopened.
  lemma AnswerCloses(records: Records, version: int, q: seq<Entry>, a: Answer)
    requires q != [] && OpenAreQueued(records, q) && (a.Acked? || a.Refused?)
    ensures OpenAreQueued(React(WithStatus(records, q[0].id, Submitting), version, q[0], a).records, q[1..])
  {
    var after := React(WithStatus(records, q[0].id, Submitting), version, q[0], a).records;
    forall id | id in after && after[id].Open() ensures id in EntryIds(q[1..]) {
      assert id != q[0].id && id in records && records[id].Open();
      var e :| e in q && e.id == id;
      assert e in q[1..];
    }
  }

  lemma {:induction false} PassDrains(b: Board, records: Records, version: int, q: seq<Entry>, fates: nat -> Fate, i: nat,
                                      me: string, measure: Measure)
    requires WellFormed(b) && version == |b.rows| && AllArrive(fates) && OpenAreQueued(records, q)
    ensures var end := PassFrom(b, records, version, q, fates, i, me, measure);
      WellFormed(end.board) && end.version == |end.board.rows| && NothingOpen(end.records)
    decreases |q|
  {
    if q != [] {
      hide React, Submitted, ServerAnswer, WellFormed, OpenAreQueued, NothingOpen;
      var e := q[0];
      NeverStale(b, me, Request(e, version), measure);
      var x := Exchange(b, me, Request(e, version), fates(i), measure);
      var r := React(WithStatus(records, e.id, Submitting), version, e, x.answer);
      AnswerCloses(records, version, q, x.answer);
      Advances(WithStatus(records, e.id, Submitting), version, e, x.answer);
      PassDrains(x.board, r.records, r.version, q[1..], fates, i + 1, me, measure);
    }
  }

  lemma Advances(records: Records, version: int, e: Entry, a: Answer)
    ensures var r := React(records, version, e, a);
      && (r.goOn <==> a.Acked? || a.Refused?)
      && r.version == match a { case Acked(v) => Max(version, v) case StaleAt(c) => c case _ => version }
  {
  }

  // One turn of a pass: it goes on with what is left of the queue, or stops knowing the board's version.
  lemma OneTurn(b: Board, records: Records, version: int, q: seq<Entry>, fates: nat -> Fate, i: nat, me: string, measure: Measure)
    returns (x: Exchanged, r: Reaction)
    requires WellFormed(b) && version <= |b.rows| && AllArrive(fates) && OpenAreQueued(records, q) && q != []
    ensures x == Exchange(b, me, Request(q[0], version), fates(i), measure)
    ensures r == React(WithStatus(records, q[0].id, Submitting), version, q[0], x.answer)
    ensures WellFormed(x.board) && |b.rows| <= |x.board.rows| && r.version <= |x.board.rows|
    ensures if r.goOn then OpenAreQueued(r.records, q[1..]) else r.version == |x.board.rows|
  {
    hide React, Submitted, ServerAnswer, WellFormed, OpenAreQueued, WithStatus;
    StaleOrNot(b, me, Request(q[0], version), measure);
    x := Exchange(b, me, Request(q[0], version), fates(i), measure);
    r := React(WithStatus(records, q[0].id, Submitting), version, q[0], x.answer);
    Advances(WithStatus(records, q[0].id, Submitting), version, q[0], x.answer);
    if r.goOn {
      AnswerCloses(records, version, q, x.answer);
    }
  }

  lemma {:induction false} PassStopsOrDrains(b: Board, records: Records, version: int, q: seq<Entry>, fates: nat -> Fate, i: nat,
                                             me: string, measure: Measure)
    requires WellFormed(b) && version <= |b.rows| && AllArrive(fates) && OpenAreQueued(records, q)
    ensures var end := PassFrom(b, records, version, q, fates, i, me, measure);
      && WellFormed(end.board) && |b.rows| <= |end.board.rows| && end.version <= |end.board.rows|
      && (NothingOpen(end.records) || end.version == |end.board.rows|)
    decreases |q|
  {
    if q != [] {
      hide React, Exchange, WellFormed, OpenAreQueued, NothingOpen, PassFrom;
      var x, r := OneTurn(b, records, version, q, fates, i, me, measure);
      if r.goOn {
        PassStopsOrDrains(x.board, r.records, r.version, q[1..], fates, i + 1, me, measure);
      }
    } else {
      EmptyPass(b, records, version, fates, i, me, measure);
    }
  }

  // Whatever the network does, a pass loses nothing: what is saved stays accounted for.
  lemma {:induction false} PassKeepsAccounts(b: Board, records: Records, version: int, q: seq<Entry>, fates: nat -> Fate, i: nat,
                                             me: string, measure: Measure, saved: map<string, Saved>)
    requires WellFormed(b) && version <= |b.rows|
    requires Truthful(records, saved) && Accounted(records, saved, RowIds(b.rows))
    ensures var end := PassFrom(b, records, version, q, fates, i, me, measure);
      && WellFormed(end.board) && end.version <= |end.board.rows| && RowIds(b.rows) <= RowIds(end.board.rows)
      && Truthful(end.records, saved) && Accounted(end.records, saved, RowIds(end.board.rows))
    decreases |q|
  {
    if q != [] {
      hide React, Submitted, ServerAnswer, WellFormed, Truthful, Accounted, PassFrom, AnswerTrue;
      var e := q[0];
      var x := Exchange(b, me, Request(e, version), fates(i), measure);
      ExchangeKeeps(b, me, Request(e, version), fates(i), measure);
      var marked := WithStatus(records, e.id, Submitting);
      ReactKeeps(marked, version, e, x.answer, saved, RowIds(x.board.rows), |x.board.rows|);
      var r := React(marked, version, e, x.answer);
      if r.goOn {
        PassKeepsAccounts(x.board, r.records, r.version, q[1..], fates, i + 1, me, measure, saved);
      }
    }
  }

  lemma ExchangeKeeps(b: Board, me: string, e: Envelope, fate: Fate, measure: Measure)
    requires WellFormed(b)
    ensures var x := Exchange(b, me, e, fate, measure);
      && WellFormed(x.board) && |b.rows| <= |x.board.rows| && RowIds(b.rows) <= RowIds(x.board.rows)
      && AnswerTrue(x.answer, e.operationId, RowIds(x.board.rows), |x.board.rows|)
  {
    LedgerGrows(b, Submit(me, [e]), measure);
    AnswerIsTrue(b, me, e, measure);
  }

  // Against a reachable server nobody else writes to and that turns nobody away, two passes leave
  // nothing waiting: every saved operation is in the ledger or has failed for good.
  lemma TwoPassesDrain(b: Board, records: Records, version: int, live: int, q: seq<Entry>, fates: nat -> Fate,
                       live': int, q': seq<Entry>, fates': nat -> Fate, me: string, measure: Measure, saved: map<string, Saved>)
    requires WellFormed(b) && version <= |b.rows| && live <= |b.rows| && AllArrive(fates) && AllArrive(fates')
    requires Truthful(records, saved) && Accounted(records, saved, RowIds(b.rows))
    requires IsQueue(records, q)
    requires var first := PassFrom(b, records, Max(version, live), q, fates, 0, me, measure);
      live' <= |first.board.rows| && IsQueue(first.records, q')
    ensures var first := PassFrom(b, records, Max(version, live), q, fates, 0, me, measure);
      var second := PassFrom(first.board, first.records, Max(first.version, live'), q', fates', 0, me, measure);
      && NothingOpen(second.records)
      && second.version <= |second.board.rows|
      && forall id :: id in saved ==>
           id in RowIds(second.board.rows) || (id in second.records && second.records[id].status == Failed)
  {
    PassStopsOrDrains(b, records, Max(version, live), q, fates, 0, me, measure);
    PassKeepsAccounts(b, records, Max(version, live), q, fates, 0, me, measure, saved);
    hide PassFrom;
    var first := PassFrom(b, records, Max(version, live), q, fates, 0, me, measure);
    PassKeepsAccounts(first.board, first.records, Max(first.version, live'), q', fates', 0, me, measure, saved);
    if first.version == |first.board.rows| {
      PassDrains(first.board, first.records, first.version, q', fates', 0, me, measure);
    } else {
      NothingQueued(first.records, q');
      EmptyPass(first.board, first.records, Max(first.version, live'), fates', 0, me, measure);
    }
  }

  lemma NothingQueued(records: Records, q: seq<Entry>)
    requires NothingOpen(records) && IsQueue(records, q)
    ensures q == []
  {
    assert forall e :: e in q ==> e.id in records && records[e.id].Open();
    SomeMember(q);
  }

  lemma EmptyPass(b: Board, records: Records, version: int, fates: nat -> Fate, i: nat, me: string, measure: Measure)
    ensures PassFrom(b, records, version, [], fates, i, me, measure) == PassEnd(b, records, version, false)
  {
  }

  // ---- exactly when a pass meets a stale answer ----

  // Whether the pass is told that its base version is stale.
  ghost predicate MeetsStale(b: Board, records: Records, version: int, q: seq<Entry>, fates: nat -> Fate, i: nat,
                             me: string, measure: Measure)
    decreases |q|
  {
    q != [] &&
    var e := q[0];
    var x := Exchange(b, me, Request(e, version), fates(i), measure);
    var r := React(WithStatus(records, e.id, Submitting), version, e, x.answer);
    x.answer.StaleAt? || (r.goOn && MeetsStale(x.board, r.records, r.version, q[1..], fates, i + 1, me, measure))
  }

  ghost predicate AllOpen(records: Records, q: seq<Entry>) {
    forall e :: e in q ==> e.id in records && records[e.id].Open()
  }

  lemma OthersStayOpen(records: Records, version: int, q: seq<Entry>, a: Answer)
    requires q != [] && AllOpen(records, q) && DistinctEntries(q)
    ensures AllOpen(React(WithStatus(records, q[0].id, Submitting), version, q[0], a).records, q[1..]) && DistinctEntries(q[1..])
  {
    var rest := q[1..];
    assert forall j :: 0 <= j < |rest| ==> rest[j] == q[j + 1];
  }

  // Then and only then does it leave an operation waiting.
  lemma {:induction false} StaleLeavesOpen(b: Board, records: Records, version: int, q: seq<Entry>, fates: nat -> Fate, i: nat,
                                           me: string, measure: Measure)
    requires WellFormed(b) && AllArrive(fates)
    requires OpenAreQueued(records, q) && AllOpen(records, q) && DistinctEntries(q)
    ensures MeetsStale(b, records, version, q, fates, i, me, measure)
      <==> !NothingOpen(PassFrom(b, records, version, q, fates, i, me, measure).records)
    decreases |q|
  {
    if q != [] {
      hide React, Submitted, ServerAnswer, WellFormed, OpenAreQueued, NothingOpen, AllOpen, DistinctEntries, PassFrom;
      var e := q[0];
      StaleOrNot(b, me, Request(e, version), measure);
      var x := Exchange(b, me, Request(e, version), fates(i), measure);
      var r := React(WithStatus(records, e.id, Submitting), version, e, x.answer);
      Advances(WithStatus(records, e.id, Submitting), version, e, x.answer);
      OthersStayOpen(records, version, q, x.answer);
      if r.goOn {
        AnswerCloses(records, version, q, x.answer);
        StaleLeavesOpen(x.board, r.records, r.version, q[1..], fates, i + 1, me, measure);
      } else {
        SomethingOpen(r.records, e.id);
      }
    } else {
      EmptyPass(b, records, version, fates, i, me, measure);
    }
  }

  lemma SomethingOpen(records: Records, id: string)
    requires id in records && records[id].status == Pending
    ensures !NothingOpen(records)
  {
  }

  lemma MeetsUnfolds(b: Board, records: Records, version: int, q: seq<Entry>, fates: nat -> Fate, i: nat, me: string, measure: Measure)
    requires q != []
    ensures var e := q[0];
      var x := Exchange(b, me, Request(e, version), fates(i), measure);
      var r := React(WithStatus(records, e.id, Submitting), version, e, x.answer);
      var later := r.goOn && MeetsStale(x.board, r.records, r.version, q[1..], fates, i + 1, me, measure);
      MeetsStale(b, records, version, q, fates, i, me, measure) <==> x.answer.StaleAt? || later
  {
    hide React, Submitted, ServerAnswer;
  }

  // The server finds nothing wrong with the operation itself.
  ghost predicate Passable(e: Entry, measure: Measure) {
    Validate(Request(e, 0), measure).None?
  }

  ghost predicate IsNew(b: Board, e: Entry, measure: Measure) {
    Passable(e, measure) && e.id !in RowIds(b.rows)
  }

  // The operation is the ledger's last: its acknowledgement tells the client the board's version.
  ghost predicate IsLatest(b: Board, e: Entry, measure: Measure) {
    Passable(e, measure) && b.rows != [] && e.id == b.rows[|b.rows| - 1].operationId
  }

  // The first new operation of the queue is sent from behind the board: nothing before it is the
  // ledger's latest operation.
  ghost predicate SendsFromBehind(b: Board, version: int, q: seq<Entry>, measure: Measure) {
    && version < |b.rows|
    && exists k :: 0 <= k < |q| && IsNew(b, q[k], measure) && CaughtUpBy(b, q, k, measure)
  }

  ghost predicate CaughtUpBy(b: Board, q: seq<Entry>, k: nat, measure: Measure)
    requires k <= |q|
  {
    forall j :: 0 <= j < k ==> !IsNew(b, q[j], measure) && !IsLatest(b, q[j], measure)
  }

  // What the server says to the request of an entry, with the known version inside the ledger.
  lemma ImpassableIsRefused(b: Board, e: Entry, version: int, me: string, measure: Measure)
    requires 0 <= version && !Passable(e, measure)
    ensures var r := Request(e, version);
      ServerAnswer(b, me, r, measure) == Refused && Submitted(b, me, [r], measure) == b
  {
    hide CheckPayload;
  }

  lemma KnownIsAcked(b: Board, e: Entry, version: int, me: string, measure: Measure)
    requires WellFormed(b) && !b.archived && 0 <= version && Passable(e, measure) && e.id in RowIds(b.rows)
    ensures var r := Request(e, version);
      && Submitted(b, me, [r], measure) == b
      && FindRow(b.rows, e.id).Some?
      && ServerAnswer(b, me, r, measure) == Acked(FindRow(b.rows, e.id).value.resultingVersion)
  {
    hide CheckPayload, WellFormed, FindRow;
    var r := Request(e, version);
    OneNovel(r, RowIds(b.rows));
    assert b.rows + Numbered([], me, b.version) == b.rows;
    assert FirstInvalid([r], measure).None? by {
      assert [r][1..] == [];
    }
  }

  lemma LatestRow(b: Board, id: string)
    requires WellFormed(b) && id in RowIds(b.rows)
    ensures FindRow(b.rows, id).Some? && b.rows != []
    ensures var v := FindRow(b.rows, id).value.resultingVersion;
      v <= |b.rows| && (v == |b.rows| <==> id == b.rows[|b.rows| - 1].operationId)
  {
    var row := FindRow(b.rows, id).value;
    var k :| 0 <= k < |b.rows| && b.rows[k] == row;
  }

  lemma NewIsStaleOrAcked(b: Board, e: Entry, version: int, me: string, measure: Measure)
    requires WellFormed(b) && !b.archived && 0 <= version && IsNew(b, e, measure)
    ensures version != |b.rows| ==> ServerAnswer(b, me, Request(e, version), measure) == StaleAt(|b.rows|)
  {
    hide CheckPayload, FindRow;
    var r := Request(e, version);
    OneNovel(r, RowIds(b.rows));
    assert FirstInvalid([r], measure).None? by {
      assert [r][1..] == [];
    }
    if version != |b.rows| {
      assert Novel([r], RowIds(b.rows))[0].baseVersion == version;
    }
  }

  // From the board's own version, nothing in the pass is stale.
  lemma {:induction false} UpToDateMeetsNone(b: Board, records: Records, version: int, q: seq<Entry>, fates: nat -> Fate, i: nat,
                                             me: string, measure: Measure)
    requires WellFormed(b) && version == |b.rows| && AllArrive(fates)
    ensures !MeetsStale(b, records, version, q, fates, i, me, measure)
    decreases |q|
  {
    if q != [] {
      hide React, Submitted, ServerAnswer, WellFormed;
      var e := q[0];
      NeverStale(b, me, Request(e, version), measure);
      var x := Exchange(b, me, Request(e, version), fates(i), measure);
      var r := React(WithStatus(records, e.id, Submitting), version, e, x.answer);
      Advances(WithStatus(records, e.id, Submitting), version, e, x.answer);
      UpToDateMeetsNone(x.board, r.records, r.version, q[1..], fates, i + 1, me, measure);
    }
  }

  lemma {:induction false} ArchivedMeetsNone(b: Board, records: Records, version: int, q: seq<Entry>, fates: nat -> Fate, i: nat,
                                             me: string, measure: Measure)
    requires b.archived && AllArrive(fates)
    ensures !MeetsStale(b, records, version, q, fates, i, me, measure)
    decreases |q|
  {
    if q != [] {
      hide React, FirstInvalid, Append;
      var e := q[0];
      var r := React(WithStatus(records, e.id, Submitting), version, e, Refused);
      ArchivedMeetsNone(b, r.records, r.version, q[1..], fates, i + 1, me, measure);
    }
  }

  // What the head of the queue says about sending from behind.
  lemma HeadOfQueue(b: Board, version: int, q: seq<Entry>, measure: Measure)
    requires q != []
    ensures SendsFromBehind(b, version, q, measure) <==>
      version < |b.rows| && (IsNew(b, q[0], measure)
        || (!IsLatest(b, q[0], measure) && SendsFromBehind(b, version, q[1..], measure)))
  {
    hide IsNew, IsLatest;
    var rest := q[1..];
    assert forall j :: 0 <= j < |rest| ==> rest[j] == q[j + 1];
    if SendsFromBehind(b, version, q, measure) && !IsNew(b, q[0], measure) {
      var k :| 0 <= k < |q| && IsNew(b, q[k], measure) && CaughtUpBy(b, q, k, measure);
      assert IsNew(b, rest[k - 1], measure) && CaughtUpBy(b, rest, k - 1, measure);
    }
    if version < |b.rows| && IsNew(b, q[0], measure) {
      assert CaughtUpBy(b, q, 0, measure);
    }
    if !IsNew(b, q[0], measure) && !IsLatest(b, q[0], measure) && SendsFromBehind(b, version, rest, measure) {
      var k :| 0 <= k < |rest| && IsNew(b, rest[k], measure) && CaughtUpBy(b, rest, k, measure);
      assert forall j :: 0 < j < k + 1 ==> q[j] == rest[j - 1];
      assert IsNew(b, q[k + 1], measure) && CaughtUpBy(b, q, k + 1, measure);
    }
  }

  // A pass against a reachable server meets a stale answer exactly when the board takes edits, the pass
  // starts from a version the board has left, and it comes to a new operation before any whose
  // acknowledgement names the board's version.
  lemma {:induction false} MeetsStaleIff(b: Board, records: Records, version: int, q: seq<Entry>, fates: nat -> Fate, i: nat,
                                             me: string, measure: Measure)
    requires WellFormed(b) && 0 <= version <= |b.rows| && AllArrive(fates)
    ensures MeetsStale(b, records, version, q, fates, i, me, measure) <==> !b.archived && SendsFromBehind(b, version, q, measure)
    decreases |q|
  {
    if b.archived {
      ArchivedMeetsNone(b, records, version, q, fates, i, me, measure);
    } else if version == |b.rows| {
      UpToDateMeetsNone(b, records, version, q, fates, i, me, measure);
    } else if q != [] {
      hide React, Submitted, ServerAnswer, WellFormed, SendsFromBehind, FindRow, MeetsStale, RowIds, Passable;
      MeetsUnfolds(b, records, version, q, fates, i, me, measure);
      var e := q[0];
      var x := Exchange(b, me, Request(e, version), fates(i), measure);
      var marked := WithStatus(records, e.id, Submitting);
      var r := React(marked, version, e, x.answer);
      Advances(marked, version, e, x.answer);
      HeadOfQueue(b, version, q, measure);
      if !Passable(e, measure) {
        ImpassableIsRefused(b, e, version, me, measure);
        MeetsStaleIff(b, r.records, version, q[1..], fates, i + 1, me, measure);
      } else if e.id in RowIds(b.rows) {
        KnownIsAcked(b, e, version, me, measure);
        LatestRow(b, e.id);
        MeetsStaleIff(b, r.records, r.version, q[1..], fates, i + 1, me, measure);
        BehindAnyway(b, version, r.version, q[1..], measure);
      } else {
        NewIsStaleOrAcked(b, e, version, me, measure);
      }
    }
  }

  lemma BehindAnyway(b: Board, version: int, later: int, q: seq<Entry>, measure: Measure)
    requires version < |b.rows|
    ensures SendsFromBehind(b, later, q, measure) <==> later < |b.rows| && SendsFromBehind(b, version, q, measure)
  {
    hide IsNew, CaughtUpBy;
  }

  // A case: the partner has written one operation this client has not heard of. Its own first operation
  // is answered stale, counts as a failed try, and is left for the next pass.
  lemma StalePass(fates: nat -> Fate, me: string, measure: Measure)
    requires AllArrive(fates) && measure(ClearCanvas) <= PayloadCap(ClearCanvas)
    ensures var b := Board(1, false, [Row("theirs", 1, "partner", ClearCanvas, 0, 1)]);
      var record := Record(ClearCanvas, 1, Pending, 0, 0);
      var records, q := map["mine" := record], [Entry("mine", record)];
      && WellFormed(b) && IsQueue(records, q)
      && ServerAnswer(b, me, Request(q[0], 0), measure) == StaleAt(1)
      && MeetsStale(b, records, 0, q, fates, 0, me, measure)
      && PassFrom(b, records, 0, q, fates, 0, me, measure) == PassEnd(b, map["mine" := record.(retries := 1)], 1, false)
  {
    var b := Board(1, false, [Row("theirs", 1, "partner", ClearCanvas, 0, 1)]);
    var record := Record(ClearCanvas, 1, Pending, 0, 0);
    var e := Entry("mine", record);
    assert b.rows[..0] == [] && RowIds(b.rows) == {"theirs"} && e.id != "theirs";
    assert Passable(e, measure) && e in [e];
    NewIsStaleOrAcked(b, e, 0, me, measure);
  }

  // ---- what a pass reports ----

  // A pass touches no operation that is not in its queue.
  lemma {:induction false} OthersFailAsBefore(b: Board, records: Records, version: int, q: seq<Entry>, fates: nat -> Fate, i: nat,
                                              me: string, measure: Measure, id: string)
    requires AllOpen(records, q) && DistinctEntries(q) && id !in EntryIds(q)
    ensures HasFailed(PassFrom(b, records, version, q, fates, i, me, measure).records, id) <==> HasFailed(records, id)
    decreases |q|
  {
    if q != [] {
      hide React, Exchange, PassFrom, AllOpen, DistinctEntries, HasFailed, EntryIds;
      var e := q[0];
      var x := Exchange(b, me, Request(e, version), fates(i), measure);
      var r := React(WithStatus(records, e.id, Submitting), version, e, x.answer);
      OthersStayOpen(records, version, q, x.answer);
      if r.goOn {
        OthersFailAsBefore(x.board, r.records, r.version, q[1..], fates, i + 1, me, measure, id);
      }
    } else {
      EmptyPass(b, records, version, fates, i, me, measure);
    }
  }

  lemma HeadIsApart(q: seq<Entry>)
    requires q != [] && DistinctEntries(q)
    ensures q[0].id !in EntryIds(q[1..])
  {
    assert forall j :: 0 <= j < |q[1..]| ==> q[1..][j] == q[j + 1];
  }

  // Whatever the network does, the pass reports a permanent failure exactly when it leaves one of the
  // queued operations failed.
  lemma {:induction false} FailureIsRecorded(b: Board, records: Records, version: int, q: seq<Entry>, fates: nat -> Fate, i: nat,
                                             me: string, measure: Measure)
    requires AllOpen(records, q) && DistinctEntries(q)
    ensures var end := PassFrom(b, records, version, q, fates, i, me, measure);
      end.hadFailure <==> exists id :: id in EntryIds(q) && HasFailed(end.records, id)
    decreases |q|
  {
    if q != [] {
      hide React, Exchange, PassFrom, AllOpen, DistinctEntries, HasFailed, EntryIds, GivesUp;
      var e, rest := q[0], q[1..];
      var x := Exchange(b, me, Request(e, version), fates(i), measure);
      var r := React(WithStatus(records, e.id, Submitting), version, e, x.answer);
      OthersStayOpen(records, version, q, x.answer);
      HeadIsApart(q);
      var end := PassFrom(b, records, version, q, fates, i, me, measure);
      forall id ensures id in EntryIds(q) <==> id == e.id || id in EntryIds(rest) {
      }
      if r.goOn {
        FailureIsRecorded(x.board, r.records, r.version, rest, fates, i + 1, me, measure);
        OthersFailAsBefore(x.board, r.records, r.version, rest, fates, i + 1, me, measure, e.id);
      } else {
        forall id | id in EntryIds(rest) ensures !HasFailed(end.records, id) {
        }
      }
    } else {
      EmptyPass(b, records, version, fates, i, me, measure);
    }
  }

  // ---- what becomes of each operation ----

  // The server takes it, now or on another try.
  ghost predicate Deliverable(archived: bool, e: Entry, measure: Measure) {
    !archived && Passable(e, measure)
  }

  // Open still; or in the ledger and not failed; or failed because the server never takes it.
  ghost predicate Dealt(e: Entry, archived: bool, end: PassEnd, measure: Measure) {
    || (e.id in end.records && end.records[e.id].Open())
    || (Deliverable(archived, e, measure) && e.id in RowIds(end.board.rows) && !HasFailed(end.records, e.id))
    || (!Deliverable(archived, e, measure) && HasFailed(end.records, e.id))
  }

  // A request that arrives is refused exactly when the board is archived or the operation impassable;
  // otherwise it is stale, or in the ledger afterwards.
  lemma ArrivedAnswer(b: Board, e: Entry, version: int, me: string, measure: Measure)
    requires WellFormed(b) && 0 <= version <= |b.rows|
    ensures var r := Request(e, version);
      var b', a := Submitted(b, me, [r], measure), ServerAnswer(b, me, r, measure);
      && WellFormed(b') && b'.archived == b.archived && RowIds(b.rows) <= RowIds(b'.rows) && |b.rows| <= |b'.rows|
      && (a.Refused? <==> !Deliverable(b.archived, e, measure)) && (a.Acked? || a.Refused? || a == StaleAt(|b.rows|))
      && (a.Acked? ==> e.id in RowIds(b'.rows) && 0 <= Max(version, a.version) <= |b'.rows|)
  {
    var r := Request(e, version);
    LedgerGrows(b, Submit(me, [r]), measure);
    StaleOrNot(b, me, r, measure);
    OneIsChecked(r, measure);
    hide RowIds, WellFormed, FirstInvalid, Append, FindRow, Novel, CheckPayload;
    if Accepts(b, [r], measure) {
      AcceptedIsAcked(b, me, r, measure);
    }
  }

  lemma OneIsChecked(r: Envelope, measure: Measure)
    ensures FirstInvalid([r], measure) == Validate(r, measure)
  {
    hide Validate;
    assert [r][1..] == [];
  }

  lemma RestIsOpen(e: Entry, records: Records, q: seq<Entry>)
    requires AllOpen(records, q) && e in q
    ensures e.id in records && records[e.id].Open()
  {
  }

  lemma StillDealt(e: Entry, archived: bool, before: PassEnd, end: PassEnd, measure: Measure)
    requires Dealt(e, archived, before, measure) && !(e.id in before.records && before.records[e.id].Open())
    requires HasFailed(end.records, e.id) <==> HasFailed(before.records, e.id)
    requires RowIds(before.board.rows) <= RowIds(end.board.rows)
    ensures Dealt(e, archived, end, measure)
  {
    hide RowIds, HasFailed, Deliverable;
  }

  // One turn deals with the head of the queue.
  lemma TurnDeals(b: Board, records: Records, version: int, e: Entry, me: string, measure: Measure)
    returns (x: Exchanged, r: Reaction)
    requires WellFormed(b) && 0 <= version <= |b.rows| && e.id in records
    ensures x == Exchange(b, me, Request(e, version), Arrives, measure)
    ensures r == React(WithStatus(records, e.id, Submitting), version, e, x.answer)
    ensures WellFormed(x.board) && x.board.archived == b.archived && RowIds(b.rows) <= RowIds(x.board.rows)
    ensures 0 <= r.version <= |x.board.rows| && (r.goOn <==> x.answer.Acked? || x.answer.Refused?)
    ensures Dealt(e, b.archived, PassEnd(x.board, r.records, r.version, false), measure)
    ensures r.goOn ==> !(e.id in r.records && r.records[e.id].Open())
  {
    hide WellFormed, RowIds, Submitted, ServerAnswer, Deliverable;
    ArrivedAnswer(b, e, version, me, measure);
    x := Exchange(b, me, Request(e, version), Arrives, measure);
    r := React(WithStatus(records, e.id, Submitting), version, e, x.answer);
    Answered(records, version, e, x.answer);
    hide React, HasFailed;
  }

  lemma Answered(records: Records, version: int, e: Entry, a: Answer)
    requires e.id in records && (a.Acked? || a.Refused? || a.StaleAt?)
    ensures var r := React(WithStatus(records, e.id, Submitting), version, e, a);
      && (r.goOn <==> !a.StaleAt?) && r.version == (match a { case Acked(v) => Max(version, v) case StaleAt(c) => c case _ => version })
      && (e.id in r.records && r.records[e.id].Open() <==> a.StaleAt?)
      && (HasFailed(r.records, e.id) <==> a.Refused?)
  {
  }

  lemma {:induction false} PassDeals(b: Board, records: Records, version: int, q: seq<Entry>, fates: nat -> Fate, i: nat,
                                     me: string, measure: Measure)
    requires WellFormed(b) && 0 <= version <= |b.rows| && AllArrive(fates) && AllOpen(records, q) && DistinctEntries(q)
    ensures var end := PassFrom(b, records, version, q, fates, i, me, measure);
      && WellFormed(end.board) && 0 <= end.version <= |end.board.rows| && end.board.archived == b.archived
      && RowIds(b.rows) <= RowIds(end.board.rows)
      && forall e :: e in q ==> Dealt(e, b.archived, end, measure)
    decreases |q|
  {
    if q == [] {
      EmptyPass(b, records, version, fates, i, me, measure);
    } else {
      hide React, Exchange, WellFormed, RowIds, PassFrom, AllOpen, DistinctEntries, HasFailed, Dealt, EntryIds;
      var rest := q[1..];
      HeadIn(records, q);
      var x, r := TurnDeals(b, records, version, q[0], me, measure);
      assert fates(i) == Arrives;
      PassOnce(b, records, version, q, fates, i, me, measure);
      OthersStayOpen(records, version, q, x.answer);
      var end := PassFrom(b, records, version, q, fates, i, me, measure);
      if r.goOn {
        PassDeals(x.board, r.records, r.version, rest, fates, i + 1, me, measure);
        HeadIsApart(q);
        OthersFailAsBefore(x.board, r.records, r.version, rest, fates, i + 1, me, measure, q[0].id);
        StillDealt(q[0], b.archived, PassEnd(x.board, r.records, r.version, false), end, measure);
        forall e | e in q ensures Dealt(e, b.archived, end, measure) {
          SameButFlag(e, b.archived, PassFrom(x.board, r.records, r.version, rest, fates, i + 1, me, measure), end, measure);
          assert e == q[0] || e in rest;
        }
      } else {
        forall e | e in q ensures Dealt(e, b.archived, end, measure) {
          SameButFlag(e, b.archived, PassEnd(x.board, r.records, r.version, false), end, measure);
          if e != q[0] {
            assert e in rest;
            RestIsOpen(e, r.records, rest);
            OpenIsDealt(e, b.archived, end, measure);
          }
        }
      }
    }
  }

  lemma HeadIn(records: Records, q: seq<Entry>)
    requires AllOpen(records, q) && q != []
    ensures q[0].id in records
  {
    assert q[0] in q;
  }

  lemma OpenIsDealt(e: Entry, archived: bool, end: PassEnd, measure: Measure)
    requires e.id in end.records && end.records[e.id].Open()
    ensures Dealt(e, archived, end, measure)
  {
  }

  lemma SameButFlag(e: Entry, archived: bool, a: PassEnd, b: PassEnd, measure: Measure)
    requires a.board == b.board && a.records == b.records
    ensures Dealt(e, archived, a, measure) <==> Dealt(e, archived, b, measure)
  {
    hide RowIds, HasFailed, Deliverable;
  }

  lemma PassOnce(b: Board, records: Records, version: int, q: seq<Entry>, fates: nat -> Fate, i: nat, me: string, measure: Measure)
    requires q != []
    ensures var x := Exchange(b, me, Request(q[0], version), fates(i), measure);
      var r := React(WithStatus(records, q[0].id, Submitting), version, q[0], x.answer);
      var end := PassFrom(b, records, version, q, fates, i, me, measure);
      if r.goOn then
        var rest := PassFrom(x.board, r.records, r.version, q[1..], fates, i + 1, me, measure);
        end.board == rest.board && end.records == rest.records && end.version == rest.version
      else end.board == x.board && end.records == r.records && end.version == r.version
  {
    hide React, Exchange;
  }

  // Against a reachable server nobody else writes to, two passes put every queued operation the server
  // ever takes into the ledger, and fail every other one: those that do not pass its checks, and all of
  // them if the board is archived.
  lemma TwoPassesDeliver(b: Board, records: Records, version: int, live: int, q: seq<Entry>, fates: nat -> Fate,
                         live': int, q': seq<Entry>, fates': nat -> Fate, me: string, measure: Measure, saved: map<string, Saved>)
    requires WellFormed(b) && 0 <= version <= |b.rows| && live <= |b.rows| && AllArrive(fates) && AllArrive(fates')
    requires Truthful(records, saved) && Accounted(records, saved, RowIds(b.rows))
    requires IsQueue(records, q)
    requires var first := PassFrom(b, records, Max(version, live), q, fates, 0, me, measure);
      live' <= |first.board.rows| && IsQueue(first.records, q')
    ensures var first := PassFrom(b, records, Max(version, live), q, fates, 0, me, measure);
      var second := PassFrom(first.board, first.records, Max(first.version, live'), q', fates', 0, me, measure);
      forall e :: e in q ==>
        if Deliverable(b.archived, e, measure) then e.id in RowIds(second.board.rows) && !HasFailed(second.records, e.id)
        else HasFailed(second.records, e.id)
  {
    var start := Max(version, live);
    TwoPassesDrain(b, records, version, live, q, fates, live', q', fates', me, measure, saved);
    QueueIsOpen(records, q);
    PassKeepsAccounts(b, records, start, q, fates, 0, me, measure, saved);
    PassDeals(b, records, start, q, fates, 0, me, measure);
    hide PassFrom, RowIds, WellFormed, Accounted, IsQueue, Dealt, HasFailed, Deliverable;
    var first := PassFrom(b, records, start, q, fates, 0, me, measure);
    QueueIsOpen(first.records, q');
    var again := Max(first.version, live');
    PassDeals(first.board, first.records, again, q', fates', 0, me, measure);
    var second := PassFrom(first.board, first.records, again, q', fates', 0, me, measure);
    forall e | e in q ensures Dealt(e, b.archived, second, measure) {
      if e.id in first.records && first.records[e.id].Open() {
        var e' := Requeued(first.records, q', e.id);
        SameOperation(records, first.records, q, q', e, e', saved);
        SamePassable(e, e', b.archived, second, measure);
      } else {
        ClosedIsNotQueued(first.records, q', e.id);
        OthersFailAsBefore(first.board, first.records, again, q', fates', 0, me, measure, e.id);
        StillDealt(e, b.archived, first, second, measure);
      }
    }
    forall e | e in q ensures DealtWith(e, b.archived, second, measure) {
      NotOpen(e, b.archived, second, measure);
    }
    hide NothingOpen;
  }

  ghost predicate DealtWith(e: Entry, archived: bool, end: PassEnd, measure: Measure) {
    if Deliverable(archived, e, measure) then e.id in RowIds(end.board.rows) && !HasFailed(end.records, e.id)
    else HasFailed(end.records, e.id)
  }

  lemma NotOpen(e: Entry, archived: bool, end: PassEnd, measure: Measure)
    requires Dealt(e, archived, end, measure) && NothingOpen(end.records)
    ensures DealtWith(e, archived, end, measure)
  {
    hide RowIds, Deliverable;
  }

  lemma QueueIsOpen(records: Records, q: seq<Entry>)
    requires IsQueue(records, q)
    ensures AllOpen(records, q) && DistinctEntries(q)
  {
  }

  lemma Requeued(records: Records, q: seq<Entry>, id: string) returns (e: Entry)
    requires IsQueue(records, q) && id in records && records[id].Open()
    ensures e in q && e.id == id
  {
    e :| e in q && e.id == id;
  }

  lemma ClosedIsNotQueued(records: Records, q: seq<Entry>, id: string)
    requires IsQueue(records, q) && !(id in records && records[id].Open())
    ensures id !in EntryIds(q)
  {
  }

  lemma SameOperation(before: Records, after: Records, q: seq<Entry>, q': seq<Entry>, e: Entry, e': Entry, saved: map<string, Saved>)
    requires IsQueue(before, q) && IsQueue(after, q') && e in q && e' in q' && e.id == e'.id
    requires Truthful(before, saved) && Truthful(after, saved)
    ensures e.record.op == e'.record.op
  {
  }

  lemma SamePassable(e: Entry, e': Entry, archived: bool, end: PassEnd, measure: Measure)
    requires e.id == e'.id && e.record.op == e'.record.op
    ensures Dealt(e, archived, end, measure) <==> Dealt(e', archived, end, measure)
  {
    hide RowIds, HasFailed, Validate;
  }

  // ---- the retry budget ----

  ghost predicate Silent(f: Fate) {
    f == LostBefore || f == LostAfter
  }

  // The queue as the next pass reads it.
  function Reread(q: seq<Entry>, records: Records): seq<Entry> {
    seq(|q|, i requires 0 <= i < |q| => if q[i].id in records then Entry(q[i].id, records[q[i].id]) else q[i])
  }

  // k passes in a row over the same queue; losses(j) is what happens to the requests of the j-th.
  ghost function PassesInARow(b: Board, records: Records, version: int, q: seq<Entry>, losses: nat -> Fate, k: nat,
                              me: string, measure: Measure): PassEnd
  {
    if k == 0 then PassEnd(b, records, version, false)
    else
      var before := PassesInARow(b, records, version, q, losses, k - 1, me, measure);
      PassFrom(before.board, before.records, before.version, Reread(q, before.records), i => losses(k - 1), 0, me, measure)
  }

  // What a silent pass does to the record of the operation at the head.
  function AfterSilence(r: Record): Record {
    if r.retries < MAX_RETRIES then r.(status := Pending, retries := r.retries + 1) else r.(status := Failed)
  }

  // A pass that hears nothing about the head of the queue stops there.
  lemma SilentPass(b: Board, records: Records, version: int, q: seq<Entry>, fates: nat -> Fate, me: string, measure: Measure)
    requires q != [] && q[0].id in records && q[0].record == records[q[0].id] && Silent(fates(0))
    ensures var end, id := PassFrom(b, records, version, q, fates, 0, me, measure), q[0].id;
      && end.records == records[id := AfterSilence(records[id])] && end.version == version
      && (end.hadFailure <==> records[id].retries >= MAX_RETRIES)
  {
    hide Submitted, ServerAnswer;
    var x := Exchange(b, me, Request(q[0], version), fates(0), measure);
    assert x.answer == Unavailable;
  }

  lemma OnePassMore(b: Board, records: Records, version: int, q: seq<Entry>, losses: nat -> Fate, k: nat, me: string, measure: Measure)
    requires k > 0 && q != [] && Silent(losses(k - 1))
    requires var before := PassesInARow(b, records, version, q, losses, k - 1, me, measure); q[0].id in before.records
    ensures var before := PassesInARow(b, records, version, q, losses, k - 1, me, measure);
      var after, id := PassesInARow(b, records, version, q, losses, k, me, measure), q[0].id;
      && after.records == before.records[id := AfterSilence(before.records[id])] && after.version == before.version
      && (after.hadFailure <==> before.records[id].retries >= MAX_RETRIES)
  {
    hide PassFrom, AfterSilence;
    var before := PassesInARow(b, records, version, q, losses, k - 1, me, measure);
    SilentPass(before.board, before.records, before.version, Reread(q, before.records), i => losses(k - 1), me, measure);
  }

  // The operation at the head of the queue survives eight passes that hear nothing about it, counting
  // them, and fails for good on the ninth. All that time the operations behind it are not sent and keep
  // their retries; only then does the next one come to the head.
  lemma {:induction false} NinthSilenceIsFinal(b: Board, records: Records, version: int, q: seq<Entry>, losses: nat -> Fate, k: nat,
                                               me: string, measure: Measure)
    requires IsQueue(records, q) && q != [] && q[0].id in records
    requires records[q[0].id].status == Pending && records[q[0].id].retries == 0
    requires (forall j: nat :: j < k ==> Silent(losses(j))) && k <= 9
    ensures var end, r := PassesInARow(b, records, version, q, losses, k, me, measure), records[q[0].id];
      && end.records == records[q[0].id := if k <= MAX_RETRIES then r.(retries := k) else r.(status := Failed, retries := MAX_RETRIES)]
      && end.version == version && (end.hadFailure <==> k == 9)
      && IsQueue(end.records, if k <= MAX_RETRIES then Reread(q, end.records) else q[1..])
  {
    hide PassesInARow, IsQueue;
    if k > 0 {
      NinthSilenceIsFinal(b, records, version, q, losses, k - 1, me, measure);
      OnePassMore(b, records, version, q, losses, k, me, measure);
    } else {
      NoPassYet(b, records, version, q, losses, me, measure);
    }
    var end := PassesInARow(b, records, version, q, losses, k, me, measure);
    HeadChanged(records, q, end.records[q[0].id]);
  }

  lemma NoPassYet(b: Board, records: Records, version: int, q: seq<Entry>, losses: nat -> Fate, me: string, measure: Measure)
    ensures PassesInARow(b, records, version, q, losses, 0, me, measure) == PassEnd(b, records, version, false)
  {
  }

  // Changing the record at the head leaves the queue as it is, or takes the head off if it is no longer open.
  lemma HeadChanged(records: Records, q: seq<Entry>, r: Record)
    requires IsQueue(records, q) && q != [] && q[0].id in records
    requires r.clientSequence == records[q[0].id].clientSequence
    ensures var after := records[q[0].id := r];
      IsQueue(after, if r.Open() then Reread(q, after) else q[1..])
  {
    hide IsQueue, Reread;
    if r.Open() {
      HeadStays(records, q, r);
    } else {
      HeadLeaves(records, q, r);
    }
  }

  lemma HeadStays(records: Records, q: seq<Entry>, r: Record)
    requires IsQueue(records, q) && q != [] && q[0].id in records
    requires r.clientSequence == records[q[0].id].clientSequence && r.Open()
    ensures var after := records[q[0].id := r]; IsQueue(after, Reread(q, after))
  {
    var after := records[q[0].id := r];
    var reread := Reread(q, after);
    forall i | 0 <= i < |q|
      ensures reread[i].id == q[i].id && reread[i].id in after && reread[i].record == after[q[i].id] && reread[i].record.Open()
      ensures reread[i].record.clientSequence == q[i].record.clientSequence
    {
      QueuedAt(records, q, i);
    }
    hide Reread;
    SameIds(q, reread);
    forall id | id in after && after[id].Open() ensures id in EntryIds(q) {
      if id == q[0].id {
        assert q[0] in q;
      }
    }
    SameOrder(q, reread);
  }

  lemma QueuedAt(records: Records, q: seq<Entry>, i: nat)
    requires EntriesOf(q, records) && i < |q|
    ensures q[i].id in records && q[i].record == records[q[i].id] && q[i].record.Open()
  {
    assert q[i] in q;
  }

  lemma SameIds(q: seq<Entry>, q': seq<Entry>)
    requires |q| == |q'| && forall i :: 0 <= i < |q| ==> q'[i].id == q[i].id
    ensures EntryIds(q) == EntryIds(q')
  {
    forall id ensures id in EntryIds(q) <==> id in EntryIds(q') {
      if id in EntryIds(q) {
        var i :| 0 <= i < |q| && q[i].id == id;
        assert q'[i] in q';
      }
      if id in EntryIds(q') {
        var i :| 0 <= i < |q| && q'[i].id == id;
        assert q[i] in q;
      }
    }
  }

  lemma SameOrder(q: seq<Entry>, q': seq<Entry>)
    requires Sorted(q) && DistinctEntries(q) && |q| == |q'|
    requires forall i :: 0 <= i < |q| ==> q'[i].id == q[i].id && q'[i].record.clientSequence == q[i].record.clientSequence
    ensures Sorted(q') && DistinctEntries(q')
  {
  }

  lemma HeadLeaves(records: Records, q: seq<Entry>, r: Record)
    requires IsQueue(records, q) && q != [] && q[0].id in records && !r.Open()
    ensures IsQueue(records[q[0].id := r], q[1..])
  {
    var after, rest := records[q[0].id := r], q[1..];
    forall e | e in rest ensures e in q && e.id != q[0].id {
      var i :| 0 <= i < |rest| && rest[i] == e;
      assert q[i + 1] == e;
    }
    forall id | id in after && after[id].Open() ensures id in EntryIds(rest) {
      var i :| 0 <= i < |q| && q[i].id == id;
      assert rest[i - 1] in rest;
    }
  }

  // ---- a pass is a run of the protocol ----

  ghost function Continue(s: System, actions: seq<Action>, me: string, measure: Measure): System {
    if actions == [] then s else Next(Continue(s, actions[..|actions| - 1], me, measure), actions[|actions| - 1], me, measure)
  }

  lemma {:induction false} ContinueAppend(s: System, a: seq<Action>, b: seq<Action>, me: string, measure: Measure)
    ensures Continue(s, a + b, me, measure) == Continue(Continue(s, a, me, measure), b, me, measure)
  {
    if b == [] {
      assert a + b == a;
    } else {
      ContinueAppend(s, a, b[..|b| - 1], me, measure);
      assert (a + b)[..|a + b| - 1] == a + b[..|b| - 1];
    }
  }

  // The protocol's own steps for one request.
  function ExchangeSteps(k: nat, fate: Fate): seq<Action> {
    match fate
    case Arrives => [SendNext, HandleRequest(k), ReceiveAnswer]
    case LostBefore => [SendNext, LoseAnswer]
    case LostAfter => [SendNext, HandleRequest(k), LoseAnswer]
    case TurnedAway => [SendNext, DropRequest(k, Limited), ReceiveAnswer]
  }

  lemma OneStep(s: System, before: seq<Action>, a: Action, me: string, measure: Measure)
    ensures Continue(s, before + [a], me, measure) == Next(Continue(s, before, me, measure), a, me, measure)
  {
    hide Next;
    assert (before + [a])[..|before|] == before;
  }

  lemma Steps(s: System, a: Action, b: Action, c: Action, me: string, measure: Measure)
    ensures Continue(s, [a, b, c], me, measure) == Next(Next(Next(s, a, me, measure), b, me, measure), c, me, measure)
    ensures Continue(s, [a, b], me, measure) == Next(Next(s, a, me, measure), b, me, measure)
  {
    hide Next;
    OneStep(s, [], a, me, measure);
    OneStep(s, [a], b, me, measure);
    OneStep(s, [a, b], c, me, measure);
    assert [] + [a] == [a] && [a] + [b] == [a, b] && [a, b] + [c] == [a, b, c];
  }

  // The state while a request is out.
  ghost predicate Awaits(s: System, before: Client, e: Entry, rest: seq<Entry>, k: nat) {
    && s.client == Client(WithStatus(before.records, e.id, Submitting), before.version, Some(Pass([e] + rest, Some(k))))
    && k < |s.sent| && s.sent[k] == Request(e, before.version)
  }

  lemma SendStep(s: System, me: string, measure: Measure)
    requires s.client.pass.Some? && s.client.pass.value.waiting.None? && s.client.pass.value.queue != []
    requires forall k :: k in s.answers ==> k < |s.sent|
    ensures var s', q := Next(s, SendNext, me, measure), s.client.pass.value.queue;
      && Awaits(s', s.client, q[0], q[1..], |s.sent|)
      && s'.board == s.board && s'.answers == s.answers && |s'.sent| == |s.sent| + 1
  {
    assert s.client.pass.value.queue == [s.client.pass.value.queue[0]] + s.client.pass.value.queue[1..];
  }

  lemma HandleStep(s: System, before: Client, e: Entry, rest: seq<Entry>, k: nat, me: string, measure: Measure)
    requires Awaits(s, before, e, rest, k) && k !in s.answers
    ensures var s' := Next(s, HandleRequest(k), me, measure);
      && s' == s.(board := Submitted(s.board, me, [Request(e, before.version)], measure),
                  answers := s.answers[k := ServerAnswer(s.board, me, Request(e, before.version), measure)])
      && Awaits(s', before, e, rest, k)
  {
    hide Submitted, ServerAnswer, WithStatus;
  }

  lemma AnswerStep(s: System, before: Client, e: Entry, rest: seq<Entry>, k: nat, me: string, measure: Measure)
    requires Awaits(s, before, e, rest, k)
    ensures var marked := before.(records := WithStatus(before.records, e.id, Submitting));
      && (k in s.answers ==> Next(s, ReceiveAnswer, me, measure) == s.(client := Finish(marked, e, rest, s.answers[k])))
      && Next(s, LoseAnswer, me, measure) == s.(client := Finish(marked, e, rest, Unavailable))
  {
    hide React, WithStatus;
    assert ([e] + rest)[1..] == rest;
  }

  lemma ExchangeIsARun(s: System, fate: Fate, me: string, measure: Measure)
    requires s.client.pass.Some? && s.client.pass.value.waiting.None? && s.client.pass.value.queue != []
    requires forall k :: k in s.answers ==> k < |s.sent|
    ensures var s' := Continue(s, ExchangeSteps(|s.sent|, fate), me, measure);
      var c, e := s.client, s.client.pass.value.queue[0];
      var x := Exchange(s.board, me, Request(e, c.version), fate, measure);
      var marked := c.(records := WithStatus(c.records, e.id, Submitting));
      && s'.board == x.board && s'.client == Finish(marked, e, c.pass.value.queue[1..], x.answer)
      && (forall k :: k in s'.answers ==> k < |s'.sent|)
  {
    var c, q, k := s.client, s.client.pass.value.queue, |s.sent|;
    var s1 := Next(s, SendNext, me, measure);
    SendStep(s, me, measure);
    hide Submitted, ServerAnswer, WithStatus, Next, Finish, Awaits, Request;
    match fate
    case Arrives =>
      Steps(s, SendNext, HandleRequest(k), ReceiveAnswer, me, measure);
      HandleStep(s1, c, q[0], q[1..], k, me, measure);
      AnswerStep(Next(s1, HandleRequest(k), me, measure), c, q[0], q[1..], k, me, measure);
    case LostBefore =>
      Steps(s, SendNext, LoseAnswer, LoseAnswer, me, measure);
      AnswerStep(s1, c, q[0], q[1..], k, me, measure);
    case LostAfter =>
      Steps(s, SendNext, HandleRequest(k), LoseAnswer, me, measure);
      HandleStep(s1, c, q[0], q[1..], k, me, measure);
      AnswerStep(Next(s1, HandleRequest(k), me, measure), c, q[0], q[1..], k, me, measure);
    case TurnedAway =>
      Steps(s, SendNext, DropRequest(k, Limited), ReceiveAnswer, me, measure);
      AnswerStep(Next(s1, DropRequest(k, Limited), me, measure), c, q[0], q[1..], k, me, measure);
  }

  lemma {:induction false} PassSteps(s: System, fates: nat -> Fate, i: nat, me: string, measure: Measure) returns (actions: seq<Action>)
    requires s.client.pass.Some? && s.client.pass.value.waiting.None?
    requires forall k :: k in s.answers ==> k < |s.sent|
    ensures var s' := Continue(s, actions, me, measure);
      var end := PassFrom(s.board, s.client.records, s.client.version, s.client.pass.value.queue, fates, i, me, measure);
      s'.board == end.board && s'.client.records == end.records && s'.client.version == end.version
    decreases |s.client.pass.value.queue|
  {
    actions := [];
    var q := s.client.pass.value.queue;
    if q != [] {
      actions := ExchangeSteps(|s.sent|, fates(i));
      ExchangeIsARun(s, fates(i), me, measure);
      hide PassFrom, Next, React, Exchange;
      var s' := Continue(s, actions, me, measure);
      if s'.client.pass.Some? {
        var more := PassSteps(s', fates, i + 1, me, measure);
        ContinueAppend(s, actions, more, me, measure);
        actions := actions + more;
      }
    }
  }

  // Every pass the engine makes is a run of the protocol's steps, so what holds of every run holds of it.
  // It reports a permanent failure exactly when that run leaves one of the queued operations failed.
  lemma PassIsARun(s: System, fates: nat -> Fate, i: nat, me: string, measure: Measure) returns (actions: seq<Action>)
    requires s.client.pass.Some? && s.client.pass.value.waiting.None?
    requires forall k :: k in s.answers ==> k < |s.sent|
    ensures var s', q := Continue(s, actions, me, measure), s.client.pass.value.queue;
      var end := PassFrom(s.board, s.client.records, s.client.version, q, fates, i, me, measure);
      && s'.board == end.board && s'.client.records == end.records && s'.client.version == end.version
      && (AllOpen(s.client.records, q) && DistinctEntries(q) ==>
           (end.hadFailure <==> exists id :: id in EntryIds(q) && HasFailed(s'.client.records, id)))
  {
    hide PassFrom, Continue, AllOpen, DistinctEntries, HasFailed, EntryIds;
    var q := s.client.pass.value.queue;
    actions := PassSteps(s, fates, i, me, measure);
    if AllOpen(s.client.records, q) && DistinctEntries(q) {
      FailureIsRecorded(s.board, s.client.records, s.client.version, q, fates, i, me, measure);
    }
  }

  // ---- the engine ----

  // The reply to a batch of one, as the client reads it.
  function ReplyAnswer(r: Result<SubmitResult, Error>): Answer {
    match r
    case Ok(res) => if res.acks == [] then Refused else Acked(res.acks[0].resultingVersion)
    case Err(Stale(current, _)) => StaleAt(current)
    case Err(_) => Refused
  }

  lemma ReplyIsServerAnswer(b: Board, me: string, e: Envelope, measure: Measure, r: Result<SubmitResult, Error>)
    requires WellFormed(b)
    requires r.Ok? <==> Accepts(b, [e], measure)
    requires r.Ok? ==> AcknowledgedBy(r.value, [e], b.rows, Submitted(b, me, [e], measure).rows)
    requires r.Err? ==> RefusedWith(b, [e], measure, r.error)
    ensures ReplyAnswer(r) == ServerAnswer(b, me, e, measure)
  {
    hide Accepts, AcknowledgedBy, RefusedWith, WellFormed, FirstInvalid, Append, RowIds, FindRow;
    if r.Ok? {
      AcceptedIsAcked(b, me, e, measure);
      OneAck(r.value, e, b.rows, Append(b, me, [e]).rows);
    } else {
      RefusalIsAnswer(b, e, measure, r.error);
    }
  }

  lemma OneAck(res: SubmitResult, e: Envelope, before: seq<Row>, after: seq<Row>)
    requires AcknowledgedBy(res, [e], before, after)
    ensures FindRow(after, e.operationId).Some?
    ensures res.acks != [] && res.acks[0].resultingVersion == FindRow(after, e.operationId).value.resultingVersion
  {
    hide FindRow, RowIds;
    OneNovel(e, {});
  }

  lemma RefusalIsAnswer(b: Board, e: Envelope, measure: Measure, error: Error)
    requires !Accepts(b, [e], measure) && RefusedWith(b, [e], measure, error)
    ensures FirstInvalid([e], measure).None? && !b.archived ==> error.Stale? && error.currentVersion == b.version
    ensures !(FirstInvalid([e], measure).None? && !b.archived) ==> !error.Stale?
  {
    hide FirstInvalid, RowIds;
    OneNovel(e, RowIds(b.rows));
    hide Novel;
    if FirstInvalid([e], measure).Some? {
      FirstComplaint(e, measure);
    }
  }

  lemma FirstComplaint(e: Envelope, measure: Measure)
    requires FirstInvalid([e], measure).Some?
    ensures !FirstInvalid([e], measure).value.Stale?
  {
    assert [e][1..] == [];
    if CheckPayload(e.op).Some? {
      NoStaleComplaint(e.op);
    }
  }

  lemma NoStaleComplaint(op: Operation)
    requires CheckPayload(op).Some?
    ensures !CheckPayload(op).value.Stale?
  {
    if op.RestoreVersion? {
      NoStaleStroke(op.objects);
    }
  }

  lemma {:induction false} NoStaleStroke(objects: seq<Stroke>)
    ensures CheckStrokes(objects).Some? ==> !CheckStrokes(objects).value.Stale?
  {
    if objects != [] {
      NoStaleStroke(objects[1..]);
    }
  }

  datatype Phase = Idle | PendingWork | Syncing | Synced | Error

  class SyncEngine {
    const store: Store
    var version: int
    var phase: Phase
    var active: bool

    constructor (store: Store)
      ensures this.store == store && version == 0 && phase == Idle && !active
    {
      this.store := store;
      version, phase, active := 0, Idle, false;
    }

    // What was in flight when the page went away is waiting again.
    method Initialize() returns (recovered: nat)
      modifies this`phase, store
      ensures store.records == Recovered(old(store.records))
      ensures NothingOpen(store.records) ==> phase == old(phase)
      ensures !NothingOpen(store.records) ==> phase == PendingWork
      ensures recovered == |set id | id in old(store.records) && old(store.records)[id].status == Submitting|
    {
      recovered := store.RecoverInterrupted();
      var pending := store.GetPendingOperations();
      QueueEmptyIff(store.records, pending);
      if |pending| > 0 {
        phase := PendingWork;
      }
    }

    method SeedServerVersion(seed: int)
      modifies this`version
      ensures version == Max(old(version), seed)
    {
      version := Max(version, seed);
    }

    method Submit(id: string, op: Operation, clientSequence: int, elsewhere: nat) returns (ok: bool)
      modifies this`phase, store
      ensures store.records == if ok then old(store.records)[id := Record(op, clientSequence, Pending, 0, 0)] else old(store.records)
      ensures phase == if ok then PendingWork else Error
      ensures ok <==> elsewhere + |set k | k in old(store.records) && old(store.records)[k].Open()| < 5_000
    {
      ok := store.SaveOperation(id, Record(op, clientSequence, Pending, 0, 0), elsewhere);
      phase := if ok then PendingWork else Error;
    }

    method MarkOperationConfirmed(id: string, serverVersion: int)
      modifies this`version, this`phase, store
      ensures store.records == WithVersion(old(store.records), id, Confirmed, serverVersion)
      ensures version == Max(old(version), serverVersion)
      ensures phase == if NothingOpen(store.records) then Synced else old(phase)
    {
      store.SetVersion(id, Confirmed, serverVersion);
      version := Max(version, serverVersion);
      var pending := store.GetPendingOperations();
      QueueEmptyIff(store.records, pending);
      if |pending| == 0 {
        phase := Synced;
      }
    }

    // One request and its reply, as far as the network lets them through.
    method Deliver(board: Whiteboard, e: Envelope, fate: Fate, me: string, measure: Measure) returns (a: Answer)
      requires board.Valid()
      modifies board
      ensures board.Valid()
      ensures Exchanged(board.Value(), a) == Exchange(old(board.Value()), me, e, fate, measure)
    {
      match fate {
        case Arrives =>
          ghost var b := board.Value();
          var r := board.SubmitBatch(me, [e], measure);
          ReplyIsServerAnswer(b, me, e, measure, r);
          return ReplyAnswer(r);
        case LostBefore =>
          return Unavailable;
        case LostAfter =>
          var _ := board.SubmitBatch(me, [e], measure);
          return Unavailable;
        case TurnedAway =>
          return Limited;
      }
    }

    // Answers whether anything failed for good.
    method PushPending(board: Whiteboard, pending: seq<Entry>, live: int, fates: nat -> Fate, me: string, measure: Measure)
      returns (hadFailure: bool)
      requires board.Valid()
      modifies this`version, store, board
      ensures board.Valid()
      ensures PassEnd(board.Value(), store.records, version, hadFailure)
        == PassFrom(old(board.Value()), old(store.records), Max(old(version), live), pending, fates, 0, me, measure)
    {
      version := Max(version, live);
      hadFailure := false;
      ghost var whole := PassFrom(board.Value(), store.records, version, pending, fates, 0, me, measure);
      for i := 0 to |pending|
        invariant board.Valid()
        invariant var rest := PassFrom(board.Value(), store.records, version, pending[i..], fates, i, me, measure);
          whole == rest.(hadFailure := rest.hadFailure || hadFailure)
      {
        var op := pending[i];
        assert pending[i..][1..] == pending[i + 1..];
        hide PassFrom, React, Exchange, GivesUp;
        store.SetStatus(op.id, Submitting);
        var answer := Deliver(board, Request(op, version), fates(i), me, measure);
        hadFailure := hadFailure || GivesUp(op, answer);
        var goOn := Settle(op, answer);
        if !goOn {
          return;
        }
      }
      assert pending[|pending|..] == [];
    }

    // What an answer does to the record, the version, and the rest of the pass.
    method Settle(op: Entry, answer: Answer) returns (goOn: bool)
      modifies this`version, store
      ensures Reaction(store.records, version, goOn) == React(old(store.records), old(version), op, answer)
    {
      goOn := false;
      match answer {
        case Acked(v) =>
          store.SetVersion(op.id, Confirmed, v);
          version := Max(version, v);
          store.CompactConfirmedOperations(v);
          goOn := true;
        case StaleAt(current) =>
          store.SetRetries(op.id, Pending, op.record.retries + 1);
          version := current;
        case Limited =>
          store.SetRetries(op.id, Pending, op.record.retries + 1);
        case Unavailable =>
          if op.record.retries < MAX_RETRIES {
            store.SetRetries(op.id, Pending, op.record.retries + 1);
          } else {
            store.SetStatus(op.id, Failed);
          }
        case Refused =>
          store.SetRetries(op.id, Failed, op.record.retries + 1);
          goOn := true;
      }
    }

    // A pass while another is under way does nothing. `live` is the realtime controller's version, if
    // one is attached.
    method RunSync(board: Whiteboard, live: Option<int>, fates: nat -> Fate, me: string, measure: Measure)
      returns (ghost pending: seq<Entry>)
      requires board.Valid()
      modifies this, store, board
      ensures board.Valid() && active == old(active)
      ensures old(active) ==> board.Value() == old(board.Value()) && store.records == old(store.records) && version == old(version) && phase == old(phase)
      ensures !old(active) ==> IsQueue(old(store.records), pending)
      ensures !old(active) && pending == [] ==>
        board.Value() == old(board.Value()) && store.records == old(store.records) && version == old(version) && phase == Synced
      ensures !old(active) && pending != [] ==>
        var known := if live.Some? then live.value else old(version);
        var end := PassFrom(old(board.Value()), old(store.records), Max(old(version), known), pending, fates, 0, me, measure);
        && board.Value() == end.board && store.records == end.records && version == end.version
        && phase == if !NothingOpen(end.records) then PendingWork else if end.hadFailure then Error else Synced
    {
      pending := [];
      if active {
        return;
      }
      active := true;
      var queue := store.GetPendingOperations();
      pending := queue;
      if |queue| == 0 {
        phase := Synced;
        active := false;
        return;
      }
      phase := Syncing;
      var hadFailure := PushPending(board, queue, if live.Some? then live.value else version, fates, me, measure);
      var remaining := store.GetPendingOperations();
      QueueEmptyIff(store.records, remaining);
      if |remaining| == 0 {
        phase := if hadFailure then Error else Synced;
      } else {
        phase := PendingWork;
      }
      active := false;
    }
  }

  lemma QueueEmptyIff(records: Records, q: seq<Entry>)
    requires IsQueue(records, q)
    ensures q == [] <==> NothingOpen(records)
  {
    SomeMember(q);
  }
}
