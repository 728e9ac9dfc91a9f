// The durable queue of local operations, one record per operation id.
module LocalStore {
  import opened Drawing

  const MAX_PENDING_OPERATIONS := 5_000

  datatype Status = Pending | Submitting | Confirmed | Failed

  datatype Record = Record(op: Operation, clientSequence: int, status: Status, retries: nat, serverVersion: int) {
    // Still to be delivered.
    predicate Open() {
      status == Pending || status == Submitting
    }
  }

  type Records = map<string, Record>

  function WithStatus(records: Records, id: string, status: Status): Records {
    if id in records then records[id := records[id].(status := status)] else records
  }

  function WithRetries(records: Records, id: string, status: Status, retries: nat): Records {
    if id in records then records[id := records[id].(status := status, retries := retries)] else records
  }

  function WithVersion(records: Records, id: string, status: Status, serverVersion: int): Records {
    if id in records then records[id := records[id].(status := status, serverVersion := serverVersion)] else records
  }

  // Confirmed operations up to a server version are forgotten.
  predicate Forgettable(r: Record, keep: int) {
    r.status == Confirmed && r.serverVersion <= keep
  }

  function Compacted(records: Records, keep: int): Records {
    map id | id in records && !Forgettable(records[id], keep) :: records[id]
  }

  function RecoveredRecord(r: Record): Record {
    if r.status == Submitting then r.(status := Pending) else r
  }

  function Recovered(records: Records): Records {
    map id | id in records :: RecoveredRecord(records[id])
  }

  // Recovery changes nothing but what was in flight, which waits again; whatever was to be delivered still is.
  lemma RecoveryReopens(records: Records, id: string)
    requires id in records
    ensures id in Recovered(records)
    ensures var before, after := records[id], Recovered(records)[id];
      && (after.Open() <==> before.Open()) && after.status != Submitting
      && (after.status == Failed <==> before.status == Failed) && (after.status == Confirmed <==> before.status == Confirmed)
      && after.op == before.op && after.clientSequence == before.clientSequence && after.retries == before.retries
      && after.serverVersion == before.serverVersion && (before.status != Submitting ==> after == before)
  {
  }

  // Compaction keeps whatever is still needed: what is not confirmed, and what was confirmed past the version.
  lemma CompactionKeeps(records: Records, keep: int, id: string)
    requires id in records
    ensures id in Compacted(records, keep) <==>
      records[id].status in {Pending, Submitting, Failed} || records[id].serverVersion > keep
    ensures id in Compacted(records, keep) ==> Compacted(records, keep)[id] == records[id]
  {
  }

  // A queued operation as a pass read it.
  datatype Entry = Entry(id: string, record: Record)

  function EntryIds(q: seq<Entry>): set<string> {
    set e | e in q :: e.id
  }

  ghost predicate Sorted(q: seq<Entry>) {
    forall i, j :: 0 <= i < j < |q| ==> q[i].record.clientSequence <= q[j].record.clientSequence
  }

  ghost predicate DistinctEntries(q: seq<Entry>) {
    forall i, j :: 0 <= i < j < |q| ==> q[i].id != q[j].id
  }

  ghost predicate EntriesOf(q: seq<Entry>, records: Records) {
    forall e :: e in q ==> e.id in records && e.record == records[e.id] && e.record.Open()
  }

  // The open operations, all of them, each once, in client order.
  ghost predicate IsQueue(records: Records, q: seq<Entry>) {
    && EntriesOf(q, records) && Sorted(q) && DistinctEntries(q)
    && forall id :: id in records && records[id].Open() ==> id in EntryIds(q)
  }

  // Insertion by client sequence.
  function Insert(q: seq<Entry>, e: Entry): seq<Entry> {
    if q == [] then [e]
    else if q[|q| - 1].record.clientSequence <= e.record.clientSequence then q + [e]
    else Insert(q[..|q| - 1], e) + [q[|q| - 1]]
  }

  lemma {:induction false} InsertMembers(q: seq<Entry>, e: Entry)
    ensures forall x :: x in Insert(q, e) <==> x in q || x == e
  {
    if q != [] {
      InsertMembers(q[..|q| - 1], e);
      assert q == q[..|q| - 1] + [q[|q| - 1]];
    }
  }

  lemma {:induction false} InsertSorts(q: seq<Entry>, e: Entry)
    requires Sorted(q)
    ensures Sorted(Insert(q, e))
  {
    if q != [] {
      var init, last := q[..|q| - 1], q[|q| - 1];
      var r := Insert(init, e);
      InsertSorts(init, e);
      InsertMembers(init, e);
      hide Insert;
      if last.record.clientSequence <= e.record.clientSequence {
        SortedSnoc(q, e);
      } else {
        SortedSnoc(r, last);
      }
    }
  }

  lemma SortedSnoc(q: seq<Entry>, e: Entry)
    requires Sorted(q) && forall x :: x in q ==> x.record.clientSequence <= e.record.clientSequence
    ensures Sorted(q + [e])
  {
    assert forall i :: 0 <= i < |q| ==> q[i] in q;
  }

  lemma {:induction false} InsertDistinct(q: seq<Entry>, e: Entry)
    requires DistinctEntries(q) && forall x :: x in q ==> x.id != e.id
    ensures DistinctEntries(Insert(q, e))
  {
    if q != [] {
      var init, last := q[..|q| - 1], q[|q| - 1];
      var r := Insert(init, e);
      InsertDistinct(init, e);
      InsertMembers(init, e);
      assert forall i :: 0 <= i < |r| ==> r[i] in r;
      assert last in q && forall x :: x in init ==> x.id != last.id;
    }
  }

  class Store {
    var records: Records

    constructor ()
      ensures records == map[]
    {
      records := map[];
    }

    // False stands for the error "too many pending changes"; `elsewhere` counts the owner's open
    // operations on other boards.
    method SaveOperation(id: string, r: Record, elsewhere: nat) returns (ok: bool)
      modifies this
      ensures ok <==> elsewhere + |set k | k in old(records) && old(records)[k].Open()| < MAX_PENDING_OPERATIONS
      ensures records == if ok then old(records)[id := r] else old(records)
    {
      if elsewhere + |set k | k in records && records[k].Open()| >= MAX_PENDING_OPERATIONS {
        return false;
      }
      records := records[id := r];
      return true;
    }

    method SetStatus(id: string, status: Status)
      modifies this
      ensures records == WithStatus(old(records), id, status)
    {
      if id !in records {
        return;
      }
      records := records[id := records[id].(status := status)];
    }

    method SetRetries(id: string, status: Status, retries: nat)
      modifies this
      ensures records == WithRetries(old(records), id, status, retries)
    {
      if id !in records {
        return;
      }
      records := records[id := records[id].(status := status, retries := retries)];
    }

    method SetVersion(id: string, status: Status, serverVersion: int)
      modifies this
      ensures records == WithVersion(old(records), id, status, serverVersion)
    {
      if id !in records {
        return;
      }
      records := records[id := records[id].(status := status, serverVersion := serverVersion)];
    }

    method GetPendingOperations() returns (q: seq<Entry>)
      ensures IsQueue(records, q)
    {
      q := [];
      var todo := records.Keys;
      while todo != {}
        invariant todo <= records.Keys
        invariant EntriesOf(q, records) && Sorted(q) && DistinctEntries(q)
        invariant EntryIds(q) !! todo
        invariant forall id :: id in records && records[id].Open() ==> id in todo || id in EntryIds(q)
      {
        var id :| id in todo;
        todo := todo - {id};
        if records[id].Open() {
          var e := Entry(id, records[id]);
          InsertMembers(q, e);
          InsertSorts(q, e);
          InsertDistinct(q, e);
          ghost var before := q;
          q := Insert(q, e);
          assert EntryIds(q) == EntryIds(before) + {id} by {
            assert forall x :: x in before ==> x in q;
            assert e in q;
          }
        }
      }
    }

    method CompactConfirmedOperations(keep: int)
      modifies this
      ensures records == Compacted(old(records), keep)
    {
      var todo := records.Keys;
      while todo != {}
        invariant todo <= old(records).Keys
        invariant forall id :: id in records <==> id in old(records) && (id in todo || !Forgettable(old(records)[id], keep))
        invariant forall id :: id in records ==> records[id] == old(records)[id]
      {
        var id :| id in todo;
        todo := todo - {id};
        if Forgettable(records[id], keep) {
          records := records - {id};
        }
      }
    }

    method RecoverInterrupted() returns (recovered: nat)
      modifies this
      ensures records == Recovered(old(records))
      ensures recovered == |set id | id in old(records) && old(records)[id].status == Submitting|
    {
      recovered := 0;
      var todo := records.Keys;
      ghost var done: set<string> := {};
      while todo != {}
        invariant todo <= old(records).Keys
        invariant records.Keys == old(records).Keys
        invariant forall id :: id in old(records) ==>
          records[id] == if id in todo then old(records)[id] else RecoveredRecord(old(records)[id])
        invariant done == set id | id in old(records) && id !in todo && old(records)[id].status == Submitting
        invariant recovered == |done|
      {
        var id :| id in todo;
        todo := todo - {id};
        if records[id].status == Submitting {
          records := records[id := records[id].(status := Pending)];
          recovered := recovered + 1;
          done := done + {id};
        }
      }
      assert done == set id | id in old(records) && old(records)[id].status == Submitting;
    }
  }
}
