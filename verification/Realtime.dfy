// The realtime controller: optimistic submission over a socket, and rendering what others committed.
module Realtime {
  import opened Prelude
  import opened Drawing
  import opened Validator
  import opened Ledger
  import opened Delivery

  // A server operation handed to the board for drawing.
  datatype Remote = Remote(id: string, op: Operation)

  datatype ServerMessage =
    | Ready(version: int)
    | Committed(id: string, version: int, op: Operation)
    | SyncOps(version: int, ops: seq<Remote>)
    | SyncRequired
    | Rejected(stale: bool, current: Option<int>)
    | Notice

  datatype ClientMessage = SubmitOp(id: string, base: int, op: Operation) | SyncRequest(version: int)

  datatype Controller = Controller(serverVersion: int, applied: set<string>, pending: set<string>, syncing: bool)

  const NEW_CONTROLLER := Controller(0, {}, {}, false)

  function RemoteIds(ops: seq<Remote>): set<string> {
    if ops == [] then {} else RemoteIds(ops[..|ops| - 1]) + {ops[|ops| - 1].id}
  }

  // The operations not yet applied, each once, in order.
  function Unseen(ops: seq<Remote>, applied: set<string>): seq<Remote> {
    if ops == [] then []
    else
      var init, last := ops[..|ops| - 1], ops[|ops| - 1];
      if last.id in applied + RemoteIds(init) then Unseen(init, applied) else Unseen(init, applied) + [last]
  }

  function AfterSubmit(c: Controller, id: string): Controller {
    c.(applied := c.applied + {id}, pending := c.pending + {id})
  }

  function AfterMessage(c: Controller, m: ServerMessage): Controller {
    match m
    case Ready(v) => c.(serverVersion := v, syncing := true)
    case Committed(id, v, _) => c.(serverVersion := v, pending := c.pending - {id}, applied := c.applied + {id})
    case SyncOps(v, ops) => c.(serverVersion := v, applied := c.applied + RemoteIds(ops), syncing := false)
    case SyncRequired => c.(syncing := true)
    case Rejected(stale, current) =>
      if stale then
        c.(pending := {}, serverVersion := Max(c.serverVersion, if current.Some? then current.value else 0), syncing := true)
      else c
    case Notice => c
  }

  // What a message makes the controller draw.
  function Rendered(c: Controller, m: ServerMessage): seq<Remote> {
    match m
    case Committed(id, _, op) => if id in c.applied then [] else [Remote(id, op)]
    case SyncOps(_, ops) => Unseen(ops, c.applied)
    case _ => []
  }

  class RealtimeController {
    var serverVersion: int
    var applied: set<string>
    var pending: set<string>
    var syncing: bool

    ghost function Value(): Controller
      reads this
    {
      Controller(serverVersion, applied, pending, syncing)
    }

    constructor ()
      ensures Value() == NEW_CONTROLLER
    {
      serverVersion, applied, pending, syncing := 0, {}, {}, false;
    }

    // `open` tells whether the socket is up; a submit made while it is not stays pending.
    method SubmitOperation(id: string, op: Operation, open: bool) returns (sent: seq<ClientMessage>)
      modifies this`applied, this`pending
      ensures Value() == AfterSubmit(old(Value()), id)
      ensures sent == if open then [SubmitOp(id, old(serverVersion) + |old(pending)|, op)] else []
    {
      applied := applied + {id};
      var inFlight := |pending|;
      pending := pending + {id};
      if !open {
        return [];
      }
      return [SubmitOp(id, serverVersion + inFlight, op)];
    }

    method RequestSync() returns (sent: seq<ClientMessage>)
      modifies this`syncing
      ensures syncing && sent == [SyncRequest(serverVersion)]
    {
      syncing := true;
      return [SyncRequest(serverVersion)];
    }

    method HandleMessage(m: ServerMessage) returns (drawn: seq<Remote>, sent: seq<ClientMessage>)
      modifies this
      ensures Value() == AfterMessage(old(Value()), m)
      ensures drawn == Rendered(old(Value()), m)
      ensures sent == if m.Ready? || m.SyncRequired? || (m.Rejected? && m.stale) then [SyncRequest(serverVersion)] else []
    {
      drawn, sent := [], [];
      match m {
        case Ready(v) =>
          serverVersion := v;
          sent := RequestSync();
        case Committed(id, v, op) =>
          drawn := HandleCommitted(id, v, op);
        case SyncOps(v, ops) =>
          serverVersion := v;
          for i := 0 to |ops|
            modifies this`applied
            invariant applied == old(applied) + RemoteIds(ops[..i])
            invariant drawn == Unseen(ops[..i], old(applied))
          {
            assert ops[..i + 1][..i] == ops[..i];
            if ops[i].id in applied {
              continue;
            }
            drawn := drawn + [ops[i]];
            applied := applied + {ops[i].id};
          }
          assert ops[..|ops|] == ops;
          syncing := false;
        case SyncRequired =>
          sent := RequestSync();
        case Rejected(stale, current) =>
          if stale {
            pending := {};
            serverVersion := Max(serverVersion, if current.Some? then current.value else 0);
            sent := RequestSync();
          }
        case Notice =>
      }
    }

    method HandleCommitted(id: string, v: int, op: Operation) returns (drawn: seq<Remote>)
      modifies this`serverVersion, this`pending, this`applied
      ensures Value() == AfterMessage(old(Value()), Committed(id, v, op))
      ensures drawn == Rendered(old(Value()), Committed(id, v, op))
    {
      serverVersion := v;
      pending := pending - {id};
      if id in applied {
        return [];
      }
      applied := applied + {id};
      return [Remote(id, op)];
    }
  }

  // ---- at most once, whatever arrives ----

  datatype Input = LocalSubmit(id: string) | Arrival(message: ServerMessage)

  datatype Deed = Made(id: string) | Drew(id: string, op: Operation)

  function AfterInput(c: Controller, i: Input): Controller {
    match i
    case LocalSubmit(id) => AfterSubmit(c, id)
    case Arrival(m) => AfterMessage(c, m)
  }

  function Draws(ops: seq<Remote>): seq<Deed> {
    seq(|ops|, i requires 0 <= i < |ops| => Drew(ops[i].id, ops[i].op))
  }

  function DeedsOf(c: Controller, i: Input): seq<Deed> {
    match i
    case LocalSubmit(id) => [Made(id)]
    case Arrival(m) => Draws(Rendered(c, m))
  }

  function AfterInputs(inputs: seq<Input>): Controller {
    if inputs == [] then NEW_CONTROLLER else AfterInput(AfterInputs(inputs[..|inputs| - 1]), inputs[|inputs| - 1])
  }

  // Everything the controller submitted or drew, in order.
  function History(inputs: seq<Input>): seq<Deed> {
    if inputs == [] then []
    else
      var init := inputs[..|inputs| - 1];
      History(init) + DeedsOf(AfterInputs(init), inputs[|inputs| - 1])
  }

  // No drawing of an operation comes after another drawing of it or after submitting it.
  ghost predicate DrawnOnce(h: seq<Deed>) {
    forall i, j :: 0 <= i < j < |h| && h[j].Drew? ==> h[i].id != h[j].id
  }

  ghost predicate KnownIds(h: seq<Deed>, applied: set<string>) {
    forall i :: 0 <= i < |h| ==> h[i].id in applied
  }

  lemma {:induction false} RemoteIdsHave(ops: seq<Remote>, i: nat)
    requires i < |ops|
    ensures ops[i].id in RemoteIds(ops)
  {
    if i < |ops| - 1 {
      RemoteIdsHave(ops[..|ops| - 1], i);
    }
  }

  lemma {:induction false} UnseenIds(ops: seq<Remote>, applied: set<string>)
    ensures RemoteIds(Unseen(ops, applied)) == RemoteIds(ops) - applied
  {
    if ops != [] {
      var init, last := ops[..|ops| - 1], ops[|ops| - 1];
      UnseenIds(init, applied);
      var u := Unseen(init, applied);
      assert (u + [last])[..|u|] == u;
    }
  }

  lemma {:induction false} UnseenDistinct(ops: seq<Remote>, applied: set<string>)
    ensures forall i, j :: 0 <= i < j < |Unseen(ops, applied)| ==> Unseen(ops, applied)[i].id != Unseen(ops, applied)[j].id
  {
    if ops != [] {
      var init, last := ops[..|ops| - 1], ops[|ops| - 1];
      UnseenDistinct(init, applied);
      UnseenIds(init, applied);
      if last.id !in applied + RemoteIds(init) {
        var u := Unseen(init, applied);
        forall i | 0 <= i < |u| ensures u[i].id != last.id {
          RemoteIdsHave(u, i);
        }
      }
    }
  }

  lemma InputDraws(c: Controller, i: Input)
    ensures DrawnOnce(DeedsOf(c, i)) && KnownIds(DeedsOf(c, i), AfterInput(c, i).applied)
    ensures c.applied <= AfterInput(c, i).applied
    ensures forall d :: d in DeedsOf(c, i) && d.Drew? ==> d.id !in c.applied
  {
    if i.Arrival? && i.message.SyncOps? {
      var ops := i.message.ops;
      UnseenIds(ops, c.applied);
      UnseenDistinct(ops, c.applied);
      var u := Unseen(ops, c.applied);
      forall k | 0 <= k < |u| ensures u[k].id in RemoteIds(u) {
        RemoteIdsHave(u, k);
      }
    }
  }

  // For any sequence of submits and messages the controller draws each operation at most once, and
  // never one it submitted earlier.
  lemma {:induction false} AtMostOnce(inputs: seq<Input>)
    ensures DrawnOnce(History(inputs)) && KnownIds(History(inputs), AfterInputs(inputs).applied)
  {
    if inputs != [] {
      var init, last := inputs[..|inputs| - 1], inputs[|inputs| - 1];
      AtMostOnce(init);
      var c := AfterInputs(init);
      InputDraws(c, last);
    }
  }

  // ---- nothing is missed ----

  // The inputs that tell the controller of an operation.
  predicate Mentions(i: Input, id: string) {
    match i
    case LocalSubmit(x) => x == id
    case Arrival(m) =>
      (m.Committed? && m.id == id) || (m.SyncOps? && exists p :: 0 <= p < |m.ops| && m.ops[p].id == id)
  }

  // The operation a message brings under an id: the first one, should it bring several.
  predicate Brings(m: ServerMessage, r: Remote) {
    || (m.Committed? && r == Remote(m.id, m.op))
    || (m.SyncOps? && exists p :: 0 <= p < |m.ops| && m.ops[p] == r && IsFirst(m.ops, p))
  }

  predicate IsFirst(ops: seq<Remote>, p: int)
    requires 0 <= p < |ops|
  {
    forall q :: 0 <= q < p ==> ops[q].id != ops[p].id
  }

  ghost predicate Mentioned(inputs: seq<Input>, id: string) {
    exists k :: 0 <= k < |inputs| && Mentions(inputs[k], id)
  }

  lemma {:induction false} RemoteIdsIff(ops: seq<Remote>, id: string)
    ensures id in RemoteIds(ops) <==> exists p :: 0 <= p < |ops| && ops[p].id == id
  {
    if ops != [] {
      RemoteIdsIff(ops[..|ops| - 1], id);
    }
  }

  lemma AppliedByInput(c: Controller, i: Input, id: string)
    ensures id in AfterInput(c, i).applied <==> id in c.applied || Mentions(i, id)
  {
    if i.Arrival? && i.message.SyncOps? {
      RemoteIdsIff(i.message.ops, id);
    }
  }

  lemma MentionedSnoc(inputs: seq<Input>, id: string)
    requires inputs != []
    ensures Mentioned(inputs, id) <==> Mentioned(inputs[..|inputs| - 1], id) || Mentions(inputs[|inputs| - 1], id)
  {
    var init := inputs[..|inputs| - 1];
    if Mentioned(init, id) {
      var k :| 0 <= k < |init| && Mentions(init[k], id);
      assert Mentions(inputs[k], id);
    }
    if Mentioned(inputs, id) {
      var k :| 0 <= k < |inputs| && Mentions(inputs[k], id);
      assert k < |init| ==> Mentions(init[k], id);
    }
  }

  // An operation counts as applied exactly when some input so far told of it.
  lemma {:induction false} AppliedIff(inputs: seq<Input>, id: string)
    ensures id in AfterInputs(inputs).applied <==> Mentioned(inputs, id)
  {
    if inputs != [] {
      AppliedIff(inputs[..|inputs| - 1], id);
      AppliedByInput(AfterInputs(inputs[..|inputs| - 1]), inputs[|inputs| - 1], id);
      MentionedSnoc(inputs, id);
    }
  }

  // A place of a message where something not applied before is mentioned for the first time.
  predicate IsNewAt(ops: seq<Remote>, applied: set<string>, p: nat) {
    p < |ops| && ops[p].id !in applied && IsFirst(ops, p)
  }

  lemma NewAtSnoc(ops: seq<Remote>, last: Remote, applied: set<string>, p: nat)
    ensures IsNewAt(ops + [last], applied, p) <==>
      if p == |ops| then last.id !in applied + RemoteIds(ops) else IsNewAt(ops, applied, p)
  {
    hide RemoteIds;
    var all := ops + [last];
    assert forall q :: 0 <= q < |ops| ==> all[q] == ops[q];
    if p == |ops| {
      RemoteIdsIff(ops, last.id);
    }
  }

  ghost predicate Increasing(places: seq<nat>) {
    forall i, j :: 0 <= i < j < |places| ==> places[i] < places[j]
  }

  lemma IncreasingSnoc(places: seq<nat>, n: nat)
    requires Increasing(places) && forall p :: p in places ==> p < n
    ensures Increasing(places + [n])
  {
    assert forall i :: 0 <= i < |places| ==> places[i] in places;
  }

  lemma InSnoc(places: seq<nat>, n: nat, p: nat)
    ensures p in places + [n] <==> p in places || p == n
  {
  }

  // A sync draws exactly what stands at those places, in the order of the message.
  lemma {:induction false} SyncDrawsInOrder(ops: seq<Remote>, applied: set<string>) returns (places: seq<nat>)
    ensures Increasing(places)
    ensures forall p :: p in places <==> IsNewAt(ops, applied, p)
    ensures |places| == |Unseen(ops, applied)|
    ensures forall i :: 0 <= i < |places| ==> places[i] < |ops| && Unseen(ops, applied)[i] == ops[places[i]]
  {
    places := [];
    if ops != [] {
      var n := |ops| - 1;
      var init, last := ops[..n], ops[n];
      var earlier := SyncDrawsInOrder(init, applied);
      places := if last.id in applied + RemoteIds(init) then earlier else earlier + [n];
      NewPlaces(init, last, applied, earlier, places);
      assert init + [last] == ops;
      DrawnAtPlaces(init, last, applied, earlier, places);
      hide *;
    }
  }

  lemma DrawnAtPlaces(init: seq<Remote>, last: Remote, applied: set<string>, earlier: seq<nat>, places: seq<nat>)
    requires |earlier| == |Unseen(init, applied)|
    requires forall i :: 0 <= i < |earlier| ==> earlier[i] < |init| && Unseen(init, applied)[i] == init[earlier[i]]
    requires places == if last.id in applied + RemoteIds(init) then earlier else earlier + [|init|]
    ensures var all := init + [last];
      && |places| == |Unseen(all, applied)|
      && forall i :: 0 <= i < |places| ==> places[i] < |all| && Unseen(all, applied)[i] == all[places[i]]
  {
    hide RemoteIds;
    var all := init + [last];
    assert all[..|all| - 1] == init && all[|all| - 1] == last;
  }

  lemma NewPlaces(init: seq<Remote>, last: Remote, applied: set<string>, earlier: seq<nat>, places: seq<nat>)
    requires Increasing(earlier) && forall p :: p in earlier <==> IsNewAt(init, applied, p)
    requires places == if last.id in applied + RemoteIds(init) then earlier else earlier + [|init|]
    ensures Increasing(places) && forall p :: p in places <==> IsNewAt(init + [last], applied, p)
  {
    forall p ensures p in places <==> IsNewAt(init + [last], applied, p) {
      NewAtSnoc(init, last, applied, p);
      InSnoc(earlier, |init|, p);
    }
    IncreasingSnoc(earlier, |init|);
  }

  // Whatever an input draws was brought by it and not mentioned before, and all of that is drawn.
  lemma InputDrawsIff(c: Controller, i: Input, r: Remote)
    ensures Drew(r.id, r.op) in DeedsOf(c, i) <==> i.Arrival? && Brings(i.message, r) && r.id !in c.applied
  {
    if i.Arrival? {
      var drawn := Rendered(c, i.message);
      DrawsHave(drawn, r);
      if i.message.SyncOps? {
        var ops := i.message.ops;
        var places := SyncDrawsInOrder(ops, c.applied);
        if r in drawn {
          var k :| 0 <= k < |drawn| && drawn[k] == r;
          assert places[k] in places;
        }
        if Brings(i.message, r) && r.id !in c.applied {
          var p: nat :| p < |ops| && ops[p] == r && IsFirst(ops, p);
          assert IsNewAt(ops, c.applied, p);
          var k :| 0 <= k < |places| && places[k] == p;
          assert drawn[k] == r;
        }
      }
    }
  }

  lemma DrawsHave(ops: seq<Remote>, r: Remote)
    ensures Drew(r.id, r.op) in Draws(ops) <==> r in ops
  {
    if r in ops {
      var k :| 0 <= k < |ops| && ops[k] == r;
      assert Draws(ops)[k] == Drew(r.id, r.op);
    }
    if Drew(r.id, r.op) in Draws(ops) {
      var k :| 0 <= k < |ops| && Draws(ops)[k] == Drew(r.id, r.op);
      assert ops[k] == r;
    }
  }

  // In every run: a message draws an operation exactly when it brings it, as it brings it, and no input
  // before mentioned that id.
  lemma DrawnIff(inputs: seq<Input>, k: nat, r: Remote)
    requires k < |inputs|
    ensures Drew(r.id, r.op) in DeedsOf(AfterInputs(inputs[..k]), inputs[k])
      <==> inputs[k].Arrival? && Brings(inputs[k].message, r) && !Mentioned(inputs[..k], r.id)
  {
    InputDrawsIff(AfterInputs(inputs[..k]), inputs[k], r);
    AppliedIff(inputs[..k], r.id);
  }

  ghost predicate InHistory(h: seq<Deed>, id: string) {
    exists d :: d in h && d.id == id
  }

  lemma {:induction false} FirstMention(ops: seq<Remote>, p: nat) returns (q: nat)
    requires p < |ops|
    ensures q <= p && ops[q].id == ops[p].id && IsFirst(ops, q)
  {
    if IsFirst(ops, p) {
      q := p;
    } else {
      var earlier: nat :| earlier < p && ops[earlier].id == ops[p].id;
      q := FirstMention(ops, earlier);
    }
  }

  lemma InputDeeds(c: Controller, i: Input, id: string)
    ensures InHistory(DeedsOf(c, i), id) ==> Mentions(i, id)
    ensures Mentions(i, id) ==> id in c.applied || InHistory(DeedsOf(c, i), id)
  {
    if InHistory(DeedsOf(c, i), id) && i.Arrival? {
      var d :| d in DeedsOf(c, i) && d.id == id;
      InputDrawsIff(c, i, Remote(id, d.op));
    }
    if Mentions(i, id) && id !in c.applied {
      if i.LocalSubmit? {
        assert Made(id) in DeedsOf(c, i);
      } else {
        var r := BroughtBy(i.message, id);
        InputDrawsIff(c, i, r);
        assert Drew(r.id, r.op) in DeedsOf(c, i);
      }
    }
  }

  lemma BroughtBy(m: ServerMessage, id: string) returns (r: Remote)
    requires Mentions(Arrival(m), id)
    ensures r.id == id && Brings(m, r)
  {
    if m.Committed? {
      r := Remote(m.id, m.op);
    } else {
      var p: nat :| p < |m.ops| && m.ops[p].id == id;
      var q := FirstMention(m.ops, p);
      r := m.ops[q];
    }
  }

  // Nothing is missed: what any input mentions stands in the history up to that input, submitted or
  // drawn, and the history holds nothing else.
  lemma {:induction false} NothingMissed(inputs: seq<Input>, id: string)
    ensures InHistory(History(inputs), id) <==> Mentioned(inputs, id)
  {
    if inputs != [] {
      var init, last := inputs[..|inputs| - 1], inputs[|inputs| - 1];
      NothingMissed(init, id);
      AppliedIff(init, id);
      InputDeeds(AfterInputs(init), last, id);
      MentionedSnoc(inputs, id);
      HistoryJoins(History(init), DeedsOf(AfterInputs(init), last), id);
      hide Mentioned, InHistory, Mentions, DeedsOf;
    }
  }

  lemma HistoryJoins(a: seq<Deed>, b: seq<Deed>, id: string)
    ensures InHistory(a + b, id) <==> InHistory(a, id) || InHistory(b, id)
  {
    if InHistory(a, id) {
      var d :| d in a && d.id == id;
      assert d in a + b;
    }
    if InHistory(b, id) {
      var d :| d in b && d.id == id;
      assert d in a + b;
    }
  }

  // ---- the syncing flag ----

  predicate Asks(i: Input) {
    i.Arrival? && (i.message.Ready? || i.message.SyncRequired? || (i.message.Rejected? && i.message.stale))
  }

  predicate Syncs(i: Input) {
    i.Arrival? && i.message.SyncOps?
  }

  ghost predicate SyncAwaited(inputs: seq<Input>) {
    exists k :: 0 <= k < |inputs| && Asks(inputs[k]) && forall j :: k < j < |inputs| ==> !Syncs(inputs[j])
  }

  // The controller says it is syncing exactly while a sync it asked for has not come.
  lemma {:induction false} SyncingIff(inputs: seq<Input>)
    ensures AfterInputs(inputs).syncing <==> SyncAwaited(inputs)
  {
    if inputs != [] {
      var init, last := inputs[..|inputs| - 1], inputs[|inputs| - 1];
      SyncingIff(init);
      if SyncAwaited(init) && !Syncs(last) {
        var k :| 0 <= k < |init| && Asks(init[k]) && forall j :: k < j < |init| ==> !Syncs(init[j]);
        assert Asks(inputs[k]) && forall j :: k < j < |inputs| ==> !Syncs(inputs[j]);
      }
      if SyncAwaited(inputs) {
        var k :| 0 <= k < |inputs| && Asks(inputs[k]) && forall j :: k < j < |inputs| ==> !Syncs(inputs[j]);
        if k < |init| {
          assert !Syncs(inputs[|init|]);
          assert Asks(init[k]) && forall j :: k < j < |init| ==> !Syncs(init[j]) by {
            assert forall j :: 0 <= j < |init| ==> init[j] == inputs[j];
          }
        }
      }
    }
  }
}
