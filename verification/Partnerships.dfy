// The partnership lifecycle: transactions over partnerships, members and invitations.
module Partnerships {
  import opened Prelude

  datatype PartnershipStatus = Pending | Active | Ended | Cancelled

  datatype MemberStatus = Joined | Left

  datatype InvitationStatus = Sent | Expired | Accepted | Rejected | Revoked

  datatype Invitation = Invitation(
    partnership: nat, inviter: int, email: string, invitee: Option<int>, status: InvitationStatus, expiresAt: int)

  // Rows are never deleted, so a row's key is its place in the list; a membership is keyed by
  // partnership and user.
  datatype Db = Db(partnerships: seq<PartnershipStatus>, members: map<(nat, int), MemberStatus>, invitations: seq<Invitation>)

  const EMPTY_DB := Db([], map[], [])

  const INVITATION_LIFETIME_HOURS := 168

  // Who has which (normalized) email, and who, if anyone, is registered under one.
  datatype Accounts = Accounts(emailOf: int -> string, find: string -> Option<int>)

  datatype Refusal =
    | InvalidEmail | SelfInvite | AlreadyConnected | MutualInvitation | PendingExists
    | NotAuthorized | NotUsable | AtCapacity | NotActive | NoSuchRow | Integrity

  // ---- queries ----

  predicate IsMember(members: map<(nat, int), MemberStatus>, p: nat, user: int) {
    (p, user) in members && members[(p, user)] == Joined
  }

  predicate HasMembershipIn(db: Db, user: int, status: PartnershipStatus) {
    exists p :: 0 <= p < |db.partnerships| && db.partnerships[p] == status && IsMember(db.members, p, user)
  }

  predicate HasAnyMembership(db: Db, user: int) {
    exists k :: k in db.members && k.1 == user && db.members[k] == Joined
  }

  function ActiveUsers(members: map<(nat, int), MemberStatus>, p: nat): set<int> {
    set k | k in members && k.0 == p && members[k] == Joined :: k.1
  }

  predicate IsSentTo(inv: Invitation, inviter: int, email: string) {
    inv.status == Sent && inv.inviter == inviter && inv.email == email
  }

  // The first SENT invitation from this inviter to this email.
  function FindSent(invitations: seq<Invitation>, inviter: int, email: string): (r: Option<nat>)
    ensures r.Some? ==> r.value < |invitations| && IsSentTo(invitations[r.value], inviter, email)
    ensures r.None? ==> forall i :: 0 <= i < |invitations| ==> !IsSentTo(invitations[i], inviter, email)
  {
    if invitations == [] then None
    else
      var n := |invitations| - 1;
      var earlier := FindSent(invitations[..n], inviter, email);
      if earlier.Some? then earlier
      else if IsSentTo(invitations[n], inviter, email) then Some(n)
      else None
  }

  predicate IsInvitee(inv: Invitation, user: int, accounts: Accounts) {
    inv.invitee == Some(user) || inv.email == accounts.emailOf(user)
  }

  // ---- the database's own constraints ----

  predicate OneMembershipPerUser(members: map<(nat, int), MemberStatus>) {
    forall j, k :: j in members && k in members && members[j] == Joined && members[k] == Joined && j.1 == k.1 ==> j == k
  }

  predicate SentOnce(invitations: seq<Invitation>) {
    forall i, j :: 0 <= i < j < |invitations| && invitations[i].status == Sent && invitations[j].status == Sent ==>
      !(invitations[i].inviter == invitations[j].inviter && invitations[i].email == invitations[j].email)
      && !(invitations[i].partnership == invitations[j].partnership && invitations[i].email == invitations[j].email)
  }

  predicate Constraints(db: Db) {
    OneMembershipPerUser(db.members) && SentOnce(db.invitations)
  }

  datatype Txn = Txn(db: Db, result: Result<nat, Refusal>)

  // A transaction that would violate a constraint is rolled back.
  function CommitIf(before: Db, after: Db, value: nat): Txn {
    if Constraints(after) then Txn(after, Ok(value)) else Txn(before, Err(Integrity))
  }

  // ---- the transactions ----

  function Reissued(inv: Invitation, now: int): Invitation {
    inv.(status := Sent, expiresAt := now + INVITATION_LIFETIME_HOURS)
  }

  // Everyone still in a partnership leaves it.
  function AllLeave(members: map<(nat, int), MemberStatus>, p: nat): map<(nat, int), MemberStatus> {
    map k | k in members :: if k.0 == p && members[k] == Joined then Left else members[k]
  }

  // `seen` is the status on the caller's copy of the invitation, which may be out of date; its other
  // fields never change.
  function Resend(db: Db, id: nat, seen: InvitationStatus, actor: int, now: int): Txn {
    if id >= |db.invitations| then Txn(db, Err(NoSuchRow))
    else if db.invitations[id].inviter != actor then Txn(db, Err(NotAuthorized))
    else if seen != Sent && seen != Expired then Txn(db, Err(NotUsable))
    else if HasMembershipIn(db, actor, Active) then Txn(db, Err(AlreadyConnected))
    else CommitIf(db, db.(invitations := db.invitations[id := Reissued(db.invitations[id], now)]), id)
  }

  // A new partnership with its inviter in it, and the invitation to it.
  function Opened(db: Db, inv: Invitation): Db {
    Db(db.partnerships + [Pending], db.members[(|db.partnerships|, inv.inviter) := Joined], db.invitations + [inv])
  }

  function NewInvitation(db: Db, inviter: int, email: string, now: int, accounts: Accounts): Invitation {
    Invitation(|db.partnerships|, inviter, email, accounts.find(email), Sent, now + INVITATION_LIFETIME_HOURS)
  }

  function Create(db: Db, inviter: int, email: string, now: int, accounts: Accounts): Txn {
    if email == "" then Txn(db, Err(InvalidEmail))
    else if accounts.emailOf(inviter) == email then Txn(db, Err(SelfInvite))
    else if HasMembershipIn(db, inviter, Active) then Txn(db, Err(AlreadyConnected))
    else
      var other := accounts.find(email);
      if other.Some? && FindSent(db.invitations, other.value, accounts.emailOf(inviter)).Some? then Txn(db, Err(MutualInvitation))
      else
        var existing := FindSent(db.invitations, inviter, email);
        if existing.Some? then Resend(db, existing.value, Sent, inviter, now)
        else if HasMembershipIn(db, inviter, Pending) then Txn(db, Err(PendingExists))
        else CommitIf(db, Opened(db, NewInvitation(db, inviter, email, now, accounts)), |db.invitations|)
  }

  // A partnership that is still pending is cancelled.
  function Cancel(db: Db, p: nat): Db
    requires p < |db.partnerships|
  {
    if db.partnerships[p] != Pending then db
    else db.(partnerships := db.partnerships[p := Cancelled], members := AllLeave(db.members, p))
  }

  function Revoke(db: Db, id: nat, seen: InvitationStatus, actor: int): Txn {
    if id >= |db.invitations| || db.invitations[id].partnership >= |db.partnerships| then Txn(db, Err(NoSuchRow))
    else if db.invitations[id].inviter != actor then Txn(db, Err(NotAuthorized))
    else if seen != Sent then Txn(db, Err(NotUsable))
    else
      var marked := db.(invitations := db.invitations[id := db.invitations[id].(status := Revoked)]);
      CommitIf(db, Cancel(marked, db.invitations[id].partnership), id)
  }

  function MarkExpired(db: Db, id: nat, now: int): Txn {
    if id < |db.invitations| && db.invitations[id].status == Sent && now >= db.invitations[id].expiresAt then
      CommitIf(db, db.(invitations := db.invitations[id := db.invitations[id].(status := Expired)]), id)
    else Txn(db, Ok(id))
  }

  // The first half of accepting only looks.
  function CheckAccept(db: Db, id: nat, user: int, accounts: Accounts): Result<nat, Refusal> {
    if id >= |db.invitations| then Err(NoSuchRow)
    else if db.invitations[id].status != Sent then Err(NotUsable)
    else if !IsInvitee(db.invitations[id], user, accounts) then Err(NotAuthorized)
    else Ok(id)
  }

  // The second half does not look at the invitation again.
  function CommitAccept(db: Db, id: nat, user: int): Txn {
    if id >= |db.invitations| || db.invitations[id].partnership >= |db.partnerships| then Txn(db, Err(NoSuchRow))
    else
      var p := db.invitations[id].partnership;
      if db.partnerships[p] != Pending then Txn(db, Err(NotUsable))
      else if HasAnyMembership(db, user) then Txn(db, Err(AtCapacity))
      else if |ActiveUsers(db.members, p)| >= 2 then Txn(db, Err(AtCapacity))
      else if (p, user) in db.members then Txn(db, Err(AtCapacity)) // one row per partnership and user
      else
        var joined := Db(
          db.partnerships[p := Active],
          db.members[(p, user) := Joined],
          db.invitations[id := db.invitations[id].(status := Accepted)]);
        var t := CommitIf(db, joined, p);
        if t.result.Err? then Txn(db, Err(AtCapacity)) else t
  }

  function Reject(db: Db, id: nat, user: int, accounts: Accounts): Txn {
    if id >= |db.invitations| || db.invitations[id].partnership >= |db.partnerships| then Txn(db, Err(NoSuchRow))
    else if db.invitations[id].status != Sent then Txn(db, Err(NotUsable))
    else if !IsInvitee(db.invitations[id], user, accounts) then Txn(db, Err(NotAuthorized))
    else
      var marked := db.(invitations := db.invitations[id := db.invitations[id].(status := Rejected)]);
      CommitIf(db, Cancel(marked, db.invitations[id].partnership), id)
  }

  function End(db: Db, p: nat, actor: int): Txn {
    if p >= |db.partnerships| then Txn(db, Err(NoSuchRow))
    else if db.partnerships[p] != Active then Txn(db, Err(NotActive))
    else if !IsMember(db.members, p, actor) then Txn(db, Err(NotAuthorized))
    else CommitIf(db, db.(partnerships := db.partnerships[p := Ended], members := AllLeave(db.members, p)), p)
  }

  // ---- interleavings ----

  datatype Action =
    | DoCreate(inviter: int, email: string, now: int)
    | DoResend(id: nat, seen: InvitationStatus, actor: int, now: int)
    | DoRevoke(id: nat, seen: InvitationStatus, actor: int)
    | DoMarkExpired(id: nat, now: int)
    | DoCommitAccept(id: nat, user: int)
    | DoReject(id: nat, user: int)
    | DoEnd(p: nat, actor: int)

  function Transact(db: Db, a: Action, accounts: Accounts): Txn {
    match a
    case DoCreate(inviter, email, now) => Create(db, inviter, email, now, accounts)
    case DoResend(id, seen, actor, now) => Resend(db, id, seen, actor, now)
    case DoRevoke(id, seen, actor) => Revoke(db, id, seen, actor)
    case DoMarkExpired(id, now) => MarkExpired(db, id, now)
    case DoCommitAccept(id, user) => CommitAccept(db, id, user)
    case DoReject(id, user) => Reject(db, id, user, accounts)
    case DoEnd(p, actor) => End(db, p, actor)
  }

  function TransactAll(db: Db, actions: seq<Action>, accounts: Accounts): Db {
    if actions == [] then db
    else Transact(TransactAll(db, actions[..|actions| - 1], accounts), actions[|actions| - 1], accounts).db
  }

  // ---- membership safety ----

  predicate MembersFit(status: PartnershipStatus, users: set<int>) {
    match status
    case Pending => |users| == 1
    case Active => |users| == 2
    case Ended => users == {}
    case Cancelled => users == {}
  }

  ghost predicate MembersSafe(db: Db) {
    && |db.invitations| == |db.partnerships|
    && (forall i :: 0 <= i < |db.invitations| ==> db.invitations[i].partnership == i)
    && (forall k :: k in db.members ==> k.0 < |db.partnerships|)
    && OneMembershipPerUser(db.members)
    && (forall p :: 0 <= p < |db.partnerships| ==> MembersFit(db.partnerships[p], ActiveUsers(db.members, p)))
  }

  // The only ways a partnership's status moves.
  predicate Forward(a: PartnershipStatus, b: PartnershipStatus) {
    a == b || (a == Pending && b != Pending) || (a == Active && b == Ended)
  }

  ghost predicate StatusesForward(before: seq<PartnershipStatus>, after: seq<PartnershipStatus>) {
    |before| <= |after| && forall p :: 0 <= p < |before| ==> Forward(before[p], after[p])
  }

  lemma ActiveUsersAdd(members: map<(nat, int), MemberStatus>, p: nat, user: int, q: nat)
    ensures ActiveUsers(members[(p, user) := Joined], q)
      == if q == p then ActiveUsers(members, q) + {user} else ActiveUsers(members, q)
  {
    var after := members[(p, user) := Joined];
    forall u ensures u in ActiveUsers(after, q) <==> u in (if q == p then ActiveUsers(members, q) + {user} else ActiveUsers(members, q)) {
      ActiveUserIff(after, q, u);
      ActiveUserIff(members, q, u);
    }
  }

  lemma ActiveUserIff(members: map<(nat, int), MemberStatus>, p: nat, user: int)
    ensures user in ActiveUsers(members, p) <==> IsMember(members, p, user)
  {
    if IsMember(members, p, user) {
      assert (p, user).1 == user;
    }
  }

  lemma ActiveUsersLeave(members: map<(nat, int), MemberStatus>, p: nat, q: nat)
    ensures ActiveUsers(AllLeave(members, p), q) == if q == p then {} else ActiveUsers(members, q)
  {
    forall u ensures u in ActiveUsers(AllLeave(members, p), q) <==> u in (if q == p then {} else ActiveUsers(members, q)) {
      ActiveUserIff(AllLeave(members, p), q, u);
      ActiveUserIff(members, q, u);
    }
  }

  // Closing a partnership: everybody leaves, nobody else is touched.
  lemma ClosingKeepsSafe(db: Db, p: nat, status: PartnershipStatus)
    requires MembersSafe(db) && p < |db.partnerships| && (status == Cancelled || status == Ended)
    ensures MembersSafe(db.(partnerships := db.partnerships[p := status], members := AllLeave(db.members, p)))
  {
    forall q | 0 <= q < |db.partnerships| ensures MembersFit(db.partnerships[p := status][q], ActiveUsers(AllLeave(db.members, p), q)) {
      ActiveUsersLeave(db.members, p, q);
    }
  }

  lemma CancellingKeepsSafe(db: Db, id: nat, status: InvitationStatus)
    requires MembersSafe(db) && id < |db.invitations|
    ensures MembersSafe(Cancel(db.(invitations := db.invitations[id := db.invitations[id].(status := status)]), id))
  {
    var marked := db.(invitations := db.invitations[id := db.invitations[id].(status := status)]);
    ClosingKeepsSafe(marked, id, Cancelled);
  }

  lemma OpeningKeepsSafe(db: Db, inv: Invitation)
    requires MembersSafe(db) && inv.partnership == |db.partnerships|
    requires OneMembershipPerUser(Opened(db, inv).members)
    ensures MembersSafe(Opened(db, inv))
  {
    var p, after := |db.partnerships|, Opened(db, inv);
    forall q | 0 <= q <= p ensures MembersFit(after.partnerships[q], ActiveUsers(after.members, q)) {
      ActiveUsersAdd(db.members, p, inv.inviter, q);
    }
  }

  lemma JoiningKeepsSafe(db: Db, id: nat, user: int)
    requires MembersSafe(db) && id < |db.invitations| && db.partnerships[id] == Pending && !HasAnyMembership(db, user)
    ensures MembersSafe(Db(db.partnerships[id := Active], db.members[(id, user) := Joined],
                    db.invitations[id := db.invitations[id].(status := Accepted)]))
  {
    var members := db.members[(id, user) := Joined];
    forall q | 0 <= q < |db.partnerships| ensures MembersFit(db.partnerships[id := Active][q], ActiveUsers(members, q)) {
      ActiveUsersAdd(db.members, id, user, q);
      if q == id {
        ActiveUserIff(db.members, id, user);
        assert user !in ActiveUsers(db.members, id);
      }
    }
  }

  // Every transaction keeps the membership rules, whatever its caller's copy of the invitation says.
  lemma TransactionKeepsSafe(db: Db, a: Action, accounts: Accounts)
    requires MembersSafe(db)
    ensures MembersSafe(Transact(db, a, accounts).db)
    ensures StatusesForward(db.partnerships, Transact(db, a, accounts).db.partnerships)
  {
    hide MembersSafe, Constraints, ActiveUsers, AllLeave, HasAnyMembership, HasMembershipIn, OneMembershipPerUser;
    match a
    case DoCreate(inviter, email, now) => CreateKeepsSafe(db, inviter, email, now, accounts);
    case DoResend(id, seen, actor, now) => ResendKeepsSafe(db, id, seen, actor, now);
    case DoRevoke(id, seen, actor) => RevokeKeepsSafe(db, id, seen, actor);
    case DoMarkExpired(id, now) => ExpireKeepsSafe(db, id, now);
    case DoCommitAccept(id, user) => AcceptKeepsSafe(db, id, user);
    case DoReject(id, user) => RejectKeepsSafe(db, id, user, accounts);
    case DoEnd(p, actor) => EndKeepsSafe(db, p, actor);
  }

  lemma ResendKeepsSafe(db: Db, id: nat, seen: InvitationStatus, actor: int, now: int)
    requires MembersSafe(db)
    ensures MembersSafe(Resend(db, id, seen, actor, now).db) && Resend(db, id, seen, actor, now).db.partnerships == db.partnerships
  {
  }

  // Creating is turned away, reissues the invitation already sent, or opens a partnership.
  lemma CreateCases(db: Db, inviter: int, email: string, now: int, accounts: Accounts)
    ensures var t, existing := Create(db, inviter, email, now, accounts), FindSent(db.invitations, inviter, email);
      || (t.db == db && t.result.Err? && t.result.error != Integrity)
      || (existing.Some? && t == Resend(db, existing.value, Sent, inviter, now))
      || (!HasMembershipIn(db, inviter, Active) && !HasMembershipIn(db, inviter, Pending)
          && t == CommitIf(db, Opened(db, NewInvitation(db, inviter, email, now, accounts)), |db.invitations|))
  {
    hide Resend, FindSent, HasMembershipIn, CommitIf, Opened;
  }

  lemma CreateKeepsSafe(db: Db, inviter: int, email: string, now: int, accounts: Accounts)
    requires MembersSafe(db)
    ensures var after := Create(db, inviter, email, now, accounts).db;
      MembersSafe(after) && StatusesForward(db.partnerships, after.partnerships)
  {
    hide Create, Resend, FindSent, HasMembershipIn, MembersSafe, Opened, SentOnce, OneMembershipPerUser;
    CreateCases(db, inviter, email, now, accounts);
    var existing, inv := FindSent(db.invitations, inviter, email), NewInvitation(db, inviter, email, now, accounts);
    if existing.Some? {
      ResendKeepsSafe(db, existing.value, Sent, inviter, now);
    }
    if OneMembershipPerUser(Opened(db, inv).members) {
      OpeningKeepsSafe(db, inv);
    }
    OpenedForward(db, inv);
  }

  lemma OpenedForward(db: Db, inv: Invitation)
    ensures StatusesForward(db.partnerships, Opened(db, inv).partnerships) && StatusesForward(db.partnerships, db.partnerships)
  {
  }

  lemma RevokeKeepsSafe(db: Db, id: nat, seen: InvitationStatus, actor: int)
    requires MembersSafe(db)
    ensures var after := Revoke(db, id, seen, actor).db;
      MembersSafe(after) && StatusesForward(db.partnerships, after.partnerships)
  {
    hide ActiveUsers, AllLeave, Constraints;
    if id < |db.invitations| {
      CancellingKeepsSafe(db, id, Revoked);
    }
  }

  lemma RejectKeepsSafe(db: Db, id: nat, user: int, accounts: Accounts)
    requires MembersSafe(db)
    ensures var after := Reject(db, id, user, accounts).db;
      MembersSafe(after) && StatusesForward(db.partnerships, after.partnerships)
  {
    hide ActiveUsers, AllLeave, Constraints;
    if id < |db.invitations| {
      CancellingKeepsSafe(db, id, Rejected);
    }
  }

  lemma ExpireKeepsSafe(db: Db, id: nat, now: int)
    requires MembersSafe(db)
    ensures MembersSafe(MarkExpired(db, id, now).db) && MarkExpired(db, id, now).db.partnerships == db.partnerships
  {
  }

  lemma AcceptKeepsSafe(db: Db, id: nat, user: int)
    requires MembersSafe(db)
    ensures var after := CommitAccept(db, id, user).db;
      MembersSafe(after) && StatusesForward(db.partnerships, after.partnerships)
  {
    hide ActiveUsers, HasAnyMembership, MembersFit;
    if id < |db.invitations| && db.partnerships[id] == Pending && !HasAnyMembership(db, user) {
      JoiningKeepsSafe(db, id, user);
    }
  }

  lemma EndKeepsSafe(db: Db, p: nat, actor: int)
    requires MembersSafe(db)
    ensures var after := End(db, p, actor).db;
      MembersSafe(after) && StatusesForward(db.partnerships, after.partnerships)
  {
    hide ActiveUsers, AllLeave, Constraints;
    if p < |db.partnerships| {
      ClosingKeepsSafe(db, p, Ended);
    }
  }

  // Membership safety: in every interleaving, from any safe state, with any out-of-date copies.
  lemma {:induction false} EveryInterleavingIsSafe(db: Db, actions: seq<Action>, accounts: Accounts)
    requires MembersSafe(db)
    ensures MembersSafe(TransactAll(db, actions, accounts))
    ensures StatusesForward(db.partnerships, TransactAll(db, actions, accounts).partnerships)
  {
    if actions != [] {
      var mid := TransactAll(db, actions[..|actions| - 1], accounts);
      EveryInterleavingIsSafe(db, actions[..|actions| - 1], accounts);
      TransactionKeepsSafe(mid, actions[|actions| - 1], accounts);
    }
  }

  // The same said outright, from an empty database.
  lemma MembershipSafety(actions: seq<Action>, accounts: Accounts, p: nat, user: int)
    requires p < |TransactAll(EMPTY_DB, actions, accounts).partnerships|
    ensures var db := TransactAll(EMPTY_DB, actions, accounts);
      var users := ActiveUsers(db.members, p);
      && (db.partnerships[p] == Pending ==> |users| == 1)
      && (db.partnerships[p] == Active ==> |users| == 2)
      && (db.partnerships[p] == Ended || db.partnerships[p] == Cancelled ==> users == {})
      && (user in users ==> forall q: nat :: user in ActiveUsers(db.members, q) ==> q == p)
  {
    EveryInterleavingIsSafe(EMPTY_DB, actions, accounts);
    var db := TransactAll(EMPTY_DB, actions, accounts);
    if user in ActiveUsers(db.members, p) {
      forall q: nat | user in ActiveUsers(db.members, q) ensures q == p {
        ActiveUserIff(db.members, p, user);
        ActiveUserIff(db.members, q, user);
        assert (p, user) == (q, user);
      }
    }
  }

  // ---- invitation and partnership agree ----

  predicate Matches(p: PartnershipStatus, i: InvitationStatus) {
    && (p == Pending <==> i == Sent || i == Expired)
    && (p == Active || p == Ended <==> i == Accepted)
    && (p == Cancelled <==> i == Revoked || i == Rejected)
  }

  // Each invitation says what its partnership says, and a pending one's inviter is in it.
  ghost predicate InvitationsInStep(db: Db) {
    && MembersSafe(db)
    && (forall i :: 0 <= i < |db.invitations| ==> Matches(db.partnerships[i], db.invitations[i].status))
    && (forall i :: 0 <= i < |db.invitations| && db.partnerships[i] == Pending ==>
         IsMember(db.members, i, db.invitations[i].inviter))
    && (forall k :: k in db.members && db.partnerships[k.0] == Pending ==> db.members[k] == Joined)
  }

  // Resend and revoke read the invitation inside their transaction.
  predicate ReadsFresh(db: Db, a: Action) {
    match a
    case DoResend(id, seen, _, _) => id < |db.invitations| ==> seen == db.invitations[id].status
    case DoRevoke(id, seen, _) => id < |db.invitations| ==> seen == db.invitations[id].status
    case _ => true
  }

  predicate FreshRun(db: Db, actions: seq<Action>, accounts: Accounts) {
    actions != [] ==>
      && FreshRun(db, actions[..|actions| - 1], accounts)
      && ReadsFresh(TransactAll(db, actions[..|actions| - 1], accounts), actions[|actions| - 1])
  }

  // So a database in step violates none of its constraints.
  lemma InStepMeetsConstraints(db: Db)
    requires InvitationsInStep(db)
    ensures Constraints(db)
  {
    forall i, j | 0 <= i < j < |db.invitations| && db.invitations[i].status == Sent && db.invitations[j].status == Sent
      ensures db.invitations[i].inviter != db.invitations[j].inviter
    {
    }
  }

  // Whoever has no active and no pending partnership has no active membership at all.
  lemma FreeToInvite(db: Db, user: int)
    requires MembersSafe(db) && !HasMembershipIn(db, user, Active) && !HasMembershipIn(db, user, Pending)
    ensures OneMembershipPerUser(db.members[(|db.partnerships|, user) := Joined])
  {
    forall k | k in db.members && k.1 == user ensures db.members[k] != Joined {
      var p := k.0;
      assert k == (p, user);
      ActiveUserIff(db.members, p, user);
      assert MembersFit(db.partnerships[p], ActiveUsers(db.members, p));
    }
  }

  lemma MarkedInStep(db: Db, id: nat, inv: Invitation)
    requires InvitationsInStep(db) && id < |db.invitations|
    requires inv.partnership == id && inv.inviter == db.invitations[id].inviter
    ensures InvitationsInStep(db.(invitations := db.invitations[id := inv])) <==> Matches(db.partnerships[id], inv.status)
  {
    var after := db.invitations[id := inv];
    assert forall i :: 0 <= i < |after| && i != id ==> after[i] == db.invitations[i];
    assert after[id] == inv;
  }

  lemma ResendInStep(db: Db, id: nat, seen: InvitationStatus, actor: int, now: int)
    requires InvitationsInStep(db) && id < |db.invitations| && db.invitations[id].status in {Sent, Expired}
    ensures InvitationsInStep(Resend(db, id, seen, actor, now).db) && Resend(db, id, seen, actor, now).result != Err(Integrity)
  {
    var after := db.(invitations := db.invitations[id := Reissued(db.invitations[id], now)]);
    assert Matches(db.partnerships[id], db.invitations[id].status);
    MarkedInStep(db, id, Reissued(db.invitations[id], now));
    InStepMeetsConstraints(after);
  }

  lemma ExpireInStep(db: Db, id: nat, now: int)
    requires InvitationsInStep(db)
    ensures InvitationsInStep(MarkExpired(db, id, now).db) && MarkExpired(db, id, now).result != Err(Integrity)
  {
    if id < |db.invitations| && db.invitations[id].status == Sent {
      var inv := db.invitations[id].(status := Expired);
      assert Matches(db.partnerships[id], db.invitations[id].status);
      MarkedInStep(db, id, inv);
      InStepMeetsConstraints(db.(invitations := db.invitations[id := inv]));
    }
  }

  // Leaving one partnership does not take anybody out of another.
  lemma OthersStay(members: map<(nat, int), MemberStatus>, p: nat, q: nat, user: int)
    requires p != q
    ensures IsMember(AllLeave(members, p), q, user) <==> IsMember(members, q, user)
  {
  }

  lemma ClosedInStep(db: Db, id: nat, p: PartnershipStatus, status: InvitationStatus)
    requires InvitationsInStep(db) && id < |db.invitations| && (p == Cancelled || p == Ended) && Matches(p, status)
    ensures InvitationsInStep(Db(db.partnerships[id := p], AllLeave(db.members, id), db.invitations[id := db.invitations[id].(status := status)]))
  {
    var invs := db.invitations[id := db.invitations[id].(status := status)];
    ClosingKeepsSafe(db.(invitations := invs), id, p);
    forall i | 0 <= i < |invs| ensures Matches(db.partnerships[id := p][i], invs[i].status)
      && (db.partnerships[id := p][i] == Pending ==> IsMember(AllLeave(db.members, id), i, invs[i].inviter))
    {
      if i != id {
        OthersStay(db.members, id, i, invs[i].inviter);
      }
    }
  }

  // Cancelling together with its invitation, unless the invitation had been accepted.
  lemma CancelledInStep(db: Db, id: nat, status: InvitationStatus)
    requires InvitationsInStep(db) && id < |db.invitations| && (status == Revoked || status == Rejected)
    ensures var after := Cancel(db.(invitations := db.invitations[id := db.invitations[id].(status := status)]), id);
      InvitationsInStep(after) <==> db.invitations[id].status != Accepted
  {
    assert Matches(db.partnerships[id], db.invitations[id].status);
    if db.partnerships[id] == Pending {
      ClosedInStep(db, id, Cancelled, status);
    } else {
      MarkedInStep(db, id, db.invitations[id].(status := status));
    }
  }

  lemma RevokeInStep(db: Db, id: nat, actor: int)
    requires InvitationsInStep(db) && id < |db.invitations|
    ensures var t := Revoke(db, id, db.invitations[id].status, actor); InvitationsInStep(t.db) && t.result != Err(Integrity)
  {
    hide AllLeave, ActiveUsers;
    CancelledInStep(db, id, Revoked);
    var after := Cancel(db.(invitations := db.invitations[id := db.invitations[id].(status := Revoked)]), id);
    if db.invitations[id].status == Sent {
      InStepMeetsConstraints(after);
    }
  }

  lemma RejectInStep(db: Db, id: nat, user: int, accounts: Accounts)
    requires InvitationsInStep(db)
    ensures var t := Reject(db, id, user, accounts); InvitationsInStep(t.db) && t.result != Err(Integrity)
  {
    hide AllLeave, ActiveUsers;
    if id < |db.invitations| && db.invitations[id].status == Sent {
      CancelledInStep(db, id, Rejected);
      InStepMeetsConstraints(Cancel(db.(invitations := db.invitations[id := db.invitations[id].(status := Rejected)]), id));
    }
  }

  lemma EndInStep(db: Db, p: nat, actor: int)
    requires InvitationsInStep(db)
    ensures var t := End(db, p, actor); InvitationsInStep(t.db) && t.result != Err(Integrity)
  {
    hide AllLeave, ActiveUsers;
    if p < |db.partnerships| && db.partnerships[p] == Active {
      var inv := db.invitations[p];
      assert Matches(db.partnerships[p], inv.status);
      ClosedInStep(db, p, Ended, Accepted);
      assert db.invitations[p := inv.(status := Accepted)] == db.invitations;
      InStepMeetsConstraints(db.(partnerships := db.partnerships[p := Ended], members := AllLeave(db.members, p)));
    }
  }

  function Joining(db: Db, id: nat, user: int): Db
    requires id < |db.invitations| && id < |db.partnerships|
  {
    Db(db.partnerships[id := Active], db.members[(id, user) := Joined],
       db.invitations[id := db.invitations[id].(status := Accepted)])
  }

  lemma JoinedRows(db: Db, id: nat, user: int, i: nat)
    requires InvitationsInStep(db) && id < |db.invitations| && i < |db.invitations| && db.partnerships[id] == Pending
    ensures var after := Joining(db, id, user);
      && Matches(after.partnerships[i], after.invitations[i].status)
      && (after.partnerships[i] == Pending ==> IsMember(after.members, i, after.invitations[i].inviter))
  {
    if i != id {
      assert Joining(db, id, user).invitations[i] == db.invitations[i];
    }
  }

  lemma JoinedInStep(db: Db, id: nat, user: int)
    requires InvitationsInStep(db) && id < |db.invitations| && db.partnerships[id] == Pending && !HasAnyMembership(db, user)
    ensures InvitationsInStep(Joining(db, id, user))
  {
    JoiningKeepsSafe(db, id, user);
    forall i | 0 <= i < |db.invitations| ensures
      var after := Joining(db, id, user);
      && Matches(after.partnerships[i], after.invitations[i].status)
      && (after.partnerships[i] == Pending ==> IsMember(after.members, i, after.invitations[i].inviter))
    {
      JoinedRows(db, id, user, i);
    }
    assert MembersSafe(Joining(db, id, user));
    hide MembersSafe, Matches, IsMember, HasAnyMembership;
  }

  lemma AcceptInStep(db: Db, id: nat, user: int)
    requires InvitationsInStep(db)
    ensures InvitationsInStep(CommitAccept(db, id, user).db)
  {
    if id < |db.invitations| && CommitAccept(db, id, user).result.Ok? {
      JoinedInStep(db, id, user);
    }
  }

  lemma OpenedRows(db: Db, inv: Invitation, i: nat)
    requires InvitationsInStep(db) && i <= |db.invitations| && inv.status == Sent
    ensures var after := Opened(db, inv);
      && Matches(after.partnerships[i], after.invitations[i].status)
      && (after.partnerships[i] == Pending ==> IsMember(after.members, i, after.invitations[i].inviter))
  {
    var after := Opened(db, inv);
    if i < |db.invitations| {
      assert after.invitations[i] == db.invitations[i] && after.partnerships[i] == db.partnerships[i];
    }
  }

  lemma OpenedInStep(db: Db, inv: Invitation)
    requires InvitationsInStep(db) && inv.partnership == |db.partnerships| && inv.status == Sent
    requires OneMembershipPerUser(Opened(db, inv).members)
    ensures InvitationsInStep(Opened(db, inv))
  {
    OpeningKeepsSafe(db, inv);
    var after := Opened(db, inv);
    forall i | 0 <= i < |after.invitations| ensures Matches(after.partnerships[i], after.invitations[i].status)
      && (after.partnerships[i] == Pending ==> IsMember(after.members, i, after.invitations[i].inviter))
    {
      OpenedRows(db, inv, i);
    }
    hide Matches, IsMember, ActiveUsers, MembersFit, OneMembershipPerUser;
  }

  lemma CreateInStep(db: Db, inviter: int, email: string, now: int, accounts: Accounts)
    requires InvitationsInStep(db)
    ensures var t := Create(db, inviter, email, now, accounts); InvitationsInStep(t.db) && t.result != Err(Integrity)
  {
    CreateCases(db, inviter, email, now, accounts);
    var existing, inv := FindSent(db.invitations, inviter, email), NewInvitation(db, inviter, email, now, accounts);
    hide Create, Resend, FindSent, HasMembershipIn, Opened, Constraints;
    if existing.Some? {
      ResendInStep(db, existing.value, Sent, inviter, now);
    }
    if !HasMembershipIn(db, inviter, Active) && !HasMembershipIn(db, inviter, Pending) {
      FreeToInvite(db, inviter);
      OpenedMembers(db, inv);
      hide InvitationsInStep, MembersSafe, OneMembershipPerUser;
      OpenedInStep(db, inv);
      InStepMeetsConstraints(Opened(db, inv));
    }
  }

  lemma OpenedMembers(db: Db, inv: Invitation)
    ensures Opened(db, inv).members == db.members[(|db.partnerships|, inv.inviter) := Joined]
  {
  }

  // With fresh reads every transaction keeps invitation and partnership in step, and the uniqueness
  // constraint on sent invitations never fires.
  lemma TransactionKeepsStep(db: Db, a: Action, accounts: Accounts)
    requires InvitationsInStep(db) && ReadsFresh(db, a)
    ensures InvitationsInStep(Transact(db, a, accounts).db)
    ensures Transact(db, a, accounts).result != Err(Integrity)
  {
    hide Constraints, ActiveUsers, AllLeave, HasAnyMembership, HasMembershipIn, OneMembershipPerUser;
    match a
    case DoCreate(inviter, email, now) => CreateInStep(db, inviter, email, now, accounts);
    case DoResend(id, seen, actor, now) =>
      if id < |db.invitations| && seen in {Sent, Expired} {
        ResendInStep(db, id, seen, actor, now);
      }
    case DoRevoke(id, seen, actor) =>
      if id < |db.invitations| {
        RevokeInStep(db, id, actor);
      }
    case DoMarkExpired(id, now) => ExpireInStep(db, id, now);
    case DoCommitAccept(id, user) => AcceptInStep(db, id, user);
    case DoReject(id, user) => RejectInStep(db, id, user, accounts);
    case DoEnd(p, actor) => EndInStep(db, p, actor);
  }

  lemma {:induction false} FreshRunsStayInStep(db: Db, actions: seq<Action>, accounts: Accounts)
    requires InvitationsInStep(db) && FreshRun(db, actions, accounts)
    ensures InvitationsInStep(TransactAll(db, actions, accounts))
  {
    if actions != [] {
      FreshRunsStayInStep(db, actions[..|actions| - 1], accounts);
      TransactionKeepsStep(TransactAll(db, actions[..|actions| - 1], accounts), actions[|actions| - 1], accounts);
    }
  }

  // The agreement said outright, for every run with fresh reads from an empty database.
  lemma InvitationsAgree(actions: seq<Action>, accounts: Accounts, i: nat, j: nat)
    requires FreshRun(EMPTY_DB, actions, accounts)
    requires i < |TransactAll(EMPTY_DB, actions, accounts).invitations| && j < |TransactAll(EMPTY_DB, actions, accounts).invitations|
    ensures var db := TransactAll(EMPTY_DB, actions, accounts);
      && |db.partnerships| == |db.invitations|
      && (db.partnerships[i] == Pending <==> db.invitations[i].status in {Sent, Expired})
      && (db.partnerships[i] in {Active, Ended} <==> db.invitations[i].status == Accepted)
      && (db.partnerships[i] == Cancelled <==> db.invitations[i].status in {Revoked, Rejected})
      && (i != j && db.invitations[i].status in {Sent, Expired} && db.invitations[j].status in {Sent, Expired} ==>
           db.invitations[i].inviter != db.invitations[j].inviter)
  {
    FreshRunsStayInStep(EMPTY_DB, actions, accounts);
    var db := TransactAll(EMPTY_DB, actions, accounts);
    assert Matches(db.partnerships[i], db.invitations[i].status);
    if db.invitations[i].status in {Sent, Expired} && db.invitations[j].status in {Sent, Expired}
      && db.invitations[i].inviter == db.invitations[j].inviter
    {
    }
  }

  // Accepting with nothing in between goes through exactly for an invited user without a partnership,
  // on an invitation that is sent and not past its time.
  lemma AcceptSucceedsIff(db: Db, id: nat, user: int, now: int, accounts: Accounts)
    requires InvitationsInStep(db) && id < |db.invitations|
    ensures var first := MarkExpired(db, id, now).db;
      (CheckAccept(first, id, user, accounts).Ok? && CommitAccept(first, id, user).result.Ok?)
      <==>
      (db.invitations[id].status == Sent && now < db.invitations[id].expiresAt
        && IsInvitee(db.invitations[id], user, accounts) && !HasAnyMembership(db, user))
  {
    ExpireInStep(db, id, now);
    var first := MarkExpired(db, id, now).db;
    assert first.members == db.members;
    if first.invitations[id].status == Sent && !HasAnyMembership(db, user) {
      FreeToJoin(first, id, user);
    }
  }

  lemma FreeToJoin(db: Db, id: nat, user: int)
    requires InvitationsInStep(db) && id < |db.invitations| && db.invitations[id].status == Sent && !HasAnyMembership(db, user)
    ensures CommitAccept(db, id, user).result.Ok?
  {
    assert Matches(db.partnerships[id], db.invitations[id].status);
    assert MembersFit(db.partnerships[id], ActiveUsers(db.members, id));
    assert (id, user) !in db.members;
    var joined := Db(db.partnerships[id := Active], db.members[(id, user) := Joined],
                     db.invitations[id := db.invitations[id].(status := Accepted)]);
    JoinedInStep(db, id, user);
    InStepMeetsConstraints(joined);
  }

  // An invitation that was made is sent, to that email, for a week, from somebody who now holds the
  // only place in its pending partnership.
  lemma CreateMeansSent(db: Db, inviter: int, email: string, now: int, accounts: Accounts)
    requires InvitationsInStep(db) && Create(db, inviter, email, now, accounts).result.Ok?
    ensures var t := Create(db, inviter, email, now, accounts);
      var id := t.result.value;
      && id < |t.db.invitations| && IsSentTo(t.db.invitations[id], inviter, email)
      && t.db.invitations[id].expiresAt == now + INVITATION_LIFETIME_HOURS
      && t.db.partnerships[id] == Pending && ActiveUsers(t.db.members, id) == {inviter}
  {
    CreateInStep(db, inviter, email, now, accounts);
    var t := Create(db, inviter, email, now, accounts);
    var id := t.result.value;
    hide Create, FindSent, MembersSafe, ActiveUsers;
    assert Matches(t.db.partnerships[id], t.db.invitations[id].status);
    OwnerIsAlone(t.db, id);
  }

  lemma OwnerIsAlone(db: Db, id: nat)
    requires InvitationsInStep(db) && id < |db.invitations| && db.partnerships[id] == Pending
    ensures ActiveUsers(db.members, id) == {db.invitations[id].inviter}
  {
    var users, owner := ActiveUsers(db.members, id), db.invitations[id].inviter;
    ActiveUserIff(db.members, id, owner);
    assert MembersFit(db.partnerships[id], users);
    OneElement(users, owner);
  }

  lemma OneElement(s: set<int>, x: int)
    requires x in s && |s| == 1
    ensures s == {x}
  {
    assert |s - {x}| == 0;
  }

  // Whoever ends a partnership is free for another one at once.
  lemma EndFreesActor(db: Db, p: nat, actor: int)
    requires MembersSafe(db) && End(db, p, actor).result.Ok?
    ensures !HasAnyMembership(End(db, p, actor).db, actor)
  {
    var after := End(db, p, actor).db;
    forall k | k in after.members && k.1 == actor ensures after.members[k] != Joined {
      if k.0 != p {
        assert k == (k.0, actor) && IsMember(db.members, p, actor);
      }
    }
  }

  // What identifies an invitation never changes.
  ghost predicate SameIdentity(a: Invitation, b: Invitation) {
    a.partnership == b.partnership && a.inviter == b.inviter && a.email == b.email && a.invitee == b.invitee
  }

  lemma TransactionKeepsIdentity(db: Db, a: Action, accounts: Accounts, id: nat)
    requires id < |db.invitations|
    ensures var after := Transact(db, a, accounts).db;
      id < |after.invitations| && SameIdentity(db.invitations[id], after.invitations[id])
  {
    hide Constraints, HasMembershipIn, HasAnyMembership, ActiveUsers, AllLeave;
  }

  lemma {:induction false} RunsKeepIdentity(db: Db, actions: seq<Action>, accounts: Accounts, id: nat)
    requires id < |db.invitations|
    ensures var after := TransactAll(db, actions, accounts);
      id < |after.invitations| && SameIdentity(db.invitations[id], after.invitations[id])
  {
    if actions != [] {
      RunsKeepIdentity(db, actions[..|actions| - 1], accounts, id);
      TransactionKeepsIdentity(TransactAll(db, actions[..|actions| - 1], accounts), actions[|actions| - 1], accounts, id);
    }
  }

  // Working on an out-of-date copy, a resend that goes through keeps the agreement exactly when the
  // row itself is still sent or expired.
  lemma StaleResendIff(db: Db, id: nat, seen: InvitationStatus, actor: int, now: int)
    requires InvitationsInStep(db) && Resend(db, id, seen, actor, now).result.Ok?
    ensures InvitationsInStep(Resend(db, id, seen, actor, now).db) <==> db.invitations[id].status in {Sent, Expired}
  {
    assert Matches(db.partnerships[id], db.invitations[id].status);
    MarkedInStep(db, id, Reissued(db.invitations[id], now));
  }

  // And a revoke, exactly when the row has not been accepted.
  lemma StaleRevokeIff(db: Db, id: nat, seen: InvitationStatus, actor: int)
    requires InvitationsInStep(db) && Revoke(db, id, seen, actor).result.Ok?
    ensures InvitationsInStep(Revoke(db, id, seen, actor).db) <==> db.invitations[id].status != Accepted
  {
    hide AllLeave, ActiveUsers, Constraints;
    CancelledInStep(db, id, Revoked);
  }

  // A table with one accepted invitation, whose partnership is in the given state.
  function OneAccepted(status: PartnershipStatus, member: MemberStatus): Db {
    Db([status], map[(0, 1) := member, (0, 2) := member], [Invitation(0, 1, "b", Some(2), Accepted, 0)])
  }

  lemma OneAcceptedUsers(status: PartnershipStatus, member: MemberStatus)
    ensures ActiveUsers(OneAccepted(status, member).members, 0) == if member == Joined then {1, 2} else {}
  {
    var members := OneAccepted(status, member).members;
    forall u ensures u in ActiveUsers(members, 0) <==> member == Joined && u in {1, 2} {
      ActiveUserIff(members, 0, u);
    }
  }

  lemma OneAcceptedInStep(status: PartnershipStatus, member: MemberStatus)
    requires (status == Active && member == Joined) || (status == Ended && member == Left)
    ensures InvitationsInStep(OneAccepted(status, member))
  {
    OneAcceptedUsers(status, member);
    hide ActiveUsers;
    assert MembersFit(status, if member == Joined then {1, 2} else {});
  }

  // A case: a partnership was accepted and ended; a copy of the invitation read before that is resent.
  lemma StaleResendBreaks(now: int)
    ensures var db := OneAccepted(Ended, Left);
      var after := Resend(db, 0, Sent, 1, now);
      && InvitationsInStep(db) && after.result.Ok? && !InvitationsInStep(after.db)
      && after.db.partnerships[0] == Ended && after.db.invitations[0].status == Sent
  {
    OneAcceptedInStep(Ended, Left);
    assert !HasMembershipIn(OneAccepted(Ended, Left), 1, Active);
    hide InvitationsInStep;
    StaleResendIff(OneAccepted(Ended, Left), 0, Sent, 1, now);
  }

  // ---- what such a row goes on to do ----

  // A sent invitation to a partnership that is over.
  ghost predicate IsDead(db: Db, id: nat) {
    && MembersSafe(db) && SentOnce(db.invitations)
    && id < |db.invitations| && db.invitations[id].status == Sent && db.partnerships[id] in {Ended, Cancelled}
  }

  // What takes it out of the way: its inviter revokes it, whoever was invited turns it down, or its time runs out.
  predicate Releases(db: Db, id: nat, a: Action, accounts: Accounts)
    requires id < |db.invitations|
  {
    var inv := db.invitations[id];
    match a
    case DoRevoke(i, seen, actor) => i == id && seen == Sent && actor == inv.inviter
    case DoMarkExpired(i, now) => i == id && now >= inv.expiresAt
    case DoReject(i, user) => i == id && IsInvitee(inv, user, accounts)
    case _ => false
  }

  ghost predicate NothingReleases(db: Db, id: nat, actions: seq<Action>, accounts: Accounts) {
    actions != [] ==>
      && NothingReleases(db, id, actions[..|actions| - 1], accounts)
      && var mid := TransactAll(db, actions[..|actions| - 1], accounts);
         id < |mid.invitations| ==> !Releases(mid, id, actions[|actions| - 1], accounts)
  }

  lemma TransactionKeepsConstraints(db: Db, a: Action, accounts: Accounts)
    requires SentOnce(db.invitations)
    ensures SentOnce(Transact(db, a, accounts).db.invitations)
  {
    hide SentOnce, HasMembershipIn, HasAnyMembership, ActiveUsers, AllLeave, OneMembershipPerUser, FindSent;
  }

  // One sent invitation less violates nothing.
  lemma OneSentLess(invitations: seq<Invitation>, id: nat, status: InvitationStatus)
    requires SentOnce(invitations) && id < |invitations| && status != Sent
    ensures SentOnce(invitations[id := invitations[id].(status := status)])
  {
  }

  lemma OthersLeaveRow(db: Db, a: Action, accounts: Accounts, id: nat)
    requires IsDead(db, id)
    requires match a
      case DoCreate(_, _, _) => true
      case DoResend(_, _, _, _) => true
      case DoRevoke(i, _, _) => i != id
      case DoMarkExpired(i, _) => i != id
      case DoReject(i, _) => i != id
      case DoCommitAccept(_, _) => true
      case DoEnd(_, _) => true
    ensures var after := Transact(db, a, accounts).db; id < |after.invitations| && after.invitations[id].status == Sent
  {
    hide SentOnce, HasMembershipIn, HasAnyMembership, ActiveUsers, AllLeave, OneMembershipPerUser, MembersFit;
  }

  lemma ReleasedRow(db: Db, a: Action, accounts: Accounts, id: nat)
    requires IsDead(db, id)
    requires match a
      case DoRevoke(i, _, _) => i == id
      case DoMarkExpired(i, _) => i == id
      case DoReject(i, _) => i == id
      case _ => false
    ensures var after := Transact(db, a, accounts).db;
      && id < |after.invitations|
      && (after.invitations[id].status == Sent <==> !Releases(db, id, a, accounts))
  {
    OneSentLess(db.invitations, id, Revoked);
    OneSentLess(db.invitations, id, Expired);
    OneSentLess(db.invitations, id, Rejected);
    hide SentOnce, OneMembershipPerUser, AllLeave, ActiveUsers, MembersFit;
  }

  // It stays dead, and stays in the way exactly until one of these three.
  lemma DeadUntilReleased(db: Db, id: nat, a: Action, accounts: Accounts)
    requires IsDead(db, id)
    ensures IsDead(Transact(db, a, accounts).db, id) <==> !Releases(db, id, a, accounts)
  {
    TransactionKeepsSafe(db, a, accounts);
    TransactionKeepsConstraints(db, a, accounts);
    TransactionKeepsIdentity(db, a, accounts, id);
    hide Transact;
    if (a.DoRevoke? || a.DoMarkExpired? || a.DoReject?) && a.id == id {
      ReleasedRow(db, a, accounts, id);
    } else {
      OthersLeaveRow(db, a, accounts, id);
    }
    hide SentOnce;
  }

  // Nobody can accept it; its inviter, inviting the same address, only reissues it; and whoever has that
  // address cannot invite the inviter.
  lemma DeadInvitationBlocks(db: Db, id: nat, now: int, accounts: Accounts)
    requires IsDead(db, id)
    ensures forall user :: CommitAccept(db, id, user) == Txn(db, Err(NotUsable))
    ensures var inv := db.invitations[id];
      var t := Create(db, inv.inviter, inv.email, now, accounts);
      && t.db.partnerships == db.partnerships && t.db.members == db.members
      && (t.result.Ok? ==> t == Resend(db, id, Sent, inv.inviter, now))
    ensures var inv := db.invitations[id];
      forall other, email :: accounts.find(email) == Some(inv.inviter) && accounts.emailOf(other) == inv.email ==>
        var t := Create(db, other, email, now, accounts);
        && t.db == db && t.result.Err?
        && (email != "" && email != inv.email && !HasMembershipIn(db, other, Active) ==> t.result == Err(MutualInvitation))
  {
    var inv := db.invitations[id];
    hide HasMembershipIn;
    FindsIt(db.invitations, id);
    CreateCases(db, inv.inviter, inv.email, now, accounts);
    hide SentOnce, OneMembershipPerUser, FindSent, MembersFit, ActiveUsers;
    assert IsDead(db, id);
  }

  lemma FindsIt(invitations: seq<Invitation>, id: nat)
    requires SentOnce(invitations) && id < |invitations| && invitations[id].status == Sent
    ensures FindSent(invitations, invitations[id].inviter, invitations[id].email) == Some(id)
  {
    var inv, found := invitations[id], FindSent(invitations, invitations[id].inviter, invitations[id].email);
    hide FindSent;
    assert IsSentTo(invitations[id], inv.inviter, inv.email);
    assert found.Some? && IsSentTo(invitations[found.value], inv.inviter, inv.email);
  }

  // So over every run in which none of the three happens.
  lemma {:induction false} DeadInvitationStays(db: Db, id: nat, actions: seq<Action>, accounts: Accounts)
    requires IsDead(db, id) && NothingReleases(db, id, actions, accounts)
    ensures var end := TransactAll(db, actions, accounts);
      && IsDead(end, id) && SameIdentity(db.invitations[id], end.invitations[id])
      && forall user :: CommitAccept(end, id, user).result == Err(NotUsable)
  {
    hide IsDead, Transact, SameIdentity, CommitAccept, Releases;
    if actions != [] {
      var init := actions[..|actions| - 1];
      DeadInvitationStays(db, id, init, accounts);
      DeadHasRow(TransactAll(db, init, accounts), id);
      DeadUntilReleased(TransactAll(db, init, accounts), id, actions[|actions| - 1], accounts);
    }
    DeadHasRow(db, id);
    RunsKeepIdentity(db, actions, accounts, id);
    DeadInvitationBlocks(TransactAll(db, actions, accounts), id, 0, accounts);
  }

  lemma DeadHasRow(db: Db, id: nat)
    requires IsDead(db, id)
    ensures id < |db.invitations|
  {
  }

  // The case above is one.
  lemma StaleResendIsDead(now: int)
    ensures IsDead(Resend(OneAccepted(Ended, Left), 0, Sent, 1, now).db, 0)
  {
    StaleResendBreaks(now);
    OneAcceptedInStep(Ended, Left);
    hide InvitationsInStep, OneMembershipPerUser, HasMembershipIn, MembersSafe;
    TransactionKeepsSafe(OneAccepted(Ended, Left), DoResend(0, Sent, 1, now), Accounts(_ => "", _ => None));
  }

  // A case: a partnership was accepted; a copy of the invitation read before that is revoked.
  lemma StaleRevokeBreaks()
    ensures var db := OneAccepted(Active, Joined);
      var after := Revoke(db, 0, Sent, 1);
      && InvitationsInStep(db) && after.result.Ok? && !InvitationsInStep(after.db)
      && after.db.partnerships[0] == Active && after.db.invitations[0].status == Revoked
  {
    OneAcceptedInStep(Active, Joined);
    hide InvitationsInStep;
    StaleRevokeIff(OneAccepted(Active, Joined), 0, Sent, 1);
  }

  // ---- what each transaction does, and when it goes through ----

  ghost predicate Sound(db: Db) {
    MembersSafe(db) && SentOnce(db.invitations)
  }

  lemma {:induction false} EveryRunIsSound(db: Db, actions: seq<Action>, accounts: Accounts)
    requires Sound(db)
    ensures Sound(TransactAll(db, actions, accounts))
  {
    if actions != [] {
      hide MembersSafe, SentOnce, Transact;
      var init := actions[..|actions| - 1];
      EveryRunIsSound(db, init, accounts);
      TransactionKeepsSafe(TransactAll(db, init, accounts), actions[|actions| - 1], accounts);
      TransactionKeepsConstraints(TransactAll(db, init, accounts), actions[|actions| - 1], accounts);
    }
  }

  // Belonging to some partnership, or to one with the given status.
  ghost predicate Belongs(db: Db, user: int) {
    exists p: nat :: user in ActiveUsers(db.members, p)
  }

  ghost predicate BelongsTo(db: Db, user: int, status: PartnershipStatus) {
    exists p: nat :: p < |db.partnerships| && db.partnerships[p] == status && user in ActiveUsers(db.members, p)
  }

  // The queries over the tables find exactly that.
  lemma QueriesFind(db: Db, user: int, status: PartnershipStatus)
    ensures HasAnyMembership(db, user) <==> Belongs(db, user)
    ensures HasMembershipIn(db, user, status) <==> BelongsTo(db, user, status)
  {
    if HasAnyMembership(db, user) {
      var k :| k in db.members && k.1 == user && db.members[k] == Joined;
      assert k == (k.0, user);
      ActiveUserIff(db.members, k.0, user);
    }
    if Belongs(db, user) {
      var p: nat :| user in ActiveUsers(db.members, p);
      ActiveUserIff(db.members, p, user);
      assert (p, user).1 == user;
    }
    if HasMembershipIn(db, user, status) {
      var p :| 0 <= p < |db.partnerships| && db.partnerships[p] == status && IsMember(db.members, p, user);
      ActiveUserIff(db.members, p, user);
    }
    if BelongsTo(db, user, status) {
      var p: nat :| p < |db.partnerships| && db.partnerships[p] == status && user in ActiveUsers(db.members, p);
      ActiveUserIff(db.members, p, user);
    }
  }

  // One invitation has a new status, the others are as they were.
  predicate OnlyMarked(before: seq<Invitation>, after: seq<Invitation>, id: nat, status: InvitationStatus) {
    && |after| == |before|
    && (forall i :: 0 <= i < |before| && i != id ==> after[i] == before[i])
    && (id < |before| ==> after[id] == before[id].(status := status))
  }

  // One partnership is over with nobody in it, the others are as they were with everybody in them.
  ghost predicate OnlyClosed(before: Db, after: Db, p: nat, status: PartnershipStatus) {
    && |after.partnerships| == |before.partnerships|
    && (forall q :: 0 <= q < |before.partnerships| && q != p ==> after.partnerships[q] == before.partnerships[q])
    && (p < |before.partnerships| ==> after.partnerships[p] == status)
    && (forall q: nat :: ActiveUsers(after.members, q) == if q == p then {} else ActiveUsers(before.members, q))
  }

  lemma LeavingKeepsOne(members: map<(nat, int), MemberStatus>, p: nat)
    requires OneMembershipPerUser(members)
    ensures OneMembershipPerUser(AllLeave(members, p))
  {
  }

  lemma ClosesOnly(db: Db, p: nat, status: PartnershipStatus)
    requires p < |db.partnerships|
    ensures OnlyClosed(db, db.(partnerships := db.partnerships[p := status], members := AllLeave(db.members, p)), p, status)
  {
    hide AllLeave, ActiveUsers;
    forall q: nat ensures ActiveUsers(AllLeave(db.members, p), q) == if q == p then {} else ActiveUsers(db.members, q) {
      ActiveUsersLeave(db.members, p, q);
    }
  }

  // Marking an invitation and cancelling what is pending violates nothing.
  lemma CancelOutcome(db: Db, id: nat, status: InvitationStatus)
    requires Sound(db) && id < |db.invitations| && status != Sent
    ensures var after := Cancel(db.(invitations := db.invitations[id := db.invitations[id].(status := status)]), id);
      && Constraints(after) && OnlyMarked(db.invitations, after.invitations, id, status)
      && if db.partnerships[id] == Pending then OnlyClosed(db, after, id, Cancelled)
         else after.partnerships == db.partnerships && after.members == db.members
  {
    OneSentLess(db.invitations, id, status);
    LeavingKeepsOne(db.members, id);
    ClosesOnly(db, id, Cancelled);
    hide SentOnce, OneMembershipPerUser, AllLeave, ActiveUsers, MembersFit;
    var marked := db.(invitations := db.invitations[id := db.invitations[id].(status := status)]);
    assert OnlyClosed(db, marked.(partnerships := db.partnerships[id := Cancelled], members := AllLeave(db.members, id)), id, Cancelled);
  }

  // A rejection goes through exactly for an invited user on a sent invitation. The row is then rejected,
  // a pending partnership cancelled with nobody in it, and everything else as before.
  lemma RejectOutcome(db: Db, id: nat, user: int, accounts: Accounts)
    requires Sound(db)
    ensures var t := Reject(db, id, user, accounts);
      && (t.result.Ok? <==> id < |db.invitations| && db.invitations[id].status == Sent && IsInvitee(db.invitations[id], user, accounts))
      && (t.result.Err? ==> t.db == db)
      && (t.result.Ok? ==>
           && OnlyMarked(db.invitations, t.db.invitations, id, Rejected)
           && if db.partnerships[id] == Pending then OnlyClosed(db, t.db, id, Cancelled)
              else t.db.partnerships == db.partnerships && t.db.members == db.members)
  {
    hide SentOnce, Constraints, Cancel, OnlyMarked, OnlyClosed, MembersFit, ActiveUsers, OneMembershipPerUser;
    if id < |db.invitations| {
      CancelOutcome(db, id, Rejected);
    }
  }

  // A revoke, exactly for the inviter with a copy that says sent.
  lemma RevokeOutcome(db: Db, id: nat, seen: InvitationStatus, actor: int)
    requires Sound(db)
    ensures var t := Revoke(db, id, seen, actor);
      && (t.result.Ok? <==> id < |db.invitations| && db.invitations[id].inviter == actor && seen == Sent)
      && (t.result.Err? ==> t.db == db)
      && (t.result.Ok? ==>
           && OnlyMarked(db.invitations, t.db.invitations, id, Revoked)
           && if db.partnerships[id] == Pending then OnlyClosed(db, t.db, id, Cancelled)
              else t.db.partnerships == db.partnerships && t.db.members == db.members)
  {
    hide SentOnce, Constraints, Cancel, OnlyMarked, OnlyClosed, MembersFit, ActiveUsers, OneMembershipPerUser;
    if id < |db.invitations| {
      CancelOutcome(db, id, Revoked);
    }
  }

  // A resend, exactly for an inviter without an active partnership, with a copy that says sent or expired,
  // if no other sent invitation goes to that email. The row is then sent for a week.
  lemma ResendOutcome(db: Db, id: nat, seen: InvitationStatus, actor: int, now: int)
    requires Sound(db)
    ensures var t := Resend(db, id, seen, actor, now);
      && (t.result.Ok? <==>
           && id < |db.invitations| && db.invitations[id].inviter == actor && (seen == Sent || seen == Expired)
           && !BelongsTo(db, actor, Active)
           && forall i :: 0 <= i < |db.invitations| && i != id ==> !IsSentTo(db.invitations[i], actor, db.invitations[id].email))
      && t.db.partnerships == db.partnerships && t.db.members == db.members
      && (t.result.Err? ==> t.db == db)
      && (t.result.Ok? ==>
           && |t.db.invitations| == |db.invitations|
           && (forall i :: 0 <= i < |db.invitations| && i != id ==> t.db.invitations[i] == db.invitations[i])
           && t.db.invitations[id] == db.invitations[id].(status := Sent, expiresAt := now + 7 * 24))
  {
    QueriesFind(db, actor, Active);
    hide HasMembershipIn, BelongsTo, MembersFit, ActiveUsers, OneMembershipPerUser;
    if id < |db.invitations| {
      ReissuedOnce(db.invitations, id, now);
    }
  }

  lemma ReissuedOnce(invitations: seq<Invitation>, id: nat, now: int)
    requires SentOnce(invitations) && id < |invitations|
    requires forall i :: 0 <= i < |invitations| ==> invitations[i].partnership == i
    ensures SentOnce(invitations[id := Reissued(invitations[id], now)]) <==>
      forall i :: 0 <= i < |invitations| && i != id ==> !IsSentTo(invitations[i], invitations[id].inviter, invitations[id].email)
  {
    var after := invitations[id := Reissued(invitations[id], now)];
    if SentOnce(after) {
      forall i | 0 <= i < |invitations| && i != id ensures !IsSentTo(invitations[i], invitations[id].inviter, invitations[id].email) {
        assert after[i] == invitations[i] && after[id].status == Sent;
      }
    }
  }

  // An invitation becomes expired exactly when it is sent and its time has come; nothing else changes.
  lemma ExpireOutcome(db: Db, id: nat, now: int)
    requires Sound(db)
    ensures var t := MarkExpired(db, id, now);
      && t.result.Ok? && t.db.partnerships == db.partnerships && t.db.members == db.members
      && if id < |db.invitations| && db.invitations[id].status == Sent && db.invitations[id].expiresAt <= now
         then OnlyMarked(db.invitations, t.db.invitations, id, Expired) else t.db == db
  {
    hide SentOnce, OneMembershipPerUser, MembersFit, ActiveUsers;
    if id < |db.invitations| {
      OneSentLess(db.invitations, id, Expired);
    }
  }

  // Ending goes through exactly for an active member of an active partnership, which is then ended with
  // nobody in it; invitations and everything else stay.
  lemma EndOutcome(db: Db, p: nat, actor: int)
    requires Sound(db)
    ensures var t := End(db, p, actor);
      && (t.result.Ok? <==> p < |db.partnerships| && db.partnerships[p] == Active && actor in ActiveUsers(db.members, p))
      && (t.result.Err? ==> t.db == db)
      && (t.result.Ok? ==> t.db.invitations == db.invitations && OnlyClosed(db, t.db, p, Ended))
  {
    ActiveUserIff(db.members, p, actor);
    LeavingKeepsOne(db.members, p);
    hide SentOnce, OneMembershipPerUser, AllLeave, ActiveUsers, MembersFit, OnlyClosed;
    if p < |db.partnerships| {
      ClosesOnly(db, p, Ended);
    }
  }

  // Joining goes through exactly on a pending partnership, for a user who is in none and has never been in
  // this one. It is then active with the two in it, and the row accepted.
  lemma AcceptOutcome(db: Db, id: nat, user: int)
    requires Sound(db)
    ensures var t := CommitAccept(db, id, user);
      && (t.result.Ok? <==>
           id < |db.invitations| && db.partnerships[id] == Pending && !Belongs(db, user) && (id, user) !in db.members)
      && (t.result.Err? ==> t.db == db)
      && (t.result.Ok? ==>
           && OnlyMarked(db.invitations, t.db.invitations, id, Accepted)
           && |t.db.partnerships| == |db.partnerships| && t.db.partnerships[id] == Active
           && (forall q :: 0 <= q < |db.partnerships| && q != id ==> t.db.partnerships[q] == db.partnerships[q])
           && (forall q: nat :: ActiveUsers(t.db.members, q) == ActiveUsers(db.members, q) + if q == id then {user} else {}))
  {
    if id < |db.invitations| && db.partnerships[id] == Pending {
      assert MembersFit(db.partnerships[id], ActiveUsers(db.members, id));
      OneSentLess(db.invitations, id, Accepted);
      forall q: nat ensures ActiveUsers(db.members[(id, user) := Joined], q) == ActiveUsers(db.members, q) + if q == id then {user} else {} {
        ActiveUsersAdd(db.members, id, user, q);
      }
      if !HasAnyMembership(db, user) {
        JoiningKeepsOne(db.members, id, user);
      }
      QueriesFind(db, user, Active);
      hide SentOnce, OneMembershipPerUser, ActiveUsers, HasAnyMembership, Belongs, MembersSafe;
    }
  }

  lemma JoiningKeepsOne(members: map<(nat, int), MemberStatus>, p: nat, user: int)
    requires OneMembershipPerUser(members) && forall k :: k in members && k.1 == user ==> members[k] != Joined
    ensures OneMembershipPerUser(members[(p, user) := Joined])
  {
  }

  // Inviting goes through exactly for another person's email, by somebody without an active partnership who has not
  // been invited by that person, and who has either invited that email already or no pending partnership.
  lemma CreateOutcome(db: Db, inviter: int, email: string, now: int, accounts: Accounts)
    requires Sound(db)
    ensures var t, again, other := Create(db, inviter, email, now, accounts), FindSent(db.invitations, inviter, email), accounts.find(email);
      && (t.result.Ok? <==>
           && email != "" && accounts.emailOf(inviter) != email && !BelongsTo(db, inviter, Active)
           && !(other.Some? && FindSent(db.invitations, other.value, accounts.emailOf(inviter)).Some?)
           && (again.Some? || !BelongsTo(db, inviter, Pending)))
      && (t.result.Err? ==> t.db == db)
      && (t.result.Ok? && again.Some? ==> t == Resend(db, again.value, Sent, inviter, now))
      && (t.result.Ok? && again.None? ==>
           && t.db.partnerships == db.partnerships + [Pending]
           && t.db.invitations == db.invitations + [Invitation(|db.partnerships|, inviter, email, other, Sent, now + 7 * 24)]
           && forall q: nat :: ActiveUsers(t.db.members, q) == ActiveUsers(db.members, q) + if q == |db.partnerships| then {inviter} else {})
  {
    QueriesFind(db, inviter, Active);
    QueriesFind(db, inviter, Pending);
    hide HasMembershipIn, BelongsTo, ActiveUsers;
    var again := FindSent(db.invitations, inviter, email);
    if again.Some? {
      SentResends(db, again.value, inviter, now);
    } else {
      NewIsOnce(db, inviter, email, now, accounts);
    }
    forall q: nat ensures ActiveUsers(db.members[(|db.partnerships|, inviter) := Joined], q)
      == ActiveUsers(db.members, q) + if q == |db.partnerships| then {inviter} else {}
    {
      ActiveUsersAdd(db.members, |db.partnerships|, inviter, q);
    }
    hide SentOnce, OneMembershipPerUser, FindSent, Resend, MembersSafe;
  }

  lemma SentResends(db: Db, id: nat, inviter: int, now: int)
    requires Sound(db) && id < |db.invitations| && db.invitations[id].status == Sent && db.invitations[id].inviter == inviter
    ensures Resend(db, id, Sent, inviter, now).result.Ok? <==> !BelongsTo(db, inviter, Active)
    ensures Resend(db, id, Sent, inviter, now).result.Err? ==> Resend(db, id, Sent, inviter, now).db == db
  {
    ResendOutcome(db, id, Sent, inviter, now);
    assert forall i :: 0 <= i < |db.invitations| && i != id ==> !IsSentTo(db.invitations[i], inviter, db.invitations[id].email);
  }

  lemma NewIsOnce(db: Db, inviter: int, email: string, now: int, accounts: Accounts)
    requires Sound(db) && FindSent(db.invitations, inviter, email).None?
    ensures var after := Opened(db, NewInvitation(db, inviter, email, now, accounts));
      !HasMembershipIn(db, inviter, Active) && !HasMembershipIn(db, inviter, Pending) ==> Constraints(after)
  {
    var inv := NewInvitation(db, inviter, email, now, accounts);
    if !HasMembershipIn(db, inviter, Active) && !HasMembershipIn(db, inviter, Pending) {
      FreeToInvite(db, inviter);
    }
    hide HasMembershipIn, ActiveUsers, OneMembershipPerUser, FindSent;
    var invs := db.invitations + [inv];
    forall i, j | 0 <= i < j < |invs| && invs[i].status == Sent && invs[j].status == Sent
      ensures !(invs[i].inviter == invs[j].inviter && invs[i].email == invs[j].email)
      ensures !(invs[i].partnership == invs[j].partnership && invs[i].email == invs[j].email)
    {
      assert invs[i] == db.invitations[i];
      assert !IsSentTo(db.invitations[i], inviter, email);
    }
  }

  // Whoever the email leads to when the invitation is made, and whoever has it later, is invited, for good
  // and nobody else.
  lemma InvitedIff(db: Db, inviter: int, email: string, now: int, accounts: Accounts, actions: seq<Action>, user: int)
    requires Sound(db) && FindSent(db.invitations, inviter, email).None? && Create(db, inviter, email, now, accounts).result.Ok?
    ensures var end := TransactAll(Create(db, inviter, email, now, accounts).db, actions, accounts);
      && |db.invitations| < |end.invitations|
      && (IsInvitee(end.invitations[|db.invitations|], user, accounts) <==>
           accounts.find(email) == Some(user) || accounts.emailOf(user) == email)
  {
    CreateOutcome(db, inviter, email, now, accounts);
    RunsKeepIdentity(Create(db, inviter, email, now, accounts).db, actions, accounts, |db.invitations|);
    hide Create, BelongsTo, FindSent, ActiveUsers, Sound;
  }

  // ---- why a row stands where it stands ----

  // The transactions that give an invitation its status.
  ghost predicate Causes(db: Db, a: Action, accounts: Accounts, i: nat, status: InvitationStatus)
    requires i < |db.invitations| && i < |db.partnerships|
  {
    var inv := db.invitations[i];
    match status
    case Rejected => a.DoReject? && a.id == i && inv.status == Sent && IsInvitee(inv, a.user, accounts)
    case Revoked => a.DoRevoke? && a.id == i && a.actor == inv.inviter && a.seen == Sent
    case Expired => a.DoMarkExpired? && a.id == i && inv.status == Sent && inv.expiresAt <= a.now
    case Accepted =>
      a.DoCommitAccept? && a.id == i && db.partnerships[i] == Pending && !Belongs(db, a.user) && (i, a.user) !in db.members
    case Sent => (a.DoResend? && a.id == i && a.actor == inv.inviter) || (a.DoCreate? && a.inviter == inv.inviter && a.email == inv.email)
  }

  // A status is new only through its cause, and its cause always gives it, but for a resend.
  lemma NewStatusIff(db: Db, a: Action, accounts: Accounts, i: nat, status: InvitationStatus)
    requires Sound(db) && i < |db.invitations|
    ensures var after := Transact(db, a, accounts).db;
      && i < |after.invitations|
      && (after.invitations[i].status == status != db.invitations[i].status ==> Causes(db, a, accounts, i, status))
      && (status != Sent && Causes(db, a, accounts, i, status) ==> after.invitations[i].status == status)
  {
    hide Create, Resend, Revoke, MarkExpired, CommitAccept, Reject, End, OnlyClosed, FindSent, HasAnyMembership, HasMembershipIn, Belongs, BelongsTo, ActiveUsers, SentOnce, OneMembershipPerUser, MembersFit;
    match a
    case DoCreate(inviter, email, now) =>
      CreateOutcome(db, inviter, email, now, accounts);
      var again := FindSent(db.invitations, inviter, email);
      if again.Some? {
        ResendOutcome(db, again.value, Sent, inviter, now);
      }
    case DoResend(id, seen, actor, now) => ResendOutcome(db, id, seen, actor, now);
    case DoRevoke(id, seen, actor) => RevokeOutcome(db, id, seen, actor);
    case DoMarkExpired(id, now) => ExpireOutcome(db, id, now);
    case DoCommitAccept(id, user) => AcceptOutcome(db, id, user);
    case DoReject(id, user) => RejectOutcome(db, id, user, accounts);
    case DoEnd(p, actor) => EndOutcome(db, p, actor);
  }

  // So in every run an invitation is rejected, revoked, accepted or expired only because somebody entitled to it did so.
  lemma {:induction false} StatusHasCause(actions: seq<Action>, accounts: Accounts, i: nat)
    requires i < |TransactAll(EMPTY_DB, actions, accounts).invitations|
    requires TransactAll(EMPTY_DB, actions, accounts).invitations[i].status != Sent
    ensures var status := TransactAll(EMPTY_DB, actions, accounts).invitations[i].status;
      exists k :: 0 <= k < |actions| && CausedAt(actions, accounts, i, status, k)
  {
    var n := |actions| - 1;
    var init := actions[..n];
    var mid := TransactAll(EMPTY_DB, init, accounts);
    var status := TransactAll(EMPTY_DB, actions, accounts).invitations[i].status;
    EmptyIsSound();
    EveryRunIsSound(EMPTY_DB, init, accounts);
    hide Transact, Causes, Sound;
    SoundRows(mid);
    if i < |mid.invitations| && mid.invitations[i].status == status {
      StatusHasCause(init, accounts, i);
      var k :| 0 <= k < n && CausedAt(init, accounts, i, status, k);
      assert init[..k] == actions[..k];
      assert CausedAt(actions, accounts, i, status, k);
    } else {
      if i < |mid.invitations| {
        NewStatusIff(mid, actions[n], accounts, i, status);
      } else {
        NewRowIsSent(mid, actions[n], accounts, i);
      }
      assert CausedAt(actions, accounts, i, status, n);
    }
  }

  ghost predicate CausedAt(actions: seq<Action>, accounts: Accounts, i: nat, status: InvitationStatus, k: int)
    requires 0 <= k < |actions|
  {
    var db := TransactAll(EMPTY_DB, actions[..k], accounts);
    i < |db.invitations| && i < |db.partnerships| && Causes(db, actions[k], accounts, i, status)
  }

  lemma EmptyIsSound()
    ensures Sound(EMPTY_DB)
  {
  }

  lemma SoundRows(db: Db)
    requires Sound(db)
    ensures |db.invitations| == |db.partnerships|
  {
  }

  lemma NewRowIsSent(db: Db, a: Action, accounts: Accounts, i: nat)
    requires Sound(db) && |db.invitations| <= i < |Transact(db, a, accounts).db.invitations|
    ensures Transact(db, a, accounts).db.invitations[i].status == Sent
  {
    hide Sound, HasMembershipIn, HasAnyMembership, ActiveUsers, FindSent, SentOnce, OneMembershipPerUser, AllLeave;
  }

  // And a partnership changes its status only with the invitation to it, or because one of its members ends it.
  ghost predicate Moves(db: Db, a: Action, accounts: Accounts, p: nat, status: PartnershipStatus)
    requires p < |db.invitations| && p < |db.partnerships|
  {
    match status
    case Pending => false
    case Active => Causes(db, a, accounts, p, Accepted)
    case Cancelled => db.partnerships[p] == Pending && (Causes(db, a, accounts, p, Rejected) || Causes(db, a, accounts, p, Revoked))
    case Ended => a.DoEnd? && a.p == p && db.partnerships[p] == Active && a.actor in ActiveUsers(db.members, p)
  }

  lemma PartnershipMovesIff(db: Db, a: Action, accounts: Accounts, p: nat, status: PartnershipStatus)
    requires Sound(db) && p < |db.invitations| && status != db.partnerships[p]
    ensures var after := Transact(db, a, accounts).db;
      p < |after.partnerships| && (after.partnerships[p] == status <==> Moves(db, a, accounts, p, status))
  {
    hide Create, Resend, Revoke, MarkExpired, CommitAccept, Reject, End, OnlyMarked, FindSent, HasAnyMembership, HasMembershipIn, Belongs, BelongsTo, ActiveUsers, SentOnce, OneMembershipPerUser, MembersFit;
    match a
    case DoCreate(inviter, email, now) =>
      CreateOutcome(db, inviter, email, now, accounts);
      var again := FindSent(db.invitations, inviter, email);
      if again.Some? {
        ResendOutcome(db, again.value, Sent, inviter, now);
      }
    case DoResend(id, seen, actor, now) => ResendOutcome(db, id, seen, actor, now);
    case DoRevoke(id, seen, actor) => RevokeOutcome(db, id, seen, actor);
    case DoMarkExpired(id, now) => ExpireOutcome(db, id, now);
    case DoCommitAccept(id, user) => AcceptOutcome(db, id, user);
    case DoReject(id, user) => RejectOutcome(db, id, user, accounts);
    case DoEnd(q, actor) => EndOutcome(db, q, actor);
  }

  // ---- the service over its tables ----

  class Tables {
    const accounts: Accounts
    var partnerships: seq<PartnershipStatus>
    var members: map<(nat, int), MemberStatus>
    var invitations: seq<Invitation>

    function Value(): Db
      reads this
    {
      Db(partnerships, members, invitations)
    }

    constructor (accounts: Accounts)
      ensures this.accounts == accounts && Value() == EMPTY_DB
    {
      this.accounts := accounts;
      partnerships, members, invitations := [], map[], [];
    }

    // The end of a transaction: keep the changes, or go back to where it began.
    method Finish(before: Db, value: nat) returns (r: Result<nat, Refusal>)
      modifies this
      ensures Txn(Value(), r) == CommitIf(before, old(Value()), value)
    {
      if !Constraints(Value()) {
        partnerships, members, invitations := before.partnerships, before.members, before.invitations;
        return Err(Integrity);
      }
      return Ok(value);
    }

    method CancelIfPending(p: nat)
      requires p < |partnerships|
      modifies this
      ensures Value() == Cancel(old(Value()), p)
    {
      if partnerships[p] == Pending {
        partnerships := partnerships[p := Cancelled];
        members := AllLeave(members, p);
      }
    }

    method CreateInvitation(inviter: int, email: string, now: int) returns (r: Result<nat, Refusal>)
      modifies this
      ensures Txn(Value(), r) == Create(old(Value()), inviter, email, now, accounts)
    {
      if email == "" {
        return Err(InvalidEmail);
      }
      if accounts.emailOf(inviter) == email {
        return Err(SelfInvite);
      }
      if HasMembershipIn(Value(), inviter, Active) {
        return Err(AlreadyConnected);
      }
      var other := accounts.find(email);
      if other.Some? {
        var reverse := FindSent(invitations, other.value, accounts.emailOf(inviter));
        if reverse.Some? {
          return Err(MutualInvitation);
        }
      }
      var existing := FindSent(invitations, inviter, email);
      if existing.Some? {
        r := ResendInvitation(existing.value, Sent, inviter, now);
        return;
      }
      if HasMembershipIn(Value(), inviter, Pending) {
        return Err(PendingExists);
      }
      var before := Value();
      var p, id := |partnerships|, |invitations|;
      partnerships := partnerships + [Pending];
      members := members[(p, inviter) := Joined];
      invitations := invitations + [Invitation(p, inviter, email, other, Sent, now + INVITATION_LIFETIME_HOURS)];
      r := Finish(before, id);
    }

    method ResendInvitation(id: nat, seen: InvitationStatus, actor: int, now: int) returns (r: Result<nat, Refusal>)
      modifies this
      ensures Txn(Value(), r) == Resend(old(Value()), id, seen, actor, now)
    {
      if id >= |invitations| {
        return Err(NoSuchRow);
      }
      if invitations[id].inviter != actor {
        return Err(NotAuthorized);
      }
      if seen != Sent && seen != Expired {
        return Err(NotUsable);
      }
      if HasMembershipIn(Value(), actor, Active) {
        return Err(AlreadyConnected);
      }
      var before := Value();
      invitations := invitations[id := invitations[id].(status := Sent, expiresAt := now + INVITATION_LIFETIME_HOURS)];
      r := Finish(before, id);
    }

    method RevokeInvitation(id: nat, seen: InvitationStatus, actor: int) returns (r: Result<nat, Refusal>)
      modifies this
      ensures Txn(Value(), r) == Revoke(old(Value()), id, seen, actor)
    {
      if id >= |invitations| || invitations[id].partnership >= |partnerships| {
        return Err(NoSuchRow);
      }
      if invitations[id].inviter != actor {
        return Err(NotAuthorized);
      }
      if seen != Sent {
        return Err(NotUsable);
      }
      var before := Value();
      invitations := invitations[id := invitations[id].(status := Revoked)];
      CancelIfPending(invitations[id].partnership);
      r := Finish(before, id);
    }

    method MarkExpiredInvitation(id: nat, now: int) returns (r: Result<nat, Refusal>)
      modifies this
      ensures Txn(Value(), r) == MarkExpired(old(Value()), id, now)
    {
      if id >= |invitations| || invitations[id].status != Sent || now < invitations[id].expiresAt {
        return Ok(id);
      }
      var before := Value();
      invitations := invitations[id := invitations[id].(status := Expired)];
      r := Finish(before, id);
    }

    method CommitAcceptance(id: nat, user: int) returns (r: Result<nat, Refusal>)
      modifies this
      ensures Txn(Value(), r) == CommitAccept(old(Value()), id, user)
    {
      if id >= |invitations| || invitations[id].partnership >= |partnerships| {
        return Err(NoSuchRow);
      }
      var p := invitations[id].partnership;
      if partnerships[p] != Pending {
        return Err(NotUsable);
      }
      if HasAnyMembership(Value(), user) {
        return Err(AtCapacity);
      }
      if |ActiveUsers(members, p)| >= 2 {
        return Err(AtCapacity);
      }
      if (p, user) in members {
        return Err(AtCapacity);
      }
      var before := Value();
      members := members[(p, user) := Joined];
      partnerships := partnerships[p := Active];
      invitations := invitations[id := invitations[id].(status := Accepted)];
      r := Finish(before, p);
      if r.Err? {
        return Err(AtCapacity);
      }
    }

    // Accepting in its separate transactions, with whatever else commits in between.
    method AcceptInvitation(id: nat, user: int, now: int, between: seq<Action>, after: seq<Action>) returns (r: Result<nat, Refusal>)
      modifies this
      ensures var first := TransactAll(MarkExpired(old(Value()), id, now).db, between, accounts);
        var checked := CheckAccept(first, id, user, accounts);
        if checked.Err? then r == checked && Value() == first
        else Txn(Value(), r) == CommitAccept(TransactAll(first, after, accounts), id, user)
      ensures r.Ok? && id < |old(invitations)| ==> IsInvitee(old(invitations)[id], user, accounts)
    {
      if id < |invitations| {
        TransactionKeepsIdentity(Value(), DoMarkExpired(id, now), accounts, id);
        RunsKeepIdentity(MarkExpired(Value(), id, now).db, between, accounts, id);
      }
      var _ := MarkExpiredInvitation(id, now);
      PerformAll(between);
      if id >= |invitations| {
        return Err(NoSuchRow);
      }
      if invitations[id].status != Sent {
        return Err(NotUsable);
      }
      if !IsInvitee(invitations[id], user, accounts) {
        return Err(NotAuthorized);
      }
      PerformAll(after);
      r := CommitAcceptance(id, user);
    }

    method RejectInvitation(id: nat, user: int) returns (r: Result<nat, Refusal>)
      modifies this
      ensures Txn(Value(), r) == Reject(old(Value()), id, user, accounts)
    {
      if id >= |invitations| || invitations[id].partnership >= |partnerships| {
        return Err(NoSuchRow);
      }
      if invitations[id].status != Sent {
        return Err(NotUsable);
      }
      if !IsInvitee(invitations[id], user, accounts) {
        return Err(NotAuthorized);
      }
      var before := Value();
      invitations := invitations[id := invitations[id].(status := Rejected)];
      CancelIfPending(invitations[id].partnership);
      r := Finish(before, id);
    }

    method EndPartnership(p: nat, actor: int) returns (r: Result<nat, Refusal>)
      modifies this
      ensures Txn(Value(), r) == End(old(Value()), p, actor)
    {
      if p >= |partnerships| {
        return Err(NoSuchRow);
      }
      if partnerships[p] != Active {
        return Err(NotActive);
      }
      if !IsMember(members, p, actor) {
        return Err(NotAuthorized);
      }
      var before := Value();
      partnerships := partnerships[p := Ended];
      members := AllLeave(members, p);
      r := Finish(before, p);
    }

    method Perform(a: Action) returns (r: Result<nat, Refusal>)
      modifies this
      ensures Txn(Value(), r) == Transact(old(Value()), a, accounts)
    {
      match a {
        case DoCreate(inviter, email, now) => r := CreateInvitation(inviter, email, now);
        case DoResend(id, seen, actor, now) => r := ResendInvitation(id, seen, actor, now);
        case DoRevoke(id, seen, actor) => r := RevokeInvitation(id, seen, actor);
        case DoMarkExpired(id, now) => r := MarkExpiredInvitation(id, now);
        case DoCommitAccept(id, user) => r := CommitAcceptance(id, user);
        case DoReject(id, user) => r := RejectInvitation(id, user);
        case DoEnd(p, actor) => r := EndPartnership(p, actor);
      }
    }

    method PerformAll(actions: seq<Action>)
      modifies this
      ensures Value() == TransactAll(old(Value()), actions, accounts)
    {
      for i := 0 to |actions|
        invariant Value() == TransactAll(old(Value()), actions[..i], accounts)
      {
        assert actions[..i + 1][..i] == actions[..i];
        var _ := Perform(actions[i]);
      }
      assert actions[..|actions|] == actions;
    }
  }
}
