// The cache-backed limiter when the checks of one key overlap: each asks the cache several times, and
// the answers of different checks come in between one another.
module OverlappingChecks {
  import opened Prelude
  import opened RateLimits

  // What a check asks for next. `life` is when the counter was started that its first add ran into.
  datatype Phase = ToAdd | ToIncr(life: real) | ToReadd(life: real) | ToBlock

  // `life` is when the counter live at that time was started, `counted` whether it counted this one.
  datatype Grant = Grant(check: nat, time: real, life: real, counted: bool)

  // `straddling` has an entry for every life of the counter: the checks that had run into an earlier
  // counter and were still under way when this one was started.
  datatype Shared = Shared(counter: Option<Item>, block: Option<Item>, begun: set<nat>, inFlight: map<nat, Phase>,
                           grants: seq<Grant>, straddling: map<real, set<nat>>)

  const UNUSED := Shared(None, None, {}, map[], [], map[])

  function Waiting(inFlight: map<nat, Phase>): set<nat> {
    set c | c in inFlight && (inFlight[c].ToIncr? || inFlight[c].ToReadd?)
  }

  function Started(s: Shared, c: nat, now: real, p: Policy): Shared {
    var others := s.inFlight - {c};
    s.(counter := Some(Item(1, now + p.window)), inFlight := others, grants := s.grants + [Grant(c, now, now, true)],
       straddling := s.straddling[now := Waiting(others)])
  }

  // One answer of the cache to one check, which ends with it or goes on to its next question.
  function Answered(s: Shared, c: nat, now: real, p: Policy): Shared {
    if c !in s.begun then
      s.(begun := s.begun + {c}, inFlight := if Live(s.block, now) then s.inFlight else s.inFlight[c := ToAdd])
    else if c !in s.inFlight then s
    else
      match s.inFlight[c]
      case ToAdd =>
        if Live(s.counter, now) then s.(inFlight := s.inFlight[c := ToIncr(s.counter.value.expires - p.window)])
        else Started(s, c, now, p)
      case ToIncr(life) =>
        if !Live(s.counter, now) then s.(inFlight := s.inFlight[c := ToReadd(life)])
        else
          var item := s.counter.value;
          var counter := Some(Item(item.value + 1, item.expires));
          if item.value + 1 > p.limit then s.(counter := counter, inFlight := s.inFlight[c := ToBlock])
          else s.(counter := counter, inFlight := s.inFlight - {c},
                  grants := s.grants + [Grant(c, now, item.expires - p.window, true)])
      case ToReadd(_) =>
        if !Live(s.counter, now) then Started(s, c, now, p)
        else s.(inFlight := s.inFlight - {c}, grants := s.grants + [Grant(c, now, s.counter.value.expires - p.window, false)])
      case ToBlock => s.(inFlight := s.inFlight - {c}, block := Some(Item(1, now + p.cooldown)))
  }

  datatype Turn = Turn(check: nat, now: real)

  function AfterTurns(turns: seq<Turn>, p: Policy): Shared {
    if turns == [] then UNUSED
    else
      var last := turns[|turns| - 1];
      Answered(AfterTurns(turns[..|turns| - 1], p), last.check, last.now, p)
  }

  ghost predicate InOrder(turns: seq<Turn>) {
    forall k :: 0 < k < |turns| ==> turns[k - 1].now <= turns[k].now
  }

  // ---- who was granted in one life of the counter ----

  function Counted(grants: seq<Grant>, life: real): set<nat> {
    set g | g in grants && g.counted && g.life == life :: g.check
  }

  function Slipped(grants: seq<Grant>, life: real): set<nat> {
    set g | g in grants && !g.counted && g.life == life :: g.check
  }

  function GrantedIn(grants: seq<Grant>, life: real): set<nat> {
    set g | g in grants && g.life == life :: g.check
  }

  ghost predicate DistinctChecks(grants: seq<Grant>) {
    forall i, j :: 0 <= i < j < |grants| ==> grants[i].check != grants[j].check
  }

  lemma OneGrantMore(grants: seq<Grant>, g: Grant, life: real)
    ensures Counted(grants + [g], life) == Counted(grants, life) + if g.counted && g.life == life then {g.check} else {}
    ensures Slipped(grants + [g], life) == Slipped(grants, life) + if !g.counted && g.life == life then {g.check} else {}
  {
    assert forall x :: x in grants + [g] <==> x in grants || x == g;
  }

  // ---- the invariant ----

  ghost predicate GrantTrue(g: Grant, s: Shared, t: real, p: Policy) {
    && g.check in s.begun && g.check !in s.inFlight && g.life in s.straddling
    && g.life <= g.time < g.life + p.window && g.time <= t
  }

  // A check that ran into a counter knows the present one, or straddles its start.
  ghost predicate PhaseTrue(c: nat, phase: Phase, counter: Option<Item>, straddling: map<real, set<nat>>, t: real, p: Policy) {
    phase.ToIncr? || phase.ToReadd? ==>
      && counter.Some?
      && var start := counter.value.expires - p.window;
      && start in straddling && phase.life <= start && (phase.life == start || c in straddling[start])
      && (phase.ToReadd? && phase.life == start ==> counter.value.expires <= t)
  }

  ghost predicate LifeTrue(life: real, s: Shared, p: Policy)
    requires life in s.straddling
  {
    |Counted(s.grants, life)| <= p.limit && Slipped(s.grants, life) <= s.straddling[life]
  }

  ghost predicate CounterTrue(s: Shared, t: real, p: Policy) {
    if s.counter.None? then s.straddling == map[] && s.grants == []
    else
      var item := s.counter.value;
      var start := item.expires - p.window;
      && start in s.straddling && start <= t && item.value >= 1
      && |Counted(s.grants, start)| == Min(item.value, p.limit)
      && forall life :: life in s.straddling ==> life == start || life + p.window <= start
  }

  ghost predicate LivesApart(straddling: map<real, set<nat>>, window: real) {
    forall a, b :: a in straddling && b in straddling && a < b ==> a + window <= b
  }

  ghost predicate SharedTrue(s: Shared, t: real, p: Policy) {
    && s.inFlight.Keys <= s.begun
    && (forall g :: g in s.grants ==> GrantTrue(g, s, t, p))
    && DistinctChecks(s.grants)
    && CounterTrue(s, t, p) && LivesApart(s.straddling, p.window)
    && (forall life :: life in s.straddling ==> LifeTrue(life, s, p))
    && (forall c :: c in s.inFlight ==> PhaseTrue(c, s.inFlight[c], s.counter, s.straddling, t, p))
  }

  lemma LaterIsTrue(s: Shared, t: real, t': real, p: Policy)
    requires SharedTrue(s, t, p) && t <= t'
    ensures SharedTrue(s, t', p)
  {
    hide Counted, Slipped, DistinctChecks;
  }

  // Moving on within a check.
  lemma NextPhase(s: Shared, c: nat, phase: Phase, t: real, p: Policy)
    requires SharedTrue(s, t, p) && c in s.inFlight
    requires PhaseTrue(c, phase, s.counter, s.straddling, t, p)
    ensures SharedTrue(s.(inFlight := s.inFlight[c := phase]), t, p)
  {
    hide Counted, Slipped, DistinctChecks;
  }

  lemma Begins(s: Shared, c: nat, now: real, p: Policy)
    requires SharedTrue(s, now, p) && c !in s.begun
    ensures SharedTrue(Answered(s, c, now, p), now, p)
  {
    hide Counted, Slipped, DistinctChecks;
  }

  lemma Blocks(s: Shared, c: nat, block: Option<Item>, t: real, p: Policy)
    requires SharedTrue(s, t, p) && c in s.inFlight
    ensures SharedTrue(s.(inFlight := s.inFlight - {c}, block := block), t, p)
  {
    hide Counted, Slipped, DistinctChecks;
  }

  // The counter past its limit counts on, for nobody.
  lemma CountsOn(s: Shared, t: real, p: Policy)
    requires SharedTrue(s, t, p) && s.counter.Some? && s.counter.value.value >= p.limit
    ensures SharedTrue(s.(counter := Some(Item(s.counter.value.value + 1, s.counter.value.expires))), t, p)
  {
    hide Counted, Slipped, DistinctChecks;
    var s' := s.(counter := Some(Item(s.counter.value.value + 1, s.counter.value.expires)));
    forall c | c in s'.inFlight ensures PhaseTrue(c, s'.inFlight[c], s'.counter, s'.straddling, t, p) {
      assert PhaseTrue(c, s.inFlight[c], s.counter, s.straddling, t, p);
    }
  }

  lemma GrantsTrue(s: Shared, s': Shared, g: Grant, t: real, p: Policy)
    requires (forall x :: x in s.grants ==> GrantTrue(x, s, t, p)) && DistinctChecks(s.grants)
    requires s'.grants == s.grants + [g] && s'.begun == s.begun && s'.inFlight.Keys <= s.inFlight.Keys
    requires s.straddling.Keys <= s'.straddling.Keys && GrantTrue(g, s', t, p) && g.check in s.inFlight
    ensures (forall x :: x in s'.grants ==> GrantTrue(x, s', t, p)) && DistinctChecks(s'.grants)
    ensures forall life :: g.check !in Counted(s.grants, life) && g.check !in Slipped(s.grants, life)
  {
    assert forall i :: 0 <= i < |s.grants| ==> s.grants[i] in s.grants;
    forall x | x in s'.grants ensures GrantTrue(x, s', t, p) {
      assert x == g || x in s.grants;
    }
  }

  lemma PhasesStayTrue(s: Shared, c: nat, counter: Item, t: real, p: Policy)
    requires s.counter.Some? && counter.expires == s.counter.value.expires
    requires forall x :: x in s.inFlight ==> PhaseTrue(x, s.inFlight[x], s.counter, s.straddling, t, p)
    ensures forall x :: x in s.inFlight - {c} ==> PhaseTrue(x, (s.inFlight - {c})[x], Some(counter), s.straddling, t, p)
  {
    forall x | x in s.inFlight - {c} ensures PhaseTrue(x, (s.inFlight - {c})[x], Some(counter), s.straddling, t, p) {
      assert PhaseTrue(x, s.inFlight[x], s.counter, s.straddling, t, p);
    }
  }

  lemma LivesStayTrue(s: Shared, s': Shared, g: Grant, p: Policy)
    requires forall life :: life in s.straddling ==> LifeTrue(life, s, p)
    requires s'.grants == s.grants + [g] && s'.straddling == s.straddling && g.life in s.straddling
    requires g.counted ==> |Counted(s.grants, g.life)| + 1 <= p.limit
    requires !g.counted ==> g.check in s.straddling[g.life]
    ensures forall life :: life in s'.straddling ==> LifeTrue(life, s', p)
  {
    hide Counted, Slipped;
    forall life | life in s'.straddling ensures LifeTrue(life, s', p) {
      assert LifeTrue(life, s, p);
      OneGrantMore(s.grants, g, life);
    }
  }

  lemma CounterStaysTrue(s: Shared, s': Shared, g: Grant, t: real, p: Policy)
    requires CounterTrue(s, t, p) && s.counter.Some?
    requires s'.grants == s.grants + [g] && s'.straddling == s.straddling && g.life == s.counter.value.expires - p.window
    requires g.counted ==> g.check !in Counted(s.grants, g.life) && s.counter.value.value + 1 <= p.limit
    requires s'.counter == Some(Item(s.counter.value.value + if g.counted then 1 else 0, s.counter.value.expires))
    ensures CounterTrue(s', t, p)
  {
    OneGrantMore(s.grants, g, g.life);
    hide Counted, Slipped;
  }

  // What a live counter says.
  lemma LiveCounter(s: Shared, now: real, p: Policy)
    requires SharedTrue(s, now, p) && Live(s.counter, now)
    ensures var item := s.counter.value;
      var start := item.expires - p.window;
      start in s.straddling && start <= now < item.expires && |Counted(s.grants, start)| == Min(item.value, p.limit)
  {
    hide Counted, PhaseTrue, GrantTrue, LifeTrue, LivesApart, DistinctChecks;
  }

  // A grant the counter counts.
  lemma CountedGrant(s: Shared, c: nat, now: real, p: Policy)
    requires SharedTrue(s, now, p) && c in s.inFlight && Live(s.counter, now) && s.counter.value.value + 1 <= p.limit
    ensures var item := s.counter.value;
      SharedTrue(s.(counter := Some(Item(item.value + 1, item.expires)), inFlight := s.inFlight - {c},
                    grants := s.grants + [Grant(c, now, item.expires - p.window, true)]), now, p)
  {
    var item := s.counter.value;
    var g := Grant(c, now, item.expires - p.window, true);
    var s' := s.(counter := Some(Item(item.value + 1, item.expires)), inFlight := s.inFlight - {c}, grants := s.grants + [g]);
    LiveCounter(s, now, p);
    hide Counted, Slipped, PhaseTrue, DistinctChecks, LifeTrue, CounterTrue, LivesApart;
    GrantsTrue(s, s', g, now, p);
    hide GrantTrue;
    PhasesStayTrue(s, c, s'.counter.value, now, p);
    LivesStayTrue(s, s', g, p);
    CounterStaysTrue(s, s', g, now, p);
  }

  // A grant that slips through: only a check that straddles the start of this counter gets here.
  lemma SlippedGrant(s: Shared, c: nat, now: real, p: Policy)
    requires SharedTrue(s, now, p) && c in s.inFlight && s.inFlight[c].ToReadd? && Live(s.counter, now)
    ensures SharedTrue(s.(inFlight := s.inFlight - {c},
                          grants := s.grants + [Grant(c, now, s.counter.value.expires - p.window, false)]), now, p)
  {
    var g := Grant(c, now, s.counter.value.expires - p.window, false);
    var s' := s.(inFlight := s.inFlight - {c}, grants := s.grants + [g]);
    LiveCounter(s, now, p);
    assert PhaseTrue(c, s.inFlight[c], s.counter, s.straddling, now, p);
    hide Counted, Slipped, DistinctChecks, LifeTrue, CounterTrue, LivesApart;
    GrantsTrue(s, s', g, now, p);
    hide GrantTrue, PhaseTrue;
    PhasesStayTrue(s, c, s.counter.value, now, p);
    LivesStayTrue(s, s', g, p);
    CounterStaysTrue(s, s', g, now, p);
  }

  lemma NothingYet(s: Shared, now: real, t: real, p: Policy)
    requires (forall g :: g in s.grants ==> GrantTrue(g, s, t, p)) && now !in s.straddling
    ensures Counted(s.grants, now) == {} && Slipped(s.grants, now) == {}
  {
  }

  // A new life of the counter begins no sooner than the last one has run out.
  lemma NewLife(s: Shared, now: real, p: Policy)
    requires SharedTrue(s, now, p) && !Live(s.counter, now) && p.window > 0.0
    ensures now !in s.straddling && forall life :: life in s.straddling ==> life + p.window <= now
  {
    hide Counted, PhaseTrue, GrantTrue, LifeTrue, LivesApart, DistinctChecks;
  }

  lemma StartedCounter(s: Shared, c: nat, now: real, p: Policy)
    requires LivesApart(s.straddling, p.window) && p.limit >= 1 && p.window > 0.0
    requires now !in s.straddling && forall life :: life in s.straddling ==> life + p.window <= now
    requires Counted(s.grants, now) == {}
    ensures CounterTrue(Started(s, c, now, p), now, p) && LivesApart(Started(s, c, now, p).straddling, p.window)
  {
    OneGrantMore(s.grants, Grant(c, now, now, true), now);
    hide Counted, Slipped, Waiting;
  }

  lemma StartedLives(s: Shared, c: nat, now: real, p: Policy)
    requires forall life :: life in s.straddling ==> LifeTrue(life, s, p)
    requires p.limit >= 1 && now !in s.straddling && Counted(s.grants, now) == {} && Slipped(s.grants, now) == {}
    ensures var s' := Started(s, c, now, p); forall life :: life in s'.straddling ==> LifeTrue(life, s', p)
  {
    hide Counted, Slipped, Waiting;
    var s' := Started(s, c, now, p);
    forall life | life in s'.straddling ensures LifeTrue(life, s', p) {
      OneGrantMore(s.grants, Grant(c, now, now, true), life);
      if life != now {
        assert LifeTrue(life, s, p);
      }
    }
  }

  lemma StartedPhases(s: Shared, c: nat, now: real, p: Policy)
    requires forall x :: x in s.inFlight ==> PhaseTrue(x, s.inFlight[x], s.counter, s.straddling, now, p)
    requires !Live(s.counter, now) && p.window > 0.0
    ensures var s' := Started(s, c, now, p);
      forall x :: x in s'.inFlight ==> PhaseTrue(x, s'.inFlight[x], s'.counter, s'.straddling, now, p)
  {
    var s' := Started(s, c, now, p);
    forall x | x in s'.inFlight ensures PhaseTrue(x, s'.inFlight[x], s'.counter, s'.straddling, now, p) {
      assert s'.straddling[now] == Waiting(s'.inFlight);
      assert PhaseTrue(x, s.inFlight[x], s.counter, s.straddling, now, p);
    }
  }

  // A check that starts a new life of the counter.
  lemma StartedGrant(s: Shared, c: nat, now: real, p: Policy)
    requires SharedTrue(s, now, p) && c in s.inFlight && !Live(s.counter, now) && p.limit >= 1 && p.window > 0.0
    ensures SharedTrue(Started(s, c, now, p), now, p)
  {
    NewLife(s, now, p);
    NothingYet(s, now, now, p);
    StartedPhases(s, c, now, p);
    hide Counted, Slipped, DistinctChecks, LivesApart, CounterTrue, PhaseTrue, LifeTrue, Waiting;
    GrantsTrue(s, Started(s, c, now, p), Grant(c, now, now, true), now, p);
    StartedCounter(s, c, now, p);
    StartedLives(s, c, now, p);
  }

  lemma AnswerKeepsTrue(s: Shared, c: nat, now: real, p: Policy)
    requires SharedTrue(s, now, p) && p.limit >= 1 && p.window > 0.0
    ensures SharedTrue(Answered(s, c, now, p), now, p)
  {
    if c !in s.begun {
      Begins(s, c, now, p);
    } else if c in s.inFlight {
      hide Counted, Slipped, DistinctChecks, GrantTrue, LifeTrue;
      assert PhaseTrue(c, s.inFlight[c], s.counter, s.straddling, now, p);
      match s.inFlight[c]
      case ToAdd =>
        if Live(s.counter, now) {
          NextPhase(s, c, ToIncr(s.counter.value.expires - p.window), now, p);
        } else {
          StartedGrant(s, c, now, p);
        }
      case ToIncr(life) =>
        if !Live(s.counter, now) {
          NextPhase(s, c, ToReadd(life), now, p);
        } else if s.counter.value.value + 1 > p.limit {
          CountsOn(s, now, p);
          NextPhase(s.(counter := Some(Item(s.counter.value.value + 1, s.counter.value.expires))), c, ToBlock, now, p);
        } else {
          CountedGrant(s, c, now, p);
        }
      case ToReadd(_) =>
        if Live(s.counter, now) {
          SlippedGrant(s, c, now, p);
        } else {
          StartedGrant(s, c, now, p);
        }
      case ToBlock => Blocks(s, c, Some(Item(1, now + p.cooldown)), now, p);
    }
  }

  lemma {:induction false} EveryOverlapIsTrue(turns: seq<Turn>, p: Policy)
    requires InOrder(turns) && p.limit >= 1 && p.window > 0.0
    ensures SharedTrue(AfterTurns(turns, p), if turns == [] then 0.0 else turns[|turns| - 1].now, p)
  {
    if turns != [] {
      hide SharedTrue, Answered;
      var init, last := turns[..|turns| - 1], turns[|turns| - 1];
      EveryOverlapIsTrue(init, p);
      var s := AfterTurns(init, p);
      if init == [] {
        UnusedIsTrue(last.now, p);
      } else {
        LaterIsTrue(s, init[|init| - 1].now, last.now, p);
      }
      AnswerKeepsTrue(s, last.check, last.now, p);
    } else {
      UnusedIsTrue(0.0, p);
    }
  }

  lemma UnusedIsTrue(t: real, p: Policy)
    ensures SharedTrue(UNUSED, t, p)
  {
  }

  // ---- the bounds ----

  lemma GrantedSplits(grants: seq<Grant>, life: real)
    ensures GrantedIn(grants, life) == Counted(grants, life) + Slipped(grants, life)
  {
  }

  lemma {:induction false} SubsetSize(a: set<nat>, b: set<nat>)
    requires a <= b
    ensures |a| <= |b|
  {
    assert b == a + (b - a);
  }

  // In every order of their answers, the checks granted in one life of the counter are at most `limit`
  // that it counted, and some of those that straddle its start.
  lemma LimitPlusStraddlers(turns: seq<Turn>, p: Policy, life: real)
    requires InOrder(turns) && p.limit >= 1 && p.window > 0.0
    requires life in AfterTurns(turns, p).straddling
    ensures var s := AfterTurns(turns, p);
      && |Counted(s.grants, life)| <= p.limit && Slipped(s.grants, life) <= s.straddling[life]
      && |GrantedIn(s.grants, life)| <= p.limit + |s.straddling[life]|
  {
    EveryOverlapIsTrue(turns, p);
    var s := AfterTurns(turns, p);
    assert LifeTrue(life, s, p);
    GrantedSplits(s.grants, life);
    SubsetSize(Slipped(s.grants, life), s.straddling[life]);
    hide Counted, Slipped, GrantedIn, AfterTurns, SharedTrue;
    var all := Counted(s.grants, life) + Slipped(s.grants, life);
    assert |all| <= |Counted(s.grants, life)| + |Slipped(s.grants, life)|;
  }

  // The checks granted in a span of `window` seconds, ends included.
  function GrantedFrom(grants: seq<Grant>, from: real, window: real): set<nat> {
    set g | g in grants && from <= g.time <= from + window :: g.check
  }

  // Such a span meets at most two lives.
  lemma TwoLives(s: Shared, t: real, from: real, p: Policy) returns (a: real, b: real)
    requires SharedTrue(s, t, p) && p.window > 0.0
    ensures GrantedFrom(s.grants, from, p.window) <= GrantedIn(s.grants, a) + GrantedIn(s.grants, b)
    ensures GrantedFrom(s.grants, from, p.window) != {} ==> a in s.straddling && b in s.straddling
  {
    a, b := 0.0, 0.0;
    if g :| g in s.grants && from <= g.time <= from + p.window {
      assert GrantTrue(g, s, t, p);
      a, b := g.life, g.life;
      if h :| h in s.grants && from <= h.time <= from + p.window && h.life != g.life {
        assert GrantTrue(h, s, t, p);
        b := h.life;
        forall k | k in s.grants && from <= k.time <= from + p.window ensures k.life == a || k.life == b {
          assert GrantTrue(k, s, t, p);
        }
      }
    }
  }

  // So in no such span are more granted than twice the limit and the checks that straddle the starts of two lives.
  lemma TwiceTheLimitPlusStraddlers(turns: seq<Turn>, p: Policy, from: real) returns (a: real, b: real)
    requires InOrder(turns) && p.limit >= 1 && p.window > 0.0
    requires GrantedFrom(AfterTurns(turns, p).grants, from, p.window) != {}
    ensures var s := AfterTurns(turns, p);
      && a in s.straddling && b in s.straddling
      && |GrantedFrom(s.grants, from, p.window)| <= 2 * p.limit + |s.straddling[a]| + |s.straddling[b]|
  {
    EveryOverlapIsTrue(turns, p);
    var s := AfterTurns(turns, p);
    a, b := TwoLives(s, if turns == [] then 0.0 else turns[|turns| - 1].now, from, p);
    LimitPlusStraddlers(turns, p, a);
    LimitPlusStraddlers(turns, p, b);
    hide GrantedIn, GrantedFrom, Counted, Slipped, AfterTurns, SharedTrue;
    var all := GrantedIn(s.grants, a) + GrantedIn(s.grants, b);
    assert |all| <= |GrantedIn(s.grants, a)| + |GrantedIn(s.grants, b)|;
    SubsetSize(GrantedFrom(s.grants, from, p.window), all);
  }

  // No check is granted twice.
  lemma GrantedOnce(turns: seq<Turn>, p: Policy)
    requires InOrder(turns) && p.limit >= 1 && p.window > 0.0
    ensures DistinctChecks(AfterTurns(turns, p).grants)
  {
    EveryOverlapIsTrue(turns, p);
    hide DistinctChecks, AfterTurns;
  }

  // The second add of a check runs into a counter that another check has started meanwhile.
  predicate AddsTwiceInVain(s: Shared, turn: Turn) {
    turn.check in s.begun && turn.check in s.inFlight && s.inFlight[turn.check].ToReadd? && Live(s.counter, turn.now)
  }

  ghost predicate NoneInVain(turns: seq<Turn>, p: Policy) {
    turns != [] ==>
      && NoneInVain(turns[..|turns| - 1], p)
      && !AddsTwiceInVain(AfterTurns(turns[..|turns| - 1], p), turns[|turns| - 1])
  }

  // Every grant is counted exactly when no second add is in vain; then the limit holds per life.
  lemma {:induction false} EveryGrantCountedIff(turns: seq<Turn>, p: Policy)
    ensures (forall g :: g in AfterTurns(turns, p).grants ==> g.counted) <==> NoneInVain(turns, p)
  {
    if turns != [] {
      var init, last := turns[..|turns| - 1], turns[|turns| - 1];
      EveryGrantCountedIff(init, p);
      OneTurnGrants(AfterTurns(init, p), last, p);
      hide Answered, AddsTwiceInVain;
    }
  }

  lemma OneTurnGrants(s: Shared, turn: Turn, p: Policy)
    ensures var after := Answered(s, turn.check, turn.now, p);
      (forall g :: g in after.grants ==> g.counted) <==> (forall g :: g in s.grants ==> g.counted) && !AddsTwiceInVain(s, turn)
  {
    var after := Answered(s, turn.check, turn.now, p);
    assert forall g :: g in s.grants ==> g in after.grants;
    assert after.grants == s.grants || after.grants == s.grants + [after.grants[|s.grants|]];
    if after.grants != s.grants {
      assert after.grants[|s.grants|] in after.grants;
      assert forall g :: g in after.grants ==> g in s.grants || g == after.grants[|s.grants|];
    }
  }

  lemma LimitWhenCounted(turns: seq<Turn>, p: Policy, life: real)
    requires InOrder(turns) && NoneInVain(turns, p) && p.limit >= 1 && p.window > 0.0
    requires life in AfterTurns(turns, p).straddling
    ensures |GrantedIn(AfterTurns(turns, p).grants, life)| <= p.limit
  {
    EveryGrantCountedIff(turns, p);
    LimitPlusStraddlers(turns, p, life);
    GrantedSplits(AfterTurns(turns, p).grants, life);
    hide AfterTurns, Counted, GrantedIn;
    assert Slipped(AfterTurns(turns, p).grants, life) == {};
  }

  // All answers of one check, with none to another in between.
  function Alone(s: Shared, c: nat, r: Request, p: Policy): Shared {
    var asked := Answered(Answered(s, c, r.asked, p), c, r.asked, p);
    Answered(Answered(asked, c, r.counted, p), c, r.counted, p)
  }

  // Taken alone, a check does to the cache what the check as a whole does, and is granted as it is.
  lemma AloneDecides(s: Shared, c: nat, r: Request, p: Policy)
    requires c !in s.begun && s.inFlight.Keys <= s.begun
    ensures var after, d := Alone(s, c, r, p), Decide(Limiter(s.counter, s.block), r, p);
      && Limiter(after.counter, after.block) == d.limiter && after.inFlight == s.inFlight
      && after.grants == s.grants + if d.verdict.Granted? then [Grant(c, d.verdict.time, d.verdict.life, true)] else []
  {
    hide Waiting;
    var begun := Answered(s, c, r.asked, p);
    if c in begun.inFlight {
      assert begun.inFlight - {c} == s.inFlight;
      var added := Answered(begun, c, r.asked, p);
      if c in added.inFlight {
        assert added.inFlight - {c} == s.inFlight;
        var counted := Answered(added, c, r.counted, p);
        assert c in counted.inFlight ==> counted.inFlight - {c} == s.inFlight;
      }
    }
  }

  // Checks that follow one another.
  ghost predicate OneAtATime(turns: seq<Turn>, p: Policy) {
    turns != [] ==>
      && OneAtATime(turns[..|turns| - 1], p)
      && AfterTurns(turns[..|turns| - 1], p).inFlight.Keys <= {turns[|turns| - 1].check}
  }

  // Then nothing straddles, and no life grants more than its limit.
  lemma {:induction false} NobodyStraddles(turns: seq<Turn>, p: Policy)
    requires OneAtATime(turns, p)
    ensures forall life :: life in AfterTurns(turns, p).straddling ==> AfterTurns(turns, p).straddling[life] == {}
  {
    if turns != [] {
      NobodyStraddles(turns[..|turns| - 1], p);
    }
  }

  lemma LimitWithoutOverlap(turns: seq<Turn>, p: Policy, life: real)
    requires InOrder(turns) && OneAtATime(turns, p) && p.limit >= 1 && p.window > 0.0
    requires life in AfterTurns(turns, p).straddling
    ensures |GrantedIn(AfterTurns(turns, p).grants, life)| <= p.limit
  {
    hide AfterTurns, GrantedIn, Counted, Slipped;
    LimitPlusStraddlers(turns, p, life);
    NobodyStraddles(turns, p);
  }

  // ---- a case ----

  const ONE_PER_TEN := Policy(1, 10.0, 10.0)

  // A check is granted; two more run into its counter.
  const RUNNING_IN := [Turn(0, 0.0), Turn(0, 0.0)] + [Turn(1, 9.0), Turn(1, 9.0)] + [Turn(2, 9.0), Turn(2, 9.0)]

  // The two take turns.
  const TOO_LATE := [Turn(1, 10.0), Turn(2, 10.0)]

  const FIRST := Shared(Some(Item(1, 10.0)), None, {0}, map[], [Grant(0, 0.0, 0.0, true)], map[0.0 := {}])
  const RUN_IN := FIRST.(begun := {0, 1, 2}, inFlight := map[1 := ToIncr(0.0), 2 := ToIncr(0.0)])

  lemma Pair(turns: seq<Turn>, x: Turn, y: Turn, p: Policy)
    ensures AfterTurns(turns + [x, y], p) == Answered(Answered(AfterTurns(turns, p), x.check, x.now, p), y.check, y.now, p)
  {
    hide Answered;
    assert (turns + [x, y])[..|turns| + 1] == turns + [x] && (turns + [x])[..|turns|] == turns;
  }

  // One request a window is allowed. The two that ran into the first counter find it expired, and both are
  // granted in the next life, the second one uncounted.
  lemma StraddlerSlipsThrough()
    ensures var s := AfterTurns(RUNNING_IN + TOO_LATE + TOO_LATE, ONE_PER_TEN);
      && s.grants == [Grant(0, 0.0, 0.0, true), Grant(1, 10.0, 10.0, true), Grant(2, 10.0, 10.0, false)]
      && 10.0 in s.straddling && s.straddling[10.0] == {2}
    ensures InOrder(RUNNING_IN + TOO_LATE + TOO_LATE)
  {
    TenInOrder();
    BothFindItGone();
    SixTurns();
    assert TOO_LATE == [Turn(1, 10.0), Turn(2, 10.0)];
    hide *;
    Pair(RUNNING_IN, Turn(1, 10.0), Turn(2, 10.0), ONE_PER_TEN);
    Pair(RUNNING_IN + TOO_LATE, Turn(1, 10.0), Turn(2, 10.0), ONE_PER_TEN);
  }

  lemma TenInOrder()
    ensures InOrder(RUNNING_IN + TOO_LATE + TOO_LATE)
  {
  }

  lemma SixTurns()
    ensures AfterTurns(RUNNING_IN, ONE_PER_TEN) == RUN_IN
  {
    var zero, one, two := Turn(0, 0.0), Turn(1, 9.0), Turn(2, 9.0);
    NoTurn();
    FirstTwo();
    BothRunIn();
    hide *;
    assert [] + [zero, zero] == [zero, zero];
    Pair([], zero, zero, ONE_PER_TEN);
    Pair([zero, zero], one, one, ONE_PER_TEN);
    Pair([zero, zero] + [one, one], two, two, ONE_PER_TEN);
  }

  lemma NoTurn()
    ensures AfterTurns([], ONE_PER_TEN) == UNUSED
  {
  }

  lemma FirstTwo()
    ensures Answered(Answered(UNUSED, 0, 0.0, ONE_PER_TEN), 0, 0.0, ONE_PER_TEN) == FIRST
  {
    assert UNUSED.inFlight[0 := ToAdd] - {0} == map[] && Waiting(map[]) == {};
  }

  lemma BothRunIn()
    ensures Answered(Answered(Answered(Answered(FIRST, 1, 9.0, ONE_PER_TEN), 1, 9.0, ONE_PER_TEN), 2, 9.0, ONE_PER_TEN),
                     2, 9.0, ONE_PER_TEN) == RUN_IN
  {
    var one := Answered(Answered(FIRST, 1, 9.0, ONE_PER_TEN), 1, 9.0, ONE_PER_TEN);
    assert one == FIRST.(begun := {0, 1}, inFlight := map[1 := ToIncr(0.0)]);
  }

  lemma BothFindItGone()
    ensures var gone := Answered(Answered(RUN_IN, 1, 10.0, ONE_PER_TEN), 2, 10.0, ONE_PER_TEN);
      var s := Answered(Answered(gone, 1, 10.0, ONE_PER_TEN), 2, 10.0, ONE_PER_TEN);
      && s.grants == [Grant(0, 0.0, 0.0, true), Grant(1, 10.0, 10.0, true), Grant(2, 10.0, 10.0, false)]
      && 10.0 in s.straddling && s.straddling[10.0] == {2}
  {
    var gone := Answered(Answered(RUN_IN, 1, 10.0, ONE_PER_TEN), 2, 10.0, ONE_PER_TEN);
    assert gone == RUN_IN.(inFlight := map[1 := ToReadd(0.0), 2 := ToReadd(0.0)]);
    assert gone.inFlight - {1} == map[2 := ToReadd(0.0)] && Waiting(map[2 := ToReadd(0.0)]) == {2};
    var s := Answered(gone, 1, 10.0, ONE_PER_TEN);
    assert s.counter == Some(Item(1, 20.0)) && s.straddling[10.0] == {2} && s.inFlight == map[2 := ToReadd(0.0)];
  }
}
