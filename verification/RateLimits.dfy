// Two rate limiters over timed traces: the cache-backed one for authentication, and the sliding
// window of a socket connection.
module RateLimits {
  import opened Prelude

  // ---- the cache ----

  datatype Item = Item(value: int, expires: real)

  // An item is gone from the moment it expires.
  predicate Live(item: Option<Item>, now: real) {
    item.Some? && now < item.value.expires
  }

  function CountKey(scope: string, key: string): string {
    "ratelimit:count:" + scope + ":" + key
  }

  function BlockKey(scope: string, key: string): string {
    "ratelimit:block:" + scope + ":" + key
  }

  class Cache {
    var items: map<string, Item>

    constructor ()
      ensures items == map[]
    {
      items := map[];
    }

    function Lookup(key: string): Option<Item>
      reads this
    {
      if key in items then Some(items[key]) else None
    }

    // Stores only if nothing live is there.
    method Add(key: string, value: int, timeout: real, now: real) returns (added: bool)
      modifies this
      ensures added <==> !Live(old(Lookup(key)), now)
      ensures items == if added then old(items)[key := Item(value, now + timeout)] else old(items)
    {
      if Live(Lookup(key), now) {
        return false;
      }
      items := items[key := Item(value, now + timeout)];
      return true;
    }

    // None is the error raised for a key that is not there; the expiry is not extended.
    method Incr(key: string, now: real) returns (value: Option<int>)
      modifies this
      ensures value.Some? <==> Live(old(Lookup(key)), now)
      ensures value.Some? ==>
        && value.value == old(Lookup(key)).value.value + 1
        && items == old(items)[key := Item(value.value, old(Lookup(key)).value.expires)]
      ensures value.None? ==> items == old(items)
    {
      if !Live(Lookup(key), now) {
        return None;
      }
      var item := items[key];
      items := items[key := Item(item.value + 1, item.expires)];
      return Some(item.value + 1);
    }

    method Set(key: string, value: int, timeout: real, now: real)
      modifies this
      ensures items == old(items)[key := Item(value, now + timeout)]
    {
      items := items[key := Item(value, now + timeout)];
    }

    method DeleteMany(keys: set<string>)
      modifies this
      ensures items == old(items) - keys
    {
      items := items - keys;
    }
  }

  // ---- one check ----

  // What the cache holds for one scope and key.
  datatype Limiter = Limiter(counter: Option<Item>, block: Option<Item>)

  const IDLE := Limiter(None, None)

  datatype Policy = Policy(limit: int, window: real, cooldown: real)

  // When the cache is asked: first for the block and the counter, then, later, to count.
  datatype Request = Request(asked: real, counted: real)

  datatype Verdict = Blocked | OverLimit | Granted(time: real, life: real, rank: int)

  datatype Decision = Decision(limiter: Limiter, verdict: Verdict)

  // `life` is when the counter was started, `rank` the request's place in it.
  function Decide(l: Limiter, r: Request, p: Policy): Decision {
    if Live(l.block, r.asked) then Decision(l, Blocked)
    else if !Live(l.counter, r.asked) then
      Decision(l.(counter := Some(Item(1, r.asked + p.window))), Granted(r.asked, r.asked, 1))
    else if !Live(l.counter, r.counted) then
      Decision(l.(counter := Some(Item(1, r.counted + p.window))), Granted(r.counted, r.counted, 1))
    else
      var item := l.counter.value;
      var counted := l.(counter := Some(Item(item.value + 1, item.expires)));
      if item.value + 1 > p.limit then Decision(counted.(block := Some(Item(1, r.counted + p.cooldown))), OverLimit)
      else Decision(counted, Granted(r.counted, item.expires - p.window, item.value + 1))
  }

  ghost function View(cache: Cache, scope: string, key: string): Limiter
    reads cache
  {
    Limiter(cache.Lookup(CountKey(scope, key)), cache.Lookup(BlockKey(scope, key)))
  }

  lemma KeysDiffer(scope: string, key: string)
    ensures CountKey(scope, key) != BlockKey(scope, key)
  {
    assert CountKey(scope, key)[10] == 'c' && BlockKey(scope, key)[10] == 'b';
  }

  // Counters and blocks of different keys are apart, and so are those of different scopes, as long as no
  // scope has a colon in it.
  lemma KeysApartIff(scope: string, key: string, scope': string, key': string)
    ensures CountKey(scope, key) == CountKey(scope', key') <==> scope + ":" + key == scope' + ":" + key'
    ensures BlockKey(scope, key) == BlockKey(scope', key') <==> scope + ":" + key == scope' + ":" + key'
    ensures CountKey(scope, key) != BlockKey(scope', key')
    ensures ':' !in scope && ':' !in scope' ==>
      (scope + ":" + key == scope' + ":" + key' <==> scope == scope' && key == key')
  {
    var a, b := scope + ":" + key, scope' + ":" + key';
    assert CountKey(scope, key) == "ratelimit:count:" + a && CountKey(scope', key') == "ratelimit:count:" + b;
    assert BlockKey(scope, key) == "ratelimit:block:" + a && BlockKey(scope', key') == "ratelimit:block:" + b;
    assert CountKey(scope, key)[16..] == a && CountKey(scope', key')[16..] == b;
    assert BlockKey(scope, key)[16..] == a && BlockKey(scope', key')[16..] == b;
    assert CountKey(scope, key)[10] == 'c' && BlockKey(scope', key')[10] == 'b';
    if a == b && ':' !in scope && ':' !in scope' {
      SplitsAtFirst(scope, key, scope', key', ':');
    }
  }

  datatype CheckResult = CheckResult(allowed: bool, retryAfter: real)

  method Check(cache: Cache, scope: string, key: string, p: Policy, r: Request) returns (result: CheckResult)
    modifies cache
    ensures var out := Decide(old(View(cache, scope, key)), r, p);
      && View(cache, scope, key) == out.limiter && (result.allowed <==> out.verdict.Granted?)
      && result.retryAfter == if out.verdict.Granted? then 0.0 else p.cooldown
    ensures forall k :: k != CountKey(scope, key) && k != BlockKey(scope, key) ==> cache.Lookup(k) == old(cache.Lookup(k))
  {
    KeysDiffer(scope, key);
    if Live(cache.Lookup(BlockKey(scope, key)), r.asked) {
      return CheckResult(false, p.cooldown);
    }
    var added := cache.Add(CountKey(scope, key), 1, p.window, r.asked);
    if added {
      return CheckResult(true, 0.0);
    }
    var value := cache.Incr(CountKey(scope, key), r.counted);
    if value.None? {
      added := cache.Add(CountKey(scope, key), 1, p.window, r.counted);
      return CheckResult(true, 0.0);
    }
    if value.value > p.limit {
      cache.Set(BlockKey(scope, key), 1, p.cooldown, r.counted);
      return CheckResult(false, p.cooldown);
    }
    return CheckResult(true, 0.0);
  }

  method Reset(cache: Cache, scope: string, key: string)
    modifies cache
    ensures View(cache, scope, key) == IDLE
    ensures forall k :: k != CountKey(scope, key) && k != BlockKey(scope, key) ==> cache.Lookup(k) == old(cache.Lookup(k))
  {
    cache.DeleteMany({CountKey(scope, key), BlockKey(scope, key)});
  }

  // ---- runs without a reset ----

  function LimiterAfter(requests: seq<Request>, p: Policy): Limiter {
    if requests == [] then IDLE else Decide(LimiterAfter(requests[..|requests| - 1], p), requests[|requests| - 1], p).limiter
  }

  function VerdictAt(requests: seq<Request>, k: nat, p: Policy): Verdict
    requires k < |requests|
  {
    Decide(LimiterAfter(requests[..k], p), requests[k], p).verdict
  }

  // The granted requests, in order.
  function Grants(requests: seq<Request>, p: Policy): (r: seq<Verdict>)
    ensures forall v :: v in r ==> v.Granted?
  {
    if requests == [] then []
    else
      var n := |requests| - 1;
      var v := VerdictAt(requests, n, p);
      Grants(requests[..n], p) + if v.Granted? then [v] else []
  }

  // Each request is asked, then counted, and requests follow one another.
  ghost predicate InTime(requests: seq<Request>) {
    && (forall k :: 0 <= k < |requests| ==> requests[k].asked <= requests[k].counted)
    && (forall k :: 0 < k < |requests| ==> requests[k - 1].counted <= requests[k].asked)
  }

  // One grant after another: the next place in the same counter's life, or the first of a later one.
  predicate Follows(a: Verdict, b: Verdict, window: real)
    requires a.Granted? && b.Granted?
  {
    (b.life == a.life && b.rank == a.rank + 1) || (b.life >= a.life + window && b.rank == 1)
  }

  ghost predicate GrantsInOrder(grants: seq<Verdict>, p: Policy)
    requires forall v :: v in grants ==> v.Granted?
  {
    && (forall i :: 0 <= i < |grants| ==>
         1 <= grants[i].rank <= p.limit && grants[i].life <= grants[i].time < grants[i].life + p.window)
    && (forall i :: 0 < i < |grants| ==> Follows(grants[i - 1], grants[i], p.window))
  }

  // The counter knows how many were granted in its life, up to the limit.
  ghost predicate Tallies(l: Limiter, grants: seq<Verdict>, p: Policy)
    requires forall v :: v in grants ==> v.Granted?
  {
    if l.counter.None? then grants == []
    else
      && grants != []
      && var last := grants[|grants| - 1];
      && last.life + p.window == l.counter.value.expires
      && last.rank == Min(l.counter.value.value, p.limit)
  }

  lemma {:induction false} GrantsStayInOrder(requests: seq<Request>, p: Policy)
    requires InTime(requests) && p.limit >= 1 && p.window > 0.0
    ensures GrantsInOrder(Grants(requests, p), p) && Tallies(LimiterAfter(requests, p), Grants(requests, p), p)
    ensures var g := Grants(requests, p); g != [] ==> requests != [] && g[|g| - 1].time <= requests[|requests| - 1].counted
  {
    if requests != [] {
      hide GrantsInOrder, Tallies, Decide, InTime, Grants, LimiterAfter;
      var n := |requests| - 1;
      var init := requests[..n];
      OneMoreRequest(requests, p);
      GrantsStayInOrder(init, p);
      GrantFits(LimiterAfter(init, p), Grants(init, p), requests[n], p);
      GrantedWhenCounted(LimiterAfter(init, p), requests[n], p);
    }
  }

  lemma OneMoreRequest(requests: seq<Request>, p: Policy)
    requires requests != [] && InTime(requests)
    ensures var n := |requests| - 1;
      var out := Decide(LimiterAfter(requests[..n], p), requests[n], p);
      && LimiterAfter(requests, p) == out.limiter
      && Grants(requests, p) == Grants(requests[..n], p) + (if out.verdict.Granted? then [out.verdict] else [])
      && InTime(requests[..n]) && requests[n].asked <= requests[n].counted
      && (n > 0 ==> requests[..n][n - 1].counted <= requests[n].asked)
  {
    hide Decide;
  }

  lemma GrantedWhenCounted(l: Limiter, r: Request, p: Policy)
    requires r.asked <= r.counted
    ensures Decide(l, r, p).verdict.Granted? ==> Decide(l, r, p).verdict.time <= r.counted
  {
  }

  lemma GrantFits(l: Limiter, grants: seq<Verdict>, r: Request, p: Policy)
    requires forall v :: v in grants ==> v.Granted?
    requires GrantsInOrder(grants, p) && Tallies(l, grants, p)
    requires r.asked <= r.counted && p.limit >= 1 && p.window > 0.0
    requires grants != [] ==> grants[|grants| - 1].time <= r.asked
    ensures var out := Decide(l, r, p);
      var more := grants + if out.verdict.Granted? then [out.verdict] else [];
      && (forall v :: v in more ==> v.Granted?) && GrantsInOrder(more, p) && Tallies(out.limiter, more, p)
  {
  }

  lemma {:induction false} LivesAdvance(grants: seq<Verdict>, p: Policy, i: nat, j: nat)
    requires forall v :: v in grants ==> v.Granted?
    requires GrantsInOrder(grants, p) && i <= j < |grants| && p.window > 0.0
    ensures (grants[j].life == grants[i].life && grants[j].rank == grants[i].rank + (j - i))
      || grants[j].life >= grants[i].life + p.window
    decreases j
  {
    if i < j {
      LivesAdvance(grants, p, i, j - 1);
      assert Follows(grants[j - 1], grants[j], p.window);
    }
  }

  // At most `limit` requests are granted in one life of the counter: the limit-th next one is in a later life.
  lemma LimitPerLife(requests: seq<Request>, p: Policy, k: nat)
    requires InTime(requests) && p.limit >= 1 && p.window > 0.0
    requires k + p.limit < |Grants(requests, p)|
    ensures var g := Grants(requests, p); g[k + p.limit].life >= g[k].life + p.window
  {
    GrantsStayInOrder(requests, p);
    LivesAdvance(Grants(requests, p), p, k, k + p.limit);
  }

  // In no span of `window` seconds, ends included, are more than twice the limit granted.
  lemma TwiceTheLimitPerWindow(requests: seq<Request>, p: Policy, k: nat)
    requires InTime(requests) && p.limit >= 1 && p.window > 0.0
    requires k + 2 * p.limit < |Grants(requests, p)|
    ensures var g := Grants(requests, p); g[k + 2 * p.limit].time - g[k].time > p.window
  {
    GrantsStayInOrder(requests, p);
    LimitPerLife(requests, p, k);
    LimitPerLife(requests, p, k + p.limit);
  }

  // The block outlasts every over-limit rejection by the cooldown.
  ghost predicate BlocksFrom(l: Limiter, until: real) {
    l.block.Some? && l.block.value.expires >= until
  }

  lemma {:induction false} BlockLasts(requests: seq<Request>, p: Policy, i: nat)
    requires InTime(requests) && i < |requests| && VerdictAt(requests, i, p) == OverLimit
    ensures BlocksFrom(LimiterAfter(requests, p), requests[i].counted + p.cooldown)
    decreases |requests|
  {
    var n := |requests| - 1;
    if i < n {
      var init := requests[..n];
      assert InTime(init) && init[..i] == requests[..i];
      BlockLasts(init, p, i);
      CountedInOrder(requests, i, n);
    } else {
      assert requests[..n][..i] == requests[..i];
    }
  }

  lemma {:induction false} CountedInOrder(requests: seq<Request>, i: nat, j: nat)
    requires InTime(requests) && i <= j < |requests|
    ensures requests[i].counted <= requests[j].counted
    decreases j
  {
    if i < j {
      CountedInOrder(requests, i, j - 1);
    }
  }

  // After an over-limit rejection nothing is granted until the cooldown has passed.
  lemma NothingDuringCooldown(requests: seq<Request>, p: Policy, i: nat, j: nat)
    requires InTime(requests) && i < j < |requests|
    requires VerdictAt(requests, i, p) == OverLimit && VerdictAt(requests, j, p).Granted?
    ensures requests[j].asked >= requests[i].counted + p.cooldown
  {
    var before := requests[..j];
    assert InTime(before) && before[..i] == requests[..i];
    BlockLasts(before, p, i);
  }

  // No block outlasts a cooldown that starts with the latest request.
  lemma {:induction false} BlockEndsBy(requests: seq<Request>, p: Policy)
    requires InTime(requests) && requests != []
    ensures var block := LimiterAfter(requests, p).block;
      block.Some? ==> block.value.expires <= requests[|requests| - 1].counted + p.cooldown
  {
    var n := |requests| - 1;
    if n > 0 {
      assert InTime(requests[..n]);
      BlockEndsBy(requests[..n], p);
    }
  }

  // A client told to come back after `retry_after` is past the block when it does.
  lemma WaitingIsEnough(requests: seq<Request>, p: Policy, i: nat)
    requires InTime(requests) && i + 1 < |requests|
    requires requests[i + 1].asked >= requests[i].counted + p.cooldown
    ensures VerdictAt(requests, i + 1, p) != Blocked
  {
    assert InTime(requests[..i + 1]);
    BlockEndsBy(requests[..i + 1], p);
  }

  // Nobody is turned away for less: an over-limit rejection comes only when this life has granted its limit.
  lemma OverLimitOnlyWhenFull(requests: seq<Request>, p: Policy, k: nat)
    requires InTime(requests) && p.limit >= 1 && p.window > 0.0
    requires k < |requests| && VerdictAt(requests, k, p) == OverLimit
    ensures var g := Grants(requests[..k], p);
      g != [] && g[|g| - 1].rank == p.limit && requests[k].counted < g[|g| - 1].life + p.window
  {
    assert InTime(requests[..k]);
    GrantsStayInOrder(requests[..k], p);
  }

  // ---- the socket's sliding window ----

  // The times after a cutoff.
  function After(times: seq<real>, cutoff: real): seq<real>
    decreases |times|
  {
    if times == [] then []
    else After(times[..|times| - 1], cutoff) + if times[|times| - 1] > cutoff then [times[|times| - 1]] else []
  }

  class SocketLimiter {
    var times: seq<real>

    constructor ()
      ensures times == []
    {
      times := [];
    }

    method RateLimited(window: real, limit: int, now: real) returns (limited: bool)
      modifies this
      ensures var recent := After(old(times), now - window);
        && (limited <==> |recent| >= limit)
        && times == if limited then recent else recent + [now]
    {
      var cutoff := now - window;
      var kept: seq<real> := [];
      for i := 0 to |times|
        modifies {}
        invariant kept == After(times[..i], cutoff)
      {
        assert times[..i + 1][..i] == times[..i];
        if times[i] > cutoff {
          kept := kept + [times[i]];
        }
      }
      assert times[..|times|] == times;
      times := kept;
      if |times| >= limit {
        return true;
      }
      times := times + [now];
      return false;
    }
  }

  // What the list holds after messages at the given times, and which of them were let through.
  function Held(nows: seq<real>, window: real, limit: int): seq<real>
    decreases |nows|
  {
    if nows == [] then []
    else
      var now := nows[|nows| - 1];
      var recent := After(Held(nows[..|nows| - 1], window, limit), now - window);
      if |recent| >= limit then recent else recent + [now]
  }

  function Accepted(nows: seq<real>, window: real, limit: int): seq<real>
    decreases |nows|
  {
    if nows == [] then []
    else
      var now, init := nows[|nows| - 1], nows[..|nows| - 1];
      var before := Accepted(init, window, limit);
      if |After(Held(init, window, limit), now - window)| >= limit then before else before + [now]
  }

  ghost predicate Rising(nows: seq<real>) {
    forall i, j :: 0 <= i <= j < |nows| ==> nows[i] <= nows[j]
  }

  lemma {:induction false} AfterTwice(times: seq<real>, a: real, b: real)
    requires a <= b
    ensures After(After(times, a), b) == After(times, b)
    decreases |times|
  {
    if times != [] {
      var init, last := times[..|times| - 1], times[|times| - 1];
      AfterTwice(init, a, b);
      var kept := After(init, a);
      assert (kept + [last])[..|kept|] == kept;
      assert kept + [] == kept;
    }
  }

  lemma AfterSnoc(times: seq<real>, x: real, cutoff: real)
    ensures After(times + [x], cutoff) == After(times, cutoff) + if x > cutoff then [x] else []
  {
    assert (times + [x])[..|times|] == times;
  }

  // What one more message does to the list and to the acceptances.
  lemma OneMore(init: seq<real>, now: real, window: real, limit: int)
    ensures var recent := After(Held(init, window, limit), now - window);
      && Held(init + [now], window, limit) == (if |recent| >= limit then recent else recent + [now])
      && Accepted(init + [now], window, limit)
        == if |recent| >= limit then Accepted(init, window, limit) else Accepted(init, window, limit) + [now]
  {
    assert (init + [now])[..|init|] == init;
  }

  lemma RisingSplit(init: seq<real>, now: real)
    ensures Rising(init + [now]) <==> Rising(init) && (init != [] ==> init[|init| - 1] <= now)
  {
    var all := init + [now];
    if Rising(all) {
      assert forall i :: 0 <= i < |init| ==> all[i] == init[i];
      assert init != [] ==> all[|init| - 1] <= all[|init|];
    }
  }

  lemma OneMoreSame(init: seq<real>, now: real, window: real, limit: int, cutoff: real)
    requires cutoff >= now - window
    requires After(Held(init, window, limit), cutoff) == After(Accepted(init, window, limit), cutoff)
    ensures After(Held(init + [now], window, limit), cutoff) == After(Accepted(init + [now], window, limit), cutoff)
  {
    hide After, Held, Accepted;
    OneMore(init, now, window, limit);
    var held, taken := Held(init, window, limit), Accepted(init, window, limit);
    AfterTwice(held, now - window, cutoff);
    AfterSnoc(After(held, now - window), now, cutoff);
    AfterSnoc(taken, now, cutoff);
  }

  // What is held is what was accepted lately: older acceptances no longer matter.
  lemma {:induction false} HeldIsRecent(nows: seq<real>, window: real, limit: int, cutoff: real)
    requires Rising(nows)
    requires nows != [] ==> cutoff >= nows[|nows| - 1] - window
    ensures After(Held(nows, window, limit), cutoff) == After(Accepted(nows, window, limit), cutoff)
    decreases |nows|
  {
    if nows != [] {
      hide After, Held, Accepted, Rising;
      var init, now := nows[..|nows| - 1], nows[|nows| - 1];
      assert nows == init + [now];
      RisingSplit(init, now);
      HeldIsRecent(init, window, limit, cutoff);
      OneMoreSame(init, now, window, limit, cutoff);
    }
  }

  // A message is refused exactly when the window that ends now already holds the limit.
  lemma RefusedIffFull(init: seq<real>, now: real, window: real, limit: int)
    requires Rising(init + [now])
    ensures Accepted(init + [now], window, limit) ==
      if |After(Accepted(init, window, limit), now - window)| >= limit then Accepted(init, window, limit)
      else Accepted(init, window, limit) + [now]
  {
    hide After, Held, Accepted, Rising;
    RisingSplit(init, now);
    OneMore(init, now, window, limit);
    HeldIsRecent(init, window, limit, now - window);
  }

  // In order, and none later than `now`.
  ghost predicate RisesTo(times: seq<real>, now: real) {
    Rising(times) && (times != [] ==> times[|times| - 1] <= now)
  }

  lemma RisesOneMore(init: seq<real>, now: real, window: real, limit: int)
    requires RisesTo(Accepted(init, window, limit), now)
    ensures RisesTo(Accepted(init + [now], window, limit), now)
  {
    hide After, Held, Accepted, Rising;
    var taken := Accepted(init, window, limit);
    OneMore(init, now, window, limit);
    RisingSplit(taken, now);
    assert (taken + [now])[|taken|] == now;
  }

  lemma {:induction false} AcceptedRise(nows: seq<real>, window: real, limit: int, now: real)
    requires RisesTo(nows, now)
    ensures RisesTo(Accepted(nows, window, limit), now)
    decreases |nows|
  {
    if nows != [] {
      hide After, Held, Accepted, Rising;
      var init, last := nows[..|nows| - 1], nows[|nows| - 1];
      assert nows == init + [last];
      RisingSplit(init, last);
      AcceptedRise(init, window, limit, last);
      RisesOneMore(init, last, window, limit);
    }
  }

  lemma {:induction false} LateOnesStay(times: seq<real>, cutoff: real, i: nat)
    requires Rising(times) && i < |times| && times[i] > cutoff
    ensures |After(times, cutoff)| >= |times| - i
    decreases |times|
  {
    if i < |times| - 1 {
      LateOnesStay(times[..|times| - 1], cutoff, i);
    }
  }

  lemma {:induction false} AfterFewer(times: seq<real>, a: real, b: real)
    ensures |After(After(times, a), b)| <= |After(times, b)|
    decreases |times|
  {
    if times != [] {
      var init, last := times[..|times| - 1], times[|times| - 1];
      AfterFewer(init, a, b);
      AfterSnoc(After(init, a), last, b);
      assert After(init, a) + [] == After(init, a);
    }
  }

  function Late(x: real, cutoff: real): nat {
    if x > cutoff then 1 else 0
  }

  lemma AfterCount(times: seq<real>, x: real, cutoff: real)
    ensures |After(times + [x], cutoff)| == |After(times, cutoff)| + Late(x, cutoff)
  {
    hide After;
    AfterSnoc(times, x, cutoff);
  }

  lemma HeldOneMore(init: seq<real>, now: real, window: real, limit: int, cutoff: real)
    ensures |After(Held(init + [now], window, limit), cutoff)| <= |After(Held(init, window, limit), cutoff)| + Late(now, cutoff)
  {
    hide After, Held;
    OneMore(init, now, window, limit);
    AfterFewer(Held(init, window, limit), now - window, cutoff);
    AfterCount(After(Held(init, window, limit), now - window), now, cutoff);
  }

  lemma {:induction false} HeldIsFewer(nows: seq<real>, window: real, limit: int, cutoff: real)
    ensures |After(Held(nows, window, limit), cutoff)| <= |After(nows, cutoff)|
    decreases |nows|
  {
    if nows != [] {
      hide After, Held, Late;
      var init, now := nows[..|nows| - 1], nows[|nows| - 1];
      assert nows == init + [now];
      HeldIsFewer(init, window, limit, cutoff);
      HeldOneMore(init, now, window, limit, cutoff);
      AfterCount(init, now, cutoff);
    }
  }

  // No window that ends with a message holds more than the limit of them.
  ghost predicate Paced(nows: seq<real>, window: real, limit: int) {
    forall k :: 0 <= k < |nows| ==> |After(nows[..k], nows[k] - window)| < limit
  }

  // Such messages are never refused.
  lemma PacedIsNotFull(nows: seq<real>, now: real, window: real, limit: int)
    requires Paced(nows + [now], window, limit)
    ensures Paced(nows, window, limit)
    ensures |After(Held(nows, window, limit), now - window)| < limit
  {
    hide After, Held;
    var all := nows + [now];
    assert all[..|nows|] == nows && all[|nows|] == now;
    assert forall k :: 0 <= k < |nows| ==> all[..k] == nows[..k] && all[k] == nows[k];
    HeldIsFewer(nows, window, limit, now - window);
  }

  // Never more than the limit in any sliding window: the limit-th next acceptance is a whole window later.
  lemma {:induction false} SlidingWindow(nows: seq<real>, window: real, limit: nat, k: nat)
    requires Rising(nows) && limit >= 1
    requires k + limit < |Accepted(nows, window, limit)|
    ensures var taken := Accepted(nows, window, limit); taken[k + limit] - taken[k] >= window
    decreases |nows|
  {
    assert nows != [];
    hide *;
    var init, now := nows[..|nows| - 1], nows[|nows| - 1];
    assert nows == init + [now];
    RisingSplit(init, now);
    RefusedIffFull(init, now, window, limit);
    var before := Accepted(init, window, limit);
    if k + limit < |before| {
      SlidingWindow(init, window, limit, k);
    } else {
      AcceptedRise(init, window, limit, now);
      LastIsLate(before, now, window, limit, k);
    }
  }

  lemma LastIsLate(before: seq<real>, now: real, window: real, limit: nat, k: nat)
    requires RisesTo(before, now) && |After(before, now - window)| < limit && k + limit == |before| && limit >= 1
    ensures var taken := before + [now]; taken[k + limit] - taken[k] >= window
  {
    hide After;
    if before[k] > now - window {
      LateOnesStay(before, now - window, k);
    }
  }
}
