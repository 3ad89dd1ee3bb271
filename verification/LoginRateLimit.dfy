// The sliding-window login limiter (app/server.py, `LoginRateLimitMiddleware`).

module LoginRateLimit {
  import opened Queries

  type Ip = string

  /** What a request shows of itself; `host` is the peer address, where there is one. */
  datatype Request = Request(path: string, httpMethod: string, host: Option<string>)

  predicate IsLogin(r: Request) {
    var suffix := "/auth/login";
    r.httpMethod == "POST" && |r.path| >= |suffix| && r.path[|r.path| - |suffix|..] == suffix
  }

  /** A missing or empty address is counted under one name. */
  function BucketOf(r: Request): Ip {
    if r.host.None? || r.host.value == "" then "unknown" else r.host.value
  }

  /** Exactly the POSTs to a path that ends in /auth/login are counted. */
  lemma LimitedExactly(r: Request)
    ensures IsLogin(r) <==> r.httpMethod == "POST" && exists prefix :: r.path == prefix + "/auth/login"
  {
    var suffix := "/auth/login";
    if r.httpMethod == "POST" {
      if IsLogin(r) {
        assert r.path == r.path[..|r.path| - |suffix|] + suffix;
      }
      if prefix :| r.path == prefix + suffix {
        assert r.path[|r.path| - |suffix|..] == suffix;
      }
    }
  }

  /** Two requests are counted together exactly if they come from the same address; those without one
      are counted as coming from "unknown". */
  lemma BucketsExactly(r: Request, q: Request)
    ensures r.host.Some? && r.host.value != "" ==> BucketOf(r) == r.host.value
    ensures r.host in {None, Some("")} ==> BucketOf(r) == "unknown"
    ensures r.host.Some? && q.host.Some? && r.host.value != "" && q.host.value != "" ==>
              (BucketOf(r) == BucketOf(q) <==> r.host == q.host)
  {}

  /** The times less than `window` before `now`. */
  function Recent(times: seq<real>, now: real, window: real): (r: seq<real>)
    ensures forall t <- r :: t in times && now - t < window
  {
    Filter((t: real) => now - t < window, times)
  }

  ghost predicate Ascending(times: seq<real>) {
    forall i, j | 0 <= i < j < |times| :: times[i] <= times[j]
  }

  /** Of ascending times, the recent ones are a suffix. */
  lemma {:induction false} RecentIsSuffix(times: seq<real>, now: real, window: real)
    requires Ascending(times)
    ensures var n := |times| - |Recent(times, now, window)|;
            Recent(times, now, window) == times[n..] && forall i | 0 <= i < n :: now - times[i] >= window
  {
    if times != [] {
      RecentIsSuffix(times[1..], now, window);
      var n := |times[1..]| - |Recent(times[1..], now, window)|;
      assert Recent(times[1..], now, window) == times[1..][n..];
      if now - times[0] < window {
        assert forall t <- times[1..] :: times[0] <= t;
        assert Recent(times[1..], now, window) == times[1..];
        assert times == [times[0]] + times[1..];
      } else {
        assert times[1..][n..] == times[n + 1..];
        forall i | 0 <= i < n + 1 ensures now - times[i] >= window {
          if i > 0 {
            assert times[i] == times[1..][i - 1];
          }
        }
      }
    }
  }

  /** Pruning early does not lose what a later request has to count. */
  lemma {:induction false} PruneTwice(times: seq<real>, earlier: real, now: real, window: real)
    requires earlier <= now
    ensures Recent(Recent(times, earlier, window), now, window) == Recent(times, now, window)
  {
    FilterTwice((t: real) => earlier - t < window, (t: real) => now - t < window, (t: real) => now - t < window, times);
  }

  lemma {:induction false} RecentAppend(times: seq<real>, t: real, now: real, window: real)
    ensures Recent(times + [t], now, window) == Recent(times, now, window) + (if now - t < window then [t] else [])
  {
    if times == [] {
      assert [] + [t] == [t] && [t][1..] == [];
    } else {
      assert (times + [t])[1..] == times[1..] + [t];
      RecentAppend(times[1..], t, now, window);
    }
  }

  /** Any max + 1 consecutive times span at least the window. */
  ghost predicate Spaced(times: seq<real>, max: nat, window: real) {
    forall i: nat | i + max < |times| :: times[i + max] - times[i] >= window
  }

  lemma SpacedAppend(times: seq<real>, now: real, max: nat, window: real)
    requires Ascending(times) && Spaced(times, max, window)
    requires |Recent(times, now, window)| < max
    ensures Spaced(times + [now], max, window)
  {
    RecentIsSuffix(times, now, window);
    var all := times + [now];
    forall i: nat | i + max < |all| ensures all[i + max] - all[i] >= window {
      if i + max == |times| {
        assert i < |times| - |Recent(times, now, window)|;
      }
    }
  }

  /** From `clock` on, what is kept counts like the full history. */
  ghost predicate Agrees(kept: seq<real>, full: seq<real>, clock: real, window: real) {
    forall now: real | clock <= now :: Recent(kept, now, window) == Recent(full, now, window)
  }

  lemma AgreesAppend(kept: seq<real>, full: seq<real>, clock: real, now: real, window: real)
    requires Agrees(kept, full, clock, window) && clock <= now
    ensures Agrees(Recent(kept, now, window) + [now], full + [now], now, window)
  {
    forall later: real | now <= later
      ensures Recent(Recent(kept, now, window) + [now], later, window) == Recent(full + [now], later, window)
    {
      RecentAppend(Recent(kept, now, window), now, later, window);
      RecentAppend(full, now, later, window);
      PruneTwice(kept, now, later, window);
    }
  }

  function Get(m: map<Ip, seq<real>>, ip: Ip): seq<real> {
    if ip in m then m[ip] else []
  }

  lemma GetAfterSet(m: map<Ip, seq<real>>, ip: Ip, times: seq<real>, other: Ip)
    ensures Get(map[], ip) == [] && Get(m[ip := times], ip) == times
    ensures other != ip ==> Get(m[ip := times], other) == Get(m, other)
  {}

  /** The history of one address up to `clock`. */
  ghost predicate GoodHistory(times: seq<real>, clock: real, max: nat, window: real) {
    Ascending(times) && (forall t <- times :: t <= clock) && Spaced(times, max, window)
  }

  lemma HistoryAppend(times: seq<real>, clock: real, now: real, max: nat, window: real)
    requires GoodHistory(times, clock, max, window) && clock <= now && |Recent(times, now, window)| < max
    ensures GoodHistory(times + [now], now, max, window)
  {
    SpacedAppend(times, now, max, window);
    var all := times + [now];
    forall i, j | 0 <= i < j < |all| ensures all[i] <= all[j] {
      assert i < |times| && times[i] in times;
    }
  }

  class Limiter {
    const maxAttempts: nat
    const window: real
    var attempts: map<Ip, seq<real>>

    /** Every login ever let through, never pruned, and the time of the latest request. */
    ghost var accepted: map<Ip, seq<real>>
    ghost var clock: real

    /** What is kept of an address counts like its full history, in which no `maxAttempts` + 1
        consecutive accepts lie within one window. */
    ghost predicate Valid()
      reads this
    {
      forall ip: Ip ::
        && Agrees(Get(attempts, ip), Get(accepted, ip), clock, window)
        && GoodHistory(Get(accepted, ip), clock, maxAttempts, window)
    }

    constructor (start: real, maxAttempts: nat := 5, window: real := 60.0)
      ensures Valid() && this.maxAttempts == maxAttempts && this.window == window
      ensures attempts == map[] && accepted == map[] && clock == start
    {
      this.maxAttempts, this.window := maxAttempts, window;
      attempts, accepted, clock := map[], map[], start;
    }

    /** Answers 429 if and only if the full history of the address holds `maxAttempts` accepts inside the
        last window; a request let through is recorded, a rejected one leaves everything as it was. */
    method Dispatch(r: Request, now: real) returns (passed: bool)
      requires Valid() && clock <= now
      modifies this
      ensures Valid() && clock == now
      ensures !IsLogin(r) ==> passed && accepted == old(accepted) && attempts == old(attempts)
      ensures IsLogin(r) ==> var ip := BucketOf(r);
              && (passed <==> |Recent(Get(old(accepted), ip), now, window)| < maxAttempts)
              && (passed ==> accepted == old(accepted)[ip := Get(old(accepted), ip) + [now]]
                             && attempts == old(attempts)[ip := Recent(Get(old(attempts), ip), now, window) + [now]])
      ensures !passed ==> accepted == old(accepted) && attempts == old(attempts)
    {
      ghost var before := clock;
      clock := now;
      if !IsLogin(r) {
        return true;
      }
      var ip := BucketOf(r);
      var recent := Recent(Get(attempts, ip), now, window);
      assert recent == Recent(Get(accepted, ip), now, window);
      if |recent| >= maxAttempts {
        return false;
      }
      AgreesAppend(Get(attempts, ip), Get(accepted, ip), before, now, window);
      HistoryAppend(Get(accepted, ip), before, now, maxAttempts, window);
      accepted := accepted[ip := Get(accepted, ip) + [now]];
      attempts := attempts[ip := recent + [now]];
      passed := true;
      forall other: Ip
        ensures Agrees(Get(attempts, other), Get(accepted, other), now, window)
        ensures GoodHistory(Get(accepted, other), now, maxAttempts, window)
      {
        if other != ip {
          assert Get(attempts, other) == Get(old(attempts), other) && Get(accepted, other) == Get(old(accepted), other);
        }
      }
    }
  }

  /** The limiter as the server installs it: five attempts in 60 seconds. */
  method Install(start: real) returns (limiter: Limiter)
    ensures fresh(limiter) && limiter.Valid() && limiter.maxAttempts == 5 && limiter.window == 60.0
    ensures limiter.accepted == map[] && limiter.clock == start
  {
    limiter := new Limiter(start);
  }

  // ----- Whole request sequences -----

  datatype Arrival = Arrival(ip: Ip, at: real)

  /** The accepts of every address over a sequence of logins, judged by the full history. */
  function Accepts(logins: seq<Arrival>, max: nat, window: real): map<Ip, seq<real>> {
    if logins == [] then map[]
    else
      var before, last := Accepts(logins[..|logins| - 1], max, window), logins[|logins| - 1];
      if |Recent(Get(before, last.ip), last.at, window)| < max
      then before[last.ip := Get(before, last.ip) + [last.at]] else before
  }

  /** The table the middleware keeps over the same sequence. */
  function Kept(logins: seq<Arrival>, max: nat, window: real): map<Ip, seq<real>> {
    if logins == [] then map[]
    else
      var before, last := Kept(logins[..|logins| - 1], max, window), logins[|logins| - 1];
      var recent := Recent(Get(before, last.ip), last.at, window);
      if |recent| < max then before[last.ip := recent + [last.at]] else before
  }

  /** For every sequence of logins with a clock that does not run backwards: the pruned table decides
      like the full history, and of the accepts of one address any max + 1 consecutive ones span at
      least the window. */
  lemma {:induction false} LimiterIsExact(logins: seq<Arrival>, max: nat, window: real, ip: Ip, now: real)
    requires forall i, j | 0 <= i < j < |logins| :: logins[i].at <= logins[j].at
    requires forall a <- logins :: a.at <= now
    ensures Recent(Get(Kept(logins, max, window), ip), now, window)
            == Recent(Get(Accepts(logins, max, window), ip), now, window)
    ensures GoodHistory(Get(Accepts(logins, max, window), ip), now, max, window)
    ensures var full := Get(Accepts(logins, max, window), ip);
            forall i: nat | i + max < |full| :: full[i + max] - full[i] >= window
  {
    if logins != [] {
      var init, last := logins[..|logins| - 1], logins[|logins| - 1];
      LimiterIsExact(init, max, window, last.ip, last.at);
      LimiterIsExact(init, max, window, ip, now);
      var kept, full := Get(Kept(init, max, window), ip), Get(Accepts(init, max, window), ip);
      if ip == last.ip && |Recent(full, last.at, window)| < max {
        LimiterIsExact(init, max, window, ip, last.at);
        RecentAppend(Recent(kept, last.at, window), last.at, now, window);
        RecentAppend(full, last.at, now, window);
        PruneTwice(kept, last.at, now, window);
        HistoryAppend(full, last.at, last.at, max, window);
      }
    }
  }
}
