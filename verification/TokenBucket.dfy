/**
  The token-bucket rate limiter of ai-agents/reasoning/forecast-reasoner.js, with time as an explicit real parameter.
 */
module TokenBucket {
  datatype Config = Config(rate: real, burst: real)   // tokens per millisecond; bucket size
  datatype Bucket = Bucket(tokens: real, lastUpdateTime: real)

  predicate Sensible(c: Config) {
    c.rate > 0.0 && c.burst > 0.0
  }

  const DEFAULT_REQUESTS_PER_MINUTE := 60.0
  const DEFAULT_BURST_SIZE := 10.0

  function Configured(requestsPerMinute: real, burstSize: real): Config {
    Config((if requestsPerMinute == 0.0 then DEFAULT_REQUESTS_PER_MINUTE else requestsPerMinute) / 60000.0,
           if burstSize == 0.0 then DEFAULT_BURST_SIZE else burstSize)
  }

  /** What flows in over a duration. */
  function Inflow(c: Config, duration: real): real {
    duration * c.rate
  }

  /** The configured rate flows in once a minute; zero settings mean sixty a minute and a burst of ten. */
  lemma ConfiguredPerMinute(requestsPerMinute: real, burstSize: real)
    ensures var c := Configured(requestsPerMinute, burstSize);
      && Inflow(c, 60000.0) == (if requestsPerMinute == 0.0 then 60.0 else requestsPerMinute)
      && c.burst == (if burstSize == 0.0 then 10.0 else burstSize)
  {
  }

  lemma InflowAdds(c: Config, a: real, b: real, total: real)
    requires total == a + b
    ensures Inflow(c, total) == Inflow(c, a) + Inflow(c, b)
  {
    assert (a + b) * c.rate == a * c.rate + b * c.rate;
  }

  lemma InflowNonNegative(c: Config, duration: real)
    requires c.rate > 0.0 && duration >= 0.0
    ensures Inflow(c, duration) >= 0.0
  {
  }

  function Refilled(c: Config, b: Bucket, now: real): real {
    var more := b.tokens + Inflow(c, now - b.lastUpdateTime);
    if c.burst < more then c.burst else more
  }

  predicate Grants(c: Config, b: Bucket, now: real) {
    Refilled(c, b, now) >= 1.0
  }

  function Attempt(c: Config, b: Bucket, now: real): Bucket {
    Bucket(if Grants(c, b, now) then Refilled(c, b, now) - 1.0 else Refilled(c, b, now), now)
  }

  function Wait(c: Config, b: Bucket, now: real): real
    requires Sensible(c)
  {
    (1.0 - Refilled(c, b, now)) / c.rate
  }

  class RateLimiter {
    const tokensPerMs: real
    const burstSize: real
    var tokens: real
    var lastUpdateTime: real

    ghost function Conf(): Config {
      Config(tokensPerMs, burstSize)
    }

    ghost function Abs(): Bucket
      reads this
    {
      Bucket(tokens, lastUpdateTime)
    }

    constructor (requestsPerMinute: real, burstSize: real, now: real)
      ensures Conf() == Configured(requestsPerMinute, burstSize)
      ensures Abs() == Bucket(this.burstSize, now)
    {
      var perMinute := if requestsPerMinute == 0.0 then 60.0 else requestsPerMinute;
      var burst := if burstSize == 0.0 then 10.0 else burstSize;
      tokensPerMs := perMinute / 60000.0;
      this.burstSize := burst;
      tokens := burst;
      lastUpdateTime := now;
    }

    /** One pass of `acquire`: up to its return, or up to going to sleep for `wait`. */
    method TryAcquire(now: real) returns (granted: bool, wait: real)
      requires Sensible(Conf())
      modifies this
      ensures Abs() == Attempt(Conf(), old(Abs()), now)
      ensures granted <==> Grants(Conf(), old(Abs()), now)
      ensures wait == if granted then 0.0 else Wait(Conf(), old(Abs()), now)
    {
      var timeSinceLastUpdate := now - lastUpdateTime;
      var tokensToAdd := timeSinceLastUpdate * tokensPerMs;
      tokens := if burstSize < tokens + tokensToAdd then burstSize else tokens + tokensToAdd;
      lastUpdateTime := now;
      granted := tokens >= 1.0;
      if granted {
        tokens := tokens - 1.0;
        wait := 0.0;
      } else {
        wait := (1.0 - tokens) / tokensPerMs;
      }
    }

    /**
      The whole of `acquire` for a lone caller whose timer fires `late` after the requested time: two passes at most.
     */
    method Acquire(now: real, late: real) returns (at: real)
      requires Sensible(Conf()) && burstSize >= 1.0 && late >= 0.0
      modifies this
      ensures at == if Grants(Conf(), old(Abs()), now) then now else now + Wait(Conf(), old(Abs()), now) + late
      decreases if Grants(Conf(), Abs(), now) then 0 else 1
    {
      var granted, wait := TryAcquire(now);
      if granted {
        at := now;
      } else {
        RetryGrantsIff(Conf(), old(Abs()), now, wait + late);
        at := Acquire(now + (wait + late), late);
      }
    }
  }

  /**
    After a refusal, a retry `d` later with nobody in between succeeds exactly when `d` is at least the computed wait.
   */
  lemma RetryGrantsIff(c: Config, b: Bucket, now: real, d: real)
    requires Sensible(c) && !Grants(c, b, now) && d >= 0.0
    ensures Grants(c, Attempt(c, b, now), now + d) <==> c.burst >= 1.0 && d >= Wait(c, b, now)
  {
    WaitFills(c.rate, Refilled(c, b, now), d);
  }

  lemma WaitFills(rate: real, tokens: real, d: real)
    requires rate > 0.0
    ensures tokens + d * rate >= 1.0 <==> d >= (1.0 - tokens) / rate
  {
    var w := (1.0 - tokens) / rate;
    assert w * rate == 1.0 - tokens;
    if d >= w {
      assert (d - w) * rate >= 0.0;
    } else {
      assert (w - d) * rate > 0.0;
    }
  }

  // ---------- Whole traces ----------

  /** The bucket, and the times of all grants so far. */
  datatype Log = Log(bucket: Bucket, grants: seq<real>)

  /** Passes of any number of callers, at the given times, on a bucket created at `t0`. */
  function Run(c: Config, t0: real, times: seq<real>): Log {
    if times == [] then Log(Bucket(c.burst, t0), [])
    else
      var l, now := Run(c, t0, times[..|times| - 1]), times[|times| - 1];
      Log(Attempt(c, l.bucket, now), if Grants(c, l.bucket, now) then l.grants + [now] else l.grants)
  }

  ghost predicate Chronological(t0: real, times: seq<real>) {
    && (forall i :: 0 <= i < |times| ==> t0 <= times[i])
    && (forall i, j :: 0 <= i <= j < |times| ==> times[i] <= times[j])
  }

  /** The number of grants at or after `s`. */
  function CountSince(grants: seq<real>, s: real): nat {
    if grants == [] then 0
    else CountSince(grants[..|grants| - 1], s) + if s <= grants[|grants| - 1] then 1 else 0
  }

  /** The number of grants in the closed interval [s, t]. */
  function CountIn(grants: seq<real>, s: real, t: real): nat {
    if grants == [] then 0
    else CountIn(grants[..|grants| - 1], s, t) + if s <= grants[|grants| - 1] <= t then 1 else 0
  }

  /** What the window from `s` to `now` may hold: the burst, plus what flows in meanwhile. */
  function Allowance(c: Config, s: real, now: real): real {
    c.burst + Inflow(c, now - s)
  }

  lemma AllowanceAccrues(c: Config, s: real, mid: real, now: real)
    ensures Allowance(c, s, now) == Allowance(c, s, mid) + Inflow(c, now - mid)
  {
    InflowAdds(c, mid - s, now - mid, now - s);
  }

  lemma AllowanceAtLeastBurst(c: Config, s: real, now: real)
    requires Sensible(c) && s <= now
    ensures Allowance(c, s, now) >= c.burst
  {
    InflowNonNegative(c, now - s);
  }

  lemma {:induction false} NoGrantsAfter(grants: seq<real>, last: real, s: real)
    requires forall i :: 0 <= i < |grants| ==> grants[i] <= last
    requires last < s
    ensures CountSince(grants, s) == 0
  {
    if grants != [] {
      NoGrantsAfter(grants[..|grants| - 1], last, s);
    }
  }

  /**
    The grants of every window plus the tokens left fit its allowance, and for window start `tight` they exhaust it.
   */
  ghost predicate Accounted(c: Config, grants: seq<real>, tokens: real, now: real, tight: real) {
    && (forall i :: 0 <= i < |grants| ==> grants[i] <= now)
    && 0.0 <= tokens <= c.burst
    && (forall s :: s <= now ==> CountSince(grants, s) as real + tokens <= Allowance(c, s, now))
    && tight <= now
    && CountSince(grants, tight) as real + tokens == Allowance(c, tight, now)
  }

  lemma RefillAddsNoMore(c: Config, b: Bucket, now: real, granted: real, s: real)
    requires granted + b.tokens <= Allowance(c, s, b.lastUpdateTime)
    ensures granted + Refilled(c, b, now) <= Allowance(c, s, now)
  {
    AllowanceAccrues(c, s, b.lastUpdateTime, now);
  }

  lemma RefillWithinAllowance(c: Config, grants: seq<real>, b: Bucket, tight: real, now: real, s: real)
    requires Sensible(c) && b.lastUpdateTime <= now && s <= now
    requires Accounted(c, grants, b.tokens, b.lastUpdateTime, tight)
    ensures CountSince(grants, s) as real + Refilled(c, b, now) <= Allowance(c, s, now)
  {
    if s <= b.lastUpdateTime {
      RefillAddsNoMore(c, b, now, CountSince(grants, s) as real, s);
    } else {
      NoGrantsAfter(grants, b.lastUpdateTime, s);
      AllowanceAtLeastBurst(c, s, now);
    }
  }

  lemma RefillNonNegative(c: Config, b: Bucket, now: real)
    requires Sensible(c) && b.lastUpdateTime <= now && 0.0 <= b.tokens <= c.burst
    ensures b.tokens <= Refilled(c, b, now) <= c.burst
  {
    InflowNonNegative(c, now - b.lastUpdateTime);
  }

  /** Time passes: the refilled bucket accounts for the grants at the new time. */
  lemma RefillAccounts(c: Config, grants: seq<real>, b: Bucket, tight: real, now: real) returns (tight': real)
    requires Sensible(c) && b.lastUpdateTime <= now
    requires Accounted(c, grants, b.tokens, b.lastUpdateTime, tight)
    ensures Accounted(c, grants, Refilled(c, b, now), now, tight')
  {
    RefillNonNegative(c, b, now);
    forall s | s <= now ensures CountSince(grants, s) as real + Refilled(c, b, now) <= Allowance(c, s, now) {
      RefillWithinAllowance(c, grants, b, tight, now, s);
    }
    tight' := RefillStaysTight(c, grants, b, tight, now);
  }

  lemma RefillStaysTight(c: Config, grants: seq<real>, b: Bucket, tight: real, now: real) returns (tight': real)
    requires Sensible(c) && b.lastUpdateTime <= now
    requires Accounted(c, grants, b.tokens, b.lastUpdateTime, tight)
    ensures tight' <= now && CountSince(grants, tight') as real + Refilled(c, b, now) == Allowance(c, tight', now)
  {
    if b.lastUpdateTime < now && Refilled(c, b, now) == c.burst {
      tight' := now;
      NoGrantsAfter(grants, b.lastUpdateTime, now);
    } else {
      tight' := tight;
      AllowanceAccrues(c, tight, b.lastUpdateTime, now);
    }
  }

  lemma {:induction false} RunAccounts(c: Config, t0: real, times: seq<real>) returns (tight: real)
    requires Sensible(c) && Chronological(t0, times)
    ensures var l := Run(c, t0, times); Accounted(c, l.grants, l.bucket.tokens, l.bucket.lastUpdateTime, tight)
    ensures Run(c, t0, times).bucket.lastUpdateTime == if times == [] then t0 else times[|times| - 1]
  {
    if times == [] {
      tight := t0;
      forall s | s <= t0 ensures Allowance(c, s, t0) >= c.burst {
        AllowanceAtLeastBurst(c, s, t0);
      }
    } else {
      var init, now := times[..|times| - 1], times[|times| - 1];
      var l := Run(c, t0, init);
      tight := RunAccounts(c, t0, init);
      tight := RefillAccounts(c, l.grants, l.bucket, tight, now);
      if Grants(c, l.bucket, now) {
        assert Run(c, t0, times).grants[..|l.grants|] == l.grants;
      }
    }
  }

  /** On every trace, the bucket never holds less than nothing or more than the burst. */
  lemma {:induction false} TokensStayInBucket(c: Config, t0: real, times: seq<real>)
    requires Sensible(c) && Chronological(t0, times)
    ensures 0.0 <= Run(c, t0, times).bucket.tokens <= c.burst
  {
    var tight := RunAccounts(c, t0, times);
  }

  /**
    The two numbers of the bucket are as good as the full history: an attempt is granted exactly when, for every
    window that ends now, one more grant would still fit the window's allowance.
   */
  lemma GrantedIffEveryWindowAllows(c: Config, t0: real, times: seq<real>, now: real)
    requires Sensible(c) && Chronological(t0, times) && (if times == [] then t0 else times[|times| - 1]) <= now
    ensures var l := Run(c, t0, times);
      Grants(c, l.bucket, now) <==>
      forall s :: s <= now ==> CountSince(l.grants, s) as real + 1.0 <= Allowance(c, s, now)
  {
    var l := Run(c, t0, times);
    var tight := RunAccounts(c, t0, times);
    var tight' := RefillAccounts(c, l.grants, l.bucket, tight, now);
  }

  lemma {:induction false} CountInAtMostSince(grants: seq<real>, s: real, t: real)
    ensures CountIn(grants, s, t) <= CountSince(grants, s)
  {
    if grants != [] {
      CountInAtMostSince(grants[..|grants| - 1], s, t);
    }
  }

  lemma AllowanceGrows(c: Config, s: real, mid: real, t: real)
    requires Sensible(c) && mid <= t
    ensures Allowance(c, s, mid) <= Allowance(c, s, t)
  {
    AllowanceAccrues(c, s, mid, t);
    InflowNonNegative(c, t - mid);
  }

  /** The bound for intervals that end after the last attempt. */
  lemma OpenIntervalBound(c: Config, t0: real, times: seq<real>, s: real, t: real)
    requires Sensible(c) && Chronological(t0, times) && s <= t && times != [] && times[|times| - 1] <= t
    ensures CountSince(Run(c, t0, times).grants, s) as real <= Allowance(c, s, t)
  {
    var l, last := Run(c, t0, times), times[|times| - 1];
    var tight := RunAccounts(c, t0, times);
    if s <= last {
      assert CountSince(l.grants, s) as real + l.bucket.tokens <= Allowance(c, s, last);
      AllowanceGrows(c, s, last, t);
    } else {
      NoGrantsAfter(l.grants, last, s);
      AllowanceAtLeastBurst(c, s, t);
    }
  }

  lemma CountInSnoc(grants: seq<real>, x: real, s: real, t: real)
    ensures CountIn(grants + [x], s, t) == CountIn(grants, s, t) + if s <= x <= t then 1 else 0
  {
    assert (grants + [x])[..|grants|] == grants;
  }

  /** On every trace, the grants in any closed interval [s, t] number at most burst + rate * (t - s). */
  lemma {:induction false} IntervalBound(c: Config, t0: real, times: seq<real>, s: real, t: real)
    requires Sensible(c) && Chronological(t0, times) && s <= t
    ensures CountIn(Run(c, t0, times).grants, s, t) as real <= Allowance(c, s, t)
  {
    AllowanceAtLeastBurst(c, s, t);
    if times != [] {
      var last := times[|times| - 1];
      if last <= t {
        OpenIntervalBound(c, t0, times, s, t);
        CountInAtMostSince(Run(c, t0, times).grants, s, t);
      } else {
        IntervalBound(c, t0, times[..|times| - 1], s, t);
        CountInSnoc(Run(c, t0, times[..|times| - 1]).grants, last, s, t);
      }
    }
  }
}
