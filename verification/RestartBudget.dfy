/** The fixed-window restart budget of agents/orchestrator/core/go-hybrid-provider.js. */
module RestartBudget {
  datatype Config = Config(max: nat, windowMs: nat)

  /** `startedAt` 0 stands for null: both are falsy, and clock readings are positive. */
  datatype Budget = Budget(startedAt: int, restarts: nat)

  const UNUSED := Budget(0, 0)

  predicate OpensWindow(c: Config, b: Budget, now: int) {
    b.startedAt == 0 || now - b.startedAt > c.windowMs
  }

  function Register(c: Config, b: Budget, now: int): Budget {
    if OpensWindow(c, b, now) then Budget(now, 1) else b.(restarts := b.restarts + 1)
  }

  predicate Granted(c: Config, b: Budget, now: int) {
    Register(c, b, now).restarts <= c.max
  }

  // ---------- Whole traces ----------

  datatype Trace = Trace(budget: Budget, grants: seq<int>)

  function Asked(c: Config, t: Trace, now: int): Trace {
    Trace(Register(c, t.budget, now), if Granted(c, t.budget, now) then t.grants + [now] else t.grants)
  }

  function Run(c: Config, times: seq<int>): Trace {
    if times == [] then Trace(UNUSED, []) else Asked(c, Run(c, times[..|times| - 1]), times[|times| - 1])
  }

  ghost predicate Chronological(times: seq<int>) {
    && (forall i :: 0 <= i < |times| ==> 0 < times[i])
    && (forall i, j :: 0 <= i <= j < |times| ==> times[i] <= times[j])
  }

  /** The number of entries in the closed interval [lo, hi]. */
  function CountIn(ts: seq<int>, lo: int, hi: int): nat {
    if ts == [] then 0
    else CountIn(ts[..|ts| - 1], lo, hi) + if lo <= ts[|ts| - 1] <= hi then 1 else 0
  }

  lemma CountSnoc(ts: seq<int>, x: int, lo: int, hi: int)
    ensures CountIn(ts + [x], lo, hi) == CountIn(ts, lo, hi) + if lo <= x <= hi then 1 else 0
  {
    assert (ts + [x])[..|ts|] == ts;
  }

  lemma {:induction false} CountSplit(ts: seq<int>, lo: int, mid: int, hi: int)
    requires lo <= mid + 1 <= hi + 1
    ensures CountIn(ts, lo, hi) == CountIn(ts, lo, mid) + CountIn(ts, mid + 1, hi)
  {
    if ts != [] {
      CountSplit(ts[..|ts| - 1], lo, mid, hi);
    }
  }

  lemma {:induction false} CountShrinks(ts: seq<int>, lo: int, hi: int, lo': int, hi': int)
    requires lo' <= lo && (hi <= hi' || forall i :: 0 <= i < |ts| ==> ts[i] <= hi')
    ensures CountIn(ts, lo, hi) <= CountIn(ts, lo', hi')
  {
    if ts != [] {
      CountShrinks(ts[..|ts| - 1], lo, hi, lo', hi');
    }
  }

  lemma {:induction false} CountNone(ts: seq<int>, lo: int, hi: int)
    requires forall i :: 0 <= i < |ts| ==> ts[i] < lo
    ensures CountIn(ts, lo, hi) == 0
  {
    if ts != [] {
      CountNone(ts[..|ts| - 1], lo, hi);
    }
  }

  function Spent(c: Config, b: Budget): nat {
    if b.restarts <= c.max then b.restarts else c.max
  }

  /** The grants of the current window, and how few of the previous one can share an interval with them. */
  ghost predicate Accounted(c: Config, t: Trace, now: int) {
    var start := t.budget.startedAt;
    && (forall i :: 0 <= i < |t.grants| ==> t.grants[i] <= now)
    && (start == 0 ==> t == Trace(UNUSED, []))
    && (start != 0 ==>
      && 0 < start <= now <= start + c.windowMs && t.budget.restarts >= 1
      && CountIn(t.grants, start, now) == Spent(c, t.budget)
      && (c.max >= 1 ==>
        && CountIn(t.grants, start + 1, now) <= Spent(c, t.budget) - 1
        && CountIn(t.grants, start - c.windowMs, start - 1) <= c.max - 1))
  }

  lemma NextWindowCounts(c: Config, t: Trace, last: int, now: int, grants: seq<int>)
    requires last <= now && 0 < now && Accounted(c, t, last) && OpensWindow(c, t.budget, now)
    requires c.max >= 1 && grants == t.grants + [now]
    ensures CountIn(grants, now, now) == 1 && CountIn(grants, now + 1, now) == 0
    ensures CountIn(grants, now - c.windowMs, now - 1) <= c.max - 1
  {
    var start := t.budget.startedAt;
    CountSnoc(t.grants, now, now, now);
    CountSnoc(t.grants, now, now + 1, now);
    CountSnoc(t.grants, now, now - c.windowMs, now - 1);
    CountNone(t.grants, now + 1, now);
    if start != 0 {
      CountNone(t.grants, now, now);
      CountShrinks(t.grants, now - c.windowMs, now - 1, start + 1, last);
    }
  }

  lemma NextWindow(c: Config, t: Trace, last: int, now: int)
    requires last <= now && 0 < now && Accounted(c, t, last) && OpensWindow(c, t.budget, now)
    ensures Accounted(c, Asked(c, t, now), now)
  {
    if c.max >= 1 {
      NextWindowCounts(c, t, last, now, t.grants + [now]);
    } else if t.budget.startedAt != 0 {
      CountNone(t.grants, now, now);
    }
  }

  lemma SameWindow(c: Config, t: Trace, last: int, now: int)
    requires last <= now && 0 < now && Accounted(c, t, last) && !OpensWindow(c, t.budget, now)
    ensures Accounted(c, Asked(c, t, now), now)
  {
    var start := t.budget.startedAt;
    ExtendsTo(t.grants, start, last, now);
    ExtendsTo(t.grants, start + 1, last, now);
    CountSnoc(t.grants, now, start, now);
    CountSnoc(t.grants, now, start + 1, now);
    CountSnoc(t.grants, now, start - c.windowMs, start - 1);
  }

  lemma ExtendsTo(ts: seq<int>, lo: int, last: int, now: int)
    requires last <= now && forall i :: 0 <= i < |ts| ==> ts[i] <= last
    ensures CountIn(ts, lo, now) == CountIn(ts, lo, last)
  {
    CountShrinks(ts, lo, now, lo, last);
    CountShrinks(ts, lo, last, lo, now);
  }

  lemma {:induction false} RunAccounted(c: Config, times: seq<int>)
    requires Chronological(times)
    ensures Accounted(c, Run(c, times), if times == [] then 0 else times[|times| - 1])
  {
    if times != [] {
      var init, now := times[..|times| - 1], times[|times| - 1];
      RunAccounted(c, init);
      var last := if init == [] then 0 else init[|init| - 1];
      if OpensWindow(c, Run(c, init).budget, now) {
        NextWindow(c, Run(c, init), last, now);
      } else {
        SameWindow(c, Run(c, init), last, now);
      }
    }
  }

  function Bound(c: Config): nat {
    if c.max == 0 then 0 else 2 * c.max - 1
  }

  lemma AccountedBound(c: Config, t: Trace, now: int, lo: int)
    requires c.max >= 1 && Accounted(c, t, now) && t.budget.startedAt != 0 && lo <= now <= lo + c.windowMs
    ensures CountIn(t.grants, lo, lo + c.windowMs) <= Bound(c)
  {
    var start := t.budget.startedAt;
    CountShrinks(t.grants, lo, lo + c.windowMs, lo, now);
    if lo > start {
      CountShrinks(t.grants, lo, now, start + 1, now);
    } else {
      CountSplit(t.grants, lo, start - 1, now);
      CountShrinks(t.grants, lo, start - 1, start - c.windowMs, start - 1);
    }
  }

  /**
    On every trace, a closed interval of the window's length holds fewer than twice the budget of granted restarts:
    it cannot meet two windows and hold the opening restart of the first one as well.
   */
  lemma {:induction false} IntervalBound(c: Config, times: seq<int>, lo: int)
    requires Chronological(times)
    ensures CountIn(Run(c, times).grants, lo, lo + c.windowMs) <= Bound(c)
  {
    if c.max == 0 {
      NoGrants(c, times);
    } else if times != [] {
      var now := times[|times| - 1];
      if lo <= now <= lo + c.windowMs {
        RunAccounted(c, times);
        AccountedBound(c, Run(c, times), now, lo);
      } else {
        IntervalBound(c, times[..|times| - 1], lo);
        CountSnoc(Run(c, times[..|times| - 1]).grants, now, lo, lo + c.windowMs);
      }
    }
  }

  lemma {:induction false} NoGrants(c: Config, times: seq<int>)
    requires c.max == 0
    ensures Run(c, times).grants == []
  {
    if times != [] {
      NoGrants(c, times[..|times| - 1]);
    }
  }

  /** A refusal means that the whole budget was granted within the window's length before it. */
  lemma RefusedOnlyWhenSpent(c: Config, times: seq<int>, now: int)
    requires Chronological(times) && (times != [] ==> times[|times| - 1] <= now)
    requires !Granted(c, Run(c, times).budget, now)
    ensures CountIn(Run(c, times).grants, now - c.windowMs, now) >= c.max
  {
    var t := Run(c, times);
    if c.max > 0 {
      RunAccounted(c, times);
      CountShrinks(t.grants, t.budget.startedAt, times[|times| - 1], now - c.windowMs, now);
    }
  }

  function Repeat(x: int, k: nat): seq<int> {
    if k == 0 then [] else Repeat(x, k - 1) + [x]
  }

  lemma RepeatSnoc(ts: seq<int>, x: int, k: nat)
    requires k > 0
    ensures ts + Repeat(x, k) == ts + Repeat(x, k - 1) + [x]
  {
  }

  lemma RunSnoc(c: Config, times: seq<int>, now: int)
    ensures Run(c, times + [now]) == Asked(c, Run(c, times), now)
  {
    assert (times + [now])[..|times|] == times;
  }

  lemma {:induction false} RepeatGrants(c: Config, times: seq<int>, now: int, k: nat)
    requires var b := Run(c, times).budget; !OpensWindow(c, b, now) && b.restarts + k <= c.max
    ensures var t := Run(c, times);
      Run(c, times + Repeat(now, k)) == Trace(t.budget.(restarts := t.budget.restarts + k), t.grants + Repeat(now, k))
  {
    if k == 0 {
      assert times + Repeat(now, 0) == times;
    } else {
      RepeatGrants(c, times, now, k - 1);
      RunSnoc(c, times + Repeat(now, k - 1), now);
      RepeatSnoc(times, now, k);
      RepeatSnoc(Run(c, times).grants, now, k);
    }
  }

  lemma {:induction false} CountRepeat(ts: seq<int>, x: int, k: nat, lo: int, hi: int)
    requires lo <= x <= hi
    ensures CountIn(ts + Repeat(x, k), lo, hi) == CountIn(ts, lo, hi) + k
  {
    if k == 0 {
      assert ts + Repeat(x, 0) == ts;
    } else {
      CountRepeat(ts, x, k - 1, lo, hi);
      RepeatSnoc(ts, x, k);
      CountSnoc(ts + Repeat(x, k - 1), x, lo, hi);
    }
  }

  /**
    The bound is attained: one restart, the rest of the budget a window later, and a whole budget a tick after that.
   */
  lemma BoundIsAttained(c: Config)
    requires c.max >= 1 && c.windowMs >= 1
    ensures var w := c.windowMs;
      var times := [1] + Repeat(w + 1, c.max - 1) + [w + 2] + Repeat(w + 2, c.max - 1);
      CountIn(Run(c, times).grants, 2, 2 + w) == Bound(c)
  {
    var w, m := c.windowMs, c.max;
    RunSnoc(c, [], 1);
    assert [] + [1] == [1];
    assert Run(c, [1]) == Trace(Budget(1, 1), [1]);
    RepeatGrants(c, [1], w + 1, m - 1);
    RunSnoc(c, [1] + Repeat(w + 1, m - 1), w + 2);
    RepeatGrants(c, [1] + Repeat(w + 1, m - 1) + [w + 2], w + 2, m - 1);
    CountSnoc([], 1, 2, 2 + w);
    CountRepeat([1], w + 1, m - 1, 2, 2 + w);
    CountSnoc([1] + Repeat(w + 1, m - 1), w + 2, 2, 2 + w);
    CountRepeat([1] + Repeat(w + 1, m - 1) + [w + 2], w + 2, m - 1, 2, 2 + w);
  }
}
