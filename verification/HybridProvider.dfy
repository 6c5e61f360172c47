/** The retry loop of agents/orchestrator/core/go-hybrid-provider.js around its external key-exchange command. */
module HybridProvider {
  import opened Options
  import opened RestartBudget

  datatype Category =
    | ReadinessFailed | InvalidJsonResponse | InvalidPayload | Timeout | RestartBudgetExceeded | ExecutionFailed

  function LowerChar(ch: char): char {
    if 'A' <= ch <= 'Z' then (ch as int + 32) as char else ch
  }

  /** Lower case on ASCII letters, which is all the patterns below consist of. */
  function Lower(s: string): string {
    seq(|s|, i requires 0 <= i < |s| => LowerChar(s[i]))
  }

  predicate OccursAt(text: string, pattern: string, i: nat) {
    i + |pattern| <= |text| && text[i..i + |pattern|] == pattern
  }

  predicate Includes(text: string, pattern: string) {
    exists i: nat :: i <= |text| && OccursAt(text, pattern, i)
  }

  /** Text `t` contains `p`. */
  ghost predicate Contains(t: string, p: string) {
    exists before: string, after: string :: t == before + p + after
  }

  lemma IncludesIffContains(t: string, p: string)
    ensures Includes(t, p) <==> Contains(t, p)
  {
    if Includes(t, p) {
      var i: nat :| i <= |t| && OccursAt(t, p, i);
      assert t == t[..i] + p + t[i + |p|..];
    }
    if Contains(t, p) {
      var before: string, after: string :| t == before + p + after;
      assert OccursAt(t, p, |before|);
    }
  }

  /** `t` is `m` with every capital Latin letter replaced by its small one. */
  ghost predicate IsLowerCaseOf(t: string, m: string) {
    && |t| == |m|
    && forall i :: 0 <= i < |m| ==>
      if 'A' <= m[i] <= 'Z' then 'a' <= t[i] <= 'z' && t[i] - 'a' == m[i] - 'A' else t[i] == m[i]
  }

  function ClassifyProviderError(message: string): Category {
    var text := Lower(message);
    if Includes(text, READINESS_FAILED) then ReadinessFailed
    else if Includes(text, "invalid json") then InvalidJsonResponse
    else if Includes(text, "missing required fields") then InvalidPayload
    else if Includes(text, "timed out") then Timeout
    else if Includes(text, "restart budget exceeded") then RestartBudgetExceeded
    else ExecutionFailed
  }

  predicate CanRetryProviderError(category: Category) {
    category.ReadinessFailed? || category.ExecutionFailed? || category.Timeout?
  }

  /** The category of a message: the first of five patterns that its lower-case text contains decides. */
  lemma CategoryByText(m: string) returns (t: string)
    ensures IsLowerCaseOf(t, m)
    ensures ClassifyProviderError(m) ==
      if Contains(t, "readiness check failed") then ReadinessFailed
      else if Contains(t, "invalid json") then InvalidJsonResponse
      else if Contains(t, "missing required fields") then InvalidPayload
      else if Contains(t, "timed out") then Timeout
      else if Contains(t, "restart budget exceeded") then RestartBudgetExceeded
      else ExecutionFailed
  {
    t := Lower(m);
    IncludesIffContains(t, "readiness check failed");
    IncludesIffContains(t, "invalid json");
    IncludesIffContains(t, "missing required fields");
    IncludesIffContains(t, "timed out");
    IncludesIffContains(t, "restart budget exceeded");
  }

  lemma LowerConcat(a: string, b: string)
    ensures Lower(a + b) == Lower(a) + Lower(b)
  {
  }

  const READINESS_PREFIX := "Hybrid KEX provider "
  const READINESS_FAILED := "readiness check failed"

  lemma ReadinessPatternIsLowerCase()
    ensures Lower(READINESS_FAILED) == READINESS_FAILED
  {
    var p := READINESS_FAILED;
    assert forall i :: 0 <= i < |p| ==> p[i] == ' ' || 'a' <= p[i] <= 'z';
  }

  /** A failed readiness check is retried whatever the text of the underlying error says. */
  lemma ReadinessFailuresAreRetried(detail: string)
    ensures var message := READINESS_PREFIX + READINESS_FAILED + ": " + detail;
      ClassifyProviderError(message) == ReadinessFailed && CanRetryProviderError(ClassifyProviderError(message))
  {
    var tail := ": " + detail;
    var message := READINESS_PREFIX + READINESS_FAILED + ": " + detail;
    assert message == READINESS_PREFIX + (READINESS_FAILED + tail);
    LowerConcat(READINESS_PREFIX, READINESS_FAILED + tail);
    LowerConcat(READINESS_FAILED, tail);
    ReadinessPatternIsLowerCase();
    assert OccursAt(Lower(message), READINESS_FAILED, |READINESS_PREFIX|);
  }

  /** One attempt: it succeeds, or fails with a message, having passed the readiness check or not. */
  datatype Outcome = Succeeded | Failed(message: string, ready: bool)
  datatype Derived = Session | DeriveError(category: Category)

  predicate Retryable(o: Outcome) {
    o.Failed? && CanRetryProviderError(ClassifyProviderError(o.message))
  }

  /**
    Which failures are retried, from the text alone: failed readiness checks; and otherwise, unless the response was
    malformed, timeouts and whatever is not the exhausted budget.
   */
  lemma RetryableByText(m: string, ready: bool) returns (t: string)
    ensures IsLowerCaseOf(t, m) && !Retryable(Succeeded)
    ensures Retryable(Failed(m, ready)) <==>
      || Contains(t, "readiness check failed")
      || (!Contains(t, "invalid json") && !Contains(t, "missing required fields")
          && (Contains(t, "timed out") || !Contains(t, "restart budget exceeded")))
  {
    t := CategoryByText(m);
  }

  /** The budget after registering restarts at the first `k` of the given times. */
  function BudgetAfter(c: Config, b: Budget, times: seq<int>, k: nat): Budget
    requires k <= |times|
  {
    if k == 0 then b else Register(c, BudgetAfter(c, b, times, k - 1), times[k - 1])
  }

  /** The `i`-th failure (from 0) is retried: its category allows it and the budget grants the restart. */
  predicate Retried(c: Config, b: Budget, outcomes: seq<Outcome>, times: seq<int>, i: nat)
    requires i < |outcomes| && i < |times|
  {
    Retryable(outcomes[i]) && Granted(c, BudgetAfter(c, b, times, i), times[i])
  }

  /** A call between its attempts: still trying after so many failed ones, or ended. */
  datatype Phase = Trying(failed: nat) | Ended(result: Derived)

  /** After its `failed`-th failure an attempt with outcome `o` asks the budget for a restart. */
  predicate AsksRestart(maxRetries: nat, failed: nat, o: Outcome) {
    failed < maxRetries && Retryable(o)
  }

  function PhaseAfter(c: Config, maxRetries: nat, b: Budget, failed: nat, o: Outcome, now: int): Phase {
    if o.Succeeded? then Ended(Session)
    else if !AsksRestart(maxRetries, failed, o) then Ended(DeriveError(ClassifyProviderError(o.message)))
    else if Granted(c, b, now) then Trying(failed + 1)
    else Ended(DeriveError(RestartBudgetExceeded))
  }

  function SpentAfter(c: Config, maxRetries: nat, b: Budget, failed: nat, o: Outcome, now: int): Budget {
    if AsksRestart(maxRetries, failed, o) then Register(c, b, now) else b
  }

  class Provider {
    const config: Config
    var active: bool
    var restartWindowStartedAt: int
    var restartsInWindow: nat
    var restartBudgetExceeded: bool
    var deriveCalls: nat
    var deriveAttempts: nat
    var recoveryAttempts: nat
    var lastErrorCategory: Option<Category>

    function Spending(): Budget
      reads this
    {
      Budget(restartWindowStartedAt, restartsInWindow)
    }

    constructor (config: Config)
      ensures this.config == config && Spending() == UNUSED && !active
      ensures deriveCalls == deriveAttempts == recoveryAttempts == 0
    {
      this.config := config;
      active, restartWindowStartedAt, restartsInWindow, restartBudgetExceeded := false, 0, 0, false;
      deriveCalls, deriveAttempts, recoveryAttempts, lastErrorCategory := 0, 0, 0, None;
    }

    /** True when the restart is within budget; false stands for the thrown error. */
    method RegisterProviderRestart(now: int) returns (granted: bool)
      modifies this`restartWindowStartedAt, this`restartsInWindow, this`restartBudgetExceeded
      ensures Spending() == Register(config, old(Spending()), now)
      ensures granted <==> Granted(config, old(Spending()), now)
      ensures restartBudgetExceeded == (old(restartBudgetExceeded) || !granted)
    {
      if restartWindowStartedAt == 0 || now - restartWindowStartedAt > config.windowMs {
        restartWindowStartedAt := now;
        restartsInWindow := 0;
      }
      restartsInWindow := restartsInWindow + 1;
      granted := restartsInWindow <= config.max;
      if !granted {
        restartBudgetExceeded := true;
      }
    }

    method StartProviderLifecycle(ready: bool)
      modifies this`active, this`restartBudgetExceeded
      ensures active <==> old(active) || ready
      ensures restartBudgetExceeded <==> old(restartBudgetExceeded) && (old(active) || !ready)
    {
      if !active && ready {
        active := true;
        restartBudgetExceeded := false;
      }
    }

    method StopProviderLifecycle()
      modifies this`active
      ensures !active
    {
      active := false;
    }

    /** What a call does, without waiting, when an attempt has ended; before it, `failed` attempts had failed. */
    method EndAttempt(failed: nat, outcome: Outcome, now: int, maxRetries: nat) returns (phase: Phase)
      modifies this
      ensures phase == PhaseAfter(config, maxRetries, old(Spending()), failed, outcome, now)
      ensures Spending() == SpentAfter(config, maxRetries, old(Spending()), failed, outcome, now)
      ensures phase == Ended(Session) ==> active
      ensures phase == Ended(DeriveError(RestartBudgetExceeded)) && Retryable(outcome) ==> restartBudgetExceeded
      ensures deriveCalls == old(deriveCalls) && deriveAttempts == old(deriveAttempts)
      ensures phase.Trying? ==> recoveryAttempts == old(recoveryAttempts) + 1 && !active
      ensures phase.Ended? ==> recoveryAttempts == old(recoveryAttempts)
      ensures phase.Ended? ==> lastErrorCategory == if phase.result.Session? then None else Some(phase.result.category)
    {
      StartProviderLifecycle(outcome.Succeeded? || outcome.ready);
      if outcome.Succeeded? {
        lastErrorCategory := None;
        return Ended(Session);
      }
      var category := ClassifyProviderError(outcome.message);
      if failed < maxRetries && CanRetryProviderError(category) {
        var granted := RegisterProviderRestart(now);
        if !granted {
          lastErrorCategory := Some(RestartBudgetExceeded);
          return Ended(DeriveError(RestartBudgetExceeded));
        }
        recoveryAttempts := recoveryAttempts + 1;
        StopProviderLifecycle();
        return Trying(failed + 1);
      }
      lastErrorCategory := Some(category);
      return Ended(DeriveError(category));
    }

    /**
      One `deriveSession` call that no other call interleaves with.  `outcomes[i]` is what attempt i meets and
      `times[i]` the clock when its failure would register a restart.
     */
    method DeriveSession(outcomes: seq<Outcome>, times: seq<int>, maxRetries: nat) returns (r: Derived, attempts: nat)
      requires |outcomes| > maxRetries && |times| > maxRetries
      modifies this
      ensures 1 <= attempts <= maxRetries + 1
      ensures forall i :: 0 <= i < attempts - 1 ==> Retried(config, old(Spending()), outcomes, times, i)
      ensures r.Session? <==> outcomes[attempts - 1].Succeeded?
      ensures r.DeriveError? ==>
        attempts == maxRetries + 1 || !Retried(config, old(Spending()), outcomes, times, attempts - 1)
      ensures var refused := r.DeriveError? && attempts <= maxRetries && Retryable(outcomes[attempts - 1]);
        && (refused ==> r.category == RestartBudgetExceeded)
        && (r.DeriveError? && !refused ==> r.category == ClassifyProviderError(outcomes[attempts - 1].message))
        && Spending() == BudgetAfter(config, old(Spending()), times, if refused then attempts else attempts - 1)
        && (refused ==> restartBudgetExceeded)
      ensures r.Session? ==> active
      ensures lastErrorCategory == if r.Session? then None else Some(r.category)
      ensures deriveCalls == old(deriveCalls) + 1
      ensures deriveAttempts == old(deriveAttempts) + attempts
      ensures recoveryAttempts == old(recoveryAttempts) + attempts - 1
    {
      ghost var before := Spending();
      deriveCalls := deriveCalls + 1;
      var attempt := 0;
      while attempt <= maxRetries
        invariant attempt <= maxRetries
        invariant forall i :: 0 <= i < attempt ==> Retried(config, before, outcomes, times, i)
        invariant Spending() == BudgetAfter(config, before, times, attempt)
        invariant deriveCalls == old(deriveCalls) + 1
        invariant deriveAttempts == old(deriveAttempts) + attempt
        invariant recoveryAttempts == old(recoveryAttempts) + attempt
      {
        deriveAttempts := deriveAttempts + 1;
        var phase := EndAttempt(attempt, outcomes[attempt], times[attempt], maxRetries);
        if phase.Ended? {
          return phase.result, attempt + 1;
        }
        attempt := attempt + 1;
      }
      assert false;
    }
  }

  // ---------- Any number of calls, interleaved at their awaits ----------

  datatype System = System(budget: Budget, calls: map<nat, Phase>)
  datatype Event = Call(id: nat) | Attempt(id: nat, outcome: Outcome, now: int)

  const IDLE := System(UNUSED, map[])

  /** A call under an id in use, and the end of an attempt that nobody makes, do not exist; they are skipped. */
  function Step(c: Config, maxRetries: nat, s: System, e: Event): System {
    match e
    case Call(id) => if id in s.calls then s else s.(calls := s.calls[id := Trying(0)])
    case Attempt(id, o, now) =>
      if id in s.calls && s.calls[id].Trying? then
        var failed := s.calls[id].failed;
        System(SpentAfter(c, maxRetries, s.budget, failed, o, now),
               s.calls[id := PhaseAfter(c, maxRetries, s.budget, failed, o, now)])
      else s
  }

  function RunCalls(c: Config, maxRetries: nat, es: seq<Event>): System {
    if es == [] then IDLE else Step(c, maxRetries, RunCalls(c, maxRetries, es[..|es| - 1]), es[|es| - 1])
  }

  /** At this event some call asks the budget for a restart. */
  predicate Asks(maxRetries: nat, s: System, e: Event) {
    e.Attempt? && e.id in s.calls && s.calls[e.id].Trying? && AsksRestart(maxRetries, s.calls[e.id].failed, e.outcome)
  }

  /** When restarts were asked for, by whatever call. */
  function Requests(c: Config, maxRetries: nat, es: seq<Event>): seq<int> {
    if es == [] then []
    else
      var init, e := es[..|es| - 1], es[|es| - 1];
      if Asks(maxRetries, RunCalls(c, maxRetries, init), e) then Requests(c, maxRetries, init) + [e.now]
      else Requests(c, maxRetries, init)
  }

  /** This event sends some call into another attempt. */
  predicate Retries(c: Config, maxRetries: nat, s: System, e: Event) {
    && e.Attempt? && e.id in s.calls && s.calls[e.id].Trying?
    && Step(c, maxRetries, s, e).calls[e.id] == Trying(s.calls[e.id].failed + 1)
  }

  function RetryTimes(c: Config, maxRetries: nat, es: seq<Event>): seq<int> {
    if es == [] then []
    else
      var init, e := es[..|es| - 1], es[|es| - 1];
      if Retries(c, maxRetries, RunCalls(c, maxRetries, init), e) then RetryTimes(c, maxRetries, init) + [e.now]
      else RetryTimes(c, maxRetries, init)
  }

  /** On every interleaving, the retries are exactly the restarts granted by the one budget that all calls share. */
  lemma {:induction false} RetriesAreGrants(c: Config, maxRetries: nat, es: seq<Event>)
    ensures Run(c, Requests(c, maxRetries, es))
         == Trace(RunCalls(c, maxRetries, es).budget, RetryTimes(c, maxRetries, es))
  {
    if es != [] {
      var init, e := es[..|es| - 1], es[|es| - 1];
      RetriesAreGrants(c, maxRetries, init);
      if Asks(maxRetries, RunCalls(c, maxRetries, init), e) {
        RunSnoc(c, Requests(c, maxRetries, init), e.now);
      }
    }
  }

  /** The ends of the attempts are in chronological order. */
  ghost predicate InOrder(es: seq<Event>) {
    && (forall i :: 0 <= i < |es| && es[i].Attempt? ==> 0 < es[i].now)
    && (forall i, j :: 0 <= i <= j < |es| && es[i].Attempt? && es[j].Attempt? ==> es[i].now <= es[j].now)
  }

  lemma {:induction false} RequestsInOrder(c: Config, maxRetries: nat, es: seq<Event>, last: int)
    requires InOrder(es) && forall i :: 0 <= i < |es| && es[i].Attempt? ==> es[i].now <= last
    ensures var ts := Requests(c, maxRetries, es);
      Chronological(ts) && forall i :: 0 <= i < |ts| ==> ts[i] <= last
  {
    if es != [] {
      var init, e := es[..|es| - 1], es[|es| - 1];
      RequestsInOrder(c, maxRetries, init, if e.Attempt? then e.now else last);
    }
  }

  lemma {:induction false} LatestTime(es: seq<Event>) returns (last: int)
    ensures forall i :: 0 <= i < |es| && es[i].Attempt? ==> es[i].now <= last
  {
    last := 0;
    if es != [] {
      var e := es[|es| - 1];
      last := LatestTime(es[..|es| - 1]);
      if e.Attempt? && last < e.now {
        last := e.now;
      }
    }
  }

  /**
    On every interleaving of any number of calls, the retries within one window's length are fewer than twice the
    restart budget, however many attempts the configuration allows each call.
   */
  lemma RetriesPerWindow(c: Config, maxRetries: nat, es: seq<Event>, lo: int)
    requires InOrder(es)
    ensures CountIn(RetryTimes(c, maxRetries, es), lo, lo + c.windowMs) <= Bound(c)
  {
    var last := LatestTime(es);
    RetriesAreGrants(c, maxRetries, es);
    RequestsInOrder(c, maxRetries, es, last);
    IntervalBound(c, Requests(c, maxRetries, es), lo);
  }

  /** No call makes more than one attempt over the configured retries. */
  lemma {:induction false} AttemptsAreBounded(c: Config, maxRetries: nat, es: seq<Event>, id: nat)
    requires var s := RunCalls(c, maxRetries, es); id in s.calls && s.calls[id].Trying?
    ensures RunCalls(c, maxRetries, es).calls[id].failed <= maxRetries
  {
    var s := RunCalls(c, maxRetries, es[..|es| - 1]);
    if id in s.calls && s.calls[id].Trying? {
      AttemptsAreBounded(c, maxRetries, es[..|es| - 1], id);
    }
  }
}
