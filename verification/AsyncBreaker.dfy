/**
  The asynchronous circuit breaker of frontend/src/lib/circuit-breaker.ts.  `execute` is split at its await into
  an admission and a completion, so that any number of calls can be in flight and complete in any order.
 */
module AsyncBreaker {
  import opened Options

  datatype CircuitState = Closed | Open | HalfOpen
  datatype Config = Config(failureThreshold: int, resetTimeoutMs: int, halfOpenMaxCalls: Option<int>)
  datatype Breaker = Breaker(state: CircuitState, failureCount: nat, openedAt: int, halfOpenCalls: nat)

  const FRESH := Breaker(Closed, 0, 0, 0)

  function AllowedCalls(c: Config): int {
    if c.halfOpenMaxCalls.Some? then c.halfOpenMaxCalls.value else 1
  }

  function MaybeHalfOpen(c: Config, b: Breaker, now: int): Breaker {
    if b.state.Open? && now - b.openedAt >= c.resetTimeoutMs then b.(state := HalfOpen, halfOpenCalls := 0) else b
  }

  predicate Admits(c: Config, b: Breaker, now: int) {
    var m := MaybeHalfOpen(c, b, now);
    m.state.Closed? || (m.state.HalfOpen? && m.halfOpenCalls < AllowedCalls(c))
  }

  function Begin(c: Config, b: Breaker, now: int): Breaker {
    var m := MaybeHalfOpen(c, b, now);
    if Admits(c, b, now) && m.state.HalfOpen? then m.(halfOpenCalls := m.halfOpenCalls + 1) else m
  }

  function Succeeded(b: Breaker): Breaker {
    b.(state := Closed, failureCount := 0, halfOpenCalls := 0)
  }

  function Failed(c: Config, b: Breaker, now: int): Breaker {
    var counted := b.(failureCount := b.failureCount + 1);
    if counted.failureCount >= c.failureThreshold || b.state.HalfOpen?
    then counted.(state := Open, openedAt := now, halfOpenCalls := 0)
    else counted
  }

  datatype ExecuteResult = Result | CircuitBreakerOpenError | ActionError

  class CircuitBreaker {
    const config: Config
    var state: CircuitState
    var failureCount: nat
    var openedAt: int
    var halfOpenCalls: nat

    function Abs(): Breaker
      reads this
    {
      Breaker(state, failureCount, openedAt, halfOpenCalls)
    }

    constructor (config: Config)
      ensures this.config == config && Abs() == FRESH
    {
      this.config := config;
      state, failureCount, openedAt, halfOpenCalls := Closed, 0, 0, 0;
    }

    method MaybeTransitionToHalfOpen(now: int)
      modifies this
      ensures Abs() == MaybeHalfOpen(config, old(Abs()), now)
    {
      if state != Open {
        return;
      }
      var elapsed := now - openedAt;
      if elapsed >= config.resetTimeoutMs {
        state := HalfOpen;
        halfOpenCalls := 0;
      }
    }

    /** `execute` up to the await on the action; false stands for the thrown open error. */
    method Admit(now: int) returns (admitted: bool)
      modifies this
      ensures Abs() == Begin(config, old(Abs()), now)
      ensures admitted <==> Admits(config, old(Abs()), now)
    {
      MaybeTransitionToHalfOpen(now);
      if state == Open {
        return false;
      }
      if state == HalfOpen {
        if halfOpenCalls >= AllowedCalls(config) {
          return false;
        }
        halfOpenCalls := halfOpenCalls + 1;
      }
      return true;
    }

    method RecordSuccess()
      modifies this
      ensures Abs() == Succeeded(old(Abs()))
    {
      failureCount := 0;
      halfOpenCalls := 0;
      state := Closed;
    }

    method RecordFailure(now: int)
      modifies this
      ensures Abs() == Failed(config, old(Abs()), now)
    {
      failureCount := failureCount + 1;
      if failureCount >= config.failureThreshold {
        state := Open;
        openedAt := now;
        halfOpenCalls := 0;
      } else if state == HalfOpen {
        state := Open;
        openedAt := now;
        halfOpenCalls := 0;
      }
    }

    /** The whole of `execute` when nothing else runs during the action. */
    method ExecuteAlone(now: int, actionSucceeds: bool, doneAt: int) returns (r: ExecuteResult)
      modifies this
      ensures r.CircuitBreakerOpenError? <==> !Admits(config, old(Abs()), now)
      ensures r.Result? ==> actionSucceeds && Abs() == Succeeded(Begin(config, old(Abs()), now))
      ensures r.ActionError? ==> !actionSucceeds && Abs() == Failed(config, Begin(config, old(Abs()), now), doneAt)
    {
      var admitted := Admit(now);
      if !admitted {
        return CircuitBreakerOpenError;
      }
      if actionSucceeds {
        RecordSuccess();
        return Result;
      }
      RecordFailure(doneAt);
      return ActionError;
    }
  }

  // ---------- Every interleaving ----------

  /** How a pending call was let in: through the closed breaker, or as a probe of a numbered half-open episode. */
  datatype Admission = Regular | Probe(episode: nat)

  datatype System = System(breaker: Breaker, episode: nat, pending: map<nat, Admission>)

  datatype Event =
    | Call(id: nat, now: int)
    | Succeed(id: nat, now: int)
    | Fail(id: nat, now: int)

  const INITIAL := System(FRESH, 0, map[])

  /** Completions of calls that are not pending, and calls under an id in use, do not exist; they are skipped. */
  predicate Happens(s: System, e: Event) {
    if e.Call? then e.id !in s.pending else e.id in s.pending
  }

  function Step(c: Config, s: System, e: Event): System {
    if !Happens(s, e) then s
    else match e
      case Call(id, now) =>
        var b := Begin(c, s.breaker, now);
        var episode := if s.breaker.state.Open? && b.state.HalfOpen? then s.episode + 1 else s.episode;
        var admission := if b.state.HalfOpen? then Probe(episode) else Regular;
        System(b, episode, if Admits(c, s.breaker, now) then s.pending[id := admission] else s.pending)
      case Succeed(id, _) => s.(breaker := Succeeded(s.breaker), pending := s.pending - {id})
      case Fail(id, now) => s.(breaker := Failed(c, s.breaker, now), pending := s.pending - {id})
  }

  function Run(c: Config, s: System, es: seq<Event>): System {
    if es == [] then s else Step(c, Run(c, s, es[..|es| - 1]), es[|es| - 1])
  }

  /** The pending calls that were admitted in the current half-open episode. */
  function CurrentProbes(s: System): set<nat> {
    set id | id in s.pending && s.pending[id] == Probe(s.episode)
  }

  ghost predicate Inv(c: Config, s: System) {
    && (!s.breaker.state.Closed? <==> s.breaker.failureCount >= c.failureThreshold)
    && (forall id :: id in s.pending && s.pending[id].Probe? ==> s.pending[id].episode <= s.episode)
    && (if s.breaker.state.HalfOpen?
        then s.breaker.halfOpenCalls == |CurrentProbes(s)|
          && (s.breaker.halfOpenCalls == 0 || s.breaker.halfOpenCalls <= AllowedCalls(c))
        else s.breaker.halfOpenCalls == 0)
  }

  lemma FirstProbe(s: System, episode: nat, id: nat, admitted: bool)
    requires forall i :: i in s.pending && s.pending[i].Probe? ==> s.pending[i].episode < episode
    requires id !in s.pending
    ensures var pending := if admitted then s.pending[id := Probe(episode)] else s.pending;
      CurrentProbes(System(s.breaker, episode, pending)) == if admitted then {id} else {}
  {
  }

  lemma AnotherProbe(s: System, id: nat)
    requires id !in s.pending
    ensures CurrentProbes(s.(pending := s.pending[id := Probe(s.episode)])) == CurrentProbes(s) + {id}
  {
  }

  lemma CallKeepsInv(c: Config, s: System, e: Event)
    requires c.failureThreshold >= 1 && Inv(c, s) && e.Call? && e.id !in s.pending
    ensures Inv(c, Step(c, s, e))
  {
    var admitted := Admits(c, s.breaker, e.now);
    if Begin(c, s.breaker, e.now).state.HalfOpen? {
      if s.breaker.state.Open? {
        FirstProbe(s, s.episode + 1, e.id, admitted);
      } else {
        AnotherProbe(s, e.id);
      }
    }
  }

  lemma CompletionKeepsInv(c: Config, s: System, e: Event)
    requires c.failureThreshold >= 1 && Inv(c, s) && !e.Call? && e.id in s.pending
    ensures Inv(c, Step(c, s, e))
  {
    assert !Step(c, s, e).breaker.state.HalfOpen?;
  }

  lemma StepKeepsInv(c: Config, s: System, e: Event)
    requires c.failureThreshold >= 1 && Inv(c, s)
    ensures Inv(c, Step(c, s, e))
  {
    if Happens(s, e) {
      if e.Call? {
        CallKeepsInv(c, s, e);
      } else {
        CompletionKeepsInv(c, s, e);
      }
    }
  }

  /**
    On every interleaving: the breaker is not closed exactly when the failures have reached the threshold, and a
    half-open breaker counts precisely the pending calls admitted in the current episode, within the allowance.
   */
  lemma {:induction false} RunInv(c: Config, es: seq<Event>)
    requires c.failureThreshold >= 1
    ensures Inv(c, Run(c, INITIAL, es))
  {
    if es != [] {
      RunInv(c, es[..|es| - 1]);
      StepKeepsInv(c, Run(c, INITIAL, es[..|es| - 1]), es[|es| - 1]);
    }
  }

  /** The failures recorded since the last recorded success. */
  function FailuresSinceSuccess(c: Config, es: seq<Event>): nat {
    if es == [] then 0
    else
      var init, e := es[..|es| - 1], es[|es| - 1];
      if !Happens(Run(c, INITIAL, init), e) || e.Call? then FailuresSinceSuccess(c, init)
      else if e.Succeed? then 0
      else FailuresSinceSuccess(c, init) + 1
  }

  lemma {:induction false} CountIsFailuresSinceSuccess(c: Config, es: seq<Event>)
    ensures Run(c, INITIAL, es).breaker.failureCount == FailuresSinceSuccess(c, es)
  {
    if es != [] {
      CountIsFailuresSinceSuccess(c, es[..|es| - 1]);
    }
  }

  /**
    Seen from the trace: the breaker lets everything through exactly while fewer failures than the threshold follow
    the last success.
   */
  lemma ClosedIffFewFailures(c: Config, es: seq<Event>)
    requires c.failureThreshold >= 1
    ensures Run(c, INITIAL, es).breaker.state.Closed? <==> FailuresSinceSuccess(c, es) < c.failureThreshold
  {
    RunInv(c, es);
    CountIsFailuresSinceSuccess(c, es);
  }

  /**
    In a half-open breaker a failure always reaches the threshold; the source's second opening branch never decides.
   */
  lemma HalfOpenFailureReachesThreshold(c: Config, es: seq<Event>)
    requires c.failureThreshold >= 1 && Run(c, INITIAL, es).breaker.state.HalfOpen?
    ensures Run(c, INITIAL, es).breaker.failureCount + 1 >= c.failureThreshold
  {
    RunInv(c, es);
  }

  /** No deadlock: when a half-open breaker turns a call away, a probe of the current episode is pending. */
  lemma ExhaustedBreakerHasPendingProbe(c: Config, es: seq<Event>, now: int)
    requires c.failureThreshold >= 1 && AllowedCalls(c) >= 1
    requires var b := Run(c, INITIAL, es).breaker; b.state.HalfOpen? && !Admits(c, b, now)
    ensures exists id :: id in CurrentProbes(Run(c, INITIAL, es))
  {
    RunInv(c, es);
    var s := Run(c, INITIAL, es);
    assert |CurrentProbes(s)| > 0;
    var id :| id in CurrentProbes(s);
  }

  /** Half-open, and no sequence of calls and completions changes anything any more. */
  ghost predicate Stuck(c: Config, s: System) {
    s.breaker.state.HalfOpen? && forall more :: Run(c, s, more) == s
  }

  lemma {:induction false} NoAllowanceIsStuck(c: Config, s: System, more: seq<Event>)
    requires AllowedCalls(c) <= 0 && s.breaker.state.HalfOpen? && s.pending == map[]
    ensures Run(c, s, more) == s
  {
    if more != [] {
      NoAllowanceIsStuck(c, s, more[..|more| - 1]);
    }
  }

  lemma RunSnoc(c: Config, s: System, es: seq<Event>, e: Event)
    ensures Run(c, s, es + [e]) == Step(c, Run(c, s, es), e)
  {
    assert (es + [e])[..|es|] == es;
  }

  /** One call at time 0 that fails at once. */
  lemma CallAndFail(c: Config, es: seq<Event>, id: nat) returns (more: seq<Event>)
    requires var s := Run(c, INITIAL, es); s.breaker.state.Closed? && s.pending == map[]
    ensures more == es + [Call(id, 0)] + [Fail(id, 0)]
    ensures Run(c, INITIAL, more) == Run(c, INITIAL, es).(breaker := Failed(c, Run(c, INITIAL, es).breaker, 0))
  {
    RunSnoc(c, INITIAL, es, Call(id, 0));
    RunSnoc(c, INITIAL, es + [Call(id, 0)], Fail(id, 0));
    more := es + [Call(id, 0)] + [Fail(id, 0)];
  }

  ghost predicate AllAtZero(es: seq<Event>) {
    forall i :: 0 <= i < |es| ==> es[i].now == 0
  }

  /** `k` failed calls at time 0 open the breaker exactly when they reach the threshold. */
  lemma {:induction false} FailedCalls(c: Config, k: nat) returns (es: seq<Event>)
    requires 1 <= c.failureThreshold && k <= c.failureThreshold
    ensures AllAtZero(es)
    ensures Run(c, INITIAL, es)
         == System(Breaker(if k == c.failureThreshold then Open else Closed, k, 0, 0), 0, map[])
  {
    es := [];
    if k > 0 {
      var fewer := FailedCalls(c, k - 1);
      es := CallAndFail(c, fewer, 0);
    }
  }

  /** With no allowance the breaker does get stuck: it opens, and the first call after the timeout is turned away. */
  lemma NoAllowanceGetsStuck(c: Config) returns (es: seq<Event>)
    requires c.failureThreshold >= 1 && AllowedCalls(c) <= 0
    ensures Chronological(es) && Stuck(c, Run(c, INITIAL, es))
  {
    var opening := FailedCalls(c, c.failureThreshold);
    var e := Call(0, if c.resetTimeoutMs > 0 then c.resetTimeoutMs else 0);
    RunSnoc(c, INITIAL, opening, e);
    es := opening + [e];
    forall more ensures Run(c, Run(c, INITIAL, es), more) == Run(c, INITIAL, es) {
      NoAllowanceIsStuck(c, Run(c, INITIAL, es), more);
    }
  }

  /** With an allowance, a half-open breaker admits another call, or has a probe that can complete. */
  lemma SomethingHappens(c: Config, s: System) returns (e: Event)
    requires AllowedCalls(c) >= 1 && s.breaker.state.HalfOpen? && Inv(c, s)
    ensures Step(c, s, e) != s
  {
    if s.pending == map[] {
      e := Call(0, 0);
      assert CurrentProbes(s) == {};
      assert 0 in Step(c, s, e).pending;
    } else {
      var id :| id in s.pending;
      e := Succeed(id, 0);
      assert id !in Step(c, s, e).pending;
    }
  }

  lemma AllowanceKeepsMoving(c: Config, s: System)
    requires AllowedCalls(c) >= 1 && Inv(c, s)
    ensures !Stuck(c, s)
  {
    if s.breaker.state.HalfOpen? {
      var e := SomethingHappens(c, s);
      RunSnoc(c, s, [], e);
      assert Run(c, s, [] + [e]) != s;
    }
  }

  /** A breaker can get stuck exactly when its allowance is not positive. */
  lemma GetsStuckIff(c: Config)
    requires c.failureThreshold >= 1
    ensures (exists es :: Chronological(es) && Stuck(c, Run(c, INITIAL, es))) <==> AllowedCalls(c) <= 0
  {
    if AllowedCalls(c) <= 0 {
      var es := NoAllowanceGetsStuck(c);
    } else {
      forall es ensures !Stuck(c, Run(c, INITIAL, es)) {
        RunInv(c, es);
        AllowanceKeepsMoving(c, Run(c, INITIAL, es));
      }
    }
  }

  ghost predicate Chronological(es: seq<Event>) {
    forall i, j :: 0 <= i <= j < |es| ==> es[i].now <= es[j].now
  }

  /** Whenever the breaker is half-open, the reset timeout has passed since the failure that last opened it. */
  lemma {:induction false} HalfOpenAfterTimeout(c: Config, es: seq<Event>, now: int)
    requires Chronological(es) && (es != [] ==> es[|es| - 1].now <= now)
    ensures var b := Run(c, INITIAL, es).breaker;
      b.state.HalfOpen? ==> now - b.openedAt >= c.resetTimeoutMs
  {
    if es != [] {
      HalfOpenAfterTimeout(c, es[..|es| - 1], es[|es| - 1].now);
    }
  }

  /** While not closed, the breaker remembers when the latest failure was recorded. */
  lemma {:induction false} OpenedAtLatestFailure(c: Config, es: seq<Event>)
    requires c.failureThreshold >= 1
    ensures var b := Run(c, INITIAL, es).breaker;
      !b.state.Closed? ==> b.openedAt == LatestFailure(c, es)
  {
    if es != [] {
      OpenedAtLatestFailure(c, es[..|es| - 1]);
      RunInv(c, es[..|es| - 1]);
    }
  }

  /** The time of the latest recorded failure; 0 when there is none. */
  function LatestFailure(c: Config, es: seq<Event>): int {
    if es == [] then 0
    else
      var init, e := es[..|es| - 1], es[|es| - 1];
      if Happens(Run(c, INITIAL, init), e) && e.Fail? then e.now else LatestFailure(c, init)
  }

  /**
    Back-off, over every interleaving: a call arriving less than the reset timeout after the latest recorded failure
    is admitted only if fewer failures than the threshold follow the last success.
   */
  lemma NoAdmissionWithinTimeout(c: Config, es: seq<Event>, now: int)
    requires c.failureThreshold >= 1 && Chronological(es) && (es != [] ==> es[|es| - 1].now <= now)
    requires now - LatestFailure(c, es) < c.resetTimeoutMs
    ensures Admits(c, Run(c, INITIAL, es).breaker, now) <==> FailuresSinceSuccess(c, es) < c.failureThreshold
  {
    ClosedIffFewFailures(c, es);
    OpenedAtLatestFailure(c, es);
    HalfOpenAfterTimeout(c, es, now);
  }

  /**
    Who is let through, on every interleaving and at every instant, from the trace: everyone while failures are few;
    while open, the first one once the timeout has passed since the latest failure; while half-open, as long as fewer
    probes of this episode are pending than are allowed, which is one unless configured otherwise.
   */
  lemma AdmittedIff(c: Config, es: seq<Event>, now: int)
    requires c.failureThreshold >= 1
    ensures var s := Run(c, INITIAL, es);
      var cap := if c.halfOpenMaxCalls == None then 1 else c.halfOpenMaxCalls.value;
      Admits(c, s.breaker, now) <==>
        || FailuresSinceSuccess(c, es) < c.failureThreshold
        || (s.breaker.state.Open? && now - LatestFailure(c, es) >= c.resetTimeoutMs && cap >= 1)
        || (s.breaker.state.HalfOpen? && |CurrentProbes(s)| < cap)
  {
    RunInv(c, es);
    ClosedIffFewFailures(c, es);
    OpenedAtLatestFailure(c, es);
  }
}
