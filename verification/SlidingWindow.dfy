/** The per-user sliding-window limiter of frontend/src/services/a2ui-intent-queue.ts. */
module SlidingWindow {
  import opened Options

  /** The source fixes the window at a minute and reads the maximum from its environment. */
  const RATE_LIMIT_WINDOW_MS := 60000
  datatype Config = Config(windowMs: nat, maxPerWindow: int)

  datatype Request = Request(user: string, now: int)
  type RateState = map<string, seq<int>>

  function Logged(state: RateState, user: string): seq<int> {
    if user in state then state[user] else []
  }

  /** `filter(entry => entry >= windowStart)` */
  function Fresh(entries: seq<int>, windowStart: int): seq<int> {
    if entries == [] then []
    else
      var earlier, last := Fresh(entries[..|entries| - 1], windowStart), entries[|entries| - 1];
      if last >= windowStart then earlier + [last] else earlier
  }

  predicate Allows(c: Config, state: RateState, r: Request) {
    |Fresh(Logged(state, r.user), r.now - c.windowMs)| < c.maxPerWindow
  }

  function Check(c: Config, state: RateState, r: Request): RateState {
    var recent := Fresh(Logged(state, r.user), r.now - c.windowMs);
    state[r.user := if Allows(c, state, r) then recent + [r.now] else recent]
  }

  /** A missing or empty user id shares the anonymous log. */
  function UserKey(userId: Option<string>): string {
    if userId.Some? && userId.value != "" then userId.value else "anonymous"
  }

  /** Two callers share a log exactly when they are the same, or both are missing, empty or named "anonymous". */
  lemma SharesLogIff(a: Option<string>, b: Option<string>)
    ensures UserKey(a) == UserKey(b) <==>
      a == b || (a in {None, Some(""), Some("anonymous")} && b in {None, Some(""), Some("anonymous")})
  {
  }

  class IntentRateLimiter {
    const config: Config
    var rateState: RateState

    constructor (maxPerWindow: int)
      ensures config == Config(RATE_LIMIT_WINDOW_MS, maxPerWindow) && rateState == map[]
    {
      config := Config(RATE_LIMIT_WINDOW_MS, maxPerWindow);
      rateState := map[];
    }

    method CheckRateLimit(userId: string, now: int) returns (ok: bool)
      modifies this
      ensures ok <==> Allows(config, old(rateState), Request(userId, now))
      ensures rateState == Check(config, old(rateState), Request(userId, now))
    {
      var windowStart := now - config.windowMs;
      var history := if userId in rateState then rateState[userId] else [];
      var recent := Fresh(history, windowStart);
      if |recent| >= config.maxPerWindow {
        rateState := rateState[userId := recent];
        return false;
      }
      recent := recent + [now];
      rateState := rateState[userId := recent];
      return true;
    }

    /** The limiter's only caller, past validation: false stands for the thrown error. */
    method Enqueue(userId: Option<string>, now: int) returns (ok: bool)
      modifies this
      ensures ok <==> Allows(config, old(rateState), Request(UserKey(userId), now))
      ensures rateState == Check(config, old(rateState), Request(UserKey(userId), now))
    {
      ok := CheckRateLimit(UserKey(userId), now);
    }
  }

  // ---------- Whole traces ----------

  /** The pruned logs, and every request that was ever accepted. */
  datatype Trace = Trace(state: RateState, accepted: seq<Request>)

  function Run(c: Config, rs: seq<Request>): Trace {
    if rs == [] then Trace(map[], [])
    else
      var t, r := Run(c, rs[..|rs| - 1]), rs[|rs| - 1];
      Trace(Check(c, t.state, r), if Allows(c, t.state, r) then t.accepted + [r] else t.accepted)
  }

  ghost predicate Chronological(rs: seq<Request>) {
    forall i, j :: 0 <= i <= j < |rs| ==> rs[i].now <= rs[j].now
  }

  /** The request comes no earlier than the last of `rs`. */
  ghost predicate Follows(rs: seq<Request>, r: Request) {
    rs != [] ==> rs[|rs| - 1].now <= r.now
  }

  /** The number of requests of `user` in the closed interval [lo, hi]. */
  function CountIn(rs: seq<Request>, user: string, lo: int, hi: int): nat {
    if rs == [] then 0
    else
      var r := rs[|rs| - 1];
      CountIn(rs[..|rs| - 1], user, lo, hi) + if r.user == user && lo <= r.now <= hi then 1 else 0
  }

  function TimesOf(rs: seq<Request>, user: string): seq<int> {
    if rs == [] then []
    else
      var earlier, r := TimesOf(rs[..|rs| - 1], user), rs[|rs| - 1];
      if r.user == user then earlier + [r.now] else earlier
  }

  lemma {:induction false} FreshOfFresh(entries: seq<int>, early: int, late: int)
    requires early <= late
    ensures Fresh(Fresh(entries, early), late) == Fresh(entries, late)
  {
    if entries != [] {
      var init, last := entries[..|entries| - 1], entries[|entries| - 1];
      FreshOfFresh(init, early, late);
      if last >= early {
        FreshSnoc(Fresh(init, early), last, late);
      }
    }
  }

  lemma FreshSnoc(entries: seq<int>, x: int, start: int)
    ensures Fresh(entries + [x], start) == if x >= start then Fresh(entries, start) + [x] else Fresh(entries, start)
  {
    assert (entries + [x])[..|entries|] == entries;
  }

  lemma {:induction false} FreshCounts(rs: seq<Request>, user: string, lo: int, hi: int)
    requires forall i :: 0 <= i < |rs| ==> rs[i].now <= hi
    ensures |Fresh(TimesOf(rs, user), lo)| == CountIn(rs, user, lo, hi)
  {
    if rs != [] {
      var r := rs[|rs| - 1];
      FreshCounts(rs[..|rs| - 1], user, lo, hi);
      if r.user == user {
        FreshSnoc(TimesOf(rs[..|rs| - 1], user), r.now, lo);
      }
    }
  }

  lemma {:induction false} AcceptedInThePast(c: Config, rs: seq<Request>, now: int)
    requires forall i :: 0 <= i < |rs| ==> rs[i].now <= now
    ensures forall i :: 0 <= i < |Run(c, rs).accepted| ==> Run(c, rs).accepted[i].now <= now
  {
    if rs != [] {
      AcceptedInThePast(c, rs[..|rs| - 1], now);
    }
  }

  lemma TimesSnoc(rs: seq<Request>, r: Request, user: string)
    ensures TimesOf(rs + [r], user) == if r.user == user then TimesOf(rs, user) + [r.now] else TimesOf(rs, user)
  {
    assert (rs + [r])[..|rs|] == rs;
  }

  lemma CountSnoc(rs: seq<Request>, r: Request, user: string, lo: int, hi: int)
    ensures CountIn(rs + [r], user, lo, hi)
         == CountIn(rs, user, lo, hi) + if r.user == user && lo <= r.now <= hi then 1 else 0
  {
    assert (rs + [r])[..|rs|] == rs;
  }

  /** Pruning and extending a log and a history that filter alike keeps them so. */
  lemma PruneKeepsLog(log: seq<int>, history: seq<int>, early: int, late: int, now: int)
    requires early <= late && Fresh(log, late) == Fresh(history, late)
    ensures Fresh(Fresh(log, early), late) == Fresh(history, late)
    ensures Fresh(Fresh(log, early) + [now], late) == Fresh(history + [now], late)
  {
    FreshOfFresh(log, early, late);
    FreshSnoc(Fresh(log, early), now, late);
    FreshSnoc(history, now, late);
  }

  /** One check prunes and extends the log so that it still filters like the history at any later window start. */
  lemma CheckKeepsLog(c: Config, state: RateState, accepted: seq<Request>, r: Request, user: string, start: int)
    requires r.now - c.windowMs <= start
    requires Fresh(Logged(state, user), start) == Fresh(TimesOf(accepted, user), start)
    ensures Fresh(Logged(Check(c, state, r), user), start)
         == Fresh(TimesOf(if Allows(c, state, r) then accepted + [r] else accepted, user), start)
  {
    TimesSnoc(accepted, r, user);
    if user == r.user {
      PruneKeepsLog(Logged(state, user), TimesOf(accepted, user), r.now - c.windowMs, start, r.now);
    } else {
      assert Logged(Check(c, state, r), user) == Logged(state, user);
    }
  }

  /**
    Whatever was pruned from a log can no longer matter: at any later window start, log and full history filter alike.
   */
  lemma {:induction false} LogMatchesHistory(c: Config, rs: seq<Request>, user: string, now: int)
    requires Chronological(rs) && (rs != [] ==> rs[|rs| - 1].now <= now)
    ensures var t := Run(c, rs);
      Fresh(Logged(t.state, user), now - c.windowMs) == Fresh(TimesOf(t.accepted, user), now - c.windowMs)
  {
    if rs != [] {
      var init, r := rs[..|rs| - 1], rs[|rs| - 1];
      LogMatchesHistory(c, init, user, now);
      CheckKeepsLog(c, Run(c, init).state, Run(c, init).accepted, r, user, now - c.windowMs);
    }
  }

  /**
    The pruned log decides like the full history: on every trace a request is accepted exactly when fewer than the
    maximum of the same user's accepted requests lie in the closed window that ends now.
   */
  lemma AllowedIffWindowHasRoom(c: Config, rs: seq<Request>, r: Request)
    requires Chronological(rs) && Follows(rs, r)
    ensures Allows(c, Run(c, rs).state, r) <==>
            CountIn(Run(c, rs).accepted, r.user, r.now - c.windowMs, r.now) < c.maxPerWindow
  {
    LogMatchesHistory(c, rs, r.user, r.now);
    AcceptedInThePast(c, rs, r.now);
    FreshCounts(Run(c, rs).accepted, r.user, r.now - c.windowMs, r.now);
  }

  lemma {:induction false} CountSubinterval(rs: seq<Request>, user: string, lo: int, hi: int, lo': int, hi': int)
    requires lo' <= lo
    requires forall i :: 0 <= i < |rs| ==> rs[i].now <= hi'
    ensures CountIn(rs, user, lo, hi) <= CountIn(rs, user, lo', hi')
  {
    if rs != [] {
      CountSubinterval(rs[..|rs| - 1], user, lo, hi, lo', hi');
    }
  }

  function WindowMax(c: Config): nat {
    if c.maxPerWindow > 0 then c.maxPerWindow else 0
  }

  /** A request accepted inside the window leaves room for itself, because the window ending with it is the fullest. */
  lemma AcceptedFits(c: Config, rs: seq<Request>, r: Request, lo: int)
    requires Chronological(rs) && Follows(rs, r) && Allows(c, Run(c, rs).state, r) && lo <= r.now <= lo + c.windowMs
    ensures CountIn(Run(c, rs).accepted, r.user, lo, lo + c.windowMs) + 1 <= WindowMax(c)
  {
    AllowedIffWindowHasRoom(c, rs, r);
    AcceptedInThePast(c, rs, r.now);
    CountSubinterval(Run(c, rs).accepted, r.user, lo, lo + c.windowMs, r.now - c.windowMs, r.now);
  }

  /**
    On every trace, no closed window of the configured length holds more than the maximum of a user's accepted
    requests.
   */
  lemma {:induction false} WindowBound(c: Config, rs: seq<Request>, user: string, lo: int)
    requires Chronological(rs)
    ensures CountIn(Run(c, rs).accepted, user, lo, lo + c.windowMs) <= WindowMax(c)
  {
    if rs != [] {
      var init, r := rs[..|rs| - 1], rs[|rs| - 1];
      WindowBound(c, init, user, lo);
      CountSnoc(Run(c, init).accepted, r, user, lo, lo + c.windowMs);
      if Allows(c, Run(c, init).state, r) && r.user == user && lo <= r.now <= lo + c.windowMs {
        AcceptedFits(c, init, r, lo);
      }
    }
  }

  /** The shipped limiter: no closed minute holds more than the maximum of a user's accepted requests. */
  lemma MinuteBound(maxPerWindow: nat, rs: seq<Request>, user: string, lo: int)
    requires Chronological(rs)
    ensures CountIn(Run(Config(RATE_LIMIT_WINDOW_MS, maxPerWindow), rs).accepted, user, lo, lo + 60000) <= maxPerWindow
  {
    WindowBound(Config(RATE_LIMIT_WINDOW_MS, maxPerWindow), rs, user, lo);
  }

  /** The requests of one user. */
  function Of(rs: seq<Request>, user: string): seq<Request> {
    if rs == [] then []
    else
      var r := rs[|rs| - 1];
      Of(rs[..|rs| - 1], user) + if r.user == user then [r] else []
  }

  lemma RunSnoc(c: Config, rs: seq<Request>, r: Request)
    ensures Run(c, rs + [r]).state == Check(c, Run(c, rs).state, r)
  {
    assert (rs + [r])[..|rs|] == rs;
  }

  /** A user's log, and so what the user is allowed, is the same as if nobody else had called. */
  lemma {:induction false} UsersAreIndependent(c: Config, rs: seq<Request>, user: string, now: int)
    ensures Logged(Run(c, rs).state, user) == Logged(Run(c, Of(rs, user)).state, user)
    ensures Allows(c, Run(c, rs).state, Request(user, now)) <==>
            Allows(c, Run(c, Of(rs, user)).state, Request(user, now))
  {
    if rs != [] {
      var init, r := rs[..|rs| - 1], rs[|rs| - 1];
      UsersAreIndependent(c, init, user, now);
      if r.user == user {
        RunSnoc(c, Of(init, user), r);
      } else {
        assert Of(rs, user) == Of(init, user);
      }
    }
  }
}
