/**
  The update buffer of the `/updates` handler.  A full buffer is proposed as a round at once, but it is
  emptied only after an await, so further updates and further clears can come in between.
  Updates are numbered in the order in which they were accepted.
 */
module UpdateBuffer {
  datatype State = State(updates: seq<nat>, accepted: nat, rounds: seq<seq<nat>>, clearsPending: nat)
  datatype Event = Push | Clear

  const EMPTY := State([], 0, [], 0)

  /** A clear that no handler is waiting to run does nothing. */
  function Step(aggCount: nat, s: State, e: Event): State {
    match e
    case Push =>
      var grown := s.updates + [s.accepted];
      if |grown| >= aggCount
      then State(grown, s.accepted + 1, s.rounds + [grown], s.clearsPending + 1)
      else s.(updates := grown, accepted := s.accepted + 1)
    case Clear =>
      if s.clearsPending == 0 then s else s.(updates := [], clearsPending := s.clearsPending - 1)
  }

  class Buffer {
    const aggCount: nat
    var updates: seq<nat>
    var accepted: nat
    var rounds: seq<seq<nat>>
    var clearsPending: nat

    function Abs(): State
      reads this
    {
      State(updates, accepted, rounds, clearsPending)
    }

    constructor (aggCount: nat)
      ensures this.aggCount == aggCount && Abs() == EMPTY
    {
      this.aggCount := aggCount;
      updates, accepted, rounds, clearsPending := [], 0, [], 0;
    }

    /** From the accepted update up to the await on persisting the round. */
    method PushUpdate() returns (aggregated: bool)
      modifies this
      ensures Abs() == Step(aggCount, old(Abs()), Push)
      ensures aggregated <==> clearsPending > old(clearsPending)
    {
      updates := updates + [accepted];
      accepted := accepted + 1;
      aggregated := |updates| >= aggCount;
      if aggregated {
        rounds := rounds + [updates];
        clearsPending := clearsPending + 1;
      }
    }

    /** What runs when that await returns. */
    method ResumeAfterPersist()
      requires clearsPending > 0
      modifies this
      ensures Abs() == Step(aggCount, old(Abs()), Clear)
    {
      updates := [];
      clearsPending := clearsPending - 1;
    }
  }

  // ---------- Whole runs ----------

  function Run(aggCount: nat, es: seq<Event>): State {
    if es == [] then EMPTY else Step(aggCount, Run(aggCount, es[..|es| - 1]), es[|es| - 1])
  }

  ghost predicate InRound(s: State, u: nat) {
    exists r :: 0 <= r < |s.rounds| && u in s.rounds[r]
  }

  /** An accepted update has not been dropped: it is buffered or part of a proposed round. */
  ghost predicate Kept(s: State, u: nat) {
    u in s.updates || InRound(s, u)
  }

  ghost predicate NothingLost(s: State) {
    forall u :: 0 <= u < s.accepted ==> Kept(s, u)
  }

  /** The buffer holds the latest updates; once full, all of them are in a round, and before that none is. */
  ghost predicate Inv(aggCount: nat, s: State) {
    && |s.updates| <= s.accepted
    && (forall i :: 0 <= i < |s.updates| ==> s.updates[i] == s.accepted - |s.updates| + i)
    && (forall r, u :: 0 <= r < |s.rounds| && u in s.rounds[r] ==> u < s.accepted)
    && (|s.updates| >= aggCount ==> forall u :: u in s.updates ==> InRound(s, u))
    && (|s.updates| < aggCount ==> forall u :: u in s.updates ==> !InRound(s, u))
  }

  lemma StepKeepsInv(aggCount: nat, s: State, e: Event)
    requires Inv(aggCount, s)
    ensures Inv(aggCount, Step(aggCount, s, e))
    ensures forall u :: InRound(s, u) ==> InRound(Step(aggCount, s, e), u)
  {
    var t := Step(aggCount, s, e);
    forall u | InRound(s, u) ensures InRound(t, u) {
      var r :| 0 <= r < |s.rounds| && u in s.rounds[r];
      assert u in t.rounds[r];
    }
    if e.Push? && |t.updates| >= aggCount {
      forall u | u in t.updates ensures InRound(t, u) {
        assert t.rounds[|s.rounds|] == t.updates;
      }
    }
  }

  lemma {:induction false} RunInv(aggCount: nat, es: seq<Event>)
    ensures Inv(aggCount, Run(aggCount, es))
  {
    if es != [] {
      RunInv(aggCount, es[..|es| - 1]);
      StepKeepsInv(aggCount, Run(aggCount, es[..|es| - 1]), es[|es| - 1]);
    }
  }

  /** On every run, a step drops an update exactly when it clears a buffer that is neither empty nor full. */
  lemma StepLosesIff(aggCount: nat, es: seq<Event>, e: Event)
    requires NothingLost(Run(aggCount, es))
    ensures var s := Run(aggCount, es);
      !NothingLost(Step(aggCount, s, e)) <==> e.Clear? && s.clearsPending > 0 && 0 < |s.updates| < aggCount
  {
    var s := Run(aggCount, es);
    var t := Step(aggCount, s, e);
    RunInv(aggCount, es);
    StepKeepsInv(aggCount, s, e);
    if e.Clear? && s.clearsPending > 0 && 0 < |s.updates| < aggCount {
      assert s.updates[0] in s.updates && t.rounds == s.rounds;
      assert !InRound(s, s.updates[0]);
      assert !Kept(t, s.updates[0]);
    } else {
      forall u | 0 <= u < t.accepted ensures Kept(t, u) {
        assert u < s.accepted ==> Kept(s, u);
        assert e.Push? ==> t.updates[|s.updates|] == s.accepted;
        assert e.Push? ==> s.updates == t.updates[..|s.updates|];
      }
    }
  }

  lemma RunSnoc(aggCount: nat, es: seq<Event>, e: Event)
    ensures Run(aggCount, es + [e]) == Step(aggCount, Run(aggCount, es), e)
  {
    assert (es + [e])[..|es|] == es;
  }

  /** One more push on a run whose state is known. */
  lemma ExtendPush(aggCount: nat, es: seq<Event>, s: State, grown: seq<nat>)
    requires Run(aggCount, es) == s && grown == s.updates + [s.accepted]
    ensures Run(aggCount, es + [Push]) ==
      if |grown| >= aggCount then State(grown, s.accepted + 1, s.rounds + [grown], s.clearsPending + 1)
      else State(grown, s.accepted + 1, s.rounds, s.clearsPending)
  {
    RunSnoc(aggCount, es, Push);
  }

  lemma ExtendClear(aggCount: nat, es: seq<Event>, s: State)
    requires Run(aggCount, es) == s && s.clearsPending > 0
    ensures Run(aggCount, es + [Clear]) == State([], s.accepted, s.rounds, s.clearsPending - 1)
  {
    RunSnoc(aggCount, es, Clear);
  }

  /** It does happen: two rounds in flight, one clear, a lone update, the other clear. */
  lemma AnUpdateCanBeDropped() returns (es: seq<Event>)
    ensures !NothingLost(Run(2, es))
  {
    ExtendPush(2, [], EMPTY, [0]);
    es := [] + [Push];
    ExtendPush(2, es, State([0], 1, [], 0), [0, 1]);
    es := es + [Push];
    var rounds := [] + [[0, 1]];
    ExtendPush(2, es, State([0, 1], 2, rounds, 1), [0, 1, 2]);
    es, rounds := es + [Push], rounds + [[0, 1, 2]];
    ExtendClear(2, es, State([0, 1, 2], 3, rounds, 2));
    es := es + [Clear];
    ExtendPush(2, es, State([], 3, rounds, 1), [3]);
    es := es + [Push];
    ExtendClear(2, es, State([3], 4, rounds, 1));
    es := es + [Clear];
    assert !Kept(State([], 4, rounds, 0), 3);
  }

  /** As long as two clears are never pending at once, every accepted update reaches a round or stays buffered. */
  lemma {:induction false} OneClearAtATimeLosesNothing(aggCount: nat, es: seq<Event>)
    requires forall i :: 0 <= i <= |es| ==> Run(aggCount, es[..i]).clearsPending <= 1
    ensures NothingLost(Run(aggCount, es))
    ensures Run(aggCount, es).clearsPending > 0 ==> |Run(aggCount, es).updates| >= aggCount
  {
    if es != [] {
      var init, e := es[..|es| - 1], es[|es| - 1];
      forall i | 0 <= i <= |init| ensures Run(aggCount, init[..i]).clearsPending <= 1 {
        assert init[..i] == es[..i];
      }
      OneClearAtATimeLosesNothing(aggCount, init);
      StepLosesIff(aggCount, init, e);
      assert es[..|es|] == es;
    }
  }

  /** Runs on which no update is accepted while a clear is pending. */
  ghost predicate Serial(aggCount: nat, es: seq<Event>) {
    forall i :: 0 <= i < |es| && es[i].Push? ==> Run(aggCount, es[..i]).clearsPending == 0
  }

  function Flatten(rs: seq<seq<nat>>): seq<nat> {
    if rs == [] then [] else Flatten(rs[..|rs| - 1]) + rs[|rs| - 1]
  }

  /**
    The rounds and the open buffer, in order; a buffer that only waits to be cleared is already part of the last
    round.
   */
  ghost function Used(s: State): seq<nat> {
    if s.clearsPending > 0 then Flatten(s.rounds) else Flatten(s.rounds) + s.updates
  }

  lemma FlattenSnoc(rs: seq<seq<nat>>, r: seq<nat>)
    ensures Flatten(rs + [r]) == Flatten(rs) + r
  {
    assert (rs + [r])[..|rs|] == rs;
  }

  lemma SerialStep(aggCount: nat, s: State, e: Event)
    requires s.clearsPending <= 1 && (e.Push? ==> s.clearsPending == 0)
    ensures var t := Step(aggCount, s, e);
      t.clearsPending <= 1 && Used(t) == if e.Push? then Used(s) + [s.accepted] else Used(s)
  {
    if e.Push? {
      var grown := s.updates + [s.accepted];
      FlattenSnoc(s.rounds, grown);
      assert Flatten(s.rounds) + grown == Flatten(s.rounds) + s.updates + [s.accepted];
    } else if s.clearsPending > 0 {
      assert Flatten(s.rounds) + [] == Flatten(s.rounds);
    }
  }

  /**
    On those runs every accepted update is used exactly once, in order: the rounds and the open buffer partition them.
   */
  lemma {:induction false} SerialRunsUseEachUpdateOnce(aggCount: nat, es: seq<Event>)
    requires Serial(aggCount, es)
    ensures var s := Run(aggCount, es); s.clearsPending <= 1 && Used(s) == seq(s.accepted, i => i)
  {
    if es != [] {
      var init, e := es[..|es| - 1], es[|es| - 1];
      SerialPrefix(aggCount, es);
      SerialRunsUseEachUpdateOnce(aggCount, init);
      SerialStep(aggCount, Run(aggCount, init), e);
      if e.Push? {
        CountingSnoc(Run(aggCount, init).accepted);
      }
    }
  }

  lemma SerialPrefix(aggCount: nat, es: seq<Event>)
    requires Serial(aggCount, es) && es != []
    ensures Serial(aggCount, es[..|es| - 1])
    ensures es[|es| - 1].Push? ==> Run(aggCount, es[..|es| - 1]).clearsPending == 0
  {
    var init := es[..|es| - 1];
    forall i | 0 <= i < |init| && init[i].Push? ensures Run(aggCount, init[..i]).clearsPending == 0 {
      assert init[..i] == es[..i];
    }
  }

  lemma CountingSnoc(n: nat)
    ensures seq(n + 1, i => i) == seq(n, i => i) + [n]
  {
  }
}
