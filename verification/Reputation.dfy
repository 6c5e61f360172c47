/** The reputation tracker and the feedback loop that weights Multi-Krum selections by it. */
module Reputation {
  import opened Options
  import opened Vectors
  import opened MultiKrum
  import Fractions

  const INITIAL_REPUTATION := 50.0
  const MAX_REPUTATION := 100.0
  const MIN_WEIGHT := 0.2
  const REWARD := 2.0
  const PENALTY := -1.0

  type ScoreMap = map<string, real>

  function Clamp(x: real): real {
    var capped := if x < MAX_REPUTATION then x else MAX_REPUTATION;
    if capped > 0.0 then capped else 0.0
  }

  /** A stored zero is falsy, so it reads as the initial reputation. */
  function ReputationOf(scores: ScoreMap, id: string): real {
    if id in scores && scores[id] != 0.0 then scores[id] else INITIAL_REPUTATION
  }

  predicate Keyed(pubkey: Option<string>) {
    pubkey.Some? && pubkey.value != ""
  }

  function WeightOf(scores: ScoreMap, pubkey: Option<string>): real {
    if !Keyed(pubkey) then 1.0
    else
      var w := ReputationOf(scores, pubkey.value) / 100.0;
      if w > MIN_WEIGHT then w else MIN_WEIGHT
  }

  function Weights(scores: ScoreMap, pubkeys: seq<Option<string>>): (w: seq<real>)
    ensures |w| == |pubkeys|
    ensures forall i :: 0 <= i < |w| ==> w[i] >= MIN_WEIGHT
  {
    seq(|pubkeys|, i requires 0 <= i < |pubkeys| => WeightOf(scores, pubkeys[i]))
  }

  function Registered(scores: ScoreMap, id: string): ScoreMap {
    if id in scores then scores else scores[id := INITIAL_REPUTATION]
  }

  function Adjusted(scores: ScoreMap, id: string, delta: real): ScoreMap {
    var known := Registered(scores, id);
    known[id := Clamp(known[id] + delta)]
  }

  /** The first `m` keys, registered if they were not. */
  function RegisterKeys(scores: ScoreMap, pubkeys: seq<Option<string>>, m: nat): ScoreMap
    requires m <= |pubkeys|
  {
    if m == 0 then scores
    else
      var s := RegisterKeys(scores, pubkeys, m - 1);
      if Keyed(pubkeys[m - 1]) then Registered(s, pubkeys[m - 1].value) else s
  }

  /** Reward or penalty for the first `m` keys, one after the other. */
  function Feedback(scores: ScoreMap, pubkeys: seq<Option<string>>, selected: seq<nat>, m: nat): ScoreMap
    requires m <= |pubkeys|
  {
    if m == 0 then scores
    else
      var s := Feedback(scores, pubkeys, selected, m - 1);
      if Keyed(pubkeys[m - 1])
      then Adjusted(s, pubkeys[m - 1].value, if m - 1 in selected then REWARD else PENALTY)
      else s
  }

  class ReputationTracker {
    var agentScores: ScoreMap

    constructor ()
      ensures agentScores == map[]
    {
      agentScores := map[];
    }

    method RegisterAgent(agentId: string, initialReputation: real := INITIAL_REPUTATION)
      modifies this
      ensures agentScores == old(agentScores)[agentId := initialReputation]
    {
      agentScores := agentScores[agentId := initialReputation];
    }

    method AdjustReputation(agentId: string, delta: real) returns (next: real)
      modifies this
      ensures agentScores == Adjusted(old(agentScores), agentId, delta)
      ensures next == agentScores[agentId]
    {
      if agentId !in agentScores {
        RegisterAgent(agentId);
      }
      var current := agentScores[agentId];
      var capped := if current + delta < MAX_REPUTATION then current + delta else MAX_REPUTATION;
      next := if capped > 0.0 then capped else 0.0;
      agentScores := agentScores[agentId := next];
    }

    function GetReputation(agentId: string): real
      reads this
    {
      ReputationOf(agentScores, agentId)
    }

    /** The weight loop at the head of the weighted selector; it registers the keys it meets for the first time. */
    method AssignWeights(pubkeys: seq<Option<string>>) returns (w: seq<real>)
      modifies this
      ensures agentScores == RegisterKeys(old(agentScores), pubkeys, |pubkeys|)
      ensures w == Weights(old(agentScores), pubkeys)
    {
      var n := |pubkeys|;
      var repWeights := new real[n](_ => 1.0);
      for i := 0 to n
        invariant agentScores == RegisterKeys(old(agentScores), pubkeys, i)
        invariant forall a :: 0 <= a < i ==> repWeights[a] == WeightOf(old(agentScores), pubkeys[a])
        invariant forall a :: i <= a < n ==> repWeights[a] == 1.0
      {
        if Keyed(pubkeys[i]) {
          var pubkey := pubkeys[i].value;
          RegisteringKeepsReputations(old(agentScores), pubkeys, i, pubkey);
          if pubkey !in agentScores {
            RegisterAgent(pubkey, 50.0);
          }
          var scaled := GetReputation(pubkey) / 100.0;
          repWeights[i] := if scaled > MIN_WEIGHT then scaled else MIN_WEIGHT;
        }
      }
      w := repWeights[..];
    }

    method ReputationWeightedMultiKrum(us: seq<Vec>, pubkeys: seq<Option<string>>, fOverride: Option<int>)
      returns (r: Selection)
      requires |us| == |pubkeys| && (us != [] ==> SameLength(us, |us[0]|))
      modifies this
      ensures |us| <= 1 ==> agentScores == old(agentScores)
      ensures us == [] ==> r == Selection(None, [], [])
      ensures |us| == 1 ==> r == Selection(Some(us[0]), [0], [0.0])
      ensures |us| >= 2 ==>
        var w := Weights(old(agentScores), pubkeys);
        && agentScores == RegisterKeys(old(agentScores), pubkeys, |pubkeys|)
        && r.selectedIndices == WeightedChosen(us, |us[0]|, w, Tolerance(|us|, fOverride))
        && WeightSum(w, r.selectedIndices) > 0.0
        && r.aggregate.Some? && IsWeightedAverage(r.aggregate.value, us, |us[0]|, w, r.selectedIndices)
    {
      var w := Weights(agentScores, pubkeys);
      if |us| >= 2 {
        w := AssignWeights(pubkeys);
      }
      r := WeightedMultiKrum(us, w, fOverride);
    }

    method ApplySelectionFeedback(pubkeys: seq<Option<string>>, selectedIndices: seq<nat>)
      modifies this
      ensures agentScores == Feedback(old(agentScores), pubkeys, selectedIndices, |pubkeys|)
    {
      for index := 0 to |pubkeys|
        invariant agentScores == Feedback(old(agentScores), pubkeys, selectedIndices, index)
      {
        if Keyed(pubkeys[index]) {
          var delta := if index in selectedIndices then 2.0 else -1.0;
          var _ := AdjustReputation(pubkeys[index].value, delta);
        }
      }
    }
  }

  lemma {:induction false} RegisteringKeepsReputations(
    scores: ScoreMap, pubkeys: seq<Option<string>>, m: nat, id: string)
    requires m <= |pubkeys|
    ensures ReputationOf(RegisterKeys(scores, pubkeys, m), id) == ReputationOf(scores, id)
  {
    if m > 0 {
      RegisteringKeepsReputations(scores, pubkeys, m - 1, id);
    }
  }

  predicate NamedBefore(pubkeys: seq<Option<string>>, m: nat, id: string)
    requires m <= |pubkeys|
  {
    exists j :: 0 <= j < m && Keyed(pubkeys[j]) && pubkeys[j].value == id
  }

  lemma {:induction false} FeedbackSparesOthers(
    scores: ScoreMap, pubkeys: seq<Option<string>>, selected: seq<nat>, m: nat, id: string)
    requires m <= |pubkeys| && !NamedBefore(pubkeys, m, id)
    ensures var s := Feedback(scores, pubkeys, selected, m);
      (id in s <==> id in scores) && (id in s ==> s[id] == scores[id])
  {
    if m > 0 {
      FeedbackSparesOthers(scores, pubkeys, selected, m - 1, id);
    }
  }

  /** In a round where it submits once, an agent gains two points if selected and loses one if not, within [0, 100]. */
  lemma {:induction false} FeedbackPerKey(
    scores: ScoreMap, pubkeys: seq<Option<string>>, selected: seq<nat>, m: nat, i: nat)
    requires i < m <= |pubkeys| && Keyed(pubkeys[i])
    requires forall j :: 0 <= j < m && Keyed(pubkeys[j]) && pubkeys[j].value == pubkeys[i].value ==> j == i
    ensures var s, id := Feedback(scores, pubkeys, selected, m), pubkeys[i].value;
      && id in s
      && var moved := (if id in scores then scores[id] else 50.0) + (if i in selected then 2.0 else -1.0);
      && s[id] == if moved < 0.0 then 0.0 else if moved > 100.0 then 100.0 else moved
  {
    if i == m - 1 {
      FeedbackSparesOthers(scores, pubkeys, selected, m - 1, pubkeys[i].value);
    } else {
      FeedbackPerKey(scores, pubkeys, selected, m - 1, i);
    }
  }

  // ---------- Whole runs ----------

  datatype Event =
    | Adjust(id: string, delta: real)
    | Round(us: seq<Vec>, pubkeys: seq<Option<string>>)

  ghost predicate WellFormed(e: Event) {
    e.Round? ==> |e.us| == |e.pubkeys| && (e.us != [] ==> SameLength(e.us, |e.us[0]|))
  }

  /** The indices a weighted round selects under the given scores. */
  function Selected(scores: ScoreMap, us: seq<Vec>, pubkeys: seq<Option<string>>): (s: seq<nat>)
    requires us != [] && |us| == |pubkeys| && SameLength(us, |us[0]|)
    ensures s != [] && InRange(s, |us|)
  {
    if |us| == 1 then [0]
    else WeightedChosen(us, |us[0]|, Weights(scores, pubkeys), Tolerance(|us|, None))
  }

  function Step(scores: ScoreMap, e: Event): ScoreMap
    requires WellFormed(e)
  {
    match e
    case Adjust(id, delta) => Adjusted(scores, id, delta)
    case Round(us, pubkeys) =>
      if us == [] then scores
      else
        var known := if |us| == 1 then scores else RegisterKeys(scores, pubkeys, |pubkeys|);
        Feedback(known, pubkeys, Selected(scores, us, pubkeys), |pubkeys|)
  }

  function Run(es: seq<Event>): ScoreMap
    requires forall i :: 0 <= i < |es| ==> WellFormed(es[i])
  {
    if es == [] then map[] else Step(Run(es[..|es| - 1]), es[|es| - 1])
  }

  /** One weighted aggregation with its feedback, as `aggregateUpdates` performs it. */
  method AggregateWithFeedback(tracker: ReputationTracker, us: seq<Vec>, pubkeys: seq<Option<string>>)
    returns (aggregate: Option<Vec>)
    requires us != [] && |us| == |pubkeys| && SameLength(us, |us[0]|)
    modifies tracker
    ensures tracker.agentScores == Step(old(tracker.agentScores), Round(us, pubkeys))
    ensures aggregate.Some?
    ensures |us| == 1 ==> aggregate.value == us[0]
    ensures |us| >= 2 ==>
      var w := Weights(old(tracker.agentScores), pubkeys);
      var selected := Selected(old(tracker.agentScores), us, pubkeys);
      WeightSum(w, selected) > 0.0 && IsWeightedAverage(aggregate.value, us, |us[0]|, w, selected)
  {
    var details := tracker.ReputationWeightedMultiKrum(us, pubkeys, None);
    tracker.ApplySelectionFeedback(pubkeys, details.selectedIndices);
    aggregate := details.aggregate;
  }

  ghost predicate Bounded(scores: ScoreMap) {
    forall id :: id in scores ==> 0.0 <= scores[id] <= MAX_REPUTATION
  }

  lemma {:induction false} RegisterKeysBounded(scores: ScoreMap, pubkeys: seq<Option<string>>, m: nat)
    requires m <= |pubkeys| && Bounded(scores)
    ensures Bounded(RegisterKeys(scores, pubkeys, m))
  {
    if m > 0 {
      RegisterKeysBounded(scores, pubkeys, m - 1);
    }
  }

  lemma {:induction false} FeedbackBounded(scores: ScoreMap, pubkeys: seq<Option<string>>, selected: seq<nat>, m: nat)
    requires m <= |pubkeys| && Bounded(scores)
    ensures Bounded(Feedback(scores, pubkeys, selected, m))
  {
    if m > 0 {
      FeedbackBounded(scores, pubkeys, selected, m - 1);
    }
  }

  /** On every run reputations stay in [0, 100], so every weight lies in [0.2, 1]. */
  lemma {:induction false} RunBounded(es: seq<Event>)
    requires forall i :: 0 <= i < |es| ==> WellFormed(es[i])
    ensures Bounded(Run(es))
    ensures forall pubkey :: 0.2 <= WeightOf(Run(es), pubkey) <= 1.0
  {
    if es != [] {
      var before, e := Run(es[..|es| - 1]), es[|es| - 1];
      RunBounded(es[..|es| - 1]);
      if e.Round? && e.us != [] {
        RegisterKeysBounded(before, e.pubkeys, |e.pubkeys|);
        var known := if |e.us| == 1 then before else RegisterKeys(before, e.pubkeys, |e.pubkeys|);
        FeedbackBounded(known, e.pubkeys, Selected(before, e.us, e.pubkeys), |e.pubkeys|);
      }
    }
  }

  /** Whatever the scores, a weighted round's output stays between the selected updates in every coordinate. */
  lemma RoundStaysInHull(
    scores: ScoreMap, us: seq<Vec>, pubkeys: seq<Option<string>>, k: nat, lo: real, hi: real)
    requires |us| >= 2 && |us| == |pubkeys| && SameLength(us, |us[0]|) && k < |us[0]|
    requires forall i :: i in Selected(scores, us, pubkeys) ==> lo <= us[i][k] <= hi
    ensures var w, s := Weights(scores, pubkeys), Selected(scores, us, pubkeys);
      WeightSum(w, s) > 0.0 && lo <= Ratio(WeightedCoordSum(us, |us[0]|, w, s, k), WeightSum(w, s)) <= hi
  {
    WeightedAverageInHull(us, |us[0]|, Weights(scores, pubkeys), Selected(scores, us, pubkeys), k, lo, hi);
  }

  lemma {:induction false} OtherWeights(w: seq<real>, idxs: seq<nat>, p: nat) returns (others: real)
    requires InRange(idxs, |w|) && p < |idxs| && forall i :: 0 <= i < |w| ==> 0.2 <= w[i] <= 1.0
    ensures WeightSum(w, idxs) == w[idxs[p]] + others
    ensures 0.2 * (|idxs| as real - 1.0) <= others <= |idxs| as real - 1.0
  {
    var m := |idxs| - 1;
    if p < m {
      var fewer := OtherWeights(w, idxs[..m], p);
      others := fewer + w[idxs[m]];
    } else {
      others := WeightSum(w, idxs[..m]);
      if m > 0 {
        var fewer := OtherWeights(w, idxs[..m], 0);
      }
    }
  }

  lemma ShareBounds(x: real, others: real, k: real)
    requires k >= 1.0 && 0.2 <= x <= 1.0 && 0.2 * (k - 1.0) <= others <= k - 1.0
    ensures x + others > 0.0 && 1.0 / (5.0 * k - 4.0) <= Ratio(x, x + others) <= 5.0 / (k + 4.0)
  {
    Fractions.MulNonNegative(x - 0.2, k - 1.0);
    Fractions.FractionOrder(1.0, 5.0 * k - 4.0, x, x + others);
    Fractions.MulNonNegative(1.0 - x, k - 1.0);
    Fractions.FractionOrder(x, x + others, 5.0, k + 4.0);
  }

  ghost predicate ShareIsBounded(w: seq<real>, s: seq<nat>, p: nat)
    requires InRange(s, |w|) && p < |s|
  {
    var k := |s| as real;
    && WeightSum(w, s) > 0.0
    && 1.0 / (5.0 * k - 4.0) <= Ratio(w[s[p]], WeightSum(w, s)) <= 5.0 / (k + 4.0)
  }

  lemma ShareOfSelected(w: seq<real>, s: seq<nat>, p: nat)
    requires InRange(s, |w|) && p < |s| && forall i :: 0 <= i < |w| ==> 0.2 <= w[i] <= 1.0
    ensures ShareIsBounded(w, s, p)
  {
    var others := OtherWeights(w, s, p);
    ShareBounds(w[s[p]], others, |s| as real);
  }

  /**
    No agent dominates and none is silenced: after any run, the share of each of the `k` selected updates in the
    weighted average lies between 1/(5k - 4) and 5/(k + 4).
   */
  lemma InfluenceIsBounded(es: seq<Event>, us: seq<Vec>, pubkeys: seq<Option<string>>, p: nat)
    requires forall i :: 0 <= i < |es| ==> WellFormed(es[i])
    requires |us| >= 2 && |us| == |pubkeys| && SameLength(us, |us[0]|) && p < |Selected(Run(es), us, pubkeys)|
    ensures ShareIsBounded(Weights(Run(es), pubkeys), Selected(Run(es), us, pubkeys), p)
  {
    var w := Weights(Run(es), pubkeys);
    RunBounded(es);
    forall i | 0 <= i < |w| ensures 0.2 <= w[i] <= 1.0 {
      assert w[i] == WeightOf(Run(es), pubkeys[i]);
    }
    ShareOfSelected(w, Selected(Run(es), us, pubkeys), p);
  }

  /**
    The weight is a hundredth of the score, but at least 0.2; unknown agents and a score of 0 have that of 50, and an
    update without a key counts fully.
   */
  lemma WeightTracksScore(scores: ScoreMap, id: string)
    requires Bounded(scores) && id != ""
    ensures WeightOf(scores, None) == 1.0 && WeightOf(scores, Some("")) == 1.0
    ensures id !in scores || scores[id] == 0.0 ==> WeightOf(scores, Some(id)) == 0.5
    ensures id in scores && 0.0 < scores[id] <= 20.0 ==> WeightOf(scores, Some(id)) == 0.2
    ensures id in scores && 20.0 <= scores[id] ==> 100.0 * WeightOf(scores, Some(id)) == scores[id]
  {
  }

  /** The empty key is nobody: no round gives it a score. */
  lemma {:induction false} EmptyKeyIsNobody(es: seq<Event>)
    requires forall i :: 0 <= i < |es| ==> WellFormed(es[i]) && (es[i].Adjust? ==> es[i].id != "")
    ensures "" !in Run(es)
  {
    if es != [] {
      var before, e := Run(es[..|es| - 1]), es[|es| - 1];
      EmptyKeyIsNobody(es[..|es| - 1]);
      if e.Round? && e.us != [] {
        var known := if |e.us| == 1 then before else RegisterKeys(before, e.pubkeys, |e.pubkeys|);
        RegisteringScores(before, e.pubkeys, |e.pubkeys|, "");
        FeedbackSparesOthers(known, e.pubkeys, Selected(before, e.us, e.pubkeys), |e.pubkeys|, "");
      }
    }
  }

  /**
    The weight follows the reputation except at a stored zero, which reads as 50: between two scores in
    [0, 100] the order of the weights is kept exactly when the lower one is not zero, or both are, or the higher
    one has reached 50.
   */
  lemma WeightMonotoneExceptAtZero(a: real, b: real, id: string)
    requires 0.0 <= a <= b <= MAX_REPUTATION && id != ""
    ensures WeightOf(map[id := a], Some(id)) <= WeightOf(map[id := b], Some(id)) <==> a != 0.0 || b == 0.0 || b >= 50.0
  {
    assert WeightOf(map[id := 0.0], Some(id)) == 0.5;
  }

  ghost predicate SubmitsOnlyAt(pubkeys: seq<Option<string>>, id: string, i: nat) {
    && i < |pubkeys| && pubkeys[i] == Some(id)
    && forall j :: 0 <= j < |pubkeys| && pubkeys[j] == Some(id) ==> j == i
  }

  /** A round in which `id` submits once and is not selected. */
  ghost predicate Rejects(scores: ScoreMap, e: Event, id: string)
    requires WellFormed(e)
  {
    && e.Round? && e.us != []
    && exists i :: SubmitsOnlyAt(e.pubkeys, id, i) && i !in Selected(scores, e.us, e.pubkeys)
  }

  /** A round or an adjustment that does not name `id`. */
  ghost predicate Spares(e: Event, id: string) {
    if e.Adjust? then e.id != id else Some(id) !in e.pubkeys
  }

  ghost predicate OnlyRejections(es: seq<Event>, id: string)
    requires forall i :: 0 <= i < |es| ==> WellFormed(es[i])
  {
    es != [] ==>
      var init, e := es[..|es| - 1], es[|es| - 1];
      OnlyRejections(init, id) && (Spares(e, id) || Rejects(Run(init), e, id))
  }

  ghost function Rejections(es: seq<Event>, id: string): nat {
    if es == [] then 0 else Rejections(es[..|es| - 1], id) + if Spares(es[|es| - 1], id) then 0 else 1
  }

  lemma {:induction false} RegisteringScores(scores: ScoreMap, pubkeys: seq<Option<string>>, m: nat, id: string)
    requires m <= |pubkeys|
    ensures var s := RegisterKeys(scores, pubkeys, m);
      && (id in scores ==> id in s && s[id] == scores[id])
      && (id !in scores ==> (id in s <==> id != "" && NamedBefore(pubkeys, m, id)) && (id in s ==> s[id] == 50.0))
  {
    if m > 0 {
      RegisteringScores(scores, pubkeys, m - 1, id);
    }
  }

  lemma SparingStep(scores: ScoreMap, e: Event, id: string)
    requires WellFormed(e) && Spares(e, id)
    ensures var s := Step(scores, e); (id in s <==> id in scores) && (id in s ==> s[id] == scores[id])
  {
    if e.Round? && e.us != [] {
      var known := if |e.us| == 1 then scores else RegisterKeys(scores, e.pubkeys, |e.pubkeys|);
      RegisteringScores(scores, e.pubkeys, |e.pubkeys|, id);
      assert !NamedBefore(e.pubkeys, |e.pubkeys|, id);
      FeedbackSparesOthers(known, e.pubkeys, Selected(scores, e.us, e.pubkeys), |e.pubkeys|, id);
    }
  }

  lemma RejectingStep(scores: ScoreMap, e: Event, id: string)
    requires WellFormed(e) && Rejects(scores, e, id) && id != ""
    ensures var s := Step(scores, e); id in s && s[id] == Clamp((if id in scores then scores[id] else 50.0) - 1.0)
  {
    var selected := Selected(scores, e.us, e.pubkeys);
    var i: nat :| SubmitsOnlyAt(e.pubkeys, id, i) && i !in selected;
    var known := if |e.us| == 1 then scores else RegisterKeys(scores, e.pubkeys, |e.pubkeys|);
    RegisteringScores(scores, e.pubkeys, |e.pubkeys|, id);
    FeedbackPerKey(known, e.pubkeys, selected, |e.pubkeys|, i);
  }

  /** What an agent is left with after so many rejections. */
  function ScoreAfter(rejections: nat): real {
    if rejections < 50 then 50.0 - rejections as real else 0.0
  }

  /**
    On every run in which an agent is rejected whenever it submits, its score falls by one a rejection, and from the
    fiftieth on, when the score is zero, it has the weight of a newcomer again.
   */
  lemma {:induction false} RejectionEventuallyRestoresWeight(es: seq<Event>, id: string)
    requires forall i :: 0 <= i < |es| ==> WellFormed(es[i])
    requires OnlyRejections(es, id) && id != ""
    ensures var s, n := Run(es), Rejections(es, id);
      && (id in s <==> n > 0)
      && (n > 0 ==> s[id] == ScoreAfter(n) && (WeightOf(s, Some(id)) >= 0.5 <==> n >= 50))
  {
    if es != [] {
      var init, e := es[..|es| - 1], es[|es| - 1];
      RejectionEventuallyRestoresWeight(init, id);
      if Spares(e, id) {
        SparingStep(Run(init), e, id);
      } else {
        RejectingStep(Run(init), e, id);
      }
    }
  }
}
