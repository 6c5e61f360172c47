/**
  The proposal and voting protocol of agents/aggregator/server.js under every interleaving.  A request handler
  is cut at its awaits: what runs between two awaits is one atomic event.  A proposal is an object that handlers
  keep a reference to while they wait, so proposals are numbered and the round table maps ids to numbers.
 */
module VotingRounds {
  import opened Options
  import ReplayCache

  type Key = string
  type RoundId = string
  type Model = seq<real>

  /** `voteQuorum` is the configured override; with `onchain` the registry is external and local registration is off. */
  datatype Config = Config(onchain: bool, voteQuorum: Option<int>, aggCount: nat, seenLimit: nat)

  datatype Status = Open | Finalized
  datatype Proposal = Proposal(model: Model, votes: map<Key, string>, status: Status)
  datatype Request = Request(roundId: RoundId, key: Key, choice: string, seenId: string, signatureOk: bool)

  /** Where a vote request is suspended. */
  datatype Ballot =
    | Vetted(req: Request)                                  // the registry check has passed
    | Persisting(roundId: RoundId, pid: nat, quorum: int)   // the vote is recorded, the rounds are being saved
    | Committing(roundId: RoundId, pid: nat)                // the model is applied, the commitment is being emitted
    | Done

  datatype State = State(
    registry: set<Key>, seen: seq<string>, proposals: seq<Proposal>, rounds: map<RoundId, nat>,
    ballots: seq<Ballot>, model: Model)

  /** What /propose checks when a proposal carries a proof; the answer of the registry precedes an await. */
  datatype Proof = Proof(registered: bool, timely: bool, seenId: string, signatureOk: bool)

  datatype Event =
    | Register(key: Key)
    | OtherMessage(seenId: string)                          // another handler accepts a message
    | Propose(roundId: RoundId, model: Model, proof: Option<Proof>)   // no proof: from the update buffer, or lenient
    | Arrive(req: Request, onchainAnswer: bool)
    | Cast(b: nat, timely: bool)
    | Tally(b: nat)
    | Finish(b: nat, committed: bool)

  /** A started server: registry, seen ids, rounds and model come from files; no request is waiting. */
  function Started(
    registry: set<Key>, seen: seq<string>, proposals: seq<Proposal>, rounds: map<RoundId, nat>, model: Model): State
  {
    State(registry, seen, proposals, rounds, [], model)
  }

  /** An empty local registry lets everyone in. */
  predicate PassesRegistry(c: Config, registry: set<Key>, key: Key, onchainAnswer: bool) {
    if c.onchain then onchainAnswer else registry == {} || key in registry
  }

  function Quorum(c: Config, registry: set<Key>): int {
    var registrySize := if |registry| > 0 then |registry| else c.aggCount;
    var share := (registrySize as real * 0.66).Floor;
    match c.voteQuorum
    case Some(q) => q
    case None => if share > 1 then share else 1
  }

  predicate Referenced(s: State, b: nat) {
    && b < |s.ballots|
    && (s.ballots[b].Persisting? || s.ballots[b].Committing? ==> s.ballots[b].pid < |s.proposals|)
  }

  /** The guards between the registry check and the recording of the vote, apart from those on the round. */
  predicate Admissible(s: State, req: Request, timely: bool) {
    timely && req.seenId !in s.seen && req.signatureOk
  }

  predicate OpenRound(s: State, roundId: RoundId) {
    roundId in s.rounds && s.rounds[roundId] < |s.proposals| && s.proposals[s.rounds[roundId]].status.Open?
  }

  function CastStep(c: Config, s: State, b: nat, timely: bool): State
    requires b < |s.ballots| && s.ballots[b].Vetted?
  {
    var req := s.ballots[b].req;
    if !Admissible(s, req, timely) then s.(ballots := s.ballots[b := Done])
    else
      var marked := s.(seen := ReplayCache.Mark(c.seenLimit, s.seen, req.seenId));
      if !OpenRound(s, req.roundId) then marked.(ballots := s.ballots[b := Done])
      else
        var pid := s.rounds[req.roundId];
        var p := s.proposals[pid];
        marked.(proposals := s.proposals[pid := p.(votes := p.votes[req.key := req.choice])],
                ballots := s.ballots[b := Persisting(req.roundId, pid, Quorum(c, s.registry))])
  }

  predicate ProofHolds(s: State, proof: Option<Proof>) {
    proof.Some? ==>
      proof.value.registered && proof.value.timely && proof.value.seenId !in s.seen && proof.value.signatureOk
  }

  function Proposed(c: Config, s: State, roundId: RoundId, model: Model, proof: Option<Proof>): State {
    s.(seen := if proof.Some? then ReplayCache.Mark(c.seenLimit, s.seen, proof.value.seenId) else s.seen,
       proposals := s.proposals + [Proposal(model, map[], Open)], rounds := s.rounds[roundId := |s.proposals|])
  }

  /** An event for a request that is not waiting there does nothing. */
  function Step(c: Config, s: State, e: Event): State {
    match e
    case Register(key) => if c.onchain then s else s.(registry := s.registry + {key})
    case OtherMessage(seenId) =>
      if seenId in s.seen then s else s.(seen := ReplayCache.Mark(c.seenLimit, s.seen, seenId))
    case Propose(roundId, model, proof) =>
      if ProofHolds(s, proof) then Proposed(c, s, roundId, model, proof) else s
    case Arrive(req, answer) =>
      var passed := PassesRegistry(c, s.registry, req.key, answer);
      s.(ballots := s.ballots + [if passed then Vetted(req) else Done])
    case Cast(b, timely) =>
      if b < |s.ballots| && s.ballots[b].Vetted? then CastStep(c, s, b, timely) else s
    case Tally(b) =>
      if Referenced(s, b) && s.ballots[b].Persisting? then
        var w := s.ballots[b];
        var p := s.proposals[w.pid];
        if |p.votes.Keys| >= w.quorum
        then s.(model := p.model, ballots := s.ballots[b := Committing(w.roundId, w.pid)])
        else s.(ballots := s.ballots[b := Done])
      else s
    case Finish(b, committed) =>
      if Referenced(s, b) && s.ballots[b].Committing? then
        var w := s.ballots[b];
        if committed
        then s.(proposals := s.proposals[w.pid := s.proposals[w.pid].(status := Finalized)],
                rounds := s.rounds[w.roundId := w.pid], ballots := s.ballots[b := Done])
        else s.(ballots := s.ballots[b := Done])
      else s
  }

  function Run(c: Config, s0: State, es: seq<Event>): State {
    if es == [] then s0 else Step(c, Run(c, s0, es[..|es| - 1]), es[|es| - 1])
  }

  /** The module-level state of the server and the pieces of its handlers. */
  class Server {
    const config: Config
    var registry: set<Key>
    var seen: seq<string>
    var proposals: seq<Proposal>
    var rounds: map<RoundId, nat>
    var ballots: seq<Ballot>
    var model: Model

    function Abs(): State
      reads this
    {
      State(registry, seen, proposals, rounds, ballots, model)
    }

    constructor (
      config: Config, registry: set<Key>, seen: seq<string>, proposals: seq<Proposal>, rounds: map<RoundId, nat>,
      model: Model)
      ensures this.config == config && Abs() == Started(registry, seen, proposals, rounds, model)
    {
      this.config, this.registry, this.seen, this.proposals := config, registry, seen, proposals;
      this.rounds, this.ballots, this.model := rounds, [], model;
    }

    method RegisterKey(key: Key)
      modifies this
      ensures Abs() == Step(config, old(Abs()), Register(key))
    {
      if !config.onchain {
        registry := registry + {key};
      }
    }

    method ProposeModel(roundId: RoundId, proposalModel: Model, proof: Option<Proof>) returns (accepted: bool)
      modifies this
      ensures Abs() == Step(config, old(Abs()), Propose(roundId, proposalModel, proof))
      ensures accepted <==> ProofHolds(old(Abs()), proof)
    {
      if proof.Some? {
        var p := proof.value;
        if !p.registered || !p.timely || p.seenId in seen || !p.signatureOk {
          return false;
        }
        seen := ReplayCache.Mark(config.seenLimit, seen, p.seenId);
      }
      rounds := rounds[roundId := |proposals|];
      proposals := proposals + [Proposal(proposalModel, map[], Open)];
      return true;
    }

    /** Returns the number under which the request waits. */
    method ReceiveVote(req: Request, onchainAnswer: bool) returns (b: nat)
      modifies this
      ensures Abs() == Step(config, old(Abs()), Arrive(req, onchainAnswer))
      ensures b == |old(ballots)|
    {
      b := |ballots|;
      if PassesRegistry(config, registry, req.key, onchainAnswer) {
        ballots := ballots + [Vetted(req)];
      } else {
        ballots := ballots + [Done];
      }
    }

    method CastVote(b: nat, timely: bool)
      requires b < |ballots| && ballots[b].Vetted?
      modifies this
      ensures Abs() == Step(config, old(Abs()), Cast(b, timely))
    {
      var req := ballots[b].req;
      ballots := ballots[b := Done];
      if !timely || req.seenId in seen || !req.signatureOk {
        return;
      }
      seen := ReplayCache.Mark(config.seenLimit, seen, req.seenId);
      if OpenRound(Abs(), req.roundId) {
        var pid := rounds[req.roundId];
        proposals := proposals[pid := proposals[pid].(votes := proposals[pid].votes[req.key := req.choice])];
        ballots := ballots[b := Persisting(req.roundId, pid, Quorum(config, registry))];
      }
    }

    method TallyVotes(b: nat) returns (applied: bool)
      requires Referenced(Abs(), b) && ballots[b].Persisting?
      modifies this
      ensures Abs() == Step(config, old(Abs()), Tally(b))
      ensures applied <==> ballots[b].Committing?
    {
      var waiting := ballots[b];
      var proposal := proposals[waiting.pid];
      applied := |proposal.votes.Keys| >= waiting.quorum;
      if applied {
        model := proposal.model;
        ballots := ballots[b := Committing(waiting.roundId, waiting.pid)];
      } else {
        ballots := ballots[b := Done];
      }
    }

    method FinishVote(b: nat, committed: bool)
      requires Referenced(Abs(), b) && ballots[b].Committing?
      modifies this
      ensures Abs() == Step(config, old(Abs()), Finish(b, committed))
    {
      var waiting := ballots[b];
      if committed {
        proposals := proposals[waiting.pid := proposals[waiting.pid].(status := Finalized)];
        rounds := rounds[waiting.roundId := waiting.pid];
      }
      ballots := ballots[b := Done];
    }
  }

  // ---------- What happened on a run ----------

  /**
    At event `a`, a vote request arrived whose key was registered then: on chain, by the answer of that check, which
    is yes when the registry cannot be read; locally, in the registry or with the registry empty.
   */
  ghost predicate KeyVetted(c: Config, s0: State, es: seq<Event>, a: nat, req: Request) {
    && a < |es| && es[a].Arrive? && es[a].req == req
    && (c.onchain ==> es[a].onchainAnswer)
    && (!c.onchain ==> Run(c, s0, es[..a]).registry == {} || req.key in Run(c, s0, es[..a]).registry)
  }

  /** At event `k`, a timely, signature-checked, first-time vote by `key` was recorded on the open proposal `pid`. */
  ghost predicate VoteRecorded(c: Config, s0: State, es: seq<Event>, k: nat, req: Request, pid: nat) {
    && k < |es| && es[k].Cast?
    && var s := Run(c, s0, es[..k]);
    && es[k].b < |s.ballots| && s.ballots[es[k].b] == Vetted(req)
    && es[k].timely && req.seenId !in s.seen && req.signatureOk
    && req.roundId in s.rounds && s.rounds[req.roundId] == pid
    && pid < |s.proposals| && s.proposals[pid].status == Open
  }

  /** At event `t`, the proposal `pid` was applied by a request whose quorum was `quorum`. */
  ghost predicate AppliedAt(c: Config, s0: State, es: seq<Event>, t: nat, pid: nat, quorum: int) {
    && t < |es| && es[t].Tally?
    && var s := Run(c, s0, es[..t]);
    && Referenced(s, es[t].b) && s.ballots[es[t].b].Persisting?
    && s.ballots[es[t].b].pid == pid && s.ballots[es[t].b].quorum == quorum
    && |s.proposals[pid].votes.Keys| >= quorum
  }

  ghost predicate ReferencesValid(s: State) {
    && (forall b :: 0 <= b < |s.ballots| ==> Referenced(s, b))
    && (forall r :: r in s.rounds ==> s.rounds[r] < |s.proposals|)
  }

  lemma StepKeepsReferences(c: Config, s: State, e: Event)
    requires ReferencesValid(s)
    ensures ReferencesValid(Step(c, s, e))
  {
    var t := Step(c, s, e);
    forall b | 0 <= b < |t.ballots| ensures Referenced(t, b) {
      assert b < |s.ballots| ==> Referenced(s, b);
    }
  }

  /** On no run does a waiting request or a round id point to a proposal that does not exist. */
  lemma {:induction false} RunKeepsReferences(c: Config, s0: State, es: seq<Event>)
    requires ReferencesValid(s0)
    ensures ReferencesValid(Run(c, s0, es))
  {
    if es != [] {
      RunKeepsReferences(c, s0, es[..|es| - 1]);
      StepKeepsReferences(c, Run(c, s0, es[..|es| - 1]), es[|es| - 1]);
    }
  }

  /** A request that waits after the registry check did so before, or has just passed it. */
  lemma VettedOrigin(c: Config, p: State, e: Event, b: nat)
    requires var t := Step(c, p, e); b < |t.ballots| && t.ballots[b].Vetted?
    ensures
      || (b < |p.ballots| && p.ballots[b] == Step(c, p, e).ballots[b])
      || (e.Arrive? && Step(c, p, e).ballots[b] == Vetted(e.req)
          && PassesRegistry(c, p.registry, e.req.key, e.onchainAnswer))
  {
  }

  /** A vote that is recorded was so before, or has just been cast. */
  lemma VoteOrigin(c: Config, p: State, e: Event, pid: nat, key: Key)
    requires var t := Step(c, p, e); pid < |t.proposals| && key in t.proposals[pid].votes
    ensures
      || (pid < |p.proposals| && key in p.proposals[pid].votes)
      || (e.Cast? && e.b < |p.ballots| && p.ballots[e.b].Vetted?
          && p.ballots[e.b].req.key == key && Admissible(p, p.ballots[e.b].req, e.timely)
          && OpenRound(p, p.ballots[e.b].req.roundId) && p.rounds[p.ballots[e.b].req.roundId] == pid)
  {
  }

  /** A request that waits for its commitment did so before, or has just applied its proposal. */
  lemma CommittingOrigin(c: Config, p: State, e: Event, b: nat)
    requires var t := Step(c, p, e); b < |t.ballots| && t.ballots[b].Committing?
    ensures
      || (b < |p.ballots| && p.ballots[b] == Step(c, p, e).ballots[b])
      || (Applies(p, e) && e.b == b && p.ballots[b].pid == Step(c, p, e).ballots[b].pid)
  {
  }

  /** A finalized proposal was so before, or a request that waited for its commitment has just finished. */
  lemma FinalizedOrigin(c: Config, p: State, e: Event, pid: nat)
    requires var t := Step(c, p, e); pid < |t.proposals| && t.proposals[pid].status.Finalized?
    ensures
      || (pid < |p.proposals| && p.proposals[pid].status.Finalized?)
      || (e.Finish? && e.b < |p.ballots| && p.ballots[e.b].Committing? && p.ballots[e.b].pid == pid)
  {
  }

  /** Every request waiting after the registry check passed it. */
  lemma {:induction false} WaitingWasVetted(c: Config, s0: State, es: seq<Event>, b: nat) returns (a: nat)
    requires s0.ballots == []
    requires var s := Run(c, s0, es); b < |s.ballots| && s.ballots[b].Vetted?
    ensures KeyVetted(c, s0, es, a, Run(c, s0, es).ballots[b].req)
  {
    var init, e := es[..|es| - 1], es[|es| - 1];
    var p := Run(c, s0, init);
    VettedOrigin(c, p, e, b);
    if b < |p.ballots| && p.ballots[b] == Run(c, s0, es).ballots[b] {
      a := WaitingWasVetted(c, s0, init, b);
      assert init[..a] == es[..a];
    } else {
      a := |es| - 1;
    }
  }

  /** A vote that was there at the start, loaded with its round from the file. */
  ghost predicate Loaded(s0: State, pid: nat, key: Key) {
    pid < |s0.proposals| && key in s0.proposals[pid].votes
  }

  /** Every vote that was not loaded was recorded by a request that had passed the registry check before. */
  lemma {:induction false} VoteWasRecorded(c: Config, s0: State, es: seq<Event>, pid: nat, key: Key)
    returns (a: nat, k: nat, req: Request)
    requires s0.ballots == [] && !Loaded(s0, pid, key)
    requires var s := Run(c, s0, es); pid < |s.proposals| && key in s.proposals[pid].votes
    ensures a < k && req.key == key
    ensures KeyVetted(c, s0, es, a, req) && VoteRecorded(c, s0, es, k, req, pid)
  {
    var init, e := es[..|es| - 1], es[|es| - 1];
    var p := Run(c, s0, init);
    if pid < |p.proposals| && key in p.proposals[pid].votes {
      a, k, req := VoteWasRecorded(c, s0, init, pid, key);
      assert init[..a] == es[..a] && init[..k] == es[..k];
    } else {
      VoteOrigin(c, p, e, pid, key);
      k, req := |es| - 1, p.ballots[e.b].req;
      a := WaitingWasVetted(c, s0, init, e.b);
      assert init[..a] == es[..a];
    }
  }

  /** Only the recording of a vote makes a request wait for the rounds to be saved. */
  lemma PersistingOrigin(c: Config, p: State, e: Event, b: nat)
    requires var s := Step(c, p, e); b < |s.ballots| && s.ballots[b].Persisting?
    ensures
      || (b < |p.ballots| && p.ballots[b] == Step(c, p, e).ballots[b])
      || (e.Cast? && e.b == b && b < |p.ballots| && p.ballots[b].Vetted?
          && Admissible(p, p.ballots[b].req, e.timely) && OpenRound(p, p.ballots[b].req.roundId)
          && Step(c, p, e).ballots[b]
               == Persisting(p.ballots[b].req.roundId, p.rounds[p.ballots[b].req.roundId], Quorum(c, p.registry)))
  {
  }

  /** The quorum a waiting request carries is the one that held when its vote was recorded. */
  lemma {:induction false} QuorumFixedAtCast(c: Config, s0: State, es: seq<Event>, b: nat)
    returns (k: nat, req: Request)
    requires s0.ballots == []
    requires var s := Run(c, s0, es); b < |s.ballots| && s.ballots[b].Persisting?
    ensures VoteRecorded(c, s0, es, k, req, Run(c, s0, es).ballots[b].pid)
    ensures Run(c, s0, es).ballots[b].quorum == Quorum(c, Run(c, s0, es[..k]).registry)
  {
    var init, e := es[..|es| - 1], es[|es| - 1];
    var p := Run(c, s0, init);
    PersistingOrigin(c, p, e, b);
    if b < |p.ballots| && p.ballots[b] == Run(c, s0, es).ballots[b] {
      k, req := QuorumFixedAtCast(c, s0, init, b);
      assert init[..k] == es[..k];
    } else {
      k, req := |es| - 1, p.ballots[b].req;
    }
  }

  ghost predicate NothingAppliedFrom(c: Config, s0: State, es: seq<Event>, from: nat) {
    forall t: nat, pid, quorum :: from <= t ==> !AppliedAt(c, s0, es, t, pid, quorum)
  }

  /** The tally in state `s` reaches its quorum. */
  predicate Applies(s: State, e: Event) {
    && e.Tally? && Referenced(s, e.b) && s.ballots[e.b].Persisting?
    && |s.proposals[s.ballots[e.b].pid].votes.Keys| >= s.ballots[e.b].quorum
  }

  lemma OnlyApplicationsChangeModel(c: Config, s: State, e: Event)
    ensures Step(c, s, e).model == if Applies(s, e) then s.proposals[s.ballots[e.b].pid].model else s.model
  {
  }

  lemma AppliedInPrefix(c: Config, s0: State, es: seq<Event>, t: nat, pid: nat, quorum: int)
    requires t < |es| - 1
    ensures AppliedAt(c, s0, es[..|es| - 1], t, pid, quorum) <==> AppliedAt(c, s0, es, t, pid, quorum)
  {
    assert es[..|es| - 1][..t] == es[..t];
  }

  lemma NothingAppliedExtends(c: Config, s0: State, es: seq<Event>, from: nat)
    requires es != [] && NothingAppliedFrom(c, s0, es[..|es| - 1], from)
    requires !Applies(Run(c, s0, es[..|es| - 1]), es[|es| - 1])
    ensures NothingAppliedFrom(c, s0, es, from)
  {
    forall t: nat, pid, quorum | from <= t ensures !AppliedAt(c, s0, es, t, pid, quorum) {
      if t < |es| - 1 {
        AppliedInPrefix(c, s0, es, t, pid, quorum);
      }
    }
  }

  /** The served model is that of the latest application of a proposal, or the initial one if there was none. */
  lemma {:induction false} ServedModelIsLatestApplied(c: Config, s0: State, es: seq<Event>)
    returns (t: nat, pid: nat, quorum: int)
    ensures
      if AppliedAt(c, s0, es, t, pid, quorum)
      then Run(c, s0, es).model == Run(c, s0, es[..t]).proposals[pid].model && NothingAppliedFrom(c, s0, es, t + 1)
      else Run(c, s0, es).model == s0.model && NothingAppliedFrom(c, s0, es, 0)
  {
    t, pid, quorum := 0, 0, 0;
    if es != [] {
      var init, e := es[..|es| - 1], es[|es| - 1];
      var p := Run(c, s0, init);
      OnlyApplicationsChangeModel(c, p, e);
      if Applies(p, e) {
        t, pid, quorum := |es| - 1, p.ballots[e.b].pid, p.ballots[e.b].quorum;
      } else {
        t, pid, quorum := ServedModelIsLatestApplied(c, s0, init);
        if AppliedAt(c, s0, init, t, pid, quorum) {
          AppliedInPrefix(c, s0, es, t, pid, quorum);
          assert init[..t] == es[..t];
          NothingAppliedExtends(c, s0, es, t + 1);
        } else {
          NothingAppliedExtends(c, s0, es, 0);
        }
      }
    }
  }

  /** Whoever waits for the commitment of a proposal has applied it. */
  lemma {:induction false} CommittingWasApplied(c: Config, s0: State, es: seq<Event>, b: nat)
    returns (t: nat, quorum: int)
    requires s0.ballots == []
    requires var s := Run(c, s0, es); b < |s.ballots| && s.ballots[b].Committing?
    ensures AppliedAt(c, s0, es, t, Run(c, s0, es).ballots[b].pid, quorum)
  {
    var init, e := es[..|es| - 1], es[|es| - 1];
    var p := Run(c, s0, init);
    CommittingOrigin(c, p, e, b);
    if b < |p.ballots| && p.ballots[b] == Run(c, s0, es).ballots[b] {
      t, quorum := CommittingWasApplied(c, s0, init, b);
      assert init[..t] == es[..t];
    } else {
      t, quorum := |es| - 1, p.ballots[b].quorum;
    }
  }

  /** A proposal is marked finalized only after it was applied, unless it was loaded as finalized. */
  lemma {:induction false} FinalizedWasApplied(c: Config, s0: State, es: seq<Event>, pid: nat)
    returns (t: nat, quorum: int)
    requires s0.ballots == [] && !(pid < |s0.proposals| && s0.proposals[pid].status.Finalized?)
    requires var s := Run(c, s0, es); pid < |s.proposals| && s.proposals[pid].status.Finalized?
    ensures AppliedAt(c, s0, es, t, pid, quorum)
  {
    var init, e := es[..|es| - 1], es[|es| - 1];
    var p := Run(c, s0, init);
    if pid < |p.proposals| && p.proposals[pid].status.Finalized? {
      t, quorum := FinalizedWasApplied(c, s0, init, pid);
    } else {
      FinalizedOrigin(c, p, e, pid);
      t, quorum := CommittingWasApplied(c, s0, init, e.b);
    }
    assert init[..t] == es[..t];
  }

  /** `key` passed the registry check before event `t`, and later, still before `t`, had its vote on `pid` recorded. */
  ghost predicate Certified(c: Config, s0: State, es: seq<Event>, pid: nat, key: Key) {
    exists a: nat, k: nat, req: Request ::
      a < k && req.key == key && KeyVetted(c, s0, es, a, req) && VoteRecorded(c, s0, es, k, req, pid)
  }

  /** The configured quorum or, without one, 66 percent of `n` rounded down, but at least 1. */
  ghost predicate RequiredVotes(c: Config, n: nat, quorum: int) {
    match c.voteQuorum
    case Some(q) => quorum == q
    case None => quorum >= 1 && 66 * n < 100 * (quorum + 1) && (quorum > 1 ==> 100 * quorum <= 66 * n)
  }

  /** `quorum` is what was required of the registry, or of the expected aggregators, when a vote was recorded. */
  ghost predicate QuorumOfSomeVote(c: Config, s0: State, es: seq<Event>, pid: nat, quorum: int) {
    exists k: nat, req ::
      && VoteRecorded(c, s0, es, k, req, pid)
      && var registry := Run(c, s0, es[..k]).registry;
      RequiredVotes(c, if registry == {} then c.aggCount else |registry|, quorum)
  }

  lemma QuorumIsRequired(c: Config, registry: set<Key>)
    ensures RequiredVotes(c, if registry == {} then c.aggCount else |registry|, Quorum(c, registry))
  {
    ShareFloor(if registry == {} then c.aggCount else |registry|);
  }

  lemma QuorumWasRequired(c: Config, s0: State, es: seq<Event>, b: nat)
    requires s0.ballots == []
    requires var s := Run(c, s0, es); b < |s.ballots| && s.ballots[b].Persisting?
    ensures var w := Run(c, s0, es).ballots[b]; QuorumOfSomeVote(c, s0, es, w.pid, w.quorum)
  {
    var k, req := QuorumFixedAtCast(c, s0, es, b);
    QuorumIsRequired(c, Run(c, s0, es[..k]).registry);
  }

  /** Every key whose vote counted on `pid` was loaded with it or is certified. */
  ghost predicate Backed(c: Config, s0: State, es: seq<Event>, pid: nat) {
    && pid < |Run(c, s0, es).proposals|
    && forall key :: key in Run(c, s0, es).proposals[pid].votes ==>
      Loaded(s0, pid, key) || Certified(c, s0, es, pid, key)
  }

  /**
    Round safety.  Whenever a proposal is applied, the tallying request demands the quorum that held when its own
    vote was recorded, and every key in the vote map, unless loaded with the round, belongs to a request that passed
    the registry check and then had a timely, correctly signed, first-time vote recorded on this very proposal.
   */
  lemma AppliedHadQuorum(c: Config, s0: State, es: seq<Event>, t: nat, pid: nat, quorum: int)
    requires s0.ballots == [] && AppliedAt(c, s0, es, t, pid, quorum)
    ensures QuorumOfSomeVote(c, s0, es[..t], pid, quorum) && Backed(c, s0, es[..t], pid)
  {
    var s := Run(c, s0, es[..t]);
    QuorumWasRequired(c, s0, es[..t], es[t].b);
    forall key | key in s.proposals[pid].votes && !Loaded(s0, pid, key) ensures Certified(c, s0, es[..t], pid, key) {
      var a, k, req := VoteWasRecorded(c, s0, es[..t], pid, key);
    }
  }

  /**
    What the server serves, on every interleaving and whatever rounds it was started with: the model it was started
    with, as long as nothing was applied; after that the model of the proposal applied last, which was backed by a
    quorum of loaded or certified keys at that moment.
   */
  lemma ServedModelIsBacked(c: Config, s0: State, es: seq<Event>) returns (t: nat, pid: nat, quorum: int)
    requires s0.ballots == []
    ensures
      if AppliedAt(c, s0, es, t, pid, quorum) then
        var before := Run(c, s0, es[..t]);
        && NothingAppliedFrom(c, s0, es, t + 1)
        && Run(c, s0, es).model == before.proposals[pid].model && |before.proposals[pid].votes.Keys| >= quorum
        && QuorumOfSomeVote(c, s0, es[..t], pid, quorum) && Backed(c, s0, es[..t], pid)
      else
        NothingAppliedFrom(c, s0, es, 0) && Run(c, s0, es).model == s0.model
  {
    t, pid, quorum := ServedModelIsLatestApplied(c, s0, es);
    if AppliedAt(c, s0, es, t, pid, quorum) {
      AppliedHadQuorum(c, s0, es, t, pid, quorum);
    }
  }

  // ---------- What one step does, and what the registry and the replay cache hold ----------

  /** A vote request gets past the first await exactly when its key is registered at that moment. */
  lemma ArrivalIsVettedIff(c: Config, s: State, req: Request, answer: bool)
    ensures var registered := if c.onchain then answer else s.registry == {} || req.key in s.registry;
      Step(c, s, Arrive(req, answer)).ballots == s.ballots + [if registered then Vetted(req) else Done]
  {
  }

  /** A vetted request records its vote exactly when it is in time, new, correctly signed, and its round is open. */
  lemma CastRecordsIff(c: Config, s: State, b: nat, timely: bool)
    requires ReferencesValid(s) && b < |s.ballots| && s.ballots[b].Vetted?
    ensures var req, t := s.ballots[b].req, Step(c, s, Cast(b, timely));
      t.ballots[b].Persisting? <==>
        && timely && req.seenId !in s.seen && req.signatureOk
        && req.roundId in s.rounds && s.proposals[s.rounds[req.roundId]].status == Open
    ensures var req, t := s.ballots[b].req, Step(c, s, Cast(b, timely));
      && (t.ballots[b].Persisting? ==>
            t.ballots[b].pid == s.rounds[req.roundId] && req.key in t.proposals[t.ballots[b].pid].votes)
      && (!t.ballots[b].Persisting? ==> t.proposals == s.proposals && t.ballots[b] == Done)
  {
  }

  /**
    A proposal is entered exactly when it has no proof or a good one, and is then open, unvoted and found by its id.
   */
  lemma ProposalEntersIff(c: Config, s: State, roundId: RoundId, model: Model, proof: Option<Proof>)
    ensures var t := Step(c, s, Propose(roundId, model, proof));
      |t.proposals| == |s.proposals| + 1 <==>
        match proof
        case None => true
        case Some(p) => p.registered && p.timely && p.signatureOk && p.seenId !in s.seen
    ensures var t := Step(c, s, Propose(roundId, model, proof));
      |t.proposals| == |s.proposals| + 1 ==>
        && t.proposals[..|s.proposals|] == s.proposals && t.proposals[|s.proposals|] == Proposal(model, map[], Open)
        && roundId in t.rounds && t.rounds[roundId] == |s.proposals|
    ensures var t := Step(c, s, Propose(roundId, model, proof)); |t.proposals| != |s.proposals| + 1 ==> t == s
  {
  }

  /**
    A tally ends the wait of its request whatever it finds; a successful finish puts the proposal back under its id.
   */
  lemma TallyAndFinishEndTheirWaits(c: Config, s: State, b: nat)
    requires Referenced(s, b)
    ensures s.ballots[b].Persisting? ==>
      !Step(c, s, Tally(b)).ballots[b].Persisting?
    ensures s.ballots[b].Committing? ==>
      var t := Step(c, s, Finish(b, true));
      && t.ballots[b] == Done && s.ballots[b].roundId in t.rounds && t.rounds[s.ballots[b].roundId] == s.ballots[b].pid
      && t.proposals[s.ballots[b].pid].status == Finalized
    ensures s.ballots[b].Committing? ==> Step(c, s, Finish(b, false)) == s.(ballots := s.ballots[b := Done])
  {
  }

  /** The keys of the register events. */
  function RegisterEvents(es: seq<Event>): set<Key> {
    if es == [] then {}
    else
      var e := es[|es| - 1];
      RegisterEvents(es[..|es| - 1]) + if e.Register? then {e.key} else {}
  }

  /** On every run the local registry is what was loaded and registered; with an on-chain one it never changes. */
  lemma {:induction false} RegistryIsRegistered(c: Config, s0: State, es: seq<Event>)
    ensures Run(c, s0, es).registry == if c.onchain then s0.registry else s0.registry + RegisterEvents(es)
  {
    if es != [] {
      RegistryIsRegistered(c, s0, es[..|es| - 1]);
    }
  }

  /** The message, if any, that is accepted and marked at this event. */
  function Accepts(s: State, e: Event): seq<ReplayCache.Message> {
    match e
    case OtherMessage(id) => if id in s.seen then [] else [ReplayCache.Message(id, true)]
    case Propose(_, _, proof) =>
      if proof.Some? && proof.value.registered && proof.value.timely && proof.value.signatureOk
         && proof.value.seenId !in s.seen
      then [ReplayCache.Message(proof.value.seenId, true)] else []
    case Cast(b, timely) =>
      if b < |s.ballots| && s.ballots[b].Vetted? && timely && s.ballots[b].req.signatureOk
         && s.ballots[b].req.seenId !in s.seen
      then [ReplayCache.Message(s.ballots[b].req.seenId, true)] else []
    case _ => []
  }

  /** All messages accepted on a run, in order. */
  function Messages(c: Config, s0: State, es: seq<Event>): seq<ReplayCache.Message> {
    if es == [] then []
    else Messages(c, s0, es[..|es| - 1]) + Accepts(Run(c, s0, es[..|es| - 1]), es[|es| - 1])
  }

  lemma StepMarksAccepted(c: Config, s: State, e: Event)
    ensures var m := Accepts(s, e);
      Step(c, s, e).seen == if m == [] then s.seen else ReplayCache.Mark(c.seenLimit, s.seen, m[0].id)
    ensures var m := Accepts(s, e); m == [] || (|m| == 1 && m[0].signatureOk && m[0].id !in s.seen)
  {
  }

  lemma ReplayRunSnoc(limit: nat, loaded: seq<ReplayCache.Id>, ms: seq<ReplayCache.Message>, m: ReplayCache.Message)
    requires m.signatureOk && m.id !in ReplayCache.Run(limit, loaded, ms).seen
    ensures ReplayCache.Run(limit, loaded, ms + [m]).seen
         == ReplayCache.Mark(limit, ReplayCache.Run(limit, loaded, ms).seen, m.id)
  {
    assert (ms + [m])[..|ms|] == ms;
  }

  /** On every interleaving, the seen ids are those of a replay cache that got the accepted messages one by one. */
  lemma {:induction false} SeenIsReplayCache(c: Config, s0: State, es: seq<Event>)
    ensures Run(c, s0, es).seen == ReplayCache.Run(c.seenLimit, s0.seen, Messages(c, s0, es)).seen
  {
    if es != [] {
      var init, e := es[..|es| - 1], es[|es| - 1];
      SeenIsReplayCache(c, s0, init);
      StepMarksAccepted(c, Run(c, s0, init), e);
      var m := Accepts(Run(c, s0, init), e);
      if m != [] {
        ReplayRunSnoc(c.seenLimit, s0.seen, Messages(c, s0, init), m[0]);
        assert m == [m[0]];
      } else {
        assert Messages(c, s0, init) + m == Messages(c, s0, init);
      }
    }
  }

  /** So a vote whose message is among the last floor(limit/2) accepted ones is not recorded again. */
  lemma RecentVoteIsNotRecorded(c: Config, s0: State, es: seq<Event>, b: nat, timely: bool, k: nat)
    requires ReplayCache.Distinct(s0.seen) && ReferencesValid(s0)
    requires var s := Run(c, s0, es); b < |s.ballots| && s.ballots[b].Vetted?
    requires var h := ReplayCache.Run(c.seenLimit, s0.seen, Messages(c, s0, es)).history;
      && 0 < k <= ReplayCache.Memory(c.seenLimit, |h|)
      && h[|h| - k] == Run(c, s0, es).ballots[b].req.seenId
    ensures Step(c, Run(c, s0, es), Cast(b, timely)).ballots[b] == Done
    ensures Step(c, Run(c, s0, es), Cast(b, timely)).proposals == Run(c, s0, es).proposals
  {
    var req := Run(c, s0, es).ballots[b].req;
    SeenIsReplayCache(c, s0, es);
    RunKeepsReferences(c, s0, es);
    ReplayCache.RecentReplayIsRefused(
      c.seenLimit, s0.seen, Messages(c, s0, es), ReplayCache.Message(req.seenId, true), k);
    CastRecordsIff(c, Run(c, s0, es), b, timely);
  }

  // ---------- How strong the quorum is ----------

  lemma ShareFloor(n: nat)
    ensures (n as real * 0.66).Floor == n * 66 / 100
  {
    var q, r := n * 66 / 100, n * 66 % 100;
    assert n * 66 == 100 * q + r;
    assert n as real * 0.66 == q as real + r as real / 100.0;
  }

  /** The default quorum is a strict majority of the registry exactly for 1, 5 and from 7 keys on. */
  lemma DefaultQuorumIsMajorityIff(c: Config, registry: set<Key>)
    requires c.voteQuorum.None? && registry != {}
    ensures 2 * Quorum(c, registry) > |registry| <==> |registry| == 1 || |registry| == 5 || |registry| >= 7
  {
    ShareFloor(|registry|);
  }

  /** Enough registered keys to apply a proposal under the default quorum. */
  ghost predicate IsQuorum(c: Config, registry: set<Key>, keys: set<Key>) {
    keys <= registry && |keys| >= Quorum(c, registry)
  }

  lemma MajoritiesMeet(registry: set<Key>, a: set<Key>, b: set<Key>)
    requires a <= registry && b <= registry && |a| + |b| > |registry|
    ensures a * b != {}
  {
    assert registry == (a + b) + (registry - (a + b));
    assert |a + b| + |a * b| == |a| + |b|;
  }

  lemma {:induction false} SubsetOfSize(s: set<Key>, k: nat) returns (t: set<Key>)
    requires k <= |s|
    ensures t <= s && |t| == k
  {
    t := {};
    if k > 0 {
      t := SubsetOfSize(s, k - 1);
      assert s == t + (s - t);
      var key :| key in s - t;
      t := t + {key};
    }
  }

  /** Two halves of the registry that share no key. */
  lemma DisjointHalves(registry: set<Key>, k: nat) returns (a: set<Key>, b: set<Key>)
    requires 2 * k <= |registry|
    ensures a <= registry && b <= registry && |a| >= k && |b| >= k && a * b == {}
  {
    a := SubsetOfSize(registry, k);
    b := registry - a;
    assert registry == a + b;
  }

  /** Any two quorums of registered keys share a key exactly when the default quorum is a majority. */
  lemma QuorumsShareAKeyIff(c: Config, registry: set<Key>)
    requires c.voteQuorum.None? && registry != {}
    ensures (forall a, b :: IsQuorum(c, registry, a) && IsQuorum(c, registry, b) ==> a * b != {})
       <==> |registry| == 1 || |registry| == 5 || |registry| >= 7
  {
    DefaultQuorumIsMajorityIff(c, registry);
    if 2 * Quorum(c, registry) > |registry| {
      forall a, b | IsQuorum(c, registry, a) && IsQuorum(c, registry, b) ensures a * b != {} {
        MajoritiesMeet(registry, a, b);
      }
    } else {
      var a, b := DisjointHalves(registry, Quorum(c, registry));
      assert IsQuorum(c, registry, a) && IsQuorum(c, registry, b);
    }
  }

  // ---------- Choices do not matter ----------

  function NeutralRequest(r: Request): Request {
    r.(choice := "")
  }

  function NeutralEvent(e: Event): Event {
    match e
    case Arrive(req, answer) => Arrive(NeutralRequest(req), answer)
    case _ => e
  }

  function NeutralProposal(p: Proposal): Proposal {
    p.(votes := map key | key in p.votes :: "")
  }

  function NeutralBallot(b: Ballot): Ballot {
    if b.Vetted? then Vetted(NeutralRequest(b.req)) else b
  }

  function Neutral(s: State): State {
    s.(proposals := seq(|s.proposals|, i requires 0 <= i < |s.proposals| => NeutralProposal(s.proposals[i])),
       ballots := seq(|s.ballots|, i requires 0 <= i < |s.ballots| => NeutralBallot(s.ballots[i])))
  }

  lemma NeutralKeepsGuards(s: State, req: Request, timely: bool)
    ensures Admissible(Neutral(s), NeutralRequest(req), timely) <==> Admissible(s, req, timely)
    ensures OpenRound(Neutral(s), req.roundId) <==> OpenRound(s, req.roundId)
  {
  }

  lemma NeutralSetProposal(s: State, pid: nat, p: Proposal)
    requires pid < |s.proposals|
    ensures Neutral(s.(proposals := s.proposals[pid := p])).proposals == Neutral(s).proposals[pid := NeutralProposal(p)]
  {
  }

  lemma NeutralSetBallot(s: State, b: nat, w: Ballot)
    requires b < |s.ballots|
    ensures Neutral(s.(ballots := s.ballots[b := w])).ballots == Neutral(s).ballots[b := NeutralBallot(w)]
  {
  }

  lemma NeutralVote(p: Proposal, key: Key, choice: string)
    ensures NeutralProposal(p.(votes := p.votes[key := choice])).votes == NeutralProposal(p).votes[key := ""]
    ensures NeutralProposal(p).votes.Keys == p.votes.Keys
  {
  }

  lemma NeutralCast(c: Config, s: State, b: nat, timely: bool)
    requires b < |s.ballots| && s.ballots[b].Vetted?
    ensures Neutral(CastStep(c, s, b, timely)) == CastStep(c, Neutral(s), b, timely)
  {
    var req := s.ballots[b].req;
    NeutralKeepsGuards(s, req, timely);
    NeutralSetBallot(s, b, Done);
    if OpenRound(s, req.roundId) {
      var pid := s.rounds[req.roundId];
      var p := s.proposals[pid];
      NeutralVote(p, req.key, req.choice);
      NeutralSetProposal(s, pid, p.(votes := p.votes[req.key := req.choice]));
      NeutralSetBallot(s, b, Persisting(req.roundId, pid, Quorum(c, s.registry)));
    }
  }

  lemma NeutralTally(c: Config, s: State, b: nat)
    ensures Neutral(Step(c, s, Tally(b))) == Step(c, Neutral(s), Tally(b))
  {
    if Referenced(s, b) && s.ballots[b].Persisting? {
      var w := s.ballots[b];
      NeutralVote(s.proposals[w.pid], "", "");
      NeutralSetBallot(s, b, Committing(w.roundId, w.pid));
      NeutralSetBallot(s, b, Done);
    }
  }

  lemma NeutralFinish(c: Config, s: State, b: nat, committed: bool)
    ensures Neutral(Step(c, s, Finish(b, committed))) == Step(c, Neutral(s), Finish(b, committed))
  {
    if Referenced(s, b) && s.ballots[b].Committing? {
      var w := s.ballots[b];
      NeutralSetProposal(s, w.pid, s.proposals[w.pid].(status := Finalized));
      NeutralSetBallot(s, b, Done);
    }
  }

  lemma NeutralStep(c: Config, s: State, e: Event)
    ensures Neutral(Step(c, s, e)) == Step(c, Neutral(s), NeutralEvent(e))
  {
    match e
    case Propose(roundId, model, _) =>
      assert NeutralProposal(Proposal(model, map[], Open)) == Proposal(model, map[], Open);
    case Cast(b, timely) =>
      if b < |s.ballots| && s.ballots[b].Vetted? {
        NeutralCast(c, s, b, timely);
      }
    case Tally(b) => NeutralTally(c, s, b);
    case Finish(b, committed) => NeutralFinish(c, s, b, committed);
    case _ =>
  }

  /**
    What a vote says is never looked at: replacing every choice by the empty one changes nothing but the recorded
    choices.  In particular a quorum of rejections applies the model.
   */
  lemma {:induction false} ChoicesDoNotMatter(c: Config, s0: State, es: seq<Event>, es': seq<Event>)
    requires |es'| == |es| && forall i :: 0 <= i < |es| ==> es'[i] == NeutralEvent(es[i])
    ensures Run(c, Neutral(s0), es') == Neutral(Run(c, s0, es))
    ensures Run(c, Neutral(s0), es').model == Run(c, s0, es).model
  {
    if es != [] {
      ChoicesDoNotMatter(c, s0, es[..|es| - 1], es'[..|es| - 1]);
      NeutralStep(c, Run(c, s0, es[..|es| - 1]), es[|es| - 1]);
    }
  }

  // ---------- Finalization is not single ----------

  lemma RunSnoc(c: Config, s0: State, es: seq<Event>, e: Event)
    ensures Run(c, s0, es + [e]) == Step(c, Run(c, s0, es), e)
  {
    assert (es + [e])[..|es|] == es;
  }

  lemma Extend(c: Config, s0: State, es: seq<Event>, s: State, e: Event, t: State)
    requires Run(c, s0, es) == s && Step(c, s, e) == t
    ensures Run(c, s0, es + [e]) == t
  {
    RunSnoc(c, s0, es, e);
  }

  const TWO_VOTES := [Request("r", "a", "accept", "1", true), Request("r", "b", "accept", "2", true)]
  const LENIENT := Config(false, None, 3, 10000)

  function TwoWaiting(
    m: Model, votes: map<Key, string>, seen: seq<string>, status: Status, ballots: seq<Ballot>): State
  {
    State({}, seen, [Proposal(m, votes, status)], map["r" := 0], ballots, m)
  }

  lemma QuorumOfThreeIsOne()
    ensures Quorum(LENIENT, {}) == 1
  {
    assert (3 as real * 0.66).Floor == 1;
  }

  lemma TwoVotesRecorded(m: Model) returns (es: seq<Event>, votes: map<Key, string>)
    ensures votes.Keys == {"a", "b"}
    ensures Run(LENIENT, Started({}, [], [], map[], m), es)
         == TwoWaiting(m, votes, ["1", "2"], Open, [Persisting("r", 0, 1), Persisting("r", 0, 1)])
  {
    var s0, a, b := Started({}, [], [], map[], m), TWO_VOTES[0], TWO_VOTES[1];
    var none: map<Key, string> := map[];
    var one := none["a" := "accept"];
    votes := one["b" := "accept"];
    QuorumOfThreeIsOne();
    es := [Propose("r", m, None)];
    assert es[..0] == [];
    assert Run(LENIENT, s0, es) == TwoWaiting(m, none, [], Open, []);
    Extend(LENIENT, s0, es, TwoWaiting(m, none, [], Open, []), Arrive(a, false),
           TwoWaiting(m, none, [], Open, [Vetted(a)]));
    es := es + [Arrive(a, false)];
    Extend(LENIENT, s0, es, TwoWaiting(m, none, [], Open, [Vetted(a)]), Arrive(b, false),
           TwoWaiting(m, none, [], Open, [Vetted(a), Vetted(b)]));
    es := es + [Arrive(b, false)];
    Extend(LENIENT, s0, es, TwoWaiting(m, none, [], Open, [Vetted(a), Vetted(b)]), Cast(0, true),
           TwoWaiting(m, one, ["1"], Open, [Persisting("r", 0, 1), Vetted(b)]));
    es := es + [Cast(0, true)];
    Extend(LENIENT, s0, es, TwoWaiting(m, one, ["1"], Open, [Persisting("r", 0, 1), Vetted(b)]), Cast(1, true),
           TwoWaiting(m, votes, ["1", "2"], Open, [Persisting("r", 0, 1), Persisting("r", 0, 1)]));
    es := es + [Cast(1, true)];
  }

  /** A request that waits to tally a vote on `pid`. */
  ghost predicate Waits(s: State, b: nat, pid: nat) {
    b < |s.ballots| && s.ballots[b].Persisting? && s.ballots[b].pid == pid
  }

  ghost predicate FinalizedAs(s: State, pid: nat, votes: map<Key, string>) {
    pid < |s.proposals| && s.proposals[pid].status.Finalized? && s.proposals[pid].votes == votes
  }

  /** A finalized proposal takes no more votes, and no request comes to wait for it that does not yet. */
  lemma StepKeepsFinalized(c: Config, s: State, e: Event, pid: nat, votes: map<Key, string>)
    requires FinalizedAs(s, pid, votes)
    ensures FinalizedAs(Step(c, s, e), pid, votes)
    ensures forall b: nat :: Waits(Step(c, s, e), b, pid) ==>
      Waits(s, b, pid) && s.ballots[b] == Step(c, s, e).ballots[b]
  {
    forall b: nat | Waits(Step(c, s, e), b, pid) ensures Waits(s, b, pid) && s.ballots[b] == Step(c, s, e).ballots[b] {
      PersistingOrigin(c, s, e, b);
    }
  }

  lemma {:induction false} RunKeepsFinalized(c: Config, s: State, es: seq<Event>, pid: nat, votes: map<Key, string>)
    requires FinalizedAs(s, pid, votes)
    ensures FinalizedAs(Run(c, s, es), pid, votes)
    ensures forall b: nat :: Waits(Run(c, s, es), b, pid) ==>
      Waits(s, b, pid) && s.ballots[b] == Run(c, s, es).ballots[b]
  {
    if es != [] {
      RunKeepsFinalized(c, s, es[..|es| - 1], pid, votes);
      StepKeepsFinalized(c, Run(c, s, es[..|es| - 1]), es[|es| - 1], pid, votes);
    }
  }

  /**
    Finalization is not single, and this is when: a finalized proposal can be applied again exactly as long as some
    request waits to tally a vote on it whose quorum the recorded votes reach.
   */
  lemma FinalizedIsAppliedAgainIff(c: Config, s: State, pid: nat)
    requires pid < |s.proposals| && s.proposals[pid].status.Finalized?
    ensures (exists es: seq<Event>, t: nat, q: int :: AppliedAt(c, s, es, t, pid, q))
       <==> exists b: nat :: Waits(s, b, pid) && |s.proposals[pid].votes.Keys| >= s.ballots[b].quorum
  {
    var votes := s.proposals[pid].votes;
    if es: seq<Event>, t: nat, q: int :| AppliedAt(c, s, es, t, pid, q) {
      RunKeepsFinalized(c, s, es[..t], pid, votes);
      assert Waits(Run(c, s, es[..t]), es[t].b, pid);
    }
    if b: nat :| Waits(s, b, pid) && |votes.Keys| >= s.ballots[b].quorum {
      assert [Tally(b)][..0] == [];
      assert AppliedAt(c, s, [Tally(b)], 0, pid, s.ballots[b].quorum);
    }
  }

  /**
    It does happen: two votes pass the open check before either finalizes, and the second one applies the round
    again although it is already finalized.
   */
  lemma FinalizedRoundCanBeAppliedAgain(m: Model) returns (es: seq<Event>)
    ensures es != [] && AppliedAt(LENIENT, Started({}, [], [], map[], m), es, |es| - 1, 0, 1)
    ensures Run(LENIENT, Started({}, [], [], map[], m), es[..|es| - 1]).proposals[0].status.Finalized?
  {
    var s0 := Started({}, [], [], map[], m);
    var votes: map<Key, string>;
    es, votes := TwoVotesRecorded(m);
    var w := Persisting("r", 0, 1);
    Extend(LENIENT, s0, es, TwoWaiting(m, votes, ["1", "2"], Open, [w, w]), Tally(0),
           TwoWaiting(m, votes, ["1", "2"], Open, [Committing("r", 0), w]));
    es := es + [Tally(0)];
    Extend(LENIENT, s0, es, TwoWaiting(m, votes, ["1", "2"], Open, [Committing("r", 0), w]), Finish(0, true),
           TwoWaiting(m, votes, ["1", "2"], Finalized, [Done, w]));
    es := es + [Finish(0, true)];
    var before := es;
    es := es + [Tally(1)];
    assert es[..|es| - 1] == before;
  }
}
