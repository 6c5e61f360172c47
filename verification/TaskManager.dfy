/**
  The task manager of agents/orchestrator/tasks/task-manager.js: assignment, its per-agent index, and the scheduler.
 */
module TaskManager {
  import opened Options

  datatype Status = Pending | Assigned | Completed | Failed
  datatype Task = Task(kind: string, status: Status, assignedAgent: Option<string>, attemptCount: nat)
  datatype Error = TypeRequired | InvalidType | TaskNotFound | AgentNotAvailable | AgentAtCapacity | AlreadyCompleted
  datatype Result<T> = Ok(value: T) | Err(error: Error)

  const VALID_TYPES := {"prediction", "analysis", "aggregate", "commit", "generic", "forecast"}

  /** `capacityOrder` and `performanceOrder` are the insertion orders of the two maps that agents become known by. */
  datatype State = State(
    tasks: map<string, Task>, agentStatuses: map<string, string>,
    agentCapacities: map<string, int>, capacityOrder: seq<string>,
    agentPerformance: map<string, Option<real>>, performanceOrder: seq<string>,
    agentAssignments: map<string, set<string>>)

  const EMPTY := State(map[], map[], map[], [], map[], [], map[])

  function AssignedTo(s: State, agent: string): set<string> {
    if agent in s.agentAssignments then s.agentAssignments[agent] else {}
  }

  function TaskCount(s: State, agent: string): nat {
    |AssignedTo(s, agent)|
  }

  /** An unset or empty status counts as available. */
  predicate Available(s: State, agent: string) {
    agent in s.agentStatuses ==> s.agentStatuses[agent] in {"", "ONLINE"}
  }

  predicate HasRoom(s: State, agent: string) {
    agent in s.agentCapacities ==> TaskCount(s, agent) < s.agentCapacities[agent]
  }

  function AssignError(s: State, taskId: string, agent: string): Option<Error> {
    if taskId !in s.tasks then Some(TaskNotFound)
    else if !Available(s, agent) then Some(AgentNotAvailable)
    else if !HasRoom(s, agent) then Some(AgentAtCapacity)
    else None
  }

  function Assign(s: State, taskId: string, agent: string): State
    requires taskId in s.tasks
  {
    var t := s.tasks[taskId];
    s.(tasks := s.tasks[taskId :=
         t.(status := Assigned, assignedAgent := Some(agent), attemptCount := t.attemptCount + 1)],
       agentAssignments := s.agentAssignments[agent := AssignedTo(s, agent) + {taskId}])
  }

  /** Removal from the index of the agent the task points to; an empty agent id is falsy and removes nothing. */
  function Unassigned(s: State, taskId: string): map<string, set<string>>
    requires taskId in s.tasks
  {
    match s.tasks[taskId].assignedAgent
    case Some(agent) =>
      if agent != "" && agent in s.agentAssignments
      then s.agentAssignments[agent := s.agentAssignments[agent] - {taskId}]
      else s.agentAssignments
    case None => s.agentAssignments
  }

  function Close(s: State, taskId: string, status: Status): State
    requires taskId in s.tasks
  {
    s.(tasks := s.tasks[taskId := s.tasks[taskId].(status := status)], agentAssignments := Unassigned(s, taskId))
  }

  function Create(s: State, id: string, kind: string): State {
    s.(tasks := s.tasks[id := Task(kind, Pending, None, 0)])
  }

  function WithIndex(s: State, agent: string): map<string, set<string>> {
    if agent in s.agentAssignments then s.agentAssignments else s.agentAssignments[agent := {}]
  }

  function SetCapacity(s: State, agent: string, capacity: int): State {
    s.(agentCapacities := s.agentCapacities[agent := capacity],
       capacityOrder := if agent in s.agentCapacities then s.capacityOrder else s.capacityOrder + [agent],
       agentAssignments := WithIndex(s, agent))
  }

  function SetPerformance(s: State, agent: string, avgExecutionTime: Option<real>): State {
    s.(agentPerformance := s.agentPerformance[agent := avgExecutionTime],
       performanceOrder := if agent in s.agentPerformance then s.performanceOrder else s.performanceOrder + [agent],
       agentAssignments := WithIndex(s, agent))
  }

  // ---------- The scheduler ----------

  function Without(agents: seq<string>, known: set<string>): (r: seq<string>)
    ensures forall a :: a in r <==> a in agents && a !in known
  {
    if agents == [] then []
    else
      var init, last := agents[..|agents| - 1], agents[|agents| - 1];
      assert agents == init + [last];
      if last in known then Without(init, known) else Without(init, known) + [last]
  }

  /** All known agents: those with a capacity first, then those with only a performance record. */
  function AgentIds(s: State): seq<string> {
    s.capacityOrder + Without(s.performanceOrder, s.agentCapacities.Keys)
  }

  predicate Eligible(s: State, agent: string) {
    Available(s, agent) && HasRoom(s, agent)
  }

  function Candidates(s: State, agents: seq<string>): (r: seq<string>)
    ensures forall a :: a in r <==> a in agents && Eligible(s, a)
  {
    if agents == [] then []
    else
      var init, last := agents[..|agents| - 1], agents[|agents| - 1];
      assert agents == init + [last];
      if Eligible(s, last) then Candidates(s, init) + [last] else Candidates(s, init)
  }

  /** A missing time is infinite. */
  function ExecutionTime(s: State, agent: string): Option<real> {
    if agent in s.agentPerformance then s.agentPerformance[agent] else None
  }

  predicate Sooner(a: Option<real>, b: Option<real>) {
    a.Some? && (b.None? || a.value < b.value)
  }

  /** Order of the comparator: by average execution time, then by load. */
  predicate Preferred(s: State, a: string, b: string) {
    var ta, tb := ExecutionTime(s, a), ExecutionTime(s, b);
    Sooner(ta, tb) || (ta == tb && TaskCount(s, a) < TaskCount(s, b))
  }

  /** The head of the stably sorted candidate list: the first one that no other is preferred to. */
  function Best(s: State, candidates: seq<string>): (best: string)
    requires candidates != []
    ensures best in candidates
    ensures forall a :: a in candidates ==> !Preferred(s, a, best)
  {
    var init, last := candidates[..|candidates| - 1], candidates[|candidates| - 1];
    assert candidates == init + [last];
    if init == [] then last
    else
      var best := Best(s, init);
      if Preferred(s, last, best) then last else best
  }

  function Scheduled(s: State): Option<string> {
    var candidates := Candidates(s, AgentIds(s));
    if candidates == [] then None else Some(Best(s, candidates))
  }

  /** Agents become known by a capacity or by a performance record. */
  ghost predicate OrdersMatch(s: State) {
    && (forall a :: a in s.capacityOrder <==> a in s.agentCapacities)
    && (forall a :: a in s.performanceOrder <==> a in s.agentPerformance)
  }

  ghost predicate Known(s: State, agent: string) {
    agent in s.agentCapacities || agent in s.agentPerformance
  }

  /**
    The scheduler returns null exactly when no known agent is eligible; otherwise an eligible known agent with the
    lexicographically smallest (time, load), to which the assignment of an existing task cannot fail.
   */
  lemma ScheduledIsLexicographicMinimum(s: State, taskId: string)
    requires OrdersMatch(s) && taskId in s.tasks
    ensures Scheduled(s).None? <==> forall a :: Known(s, a) ==> !Eligible(s, a)
    ensures Scheduled(s).Some? ==>
      var best := Scheduled(s).value;
      && Known(s, best) && Eligible(s, best)
      && AssignError(s, taskId, best) == None
      && forall a :: Known(s, a) && Eligible(s, a) ==>
        var mine, other := ExecutionTime(s, best), ExecutionTime(s, a);
        && (other.Some? ==> mine.Some? && mine.value <= other.value)
        && (other == mine ==> TaskCount(s, best) <= TaskCount(s, a))
  {
    var agents := AgentIds(s);
    forall a ensures a in agents <==> Known(s, a) {
    }
    var candidates := Candidates(s, agents);
    if candidates != [] {
      assert candidates[0] in candidates;
    }
    forall a | Known(s, a) && Eligible(s, a) ensures a in candidates {
      assert a in agents;
    }
  }

  /**
    Which assignments fail, and how: the task must exist, the agent's status must be unset, empty or ONLINE, and if a
    capacity is set the agent's set must be below it.
   */
  lemma AssignErrorIff(s: State, taskId: string, agent: string)
    ensures var known := taskId in s.tasks;
      var online := agent !in s.agentStatuses || s.agentStatuses[agent] == "" || s.agentStatuses[agent] == "ONLINE";
      var load := if agent in s.agentAssignments then |s.agentAssignments[agent]| else 0;
      var full := agent in s.agentCapacities && load >= s.agentCapacities[agent];
      && (AssignError(s, taskId, agent) == None <==> known && online && !full)
      && (AssignError(s, taskId, agent) == Some(TaskNotFound) <==> !known)
      && (AssignError(s, taskId, agent) == Some(AgentNotAvailable) <==> known && !online)
      && (Eligible(s, agent) <==> online && !full)
  {
  }

  ghost predicate Increasing(agents: seq<string>, rank: string -> nat) {
    forall i, j :: 0 <= i < j < |agents| ==> rank(agents[i]) < rank(agents[j])
  }

  lemma {:induction false} WithoutIncreases(agents: seq<string>, known: set<string>, rank: string -> nat)
    requires Increasing(agents, rank)
    ensures Increasing(Without(agents, known), rank)
  {
    if agents != [] {
      var init, last := agents[..|agents| - 1], agents[|agents| - 1];
      WithoutIncreases(init, known, rank);
      var kept := Without(init, known);
      forall i | 0 <= i < |kept| ensures rank(kept[i]) < rank(last) {
        assert kept[i] in init;
        var j :| 0 <= j < |init| && init[j] == kept[i];
        assert agents[j] == kept[i];
      }
    }
  }

  /**
    Agents are listed by capacity first, in the order of their first capacities, and those with only a performance
    record after them, in the order of their first records.
   */
  lemma KnownAgentsInOrder(s: State, rank: string -> nat)
    requires OrdersMatch(s) && Increasing(s.performanceOrder, rank)
    ensures var ids := AgentIds(s);
      && |ids| >= |s.capacityOrder| && ids[..|s.capacityOrder|] == s.capacityOrder
      && Increasing(ids[|s.capacityOrder|..], rank)
      && forall i :: |s.capacityOrder| <= i < |ids| ==> ids[i] in s.agentPerformance && ids[i] !in s.agentCapacities
  {
    var ids := AgentIds(s);
    var rest := Without(s.performanceOrder, s.agentCapacities.Keys);
    assert ids[|s.capacityOrder|..] == rest;
    WithoutIncreases(s.performanceOrder, s.agentCapacities.Keys, rank);
    forall i | |s.capacityOrder| <= i < |ids| ensures ids[i] in s.agentPerformance && ids[i] !in s.agentCapacities {
      assert rest[i - |s.capacityOrder|] in rest;
    }
  }

  /** Neither the time nor the load tells the two apart. */
  ghost predicate Tied(s: State, a: string, b: string) {
    ExecutionTime(s, a) == ExecutionTime(s, b) && TaskCount(s, a) == TaskCount(s, b)
  }

  /** Ties go to the candidate listed first, as a stable sort leaves them. */
  lemma {:induction false} BestIsFirstOfTies(s: State, candidates: seq<string>) returns (k: nat)
    requires candidates != []
    ensures k < |candidates| && candidates[k] == Best(s, candidates)
    ensures forall i :: 0 <= i < k ==> !Tied(s, candidates[i], candidates[k])
  {
    var init, last := candidates[..|candidates| - 1], candidates[|candidates| - 1];
    if init == [] {
      return 0;
    }
    k := BestIsFirstOfTies(s, init);
    if Preferred(s, last, Best(s, init)) {
      forall i | 0 <= i < |init| ensures !Tied(s, candidates[i], last) {
        assert init[i] in init;
      }
      k := |init|;
    }
  }

  ghost predicate UntiedBefore(s: State, agents: seq<string>, p: nat)
    requires p < |agents|
  {
    forall q :: 0 <= q < p && Eligible(s, agents[q]) ==> !Tied(s, agents[q], agents[p])
  }

  lemma CandidatesSnoc(s: State, agents: seq<string>, last: string)
    ensures Candidates(s, agents + [last])
         == if Eligible(s, last) then Candidates(s, agents) + [last] else Candidates(s, agents)
  {
    assert (agents + [last])[..|agents|] == agents;
  }

  lemma TieStep(s: State, init: seq<string>, last: string, p: nat) returns (p': nat)
    requires Candidates(s, init) != [] && p < |init|
    requires init[p] == Best(s, Candidates(s, init)) && UntiedBefore(s, init, p)
    ensures var agents := init + [last];
      && p' < |agents| && Candidates(s, agents) != []
      && agents[p'] == Best(s, Candidates(s, agents)) && UntiedBefore(s, agents, p')
  {
    p' := p;
    CandidatesSnoc(s, init, last);
    if Eligible(s, last) {
      BestSnoc(s, Candidates(s, init), last);
      if Preferred(s, last, Best(s, Candidates(s, init))) {
        p' := |init|;
        forall q | 0 <= q < |init| && Eligible(s, init[q]) ensures !Tied(s, init[q], last) {
          assert init[q] in init;
          PreferredIsUntied(s, Candidates(s, init), last, init[q]);
        }
      }
    }
  }

  lemma FirstCandidate(s: State, init: seq<string>, last: string)
    requires Candidates(s, init) == [] && Candidates(s, init + [last]) != []
    ensures Best(s, Candidates(s, init + [last])) == last && UntiedBefore(s, init + [last], |init|)
  {
    CandidatesSnoc(s, init, last);
    assert Candidates(s, init + [last]) == [last];
    NobodyBefore(s, init);
  }

  /** So the scheduler picks, among equals, the agent that is listed first. */
  lemma {:induction false} FirstEligibleTie(s: State, agents: seq<string>) returns (p: nat)
    requires Candidates(s, agents) != []
    ensures p < |agents| && agents[p] == Best(s, Candidates(s, agents)) && UntiedBefore(s, agents, p)
  {
    var init, last := agents[..|agents| - 1], agents[|agents| - 1];
    assert agents == init + [last];
    if Candidates(s, init) == [] {
      p := |init|;
      FirstCandidate(s, init, last);
    } else {
      p := FirstEligibleTie(s, init);
      p := TieStep(s, init, last, p);
    }
  }

  lemma NobodyBefore(s: State, agents: seq<string>)
    requires Candidates(s, agents) == []
    ensures forall q :: 0 <= q < |agents| ==> !Eligible(s, agents[q])
  {
    forall q | 0 <= q < |agents| ensures !Eligible(s, agents[q]) {
      assert agents[q] in agents && agents[q] !in Candidates(s, agents);
    }
  }

  lemma PreferredIsUntied(s: State, candidates: seq<string>, last: string, agent: string)
    requires candidates != [] && agent in candidates && Preferred(s, last, Best(s, candidates))
    ensures !Tied(s, agent, last)
  {
  }

  lemma BestSnoc(s: State, candidates: seq<string>, last: string)
    requires candidates != []
    ensures Best(s, candidates + [last])
         == if Preferred(s, last, Best(s, candidates)) then last else Best(s, candidates)
  {
    assert (candidates + [last])[..|candidates|] == candidates;
  }

  class Manager {
    var tasks: map<string, Task>
    var agentStatuses: map<string, string>
    var agentCapacities: map<string, int>
    var capacityOrder: seq<string>
    var agentPerformance: map<string, Option<real>>
    var performanceOrder: seq<string>
    var agentAssignments: map<string, set<string>>

    function Abs(): State
      reads this
    {
      State(tasks, agentStatuses, agentCapacities, capacityOrder, agentPerformance, performanceOrder, agentAssignments)
    }

    constructor ()
      ensures Abs() == EMPTY
    {
      tasks, agentStatuses, agentCapacities, capacityOrder := map[], map[], map[], [];
      agentPerformance, performanceOrder, agentAssignments := map[], [], map[];
    }

    /** `id` is the random id that the source draws. */
    method CreateTask(kind: string, id: string) returns (r: Result<string>)
      modifies this
      ensures kind == "" ==> r == Err(TypeRequired)
      ensures kind != "" && kind !in VALID_TYPES ==> r == Err(InvalidType)
      ensures kind in VALID_TYPES ==> r == Ok(id)
      ensures Abs() == if r.Ok? then Create(old(Abs()), id, kind) else old(Abs())
    {
      assert "" !in VALID_TYPES;
      if kind == "" {
        return Err(TypeRequired);
      }
      if kind !in VALID_TYPES {
        return Err(InvalidType);
      }
      tasks := tasks[id := Task(kind, Pending, None, 0)];
      return Ok(id);
    }

    method SetAgentStatus(agentId: string, status: string)
      modifies this
      ensures Abs() == old(Abs()).(agentStatuses := old(agentStatuses)[agentId := status])
    {
      agentStatuses := agentStatuses[agentId := status];
    }

    method SetAgentCapacity(agentId: string, capacity: int)
      modifies this
      ensures Abs() == SetCapacity(old(Abs()), agentId, capacity)
    {
      if agentId !in agentCapacities {
        capacityOrder := capacityOrder + [agentId];
      }
      agentCapacities := agentCapacities[agentId := capacity];
      if agentId !in agentAssignments {
        agentAssignments := agentAssignments[agentId := {}];
      }
    }

    method SetAgentPerformance(agentId: string, avgExecutionTime: Option<real>)
      modifies this
      ensures Abs() == SetPerformance(old(Abs()), agentId, avgExecutionTime)
    {
      if agentId !in agentPerformance {
        performanceOrder := performanceOrder + [agentId];
      }
      agentPerformance := agentPerformance[agentId := avgExecutionTime];
      if agentId !in agentAssignments {
        agentAssignments := agentAssignments[agentId := {}];
      }
    }

    method AssignTask(taskId: string, agentId: string) returns (r: Result<Task>)
      modifies this
      ensures match AssignError(old(Abs()), taskId, agentId)
        case Some(error) => r == Err(error) && Abs() == old(Abs())
        case None => Abs() == Assign(old(Abs()), taskId, agentId) && r == Ok(tasks[taskId])
    {
      if taskId !in tasks {
        return Err(TaskNotFound);
      }
      if agentId in agentStatuses && agentStatuses[agentId] != "" && agentStatuses[agentId] != "ONLINE" {
        return Err(AgentNotAvailable);
      }
      if agentId in agentCapacities {
        var current := TaskCount(Abs(), agentId);
        if current >= agentCapacities[agentId] {
          return Err(AgentAtCapacity);
        }
      }
      var task := tasks[taskId].(status := Assigned, assignedAgent := Some(agentId),
                                 attemptCount := tasks[taskId].attemptCount + 1);
      tasks := tasks[taskId := task];
      if agentId !in agentAssignments {
        agentAssignments := agentAssignments[agentId := {}];
      }
      agentAssignments := agentAssignments[agentId := agentAssignments[agentId] + {taskId}];
      return Ok(task);
    }

    method AutoAssignTask(taskId: string) returns (r: Result<Option<string>>)
      requires OrdersMatch(Abs())
      modifies this
      ensures var chosen := Scheduled(old(Abs()));
        if chosen.None? then r == Ok(None) && Abs() == old(Abs())
        else if taskId !in old(tasks) then r == Err(TaskNotFound) && Abs() == old(Abs())
        else r == Ok(chosen) && Abs() == Assign(old(Abs()), taskId, chosen.value)
    {
      var candidates := Candidates(Abs(), AgentIds(Abs()));
      if candidates == [] {
        return Ok(None);
      }
      var best := Best(Abs(), candidates);
      if taskId in tasks {
        ScheduledIsLexicographicMinimum(Abs(), taskId);
      }
      var outcome := AssignTask(taskId, best);
      if outcome.Err? {
        return Err(outcome.error);
      }
      return Ok(Some(best));
    }

    method CompleteTask(taskId: string) returns (r: Result<Task>)
      modifies this
      ensures taskId !in old(tasks) ==> r == Err(TaskNotFound) && Abs() == old(Abs())
      ensures taskId in old(tasks) && old(tasks)[taskId].status == Completed ==>
        r == Err(AlreadyCompleted) && Abs() == old(Abs())
      ensures taskId in old(tasks) && old(tasks)[taskId].status != Completed ==>
        Abs() == Close(old(Abs()), taskId, Completed) && r == Ok(tasks[taskId])
    {
      if taskId !in tasks {
        return Err(TaskNotFound);
      }
      if tasks[taskId].status == Completed {
        return Err(AlreadyCompleted);
      }
      tasks := tasks[taskId := tasks[taskId].(status := Completed)];
      ReleaseTask(taskId);
      return Ok(tasks[taskId]);
    }

    method MarkTaskFailed(taskId: string) returns (r: Result<Task>)
      modifies this
      ensures taskId !in old(tasks) ==> r == Err(TaskNotFound) && Abs() == old(Abs())
      ensures taskId in old(tasks) ==> Abs() == Close(old(Abs()), taskId, Failed) && r == Ok(tasks[taskId])
    {
      if taskId !in tasks {
        return Err(TaskNotFound);
      }
      tasks := tasks[taskId := tasks[taskId].(status := Failed)];
      ReleaseTask(taskId);
      return Ok(tasks[taskId]);
    }

    /** The common tail of completing and failing a task. */
    method ReleaseTask(taskId: string)
      requires taskId in tasks
      modifies this`agentAssignments
      ensures agentAssignments == Unassigned(old(Abs()), taskId)
    {
      var assignedAgent := tasks[taskId].assignedAgent;
      if assignedAgent.Some? && assignedAgent.value != "" && assignedAgent.value in agentAssignments {
        agentAssignments := agentAssignments[assignedAgent.value := agentAssignments[assignedAgent.value] - {taskId}];
      }
    }
  }

  // ---------- Whole runs ----------

  datatype Event =
    | CreateTask(kind: string, id: string)
    | SetAgentStatus(agent: string, status: string)
    | SetAgentCapacity(agent: string, capacity: int)
    | SetAgentPerformance(agent: string, avgExecutionTime: Option<real>)
    | AssignTask(id: string, agent: string)
    | AutoAssignTask(id: string)
    | CompleteTask(id: string)
    | MarkTaskFailed(id: string)

  /** The agent an event assigns a task to, if it gets that far. */
  function Assignee(s: State, e: Event): Option<string> {
    match e
    case AssignTask(id, agent) => if AssignError(s, id, agent).None? then Some(agent) else None
    case AutoAssignTask(id) => if id in s.tasks then Scheduled(s) else None
    case _ => None
  }

  function Step(s: State, e: Event): State {
    match e
    case CreateTask(kind, id) => if kind in VALID_TYPES then Create(s, id, kind) else s
    case SetAgentStatus(agent, status) => s.(agentStatuses := s.agentStatuses[agent := status])
    case SetAgentCapacity(agent, capacity) => SetCapacity(s, agent, capacity)
    case SetAgentPerformance(agent, time) => SetPerformance(s, agent, time)
    case AssignTask(id, _) => if Assignee(s, e).Some? then Assign(s, id, Assignee(s, e).value) else s
    case AutoAssignTask(id) => if Assignee(s, e).Some? then Assign(s, id, Assignee(s, e).value) else s
    case CompleteTask(id) => if id in s.tasks && s.tasks[id].status != Completed then Close(s, id, Completed) else s
    case MarkTaskFailed(id) => if id in s.tasks then Close(s, id, Failed) else s
  }

  function Run(es: seq<Event>): State {
    if es == [] then EMPTY else Step(Run(es[..|es| - 1]), es[|es| - 1])
  }

  predicate IsAssigned(s: State, id: string, agent: string) {
    id in s.tasks && s.tasks[id].status == Assigned && s.tasks[id].assignedAgent == Some(agent)
  }

  /** Every assigned task points to an agent and is in that agent's set. */
  ghost predicate Indexed(s: State) {
    forall id :: id in s.tasks && s.tasks[id].status == Assigned ==>
      s.tasks[id].assignedAgent.Some? && id in AssignedTo(s, s.tasks[id].assignedAgent.value)
  }

  /** Nothing else is in the sets: the index agrees with a scan over the tasks. */
  ghost predicate Exact(s: State) {
    Indexed(s) && forall agent, id :: id in AssignedTo(s, agent) ==> IsAssigned(s, id, agent)
  }

  lemma AssignKeepsIndexed(s: State, id: string, agent: string)
    requires Indexed(s) && id in s.tasks
    ensures Indexed(Assign(s, id, agent))
  {
  }

  lemma CloseKeepsIndexed(s: State, id: string, status: Status)
    requires Indexed(s) && id in s.tasks && status != Assigned
    ensures Indexed(Close(s, id, status))
  {
  }

  lemma StepIndexed(s: State, e: Event)
    requires Indexed(s)
    ensures Indexed(Step(s, e))
  {
    match e
    case AssignTask(id, _) => if Assignee(s, e).Some? { AssignKeepsIndexed(s, id, Assignee(s, e).value); }
    case AutoAssignTask(id) => if Assignee(s, e).Some? { AssignKeepsIndexed(s, id, Assignee(s, e).value); }
    case CompleteTask(id) => if id in s.tasks { CloseKeepsIndexed(s, id, Completed); }
    case MarkTaskFailed(id) => if id in s.tasks { CloseKeepsIndexed(s, id, Failed); }
    case SetAgentCapacity(_, _) => SettingsKeepSets(s, e);
    case SetAgentPerformance(_, _) => SettingsKeepSets(s, e);
    case SetAgentStatus(_, _) =>
    case CreateTask(_, _) =>
  }

  lemma SettingsKeepSets(s: State, e: Event)
    requires e.SetAgentStatus? || e.SetAgentCapacity? || e.SetAgentPerformance?
    ensures Step(s, e).tasks == s.tasks
    ensures forall agent :: AssignedTo(Step(s, e), agent) == AssignedTo(s, agent)
  {
  }

  lemma StepOrdersMatch(s: State, e: Event)
    requires OrdersMatch(s)
    ensures OrdersMatch(Step(s, e))
  {
  }

  /** On every run every assigned task is in the set of the agent it points to. */
  lemma {:induction false} RunIndexed(es: seq<Event>)
    ensures Indexed(Run(es)) && OrdersMatch(Run(es))
  {
    if es != [] {
      RunIndexed(es[..|es| - 1]);
      StepIndexed(Run(es[..|es| - 1]), es[|es| - 1]);
      StepOrdersMatch(Run(es[..|es| - 1]), es[|es| - 1]);
    }
  }

  /**
    The events that leave a stale entry behind: moving an assigned task to another agent, closing a task assigned
    to the agent with the empty id, and creating a task under the id of an assigned one.
   */
  predicate Spoils(s: State, e: Event) {
    match e
    case CreateTask(kind, id) => kind in VALID_TYPES && id in s.tasks && s.tasks[id].status == Assigned
    case AssignTask(id, _) => MovesAssigned(s, e, id)
    case AutoAssignTask(id) => MovesAssigned(s, e, id)
    case CompleteTask(id) => IsAssigned(s, id, "")
    case MarkTaskFailed(id) => IsAssigned(s, id, "")
    case _ => false
  }

  predicate MovesAssigned(s: State, e: Event, id: string) {
    Assignee(s, e).Some? && id in s.tasks && s.tasks[id].status == Assigned && !IsAssigned(s, id, Assignee(s, e).value)
  }

  lemma AssignKeepsExactIff(s: State, id: string, agent: string)
    requires Exact(s) && id in s.tasks
    ensures Exact(Assign(s, id, agent)) <==> !(s.tasks[id].status == Assigned && !IsAssigned(s, id, agent))
  {
    var t := Assign(s, id, agent);
    assert Indexed(t);
    if s.tasks[id].status == Assigned && !IsAssigned(s, id, agent) {
      var stale := s.tasks[id].assignedAgent.value;
      assert id in AssignedTo(t, stale) && !IsAssigned(t, id, stale);
    } else {
      forall a, i | i in AssignedTo(t, a) ensures IsAssigned(t, i, a) {
        assert i in AssignedTo(s, a) || (a == agent && i == id);
      }
    }
  }

  lemma CloseKeepsExactIff(s: State, id: string, status: Status)
    requires Exact(s) && id in s.tasks && status != Assigned
    ensures Exact(Close(s, id, status)) <==> !IsAssigned(s, id, "")
  {
    var t := Close(s, id, status);
    if IsAssigned(s, id, "") {
      assert id in AssignedTo(t, "") && !IsAssigned(t, id, "");
    } else {
      forall a, i | i in AssignedTo(t, a) ensures IsAssigned(t, i, a) {
        assert i in AssignedTo(s, a);
      }
    }
  }

  lemma CreateKeepsExactIff(s: State, id: string, kind: string)
    requires Exact(s)
    ensures Exact(Create(s, id, kind)) <==> !(id in s.tasks && s.tasks[id].status == Assigned)
  {
    var t := Create(s, id, kind);
    if id in s.tasks && s.tasks[id].status == Assigned {
      var stale := s.tasks[id].assignedAgent.value;
      assert id in AssignedTo(t, stale) && !IsAssigned(t, id, stale);
    } else {
      forall a, i | i in AssignedTo(t, a) ensures IsAssigned(t, i, a) {
        assert i in AssignedTo(s, a);
      }
    }
  }

  lemma SettingsKeepExact(s: State, e: Event)
    requires Exact(s) && (e.SetAgentStatus? || e.SetAgentCapacity? || e.SetAgentPerformance?)
    ensures Exact(Step(s, e))
  {
    SettingsKeepSets(s, e);
  }

  /** From an exact index, a step keeps it exact exactly when it is not one of the spoiling events. */
  lemma StepKeepsExactIff(s: State, e: Event)
    requires Exact(s)
    ensures Exact(Step(s, e)) <==> !Spoils(s, e)
  {
    match e
    case CreateTask(kind, id) => if kind in VALID_TYPES { CreateKeepsExactIff(s, id, kind); }
    case AssignTask(id, _) => if Assignee(s, e).Some? { AssignKeepsExactIff(s, id, Assignee(s, e).value); }
    case AutoAssignTask(id) => if Assignee(s, e).Some? { AssignKeepsExactIff(s, id, Assignee(s, e).value); }
    case CompleteTask(id) =>
      if id in s.tasks && s.tasks[id].status != Completed { CloseKeepsExactIff(s, id, Completed); }
    case MarkTaskFailed(id) => if id in s.tasks { CloseKeepsExactIff(s, id, Failed); }
    case _ => SettingsKeepExact(s, e);
  }

  /** On every run free of spoiling events each agent's set is exactly the set of tasks assigned to it. */
  lemma {:induction false} CleanRunIsExact(es: seq<Event>)
    requires forall i :: 0 <= i < |es| ==> !Spoils(Run(es[..i]), es[i])
    ensures Exact(Run(es))
    ensures forall agent :: AssignedTo(Run(es), agent) == set id | id in Run(es).tasks && IsAssigned(Run(es), id, agent)
  {
    if es != [] {
      var init := es[..|es| - 1];
      forall i | 0 <= i < |init| ensures !Spoils(Run(init[..i]), init[i]) {
        assert init[..i] == es[..i];
      }
      CleanRunIsExact(init);
      assert !Spoils(Run(es[..|es| - 1]), es[|es| - 1]);
      StepKeepsExactIff(Run(init), es[|es| - 1]);
    }
  }

  /** No assignment takes an agent beyond its capacity: whatever set grows stays within it. */
  lemma GrowthRespectsCapacity(es: seq<Event>, e: Event, agent: string)
    requires var s := Run(es); agent in s.agentCapacities && TaskCount(Step(s, e), agent) > TaskCount(s, agent)
    ensures TaskCount(Step(Run(es), e), agent) <= Run(es).agentCapacities[agent]
  {
    var s := Run(es);
    RunIndexed(es);
    match e
    case AssignTask(id, _) => if Assignee(s, e).Some? { AssignGrowth(s, id, Assignee(s, e).value, agent); }
    case AutoAssignTask(id) =>
      if Assignee(s, e).Some? {
        ScheduledIsLexicographicMinimum(s, id);
        AssignGrowth(s, id, Assignee(s, e).value, agent);
      }
    case CompleteTask(id) => if id in s.tasks { CloseShrinks(s, id, Completed, agent); }
    case MarkTaskFailed(id) => if id in s.tasks { CloseShrinks(s, id, Failed, agent); }
    case CreateTask(_, _) =>
    case _ => SettingsKeepSets(s, e);
  }

  lemma AssignGrowth(s: State, id: string, assignee: string, agent: string)
    requires id in s.tasks && AssignError(s, id, assignee) == None && agent in s.agentCapacities
    ensures var t := Assign(s, id, assignee);
      TaskCount(t, agent) > TaskCount(s, agent) ==> TaskCount(t, agent) <= s.agentCapacities[agent]
  {
    assert AssignedTo(Assign(s, id, assignee), agent)
        == if agent == assignee then AssignedTo(s, agent) + {id} else AssignedTo(s, agent);
  }

  lemma CloseShrinks(s: State, id: string, status: Status, agent: string)
    requires id in s.tasks
    ensures TaskCount(Close(s, id, status), agent) <= TaskCount(s, agent)
  {
    var before, after := AssignedTo(s, agent), AssignedTo(Close(s, id, status), agent);
    assert before == after + (before - after);
  }

  /** How often the task was assigned since it was created. */
  function Assignments(es: seq<Event>, id: string): nat {
    if es == [] then 0
    else AssignmentsAfter(Run(es[..|es| - 1]), es[|es| - 1], id, Assignments(es[..|es| - 1], id))
  }

  function AssignmentsAfter(s: State, e: Event, id: string, before: nat): nat {
    if e.CreateTask? && e.id == id && e.kind in VALID_TYPES then 0
    else if Assignee(s, e).Some? && e.id == id then before + 1
    else before
  }

  lemma StepCountsAttempts(s: State, e: Event, id: string, before: nat)
    requires id in Step(s, e).tasks
    requires id in s.tasks ==> s.tasks[id].attemptCount == before && (s.tasks[id].status == Assigned ==> before > 0)
    ensures Step(s, e).tasks[id].attemptCount == AssignmentsAfter(s, e, id, before)
    ensures Step(s, e).tasks[id].status == Assigned ==> AssignmentsAfter(s, e, id, before) > 0
  {
  }

  /** On every run, the attempt count of a task is the number of its assignments since it was created. */
  lemma {:induction false} AttemptsCountAssignments(es: seq<Event>, id: string)
    requires id in Run(es).tasks
    ensures Run(es).tasks[id].attemptCount == Assignments(es, id)
    ensures Run(es).tasks[id].status == Assigned ==> Assignments(es, id) > 0
  {
    if es != [] {
      var init := es[..|es| - 1];
      if id in Run(init).tasks {
        AttemptsCountAssignments(init, id);
      }
      StepCountsAttempts(Run(init), es[|es| - 1], id, Assignments(init, id));
    }
  }

  // ---------- The records, from the trace ----------

  /** This event assigns the task `id`, to an agent that was free to take it. */
  predicate Assigns(es: seq<Event>, id: string)
    requires es != []
  {
    var s, e := Run(es[..|es| - 1]), es[|es| - 1];
    match e
    case AssignTask(i, agent) => i == id && AssignError(s, id, agent) == None
    case AutoAssignTask(i) => i == id && id in s.tasks && exists agent :: agent in AgentIds(s) && Eligible(s, agent)
    case _ => false
  }

  predicate Creates(e: Event, id: string) {
    e.CreateTask? && e.id == id && e.kind in VALID_TYPES
  }

  /** The status the latest event on the task calls for. */
  function LatestStatus(es: seq<Event>, id: string): Status {
    if es == [] then Pending
    else
      var e := es[|es| - 1];
      if Creates(e, id) then Pending
      else if Assigns(es, id) then Assigned
      else if e == CompleteTask(id) then Completed
      else if e == MarkTaskFailed(id) then Status.Failed
      else LatestStatus(es[..|es| - 1], id)
  }

  /** The type given at the latest creation. */
  function LatestKind(es: seq<Event>, id: string): string {
    if es == [] then ""
    else if Creates(es[|es| - 1], id) then es[|es| - 1].kind
    else LatestKind(es[..|es| - 1], id)
  }

  /** The agent of the latest assignment since the creation; closing a task does not forget it. */
  function LatestAgent(es: seq<Event>, id: string): Option<string> {
    if es == [] || Creates(es[|es| - 1], id) then None
    else if Assigns(es, id) then Assignee(Run(es[..|es| - 1]), es[|es| - 1])
    else LatestAgent(es[..|es| - 1], id)
  }

  lemma AssignsIff(es: seq<Event>, id: string)
    requires es != []
    ensures var e := es[|es| - 1];
      Assigns(es, id) <==> Assignee(Run(es[..|es| - 1]), e).Some? && e.id == id
  {
    var s, e := Run(es[..|es| - 1]), es[|es| - 1];
    if e.AutoAssignTask? {
      var candidates := Candidates(s, AgentIds(s));
      if candidates != [] {
        assert candidates[0] in candidates;
      }
    }
  }

  /** On every run the record of a task is what the latest events on it call for. */
  lemma {:induction false} RecordFollowsEvents(es: seq<Event>, id: string)
    requires id in Run(es).tasks
    ensures var t := Run(es).tasks[id];
      t.status == LatestStatus(es, id) && t.kind == LatestKind(es, id) && t.assignedAgent == LatestAgent(es, id)
  {
    var init, e := es[..|es| - 1], es[|es| - 1];
    AssignsIff(es, id);
    if id in Run(init).tasks {
      RecordFollowsEvents(init, id);
    }
    StepOnRecord(Run(init), e, id);
  }

  /** What one event does to the record of a task. */
  lemma StepOnRecord(s: State, e: Event, id: string)
    requires id in Step(s, e).tasks
    ensures var t := Step(s, e).tasks[id];
      && (Creates(e, id) ==> t == Task(e.kind, Pending, None, 0))
      && (!Creates(e, id) ==>
        && id in s.tasks && t.kind == s.tasks[id].kind
        && if Assignee(s, e).Some? && e.id == id then t.status == Assigned && t.assignedAgent == Assignee(s, e)
           else
             && t.assignedAgent == s.tasks[id].assignedAgent
             && t.status == if e == CompleteTask(id) then Completed
                            else if e == MarkTaskFailed(id) then Status.Failed else s.tasks[id].status)
  {
  }

  lemma StepOnTasks(s: State, e: Event, id: string)
    ensures id in Step(s, e).tasks <==> id in s.tasks || Creates(e, id)
  {
  }

  lemma {:induction false} CreatedExists(es: seq<Event>, i: nat, id: string)
    requires i < |es| && Creates(es[i], id)
    ensures id in Run(es).tasks
  {
    StepOnTasks(Run(es[..|es| - 1]), es[|es| - 1], id);
    if i < |es| - 1 {
      CreatedExists(es[..|es| - 1], i, id);
    }
  }

  lemma {:induction false} ExistingWasCreated(es: seq<Event>, id: string) returns (i: nat)
    requires id in Run(es).tasks
    ensures i < |es| && Creates(es[i], id)
  {
    i := |es| - 1;
    StepOnTasks(Run(es[..i]), es[i], id);
    if !Creates(es[i], id) {
      i := ExistingWasCreated(es[..i], id);
    }
  }

  /** The tasks that exist are the created ones. */
  lemma TasksAreTheCreated(es: seq<Event>, id: string)
    ensures id in Run(es).tasks <==> exists i :: 0 <= i < |es| && Creates(es[i], id)
  {
    if id in Run(es).tasks {
      var i := ExistingWasCreated(es, id);
    }
    if i :| 0 <= i < |es| && Creates(es[i], id) {
      CreatedExists(es, i, id);
    }
  }

  function LatestCapacity(es: seq<Event>, agent: string): Option<int> {
    if es == [] then None
    else
      var e := es[|es| - 1];
      if e.SetAgentCapacity? && e.agent == agent then Some(e.capacity) else LatestCapacity(es[..|es| - 1], agent)
  }

  function LatestPerformance(es: seq<Event>, agent: string): Option<real> {
    if es == [] then None
    else
      var e := es[|es| - 1];
      if e.SetAgentPerformance? && e.agent == agent then e.avgExecutionTime
      else LatestPerformance(es[..|es| - 1], agent)
  }

  function LatestAgentStatus(es: seq<Event>, agent: string): Option<string> {
    if es == [] then None
    else
      var e := es[|es| - 1];
      if e.SetAgentStatus? && e.agent == agent then Some(e.status) else LatestAgentStatus(es[..|es| - 1], agent)
  }

  function Lookup<T>(m: map<string, T>, key: string): Option<T> {
    if key in m then Some(m[key]) else None
  }

  lemma StepOnCapacity(s: State, e: Event, agent: string)
    ensures Lookup(Step(s, e).agentCapacities, agent)
         == if e.SetAgentCapacity? && e.agent == agent then Some(e.capacity) else Lookup(s.agentCapacities, agent)
  {
  }

  lemma StepOnAgentStatus(s: State, e: Event, agent: string)
    ensures Lookup(Step(s, e).agentStatuses, agent)
         == if e.SetAgentStatus? && e.agent == agent then Some(e.status) else Lookup(s.agentStatuses, agent)
  {
  }

  lemma StepOnPerformance(s: State, e: Event, agent: string)
    ensures ExecutionTime(Step(s, e), agent)
         == if e.SetAgentPerformance? && e.agent == agent then e.avgExecutionTime else ExecutionTime(s, agent)
  {
  }

  lemma StepOnIndexKeys(s: State, e: Event, agent: string)
    requires Known(s, agent) ==> agent in s.agentAssignments
    ensures Known(Step(s, e), agent) ==> agent in Step(s, e).agentAssignments
  {
  }

  /** On every run the scheduler decides by what was set last for each agent. */
  lemma {:induction false} SettingsAreTheLatest(es: seq<Event>, agent: string)
    ensures var s := Run(es);
      && ExecutionTime(s, agent) == LatestPerformance(es, agent)
      && Lookup(s.agentCapacities, agent) == LatestCapacity(es, agent)
      && Lookup(s.agentStatuses, agent) == LatestAgentStatus(es, agent)
      && (Known(s, agent) ==> agent in s.agentAssignments)
  {
    if es != [] {
      var s, e := Run(es[..|es| - 1]), es[|es| - 1];
      SettingsAreTheLatest(es[..|es| - 1], agent);
      StepOnCapacity(s, e, agent);
      StepOnAgentStatus(s, e, agent);
      StepOnPerformance(s, e, agent);
      StepOnIndexKeys(s, e, agent);
    }
  }

  /** The agents given a capacity, each once, in the order of their first one. */
  function CapacityOrder(es: seq<Event>): seq<string> {
    if es == [] then []
    else
      var earlier, e := CapacityOrder(es[..|es| - 1]), es[|es| - 1];
      if e.SetAgentCapacity? && e.agent !in earlier then earlier + [e.agent] else earlier
  }

  lemma StepOnCapacityOrder(s: State, e: Event)
    ensures Step(s, e).capacityOrder ==
      if e.SetAgentCapacity? && e.agent !in s.agentCapacities then s.capacityOrder + [e.agent] else s.capacityOrder
  {
  }

  lemma {:induction false} CapacityOrderIsByFirstSetting(es: seq<Event>)
    ensures Run(es).capacityOrder == CapacityOrder(es)
  {
    if es != [] {
      CapacityOrderIsByFirstSetting(es[..|es| - 1]);
      RunIndexed(es[..|es| - 1]);
      StepOnCapacityOrder(Run(es[..|es| - 1]), es[|es| - 1]);
    }
  }

  /** When `agent` first got a performance record. */
  function FirstRecord(es: seq<Event>, agent: string): nat {
    if es == [] then 0
    else
      var earlier, e := FirstRecord(es[..|es| - 1], agent), es[|es| - 1];
      if earlier == 0 && e.SetAgentPerformance? && e.agent == agent then |es| else earlier
  }

  lemma StepOnPerformanceOrder(s: State, e: Event)
    ensures Step(s, e).performanceOrder ==
      if e.SetAgentPerformance? && e.agent !in s.agentPerformance then s.performanceOrder + [e.agent]
      else s.performanceOrder
  {
  }

  lemma {:induction false} FirstRecordIsPast(es: seq<Event>, agent: string)
    ensures FirstRecord(es, agent) <= |es|
    ensures FirstRecord(es, agent) > 0 <==> agent in Run(es).performanceOrder
  {
    if es != [] {
      FirstRecordIsPast(es[..|es| - 1], agent);
      RunIndexed(es[..|es| - 1]);
      StepOnPerformanceOrder(Run(es[..|es| - 1]), es[|es| - 1]);
    }
  }

  lemma {:induction false} PerformanceOrderIsByFirstRecord(es: seq<Event>)
    ensures Increasing(Run(es).performanceOrder, agent => FirstRecord(es, agent))
  {
    if es != [] {
      var init := es[..|es| - 1];
      PerformanceOrderIsByFirstRecord(init);
      RunIndexed(init);
      StepOnPerformanceOrder(Run(init), es[|es| - 1]);
      var order := Run(init).performanceOrder;
      forall i | 0 <= i < |order| ensures FirstRecord(es, order[i]) == FirstRecord(init, order[i]) < |es| {
        FirstRecordIsPast(init, order[i]);
      }
      if es[|es| - 1].SetAgentPerformance? {
        FirstRecordIsPast(init, es[|es| - 1].agent);
      }
    }
  }
}
