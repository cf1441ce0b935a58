/** `GET /api/tasks` (src/app/api/tasks/route.ts): the caller's tasks, narrowed by upload and
    agent, and, for one upload across all agents, the same tasks grouped by agent. */
module TasksRoute {
  import opened Wrappers
  import opened Grouping
  import opened AgentModel
  import opened TaskModel
  import opened Auth
  import opened Store
  import opened Buckets

  /** The query object: the caller's workspace, plus `uploadId` and `agentId` only when those
      parameters are truthy. */
  datatype TaskQuery = TaskQuery(userId: string, uploadId: Option<string>, agentId: Option<string>)

  function QueryOf(userId: string, uploadId: Option<string>, agentId: Option<string>): TaskQuery {
    TaskQuery(userId, if Truthy(uploadId) then uploadId else None, if Truthy(agentId) then agentId else None)
  }

  const InternalError: string := "Internal server error"

  /** `Task.find` casts the query's `userId` and `agentId` to the schema's ObjectId paths;
      `castable` says which strings are well-formed ObjectIds. A value that does not cast makes
      the query reject. */
  predicate QueryCasts(castable: string -> bool, userId: string, agentId: Option<string>) {
    castable(userId) && (Truthy(agentId) ==> castable(agentId.value))
  }

  predicate Matches(q: TaskQuery, t: Task) {
    && t.userId == q.userId
    && (q.uploadId.Some? ==> t.uploadId == q.uploadId.value)
    && (q.agentId.Some? ==> t.agentId == q.agentId.value)
  }

  /** `Task.find(query)`: the stored tasks of the workspace, of the upload and of the agent when
      those are given, in store order. */
  function FindTasks(tasks: seq<Task>, userId: string, uploadId: Option<string>, agentId: Option<string>): (r: seq<Task>)
    ensures forall t :: t in r <==>
      && t in tasks && t.userId == userId
      && (Truthy(uploadId) ==> t.uploadId == uploadId.value)
      && (Truthy(agentId) ==> t.agentId == agentId.value)
  {
    var q := QueryOf(userId, uploadId, agentId);
    Filter(tasks, (t: Task) => Matches(q, t))
  }

  /** Tasks saved later are listed after the ones already there, and the earlier listing is
      unchanged. */
  lemma LaterTasksListedLast(before: seq<Task>, added: seq<Task>, userId: string, uploadId: Option<string>, agentId: Option<string>)
    ensures FindTasks(before + added, userId, uploadId, agentId)
      == FindTasks(before, userId, uploadId, agentId) + FindTasks(added, userId, uploadId, agentId)
  {
    var q := QueryOf(userId, uploadId, agentId);
    FilterAppend(before, added, (t: Task) => Matches(q, t));
  }

  /** The two shapes of a successful reply. */
  datatype TasksBody =
    | ByAgent(uploadId: string, totalTasks: nat, distribution: seq<AgentDistribution>)
    | AllTasks(tasks: seq<Task>)

  /** `Object.values(tasksByAgent)`: one entry per agent in the agents' order, holding that
      agent's tasks among `found`, in order, and their count. */
  predicate Bucketed(ds: seq<AgentDistribution>, found: seq<Task>, agents: seq<Agent>) {
    && |ds| == |agents|
    && forall i :: 0 <= i < |agents| ==>
         && ds[i].agent == Summary(agents[i])
         && ds[i].tasks == Select(found, TaskAgentId, agents[i].id)
         && ds[i].taskCount == |ds[i].tasks|
  }

  /** The dictionary after the seeding loop has seen `agents[..i]` and the filling loop has seen
      `found[..k]`: agent `j`'s entry holds its tasks so far, and the key order is the agents'. */
  ghost predicate Filled(tasksByAgent: map<string, AgentDistribution>, order: seq<string>, agents: seq<Agent>,
                         i: nat, found: seq<Task>)
    requires i <= |agents|
  {
    && order == IdsOf(agents[..i])
    && (forall id :: id in tasksByAgent <==> id in order)
    && forall j :: 0 <= j < i ==>
         && agents[j].id in tasksByAgent
         && tasksByAgent[agents[j].id] ==
              AgentDistribution(Summary(agents[j]), Select(found, TaskAgentId, agents[j].id),
                                |Select(found, TaskAgentId, agents[j].id)|)
  }

  /** Lines 30-44: an empty entry per agent; distinct ids keep every earlier entry. */
  lemma SeedStep(tasksByAgent: map<string, AgentDistribution>, order: seq<string>, agents: seq<Agent>, i: nat)
    requires i < |agents| && DistinctAgentIds(agents) && Filled(tasksByAgent, order, agents, i, [])
    ensures agents[i].id !in tasksByAgent
    ensures Filled(tasksByAgent[agents[i].id := AgentDistribution(Summary(agents[i]), [], 0)],
                   order + [agents[i].id], agents, i + 1, [])
  {
    var id := agents[i].id;
    assert agents[..i + 1] == agents[..i] + [agents[i]];
    assert IdsOf(agents[..i + 1]) == order + [id];
    forall j | 0 <= j < i ensures order[j] != id {
      assert order[j] == agents[j].id;
    }
  }

  /** Lines 46-52: a task whose agent has an entry is pushed onto it and counted; any other
      task is skipped. */
  lemma FillStep(before: map<string, AgentDistribution>, after: map<string, AgentDistribution>,
                 order: seq<string>, agents: seq<Agent>, found: seq<Task>, k: nat)
    requires k < |found| && Filled(before, order, agents, |agents|, found[..k])
    requires var id := found[k].agentId;
      && (id in before ==> after == before[id := AgentDistribution(before[id].agent, before[id].tasks + [found[k]],
                                                                   before[id].taskCount + 1)])
      && (id !in before ==> after == before)
    ensures Filled(after, order, agents, |agents|, found[..k + 1])
  {
    var task, id := found[k], found[k].agentId;
    PrefixSnoc(found, k);
    assert after.Keys == before.Keys;
    forall j | 0 <= j < |agents|
      ensures agents[j].id in after
      ensures after[agents[j].id] == AgentDistribution(Summary(agents[j]),
        Select(found[..k + 1], TaskAgentId, agents[j].id), |Select(found[..k + 1], TaskAgentId, agents[j].id)|)
    {
      SelectSnoc(found[..k], task, TaskAgentId, agents[j].id);
    }
  }

  /** Lines 29-59 for the fetched agents: the per-agent entries, in the agents' order. */
  method GroupTasks(agents: seq<Agent>, found: seq<Task>) returns (ds: seq<AgentDistribution>)
    requires DistinctAgentIds(agents)
    ensures Bucketed(ds, found, agents)
  {
    var tasksByAgent: map<string, AgentDistribution> := map[];
    var order: seq<string> := [];
    for i := 0 to |agents|
      invariant Filled(tasksByAgent, order, agents, i, [])
    {
      SeedStep(tasksByAgent, order, agents, i);
      tasksByAgent := tasksByAgent[agents[i].id := AgentDistribution(Summary(agents[i]), [], 0)];
      order := order + [agents[i].id];
    }
    assert found[..0] == [];
    for k := 0 to |found|
      invariant Filled(tasksByAgent, order, agents, |agents|, found[..k])
    {
      var task := found[k];
      var before := tasksByAgent;
      if task.agentId in tasksByAgent {
        var entry := tasksByAgent[task.agentId];
        tasksByAgent := tasksByAgent[task.agentId := AgentDistribution(entry.agent, entry.tasks + [task], entry.taskCount + 1)];
      }
      FillStep(before, tasksByAgent, order, agents, found, k);
    }
    assert found[..|found|] == found;
    ds := Values(tasksByAgent, order);
    FilledBucketed(tasksByAgent, order, agents, found);
  }

  /** `Object.values`: the entries in key order. */
  function Values(tasksByAgent: map<string, AgentDistribution>, order: seq<string>): (ds: seq<AgentDistribution>)
    requires forall id :: id in order ==> id in tasksByAgent
    ensures |ds| == |order| && forall i :: 0 <= i < |order| ==> ds[i] == tasksByAgent[order[i]]
  {
    seq(|order|, i requires 0 <= i < |order| => tasksByAgent[order[i]])
  }

  lemma FilledBucketed(tasksByAgent: map<string, AgentDistribution>, order: seq<string>, agents: seq<Agent>,
                       found: seq<Task>)
    requires Filled(tasksByAgent, order, agents, |agents|, found)
    ensures forall id :: id in order ==> id in tasksByAgent
    ensures Bucketed(Values(tasksByAgent, order), found, agents)
  {
    assert agents[..|agents|] == agents;
  }

  /** The agent of every listed task is one of the workspace's agents. */
  lemma KeysInWorkspace(storeAgents: seq<Agent>, tasks: seq<Task>, userId: string, uploadId: Option<string>)
    requires forall t :: t in tasks ==> InWorkspace(storeAgents, t)
    ensures forall id :: id in Keys(FindTasks(tasks, userId, uploadId, None), TaskAgentId) ==>
      id in IdsOf(AgentsOf(storeAgents, userId))
  {
    var found := FindTasks(tasks, userId, uploadId, None);
    var ks := Keys(found, TaskAgentId);
    forall id | id in ks ensures id in IdsOf(AgentsOf(storeAgents, userId)) {
      var p :| 0 <= p < |ks| && ks[p] == id;
      assert found[p] in found;
      AgentListed(storeAgents, userId, found[p]);
    }
  }

  /** A task of the workspace names one of the workspace's agents. */
  lemma AgentListed(storeAgents: seq<Agent>, userId: string, t: Task)
    requires InWorkspace(storeAgents, t) && t.userId == userId
    ensures t.agentId in IdsOf(AgentsOf(storeAgents, userId))
  {
    var agents := AgentsOf(storeAgents, userId);
    var a :| 0 <= a < |storeAgents| && storeAgents[a].id == t.agentId && storeAgents[a].userId == t.userId;
    assert storeAgents[a] in agents;
    var w :| 0 <= w < |agents| && agents[w] == storeAgents[a];
    assert IdsOf(agents)[w] == t.agentId;
  }

  /** Every task of the workspace has its agent in the workspace, so every listed task lands in
      an entry: the counts add up to `totalTasks`. */
  lemma CountsAddUp(storeAgents: seq<Agent>, tasks: seq<Task>, userId: string, uploadId: Option<string>,
                    ds: seq<AgentDistribution>)
    requires DistinctAgentIds(storeAgents)
    requires forall t :: t in tasks ==> InWorkspace(storeAgents, t)
    requires Bucketed(ds, FindTasks(tasks, userId, uploadId, None), AgentsOf(storeAgents, userId))
    ensures TotalCount(ds) == |FindTasks(tasks, userId, uploadId, None)|
  {
    var found := FindTasks(tasks, userId, uploadId, None);
    var agents := AgentsOf(storeAgents, userId);
    var ids := IdsOf(agents);
    var ks := Keys(found, TaskAgentId);
    WorkspaceIdsDistinct(storeAgents, userId);
    IdsDistinct(agents);
    TotalCountIsSumCounts(ds, ks, ids);
    SumCountsIsCountIn(ks, ids);
    KeysInWorkspace(storeAgents, tasks, userId, uploadId);
    CountInAll(ks, ids);
  }

  /** `GET`: 401 without a valid token; 500 when the query does not cast; otherwise 200, with the tasks grouped by the workspace's
      agents when an upload and no agent is asked for, and the plain list otherwise. */
  method Get(store: Store, authHeader: Option<string>, decode: string -> Option<SignedToken>, nowMs: nat,
             uploadId: Option<string>, agentId: Option<string>, castable: string -> bool)
    returns (reply: Reply<TasksBody>)
    requires store.Valid()
    ensures var user := AuthenticateRequest(authHeader, decode, nowMs / 1000);
      reply.Error? <==> user.None? || !QueryCasts(castable, user.value.userId, agentId)
    ensures var user := AuthenticateRequest(authHeader, decode, nowMs / 1000);
      user.None? ==> reply == Error(401, "Unauthorized")
    ensures var user := AuthenticateRequest(authHeader, decode, nowMs / 1000);
      user.Some? && !QueryCasts(castable, user.value.userId, agentId) ==> reply == Error(500, InternalError)
    ensures var user := AuthenticateRequest(authHeader, decode, nowMs / 1000);
      user.Some? && QueryCasts(castable, user.value.userId, agentId) ==>
        var found := FindTasks(store.tasks, user.value.userId, uploadId, agentId);
        && reply.status == 200
        && (Truthy(uploadId) && !Truthy(agentId) ==>
              && reply.body.ByAgent? && reply.body.uploadId == uploadId.value
              && reply.body.totalTasks == |found|
              && Bucketed(reply.body.distribution, found, AgentsOf(store.agents, user.value.userId)))
        && (!(Truthy(uploadId) && !Truthy(agentId)) ==> reply.body == AllTasks(found))
  {
    var user := AuthenticateRequest(authHeader, decode, nowMs / 1000);
    if user.None? {
      return Error(401, "Unauthorized");
    }
    var userId := user.value.userId;
    if !QueryCasts(castable, userId, agentId) {
      return Error(500, InternalError);
    }
    var tasks := FindTasks(store.tasks, userId, uploadId, agentId);
    if Truthy(uploadId) && !Truthy(agentId) {
      var agents := AgentsOf(store.agents, userId);
      WorkspaceIdsDistinct(store.agents, userId);
      var distribution := GroupTasks(agents, tasks);
      return Ok(200, ByAgent(uploadId.value, |tasks|, distribution));
    }
    return Ok(200, AllTasks(tasks));
  }
}
