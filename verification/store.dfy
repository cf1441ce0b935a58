/** An in-memory stand-in for the database: the admin, agent and task collections in their
    natural (insertion) order, and the queries the handlers run against them. */
module Store {
  import opened Wrappers
  import opened Text
  import opened Grouping
  import opened AgentModel
  import opened TaskModel
  import CsvParser

  /** An admin (`User`) as the core sees it: populated lookups read only its email. */
  datatype Admin = Admin(id: string, email: string)

  /** The id given to the `k`-th document the store creates. */
  function ObjectId(k: nat): string { NatToString(k) }

  predicate DistinctAgentIds(agents: seq<Agent>) {
    forall i, j :: 0 <= i < j < |agents| ==> agents[i].id != agents[j].id
  }

  /** Some agent of the collection has id `id`. */
  predicate HasAgent(agents: seq<Agent>, id: string) {
    exists i :: 0 <= i < |agents| && agents[i].id == id
  }

  /** Distinct agent ids make distinct agents. */
  lemma DistinctIdsNoDuplicates(agents: seq<Agent>)
    requires DistinctAgentIds(agents)
    ensures NoDuplicates(agents)
  {
  }

  /** The task's agent exists and belongs to the task's own workspace. */
  predicate InWorkspace(agents: seq<Agent>, t: Task) {
    exists i :: 0 <= i < |agents| && agents[i].id == t.agentId && agents[i].userId == t.userId
  }

  /** `Agent.find({ userId })`: the agents of one workspace, in natural order. */
  function AgentsOf(agents: seq<Agent>, userId: string): (r: seq<Agent>)
    ensures forall a :: a in r <==> a in agents && a.userId == userId
  {
    Filter(agents, (a: Agent) => a.userId == userId)
  }

  /** The agents of one workspace keep the ids distinct. */
  lemma WorkspaceIdsDistinct(agents: seq<Agent>, userId: string)
    requires DistinctAgentIds(agents)
    ensures DistinctAgentIds(AgentsOf(agents, userId))
  {
    var w := AgentsOf(agents, userId);
    DistinctIdsNoDuplicates(agents);
    FilterNoDuplicates(agents, (a: Agent) => a.userId == userId);
    forall i, j | 0 <= i < j < |w| ensures w[i].id != w[j].id {
      assert w[i] in agents && w[j] in agents && w[i] != w[j];
    }
  }

  /** `agents.map(agent => agent._id.toString())`. */
  function IdsOf(agents: seq<Agent>): (ids: seq<string>)
    ensures |ids| == |agents| && forall i :: 0 <= i < |agents| ==> ids[i] == agents[i].id
  {
    seq(|agents|, i requires 0 <= i < |agents| => agents[i].id)
  }

  /** Distinct agent ids make a list of ids without repeats. */
  lemma IdsDistinct(agents: seq<Agent>)
    requires DistinctAgentIds(agents)
    ensures NoDuplicates(IdsOf(agents))
  {
    var ids := IdsOf(agents);
    forall i, j | 0 <= i < j < |ids| ensures ids[i] != ids[j] {
      assert ids[i] == agents[i].id && ids[j] == agents[j].id;
    }
  }

  /** The first agent with this id, as `populate('agentId')` finds it. */
  function FindAgent(agents: seq<Agent>, id: string): (r: Option<Agent>)
    ensures r.Some? <==> HasAgent(agents, id)
    ensures r.Some? ==> r.value in agents && r.value.id == id
  {
    if agents == [] then None
    else if agents[0].id == id then Some(agents[0])
    else
      var r := FindAgent(agents[1..], id);
      assert HasAgent(agents, id) <==> HasAgent(agents[1..], id) by {
        if HasAgent(agents, id) {
          var i :| 0 <= i < |agents| && agents[i].id == id;
          assert agents[1..][i - 1] == agents[i];
        }
        if HasAgent(agents[1..], id) {
          var i :| 0 <= i < |agents[1..]| && agents[1..][i].id == id;
          assert agents[i + 1] == agents[1..][i];
        }
      }
      r
  }

  /** The first admin with this id, as `populate('userId')` finds it. */
  function FindAdmin(admins: seq<Admin>, id: string): (r: Option<Admin>)
    ensures r.Some? ==> r.value in admins && r.value.id == id
    ensures r.None? ==> forall a :: a in admins ==> a.id != id
  {
    if admins == [] then None
    else if admins[0].id == id then Some(admins[0])
    else FindAdmin(admins[1..], id)
  }

  /** `Agent.findOne({ email })`: the first agent, across all workspaces, whose stored email
      equals the normalised query email. */
  function FindAgentByEmail(agents: seq<Agent>, email: string): (r: Option<Agent>)
    ensures r.Some? ==> r.value in agents && r.value.email == NormalizeEmail(email)
    ensures r.None? ==> forall a :: a in agents ==> a.email != NormalizeEmail(email)
  {
    if agents == [] then None
    else if agents[0].email == NormalizeEmail(email) then Some(agents[0])
    else FindAgentByEmail(agents[1..], email)
  }

  /** `findOne` takes the first match in natural order: the agent at the first position whose
      email matches. */
  lemma {:induction false} FindAgentByEmailFirst(agents: seq<Agent>, email: string, i: nat)
    requires i < |agents| && agents[i].email == NormalizeEmail(email)
    requires forall k :: 0 <= k < i ==> agents[k].email != NormalizeEmail(email)
    ensures FindAgentByEmail(agents, email) == Some(agents[i])
    decreases i
  {
    if i > 0 {
      FindAgentByEmailFirst(agents[1..], email, i - 1);
    }
  }

  /** `insertMany`'s validation: every document is built and validated before any is
      written, so one invalid document rejects them all. Documents take consecutive ids. */
  function Documents(ds: seq<CsvParser.DistributedTask>, firstId: nat, now: int): (r: Option<seq<Task>>)
    ensures r.Some? <==> forall k :: 0 <= k < |ds| ==> Creatable(ds[k])
    ensures r.Some? ==> |r.value| == |ds|
    ensures r.Some? ==> forall k :: 0 <= k < |ds| ==>
      ds[k].userId.Some? && r.value[k] == Document(ObjectId(firstId + k), ds[k], now)
  {
    if forall k :: 0 <= k < |ds| ==> Creatable(ds[k]) then
      Some(seq(|ds|, k requires 0 <= k < |ds| => Document(ObjectId(firstId + k), ds[k], now)))
    else None
  }

  /** The collections, and the counter that names the next document. */
  class Store {
    var admins: seq<Admin>
    var agents: seq<Agent>
    var tasks: seq<Task>
    var nextId: nat

    /** Agent ids are distinct and none is a name the counter will still hand out; the
        compound unique index holds; every task's agent exists in the task's own workspace. */
    ghost predicate Valid()
      reads this
    {
      && DistinctAgentIds(agents)
      && (forall a :: a in agents ==> a.id != "")
      && (forall k: nat :: nextId <= k ==> !HasAgent(agents, ObjectId(k)))
      && UniqueEmailPerWorkspace(agents)
      && (forall t :: t in tasks ==> InWorkspace(agents, t))
    }

    constructor (admins: seq<Admin>)
      ensures Valid()
      ensures this.admins == admins && agents == [] && tasks == [] && nextId == 0
    {
      this.admins := admins;
      agents := [];
      tasks := [];
      nextId := 0;
    }

    /** Hands out a fresh id: no agent has it and the counter will not hand it out again. */
    method NewId() returns (id: string)
      requires Valid()
      modifies this`nextId
      ensures Valid() && nextId == old(nextId) + 1
      ensures id == ObjectId(old(nextId)) && id != "" && !HasAgent(agents, id)
      ensures forall k: nat :: nextId <= k ==> ObjectId(k) != id
    {
      id := ObjectId(nextId);
      nextId := nextId + 1;
      forall k: nat | nextId <= k ensures ObjectId(k) != id {
        if ObjectId(k) == id {
          NatToStringInjective(k, nextId - 1);
        }
      }
    }

    /** `save()` of a new agent: refused when its (email, userId) key is taken. */
    method InsertAgent(a: Agent) returns (ok: bool)
      requires Valid() && a.id != "" && !HasAgent(agents, a.id)
      requires forall k: nat :: nextId <= k ==> a.id != ObjectId(k)
      modifies this`agents
      ensures Valid()
      ensures ok <==> !EmailTaken(old(agents), a.email, a.userId)
      ensures agents == if ok then old(agents) + [a] else old(agents)
    {
      ok := !EmailTaken(agents, a.email, a.userId);
      if ok {
        AddKeepsUnique(agents, a);
        var old_agents := agents;
        agents := agents + [a];
        assert forall t :: InWorkspace(old_agents, t) ==> InWorkspace(agents, t) by {
          forall t | InWorkspace(old_agents, t) ensures InWorkspace(agents, t) {
            var i :| 0 <= i < |old_agents| && old_agents[i].id == t.agentId && old_agents[i].userId == t.userId;
            assert agents[i] == old_agents[i];
          }
        }
        forall k: nat | nextId <= k ensures !HasAgent(agents, ObjectId(k)) {
          assert !HasAgent(old_agents, ObjectId(k));
        }
      }
    }

    /** `insertMany` of tasks that all land in their agent's own workspace; their ids were
        taken from the counter, which moves past them. */
    method InsertTasks(ts: seq<Task>)
      requires Valid()
      requires forall t :: t in ts ==> InWorkspace(agents, t)
      modifies this`tasks, this`nextId
      ensures Valid() && tasks == old(tasks) + ts && nextId == old(nextId) + |ts|
    {
      tasks := tasks + ts;
      nextId := nextId + |ts|;
    }
  }
}
