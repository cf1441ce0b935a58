/** `GET /api/agent/tasks` (src/app/api/agent/tasks/route.ts): an agent's own tasks, newest
    first, one page at a time, grouped by upload, with the pagination fields. */
module AgentTasksRoute {
  import opened Wrappers
  import opened Grouping
  import opened TaskModel
  import opened Auth
  import opened Store

  const AgentAccessRequired: string := "Unauthorized - Agent access required"
  const InternalError: string := "Internal server error"

  /** The token is an agent's: it authenticates and its role is "agent". */
  predicate IsAgent(user: Option<Claims>) {
    user.Some? && user.value.role == Some("agent")
  }

  /** `Task.find({ agentId, userId })` and `countDocuments` with the same filter: the tasks of
      the token's agent in the token's workspace, in store order. A token without an agent id
      matches no task. */
  function AssignedTasks(tasks: seq<Task>, claims: Claims): (r: seq<Task>)
    ensures |r| <= |tasks|
    ensures forall t :: t in r <==> t in tasks && claims.agentId == Some(t.agentId) && t.userId == claims.userId
  {
    Filter(tasks, (t: Task) => claims.agentId == Some(t.agentId) && t.userId == claims.userId)
  }

  /** `parseInt(page || '1')` and `parseInt(limit || '20')`: a missing or empty parameter takes
      its default. */
  function PageParam(page: Option<int>): int { if page.Some? then page.value else 1 }
  function LimitParam(limit: Option<int>): int { if limit.Some? then limit.value else 20 }

  function Skip(page: int, limit: int): int { (page - 1) * limit }

  function Abs(x: int): nat { if x < 0 then -x else x }

  /** `.skip(skip).limit(limit)` on the newest-first list, for a skip that is not negative: the
      tasks from position `skip` on, at most `|limit|` of them; a limit of 0 sets no bound. */
  function Window(newest: seq<Task>, skip: nat, limit: int): (r: seq<Task>)
    ensures forall i :: 0 <= i < |r| ==> skip + i < |newest| && r[i] == newest[skip + i]
    ensures limit != 0 ==> |r| <= Abs(limit)
    ensures skip <= |newest| && (limit == 0 || |newest| <= skip + Abs(limit)) ==> skip + |r| == |newest|
    ensures limit != 0 && skip + Abs(limit) <= |newest| ==> |r| == Abs(limit)
  {
    if skip >= |newest| then []
    else if limit == 0 || skip + Abs(limit) >= |newest| then newest[skip..]
    else newest[skip..skip + Abs(limit)]
  }

  /** `Math.ceil(totalTasks / limit)`; a limit of 0 gives Infinity or NaN, which the reply
      shows as null. */
  function TotalPages(total: nat, limit: int): (r: Option<int>)
    ensures r.None? <==> limit == 0
    ensures limit > 0 ==> (r.value - 1) * limit < total <= r.value * limit
    ensures limit < 0 ==> r.value * limit <= total < (r.value - 1) * limit
  {
    if limit == 0 then None
    else if limit > 0 then
      var q := (total + limit - 1) / limit;
      CeilBounds(total, limit);
      Some(q)
    else
      var q := total / -limit;
      FloorBounds(total, -limit);
      assert -q * limit == q * -limit;
      assert (-q - 1) * limit == (q + 1) * -limit;
      Some(-q)
  }

  lemma CeilBounds(total: nat, limit: int)
    requires limit > 0
    ensures var q := (total + limit - 1) / limit; (q - 1) * limit < total <= q * limit
  {
    var q, m := (total + limit - 1) / limit, (total + limit - 1) % limit;
    assert q * limit + m == total + limit - 1 && 0 <= m < limit;
    assert (q - 1) * limit == q * limit - limit;
  }

  lemma FloorBounds(total: nat, d: int)
    requires d > 0
    ensures var q := total / d; q * d <= total < (q + 1) * d
  {
    var q, m := total / d, total % d;
    assert q * d + m == total && 0 <= m < d;
    assert (q + 1) * d == q * d + d;
  }

  datatype Pagination = Pagination(currentPage: int, totalPages: Option<int>, totalTasks: nat,
                                   hasNext: bool, hasPrev: bool)

  function Paginate(page: int, limit: int, total: nat): Pagination {
    Pagination(page, TotalPages(total, limit), total, Skip(page, limit) + limit < total, page > 1)
  }

  lemma MulMonotone(x: int, y: int, c: nat)
    requires x <= y
    ensures x * c <= y * c
  {
    assert y * c - x * c == (y - x) * c;
  }

  lemma MulCancel(x: int, y: int, c: int)
    requires c > 0 && x * c < y * c
    ensures x < y
  {
    assert (y - x) * c == y * c - x * c;
  }

  /** With a positive page and limit, there is a next page exactly when this is not the last. */
  lemma HasNextIffMorePages(page: int, limit: int, total: nat)
    requires page >= 1 && limit >= 1
    ensures Paginate(page, limit, total).hasNext <==> page < Paginate(page, limit, total).totalPages.value
  {
    var pages := TotalPages(total, limit).value;
    assert (pages - 1) * limit < total <= pages * limit;
    assert Skip(page, limit) + limit == page * limit by {
      assert (page - 1) * limit == page * limit - limit;
    }
    if page < pages {
      MulMonotone(page, pages - 1, limit);
    } else {
      MulMonotone(pages, page, limit);
    }
  }

  /** With a positive limit, task `i` of the newest-first list is on page `i / limit + 1`, at
      position `i % limit`, and that page is one of the `totalPages`. */
  lemma EveryTaskOnItsPage(newest: seq<Task>, limit: int, i: nat)
    requires limit >= 1 && i < |newest|
    ensures var page := i / limit + 1;
      && Skip(page, limit) >= 0
      && 1 <= page <= TotalPages(|newest|, limit).value
      && i % limit < |Window(newest, Skip(page, limit), limit)|
      && Window(newest, Skip(page, limit), limit)[i % limit] == newest[i]
  {
    var page, q, m := i / limit + 1, i / limit, i % limit;
    assert q * limit + m == i && 0 <= m < limit;
    assert Skip(page, limit) == q * limit;
    assert q >= 0;
    assert q * limit >= 0;
    var pages := TotalPages(|newest|, limit).value;
    assert page <= pages by {
      MulCancel(q, pages, limit);
    }
    var w := Window(newest, q * limit, limit);
    assert q * limit + m < |newest|;
    if q * limit + limit <= |newest| {
      assert |w| == limit;
    } else {
      assert q * limit + |w| == |newest|;
    }
  }

  /** A task as the agent sees it: no status, no completion fields. */
  datatype TaskEntry = TaskEntry(id: string, firstName: string, phone: string, notes: string,
                                 createdAt: int, updatedAt: int)

  function EntryOf(t: Task): (e: TaskEntry)
    ensures e.id == t.id && e.firstName == t.firstName && e.phone == t.phone && e.notes == t.notes
    ensures e.createdAt == t.createdAt && e.updatedAt == t.updatedAt
  {
    TaskEntry(t.id, t.firstName, t.phone, t.notes, t.createdAt, t.updatedAt)
  }

  function EntriesOf(ts: seq<Task>): (es: seq<TaskEntry>)
    ensures |es| == |ts| && forall i :: 0 <= i < |ts| ==> es[i] == EntryOf(ts[i])
  {
    seq(|ts|, i requires 0 <= i < |ts| => EntryOf(ts[i]))
  }

  /** One entry of `taskGroups`: the upload, the admin's email, the time of the group's first
      task, and the entries of its tasks. */
  datatype TaskGroup = TaskGroup(uploadId: string, adminEmail: string, createdAt: int, tasks: seq<TaskEntry>)

  function GroupOf(uploadId: string, adminEmail: string, ts: seq<Task>): TaskGroup
    requires ts != []
  {
    TaskGroup(uploadId, adminEmail, ts[0].createdAt, EntriesOf(ts))
  }

  /** `Object.values(tasksByUpload)`: one group per upload of the page, in order of first
      appearance, holding that upload's tasks of the page in page order. */
  predicate GroupedByUpload(groups: seq<TaskGroup>, page: seq<Task>, adminEmail: string) {
    var ids := Distinct(Keys(page, TaskUploadId));
    && |groups| == |ids|
    && forall i :: 0 <= i < |ids| ==>
         Select(page, TaskUploadId, ids[i]) != []
         && groups[i] == GroupOf(ids[i], adminEmail, Select(page, TaskUploadId, ids[i]))
  }

  /** The dictionary after the loop has seen `seen`: keys in first-appearance order, each
      holding the group of its tasks so far. */
  ghost predicate GroupsSoFar(tasksByUpload: map<string, TaskGroup>, order: seq<string>, seen: seq<Task>, adminEmail: string) {
    && order == Distinct(Keys(seen, TaskUploadId))
    && (forall u :: u in tasksByUpload <==> u in order)
    && forall u :: u in tasksByUpload ==>
         Select(seen, TaskUploadId, u) != []
         && tasksByUpload[u] == GroupOf(u, adminEmail, Select(seen, TaskUploadId, u))
  }

  lemma EntriesSnoc(ts: seq<Task>, t: Task)
    ensures EntriesOf(ts + [t]) == EntriesOf(ts) + [EntryOf(t)]
  {
  }

  /** One group after the step, given what it was before. */
  lemma GroupStep(before: map<string, TaskGroup>, after: map<string, TaskGroup>, seen: seq<Task>, t: Task,
                  u: string, adminEmail: string)
    requires u in after
    requires u in before ==> Select(seen, TaskUploadId, u) != []
                             && before[u] == GroupOf(u, adminEmail, Select(seen, TaskUploadId, u))
    requires u !in before ==> u == t.uploadId && u !in Keys(seen, TaskUploadId)
    requires u == t.uploadId && u in before ==>
      after[u] == before[u].(tasks := before[u].tasks + [EntryOf(t)])
    requires u == t.uploadId && u !in before ==>
      after[u] == TaskGroup(u, adminEmail, t.createdAt, [EntryOf(t)])
    requires u != t.uploadId ==> u in before && after[u] == before[u]
    ensures Select(seen + [t], TaskUploadId, u) != []
    ensures after[u] == GroupOf(u, adminEmail, Select(seen + [t], TaskUploadId, u))
  {
    SelectSnoc(seen, t, TaskUploadId, u);
    if u == t.uploadId {
      EntriesSnoc(Select(seen, TaskUploadId, u), t);
    }
  }

  /** Every group after one more task, given every group before. */
  lemma GroupsStep(before: map<string, TaskGroup>, after: map<string, TaskGroup>, seen: seq<Task>, t: Task,
                   adminEmail: string)
    requires forall u :: u in before ==>
               Select(seen, TaskUploadId, u) != [] && before[u] == GroupOf(u, adminEmail, Select(seen, TaskUploadId, u))
    requires forall u :: u in Keys(seen, TaskUploadId) ==> u in before
    requires forall u :: u in after <==> u in before || u == t.uploadId
    requires forall u :: u in before && u != t.uploadId ==> after[u] == before[u]
    requires t.uploadId in before ==>
      after[t.uploadId] == before[t.uploadId].(tasks := before[t.uploadId].tasks + [EntryOf(t)])
    requires t.uploadId !in before ==>
      after[t.uploadId] == TaskGroup(t.uploadId, adminEmail, t.createdAt, [EntryOf(t)])
    ensures forall u :: u in after ==>
              Select(seen + [t], TaskUploadId, u) != []
              && after[u] == GroupOf(u, adminEmail, Select(seen + [t], TaskUploadId, u))
  {
    forall u | u in after
      ensures Select(seen + [t], TaskUploadId, u) != []
      ensures after[u] == GroupOf(u, adminEmail, Select(seen + [t], TaskUploadId, u))
    {
      GroupStep(before, after, seen, t, u, adminEmail);
    }
  }

  /** Lines 41-58: a task of an upload not seen yet opens a group headed by it; the task's
      entry is then pushed onto its upload's group. */
  lemma UploadStep(before: map<string, TaskGroup>, order: seq<string>, after: map<string, TaskGroup>,
                   afterOrder: seq<string>, seen: seq<Task>, t: Task, adminEmail: string)
    requires GroupsSoFar(before, order, seen, adminEmail)
    requires afterOrder == if t.uploadId in before then order else order + [t.uploadId]
    requires forall u :: u in after <==> u in before || u == t.uploadId
    requires forall u :: u in before && u != t.uploadId ==> after[u] == before[u]
    requires t.uploadId in before ==>
      after[t.uploadId] == before[t.uploadId].(tasks := before[t.uploadId].tasks + [EntryOf(t)])
    requires t.uploadId !in before ==>
      after[t.uploadId] == TaskGroup(t.uploadId, adminEmail, t.createdAt, [EntryOf(t)])
    ensures GroupsSoFar(after, afterOrder, seen + [t], adminEmail)
  {
    assert t.uploadId in before <==> t.uploadId in order;
    FirstSeenStep(order, afterOrder, seen, t, TaskUploadId);
    GroupsStep(before, after, seen, t, adminEmail);
  }

  /** Lines 39-58: the page grouped by upload. */
  method GroupByUpload(page: seq<Task>, adminEmail: string) returns (groups: seq<TaskGroup>)
    ensures GroupedByUpload(groups, page, adminEmail)
  {
    var tasksByUpload: map<string, TaskGroup> := map[];
    var order: seq<string> := [];
    assert page[..0] == [];
    for k := 0 to |page|
      invariant GroupsSoFar(tasksByUpload, order, page[..k], adminEmail)
    {
      var task := page[k];
      var before, orderBefore := tasksByUpload, order;
      if task.uploadId !in tasksByUpload {
        tasksByUpload := tasksByUpload[task.uploadId := TaskGroup(task.uploadId, adminEmail, task.createdAt, [])];
        order := order + [task.uploadId];
      }
      var group := tasksByUpload[task.uploadId];
      tasksByUpload := tasksByUpload[task.uploadId := group.(tasks := group.tasks + [EntryOf(task)])];
      UploadStep(before, orderBefore, tasksByUpload, order, page[..k], task, adminEmail);
      PrefixSnoc(page, k);
    }
    assert page[..|page|] == page;
    groups := GroupsInOrder(tasksByUpload, order);
    GroupsSoFarGrouped(tasksByUpload, order, page, adminEmail);
  }

  /** `Object.values` of a dictionary whose keys are `order`, in that order. */
  function GroupsInOrder(tasksByUpload: map<string, TaskGroup>, order: seq<string>): (groups: seq<TaskGroup>)
    requires forall u :: u in order ==> u in tasksByUpload
    ensures |groups| == |order| && forall i :: 0 <= i < |order| ==> groups[i] == tasksByUpload[order[i]]
  {
    seq(|order|, i requires 0 <= i < |order| => tasksByUpload[order[i]])
  }

  lemma GroupsSoFarGrouped(tasksByUpload: map<string, TaskGroup>, order: seq<string>, page: seq<Task>, adminEmail: string)
    requires GroupsSoFar(tasksByUpload, order, page, adminEmail)
    ensures GroupedByUpload(GroupsInOrder(tasksByUpload, order), page, adminEmail)
  {
  }

  /** The number of task entries over all groups. */
  function GroupSizes(groups: seq<TaskGroup>): nat {
    if groups == [] then 0 else GroupSizes(groups[..|groups| - 1]) + |groups[|groups| - 1].tasks|
  }

  lemma {:induction false} GroupSizesAreCounts(groups: seq<TaskGroup>, ks: seq<string>, ids: seq<string>)
    requires |groups| == |ids|
    requires forall i :: 0 <= i < |groups| ==> |groups[i].tasks| == CountOf(ks, ids[i])
    ensures GroupSizes(groups) == SumCounts(ks, ids)
  {
    if groups != [] {
      GroupSizesAreCounts(groups[..|groups| - 1], ks, ids[..|ids| - 1]);
    }
  }

  /** The groups hold every task of the page once: their sizes add up to the page size. */
  lemma GroupSizesAddUp(groups: seq<TaskGroup>, page: seq<Task>, adminEmail: string)
    requires GroupedByUpload(groups, page, adminEmail)
    ensures GroupSizes(groups) == |page|
  {
    var ks := Keys(page, TaskUploadId);
    var ids := Distinct(ks);
    GroupSizesAreCounts(groups, ks, ids);
    SumCountsOfDistinct(ks);
  }

  lemma GroupIds(groups: seq<TaskGroup>, page: seq<Task>, adminEmail: string)
    requires GroupedByUpload(groups, page, adminEmail)
    ensures forall j :: 0 <= j < |groups| ==> groups[j].uploadId == Distinct(Keys(page, TaskUploadId))[j]
  {
  }

  /** Each task of the page is in the group of its upload, and no other group is for that
      upload. */
  lemma EachTaskInOneGroup(groups: seq<TaskGroup>, page: seq<Task>, adminEmail: string, t: Task)
    requires GroupedByUpload(groups, page, adminEmail) && t in page
    ensures exists i :: && 0 <= i < |groups| && groups[i].uploadId == t.uploadId
                        && EntryOf(t) in groups[i].tasks
                        && forall j :: 0 <= j < |groups| && j != i ==> groups[j].uploadId != t.uploadId
  {
    var ks := Keys(page, TaskUploadId);
    var ids := Distinct(ks);
    var p :| 0 <= p < |page| && page[p] == t;
    assert t.uploadId in ks by {
      assert ks[p] == t.uploadId;
    }
    var i :| 0 <= i < |ids| && ids[i] == t.uploadId;
    var members := Select(page, TaskUploadId, ids[i]);
    assert groups[i] == GroupOf(ids[i], adminEmail, members);
    assert t in members;
    var q :| 0 <= q < |members| && members[q] == t;
    assert groups[i].tasks[q] == EntryOf(t);
    GroupIds(groups, page, adminEmail);
    assert forall j :: 0 <= j < |groups| && j != i ==> groups[j].uploadId != t.uploadId;
    assert && 0 <= i < |groups| && groups[i].uploadId == t.uploadId && EntryOf(t) in groups[i].tasks
           && forall j :: 0 <= j < |groups| && j != i ==> groups[j].uploadId != t.uploadId;
  }

  /** The `agent` object of the reply, read from the token. */
  datatype AgentInfo = AgentInfo(name: Option<string>, email: string, adminEmail: Option<string>)

  datatype AgentTasksBody = AgentTasksBody(agent: AgentInfo, taskGroups: seq<TaskGroup>, pagination: Pagination)

  /** The admin's email as `populate('userId', 'email')` finds it ("" when there is none, which
      only matters when the page is empty). */
  function AdminEmail(admins: seq<Admin>, userId: string): string {
    match FindAdmin(admins, userId)
    case Some(admin) => admin.email
    case None => ""
  }

  /** `GET`: 401 unless the token is an agent's; a negative skip is refused by the database
      (500); a non-empty page whose admin is missing fails on `task.userId.email` (500);
      otherwise the page of the agent's newest-first tasks, grouped by upload. */
  method Get(store: Store, authHeader: Option<string>, decode: string -> Option<SignedToken>, nowMs: nat,
             page: Option<int>, limit: Option<int>) returns (reply: Reply<AgentTasksBody>)
    ensures var user := AuthenticateRequest(authHeader, decode, nowMs / 1000);
      !IsAgent(user) ==> reply == Error(401, AgentAccessRequired)
    ensures var user := AuthenticateRequest(authHeader, decode, nowMs / 1000);
      IsAgent(user) && Skip(PageParam(page), LimitParam(limit)) < 0 ==> reply == Error(500, InternalError)
    ensures var user := AuthenticateRequest(authHeader, decode, nowMs / 1000);
      var p, l := PageParam(page), LimitParam(limit);
      (&& IsAgent(user) && Skip(p, l) >= 0
       && Window(Reverse(AssignedTasks(store.tasks, user.value)), Skip(p, l), l) != []
       && FindAdmin(store.admins, user.value.userId).None?)
        ==> reply == Error(500, InternalError)
    ensures var user := AuthenticateRequest(authHeader, decode, nowMs / 1000);
      var p, l := PageParam(page), LimitParam(limit);
      reply.Ok? <==>
        (&& IsAgent(user) && Skip(p, l) >= 0
         && (Window(Reverse(AssignedTasks(store.tasks, user.value)), Skip(p, l), l) == []
             || FindAdmin(store.admins, user.value.userId).Some?))
    ensures var user := AuthenticateRequest(authHeader, decode, nowMs / 1000);
      var p, l := PageParam(page), LimitParam(limit);
      reply.Ok? ==>
        var mine := AssignedTasks(store.tasks, user.value);
        && Skip(p, l) >= 0
        && reply.status == 200
        && reply.body.agent == AgentInfo(user.value.name, user.value.email, user.value.adminEmail)
        && reply.body.pagination == Paginate(p, l, |mine|)
        && GroupedByUpload(reply.body.taskGroups, Window(Reverse(mine), Skip(p, l), l),
                           AdminEmail(store.admins, user.value.userId))
  {
    var user := AuthenticateRequest(authHeader, decode, nowMs / 1000);
    if !IsAgent(user) {
      return Error(401, AgentAccessRequired);
    }
    var claims := user.value;
    var p, l := PageParam(page), LimitParam(limit);
    var skip := Skip(p, l);
    if skip < 0 {
      return Error(500, InternalError);
    }
    var mine := AssignedTasks(store.tasks, claims);
    var tasks := Window(Reverse(mine), skip, l);
    var totalTasks := |mine|;
    if tasks != [] && FindAdmin(store.admins, claims.userId).None? {
      return Error(500, InternalError);
    }
    var groups := GroupByUpload(tasks, AdminEmail(store.admins, claims.userId));
    return Ok(200, AgentTasksBody(AgentInfo(claims.name, claims.email, claims.adminEmail), groups,
                                  Paginate(p, l, totalTasks)));
  }
}
