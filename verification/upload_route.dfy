/** `POST /api/tasks/upload` (src/app/api/tasks/upload/route.ts): authentication, the file
    checks, the workspace's first five agents, parsing, distribution, `insertMany`, and the
    reply that groups the saved tasks by agent. */
module UploadRoute {
  import opened Wrappers
  import opened Text
  import opened Grouping
  import opened CsvParser
  import opened TaskModel
  import opened AgentModel
  import opened Auth
  import opened Store
  import opened Buckets

  /** The `file` field of the form: its name, its MIME type and its contents as read. */
  datatype FileUpload = FileUpload(name: string, mimeType: string, sheet: Sheet)

  const AllowedTypes: seq<string> := [
    "text/csv",
    "application/vnd.ms-excel",
    "application/vnd.openxmlformats-officedocument.spreadsheetml.sheet"
  ]

  /** A file is refused only when its type is not allowed and its lower-cased name ends in
      none of the three extensions. */
  predicate AcceptedFile(f: FileUpload) {
    var name := ToLower(f.name);
    f.mimeType in AllowedTypes
    || EndsWith(name, ".csv") || EndsWith(name, ".xlsx") || EndsWith(name, ".xls")
  }

  const InvalidFileType: string := "Invalid file type. Please upload CSV, XLS, or XLSX files only."
  const TooFewAgents: string := "At least 5 agents are required for task distribution in your workspace"
  const InternalError: string := "Internal server error"

  datatype UploadBody = UploadBody(uploadId: string, totalTasks: nat, distribution: seq<AgentDistribution>)

  /** Every distributed record passes the Task validators: the owner is truthy and no row's
      first name or phone is empty after trimming. */
  predicate Storable(rows: seq<CsvRow>, userId: string) {
    userId != "" && forall row :: row in rows ==> row.firstName != "" && row.phone != ""
  }

  /** Task `t` was saved from `row` for agent `agentId`, upload `uploadId` and owner `userId`,
      with the schema defaults. */
  predicate SavedFrom(t: Task, row: CsvRow, agentId: string, uploadId: string, userId: string) {
    && t.firstName == row.firstName && t.phone == row.phone && t.notes == row.notes
    && t.agentId == agentId && t.uploadId == uploadId && t.userId == userId
    && t.status == Pending && t.completedAt.None? && t.completedBy.None?
  }

  /** `saved` holds one task per row, in row order, each for the agent whose block holds
      its row. */
  predicate SavedAll(saved: seq<Task>, rows: seq<CsvRow>, agents: seq<Agent>, uploadId: string, userId: string) {
    && |agents| == 5 && |saved| == |rows|
    && forall k :: 0 <= k < |rows| ==>
         SavedFrom(saved[k], rows[k], agents[AgentFor(|rows|, k)].id, uploadId, userId)
  }

  /** The reply's `distribution`: one entry per fetched agent, in fetch order, holding that
      agent's saved tasks and their count, which is the agent's block size; the counts add up
      to the number of rows. */
  predicate GroupedByAgent(ds: seq<AgentDistribution>, saved: seq<Task>, agents: seq<Agent>, n: nat) {
    && |agents| == 5 && |ds| == 5 && TotalCount(ds) == n
    && forall i :: 0 <= i < 5 ==>
         && ds[i].agent == Summary(agents[i])
         && ds[i].tasks == Select(saved, TaskAgentId, agents[i].id)
         && ds[i].taskCount == |ds[i].tasks| == BlockSize(n, i)
  }

  /** The request passes every check that comes before parsing. */
  predicate Admitted(user: Option<Claims>, file: Option<FileUpload>, agents: seq<Agent>) {
    user.Some? && file.Some? && AcceptedFile(file.value) && |AgentsOf(agents, user.value.userId)| >= 5
  }

  /** The name's case does not matter: "<anything>.XLSX" is accepted whatever its type. */
  lemma UpperCaseExtensionAccepted(stem: string, mimeType: string, sheet: Sheet)
    ensures AcceptedFile(FileUpload(stem + ".XLSX", mimeType, sheet))
  {
    var s := stem + ".XLSX";
    var l := ToLower(s);
    assert forall i :: 0 <= i < 5 ==> s[|stem| + i] == ".XLSX"[i];
    assert l[|l| - 5..] == ".xlsx";
  }

  /** A plain-text file is refused. */
  lemma TextFileRefused(sheet: Sheet)
    ensures !AcceptedFile(FileUpload("notes.txt", "text/plain", sheet))
  {
    var l := ToLower("notes.txt");
    assert l[|l| - 4..][1] == 't';
    assert l[|l| - 5..][2] == 't';
    assert l[|l| - 4..][3] == 't';
  }

  /** The `tasksByAgent` dictionary: for each agent id, the saved tasks of that agent in
      order; ids with no task are absent. */
  method GroupByAgent(saved: seq<Task>) returns (tasksByAgent: map<string, seq<Task>>)
    ensures forall id :: id in tasksByAgent ==> tasksByAgent[id] == Select(saved, TaskAgentId, id)
    ensures forall id :: id !in tasksByAgent ==> Select(saved, TaskAgentId, id) == []
  {
    tasksByAgent := map[];
    for k := 0 to |saved|
      invariant Grouped(tasksByAgent, saved[..k])
    {
      var task := saved[k];
      var bucket := if task.agentId in tasksByAgent then tasksByAgent[task.agentId] else [];
      GroupStep(tasksByAgent, saved, k);
      tasksByAgent := tasksByAgent[task.agentId := bucket + [task]];
    }
    assert saved[..|saved|] == saved;
  }

  /** `tasksByAgent` holds exactly the groups of `saved` by agent id. */
  ghost predicate Grouped(tasksByAgent: map<string, seq<Task>>, saved: seq<Task>) {
    && (forall id :: id in tasksByAgent ==> tasksByAgent[id] == Select(saved, TaskAgentId, id))
    && (forall id :: id !in tasksByAgent ==> Select(saved, TaskAgentId, id) == [])
  }

  /** Pushing a task onto its agent's bucket (made empty first when missing) keeps the
      dictionary the grouping of the tasks seen so far. */
  lemma GroupStep(tasksByAgent: map<string, seq<Task>>, saved: seq<Task>, k: nat)
    requires k < |saved| && Grouped(tasksByAgent, saved[..k])
    ensures var id := saved[k].agentId;
      Grouped(tasksByAgent[id := (if id in tasksByAgent then tasksByAgent[id] else []) + [saved[k]]], saved[..k + 1])
  {
    var id, task := saved[k].agentId, saved[k];
    var grown := tasksByAgent[id := (if id in tasksByAgent then tasksByAgent[id] else []) + [task]];
    PrefixSnoc(saved, k);
    forall j ensures Select(saved[..k + 1], TaskAgentId, j)
                     == Select(saved[..k], TaskAgentId, j) + if id == j then [task] else [] {
      SelectSnoc(saved[..k], task, TaskAgentId, j);
    }
    forall j | j in grown ensures grown[j] == Select(saved[..k + 1], TaskAgentId, j) {
      if j != id {
        assert j in tasksByAgent;
      }
    }
    forall j | j !in grown ensures Select(saved[..k + 1], TaskAgentId, j) == [] {
      assert j != id && j !in tasksByAgent;
    }
  }


  /** `tasksByAgent[id] || []` with its length, for one fetched agent. */
  function Entry(a: Agent, tasksByAgent: map<string, seq<Task>>): (e: AgentDistribution)
    ensures e.agent == Summary(a) && e.taskCount == |e.tasks|
    ensures a.id in tasksByAgent ==> e.tasks == tasksByAgent[a.id]
    ensures a.id !in tasksByAgent ==> e.tasks == []
  {
    var ts := if a.id in tasksByAgent then tasksByAgent[a.id] else [];
    AgentDistribution(Summary(a), ts, |ts|)
  }

  lemma {:induction false} TotalCountPrefix(ds: seq<AgentDistribution>, n: nat, m: nat)
    requires |ds| == 5 && m <= 5
    requires forall i :: 0 <= i < 5 ==> ds[i].taskCount == BlockSize(n, i)
    ensures TotalCount(ds[..m]) == BlockStart(n, m)
  {
    if m > 0 {
      TotalCountPrefix(ds, n, m - 1);
      assert ds[..m][..m - 1] == ds[..m - 1];
      BlockStartStep(n, m - 1);
    }
  }

  /** Five entries whose counts are the block sizes account for every row. */
  lemma TotalCountOfBlocks(ds: seq<AgentDistribution>, n: nat)
    requires |ds| == 5
    requires forall i :: 0 <= i < 5 ==> ds[i].taskCount == BlockSize(n, i)
    ensures TotalCount(ds) == n
  {
    TotalCountPrefix(ds, n, 5);
    assert ds[..5] == ds;
    BlockStartLast(n);
  }

  /** The distributed records pass the Task validators exactly when the rows are storable. */
  lemma CreatableRows(rows: seq<CsvRow>, agentIds: seq<string>, uploadId: string, userId: string)
    requires |agentIds| == 5 && uploadId != "" && rows != []
    requires forall id :: id in agentIds ==> id != ""
    requires forall row :: row in rows ==> IsTrimmed(row.firstName) && IsTrimmed(row.phone)
    ensures var d := Distribution(rows, agentIds, uploadId, Some(userId));
      (forall k :: 0 <= k < |d| ==> Creatable(d[k])) <==> Storable(rows, userId)
  {
    var d := Distribution(rows, agentIds, uploadId, Some(userId));
    forall k | 0 <= k < |rows|
      ensures Trim(d[k].firstName) == rows[k].firstName && Trim(d[k].phone) == rows[k].phone
      ensures d[k].agentId != "" && (d[k].userId.Some? <==> userId != "")
    {
      assert rows[k] in rows;
      assert agentIds[AgentFor(|rows|, k)] in agentIds;
      TrimTrimmed(rows[k].firstName);
      TrimTrimmed(rows[k].phone);
    }
    if Storable(rows, userId) {
      forall k | 0 <= k < |d| ensures Creatable(d[k]) {
        assert rows[k] in rows;
      }
    } else if userId != "" {
      var row :| row in rows && (row.firstName == "" || row.phone == "");
      var k :| 0 <= k < |rows| && rows[k] == row;
      assert !Creatable(d[k]);
    } else if rows != [] {
      assert !Creatable(d[0]);
    }
  }


  /** The document built from a stamped row is the row itself, with the schema defaults. */
  lemma DocumentFromRow(row: CsvRow, id: string, agentId: string, uploadId: string, userId: string, nowMs: nat)
    requires userId != "" && IsTrimmed(row.firstName) && IsTrimmed(row.phone) && IsTrimmed(row.notes)
    ensures Stamp(row, agentId, uploadId, Some(userId)).userId.Some?
    ensures SavedFrom(Document(id, Stamp(row, agentId, uploadId, Some(userId)), nowMs), row, agentId, uploadId, userId)
  {
    TrimTrimmed(row.firstName);
    TrimTrimmed(row.phone);
    TrimTrimmed(row.notes);
  }

  /** The documents built from the distributed rows are the rows themselves, stamped. */
  lemma DocumentsFromRows(rows: seq<CsvRow>, agents: seq<Agent>, agentIds: seq<string>, uploadId: string,
                          userId: string, firstId: nat, nowMs: nat, saved: seq<Task>)
    requires |agents| == 5 && agentIds == IdsOf(agents)
    requires userId != ""
    requires forall row :: row in rows ==> IsTrimmed(row.firstName) && IsTrimmed(row.phone) && IsTrimmed(row.notes)
    requires Documents(Distribution(rows, agentIds, uploadId, Some(userId)), firstId, nowMs) == Some(saved)
    ensures SavedAll(saved, rows, agents, uploadId, userId)
    ensures Keys(saved, TaskAgentId) == Keys(Distribution(rows, agentIds, uploadId, Some(userId)), AgentIdOf)
  {
    var d := Distribution(rows, agentIds, uploadId, Some(userId));
    forall k | 0 <= k < |rows|
      ensures saved[k].agentId == d[k].agentId
      ensures SavedFrom(saved[k], rows[k], agents[AgentFor(|rows|, k)].id, uploadId, userId)
    {
      var agentId := agents[AgentFor(|rows|, k)].id;
      assert rows[k] in rows;
      assert d[k] == Stamp(rows[k], agentId, uploadId, Some(userId));
      DocumentFromRow(rows[k], ObjectId(firstId + k), agentId, uploadId, userId, nowMs);
    }
  }

  /** Agent `i` of the five receives its block of the rows. */
  lemma LoadsOf(rows: seq<CsvRow>, agents: seq<Agent>, uploadId: string, userId: string, ks: seq<string>)
    requires |agents| == 5 && DistinctAgentIds(agents)
    requires ks == Keys(Distribution(rows, IdsOf(agents), uploadId, Some(userId)), AgentIdOf)
    ensures forall i :: 0 <= i < 5 ==> CountOf(ks, agents[i].id) == BlockSize(|rows|, i)
  {
    IdsDistinct(agents);
    forall i | 0 <= i < 5 ensures CountOf(ks, agents[i].id) == BlockSize(|rows|, i) {
      AgentLoad(rows, IdsOf(agents), uploadId, Some(userId), i);
    }
  }

  /** Each agent's entry holds its tasks, as many as its block of the rows. */
  lemma EntriesGrouped(n: nat, agents: seq<Agent>, saved: seq<Task>, tasksByAgent: map<string, seq<Task>>)
    requires |agents| == 5
    requires forall i :: 0 <= i < 5 ==> CountOf(Keys(saved, TaskAgentId), agents[i].id) == BlockSize(n, i)
    requires forall id :: id in tasksByAgent ==> tasksByAgent[id] == Select(saved, TaskAgentId, id)
    requires forall id :: id !in tasksByAgent ==> Select(saved, TaskAgentId, id) == []
    ensures GroupedByAgent(seq(5, i requires 0 <= i < 5 => Entry(agents[i], tasksByAgent)), saved, agents, n)
  {
    var result := seq(5, i requires 0 <= i < 5 => Entry(agents[i], tasksByAgent));
    forall i | 0 <= i < 5
      ensures result[i].agent == Summary(agents[i])
      ensures result[i].tasks == Select(saved, TaskAgentId, agents[i].id)
      ensures result[i].taskCount == |result[i].tasks| == BlockSize(n, i)
    {
      assert result[i] == Entry(agents[i], tasksByAgent);
    }
    TotalCountOfBlocks(result, n);
  }

  /** Every saved task lands in its agent's own workspace. */
  lemma SavedInWorkspace(storeAgents: seq<Agent>, saved: seq<Task>, rows: seq<CsvRow>, agents: seq<Agent>,
                         uploadId: string, userId: string)
    requires SavedAll(saved, rows, agents, uploadId, userId)
    requires forall a :: a in agents ==> a in storeAgents && a.userId == userId
    ensures forall t :: t in saved ==> InWorkspace(storeAgents, t)
  {
    forall t | t in saved ensures InWorkspace(storeAgents, t) {
      var k :| 0 <= k < |saved| && saved[k] == t;
      var a := agents[AgentFor(|rows|, k)];
      assert a in agents;
      var p :| 0 <= p < |storeAgents| && storeAgents[p] == a;
    }
  }

  /** Lines 66-71: distribute the rows over the five agents and save them all, or none when
      one fails validation. */
  method SaveRows(store: Store, agents: seq<Agent>, rows: seq<CsvRow>, uploadId: string, userId: string, nowMs: nat)
    returns (r: Option<seq<Task>>)
    requires store.Valid()
    requires |agents| == 5 && DistinctAgentIds(agents)
    requires forall a :: a in agents ==> a in store.agents && a.userId == userId
    requires rows != [] && uploadId != ""
    requires forall row :: row in rows ==> IsTrimmed(row.firstName) && IsTrimmed(row.phone) && IsTrimmed(row.notes)
    modifies store
    ensures store.Valid() && store.agents == old(store.agents) && store.admins == old(store.admins)
    ensures r.None? <==> !Storable(rows, userId)
    ensures r.None? ==> unchanged(store)
    ensures r.Some? ==> store.tasks == old(store.tasks) + r.value
    ensures r.Some? ==> SavedAll(r.value, rows, agents, uploadId, userId)
    ensures r.Some? ==>
      forall i :: 0 <= i < 5 ==> CountOf(Keys(r.value, TaskAgentId), agents[i].id) == BlockSize(|rows|, i)
  {
    var agentIds := IdsOf(agents);
    var distributed := DistributeTasksAmongAgents(rows, agentIds, uploadId, Some(userId));
    forall id | id in agentIds ensures id != "" {
      var i :| 0 <= i < 5 && agentIds[i] == id;
      assert agents[i] in agents;
    }
    CreatableRows(rows, agentIds, uploadId, userId);
    var docs := Documents(distributed.value, store.nextId, nowMs);
    if docs.None? {
      return None;
    }
    DocumentsFromRows(rows, agents, agentIds, uploadId, userId, store.nextId, nowMs, docs.value);
    SavedInWorkspace(store.agents, docs.value, rows, agents, uploadId, userId);
    LoadsOf(rows, agents, uploadId, userId, Keys(docs.value, TaskAgentId));
    store.InsertTasks(docs.value);
    r := docs;
  }

  lemma AppendSlices<T>(a: seq<T>, b: seq<T>)
    ensures (a + b)[..|a|] == a && (a + b)[|a|..] == b
  {
  }

  /** Lines 73-91: the saved tasks grouped by agent, one entry per agent in the agents' order. */
  method Group(saved: seq<Task>, agents: seq<Agent>, n: nat) returns (ds: seq<AgentDistribution>)
    requires |agents| == 5
    requires forall i :: 0 <= i < 5 ==> CountOf(Keys(saved, TaskAgentId), agents[i].id) == BlockSize(n, i)
    ensures GroupedByAgent(ds, saved, agents, n)
  {
    var tasksByAgent := GroupByAgent(saved);
    EntriesGrouped(n, agents, saved, tasksByAgent);
    ds := seq(5, i requires 0 <= i < 5 => Entry(agents[i], tasksByAgent));
  }

  /** Lines 66-91 once the rows are parsed: save them, then group the saved tasks by agent
      in the agents' order. */
  method SaveAndGroup(store: Store, agents: seq<Agent>, rows: seq<CsvRow>, uploadId: string, userId: string, nowMs: nat)
    returns (r: Option<seq<AgentDistribution>>)
    requires store.Valid()
    requires |agents| == 5 && DistinctAgentIds(agents)
    requires forall a :: a in agents ==> a in store.agents && a.userId == userId
    requires rows != [] && uploadId != ""
    requires forall row :: row in rows ==> IsTrimmed(row.firstName) && IsTrimmed(row.phone) && IsTrimmed(row.notes)
    modifies store
    ensures store.Valid() && store.agents == old(store.agents) && store.admins == old(store.admins)
    ensures r.None? <==> !Storable(rows, userId)
    ensures r.None? ==> unchanged(store)
    ensures r.Some? ==> |old(store.tasks)| <= |store.tasks| && store.tasks[..|old(store.tasks)|] == old(store.tasks)
    ensures r.Some? ==> SavedAll(store.tasks[|old(store.tasks)|..], rows, agents, uploadId, userId)
    ensures r.Some? ==> GroupedByAgent(r.value, store.tasks[|old(store.tasks)|..], agents, |rows|)
  {
    var before := store.tasks;
    var saved := SaveRows(store, agents, rows, uploadId, userId, nowMs);
    if saved.None? {
      return None;
    }
    AppendSlices(before, saved.value);
    var ds := Group(saved.value, agents, |rows|);
    r := Some(ds);
  }

  /** The first five agents of a workspace are distinct agents of that workspace. */
  lemma FirstFive(storeAgents: seq<Agent>, userId: string)
    requires DistinctAgentIds(storeAgents) && |AgentsOf(storeAgents, userId)| >= 5
    ensures var agents := AgentsOf(storeAgents, userId)[..5];
      DistinctAgentIds(agents) && forall a :: a in agents ==> a in storeAgents && a.userId == userId
  {
    var found := AgentsOf(storeAgents, userId);
    WorkspaceIdsDistinct(storeAgents, userId);
    forall a | a in found[..5] ensures a in found {
    }
  }

  /** Every extracted row has its fields trimmed. */
  lemma RowsTrimmed(sheet: Sheet)
    requires |sheet| > 0
    ensures forall row :: row in Extracted(sheet) ==>
      IsTrimmed(row.firstName) && IsTrimmed(row.phone) && IsTrimmed(row.notes)
  {
    ExtractAllSound(sheet[1..], FirstNameIndex(sheet[0]), PhoneIndex(sheet[0]), NotesIndex(sheet[0]));
  }

  /** `POST`: each check in turn, and on success the saved tasks grouped by the five agents
      that received them. The token's clock is `nowMs / 1000` seconds; `nowMs` is also the
      upload id and the tasks' creation time. */
  method Post(store: Store, authHeader: Option<string>, decode: string -> Option<SignedToken>,
              nowMs: nat, file: Option<FileUpload>) returns (reply: Reply<UploadBody>)
    requires store.Valid()
    modifies store
    ensures store.Valid() && store.agents == old(store.agents) && store.admins == old(store.admins)
    ensures reply.Error? ==> unchanged(store)
    ensures var user := AuthenticateRequest(authHeader, decode, nowMs / 1000);
      user.None? ==> reply == Error(401, "Unauthorized")
    ensures var user := AuthenticateRequest(authHeader, decode, nowMs / 1000);
      user.Some? && file.None? ==> reply == Error(400, "No file provided")
    ensures var user := AuthenticateRequest(authHeader, decode, nowMs / 1000);
      user.Some? && file.Some? && !AcceptedFile(file.value) ==> reply == Error(400, InvalidFileType)
    ensures var user := AuthenticateRequest(authHeader, decode, nowMs / 1000);
      (user.Some? && file.Some? && AcceptedFile(file.value)
       && |AgentsOf(old(store.agents), user.value.userId)| < 5) ==> reply == Error(400, TooFewAgents)
    ensures var user := AuthenticateRequest(authHeader, decode, nowMs / 1000);
      Admitted(user, file, old(store.agents)) && ParseFailure(file.value.sheet).Some? ==>
        reply == Error(400, "File parsing error: " + ParseErrorMessage(ParseFailure(file.value.sheet).value))
    ensures var user := AuthenticateRequest(authHeader, decode, nowMs / 1000);
      (Admitted(user, file, old(store.agents)) && ParseFailure(file.value.sheet).None?
       && !Storable(Extracted(file.value.sheet), user.value.userId)) ==> reply == Error(500, InternalError)
    ensures var user := AuthenticateRequest(authHeader, decode, nowMs / 1000);
      reply.Ok? <==> (Admitted(user, file, old(store.agents)) && ParseFailure(file.value.sheet).None?
                      && Storable(Extracted(file.value.sheet), user.value.userId))
    ensures var user := AuthenticateRequest(authHeader, decode, nowMs / 1000);
      reply.Ok? ==> (
        && Admitted(user, file, old(store.agents)) && ParseFailure(file.value.sheet).None?
        && var agents := AgentsOf(old(store.agents), user.value.userId)[..5];
           var rows := Extracted(file.value.sheet);
           && reply.status == 200
           && reply.body.uploadId == NatToString(nowMs) && reply.body.totalTasks == |rows|
           && |old(store.tasks)| <= |store.tasks| && store.tasks[..|old(store.tasks)|] == old(store.tasks)
           && SavedAll(store.tasks[|old(store.tasks)|..], rows, agents, NatToString(nowMs), user.value.userId)
           && GroupedByAgent(reply.body.distribution, store.tasks[|old(store.tasks)|..], agents, |rows|))
  {
    var user := AuthenticateRequest(authHeader, decode, nowMs / 1000);
    if user.None? {
      return Error(401, "Unauthorized");
    }
    if file.None? {
      return Error(400, "No file provided");
    }
    var f := file.value;
    if !AcceptedFile(f) {
      return Error(400, InvalidFileType);
    }
    var userId := user.value.userId;
    var found := AgentsOf(store.agents, userId);
    if |found| < 5 {
      return Error(400, TooFewAgents);
    }
    var agents := found[..5];
    var parsed := ParseCsvFile(f.sheet);
    if parsed.Failure? {
      return Error(400, "File parsing error: " + ParseErrorMessage(parsed.error));
    }
    var rows := parsed.value;
    var sheet := f.sheet;
    RowsTrimmed(sheet);
    FirstFive(store.agents, userId);
    var uploadId := NatToString(nowMs);
    var distribution := SaveAndGroup(store, agents, rows, uploadId, userId, nowMs);
    if distribution.None? {
      return Error(500, InternalError);
    }
    return Ok(200, UploadBody(uploadId, |rows|, distribution.value));
  }
}
