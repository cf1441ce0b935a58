# Task Management System — a verified model of its server core

The Task Management System is a Next.js application. An admin registers agents, uploads a
spreadsheet of contacts (first name, phone, notes), and the server splits the rows evenly
across five of the admin's agents as tasks. Agents sign in with their own token and page
through the tasks assigned to them. The admin lists tasks, grouped by agent for one upload,
and reads analytics: overall counters, per-agent and per-upload counters, a seven-day
completion timeline and the latest completions. Every request is scoped to a workspace: the
admin's id (`userId`) carried by the bearer token.

This project models that core in Dafny:

- `wrappers.dfy`: `Option`, `Result`, a route's JSON reply (`Ok(status, body)` or
  `Error(status, message)`) and JavaScript truthiness of an optional string.
- `text.dfy`: `trim`, `toLowerCase` (ASCII), `includes`, `startsWith`/`endsWith`,
  `substring` and decimal rendering of ids.
- `grouping.dfy`: the sequence vocabulary the routes share: filters, keys, per-key groups,
  first-appearance order of keys, occurrence counts and their sums.
- `csv_parser.dfy`: `parseCSVFile` from the header row onward, and
  `distributeTasksAmongAgents`, both as loops proved against specification functions.
- `agent_model.dfy`, `task_model.dfy`: the Agent and Task records, their setters, validators,
  defaults, the `(email, userId)` unique index and the password-hashing hook (a class, since
  the hook assigns the document's field in place).
- `auth.dfy`: bearer-token extraction, token verification with 24-hour expiry, and request
  authentication.
- `store.dfy`: an in-memory database (a class over sequences of admins, agents and tasks in
  natural order) with the lookups, inserts and the invariant that ties tasks to agents of
  their own workspace.
- `buckets.dfy`: the per-agent entry shared by the upload and task-listing replies.
- One module per route: `upload_route.dfy`, `tasks_route.dfy`, `agents_route.dfy`,
  `agent_login_route.dfy`, `agent_tasks_route.dfy`, `analytics_route.dfy`.

The spreadsheet reader, bcrypt and the JWT signature are parameters: the sheet arrives as
rows of cell texts, `hash` and `compare` are functions supplied by the caller, and `decode`
maps a token string to the signed payload and expiry it carries (or to nothing when its
signature does not check). The clock is a parameter in milliseconds (`nowMs`); tokens see
`nowMs / 1000` seconds. Mongoose's cast of a string to an ObjectId is the `castable`
predicate of the task listing. The database is the `Store` class.

## Model

| member | source | states |
|---|---|---|
| CsvParser.NotesHeaderIsNote | src/lib/csvParser.ts:29-31 | a header names the notes column exactly when its lower-cased text contains "note": the "notes" alternative adds nothing |
| CsvParser.FindIndex | src/lib/csvParser.ts:23-31 | the column index is -1 exactly when no header matches, and otherwise the first matching header |
| CsvParser.ExtractRow | src/lib/csvParser.ts:44-48 | every field of an emitted record is trimmed; notes is "" when there is no notes column |
| CsvParser.ExtractAll | src/lib/csvParser.ts:39-49 | no more records than data rows |
| CsvParser.ExtractAllAppend | src/lib/csvParser.ts:39-49 | extraction distributes over concatenation of the rows, so file order is kept |
| CsvParser.ExtractOne | src/lib/csvParser.ts:40-48 | a row yields its record exactly when it is non-empty and its raw first-name and phone cells are non-empty (before trimming), and nothing otherwise |
| CsvParser.ExtractAllSound | src/lib/csvParser.ts:39-49 | the number of records equals the number of kept rows, and every record is the trimmed image of a kept row |
| CsvParser.ExtractAllEmpty | src/lib/csvParser.ts:39-53 | nothing is extracted exactly when no data row is kept |
| CsvParser.ParseCsvFile | src/lib/csvParser.ts:16-55 | "File is empty" iff the sheet has no row; "Required columns" iff the header row lacks the first-name or phone column; "No valid data rows" iff the columns are there but no row is kept; otherwise the extracted records, non-empty |
| CsvParser.HeaderOnlySheet | src/lib/csvParser.ts:16-53 | a sheet with only a header row extracts nothing, so it fails with "No valid data rows", not "File is empty" |
| CsvParser.AgentFor | src/lib/csvParser.ts:64-72 | the agent whose block holds row k is one of the five |
| CsvParser.StampedUserId | src/lib/csvParser.ts:78 | the owner is stamped exactly when it is truthy, and then it is the given one |
| CsvParser.Distribution | src/lib/csvParser.ts:63-85 | one output item per input row |
| CsvParser.DistributeTasksAmongAgents | src/lib/csvParser.ts:58-86 | fails exactly when the number of agent ids is not five; otherwise the nested loops produce the row-by-row block distribution |
| CsvParser.DistributionKeepsRows | src/lib/csvParser.ts:74-79 | item k carries row k's fields, the upload id, one of the five agent ids, and an owner exactly when one is truthy |
| CsvParser.BlockStartMonotone | src/lib/csvParser.ts:64-70 | block starts never decrease and never pass the number of rows |
| CsvParser.AgentForIsBlock | src/lib/csvParser.ts:67-83 | row k goes to agent i exactly when k lies in agent i's block: blocks are contiguous and tile the rows |
| CsvParser.LoadPrefix | src/lib/csvParser.ts:67-83 | among the first m items, agent i's id occurs as often as the first m rows meet agent i's block |
| CsvParser.AgentLoad | src/lib/csvParser.ts:64-70 | agent i receives exactly floor(n/5) rows, plus one when i < n % 5 |
| CsvParser.BlockLoad | src/lib/csvParser.ts:64-70 | all n rows meet block i in exactly its size |
| CsvParser.DistributionKeys | src/lib/csvParser.ts:74-79 | the agent id of item k is the id of the agent whose block holds k |
| CsvParser.Balanced | src/lib/csvParser.ts:64-70 | no agent receives more than one row more than another, and earlier agents never receive fewer |
| CsvParser.LoadsAddUp | src/lib/csvParser.ts:63-85 | the five loads add up to the number of rows: every row is assigned once |
| CsvParser.TwelveRows | src/lib/csvParser.ts:64-70 | twelve rows give loads 3, 3, 2, 2, 2; no rows give five empty loads |
| Text.Trim | src/lib/csvParser.ts:45-47 | the result has no whitespace at either end and only characters of the input |
| Text.TrimIsSlice | src/lib/csvParser.ts:45-47 | trim keeps a slice of the input and drops only whitespace on either side |
| Text.TrimIdempotent | src/models/Agent.ts:17 | trimming twice is trimming once |
| Text.JsLength | src/app/api/agents/route.ts:55 | `length` counts UTF-16 code units: between the number of characters and twice it, zero only for "" |
| Text.JsLengthOfPlainText | src/app/api/agents/route.ts:55 | without characters above U+FFFF the length is the number of characters |
| Text.EmojiCountTwice | src/models/Agent.ts:33 | three emoji are three characters but have length six |
| Text.ToLower | src/lib/csvParser.ts:24 | same length, no upper-case ASCII letter left |
| Text.ToLowerNoUpper | src/models/Agent.ts:22 | lower-casing a string with no upper-case letter changes nothing |
| Text.ContainsPrefix | src/lib/csvParser.ts:30 | whatever contains a + b contains a |
| Text.Substring | src/lib/auth.ts:25 | `substring(n)` drops the first n characters, or gives "" for a shorter string |
| Text.NatToStringInjective | src/app/api/tasks/upload/route.ts:66 | different numbers render to different decimal strings |
| Auth.SignToken | src/lib/auth.ts:10-12 | the token carries the payload and expires 24 hours (86400 s) after signing |
| Auth.VerifyToken | src/lib/auth.ts:14-20 | a payload exactly when the signature checks and the token has not expired, and then the signed payload |
| Auth.GetTokenFromRequest | src/lib/auth.ts:22-28 | a token exactly when the header exists and starts with "Bearer " (case-sensitive), and then the header is "Bearer " followed by it |
| Auth.BearerRoundTrip | src/lib/auth.ts:24-25 | extracting from "Bearer " + t gives t |
| Auth.AuthenticateRequest | src/lib/auth.ts:30-38 | nothing when no token or an empty token is extracted; whenever a non-empty token is extracted, exactly what verifying that token gives |
| Auth.SignedTokenAuthenticates | src/lib/auth.ts:10-38 | a token signed at time s authenticates as its payload until s + 24 h and not after |
| Auth.FailuresIndistinguishable | src/lib/auth.ts:14-38 | a missing header, another scheme, a bad signature and an expired token all give the same null |
| AgentModel.Summary | src/app/api/tasks/upload/route.ts:83-88 | the agent summary carries the agent's id, name, email and mobile number |
| AgentModel.NormalizeEmail | src/models/Agent.ts:19-24 | a stored email is trimmed and has no upper-case letter |
| AgentModel.NormalizeEmailIdempotent | src/models/Agent.ts:19-24 | normalising a stored email again changes nothing, so lookups by a stored email find it |
| AgentModel.NormalizeEmailIgnoresCase | src/models/Agent.ts:19-24 | an email and its lower-cased form normalise alike |
| AgentModel.AddKeepsUnique | src/models/Agent.ts:44 | adding an agent keeps the (email, userId) index satisfied iff that pair is not taken; the same email under another admin does not block it |
| AgentModel.AgentDocument.constructor | src/models/Agent.ts:13-39 | the setters trim name and mobile number and lower-case and trim the email; the password counts as modified |
| AgentModel.AgentDocument.PreSave | src/models/Agent.ts:46-56 | the password is replaced by its hash only when it was modified; every other field is unchanged |
| AgentModel.AgentDocument.Record | src/models/Agent.ts:13-42 | the stored record carries the document's id, email, owner and password |
| TaskModel.NewTask | src/models/Task.ts:15-58 | a document exists iff the trimmed first name and phone are non-empty and agent, upload and owner are present; it holds the trimmed fields, status pending and no completion fields |
| Store.AgentsOf | src/app/api/agents/route.ts:18 | `Agent.find({ userId })`: exactly the agents of that workspace |
| Store.WorkspaceIdsDistinct | src/app/api/tasks/route.ts:30 | the agents of one workspace keep distinct ids |
| Store.IdsOf | src/app/api/tasks/upload/route.ts:67 | one id per agent, in the agents' order |
| Store.IdsDistinct | src/app/api/tasks/upload/route.ts:67 | distinct agent ids give a list of ids without repeats |
| Store.FindAgent | src/app/api/tasks/route.ts:27 | `populate('agentId')` finds an agent exactly when one has that id |
| Store.FindAdmin | src/app/api/auth/agent-login/route.ts:20 | `populate('userId')` finds an admin with that id, or there is none |
| Store.FindAgentByEmail | src/app/api/auth/agent-login/route.ts:19-20 | the first agent, across all workspaces, whose stored email equals the normalised email, or none has it |
| Store.FindAgentByEmailFirst | src/app/api/auth/agent-login/route.ts:19-20 | `findOne` picks the agent at the first position whose email matches, whatever follows it |
| Store.Documents | src/app/api/tasks/upload/route.ts:71 | `insertMany` builds every document or none: documents exist iff every record is creatable, one per record, each `NewTask` of it |
| Store.Store.NewId | src/app/api/agents/route.ts:70-76 | a fresh id that no agent has and that is not handed out again |
| Store.Store.InsertAgent | src/app/api/agents/route.ts:78 | `save()` appends the agent exactly when its (email, userId) key is not taken, and keeps the store valid |
| Store.Store.InsertTasks | src/app/api/tasks/upload/route.ts:71 | appends the tasks in order and keeps the store valid |
| UploadRoute.UpperCaseExtensionAccepted | src/app/api/tasks/upload/route.ts:36-39 | a name ending in ".XLSX" is accepted whatever its MIME type |
| UploadRoute.TextFileRefused | src/app/api/tasks/upload/route.ts:30-44 | a "notes.txt" file of type text/plain is refused |
| UploadRoute.GroupByAgent | src/app/api/tasks/upload/route.ts:73-80 | the dictionary maps each agent id to exactly that agent's saved tasks in saved order, and ids without tasks are absent |
| UploadRoute.Entry | src/app/api/tasks/upload/route.ts:82-91 | an entry shows the agent, its tasks (or none) and a taskCount equal to their number |
| UploadRoute.TotalCountOfBlocks | src/app/api/tasks/upload/route.ts:93-98 | five entries whose counts are the block sizes add up to the number of rows |
| UploadRoute.CreatableRows | src/app/api/tasks/upload/route.ts:69-71 | the distributed records pass the Task validators exactly when every row has a non-empty first name and phone and the owner is non-empty |
| UploadRoute.DocumentsFromRows | src/app/api/tasks/upload/route.ts:69-71 | the saved tasks are the rows themselves, in order, each stamped with the agent whose block holds it, the upload and the owner |
| UploadRoute.LoadsOf | src/app/api/tasks/upload/route.ts:67-69 | agent i of the five fetched receives exactly its block size of tasks |
| UploadRoute.EntriesGrouped | src/app/api/tasks/upload/route.ts:82-91 | each agent's entry holds exactly its saved tasks, as many as its block size |
| UploadRoute.SavedInWorkspace | src/app/api/tasks/upload/route.ts:46-71 | every saved task names an agent of the caller's own workspace |
| UploadRoute.SaveRows | src/app/api/tasks/upload/route.ts:66-71 | all rows are saved, in order, for their block's agent, or none when a row fails validation (then the store is unchanged) |
| UploadRoute.Group | src/app/api/tasks/upload/route.ts:73-91 | one entry per fetched agent, in fetch order, holding that agent's tasks and its block size as count |
| UploadRoute.SaveAndGroup | src/app/api/tasks/upload/route.ts:66-91 | the rows are saved after the existing tasks and grouped by the five agents |
| UploadRoute.FirstFive | src/app/api/tasks/upload/route.ts:46-52 | `.limit(5)` gives five distinct agents of the caller's workspace when it has at least five |
| UploadRoute.RowsTrimmed | src/lib/csvParser.ts:44-48 | every parsed row has trimmed fields |
| UploadRoute.Post | src/app/api/tasks/upload/route.ts:8-107 | 401 without a token; 400 without a file, for a refused type, for fewer than five agents (more is fine) and for a parse failure (message prefixed "File parsing error: "); 500 when a row fails validation; otherwise every row saved for the first five agents, one entry per agent and totalTasks the number of rows; an error changes nothing |
| TasksRoute.FindTasks | src/app/api/tasks/route.ts:23-27 | exactly the tasks of the caller's workspace, of the upload and of the agent when those are given, in store order |
| TasksRoute.LaterTasksListedLast | src/app/api/tasks/route.ts:27 | tasks saved later are listed after the earlier listing, which is unchanged |
| TasksRoute.SeedStep | src/app/api/tasks/route.ts:33-44 | seeding an entry for the next agent keeps every earlier entry, since ids are distinct |
| TasksRoute.FillStep | src/app/api/tasks/route.ts:46-52 | a task whose agent has an entry is pushed and counted there; any other task is dropped |
| TasksRoute.GroupTasks | src/app/api/tasks/route.ts:29-59 | one entry per workspace agent, in the agents' order, holding exactly that agent's listed tasks and their number, zero included |
| TasksRoute.Values | src/app/api/tasks/route.ts:58 | `Object.values`: the entries in key order |
| TasksRoute.KeysInWorkspace | src/app/api/tasks/route.ts:29-52 | the agent of every listed task is an agent of the caller's workspace |
| TasksRoute.AgentListed | src/app/api/tasks/route.ts:30-44 | a task of the workspace names one of the workspace's agents |
| TasksRoute.CountsAddUp | src/app/api/tasks/route.ts:46-59 | in a valid store no listed task is dropped: the counts add up to totalTasks |
| TasksRoute.Get | src/app/api/tasks/route.ts:7-73 | 401 iff no token; 500 iff the token's user id or a given agentId is not a well-formed ObjectId, since the query's cast fails; otherwise, with an upload and no agent, one entry per workspace agent and totalTasks the number found; otherwise the plain list of found tasks |
| AgentsRoute.View | src/app/api/agents/route.ts:18 | an agent as shown: every stored field but the password |
| AgentsRoute.Views | src/app/api/agents/route.ts:18 | `.select('-password')` on every agent, in order |
| AgentsRoute.Get | src/app/api/agents/route.ts:6-32 | 401 iff no token; otherwise exactly the caller's agents, in store order, without passwords |
| AgentsRoute.Post | src/app/api/agents/route.ts:34-95 | 401, then 400 for a missing field, then 400 for a password shorter than six UTF-16 code units, then 409 iff the normalised email is taken in the caller's workspace, then 500 when a field is blank after trimming; on success (201) exactly one agent, owned by the caller and with its password hashed, is appended and shown without its password |
| AgentsRoute.CreatedAgentIsDuplicate | src/app/api/agents/route.ts:62-68 | creating an agent again in the same workspace, with its email in any case or padding, is refused |
| AgentsRoute.OtherWorkspaceNotTaken | src/app/api/agents/route.ts:62-68 | an email used only in other workspaces is not taken |
| AgentLoginRoute.AgentClaims | src/app/api/auth/agent-login/route.ts:36-43 | the claims are exactly agentId, the owning admin's id, email, name, role "agent" and the admin's email |
| AgentLoginRoute.Login | src/app/api/auth/agent-login/route.ts:6-59 | 400 for a missing email or password; 401 for an unknown email or a wrong password of the first agent with that email; when that password is right, success iff the agent's admin is found, else 500; on success a token for exactly that agent and its admin, and an agent object with role "agent" and no password |
| AgentLoginRoute.SharedEmailFirstAgentDecides | src/app/api/auth/agent-login/route.ts:19-34 | when agents of two workspaces share an email, only the first one's password is checked: a password that fits only the later one gets 401 |
| AgentLoginRoute.UnknownEmailLikeWrongPassword | src/app/api/auth/agent-login/route.ts:21-34 | an unknown email and a wrong password get the very same reply |
| AgentLoginRoute.IssuedTokenAuthenticates | src/app/api/auth/agent-login/route.ts:36-43 | the issued token, for 24 hours, authenticates as an agent of the owning admin's workspace with the agent's id |
| AgentTasksRoute.AssignedTasks | src/app/api/agent/tasks/route.ts:24-37 | exactly the stored tasks with the token's agent id and user id |
| AgentTasksRoute.Window | src/app/api/agent/tasks/route.ts:28-31 | `.skip(skip).limit(limit)`: consecutive tasks from offset skip, at most abs(limit) of them (all when 0), and all that remain or exactly abs(limit) |
| AgentTasksRoute.TotalPages | src/app/api/agent/tasks/route.ts:70 | ceil(total / limit): none for a zero limit, otherwise the ceiling bounds for a positive and a negative limit |
| AgentTasksRoute.HasNextIffMorePages | src/app/api/agent/tasks/route.ts:69-74 | with positive page and limit, hasNext holds exactly when the page is before the last |
| AgentTasksRoute.EveryTaskOnItsPage | src/app/api/agent/tasks/route.ts:19-31 | with a positive limit, task i is on page i / limit + 1 at position i % limit, and that page is within totalPages |
| AgentTasksRoute.EntryOf | src/app/api/agent/tasks/route.ts:50-57 | an entry carries only id, first name, phone, notes and the two timestamps |
| AgentTasksRoute.EntriesOf | src/app/api/agent/tasks/route.ts:50-57 | one entry per task, in order |
| AgentTasksRoute.UploadStep | src/app/api/agent/tasks/route.ts:41-58 | a task of a new upload opens a group headed by it; otherwise it is appended to its upload's group |
| AgentTasksRoute.GroupByUpload | src/app/api/agent/tasks/route.ts:39-58 | one group per upload of the page, in first-appearance order, each holding exactly that upload's tasks in page order |
| AgentTasksRoute.GroupsInOrder | src/app/api/agent/tasks/route.ts:67 | `Object.values`: the groups in key order |
| AgentTasksRoute.GroupSizesAddUp | src/app/api/agent/tasks/route.ts:40-58 | the group sizes add up to the page size |
| AgentTasksRoute.GroupIds | src/app/api/agent/tasks/route.ts:40-58 | group j is for the j-th distinct upload of the page |
| AgentTasksRoute.EachTaskInOneGroup | src/app/api/agent/tasks/route.ts:40-58 | each page task is in the group of its upload, and no other group is for that upload |
| AgentTasksRoute.Get | src/app/api/agent/tasks/route.ts:6-84 | 401 unless the token's role is "agent"; 500 for a negative skip; 500 when the page is non-empty and the admin is missing; otherwise the agent from the token, pagination of the agent's own tasks, and the newest-first page grouped by upload |
| AnalyticsRoute.WorkspaceTasks | src/app/api/analytics/tasks/route.ts:47-49 | exactly the tasks of the caller's workspace |
| AnalyticsRoute.TallyOf | src/app/api/analytics/tasks/route.ts:77-82 | every task counted once in total, and total = completed + pending |
| AnalyticsRoute.TallyOfCounts | src/app/api/analytics/tasks/route.ts:77-82 | completed counts the completed tasks and pending every other task |
| AnalyticsRoute.TallyStep | src/app/api/analytics/tasks/route.ts:59-83 | a task with a new key opens an entry counting it; otherwise it is counted in its key's entry |
| AnalyticsRoute.TallyBy | src/app/api/analytics/tasks/route.ts:57-111 | the dictionary holds one entry per distinct key in first-appearance order, each opened by the key's first task and counting all its tasks |
| AnalyticsRoute.TallyOne | src/app/api/analytics/tasks/route.ts:59-83 | one loop pass keeps the dictionary's invariant for one more task |
| AnalyticsRoute.TalliedEntries | src/app/api/analytics/tasks/route.ts:57-111 | read back: keys in first-appearance order, each entry the tally of its group |
| AnalyticsRoute.TalliesNonEmpty | src/app/api/analytics/tasks/route.ts:57-111 | only keys with a task appear, and each has total = completed + pending |
| AnalyticsRoute.TotalsAddUp | src/app/api/analytics/tasks/route.ts:57-111 | the per-key totals add up to totalTasks |
| AnalyticsRoute.CompletedAddUp | src/app/api/analytics/tasks/route.ts:57-111 | the per-key completed counts add up to completedTasks |
| AnalyticsRoute.AgentPerformance | src/app/api/analytics/tasks/route.ts:57-83 | one entry per agent with a task, in first-appearance order, naming the agent and counting its tasks |
| AnalyticsRoute.UploadSessions | src/app/api/analytics/tasks/route.ts:91-111 | one entry per upload, in first-appearance order, dated by its newest task and counting its tasks |
| AnalyticsRoute.TimelineDays | src/app/api/analytics/tasks/route.ts:126-132 | the seven days ending today, oldest first |
| AnalyticsRoute.EmptyTimeline | src/app/api/analytics/tasks/route.ts:127-132 | a zero counter for exactly the seven days |
| AnalyticsRoute.DayStep | src/app/api/analytics/tasks/route.ts:135-142 | a completion on a day of the window is counted on that day; any other task changes nothing |
| AnalyticsRoute.Buckets | src/app/api/analytics/tasks/route.ts:144 | `Object.values`: each day's counter, in day order |
| AnalyticsRoute.Timeline | src/app/api/analytics/tasks/route.ts:126-144 | exactly seven buckets, oldest first, each counting the completions on its day |
| AnalyticsRoute.TimelineAtMostCompleted | src/app/api/analytics/tasks/route.ts:126-144 | the buckets together count at most completedTasks |
| AnalyticsRoute.RecentCompletions | src/app/api/analytics/tasks/route.ts:146-157 | min(10, number completed) entries, entry i from the i-th completed task of the newest-first list |
| AnalyticsRoute.StoreAgentsKnown | src/app/api/analytics/tasks/route.ts:47-61 | in a valid store every task's agent is found by populate |
| AnalyticsRoute.Get | src/app/api/analytics/tasks/route.ts:8-184 | 401 without a token; 401 for role "agent" or any role other than missing, empty or "admin"; otherwise overview counters, per-agent and per-upload counters, the timeline and the recent completions over the workspace's tasks, newest first |
| AnalyticsRoute.PendingIsNotCompleted | src/app/api/analytics/tasks/route.ts:52-54 | pendingTasks = totalTasks - completedTasks is the number of tasks not completed |

## Left out

- Reading the uploaded file (`XLSX.read`, `sheet_to_json`, `file.arrayBuffer()`): the model starts from the sheet as rows of cell texts. Every cell is read as text, so a numeric cell is its rendered text.
- bcrypt hashing and comparison, and JWT signing and signature checking: these are the `hash`, `compare` and `decode` parameters. The 24-hour expiry is modelled with the jsonwebtoken rule that a token is expired once `now >= exp`.
- CsvParser.ParseCsvFile: every header cell is a text; in JavaScript a blank (hole) or numeric header cell that `findIndex` reaches before finding its column makes `h.toLowerCase()` throw, so `["First Name", <blank>, "Phone"]` fails with a parse error, which the model does not produce.
- CsvParser.ParseCsvFile: a numeric cell is read as its rendered text, so a first-name or phone cell holding the number 0 (falsy in JavaScript, so its row is skipped) is kept by the model as "0".
- UploadRoute.Post: inherits both gaps of the parser: the thrown `TypeError` for a blank or numeric header cell would be a 400 "File parsing error: …" reply, and a row whose first name or phone is the number 0 would be left out.
- Text.ToLower: maps only the ASCII letters A-Z; JavaScript's full Unicode case mapping is not modelled.
- ObjectId well-formedness: the `castable` parameter of `TasksRoute.Get`; the other routes only look up ids that come from the store or from a signed token.
- The clock: `Date.now()` is the `nowMs` parameter. The upload id is its decimal rendering.
- AnalyticsRoute.Timeline: a day is `nowMs / 86400000`, a UTC day. The source builds the seven timeline days from local-time dates and the completion day from the UTC ISO date; the model uses UTC for both.
- Completion rates (`toFixed`, `parseFloat`, percentage division): floating point.
- AnalyticsRoute.UploadSessions: the final sort by `createdAt` is not modelled; the model returns the sessions in newest-first first-appearance order, which that sort leaves as it is when the store's natural order is creation order.
- Newest first: the model takes the store's natural order as creation order, so `sort({ createdAt: -1 })` is the reverse of store order. Ties between equal creation times are not modelled.
- `parseInt` producing NaN for a malformed `page` or `limit`: the parameters are integers or absent.
- Non-string JSON bodies for login and agent creation: fields are optional strings.
- Concurrent requests, database connection failures and partial `insertMany` failures: the store is sequential, and `insertMany` saves all documents or none.
- `populate` of a missing reference: in the task-listing and analytics routes `Store.Valid` rules it out, since every task names an agent of its own workspace. In agent login a missing admin gives 500. In the agent's task listing a non-empty page with no admin gives 500.
- An agent token without an `agentId` matches no task.
- The timestamps and the `_id` object of replies are plain fields of the records; `toObject()` and JSON rendering are not modelled.
- `comparePassword` (src/models/Agent.ts:58-60) is the `compare` parameter applied to the stored hash.
- The routes `src/app/api/agents/[id]/route.ts` and `src/app/api/tasks/[id]/complete/route.ts`, the admin sign-up and login routes, and the `User` model are not part of this model. Stored tasks may therefore carry any status, completion time and completer.
- The user interface, the browser session context and the maintenance scripts are not part of this model.
