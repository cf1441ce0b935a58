/** `GET /api/analytics/tasks` (src/app/api/analytics/tasks/route.ts): an admin's counters over
    the workspace's tasks: the overview, per agent, per upload, completions over the last seven
    days, and the ten most recent completions. */
module AnalyticsRoute {
  import opened Wrappers
  import opened Grouping
  import opened AgentModel
  import opened TaskModel
  import opened Auth
  import opened Store

  const AuthenticationRequired: string := "Authentication required - No valid token"
  const AdminAccessRequired: string := "Unauthorized - Admin access required"

  /** Lines 13-36: a valid token whose role is missing, empty or "admin". */
  predicate IsAdmin(user: Option<Claims>) {
    user.Some? && (!Truthy(user.value.role) || user.value.role == Some("admin"))
  }

  /** Lines 47-49: `Task.find({ userId }).sort({ createdAt: -1 })`, the workspace's tasks
      newest first. */
  function WorkspaceTasks(tasks: seq<Task>, userId: string): (r: seq<Task>)
    ensures |r| <= |tasks|
    ensures forall t :: t in r <==> t in tasks && t.userId == userId
  {
    var mine := Filter(tasks, (t: Task) => t.userId == userId);
    ReverseSameElements(mine);
    Reverse(mine)
  }

  predicate IsPending(t: Task) { !IsCompleted(t) }

  /** Three counters: every task counted, and counted once more as completed or as pending. */
  datatype Tally = Tally(total: nat, completed: nat, pending: nat)

  /** Lines 77-82: one task counted. */
  function Counted(c: Tally, t: Task): Tally {
    if IsCompleted(t) then Tally(c.total + 1, c.completed + 1, c.pending)
    else Tally(c.total + 1, c.completed, c.pending + 1)
  }

  /** The counters after counting `ts` from zero: every task is counted once in `total`
      and once in exactly one of `completed` and `pending`. */
  function TallyOf(ts: seq<Task>): (c: Tally)
    ensures c.total == |ts| && c.total == c.completed + c.pending
  {
    if ts == [] then Tally(0, 0, 0) else Counted(TallyOf(ts[..|ts| - 1]), ts[|ts| - 1])
  }

  /** Any status other than completed counts as pending. */
  lemma {:induction false} TallyOfCounts(ts: seq<Task>)
    ensures TallyOf(ts).completed == |Filter(ts, IsCompleted)|
    ensures TallyOf(ts).pending == |Filter(ts, IsPending)|
  {
    if ts != [] {
      var p, t := ts[..|ts| - 1], ts[|ts| - 1];
      assert ts == p + [t];
      TallyOfCounts(p);
      FilterSnoc(p, t, IsCompleted);
      FilterSnoc(p, t, IsPending);
    }
  }

  lemma TallyOfSnoc(ts: seq<Task>, t: Task)
    ensures TallyOf(ts + [t]) == Counted(TallyOf(ts), t)
  {
    assert (ts + [t])[..|ts|] == ts;
  }

  /** One dictionary entry: the task that opened it, and its counters. */
  datatype Entry = Entry(first: Task, counts: Tally)

  /** The entry of a group of tasks: opened by the first of them, counting all of them. */
  function EntryOfGroup(group: seq<Task>): Entry
    requires group != []
  {
    Entry(group[0], TallyOf(group))
  }

  /** The dictionary after the loop has seen `seen`: keys in first-appearance order, each
      holding the entry of its group so far. */
  ghost predicate TalliedSoFar(order: seq<string>, entries: map<string, Entry>, seen: seq<Task>, key: Task -> string) {
    && order == Distinct(Keys(seen, key))
    && (forall k :: k in entries <==> k in order)
    && forall k :: k in entries ==>
         Select(seen, key, k) != [] && entries[k] == EntryOfGroup(Select(seen, key, k))
  }

  /** A key of no task so far has an empty group. */
  lemma UnseenKey(seen: seq<Task>, key: Task -> string, k: string)
    requires k !in Keys(seen, key)
    ensures Select(seen, key, k) == []
  {
  }

  /** One entry after one more task `t`, given the entry before. */
  lemma EntryStep(before: map<string, Entry>, after: map<string, Entry>, seen: seq<Task>, t: Task,
                  key: Task -> string, k: string)
    requires k in after
    requires k in before ==> Select(seen, key, k) != [] && before[k] == EntryOfGroup(Select(seen, key, k))
    requires k !in before ==> k == key(t) && k !in Keys(seen, key)
    requires k != key(t) && k in before ==> after[k] == before[k]
    requires k == key(t) && k in before ==> after[k] == before[k].(counts := Counted(before[k].counts, t))
    requires k == key(t) && k !in before ==> after[k] == Entry(t, Counted(Tally(0, 0, 0), t))
    ensures Select(seen + [t], key, k) != [] && after[k] == EntryOfGroup(Select(seen + [t], key, k))
  {
    var group := Select(seen, key, k);
    SelectSnoc(seen, t, key, k);
    if k == key(t) {
      if k !in before {
        UnseenKey(seen, key, k);
        assert group + [t] == [t];
      }
      assert Select(seen + [t], key, k) == group + [t];
      TallyOfSnoc(group, t);
    } else {
      assert Select(seen + [t], key, k) == group;
    }
  }

  /** Lines 59-83 and 93-111: a task whose key is new opens an entry holding it, with zero
      counters; the task is then counted in its key's entry. */
  lemma TallyStep(order: seq<string>, entries: map<string, Entry>, order': seq<string>, entries': map<string, Entry>,
                  seen: seq<Task>, t: Task, key: Task -> string)
    requires TalliedSoFar(order, entries, seen, key)
    requires order' == if key(t) in entries then order else order + [key(t)]
    requires forall k :: k in entries' <==> k in entries || k == key(t)
    requires forall k :: k in entries && k != key(t) ==> entries'[k] == entries[k]
    requires key(t) in entries ==> entries'[key(t)] == entries[key(t)].(counts := Counted(entries[key(t)].counts, t))
    requires key(t) !in entries ==> entries'[key(t)] == Entry(t, Counted(Tally(0, 0, 0), t))
    ensures TalliedSoFar(order', entries', seen + [t], key)
  {
    assert key(t) in entries <==> key(t) in order;
    FirstSeenStep(order, order', seen, t, key);
    forall k | k in entries'
      ensures Select(seen + [t], key, k) != [] && entries'[k] == EntryOfGroup(Select(seen + [t], key, k))
    {
      if k !in entries {
        assert k !in Distinct(Keys(seen, key));
      }
      EntryStep(entries, entries', seen, t, key, k);
    }
  }

  /** The shared shape of the per-agent and per-upload loops: a dictionary keyed by `key`,
      filled in one pass, holding for each key the task that opened its entry and its
      counters. */
  method TallyBy(all: seq<Task>, key: Task -> string) returns (order: seq<string>, entries: map<string, Entry>)
    ensures TalliedSoFar(order, entries, all, key)
  {
    order, entries := [], map[];
    assert all[..0] == [];
    for i := 0 to |all|
      invariant TalliedSoFar(order, entries, all[..i], key)
    {
      order, entries := TallyOne(order, entries, all[..i], all[i], key);
      PrefixSnoc(all, i);
    }
    assert all[..|all|] == all;
  }

  /** One pass of the loop body: open the task's entry if its key is new, then count it. */
  method TallyOne(order: seq<string>, entries: map<string, Entry>, ghost seen: seq<Task>, t: Task, key: Task -> string)
    returns (order': seq<string>, entries': map<string, Entry>)
    requires TalliedSoFar(order, entries, seen, key)
    ensures TalliedSoFar(order', entries', seen + [t], key)
  {
    var k := key(t);
    order', entries' := order, entries;
    if k !in entries' {
      entries' := entries'[k := Entry(t, Tally(0, 0, 0))];
      order' := order' + [k];
    }
    var entry := entries'[k];
    entries' := entries'[k := entry.(counts := Counted(entry.counts, t))];
    TallyStep(order, entries, order', entries', seen, t, key);
  }

  /** Read back from the filled dictionary: each key in order, the task that opened its entry
      (a task of the list with that key) and its counters. */
  lemma TalliedEntries(order: seq<string>, entries: map<string, Entry>, all: seq<Task>, key: Task -> string)
    requires TalliedSoFar(order, entries, all, key)
    ensures order == Distinct(Keys(all, key))
    ensures forall i :: 0 <= i < |order| ==>
              && order[i] in entries && Select(all, key, order[i]) != []
              && entries[order[i]].first in all && key(entries[order[i]].first) == order[i]
              && entries[order[i]] == EntryOfGroup(Select(all, key, order[i]))
  {
    forall i | 0 <= i < |order| ensures entries[order[i]].first in all && key(entries[order[i]].first) == order[i] {
      assert entries[order[i]].first in Select(all, key, order[i]);
    }
  }

  /** The counters of one entry per distinct key, in first-appearance order. */
  predicate TalliedBy(cs: seq<Tally>, all: seq<Task>, key: Task -> string) {
    var ids := Distinct(Keys(all, key));
    |cs| == |ids| && forall i :: 0 <= i < |ids| ==> cs[i] == TallyOf(Select(all, key, ids[i]))
  }

  function Total(c: Tally): nat { c.total }
  function Completed(c: Tally): nat { c.completed }

  function SumOf(cs: seq<Tally>, f: Tally -> nat): nat {
    if cs == [] then 0 else SumOf(cs[..|cs| - 1], f) + f(cs[|cs| - 1])
  }

  lemma {:induction false} SumOfCounts(cs: seq<Tally>, f: Tally -> nat, ks: seq<string>, ids: seq<string>)
    requires |cs| == |ids|
    requires forall i :: 0 <= i < |cs| ==> f(cs[i]) == CountOf(ks, ids[i])
    ensures SumOf(cs, f) == SumCounts(ks, ids)
  {
    if cs != [] {
      SumOfCounts(cs[..|cs| - 1], f, ks, ids[..|ids| - 1]);
    }
  }

  /** Per key: only keys with a task appear, and total = completed + pending. */
  lemma TalliesNonEmpty(cs: seq<Tally>, all: seq<Task>, key: Task -> string)
    requires TalliedBy(cs, all, key)
    ensures forall i :: 0 <= i < |cs| ==> cs[i].total >= 1 && cs[i].total == cs[i].completed + cs[i].pending
  {
    var ks := Keys(all, key);
    var ids := Distinct(ks);
    forall i | 0 <= i < |cs| ensures cs[i].total >= 1 {
      assert ids[i] in ks;
    }
  }

  /** The totals over all keys add up to the number of tasks. */
  lemma TotalsAddUp(cs: seq<Tally>, all: seq<Task>, key: Task -> string)
    requires TalliedBy(cs, all, key)
    ensures SumOf(cs, Total) == |all|
  {
    var ks := Keys(all, key);
    SumOfCounts(cs, Total, ks, Distinct(ks));
    SumCountsOfDistinct(ks);
  }

  /** Every key of a completed task is a key of the list. */
  lemma DoneKeysListed(all: seq<Task>, key: Task -> string)
    ensures forall k :: k in Keys(Filter(all, IsCompleted), key) ==> k in Distinct(Keys(all, key))
  {
    var done := Filter(all, IsCompleted);
    var doneKeys := Keys(done, key);
    forall k | k in doneKeys ensures k in Distinct(Keys(all, key)) {
      var j :| 0 <= j < |doneKeys| && doneKeys[j] == k;
      KeyIn(all, done[j], key);
    }
  }

  /** The completed counts over all keys add up to the number of completed tasks. */
  lemma CompletedAddUp(cs: seq<Tally>, all: seq<Task>, key: Task -> string)
    requires TalliedBy(cs, all, key)
    ensures SumOf(cs, Completed) == |Filter(all, IsCompleted)|
  {
    var ids := Distinct(Keys(all, key));
    var doneKeys := Keys(Filter(all, IsCompleted), key);
    forall i | 0 <= i < |cs| ensures Completed(cs[i]) == CountOf(doneKeys, ids[i]) {
      TallyOfCounts(Select(all, key, ids[i]));
      FilterSelect(all, IsCompleted, key, ids[i]);
    }
    SumOfCounts(cs, Completed, doneKeys, ids);
    SumCountsIsCountIn(doneKeys, ids);
    DoneKeysListed(all, key);
    CountInAll(doneKeys, ids);
  }

  /** The populated `agentId`: the agent's id, name and email. */
  datatype AgentRef = AgentRef(id: string, name: string, email: string)

  function RefOf(a: Agent): AgentRef { AgentRef(a.id, a.name, a.email) }

  datatype AgentStat = AgentStat(agent: AgentRef, counts: Tally)
  datatype UploadStat = UploadStat(uploadId: string, createdAt: int, counts: Tally)

  /** The tallies of a list of entries, in order; `counts` picks an entry's tally. */
  function Tallies<S>(stats: seq<S>, counts: S -> Tally): (cs: seq<Tally>)
    ensures |cs| == |stats| && forall i :: 0 <= i < |stats| ==> cs[i] == counts(stats[i])
  {
    seq(|stats|, i requires 0 <= i < |stats| => counts(stats[i]))
  }

  /** Lines 57-83: one entry per agent with a task, in first-appearance order, naming the
      agent and counting its tasks. */
  predicate AgentPerformanceOf(stats: seq<AgentStat>, all: seq<Task>, agents: seq<Agent>) {
    var ids := Distinct(Keys(all, TaskAgentId));
    && TalliedBy(Tallies(stats, (st: AgentStat) => st.counts), all, TaskAgentId)
    && forall i :: 0 <= i < |ids| ==>
         HasAgent(agents, ids[i]) && stats[i].agent == RefOf(FindAgent(agents, ids[i]).value)
  }

  /** Lines 91-111: one entry per upload, in first-appearance order, dated by its first (that
      is, newest) task and counting its tasks. */
  predicate UploadSessionsOf(stats: seq<UploadStat>, all: seq<Task>) {
    var ids := Distinct(Keys(all, TaskUploadId));
    && TalliedBy(Tallies(stats, (st: UploadStat) => st.counts), all, TaskUploadId)
    && forall i :: 0 <= i < |ids| ==>
         Select(all, TaskUploadId, ids[i]) != []
         && stats[i].uploadId == ids[i] && stats[i].createdAt == Select(all, TaskUploadId, ids[i])[0].createdAt
  }

  /** Every task of the list refers to an agent of the store. */
  predicate AgentsKnown(all: seq<Task>, agents: seq<Agent>) {
    forall t :: t in all ==> HasAgent(agents, t.agentId)
  }

  lemma AgentStatsFromTallies(order: seq<string>, entries: map<string, Entry>, all: seq<Task>,
                              agents: seq<Agent>, stats: seq<AgentStat>)
    requires TalliedSoFar(order, entries, all, TaskAgentId) && AgentsKnown(all, agents)
    requires |stats| == |order|
    requires forall i :: 0 <= i < |order| ==>
               order[i] in entries && HasAgent(agents, entries[order[i]].first.agentId)
               && stats[i] == AgentStat(RefOf(FindAgent(agents, entries[order[i]].first.agentId).value),
                                        entries[order[i]].counts)
    ensures AgentPerformanceOf(stats, all, agents)
  {
    TalliedEntries(order, entries, all, TaskAgentId);
  }

  /** Lines 57-83, with the agent of each entry populated from the task that opened it. */
  method AgentPerformance(all: seq<Task>, agents: seq<Agent>) returns (stats: seq<AgentStat>)
    requires AgentsKnown(all, agents)
    ensures AgentPerformanceOf(stats, all, agents)
  {
    var order, entries := TallyBy(all, TaskAgentId);
    TalliedEntries(order, entries, all, TaskAgentId);
    stats := seq(|order|, i requires 0 <= i < |order| && order[i] in entries
                                     && HasAgent(agents, entries[order[i]].first.agentId) =>
                   AgentStat(RefOf(FindAgent(agents, entries[order[i]].first.agentId).value), entries[order[i]].counts));
    AgentStatsFromTallies(order, entries, all, agents, stats);
  }

  lemma UploadStatsFromTallies(order: seq<string>, entries: map<string, Entry>, all: seq<Task>, stats: seq<UploadStat>)
    requires TalliedSoFar(order, entries, all, TaskUploadId)
    requires |stats| == |order|
    requires forall i :: 0 <= i < |order| ==>
               order[i] in entries
               && stats[i] == UploadStat(order[i], entries[order[i]].first.createdAt, entries[order[i]].counts)
    ensures UploadSessionsOf(stats, all)
  {
    TalliedEntries(order, entries, all, TaskUploadId);
  }

  /** Lines 91-111, with each entry dated by the task that opened it. */
  method UploadSessions(all: seq<Task>) returns (stats: seq<UploadStat>)
    ensures UploadSessionsOf(stats, all)
  {
    var order, entries := TallyBy(all, TaskUploadId);
    TalliedEntries(order, entries, all, TaskUploadId);
    stats := seq(|order|, i requires 0 <= i < |order| && order[i] in entries =>
                   UploadStat(order[i], entries[order[i]].first.createdAt, entries[order[i]].counts));
    UploadStatsFromTallies(order, entries, all, stats);
  }

  const MsPerDay: int := 86400000

  /** The UTC day of a completed task's completion time, if it has one. */
  function CompletionDay(t: Task): Option<int> {
    if IsCompleted(t) && t.completedAt.Some? then Some(t.completedAt.value / MsPerDay) else None
  }

  datatype DayCount = DayCount(day: int, completed: nat)

  /** Lines 126-132: the seven days ending today, oldest first. */
  function TimelineDays(today: int): (days: seq<int>)
    ensures |days| == 7 && forall i :: 0 <= i < 7 ==> days[i] == today - 6 + i
  {
    seq(7, i requires 0 <= i < 7 => today - 6 + i)
  }

  /** The day counters after the loop has seen tasks with completion days `ks`: one per day of
      the window, each the number of completions on that day so far. */
  ghost predicate CountedDays(timelineMap: map<int, nat>, days: seq<int>, ks: seq<Option<int>>) {
    && (forall d :: d in timelineMap <==> d in days)
    && forall d :: d in timelineMap ==> timelineMap[d] == CountOf(ks, Some(d))
  }

  /** Lines 135-142: a completion on a day of the window is counted on that day; any other
      task changes nothing. */
  lemma DayStep(before: map<int, nat>, after: map<int, nat>, days: seq<int>, ks: seq<Option<int>>, x: Option<int>)
    requires CountedDays(before, days, ks)
    requires x.Some? && x.value in before ==> after == before[x.value := before[x.value] + 1]
    requires !(x.Some? && x.value in before) ==> after == before
    ensures CountedDays(after, days, ks + [x])
  {
    forall d | d in after ensures after[d] == CountOf(ks + [x], Some(d)) {
      CountOfSnoc(ks, x, Some(d));
    }
  }

  /** Lines 126-144: seven day buckets, oldest first, each counting the tasks whose completion
      day (in `ks`) is that day; completions outside the window are not counted. */
  predicate TimelineOf(timeline: seq<DayCount>, ks: seq<Option<int>>, today: int) {
    && |timeline| == 7
    && forall i :: 0 <= i < 7 ==> timeline[i] == DayCount(today - 6 + i, CountOf(ks, Some(today - 6 + i)))
  }

  /** Lines 127-132: a zero counter for each of the seven days. */
  method EmptyTimeline(today: int) returns (timelineMap: map<int, nat>)
    ensures forall d :: d in timelineMap <==> today - 6 <= d <= today
    ensures forall d :: d in timelineMap ==> timelineMap[d] == 0
  {
    timelineMap := map[];
    for i := 7 downto 0
      invariant forall d :: d in timelineMap <==> today - 6 <= d <= today - i
      invariant forall d :: d in timelineMap ==> timelineMap[d] == 0
    {
      timelineMap := timelineMap[today - i := 0];
    }
  }

  /** `Object.values(timelineMap)`: the counters of the seven days, oldest first. */
  function Buckets(timelineMap: map<int, nat>, days: seq<int>): (r: seq<DayCount>)
    requires forall i :: 0 <= i < |days| ==> days[i] in timelineMap
    ensures |r| == |days| && forall i :: 0 <= i < |days| ==> r[i] == DayCount(days[i], timelineMap[days[i]])
  {
    seq(|days|, i requires 0 <= i < |days| => DayCount(days[i], timelineMap[days[i]]))
  }

  lemma BucketsTimeline(timelineMap: map<int, nat>, ks: seq<Option<int>>, today: int)
    requires CountedDays(timelineMap, TimelineDays(today), ks)
    ensures forall i :: 0 <= i < 7 ==> TimelineDays(today)[i] in timelineMap
    ensures TimelineOf(Buckets(timelineMap, TimelineDays(today)), ks, today)
  {
    var days := TimelineDays(today);
    var timeline := Buckets(timelineMap, days);
    forall i | 0 <= i < 7 ensures timeline[i] == DayCount(today - 6 + i, CountOf(ks, Some(today - 6 + i))) {
      assert days[i] == today - 6 + i && days[i] in timelineMap;
    }
  }

  method Timeline(all: seq<Task>, today: int) returns (timeline: seq<DayCount>)
    ensures TimelineOf(timeline, Keys(all, CompletionDay), today)
  {
    var days := TimelineDays(today);
    var timelineMap := EmptyTimeline(today);
    assert CountedDays(timelineMap, days, Keys(all[..0], CompletionDay)) by {
      forall d ensures d in timelineMap <==> d in days {
        if today - 6 <= d <= today {
          assert days[d - today + 6] == d;
        }
      }
    }
    for k := 0 to |all|
      invariant CountedDays(timelineMap, days, Keys(all[..k], CompletionDay))
    {
      var task := all[k];
      var before := timelineMap;
      var day := CompletionDay(task);
      if day.Some? && day.value in timelineMap {
        timelineMap := timelineMap[day.value := timelineMap[day.value] + 1];
      }
      DayStep(before, timelineMap, days, Keys(all[..k], CompletionDay), day);
      KeysSnoc(all[..k], task, CompletionDay);
      PrefixSnoc(all, k);
    }
    assert all[..|all|] == all;
    BucketsTimeline(timelineMap, Keys(all, CompletionDay), today);
    timeline := Buckets(timelineMap, days);
  }

  function DaysTotal(timeline: seq<DayCount>): nat {
    if timeline == [] then 0 else DaysTotal(timeline[..|timeline| - 1]) + timeline[|timeline| - 1].completed
  }

  lemma {:induction false} DaysTotalIsSumCounts(timeline: seq<DayCount>, ks: seq<Option<int>>, days: seq<Option<int>>)
    requires |timeline| == |days|
    requires forall i :: 0 <= i < |timeline| ==> timeline[i].completed == CountOf(ks, days[i])
    ensures DaysTotal(timeline) == SumCounts(ks, days)
  {
    if timeline != [] {
      DaysTotalIsSumCounts(timeline[..|timeline| - 1], ks, days[..|days| - 1]);
    }
  }

  /** Completion days that fall among `days` are completion days of completed tasks. */
  lemma {:induction false} CountInAtMostCompleted(all: seq<Task>, days: seq<Option<int>>)
    requires None !in days
    ensures CountIn(Keys(all, CompletionDay), days) <= |Filter(all, IsCompleted)|
  {
    if all != [] {
      var p, t := all[..|all| - 1], all[|all| - 1];
      assert all == p + [t];
      CountInAtMostCompleted(p, days);
      KeysSnoc(p, t, CompletionDay);
      assert (Keys(p, CompletionDay) + [CompletionDay(t)])[..|p|] == Keys(p, CompletionDay);
      FilterSnoc(p, t, IsCompleted);
    }
  }

  /** The seven buckets together count at most the completed tasks. */
  lemma TimelineAtMostCompleted(timeline: seq<DayCount>, all: seq<Task>, today: int)
    requires TimelineOf(timeline, Keys(all, CompletionDay), today)
    ensures DaysTotal(timeline) <= |Filter(all, IsCompleted)|
  {
    var days := seq(7, i requires 0 <= i < 7 => Some(today - 6 + i));
    var ks := Keys(all, CompletionDay);
    DaysTotalIsSumCounts(timeline, ks, days);
    assert NoDuplicates(days);
    SumCountsIsCountIn(ks, days);
    CountInAtMostCompleted(all, days);
  }

  /** One entry of `recentCompletions`. */
  datatype Completion = Completion(id: string, firstName: string, phone: string, agentName: string,
                                   completedAt: Option<int>, uploadId: string)

  function CompletionOf(t: Task, agents: seq<Agent>): Completion
    requires HasAgent(agents, t.agentId)
  {
    Completion(t.id, t.firstName, t.phone, FindAgent(agents, t.agentId).value.name, t.completedAt, t.uploadId)
  }

  const RecentLimit: nat := 10

  /** Lines 146-157: the first ten completed tasks of the newest-first list, or all of them
      when there are fewer. */
  function RecentCompletions(all: seq<Task>, agents: seq<Agent>): (r: seq<Completion>)
    requires AgentsKnown(all, agents)
    ensures |r| <= RecentLimit
    ensures |r| == if |Filter(all, IsCompleted)| < RecentLimit then |Filter(all, IsCompleted)| else RecentLimit
    ensures forall i :: 0 <= i < |r| ==>
              var t := Filter(all, IsCompleted)[i];
              t in all && IsCompleted(t) && r[i] == CompletionOf(t, agents)
  {
    var done := Filter(all, IsCompleted);
    var n := if |done| < RecentLimit then |done| else RecentLimit;
    assert forall t :: t in done ==> t in all;
    seq(n, i requires 0 <= i < n => CompletionOf(done[i], agents))
  }

  datatype Overview = Overview(totalTasks: nat, completedTasks: nat, pendingTasks: int)

  datatype Analytics = Analytics(overview: Overview, agentPerformance: seq<AgentStat>,
                                 uploadSessions: seq<UploadStat>, completionTimeline: seq<DayCount>,
                                 recentCompletions: seq<Completion>)

  /** Every task of the store refers to an agent of the store, so every populate finds one. */
  lemma StoreAgentsKnown(store: Store, all: seq<Task>)
    requires store.Valid()
    requires forall t :: t in all ==> t in store.tasks
    ensures AgentsKnown(all, store.agents)
  {
    forall t | t in all ensures HasAgent(store.agents, t.agentId) {
      var i :| 0 <= i < |store.agents| && store.agents[i].id == t.agentId && store.agents[i].userId == t.userId;
    }
  }

  /** `GET`: 401 without a valid token, 401 for an agent's or any other non-admin role;
      otherwise the counters over the workspace's tasks, newest first. */
  method Get(store: Store, authHeader: Option<string>, decode: string -> Option<SignedToken>, nowMs: int)
    returns (reply: Reply<Analytics>)
    requires store.Valid()
    ensures var user := AuthenticateRequest(authHeader, decode, nowMs / 1000);
      user.None? ==> reply == Error(401, AuthenticationRequired)
    ensures var user := AuthenticateRequest(authHeader, decode, nowMs / 1000);
      user.Some? && !IsAdmin(user) ==> reply == Error(401, AdminAccessRequired)
    ensures var user := AuthenticateRequest(authHeader, decode, nowMs / 1000);
      IsAdmin(user) ==>
        var all := WorkspaceTasks(store.tasks, user.value.userId);
        var today := nowMs / MsPerDay;
        && reply.Ok? && reply.status == 200
        && reply.body.overview.totalTasks == |all|
        && reply.body.overview.completedTasks == |Filter(all, IsCompleted)|
        && reply.body.overview.pendingTasks == |all| - |Filter(all, IsCompleted)|
        && AgentPerformanceOf(reply.body.agentPerformance, all, store.agents)
        && UploadSessionsOf(reply.body.uploadSessions, all)
        && TimelineOf(reply.body.completionTimeline, Keys(all, CompletionDay), today)
        && AgentsKnown(all, store.agents)
        && reply.body.recentCompletions == RecentCompletions(all, store.agents)
  {
    var user := AuthenticateRequest(authHeader, decode, nowMs / 1000);
    if user.None? {
      return Error(401, AuthenticationRequired);
    }
    if !IsAdmin(user) {
      return Error(401, AdminAccessRequired);
    }
    var all := WorkspaceTasks(store.tasks, user.value.userId);
    StoreAgentsKnown(store, all);
    var totalTasks := |all|;
    var completedTasks := |Filter(all, IsCompleted)|;
    var agentPerformance := AgentPerformance(all, store.agents);
    var uploadSessions := UploadSessions(all);
    var timeline := Timeline(all, nowMs / MsPerDay);
    var overview := Overview(totalTasks, completedTasks, totalTasks - completedTasks);
    return Ok(200, Analytics(overview, agentPerformance, uploadSessions, timeline,
                             RecentCompletions(all, store.agents)));
  }

  /** The overview's pending count is the number of tasks not completed. */
  lemma PendingIsNotCompleted(all: seq<Task>)
    ensures |all| - |Filter(all, IsCompleted)| == |Filter(all, IsPending)|
  {
    TallyOfCounts(all);
  }
}
