/** The per-agent entries that the upload and task-listing replies share: an agent, its
    tasks, and how many there are. */
module Buckets {
  import opened Grouping
  import opened AgentModel
  import opened TaskModel

  /** One entry of a reply's `distribution`. */
  datatype AgentDistribution = AgentDistribution(agent: AgentSummary, tasks: seq<Task>, taskCount: nat)

  /** The `taskCount`s of a distribution, added up. */
  function TotalCount(ds: seq<AgentDistribution>): nat {
    if ds == [] then 0 else TotalCount(ds[..|ds| - 1]) + ds[|ds| - 1].taskCount
  }

  /** When entry `i` counts the occurrences of `ids[i]` among the keys `ks`, the counts add up
      to the sizes of the groups named by `ids`. */
  lemma {:induction false} TotalCountIsSumCounts(ds: seq<AgentDistribution>, ks: seq<string>, ids: seq<string>)
    requires |ds| == |ids|
    requires forall i :: 0 <= i < |ds| ==> ds[i].taskCount == CountOf(ks, ids[i])
    ensures TotalCount(ds) == SumCounts(ks, ids)
  {
    if ds != [] {
      TotalCountIsSumCounts(ds[..|ds| - 1], ks, ids[..|ids| - 1]);
    }
  }
}
