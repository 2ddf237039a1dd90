/**
 The source topics: logs that only grow, and the consumer group's committed offsets.
 */
module Kafka {
  import opened Wrappers

  datatype TopicPartition = TopicPartition(topic: string, partition: nat)

  /** A None entry is a null value or an offset that holds no record. */
  type Log = map<TopicPartition, seq<Option<string>>>

  predicate Extends(a: Log, b: Log) {
    forall tp :: tp in a ==> tp in b && a[tp] <= b[tp]
  }

  /** Every committed offset is its old value or the one asked for. */
  predicate Moved(was: map<TopicPartition, nat>, next: map<TopicPartition, nat>, now: map<TopicPartition, nat>) {
    && (forall tp :: tp in was ==> tp in now)
    && (forall tp :: tp in now ==> (tp in was && now[tp] == was[tp]) || (tp in next && now[tp] == next[tp]))
  }

  /** While it is `reachable`, every commit of offsets is applied and acknowledged. */
  class Broker {
    const reachable: bool
    var log: Log
    var committed: map<TopicPartition, nat>
    /** How often a commit of offsets was asked for. */
    var commits: nat

    constructor (log: Log, committed: map<TopicPartition, nat>, reachable: bool)
      ensures this.log == log && this.committed == committed && this.reachable == reachable
    {
      this.log, this.committed, this.reachable, commits := log, committed, reachable, 0;
    }

    /** Producers append. */
    method Produce()
      modifies `log
      ensures Extends(old(log), log)
    {
      var steps: nat := *;
      while steps > 0
        invariant Extends(old(log), log)
      {
        var tp: TopicPartition, message: Option<string> := *, *;
        log := log[tp := (if tp in log then log[tp] else []) + [message]];
        steps := steps - 1;
      }
    }

    /** One synchronous commit. A failed one may have been applied, to all, some or none of the partitions. */
    method Commit(next: map<TopicPartition, nat>) returns (ok: bool)
      modifies `committed, `commits
      ensures commits == old(commits) + 1
      ensures Moved(old(committed), next, committed)
      ensures ok ==> forall tp :: tp in next ==> tp in committed && committed[tp] == next[tp]
      ensures reachable ==> ok
    {
      var applied: set<TopicPartition> := *;
      ok := *;
      ok := ok || reachable;
      commits := commits + 1;
      committed := committed + map tp | tp in next && (ok || tp in applied) :: next[tp];
    }
  }
}
