/** The part of the distributed task queue (`DistributedDualtreeTaskQueue`,
  * whose source is not part of this model) that the donation builder calls:
  * per-query task lists in priority order, the rank's remaining-work
  * counter, query locking, the cache of received subtables and the creation
  * of new query lists. The contracts are those the builder relies on; the
  * bodies are the simplest state that meets them. */
module TaskQueues {
  import opened SubTables

  /** A pending (query, reference) task: the reference subtable and the
    * estimated work of the pair. */
  datatype Task = Task(reference: SubTableState, work: nat)

  /** The task list of one query subtable, top of the priority order first,
    * and the rank the query originates from. */
  datatype QueryTasks = QueryTasks(query: SubTableState, tasks: seq<Task>, originatingRank: int)

  /** The total estimated work of a sequence of tasks. */
  function TotalWork(tasks: seq<Task>): nat
  {
    if tasks == [] then 0 else tasks[0].work + TotalWork(tasks[1..])
  }

  lemma {:induction false} TotalWorkAppend(a: seq<Task>, b: seq<Task>)
    ensures TotalWork(a + b) == TotalWork(a) + TotalWork(b)
  {
    if a != [] {
      assert (a + b)[1..] == a[1..] + b;
      TotalWorkAppend(a[1..], b);
    } else {
      assert a + b == b;
    }
  }

  /** The work of the first `i + 1` tasks is that of the first `i` plus
    * the work of task `i`. */
  lemma {:induction false} TotalWorkPrefix(tasks: seq<Task>, i: nat)
    requires i < |tasks|
    ensures TotalWork(tasks[..i + 1]) == TotalWork(tasks[..i]) + tasks[i].work
  {
    assert tasks[..i + 1] == tasks[..i] + [tasks[i]];
    TotalWorkAppend(tasks[..i], [tasks[i]]);
    assert TotalWork([tasks[i]]) == tasks[i].work + TotalWork([]);
  }

  class TaskQueue {
    var queues: seq<QueryTasks>
    var remainingLocalComputation: int
    /** The received-subtable cache: block id i holds `cache[i]`, referenced
      * `cacheReferences[i]` times as a reference set. */
    var cache: seq<SubTableState>
    var cacheReferences: seq<int>
    /** The (cache block id, count) pairs handed to `ReleaseCache`, in order. */
    var released: seq<(int, int)>

    constructor ()
      ensures queues == [] && cache == [] && cacheReferences == [] && released == []
      ensures remainingLocalComputation == 0
    {
      queues := [];
      remainingLocalComputation := 0;
      cache := [];
      cacheReferences := [];
      released := [];
    }

    /** `query_subtable(probe_index)`. */
    function QuerySubTable(probe: nat): SubTableState
      reads this
      requires probe < |queues|
    {
      queues[probe].query
    }

    /** `size(probe_index)`: the number of pending tasks of that query. */
    function Size(probe: nat): nat
      reads this
      requires probe < |queues|
    {
      |queues[probe].tasks|
    }

    /** `top(probe_index)`: the highest-priority pending task. */
    function Top(probe: nat): Task
      reads this
      requires probe < |queues| && Size(probe) > 0
    {
      queues[probe].tasks[0]
    }

    /** `pop(probe_index)`: removes the top task of that query. */
    method Pop(probe: nat)
      requires probe < |queues| && Size(probe) > 0
      modifies this`queues
      ensures queues == old(queues)[probe := old(queues[probe]).(tasks := old(queues[probe].tasks)[1..])]
    {
      queues := queues[probe := queues[probe].(tasks := queues[probe].tasks[1..])];
    }

    method DecrementRemainingLocalComputation(amount: nat)
      modifies this`remainingLocalComputation
      ensures remainingLocalComputation == old(remainingLocalComputation) - amount
    {
      remainingLocalComputation := remainingLocalComputation - amount;
    }

    /** `LockQuerySubTable`: the query of that list becomes locked for `rank`. */
    method LockQuerySubTable(probe: nat, rank: int)
      requires probe < |queues|
      modifies this`queues
      ensures queues == old(queues)[probe :=
        old(queues[probe]).(query := old(queues[probe].query).(lockedMpiRank := rank))]
    {
      queues := queues[probe := queues[probe].(query := queues[probe].query.(lockedMpiRank := rank))];
    }

    /** `push_subtable`: stores a received subtable in a fresh cache block
      * and returns the block id. */
    method PushSubTable(s: SubTableState, references: int) returns (id: int)
      modifies this`cache, this`cacheReferences
      ensures id == |old(cache)| && cache == old(cache) + [s]
      ensures cacheReferences == old(cacheReferences) + [references]
    {
      id := |cache|;
      cache := cache + [s];
      cacheReferences := cacheReferences + [references];
    }

    /** `FindSubTable(cache_block_id)`. */
    function FindSubTable(id: int): SubTableState
      reads this
      requires 0 <= id < |cache|
    {
      cache[id]
    }

    /** `PushNewQueue`: opens an empty task list for a received query and
      * returns its index. */
    method PushNewQueue(originatingRank: int, query: SubTableState) returns (position: nat)
      modifies this`queues
      ensures position == |old(queues)| && queues == old(queues) + [QueryTasks(query, [], originatingRank)]
    {
      position := |queues|;
      queues := queues + [QueryTasks(query, [], originatingRank)];
    }

    /** `PushTask`: appends a task against `reference` to list `position`,
      * its work estimated by the metric. */
    method PushTask(metric: (SubTableState, SubTableState) -> nat, position: nat, reference: SubTableState)
      requires position < |queues|
      modifies this`queues
      ensures queues == old(queues)[position := old(queues[position]).(tasks := old(queues[position].tasks) +
                [Task(reference, metric(old(queues[position].query), reference))])]
    {
      var q := queues[position];
      queues := queues[position := q.(tasks := q.tasks + [Task(reference, metric(q.query, reference))])];
    }

    /** `ReleaseCache(world, cache_block_id, count)`: hands back `count`
      * reference claims on a cache block (the messaging behind it is not part
      * of this model; the call is recorded). */
    method ReleaseCache(cacheBlockId: int, count: int)
      modifies this`released
      ensures released == old(released) + [(cacheBlockId, count)]
    {
      released := released + [(cacheBlockId, count)];
    }
  }
}
