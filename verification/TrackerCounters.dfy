/** Counter theorems over whole runs: caps, exact subtraction, quiescence, the cleanup queue length. */
module TrackerCounters {
  import opened Tables
  import opened Wrappers
  import opened ShardSpec
  import opened TrackerProtocol
  import opened TrackerInvariants
  import opened TrackerSteps

  /** The invariant holds in every state of every run. */
  lemma {:induction false} RunInv(states: seq<State>, steps: seq<Step>, i: nat)
    requires IsRun(states, steps) && i < |states|
    ensures Inv(states[i])
  {
    hide Apply, Enabled;
    if i == 0 {
      InitInv(states[0]);
    } else {
      RunInv(states, steps, i - 1);
      StepInv(states[i - 1], steps[i - 1]);
    }
  }

  /** In every state of every run each entry counter is the stored entries of all shards plus what the
      tasks owe, so the stored entries never exceed the caps. */
  lemma EntriesNeverExceedCaps(states: seq<State>, steps: seq<Step>, i: nat)
    requires IsRun(states, steps) && i < |states|
    ensures Shaped(states[i])
    ensures states[i].activeCount == Sum(Stored(states[i], Active)) + Sum(Owing(states[i], Active))
    ensures states[i].recentCount == Sum(Stored(states[i], Recent)) + Sum(Owing(states[i], Recent))
    ensures Sum(Stored(states[i], Active)) <= MAX_ACTIVE_IP_ENTRIES
    ensures Sum(Stored(states[i], Recent)) <= MAX_RECENT_IP_ENTRIES
  {
    RunInv(states, steps, i);
    assert Counter(states[i], Active) == Total(states[i], Active);
    assert Counter(states[i], Recent) == Total(states[i], Recent);
  }

  /** With nothing running, the counters are exactly the stored totals. */
  lemma QuiescentCountersAreTotals(states: seq<State>, steps: seq<Step>, i: nat)
    requires IsRun(states, steps) && i < |states|
    requires forall j :: 0 <= j < |states[i].tasks| ==> states[i].tasks[j] == Idle
    ensures Shaped(states[i])
    ensures forall l :: Counter(states[i], l) == Sum(Stored(states[i], l))
  {
    RunInv(states, steps, i);
    forall l
      ensures Counter(states[i], l) == Sum(Stored(states[i], l))
    {
      SumZero(Owing(states[i], l));
      assert Counter(states[i], l) == Total(states[i], l);
    }
  }

  /** What a step takes off a counter is there to take. */
  ghost predicate TakesWhatIsThere(s: State, step: Step, s': State)
    requires Enabled(s, step)
  {
    && (step.SubActive? ==> s.tasks[step.tid].removed <= s.activeCount)
    && (step.Rollback? ==> 1 <= s.activeCount)
    && (step.ClearSubActive? ==> s.tasks[step.tid].removed <= s.activeCount)
    && (step.SubPruned? ==> s.tasks[step.tid].removed <= s.recentCount)
    && (step.CompactSub? ==> s.tasks[step.tid].removed <= s.recentCount)
    && (step.SubRecent? ==> s.tasks[step.tid].removed <= s.recentCount)
    && (step.SubQueueLen? ==> s'.queueLen == s.queueLen - |s.tasks[step.tid].batch|)
    && (step.PopShard? ==> s'.queueLen == s.queueLen - |step.batch|)
  }

  lemma QueueSubtractionIsExact(s: State, step: Step)
    requires Inv(s) && Enabled(s, step) && (step.SubQueueLen? || step.PopShard?)
    ensures TakesWhatIsThere(s, step, Apply(s, step))
  {
    if step.SubQueueLen? {
      SubQueueLenInv(s, step.tid, s.tasks[step.tid].shard, s.tasks[step.tid].batch);
    } else {
      PopShardInv(s, step.tid, step.shard, step.batch);
    }
  }

  lemma CounterSubtractionIsExact(s: State, step: Step, s': State)
    requires Inv(s) && Enabled(s, step) && !step.SubQueueLen? && !step.PopShard?
    ensures TakesWhatIsThere(s, step, s')
  {
    if step.SubActive? || step.Rollback? || step.ClearSubActive? {
      OwedFits(s, step.tid, Active);
    } else if step.SubPruned? || step.CompactSub? || step.SubRecent? {
      OwedFits(s, step.tid, Recent);
    }
  }

  /** No saturating subtraction saturates and no wrapping one wraps, at any step of any run. */
  lemma SubtractionsAreExact(states: seq<State>, steps: seq<Step>, i: nat)
    requires IsRun(states, steps) && i < |steps|
    ensures TakesWhatIsThere(states[i], steps[i], states[i + 1])
  {
    hide Apply, Enabled, TakesWhatIsThere;
    RunInv(states, steps, i);
    if steps[i].SubQueueLen? || steps[i].PopShard? {
      QueueSubtractionIsExact(states[i], steps[i]);
    } else {
      CounterSubtractionIsExact(states[i], steps[i], states[i + 1]);
    }
  }

  // ----- the cleanup queue -----

  /** The distinct queued pairs. */
  ghost function QueuedPairs(s: State): nat
    requires Shaped(s)
  {
    Sum(Stored(s, Queued))
  }

  /** `cleanup_queue_len` is never below the number of queued pairs, and equal to it whenever no
      per-user drain is between taking a user's queue and subtracting it. No user row is empty. */
  lemma QueueLengthCoversPairs(states: seq<State>, steps: seq<Step>, i: nat)
    requires IsRun(states, steps) && i < |states|
    ensures Shaped(states[i])
    ensures QueuedPairs(states[i]) <= states[i].queueLen
    ensures (forall j :: 0 <= j < |states[i].tasks| ==> !states[i].tasks[j].Taken?)
      <==> QueuedPairs(states[i]) == states[i].queueLen
    ensures forall k, u :: 0 <= k < SHARDS && u in states[i].queues[k] ==> states[i].queues[k][u] != map[]
  {
    var s := states[i];
    RunInv(states, steps, i);
    assert Counter(s, Queued) == Total(s, Queued);
    forall k | 0 <= k < SHARDS
      ensures QueueOk(s.queues[k])
    {
      assert QueueAt(s, k);
    }
    if forall j :: 0 <= j < |s.tasks| ==> !s.tasks[j].Taken? {
      SumZero(Owing(s, Queued));
    } else {
      var j :| 0 <= j < |s.tasks| && s.tasks[j].Taken?;
      assert TaskOk(s, s.tasks[j]);
      SumUpdate(Owing(s, Queued), j, 0);
    }
  }

  lemma NonEmptyQueueHasPairs(q: Table<nat>)
    requires QueueOk(q) && q != map[]
    ensures |Pairs(q)| > 0
  {
    var u :| u in q;
    var ip :| ip in q[u];
    assert (u, ip) in Pairs(q);
  }

  /** The fast return on a zero length skips nothing. */
  lemma ZeroLengthMeansEmptyQueues(states: seq<State>, steps: seq<Step>, i: nat, k: nat)
    requires IsRun(states, steps) && i < |states| && k < SHARDS
    requires states[i].queueLen == 0
    ensures Shaped(states[i]) && states[i].queues[k] == map[]
  {
    var s := states[i];
    RunInv(states, steps, i);
    QueueLengthCoversPairs(states, steps, i);
    SumZeroTerms(Stored(s, Queued), k);
    assert QueueAt(s, k);
    if s.queues[k] != map[] {
      NonEmptyQueueHasPairs(s.queues[k]);
    }
  }

  /** A chain of shard drains with nothing enqueued in between. */
  ghost predicate IsDrainChain(queues: seq<Table<nat>>, batches: seq<Batch>) {
    && |queues| == |batches| + 1
    && forall i :: 0 <= i < |batches| ==>
         IsDrain(queues[i], batches[i]) && queues[i + 1] == Without(queues[i], batches[i].Keys)
  }

  /** Each drain takes exactly min(1024, pending) pairs, so `n` of them leave what is over `1024 * n`. */
  lemma {:induction false} RepeatedDrainsEmptyTheQueue(queues: seq<Table<nat>>, batches: seq<Batch>, n: nat)
    requires IsDrainChain(queues, batches) && n < |queues|
    ensures |Pairs(queues[n])| == SatSub(|Pairs(queues[0])|, CLEANUP_DRAIN_BATCH_LIMIT * n)
  {
    if n > 0 {
      RepeatedDrainsEmptyTheQueue(queues, batches, n - 1);
      var batch := batches[n - 1];
      assert |batch| == |batch.Keys|;
      WithoutPairs(queues[n - 1], batch.Keys);
    }
  }
}
