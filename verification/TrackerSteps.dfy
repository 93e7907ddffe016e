/** Every step of the tracker keeps the invariant: one lemma a step. */
module TrackerSteps {
  import opened Tables
  import opened Wrappers
  import opened ShardSpec
  import opened TrackerProtocol
  import opened TrackerInvariants

  // ----- cleanup queues -----

  /** A step that changes one queue and no shard. */
  lemma QueueStepInv(s: State, s': State, tid: nat, k: nat)
    requires Inv(s) && Local(s, s', tid, k)
    requires s'.shards == s.shards
    requires s.tasks[tid] == Idle
    requires s'.tasks[tid] == Idle || s'.tasks[tid].Taken? || s'.tasks[tid].Popped?
    requires TaskOk(s', s'.tasks[tid])
    requires QueueAt(s', k)
    requires s'.activeCount == s.activeCount && s'.recentCount == s.recentCount
    requires s'.queueLen < U64_SIZE
    requires Moves(s, s', tid, k, Queued)
    ensures Inv(s')
  {
    StructureKept(s, s', tid, k);
    forall l
      ensures Moves(s, s', tid, k, l)
    {
    }
    BalanceKept(s, s', tid, k);
  }

  lemma EnqueueInv(s: State, tid: nat, p: Pair)
    requires Inv(s) && At(s, tid, Idle) && s.queueLen + 1 < U64_SIZE
    ensures Inv(DoEnqueue(s, p))
  {
    var k := ShardIdx(s, p.0);
    var s' := DoEnqueue(s, p);
    assert QueueAt(s, k);
    EnqueuedOk(s.queues[k], p);
    assert QueueAt(s', k);
    QueueStepInv(s, s', tid, k);
  }

  lemma TakeUserInv(s: State, tid: nat, u: User)
    requires Inv(s) && At(s, tid, Idle)
    ensures Inv(DoTakeUser(s, tid, u))
  {
    var k := ShardIdx(s, u);
    var s' := DoTakeUser(s, tid, u);
    var row := Row(s.queues[k], u);
    assert QueueAt(s, k);
    DropUserPairs(s.queues[k], u);
    RowBatchSize(u, row);
    assert row == map[] ==> RowBatch(u, row) == map[];
    assert QueueAt(s', k);
    QueueStepInv(s, s', tid, k);
  }

  lemma QueueShareFits(s: State, tid: nat, k: nat)
    requires Inv(s) && tid < |s.tasks| && k < SHARDS
    ensures |Pairs(s.queues[k])| <= s.queueLen < U64_SIZE
  {
    LedgerStep(s, s, tid, k, Queued);
    assert Counter(s, Queued) == Total(s, Queued);
  }

  lemma DrainOk(s: State, k: nat, batch: Batch)
    requires Shaped(s) && k < SHARDS && QueueAt(s, k) && IsDrain(s.queues[k], batch)
    ensures |Pairs(Without(s.queues[k], batch.Keys))| == |Pairs(s.queues[k])| - |batch|
    ensures QueueOk(Without(s.queues[k], batch.Keys))
    ensures batch != map[] ==> BatchOk(s, k, batch)
  {
    assert |batch| == |batch.Keys|;
    WithoutPairs(s.queues[k], batch.Keys);
    WithoutOk(s.queues[k], batch.Keys);
    forall p | p in batch
      ensures ShardIdx(s, p.0) == k && batch[p] > 0
    {
      assert p in Pairs(s.queues[k]);
    }
  }

  lemma PopFacts(s: State, tid: nat, k: nat, batch: Batch, rest: Table<nat>)
    requires Inv(s) && At(s, tid, Idle) && k < SHARDS && IsDrain(s.queues[k], batch)
    requires rest == Without(s.queues[k], batch.Keys)
    ensures QueueOk(rest) && rest.Keys <= s.queues[k].Keys && |Pairs(rest)| == |Pairs(s.queues[k])| - |batch|
    ensures |batch| <= s.queueLen < U64_SIZE && WrapSub(s.queueLen, |batch|) == s.queueLen - |batch|
    ensures batch != map[] ==> BatchOk(s, k, batch)
  {
    assert QueueAt(s, k);
    DrainOk(s, k, batch);
    QueueShareFits(s, tid, k);
    WithoutUsers(s.queues[k], batch.Keys);
  }

  lemma PopShardInv(s: State, tid: nat, k: nat, batch: Batch)
    requires Inv(s) && At(s, tid, Idle) && k < SHARDS && IsDrain(s.queues[k], batch)
    ensures Inv(DoPopShard(s, tid, k, batch))
    ensures DoPopShard(s, tid, k, batch).queueLen == s.queueLen - |batch|
  {
    var rest := Without(s.queues[k], batch.Keys);
    PopFacts(s, tid, k, batch, rest);
    PoppedInv(s, DoPopShard(s, tid, k, batch), tid, k, batch, rest);
  }

  lemma WithoutUsers(q: Table<nat>, gone: set<Pair>)
    ensures Without(q, gone).Keys <= q.Keys
  {
  }

  lemma PoppedInv(s: State, s': State, tid: nat, k: nat, batch: Batch, rest: Table<nat>)
    requires Inv(s) && At(s, tid, Idle) && k < SHARDS && |batch| <= s.queueLen
    requires QueueOk(rest) && rest.Keys <= s.queues[k].Keys && |Pairs(rest)| == |Pairs(s.queues[k])| - |batch|
    requires batch != map[] ==> BatchOk(s, k, batch)
    requires s' == Put(s.(queues := s.queues[k := rest], queueLen := s.queueLen - |batch|),
                       tid, if batch == map[] then Idle else Popped(k, batch))
    ensures Inv(s')
  {
    assert QueueAt(s, k);
    assert QueueAt(s', k);
    QueueStepInv(s, s', tid, k);
  }

  lemma SubQueueLenInv(s: State, tid: nat, k: nat, batch: Batch)
    requires Inv(s) && At(s, tid, Taken(k, batch))
    ensures Inv(SubtractQueueLen(s, tid, |batch|, Popped(k, batch)))
    ensures WrapSub(s.queueLen, |batch|) == s.queueLen - |batch|
  {
    OwedFits(s, tid, Queued);
    assert TaskOk(s, s.tasks[tid]);
    CounterStepInv(s, SubtractQueueLen(s, tid, |batch|, Popped(k, batch)), tid);
  }

  // ----- releases -----

  lemma ApplyBatchInv(s: State, tid: nat, k: nat, batch: Batch)
    requires Inv(s) && At(s, tid, Popped(k, batch)) && k < SHARDS && Free(s, tid, k)
    ensures Inv(DoApplyBatch(s, tid, k, batch))
  {
    var s' := DoApplyBatch(s, tid, k, batch);
    AfterBatchPairs(s.shards[k].active, batch);
    AfterBatchPositive(s.shards[k].active, batch);
    ShardStepInv(s, s', tid, k);
  }

  lemma RemoveIpInv(s: State, tid: nat, p: Pair)
    requires Inv(s) && At(s, tid, Idle) && Free(s, tid, ShardIdx(s, p.0))
    ensures Inv(DoRemoveIp(s, tid, p))
  {
    var k := ShardIdx(s, p.0);
    var active := s.shards[k].active;
    RemoveOneIsCleanup(active, p);
    CleanupPairs(active, p, 1);
    CleanupPositive(active, p, 1);
    ShardStepInv(s, DoRemoveIp(s, tid, p), tid, k);
  }

  /** A step under a shard lock that changes that shard's tables and no counter. */
  lemma ShardStepInv(s: State, s': State, tid: nat, k: nat)
    requires Inv(s) && Local(s, s', tid, k) && Free(s, tid, k)
    requires s'.queues == s.queues
    requires Holds(s', s'.tasks[tid]) == None || Holds(s', s'.tasks[tid]) == Some(k)
    requires TaskOk(s', s'.tasks[tid])
    requires Positive(s'.shards[k].active)
    requires s'.activeCount == s.activeCount && s'.recentCount == s.recentCount && s'.queueLen == s.queueLen
    requires forall l :: StoredAt(s', l, k) + Owed(l, s'.tasks[tid]) == StoredAt(s, l, k) + Owed(l, s.tasks[tid])
    ensures Inv(s')
  {
    assert QueueAt(s, k);
    StructureKept(s, s', tid, k);
    forall l
      ensures Moves(s, s', tid, k, l)
    {
    }
    BalanceKept(s, s', tid, k);
  }

  /** A task that moves only a counter and its own program point. */
  lemma CounterStepInv(s: State, s': State, tid: nat)
    requires Inv(s) && Local(s, s', tid, 0)
    requires s'.shards == s.shards && s'.queues == s.queues
    requires Holds(s', s'.tasks[tid]) == None || Holds(s', s'.tasks[tid]) == Holds(s, s.tasks[tid])
    requires TaskOk(s', s'.tasks[tid])
    requires forall l :: Moves(s, s', tid, 0, l)
    requires s'.activeCount <= MAX_ACTIVE_IP_ENTRIES && s'.recentCount <= MAX_RECENT_IP_ENTRIES
    requires s'.queueLen < U64_SIZE
    ensures Inv(s')
  {
    assert QueueAt(s, 0);
    StructureKept(s, s', tid, 0);
    BalanceKept(s, s', tid, 0);
  }

  /** Subtracting exactly what is owed. */
  lemma SubtractActiveInv(s: State, tid: nat, next: Task)
    requires Inv(s) && tid < |s.tasks|
    requires Holds(s, next) == None || Holds(s, next) == Holds(s, s.tasks[tid])
    requires TaskOk(s, next)
    requires Owed(Active, next) == 0
    requires forall l :: l != Active ==> Owed(l, next) == Owed(l, s.tasks[tid])
    ensures Inv(SubtractActive(s, tid, Owed(Active, s.tasks[tid]), next))
  {
    var s' := SubtractActive(s, tid, Owed(Active, s.tasks[tid]), next);
    OwedFits(s, tid, Active);
    CounterStepInv(s, s', tid);
  }

  lemma SubtractRecentInv(s: State, tid: nat, next: Task)
    requires Inv(s) && tid < |s.tasks|
    requires Holds(s, next) == None || Holds(s, next) == Holds(s, s.tasks[tid])
    requires TaskOk(s, next)
    requires Owed(Recent, next) == 0
    requires forall l :: l != Recent ==> Owed(l, next) == Owed(l, s.tasks[tid])
    ensures Inv(SubtractRecent(s, tid, Owed(Recent, s.tasks[tid]), next))
  {
    var s' := SubtractRecent(s, tid, Owed(Recent, s.tasks[tid]), next);
    OwedFits(s, tid, Recent);
    CounterStepInv(s, s', tid);
  }

  lemma PutInv(s: State, tid: nat, next: Task)
    requires Inv(s) && tid < |s.tasks|
    requires Holds(s, next) == None || Holds(s, next) == Holds(s, s.tasks[tid])
    requires TaskOk(s, next)
    requires forall l :: Owed(l, next) == Owed(l, s.tasks[tid])
    ensures Inv(Put(s, tid, next))
  {
    CounterStepInv(s, Put(s, tid, next), tid);
  }

  // ----- admission -----

  lemma LockInv(s: State, tid: nat, t: Ticket)
    requires Inv(s) && At(s, tid, Arrived(t)) && Free(s, tid, ShardIdx(s, t.user))
    ensures Inv(DoLock(s, tid, t))
  {
    var k := ShardIdx(s, t.user);
    var sh := s.shards[k];
    SetRowPairs(sh.active, t.user, Row(sh.active, t.user));
    SetRowPairs(sh.recent, t.user, PruneRow(Row(sh.recent, t.user), t.now, t.window));
    PruneRowSize(Row(sh.recent, t.user), t.now, t.window);
    ShardStepInv(s, DoLock(s, tid, t), tid, k);
  }

  lemma AdmittedPairs(sh: Shard, t: Ticket)
    ensures |Pairs(Admitted(sh, t).active)| == |Pairs(sh.active)| + (if t.ip in Row(sh.active, t.user) then 0 else 1)
    ensures |Pairs(Admitted(sh, t).recent)| == |Pairs(sh.recent)| + (if t.ip in Row(sh.recent, t.user) then 0 else 1)
    ensures Positive(sh.active) ==> Positive(Admitted(sh, t).active)
  {
    var n := SatInc(Count(sh.active, (t.user, t.ip)));
    SetRowPairs(sh.active, t.user, Row(sh.active, t.user)[t.ip := n]);
    InsertIpSize(Row(sh.active, t.user), t.ip, n);
    SetRowPairs(sh.recent, t.user, Row(sh.recent, t.user)[t.ip := t.now]);
    InsertIpSize(Row(sh.recent, t.user), t.ip, t.now);
  }

  /** The slots a committing task holds are exactly the entries it creates: no counter is off, and the
      branches that give a slot back on an unexpected duplicate have nothing to do. */
  lemma AdmitInv(s: State, tid: nat, t: Ticket)
    requires Inv(s) && tid < |s.tasks|
    requires Holds(s, s.tasks[tid]) == Some(ShardIdx(s, t.user))
    requires
      var sh := s.shards[ShardIdx(s, t.user)];
      && Owed(Active, s.tasks[tid]) == (if t.ip in Row(sh.active, t.user) then 0 else 1)
      && Owed(Recent, s.tasks[tid]) == (if t.ip in Row(sh.recent, t.user) then 0 else 1)
      && Owed(Queued, s.tasks[tid]) == 0
    ensures Inv(DoAdmit(s, tid, t))
  {
    var k := ShardIdx(s, t.user);
    AdmittedPairs(s.shards[k], t);
    HolderIsAlone(s, tid, k);
    ShardStepInv(s, DoAdmit(s, tid, t), tid, k);
  }

  /** Taking one slot under the cap. */
  lemma TakeActiveInv(s: State, tid: nat, next: Task)
    requires Inv(s) && tid < |s.tasks| && s.activeCount < MAX_ACTIVE_IP_ENTRIES
    requires Holds(s, next) == Holds(s, s.tasks[tid])
    requires TaskOk(s, next)
    requires Owed(Active, next) == Owed(Active, s.tasks[tid]) + 1
    requires forall l :: l != Active ==> Owed(l, next) == Owed(l, s.tasks[tid])
    ensures Inv(TakeActive(s, tid, next))
  {
    CounterStepInv(s, TakeActive(s, tid, next), tid);
  }

  lemma TakeRecentInv(s: State, tid: nat, next: Task)
    requires Inv(s) && tid < |s.tasks| && s.recentCount < MAX_RECENT_IP_ENTRIES
    requires Holds(s, next) == Holds(s, s.tasks[tid])
    requires TaskOk(s, next)
    requires Owed(Recent, next) == Owed(Recent, s.tasks[tid]) + 1
    requires forall l :: l != Recent ==> Owed(l, next) == Owed(l, s.tasks[tid])
    ensures Inv(TakeRecent(s, tid, next))
  {
    CounterStepInv(s, TakeRecent(s, tid, next), tid);
  }

  lemma DecideInv(s: State, tid: nat, t: Ticket)
    requires Inv(s) && At(s, tid, Deciding(t))
    ensures Inv(DoDecide(s, tid, t))
  {
    var sh := s.shards[ShardIdx(s, t.user)];
    var active, recent := Row(sh.active, t.user), Row(sh.recent, t.user);
    if t.ip in active {
      if t.ip in recent {
        AdmitInv(s, tid, t);
      } else if s.recentCount < MAX_RECENT_IP_ENTRIES {
        TakeRecentInv(s, tid, Readmitting(t));
      } else {
        PutInv(s, tid, Idle);
      }
    } else if !Denied(t.limit, t.mode, |active|, |recent|, t.ip in recent) && s.activeCount < MAX_ACTIVE_IP_ENTRIES {
      TakeActiveInv(s, tid, ActiveReserved(t));
    } else {
      PutInv(s, tid, Idle);
    }
  }

  lemma ReserveRecentInv(s: State, tid: nat, t: Ticket)
    requires Inv(s) && At(s, tid, ActiveReserved(t))
    ensures Inv(DoReserveRecent(s, tid, t))
  {
    assert TaskOk(s, s.tasks[tid]);
    if t.ip in Row(s.shards[ShardIdx(s, t.user)].recent, t.user) {
      AdmitInv(s, tid, t);
    } else if s.recentCount < MAX_RECENT_IP_ENTRIES {
      TakeRecentInv(s, tid, BothReserved(t));
    } else {
      PutInv(s, tid, RollingBack(t));
    }
  }

  lemma CommitInv(s: State, tid: nat, t: Ticket)
    requires Inv(s) && (At(s, tid, Readmitting(t)) || At(s, tid, BothReserved(t)))
    ensures Inv(DoAdmit(s, tid, t))
  {
    assert TaskOk(s, s.tasks[tid]);
    AdmitInv(s, tid, t);
  }

  // ----- compaction -----

  lemma CompactPruneInv(s: State, tid: nat, k: nat, now: nat, window: nat)
    requires Inv(s) && At(s, tid, Compacting(k, now, window)) && k < SHARDS && Free(s, tid, k)
    ensures Inv(DoCompactPrune(s, tid, k, now, window))
  {
    PruneAllPairs(s.shards[k].recent, now, window);
    ShardStepInv(s, DoCompactPrune(s, tid, k, now, window), tid, k);
  }

  lemma CompactSweepInv(s: State, tid: nat, k: nat, now: nat, window: nat)
    requires Inv(s) && At(s, tid, CompactSweeping(k, now, window)) && k < SHARDS
    ensures Inv(DoCompactSweep(s, tid, k, now, window))
  {
    var sh := s.shards[k];
    SweepPairs(sh.active, sh.recent);
    SweepPairs(sh.recent, sh.active);
    HolderIsAlone(s, tid, k);
    ShardStepInv(s, DoCompactSweep(s, tid, k, now, window), tid, k);
  }

  // ----- clearing -----

  lemma ClearActiveInv(s: State, tid: nat, u: User)
    requires Inv(s) && At(s, tid, Idle) && Free(s, tid, ShardIdx(s, u))
    ensures Inv(DoClearActive(s, tid, u))
  {
    var k := ShardIdx(s, u);
    DropUserPairs(s.shards[k].active, u);
    ShardStepInv(s, DoClearActive(s, tid, u), tid, k);
  }

  lemma ClearRecentInv(s: State, tid: nat, u: User)
    requires Inv(s) && At(s, tid, ClearingRecent(u))
    ensures Inv(DoClearRecent(s, tid, u))
  {
    var k := ShardIdx(s, u);
    DropUserPairs(s.shards[k].recent, u);
    HolderIsAlone(s, tid, k);
    ShardStepInv(s, DoClearRecent(s, tid, u), tid, k);
  }

  lemma ClearAllInv(s: State)
    requires Inv(s) && Enabled(s, ClearAll)
    ensures Inv(DoClearAll(s))
  {
    var s' := DoClearAll(s);
    assert forall k :: 0 <= k < SHARDS ==> QueueAt(s', k);
    forall l
      ensures Counter(s', l) == Total(s', l)
    {
      assert Pairs<nat>(map[]) == {};
      SumZero(Stored(s', l));
      SumZero(Owing(s', l));
    }
  }

  // ----- the environment -----

  lemma SetPolicyInv(s: State, policy: Policy)
    requires Inv(s)
    ensures Inv(s.(policy := policy))
  {
    var s' := s.(policy := policy);
    assert forall k :: 0 <= k < SHARDS ==> QueueAt(s, k) ==> QueueAt(s', k);
    assert forall j :: 0 <= j < |s.tasks| ==> Holds(s', s'.tasks[j]) == Holds(s, s.tasks[j]);
    assert forall j :: 0 <= j < |s.tasks| ==> TaskOk(s, s.tasks[j]) ==> TaskOk(s', s'.tasks[j]);
    forall l
      ensures Counter(s', l) == Total(s', l)
    {
      assert Stored(s', l) == Stored(s, l) && Owing(s', l) == Owing(s, l);
      assert Counter(s, l) == Total(s, l);
    }
  }

  lemma SpawnStructure(s: State, s': State)
    requires Structure(s) && s' == s.(tasks := s.tasks + [Idle])
    ensures Structure(s')
  {
    hide QueueOk, Positive, BatchOk;
    assert forall k :: 0 <= k < SHARDS ==> QueueAt(s, k) ==> QueueAt(s', k);
    assert forall j :: 0 <= j < |s.tasks| ==> Holds(s', s'.tasks[j]) == Holds(s, s.tasks[j]);
    forall j | 0 <= j < |s'.tasks|
      ensures TaskOk(s', s'.tasks[j])
    {
      if j < |s.tasks| {
        SpawnTask(s, s', s.tasks[j]);
      }
    }
  }

  lemma SpawnTask(s: State, s': State, t: Task)
    requires Shaped(s) && TaskOk(s, t) && s' == s.(tasks := s.tasks + [Idle])
    ensures TaskOk(s', t)
  {
  }

  lemma SpawnInv(s: State)
    requires Inv(s)
    ensures Inv(s.(tasks := s.tasks + [Idle]))
  {
    var s' := s.(tasks := s.tasks + [Idle]);
    SpawnStructure(s, s');
    hide Structure;
    forall l
      ensures Counter(s', l) == Total(s', l)
    {
      assert Stored(s', l) == Stored(s, l) && Owing(s', l) == Owing(s, l) + [0];
      SumAppend(Owing(s, l), 0);
      assert Counter(s, l) == Total(s, l);
    }
  }

  /** Steps of the drains and of direct release. */
  lemma ReleaseStepInv(s: State, step: Step)
    requires Inv(s) && Enabled(s, step)
    requires step.Enqueue? || step.TakeUser? || step.PopShard? || step.SubQueueLen? || step.ApplyBatch?
          || step.RemoveIp? || step.SubActive?
    ensures Inv(Apply(s, step))
  {
    match step
    case Enqueue(tid, p) => EnqueueInv(s, tid, p);
    case TakeUser(tid, u) => TakeUserInv(s, tid, u);
    case PopShard(tid, k, batch) => PopShardInv(s, tid, k, batch);
    case SubQueueLen(tid) => SubQueueLenInv(s, tid, s.tasks[tid].shard, s.tasks[tid].batch);
    case ApplyBatch(tid) => ApplyBatchInv(s, tid, s.tasks[tid].shard, s.tasks[tid].batch);
    case RemoveIp(tid, p) => RemoveIpInv(s, tid, p);
    case SubActive(tid) => SubtractActiveInv(s, tid, Idle);
  }

  lemma AdmissionStepInv(s: State, step: Step)
    requires Inv(s) && Enabled(s, step)
    requires step.Arrive? || step.Lock? || step.SubPruned? || step.Decide? || step.ReserveRecent?
          || step.Commit? || step.Rollback?
    ensures Inv(Apply(s, step))
  {
    match step
    case Arrive(tid, u, ip, now) => PutInv(s, tid, Apply(s, step).tasks[tid]);
    case Lock(tid) => LockInv(s, tid, s.tasks[tid].ticket);
    case SubPruned(tid) => SubtractRecentInv(s, tid, Deciding(s.tasks[tid].ticket));
    case Decide(tid) => DecideInv(s, tid, s.tasks[tid].ticket);
    case ReserveRecent(tid) => ReserveRecentInv(s, tid, s.tasks[tid].ticket);
    case Commit(tid) => CommitInv(s, tid, s.tasks[tid].ticket);
    case Rollback(tid) => SubtractActiveInv(s, tid, Idle);
  }

  lemma CompactStepInv(s: State, step: Step)
    requires Inv(s) && Enabled(s, step)
    requires step.StartCompact? || step.CompactPrune? || step.CompactSub? || step.CompactSweep?
    ensures Inv(Apply(s, step))
  {
    var t := s.tasks[step.tid];
    assert TaskOk(s, t);
    match step
    case StartCompact(tid, now) => PutInv(s, tid, Compacting(0, now, LimitWindow(s.policy)));
    case CompactPrune(tid) => CompactPruneInv(s, tid, t.shard, t.now, t.window);
    case CompactSub(tid) => SubtractRecentInv(s, tid, CompactSweeping(t.shard, t.now, t.window));
    case CompactSweep(tid) => CompactSweepInv(s, tid, t.shard, t.now, t.window);
  }

  lemma ClearStepInv(s: State, step: Step)
    requires Inv(s) && Enabled(s, step)
    requires step.ClearActive? || step.ClearSubActive? || step.ClearRecent? || step.SubRecent? || step.ClearAll?
    ensures Inv(Apply(s, step))
  {
    if step.ClearActive? {
      ClearActiveInv(s, step.tid, step.user);
    } else if step.ClearRecent? {
      ClearRecentInv(s, step.tid, s.tasks[step.tid].user);
    } else if step.ClearAll? {
      ClearAllInv(s);
    } else {
      ClearCounterInv(s, step);
    }
  }

  lemma ClearCounterInv(s: State, step: Step)
    requires Inv(s) && Enabled(s, step) && (step.ClearSubActive? || step.SubRecent?)
    ensures Inv(Apply(s, step))
  {
    if step.ClearSubActive? {
      SubtractActiveInv(s, step.tid, ClearingRecent(s.tasks[step.tid].user));
    } else {
      SubtractRecentInv(s, step.tid, Idle);
    }
  }

  /** Every step of every task keeps the invariant. */
  lemma StepInv(s: State, step: Step)
    requires Inv(s) && Enabled(s, step)
    ensures Inv(Apply(s, step))
  {
    if step.SetPolicy? {
      SetPolicyInv(s, step.policy);
    } else if step.Spawn? {
      SpawnInv(s);
    } else if step.StartCompact? || step.CompactPrune? || step.CompactSub? || step.CompactSweep? {
      CompactStepInv(s, step);
    } else if step.ClearActive? || step.ClearSubActive? || step.ClearRecent? || step.SubRecent? || step.ClearAll? {
      ClearStepInv(s, step);
    } else if step.Arrive? || step.Lock? || step.SubPruned? || step.Decide? || step.ReserveRecent?
           || step.Commit? || step.Rollback? {
      AdmissionStepInv(s, step);
    } else {
      ReleaseStepInv(s, step);
    }
  }
}
