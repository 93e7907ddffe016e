/** The tracker object. Each private method is one indivisible step of the protocol, performed by a task
    `tid`; each public method is the sequence of steps of one call when no other task moves in between.
    Other tasks may be stopped anywhere, as long as they do not hold the lock the call needs. */
module UserIpTrackers {
  import opened Tables
  import opened Wrappers
  import opened ShardSpec
  import opened ShardLoops
  import opened TrackerProtocol
  import opened TrackerInvariants
  import opened TrackerSteps
  import opened TrackerCounters
  import opened TrackerLimits
  import opened TrackerWindow

  /** The verdict of `check_and_add` on the state it finds, with no mention of its steps. */
  predicate Accepts(s: State, t: Ticket)
    requires Shaped(s)
  {
    var active := ActiveRow(s, t.user);
    var recent := InWindow(RecentRow(s, t.user), t.now, t.window);
    var room := s.recentCount - |RecentRow(s, t.user)| + |recent| < MAX_RECENT_IP_ENTRIES;
    if t.ip in active then t.ip in recent || room
    else
      && (t.limit.Some? && t.mode != TimeWindow ==> |active| < t.limit.value)
      && (t.limit.Some? && t.mode != ActiveWindow ==> |recent| < t.limit.value || t.ip in recent)
      && s.activeCount < MAX_ACTIVE_IP_ENTRIES
      && (t.ip in recent || room)
  }

  lemma AppliedState(s: State, tid: nat, k: nat, batch: Batch, active: Table<nat>, removed: nat)
    requires Inv(s) && At(s, tid, Popped(k, batch)) && k < SHARDS && Free(s, tid, k)
    requires active == AfterBatch(s.shards[k].active, batch)
    requires removed + |Pairs(active)| == |Pairs(s.shards[k].active)|
    ensures
      var s' := s.(shards := s.shards[k := s.shards[k].(active := active)],
                   tasks := s.tasks[tid := ActiveRemoved(k, removed)]);
      s' == DoApplyBatch(s, tid, k, batch) && Inv(s')
  {
    ApplyBatchInv(s, tid, k, batch);
  }

  lemma PoppedState(s: State, tid: nat, k: nat, batch: Batch, rest: Table<nat>, s': State)
    requires Inv(s) && At(s, tid, Idle) && k < SHARDS && IsDrain(s.queues[k], batch)
    requires rest == Without(s.queues[k], batch.Keys)
    requires s' == s.(queues := s.queues[k := rest], queueLen := WrapSub(s.queueLen, |batch|),
                      tasks := s.tasks[tid := if batch == map[] then Idle else Popped(k, batch)])
    ensures s' == DoPopShard(s, tid, k, batch) && Inv(s') && s'.queueLen == s.queueLen - |batch|
  {
    PopShardInv(s, tid, k, batch);
  }

  lemma NothingTaken(active: Table<nat>, u: User, row: map<Ip, nat>)
    requires RowBatch(u, row) == map[]
    ensures AfterBatch(active, RowBatch(u, row)) == active
  {
    AfterEmptyBatch(active);
  }

  /** A zero queue length means there is nothing to take. */
  lemma NoQueues(s: State, k: nat)
    requires Inv(s) && s.queueLen == 0 && k < SHARDS
    ensures s.queues[k] == map[]
  {
    assert Counter(s, Queued) == Total(s, Queued);
    SumZeroTerms(Stored(s, Queued), k);
    assert QueueAt(s, k);
    if s.queues[k] != map[] {
      NonEmptyQueueHasPairs(s.queues[k]);
    }
  }

  lemma NothingQueued(s: State, u: User, k: nat)
    requires Inv(s) && s.queueLen == 0 && k < SHARDS
    ensures s.queues[k] - {u} == s.queues[k]
    ensures AfterBatch(s.shards[k].active, RowBatch(u, Row(s.queues[k], u))) == s.shards[k].active
  {
    NoQueues(s, k);
    assert RowBatch(u, map[]) == map[];
    NothingTaken(s.shards[k].active, u, map[]);
  }

  /** One shard's queue and active table before and after a drain. */
  ghost predicate DrainedOnce(q: Table<nat>, active: Table<nat>, q': Table<nat>, active': Table<nat>) {
    exists batch :: IsDrain(q, batch) && q' == Without(q, batch.Keys) && active' == AfterBatch(active, batch)
  }

  lemma EmptyIsDrained(active: Table<nat>)
    ensures DrainedOnce(map[], active, map[], active)
  {
    assert Pairs<nat>(map[]) == {};
    var none: Batch := map[];
    assert IsDrain(map[], none) && Without(map[], none.Keys) == map[];
    AfterEmptyBatch(active);
  }

  /** A drain takes min(1024, pending) pairs off the queue, and every release that left the queue has been applied. */
  lemma DrainMovesReleases(q: Table<nat>, active: Table<nat>, q': Table<nat>, active': Table<nat>, p: Pair)
    requires DrainedOnce(q, active, q', active')
    ensures |Pairs(q')| == SatSub(|Pairs(q)|, CLEANUP_DRAIN_BATCH_LIMIT)
    ensures Count(q', p) <= Count(q, p)
    ensures Count(active', p) == SatSub(Count(active, p), Count(q, p) - Count(q', p))
  {
    var batch :| IsDrain(q, batch) && q' == Without(q, batch.Keys) && active' == AfterBatch(active, batch);
    assert |batch| == |batch.Keys|;
    WithoutPairs(q, batch.Keys);
    DrainCount(q, batch, p);
    AfterBatchCount(active, batch, p);
  }

  /** A shard after compaction. */
  function Compacted(sh: Shard, now: nat, window: nat): Shard {
    var recent := PruneAll(sh.recent, now, window);
    Shard(Sweep(sh.active, recent), Sweep(recent, sh.active))
  }

  /** Compaction leaves every active row, keeps of a recent row the IPs still in the window, and drops exactly the
      users who are then without either. */
  lemma CompactedRows(sh: Shard, now: nat, window: nat, u: User)
    ensures
      var sh' := Compacted(sh, now, window);
      var active, recent := Row(sh.active, u), Row(sh.recent, u);
      && Row(sh'.active, u) == active
      && Row(sh'.recent, u).Keys == InWindow(recent, now, window)
      && (forall i :: i in Row(sh'.recent, u) ==> Row(sh'.recent, u)[i] == recent[i])
      && (u in sh'.active <==> u in sh.active && (active != map[] || InWindow(recent, now, window) != {}))
      && (u in sh'.recent <==> u in sh.recent && (active != map[] || InWindow(recent, now, window) != {}))
  {
    var pruned := PruneAll(sh.recent, now, window);
    SweepPairs(sh.active, pruned);
    SweepPairs(pruned, sh.active);
    PruneRowKeeps(Row(sh.recent, u), now, window);
    assert Row(pruned, u) == PruneRow(Row(sh.recent, u), now, window);
    assert Row(sh.active, u).Keys == {} <==> Row(sh.active, u) == map[];
  }

  /** What `maybe_compact_empty_users` leaves of a shard: it runs only when it is due. */
  function Tidied(sh: Shard, due: bool, now: nat, window: nat): Shard {
    if due then Compacted(sh, now, window) else sh
  }

  /** A shard once a user's queued releases are applied and, if it is due, the shard is compacted. */
  ghost function Settled(s: State, k: nat, u: User, compactDue: bool, now: nat, window: nat): Shard
    requires Shaped(s) && k < SHARDS
  {
    var sh := s.shards[k];
    var drained :=
      if k == ShardIdx(s, u) then sh.(active := AfterBatch(sh.active, RowBatch(u, Row(s.queues[k], u)))) else sh;
    Tidied(drained, compactDue, now, window)
  }

  lemma AdmittedShard(sh: Shard, t: Ticket, active: map<Ip, nat>, recent: map<Ip, nat>, count: nat)
    requires active == Row(sh.active, t.user) && recent == Row(sh.recent, t.user)
    requires count == if t.ip in active then active[t.ip] else 0
    ensures Shard(sh.active[t.user := active[t.ip := SatInc(count)]], sh.recent[t.user := recent[t.ip := t.now]])
         == Admitted(sh, t)
  {
  }

  lemma OthersDoNotHold(s: State, s': State, tid: nat, k: nat)
    requires s'.hasher == s.hasher && tid < |s.tasks| && Free(s, tid, k)
    requires |s'.tasks| == |s.tasks| && forall j :: 0 <= j < |s.tasks| && j != tid ==> s'.tasks[j] == s.tasks[j]
    ensures Free(s', tid, k)
  {
  }

  lemma IdleTotals(s: State)
    requires Inv(s)
    ensures (forall j :: 0 <= j < |s.tasks| ==> s.tasks[j] == Idle) ==>
      s.activeCount == Sum(Stored(s, Active)) && s.recentCount == Sum(Stored(s, Recent))
  {
    if forall j :: 0 <= j < |s.tasks| ==> s.tasks[j] == Idle {
      SumZero(Owing(s, Active));
      SumZero(Owing(s, Recent));
      assert Counter(s, Active) == Total(s, Active);
      assert Counter(s, Recent) == Total(s, Recent);
    }
  }

  datatype MemoryStats = MemoryStats(activeUsers: nat, recentUsers: nat, activeEntries: nat, recentEntries: nat, queueLen: nat)

  /** The users with a row, shard by shard. */
  ghost function ActiveUsers(s: State): seq<nat> {
    seq(|s.shards|, k requires 0 <= k < |s.shards| => |s.shards[k].active|)
  }

  ghost function RecentUsers(s: State): seq<nat> {
    seq(|s.shards|, k requires 0 <= k < |s.shards| => |s.shards[k].recent|)
  }

  class UserIpTracker {
    const hasher: User -> nat
    var shards: seq<Shard>
    var queues: seq<Table<nat>>
    var activeCount: nat
    var recentCount: nat
    var queueLen: nat
    var policy: Policy
    ghost var tasks: seq<Task>
    ghost var live: map<Pair, nat>
    ghost var history: map<Pair, nat>
    ghost var clocks: seq<nat>

    ghost function View(): State
      reads this
    {
      State(hasher, shards, queues, activeCount, recentCount, queueLen, policy, tasks, live, history, clocks)
    }

    ghost predicate Valid()
      reads this
    {
      Inv(View())
    }

    constructor (hasher: User -> nat, ghost tasks: nat)
      ensures Init(View()) && Valid()
      ensures this.hasher == hasher && |this.tasks| == tasks
    {
      this.hasher := hasher;
      shards := seq(SHARDS, _ => Shard(map[], map[]));
      queues := seq(SHARDS, _ => map[]);
      activeCount, recentCount, queueLen := 0, 0, 0;
      policy := Policy(map[], 0, ActiveWindow, 30);
      this.tasks := seq(tasks, _ => Idle);
      live, history := map[], map[];
      clocks := seq(SHARDS, _ => 0);
      new;
      InitInv(View());
    }

    // ----- deferred release -----

    method EnqueueCleanup(u: User, ip: Ip, ghost tid: nat)
      requires Valid() && Enabled(View(), Enqueue(tid, (u, ip)))
      modifies this
      ensures Valid() && View() == DoEnqueue(old(View()), (u, ip))
    {
      EnqueueInv(View(), tid, (u, ip));
      var k := hasher(u) % SHARDS;
      var q := queues[k];
      var row := Row(q, u);
      var count := if ip in row then row[ip] else 0;
      if count == 0 {
        queueLen := (queueLen + 1) % U64_SIZE;
      }
      queues := queues[k := q[u := row[ip := SatInc(count)]]];
      live := Released(live, (u, ip));
    }

    /** The map change of both drains, under the shard lock. */
    method ApplyPending(k: nat, batch: Batch, ghost tid: nat) returns (removed: nat)
      requires Valid() && At(View(), tid, Popped(k, batch)) && k < SHARDS && Free(View(), tid, k)
      modifies this
      ensures Valid() && View() == DoApplyBatch(old(View()), tid, k, batch)
      ensures At(View(), tid, ActiveRemoved(k, removed))
    {
      var active;
      active, removed := ApplyBatchLoop(shards[k].active, batch);
      AppliedState(View(), tid, k, batch, active, removed);
      shards := shards[k := shards[k].(active := active)];
      tasks := tasks[tid := ActiveRemoved(k, removed)];
    }

    method DecrementActive(removed: nat, ghost tid: nat, ghost next: Task)
      requires Valid() && tid < |tasks| && removed == Owed(Active, tasks[tid])
      requires Holds(View(), next) == None || Holds(View(), next) == Holds(View(), tasks[tid])
      requires TaskOk(View(), next) && Owed(Active, next) == 0
      requires forall l :: l != Active ==> Owed(l, next) == Owed(l, tasks[tid])
      modifies this
      ensures Valid() && View() == SubtractActive(old(View()), tid, removed, next)
    {
      SubtractActiveInv(View(), tid, next);
      activeCount := SatSub(activeCount, removed);
      tasks := tasks[tid := next];
    }

    method DecrementRecent(removed: nat, ghost tid: nat, ghost next: Task)
      requires Valid() && tid < |tasks| && removed == Owed(Recent, tasks[tid])
      requires Holds(View(), next) == None || Holds(View(), next) == Holds(View(), tasks[tid])
      requires TaskOk(View(), next) && Owed(Recent, next) == 0
      requires forall l :: l != Recent ==> Owed(l, next) == Owed(l, tasks[tid])
      modifies this
      ensures Valid() && View() == SubtractRecent(old(View()), tid, removed, next)
    {
      SubtractRecentInv(View(), tid, next);
      recentCount := SatSub(recentCount, removed);
      tasks := tasks[tid := next];
    }

    /** `drain_cleanup_for_user`. The early return on a zero length changes nothing the rest would. */
    method DrainCleanupForUser(u: User, ghost tid: nat)
      requires Valid() && At(View(), tid, Idle) && Free(View(), tid, ShardIdx(View(), u))
      modifies this
      ensures Valid() && policy == old(policy) && tasks == old(tasks)
      ensures
        var k := hasher(u) % SHARDS;
        && queues == old(queues)[k := old(queues)[k] - {u}]
        && shards == old(shards)[k := old(shards)[k].(active :=
             AfterBatch(old(shards)[k].active, RowBatch(u, Row(old(queues)[k], u))))]
    {
      var k := hasher(u) % SHARDS;
      if queueLen == 0 {
        NothingQueued(View(), u, k);
        return;
      }
      var batch := TakeUserQueue(u, k, tid);
      if batch == map[] {
        NothingTaken(shards[k].active, u, Row(old(queues)[k], u));
        return;
      }
      DecrementQueueLen(k, batch, tid);
      FinishDrain(k, batch, tid);
    }

    method DecrementQueueLen(k: nat, batch: Batch, ghost tid: nat)
      requires Valid() && At(View(), tid, Taken(k, batch))
      modifies this
      ensures Valid() && View() == SubtractQueueLen(old(View()), tid, |batch|, Popped(k, batch))
    {
      SubQueueLenInv(View(), tid, k, batch);
      queueLen := WrapSub(queueLen, |batch|);
      tasks := tasks[tid := Popped(k, batch)];
    }

    /** The common end of both drains: lock, apply, subtract. */
    method FinishDrain(k: nat, batch: Batch, ghost tid: nat)
      requires Valid() && At(View(), tid, Popped(k, batch)) && k < SHARDS && Free(View(), tid, k)
      modifies this
      ensures Valid() && policy == old(policy) && tasks == old(tasks)[tid := Idle]
      ensures queues == old(queues) && queueLen == old(queueLen) && recentCount == old(recentCount)
      ensures shards == old(shards)[k := old(shards)[k].(active := AfterBatch(old(shards)[k].active, batch))]
    {
      var removed := ApplyPending(k, batch, tid);
      DecrementActive(removed, tid, Idle);
    }

    method TakeUserQueue(u: User, k: nat, ghost tid: nat) returns (batch: Batch)
      requires Valid() && At(View(), tid, Idle) && k == hasher(u) % SHARDS
      modifies this
      ensures Valid() && View() == DoTakeUser(old(View()), tid, u)
      ensures batch == RowBatch(u, Row(old(queues)[k], u))
    {
      TakeUserInv(View(), tid, u);
      batch := RowBatch(u, Row(queues[k], u));
      queues := queues[k := queues[k] - {u}];
      tasks := tasks[tid := if batch == map[] then Idle else Taken(k, batch)];
    }

    /** `drain_cleanup_shard`: one bounded batch leaves the queue and reaches the active table. */
    method DrainCleanupShard(k: nat, ghost tid: nat) returns (batch: Batch)
      requires Valid() && At(View(), tid, Idle) && k < SHARDS && Free(View(), tid, k)
      modifies this
      ensures Valid() && policy == old(policy) && tasks == old(tasks)
      ensures IsDrain(old(queues)[k], batch)
      ensures queues == old(queues)[k := Without(old(queues)[k], batch.Keys)]
      ensures queueLen == old(queueLen) - |batch|
      ensures shards == old(shards)[k := old(shards)[k].(active := AfterBatch(old(shards)[k].active, batch))]
    {
      batch := PopShardBatch(k, tid);
      if batch == map[] {
        AfterEmptyBatch(shards[k].active);
        return;
      }
      FinishDrain(k, batch, tid);
    }

    /** `drain_cleanup_queue`: every shard once, or nothing when the length is zero. */
    method DrainCleanupQueue(ghost tid: nat)
      requires Valid() && At(View(), tid, Idle) && forall k :: 0 <= k < SHARDS ==> Free(View(), tid, k)
      modifies this
      ensures Valid() && policy == old(policy) && tasks == old(tasks)
      ensures forall k :: 0 <= k < SHARDS ==>
        && shards[k].recent == old(shards)[k].recent
        && DrainedOnce(old(queues)[k], old(shards)[k].active, queues[k], shards[k].active)
    {
      if queueLen == 0 {
        forall k | 0 <= k < SHARDS
          ensures DrainedOnce(queues[k], shards[k].active, queues[k], shards[k].active)
        {
          NoQueues(View(), k);
          EmptyIsDrained(shards[k].active);
        }
        return;
      }
      for k := 0 to SHARDS
        invariant Valid() && policy == old(policy) && tasks == old(tasks)
        invariant forall i :: 0 <= i < k ==>
          && shards[i].recent == old(shards)[i].recent
          && DrainedOnce(old(queues)[i], old(shards)[i].active, queues[i], shards[i].active)
        invariant forall i :: k <= i < SHARDS ==> shards[i] == old(shards)[i] && queues[i] == old(queues)[i]
      {
        OthersDoNotHold(old(View()), View(), tid, k);
        var batch := DrainCleanupShard(k, tid);
        assert DrainedOnce(old(queues)[k], old(shards)[k].active, queues[k], shards[k].active);
      }
    }

    method PopShardBatch(k: nat, ghost tid: nat) returns (batch: Batch)
      requires Valid() && At(View(), tid, Idle) && k < SHARDS
      modifies this
      ensures IsDrain(old(queues)[k], batch)
      ensures Valid() && View() == DoPopShard(old(View()), tid, k, batch)
      ensures queueLen == old(queueLen) - |batch|
    {
      ghost var s := View();
      assert QueueAt(s, k);
      var rest;
      batch, rest := DrainBatch(queues[k]);
      queues := queues[k := rest];
      queueLen := WrapSub(queueLen, |batch|);
      tasks := tasks[tid := if batch == map[] then Idle else Popped(k, batch)];
      PoppedState(s, tid, k, batch, rest, View());
    }

    // ----- direct release -----

    /** `remove_ip`: compact if due, then take one reference of the pair away. */
    method RemoveIp(u: User, ip: Ip, compactDue: bool, compactNow: nat, ghost tid: nat)
      requires Valid() && At(View(), tid, Idle) && Free(View(), tid, ShardIdx(View(), u))
      requires compactDue ==> forall k :: 0 <= k < SHARDS ==> Free(View(), tid, k)
      modifies this
      ensures Valid() && policy == old(policy) && tasks == old(tasks) && queues == old(queues)
      ensures
        var k, window := hasher(u) % SHARDS, LimitWindow(old(policy));
        && (forall i :: 0 <= i < SHARDS && i != k ==> shards[i] == Tidied(old(shards)[i], compactDue, compactNow, window))
        && var sh := Tidied(old(shards)[k], compactDue, compactNow, window);
           && shards[k] == sh.(active := RemoveOne(sh.active, (u, ip)))
           && activeCount == old(activeCount) - RemoveOneEntries(sh.active, (u, ip))
    {
      var k := hasher(u) % SHARDS;
      if compactDue {
        Compact(compactNow, tid);
        OthersDoNotHold(old(View()), View(), tid, k);
      }
      var removed := RemoveEntry(u, ip, k, tid);
      OwedFits(View(), tid, Active);
      DecrementActive(removed, tid, Idle);
    }

    method RemoveEntry(u: User, ip: Ip, k: nat, ghost tid: nat) returns (removed: nat)
      requires Valid() && At(View(), tid, Idle) && k == hasher(u) % SHARDS && Free(View(), tid, k)
      modifies this
      ensures Valid() && View() == DoRemoveIp(old(View()), tid, (u, ip))
      ensures removed == RemoveOneEntries(old(shards)[k].active, (u, ip))
    {
      RemoveIpInv(View(), tid, (u, ip));
      var active := shards[k].active;
      removed := 0;
      if u in active {
        var row := active[u];
        if ip in row {
          if row[ip] > 1 {
            row := row[ip := row[ip] - 1];
          } else {
            row := row - {ip};
            removed := 1;
          }
        }
        active := if row == map[] then active - {u} else active[u := row];
      }
      shards := shards[k := shards[k].(active := active)];
      tasks := tasks[tid := ActiveRemoved(k, removed)];
      live := Released(live, (u, ip));
    }

    // ----- admission -----

    method OpenAdmission(t: Ticket, k: nat, ghost tid: nat) returns (pruned: nat)
      requires Valid() && At(View(), tid, Arrived(t)) && k == hasher(t.user) % SHARDS && Free(View(), tid, k)
      modifies this
      ensures Valid() && View() == DoLock(old(View()), tid, t)
      ensures pruned + |RecentRow(View(), t.user)| == |RecentRow(old(View()), t.user)|
      ensures At(View(), tid, Pruned(t, pruned))
      ensures tasks == old(tasks)[tid := Pruned(t, pruned)] && queues == old(queues) && policy == old(policy)
      ensures shards == old(shards)[k := Opened(old(shards)[k], t)]
      ensures activeCount == old(activeCount) && recentCount == old(recentCount)
    {
      ghost var s := View();
      var sh := shards[k];
      var before := Row(sh.recent, t.user);
      var after := PruneRow(before, t.now, t.window);
      PruneRowSize(before, t.now, t.window);
      pruned := |before| - |after|;
      shards := shards[k := Shard(sh.active[t.user := Row(sh.active, t.user)], sh.recent[t.user := after])];
      tasks := tasks[tid := Pruned(t, pruned)];
      clocks := clocks[k := if t.now > clocks[k] then t.now else clocks[k]];
      assert View() == DoLock(s, tid, t);
      LockInv(s, tid, t);
    }

    /** `try_increment_counter` on the active counter. */
    method TryIncrementActive(ghost tid: nat, ghost next: Task) returns (ok: bool)
      requires Valid() && tid < |tasks|
      requires Holds(View(), next) == Holds(View(), tasks[tid]) && TaskOk(View(), next)
      requires Owed(Active, next) == Owed(Active, tasks[tid]) + 1
      requires forall l :: l != Active ==> Owed(l, next) == Owed(l, tasks[tid])
      modifies this
      ensures Valid() && ok == (old(activeCount) < MAX_ACTIVE_IP_ENTRIES)
      ensures View() == if ok then TakeActive(old(View()), tid, next) else old(View())
    {
      ok := activeCount < MAX_ACTIVE_IP_ENTRIES;
      if ok {
        TakeActiveInv(View(), tid, next);
        activeCount := activeCount + 1;
        tasks := tasks[tid := next];
      }
    }

    method TryIncrementRecent(ghost tid: nat, ghost next: Task) returns (ok: bool)
      requires Valid() && tid < |tasks|
      requires Holds(View(), next) == Holds(View(), tasks[tid]) && TaskOk(View(), next)
      requires Owed(Recent, next) == Owed(Recent, tasks[tid]) + 1
      requires forall l :: l != Recent ==> Owed(l, next) == Owed(l, tasks[tid])
      modifies this
      ensures Valid() && ok == (old(recentCount) < MAX_RECENT_IP_ENTRIES)
      ensures View() == if ok then TakeRecent(old(View()), tid, next) else old(View())
    {
      ok := recentCount < MAX_RECENT_IP_ENTRIES;
      if ok {
        TakeRecentInv(View(), tid, next);
        recentCount := recentCount + 1;
        tasks := tasks[tid := next];
      }
    }

    /** Drop the lock with nothing owed. */
    ghost method Leave(tid: nat)
      requires Valid() && tid < |tasks| && forall l :: Owed(l, tasks[tid]) == 0
      modifies this
      ensures Valid() && View() == Put(old(View()), tid, Idle)
    {
      PutInv(View(), tid, Idle);
      tasks := tasks[tid := Idle];
    }

    method CommitAdmission(t: Ticket, k: nat, ghost tid: nat)
      requires Valid() && tid < |tasks| && k == hasher(t.user) % SHARDS
      requires Holds(View(), tasks[tid]) == Some(k)
      requires Owed(Active, tasks[tid]) == (if t.ip in ActiveRow(View(), t.user) then 0 else 1)
      requires Owed(Recent, tasks[tid]) == (if t.ip in RecentRow(View(), t.user) then 0 else 1)
      requires Owed(Queued, tasks[tid]) == 0
      modifies this
      ensures Valid() && View() == DoAdmit(old(View()), tid, t)
    {
      ghost var s := View();
      assert Shaped(s);
      AdmitInv(s, tid, t);
      hide Inv, Holds, Owed, Admitted, SatInc;
      var sh := shards[k];
      var active: map<Ip, nat>, recent: map<Ip, nat> := Row(sh.active, t.user), Row(sh.recent, t.user);
      var count: nat := if t.ip in active then active[t.ip] else 0;
      AdmittedShard(sh, t, active, recent, count);
      shards := shards[k := Shard(sh.active[t.user := active[t.ip := SatInc(count)]],
                                  sh.recent[t.user := recent[t.ip := t.now]])];
      ghost var p := (t.user, t.ip);
      live := live[p := (if p in live then live[p] else 0) + 1];
      history := history[p := t.now];
      tasks := tasks[tid := Idle];
      assert View() == DoAdmit(s, tid, t);
    }

    /** Another session of an IP that is already active: no limit applies, only the recent cap. */
    method Readmit(t: Ticket, k: nat, ghost tid: nat) returns (ok: bool)
      requires Valid() && At(View(), tid, Deciding(t)) && k == hasher(t.user) % SHARDS
      requires t.ip in ActiveRow(View(), t.user)
      modifies this
      ensures Valid() && policy == old(policy) && tasks == old(tasks)[tid := Idle] && queues == old(queues)
      ensures
        var known := t.ip in RecentRow(old(View()), t.user);
        && ok == (known || old(recentCount) < MAX_RECENT_IP_ENTRIES)
        && activeCount == old(activeCount)
        && recentCount == old(recentCount) + (if ok && !known then 1 else 0)
      ensures shards == old(shards)[k := if ok then Admitted(old(shards)[k], t) else old(shards)[k]]
    {
      ok := true;
      if t.ip !in Row(shards[k].recent, t.user) {
        ok := TryIncrementRecent(tid, Readmitting(t));
      }
      if ok {
        CommitAdmission(t, k, tid);
      } else {
        Leave(tid);
      }
    }

    /** The first session of an IP: limit, active cap and recent cap. */
    method AdmitNew(t: Ticket, k: nat, ghost tid: nat) returns (ok: bool)
      requires Valid() && At(View(), tid, Deciding(t)) && k == hasher(t.user) % SHARDS
      requires t.ip !in ActiveRow(View(), t.user)
      modifies this
      ensures Valid() && policy == old(policy) && tasks == old(tasks)[tid := Idle] && queues == old(queues)
      ensures
        var active, recent := ActiveRow(old(View()), t.user), RecentRow(old(View()), t.user);
        && ok == (
             && (t.limit.Some? && t.mode != TimeWindow ==> |active| < t.limit.value)
             && (t.limit.Some? && t.mode != ActiveWindow ==> |recent| < t.limit.value || t.ip in recent)
             && old(activeCount) < MAX_ACTIVE_IP_ENTRIES
             && (t.ip in recent || old(recentCount) < MAX_RECENT_IP_ENTRIES))
        && activeCount == old(activeCount) + (if ok then 1 else 0)
        && recentCount == old(recentCount) + (if ok && t.ip !in recent then 1 else 0)
      ensures shards == old(shards)[k := if ok then Admitted(old(shards)[k], t) else old(shards)[k]]
    {
      var active, recent := Row(shards[k].active, t.user), Row(shards[k].recent, t.user);
      if Denied(t.limit, t.mode, |active|, |recent|, t.ip in recent) {
        Leave(tid);
        return false;
      }
      ok := ReserveSlots(t, k, tid);
      if ok {
        CommitAdmission(t, k, tid);
      }
    }

    /** The two reservations of a new IP, the first given back when the second fails. */
    method ReserveSlots(t: Ticket, k: nat, ghost tid: nat) returns (ok: bool)
      requires Valid() && At(View(), tid, Deciding(t)) && k == hasher(t.user) % SHARDS
      requires t.ip !in ActiveRow(View(), t.user)
      modifies this
      ensures Valid() && policy == old(policy) && shards == old(shards) && queues == old(queues)
      ensures
        var known := t.ip in RecentRow(old(View()), t.user);
        && ok == (old(activeCount) < MAX_ACTIVE_IP_ENTRIES && (known || old(recentCount) < MAX_RECENT_IP_ENTRIES))
        && activeCount == old(activeCount) + (if ok then 1 else 0)
        && recentCount == old(recentCount) + (if ok && !known then 1 else 0)
        && tasks == old(tasks)[tid := if !ok then Idle else if known then ActiveReserved(t) else BothReserved(t)]
    {
      ok := TryIncrementActive(tid, ActiveReserved(t));
      if !ok {
        Leave(tid);
        return;
      }
      if t.ip !in Row(shards[k].recent, t.user) {
        ok := TryIncrementRecent(tid, BothReserved(t));
        if !ok {
          DecrementActive(1, tid, Idle);
        }
      }
    }

    /** `check_and_add` from the reads of the policy on: the verdict is `Accepts`, an accepted IP has one
        reference more and is seen now, a refused one only leaves its user's stale entries pruned. */
    method Admit(u: User, ip: Ip, now: nat, ghost tid: nat) returns (ok: bool)
      requires Valid() && At(View(), tid, Idle) && Free(View(), tid, ShardIdx(View(), u))
      modifies this
      ensures Valid() && policy == old(policy) && tasks == old(tasks) && queues == old(queues)
      ensures
        var k := hasher(u) % SHARDS;
        var t := Ticket(u, ip, now, UserLimit(old(policy), u), old(policy).mode, LimitWindow(old(policy)));
        var open := Opened(old(shards)[k], t);
        && ok == Accepts(old(View()), t)
        && shards == old(shards)[k := if ok then Admitted(open, t) else open]
        && activeCount == old(activeCount) + (if ok && ip !in ActiveRow(old(View()), u) then 1 else 0)
        && recentCount == old(recentCount) - |RecentRow(old(View()), u)| + |Row(open.recent, u)|
             + (if ok && ip !in Row(open.recent, u) then 1 else 0)
    {
      assert Shaped(View());
      hide Inv, PruneRow;
      var k := hasher(u) % SHARDS;
      var t := Ticket(u, ip, now, UserLimit(policy, u), policy.mode, LimitWindow(policy));
      PruneRowKeeps(Row(shards[k].recent, u), now, t.window);
      BeginAdmission(t, k, tid);
      if ip in Row(shards[k].active, u) {
        ok := Readmit(t, k, tid);
      } else {
        ok := AdmitNew(t, k, tid);
      }
    }

    /** Take the lock, make sure of both rows, prune the recent one and give its entries back. */
    method BeginAdmission(t: Ticket, k: nat, ghost tid: nat)
      requires Valid() && At(View(), tid, Idle) && k == hasher(t.user) % SHARDS && Free(View(), tid, k)
      modifies this
      ensures Valid() && tasks == old(tasks)[tid := Deciding(t)] && queues == old(queues)
      ensures shards == old(shards)[k := Opened(old(shards)[k], t)]
      ensures activeCount == old(activeCount) && policy == old(policy)
      ensures recentCount == old(recentCount) - |RecentRow(old(View()), t.user)| + |RecentRow(View(), t.user)|
    {
      hide Inv, PruneRow;
      ArriveAt(t, tid);
      OthersDoNotHold(old(View()), View(), tid, k);
      var pruned := OpenAdmission(t, k, tid);
      SubtractPruned(t, pruned, tid);
    }

    ghost method ArriveAt(t: Ticket, tid: nat)
      requires Valid() && At(View(), tid, Idle)
      modifies this`tasks
      ensures Valid() && tasks == old(tasks)[tid := Arrived(t)]
    {
      PutInv(View(), tid, Arrived(t));
      tasks := tasks[tid := Arrived(t)];
    }

    /** The recent counter follows the pruning. */
    method SubtractPruned(t: Ticket, pruned: nat, ghost tid: nat)
      requires Valid() && At(View(), tid, Pruned(t, pruned))
      modifies this
      ensures Valid() && tasks == old(tasks)[tid := Deciding(t)] && queues == old(queues) && shards == old(shards)
      ensures activeCount == old(activeCount) && policy == old(policy)
      ensures recentCount == old(recentCount) - pruned
    {
      OwedFits(View(), tid, Recent);
      DecrementRecent(pruned, tid, Deciding(t));
    }

    /** `check_and_add`: drain the user's releases, compact when due, then decide. */
    method CheckAndAdd(u: User, ip: Ip, compactDue: bool, compactNow: nat, now: nat, ghost tid: nat)
        returns (ok: bool, ghost ready: State)
      requires Valid() && At(View(), tid, Idle) && Free(View(), tid, ShardIdx(View(), u))
      requires compactDue ==> forall k :: 0 <= k < SHARDS ==> Free(View(), tid, k)
      modifies this
      ensures Valid() && tasks == old(tasks) && policy == old(policy)
      ensures Inv(ready) && ready.tasks == old(tasks) && ready.queues == queues && ready.hasher == hasher
      ensures queues == old(queues)[hasher(u) % SHARDS := old(queues)[hasher(u) % SHARDS] - {u}]
      ensures forall k :: 0 <= k < SHARDS ==>
        ready.shards[k] == Settled(old(View()), k, u, compactDue, compactNow, LimitWindow(old(policy)))
      ensures
        var k := hasher(u) % SHARDS;
        var t := Ticket(u, ip, now, UserLimit(old(policy), u), old(policy).mode, LimitWindow(old(policy)));
        var open := Opened(ready.shards[k], t);
        ok == Accepts(ready, t) && shards == ready.shards[k := if ok then Admitted(open, t) else open]
    {
      Settle(u, compactDue, compactNow, tid);
      ready := View();
      OthersDoNotHold(old(View()), View(), tid, hasher(u) % SHARDS);
      ok := Admit(u, ip, now, tid);
    }

    /** What an admission does before it looks at the user: apply the user's queued releases, compact if due. */
    method Settle(u: User, compactDue: bool, compactNow: nat, ghost tid: nat)
      requires Valid() && At(View(), tid, Idle) && Free(View(), tid, ShardIdx(View(), u))
      requires compactDue ==> forall k :: 0 <= k < SHARDS ==> Free(View(), tid, k)
      modifies this
      ensures Valid() && tasks == old(tasks) && policy == old(policy)
      ensures queues == old(queues)[hasher(u) % SHARDS := old(queues)[hasher(u) % SHARDS] - {u}]
      ensures forall k :: 0 <= k < SHARDS ==>
        shards[k] == Settled(old(View()), k, u, compactDue, compactNow, LimitWindow(old(policy)))
    {
      DrainCleanupForUser(u, tid);
      if compactDue {
        forall k | 0 <= k < SHARDS
          ensures Free(View(), tid, k)
        {
          OthersDoNotHold(old(View()), View(), tid, k);
        }
        Compact(compactNow, tid);
      }
    }

    // ----- maintenance -----

    /** One shard of `maybe_compact_empty_users`. */
    method CompactShard(k: nat, now: nat, window: nat, ghost tid: nat)
      requires Valid() && At(View(), tid, Compacting(k, now, window)) && k < SHARDS && Free(View(), tid, k)
      modifies this
      ensures Valid() && policy == old(policy) && queues == old(queues)
      ensures tasks == old(tasks)[tid := if k + 1 < SHARDS then Compacting(k + 1, now, window) else Idle]
      ensures activeCount == old(activeCount) && shards == old(shards)[k := Compacted(old(shards)[k], now, window)]
    {
      var pruned := PruneShard(k, now, window, tid);
      DecrementRecent(pruned, tid, CompactSweeping(k, now, window));
      SweepShard(k, now, window, tid);
    }

    method PruneShard(k: nat, now: nat, window: nat, ghost tid: nat) returns (pruned: nat)
      requires Valid() && At(View(), tid, Compacting(k, now, window)) && k < SHARDS && Free(View(), tid, k)
      modifies this
      ensures Valid() && View() == DoCompactPrune(old(View()), tid, k, now, window)
      ensures At(View(), tid, CompactPruned(k, now, window, pruned))
    {
      ghost var s := View();
      assert Shaped(s);
      hide Inv, PruneAll, Pairs, InWindow;
      var recent;
      recent, pruned := PruneLoop(shards[k].recent, now, window);
      shards := shards[k := shards[k].(recent := recent)];
      tasks := tasks[tid := CompactPruned(k, now, window, pruned)];
      clocks := clocks[k := if now > clocks[k] then now else clocks[k]];
      assert View() == DoCompactPrune(s, tid, k, now, window);
      CompactPruneInv(s, tid, k, now, window);
    }

    method SweepShard(k: nat, now: nat, window: nat, ghost tid: nat)
      requires Valid() && At(View(), tid, CompactSweeping(k, now, window)) && k < SHARDS
      modifies this
      ensures Valid() && View() == DoCompactSweep(old(View()), tid, k, now, window)
    {
      ghost var s := View();
      var active, recent := SweepLoop(shards[k].active, shards[k].recent);
      shards := shards[k := Shard(active, recent)];
      tasks := tasks[tid := if k + 1 < SHARDS then Compacting(k + 1, now, window) else Idle];
      assert View() == DoCompactSweep(s, tid, k, now, window);
      CompactSweepInv(s, tid, k, now, window);
    }

    /** `maybe_compact_empty_users` once it is due: every shard pruned and swept, queues untouched. */
    method Compact(now: nat, ghost tid: nat)
      requires Valid() && At(View(), tid, Idle) && forall k :: 0 <= k < SHARDS ==> Free(View(), tid, k)
      modifies this
      ensures Valid() && policy == old(policy) && tasks == old(tasks) && queues == old(queues)
      ensures activeCount == old(activeCount)
      ensures forall k :: 0 <= k < SHARDS ==> shards[k] == Compacted(old(shards)[k], now, LimitWindow(old(policy)))
    {
      var window := LimitWindow(policy);
      PutInv(View(), tid, Compacting(0, now, window));
      tasks := tasks[tid := Compacting(0, now, window)];
      var k := 0;
      while k < SHARDS
        invariant 0 <= k <= SHARDS && Valid() && queues == old(queues) && policy == old(policy)
        invariant activeCount == old(activeCount)
        invariant tasks == old(tasks)[tid := if k < SHARDS then Compacting(k, now, window) else Idle]
        invariant forall i :: 0 <= i < k ==> shards[i] == Compacted(old(shards)[i], now, window)
        invariant forall i :: k <= i < SHARDS ==> shards[i] == old(shards)[i]
      {
        OthersDoNotHold(old(View()), View(), tid, k);
        CompactShard(k, now, window, tid);
        k := k + 1;
      }
    }

    /** `clear_user_ips`: the user leaves both tables and both counters follow. */
    method ClearUserIps(u: User, ghost tid: nat)
      requires Valid() && At(View(), tid, Idle) && Free(View(), tid, ShardIdx(View(), u))
      modifies this
      ensures Valid() && policy == old(policy) && tasks == old(tasks) && queues == old(queues)
      ensures
        var k := hasher(u) % SHARDS;
        && shards == old(shards)[k := Shard(old(shards)[k].active - {u}, old(shards)[k].recent - {u})]
        && activeCount == old(activeCount) - |ActiveRow(old(View()), u)|
        && recentCount == old(recentCount) - |RecentRow(old(View()), u)|
    {
      var k := hasher(u) % SHARDS;
      ClearActivePart(u, k, tid);
      ClearRecentPart(u, k, tid);
    }

    /** `clear_all` with nothing else running. */
    method ClearAll()
      requires Valid() && forall j :: 0 <= j < |tasks| ==> tasks[j] == Idle
      modifies this
      ensures Valid() && View() == DoClearAll(old(View()))
    {
      ghost var s := View();
      ClearAllInv(s);
      hide Inv;
      ClearTables();
      activeCount, recentCount := 0, 0;
      ClearQueues();
      queueLen, history := 0, map[];
      assert View() == DoClearAll(s);
    }

    method ClearTables()
      requires |shards| == SHARDS
      modifies this`shards
      ensures shards == seq(SHARDS, _ => Shard(map[], map[]))
    {
      for k := 0 to SHARDS
        invariant |shards| == SHARDS && forall i :: 0 <= i < k ==> shards[i] == Shard(map[], map[])
      {
        shards := shards[k := Shard(map[], map[])];
      }
    }

    method ClearQueues()
      requires |queues| == SHARDS
      modifies this`queues
      ensures queues == seq(SHARDS, _ => map[])
    {
      for k := 0 to SHARDS
        invariant |queues| == SHARDS && forall i :: 0 <= i < k ==> queues[i] == map[]
      {
        queues := queues[k := map[]];
      }
    }

    method ClearActivePart(u: User, k: nat, ghost tid: nat)
      requires Valid() && At(View(), tid, Idle) && k == hasher(u) % SHARDS && Free(View(), tid, k)
      modifies this
      ensures Valid() && policy == old(policy) && tasks == old(tasks)[tid := ClearingRecent(u)] && queues == old(queues)
      ensures shards == old(shards)[k := old(shards)[k].(active := old(shards)[k].active - {u})]
      ensures activeCount == old(activeCount) - |ActiveRow(old(View()), u)| && recentCount == old(recentCount)
    {
      var removed := ClearActiveRow(u, k, tid);
      OwedFits(View(), tid, Active);
      DecrementActive(removed, tid, ClearingRecent(u));
    }

    method ClearRecentPart(u: User, k: nat, ghost tid: nat)
      requires Valid() && At(View(), tid, ClearingRecent(u)) && k == hasher(u) % SHARDS
      modifies this
      ensures Valid() && policy == old(policy) && tasks == old(tasks)[tid := Idle] && queues == old(queues)
      ensures shards == old(shards)[k := old(shards)[k].(recent := old(shards)[k].recent - {u})]
      ensures recentCount == old(recentCount) - |RecentRow(old(View()), u)| && activeCount == old(activeCount)
    {
      var removed := ClearRecentRow(u, k, tid);
      OwedFits(View(), tid, Recent);
      DecrementRecent(removed, tid, Idle);
    }

    method ClearActiveRow(u: User, k: nat, ghost tid: nat) returns (removed: nat)
      requires Valid() && At(View(), tid, Idle) && k == hasher(u) % SHARDS && Free(View(), tid, k)
      modifies this
      ensures Valid() && View() == DoClearActive(old(View()), tid, u)
      ensures removed == |ActiveRow(old(View()), u)|
    {
      ghost var s := View();
      removed := |Row(shards[k].active, u)|;
      shards := shards[k := shards[k].(active := shards[k].active - {u})];
      tasks := tasks[tid := ClearedActive(u, removed)];
      ClearActiveInv(s, tid, u);
    }

    method ClearRecentRow(u: User, k: nat, ghost tid: nat) returns (removed: nat)
      requires Valid() && At(View(), tid, ClearingRecent(u)) && k == hasher(u) % SHARDS
      modifies this
      ensures Valid() && View() == DoClearRecent(old(View()), tid, u)
      ensures removed == |RecentRow(old(View()), u)|
    {
      ghost var s := View();
      removed := |Row(shards[k].recent, u)|;
      shards := shards[k := shards[k].(recent := shards[k].recent - {u})];
      tasks := tasks[tid := RecentRemoved(k, removed)];
      history := map p | p in history && p.0 != u :: history[p];
      ClearRecentInv(s, tid, u);
    }

    // ----- readers -----

    /** `memory_stats` with no writer in between: the totals are the stored entries of all shards. */
    method ReadMemoryStats() returns (stats: MemoryStats)
      requires Valid()
      ensures stats.activeUsers == Sum(ActiveUsers(View())) && stats.recentUsers == Sum(RecentUsers(View()))
      ensures stats.activeEntries == Sum(Stored(View(), Active))
      ensures stats.recentEntries == Sum(Stored(View(), Recent))
      ensures stats.queueLen == queueLen
      ensures (forall j :: 0 <= j < |tasks| ==> tasks[j] == Idle) ==>
        stats.activeEntries == activeCount && stats.recentEntries == recentCount
    {
      ghost var s := View();
      IdleTotals(s);
      var users, others := CountUsers();
      var activeEntries, recentEntries := CountStored();
      stats := MemoryStats(users, others, activeEntries, recentEntries, queueLen);
    }

    method CountUsers() returns (active: nat, recent: nat)
      requires |shards| == SHARDS
      ensures active == Sum(ActiveUsers(View())) && recent == Sum(RecentUsers(View()))
    {
      active, recent := 0, 0;
      ghost var a, r := ActiveUsers(View()), RecentUsers(View());
      for k := 0 to SHARDS
        invariant active == Sum(a[..k]) && recent == Sum(r[..k])
      {
        SumPrefix(a, k);
        SumPrefix(r, k);
        active, recent := active + |shards[k].active|, recent + |shards[k].recent|;
      }
      assert a[..SHARDS] == a && r[..SHARDS] == r;
    }

    method CountStored() returns (active: nat, recent: nat)
      requires Shaped(View())
      ensures active == Sum(Stored(View(), Active)) && recent == Sum(Stored(View(), Recent))
    {
      active, recent := 0, 0;
      ghost var a, r := Stored(View(), Active), Stored(View(), Recent);
      for k := 0 to SHARDS
        invariant active == Sum(a[..k]) && recent == Sum(r[..k])
      {
        var moreActive := CountEntries(shards[k].active);
        var moreRecent := CountEntries(shards[k].recent);
        SumPrefix(a, k);
        SumPrefix(r, k);
        active, recent := active + moreActive, recent + moreRecent;
      }
      assert a[..SHARDS] == a && r[..SHARDS] == r;
    }

    /** `get_recent_counts_for_users_snapshot`. */
    method RecentCounts(users: seq<User>, now: nat) returns (counts: map<User, nat>)
      requires Valid()
      ensures counts.Keys == set u | u in users
      ensures forall u :: u in users ==> counts[u] == |InWindow(RecentRow(View(), u), now, LimitWindow(policy))|
    {
      counts := map[];
      var window := LimitWindow(policy);
      for i := 0 to |users|
        invariant counts.Keys == set u | u in users[..i]
        invariant forall u :: u in counts ==> counts[u] == |InWindow(RecentRow(View(), u), now, window)|
      {
        var u := users[i];
        var kept := PruneRow(Row(shards[hasher(u) % SHARDS].recent, u), now, window);
        PruneRowKeeps(Row(shards[hasher(u) % SHARDS].recent, u), now, window);
        counts := counts[u := |kept|];
        assert users[..i + 1] == users[..i] + [u];
      }
      assert users[..|users|] == users;
    }
  }
}
