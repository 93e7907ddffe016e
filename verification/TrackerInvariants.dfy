/** What every step of the tracker keeps: the locks exclude each other, the tables and queues are well
    formed, and every entry counter equals the stored entries plus what the running tasks still owe. */
module TrackerInvariants {
  import opened Tables
  import opened Wrappers
  import opened ShardSpec
  import opened TrackerProtocol

  // ----- structure -----

  ghost predicate Exclusive(s: State) {
    forall i, j :: 0 <= i < |s.tasks| && 0 <= j < |s.tasks| && i != j && Holds(s, s.tasks[i]).Some?
      ==> Holds(s, s.tasks[i]) != Holds(s, s.tasks[j])
  }

  ghost predicate BatchOk(s: State, k: nat, batch: Batch) {
    && k < SHARDS
    && |batch| > 0
    && forall p :: p in batch ==> ShardIdx(s, p.0) == k && batch[p] > 0
  }

  /** What a lock holder has established about its shard and may rely on at its next step. */
  ghost predicate TaskOk(s: State, t: Task)
    requires Shaped(s)
  {
    match t
    case Taken(k, batch) => BatchOk(s, k, batch)
    case Popped(k, batch) => BatchOk(s, k, batch)
    case ActiveRemoved(k, _) => k < SHARDS
    case RecentRemoved(k, _) => k < SHARDS
    case Compacting(k, _, _) => k < SHARDS
    case CompactPruned(k, _, _, _) => k < SHARDS
    case CompactSweeping(k, _, _) => k < SHARDS
    case Readmitting(t) =>
      var sh := s.shards[ShardIdx(s, t.user)];
      t.ip in Row(sh.active, t.user) && t.ip !in Row(sh.recent, t.user)
    case ActiveReserved(t) =>
      t.ip !in Row(s.shards[ShardIdx(s, t.user)].active, t.user)
    case BothReserved(t) =>
      var sh := s.shards[ShardIdx(s, t.user)];
      t.ip !in Row(sh.active, t.user) && t.ip !in Row(sh.recent, t.user)
    case _ => true
  }

  ghost predicate QueueAt(s: State, k: nat)
    requires Shaped(s) && k < SHARDS
  {
    && QueueOk(s.queues[k])
    && forall u :: u in s.queues[k] ==> ShardIdx(s, u) == k
  }

  ghost predicate Structure(s: State) {
    && Shaped(s)
    && Exclusive(s)
    && (forall j :: 0 <= j < |s.tasks| ==> TaskOk(s, s.tasks[j]))
    && (forall k :: 0 <= k < SHARDS ==> QueueAt(s, k))
    && (forall k :: 0 <= k < SHARDS ==> Positive(s.shards[k].active))
  }

  /** `s'` differs from `s` at most at one task, one shard and that shard's queue. */
  ghost predicate Local(s: State, s': State, tid: nat, k: nat) {
    && Shaped(s) && Shaped(s')
    && s'.hasher == s.hasher
    && tid < |s.tasks| && k < SHARDS
    && |s'.tasks| == |s.tasks|
    && s'.tasks == s.tasks[tid := s'.tasks[tid]]
    && s'.shards == s.shards[k := s'.shards[k]]
    && s'.queues == s.queues[k := s'.queues[k]]
  }

  lemma HolderIsAlone(s: State, tid: nat, k: nat)
    requires Exclusive(s) && tid < |s.tasks| && Holds(s, s.tasks[tid]) == Some(k)
    ensures Free(s, tid, k)
  {
  }

  lemma LocksStayExclusive(s: State, s': State, tid: nat, k: nat)
    requires Exclusive(s) && Local(s, s', tid, k)
    requires
      var before, after := Holds(s, s.tasks[tid]), Holds(s', s'.tasks[tid]);
      after == None || after == before || (after == Some(k) && Free(s, tid, k))
    ensures Exclusive(s')
  {
    forall j | 0 <= j < |s'.tasks| && j != tid
      ensures Holds(s', s'.tasks[j]) == Holds(s, s.tasks[j])
    {
    }
  }

  lemma OtherTasksStayOk(s: State, s': State, tid: nat, k: nat, j: nat)
    requires Local(s, s', tid, k) && j < |s.tasks| && j != tid
    requires TaskOk(s, s.tasks[j])
    requires s'.shards[k] == s.shards[k] || Free(s, tid, k)
    ensures TaskOk(s', s'.tasks[j])
  {
    assert s'.tasks[j] == s.tasks[j];
    assert s'.shards[k] != s.shards[k] ==> Holds(s, s.tasks[j]) != Some(k);
  }

  /** One lemma for every step: a local change by a task that holds or takes the lock of what it
      changes keeps the structure, if what it leaves behind is well formed. */
  lemma StructureKept(s: State, s': State, tid: nat, k: nat)
    requires Structure(s) && Local(s, s', tid, k)
    requires s'.shards[k] == s.shards[k] || Free(s, tid, k)
    requires
      var before, after := Holds(s, s.tasks[tid]), Holds(s', s'.tasks[tid]);
      after == None || after == before || (after == Some(k) && Free(s, tid, k))
    requires TaskOk(s', s'.tasks[tid])
    requires QueueAt(s', k)
    requires Positive(s'.shards[k].active)
    ensures Structure(s')
  {
    LocksStayExclusive(s, s', tid, k);
    forall j | 0 <= j < |s'.tasks|
      ensures TaskOk(s', s'.tasks[j])
    {
      if j != tid {
        OtherTasksStayOk(s, s', tid, k, j);
      }
    }
    forall i | 0 <= i < SHARDS
      ensures QueueAt(s', i)
    {
      assert QueueAt(s, i);
    }
  }

  // ----- ledgers -----

  datatype Ledger = Active | Recent | Queued

  /** The entries a shard stores for a ledger. */
  ghost function StoredAt(s: State, l: Ledger, k: nat): nat
    requires Shaped(s) && k < SHARDS
  {
    match l
    case Active => |Pairs(s.shards[k].active)|
    case Recent => |Pairs(s.shards[k].recent)|
    case Queued => |Pairs(s.queues[k])|
  }

  /** What a task has added to a counter and not yet stored, or deleted and not yet subtracted. */
  function Owed(l: Ledger, t: Task): nat {
    match l
    case Active => (
      match t
      case ActiveRemoved(_, n) => n
      case ClearedActive(_, n) => n
      case ActiveReserved(_) => 1
      case BothReserved(_) => 1
      case RollingBack(_) => 1
      case _ => 0)
    case Recent => (
      match t
      case Pruned(_, n) => n
      case CompactPruned(_, _, _, n) => n
      case RecentRemoved(_, n) => n
      case Readmitting(_) => 1
      case BothReserved(_) => 1
      case _ => 0)
    case Queued => (
      match t
      case Taken(_, batch) => |batch|
      case _ => 0)
  }

  ghost function Stored(s: State, l: Ledger): seq<nat>
    requires Shaped(s)
  {
    seq(SHARDS, k requires 0 <= k < SHARDS => StoredAt(s, l, k))
  }

  function Owing(s: State, l: Ledger): seq<nat> {
    seq(|s.tasks|, j requires 0 <= j < |s.tasks| => Owed(l, s.tasks[j]))
  }

  ghost function Total(s: State, l: Ledger): nat
    requires Shaped(s)
  {
    Sum(Stored(s, l)) + Sum(Owing(s, l))
  }

  function Counter(s: State, l: Ledger): nat {
    match l
    case Active => s.activeCount
    case Recent => s.recentCount
    case Queued => s.queueLen
  }

  ghost predicate Balanced(s: State)
    requires Shaped(s)
  {
    && (forall l :: Counter(s, l) == Total(s, l))
    && s.activeCount <= MAX_ACTIVE_IP_ENTRIES
    && s.recentCount <= MAX_RECENT_IP_ENTRIES
    && s.queueLen < U64_SIZE
  }

  lemma LedgerStep(s: State, s': State, tid: nat, k: nat, l: Ledger)
    requires Local(s, s', tid, k)
    ensures Total(s', l) - StoredAt(s', l, k) - Owed(l, s'.tasks[tid])
         == Total(s, l) - StoredAt(s, l, k) - Owed(l, s.tasks[tid])
    ensures StoredAt(s, l, k) + Owed(l, s.tasks[tid]) <= Total(s, l)
  {
    assert Stored(s', l) == Stored(s, l)[k := StoredAt(s', l, k)];
    assert Owing(s', l) == Owing(s, l)[tid := Owed(l, s'.tasks[tid])];
    SumUpdate(Stored(s, l), k, StoredAt(s', l, k));
    SumUpdate(Owing(s, l), tid, Owed(l, s'.tasks[tid]));
  }

  /** The local form of the balance: the counter moves by what its shard and its task move. */
  ghost predicate Moves(s: State, s': State, tid: nat, k: nat, l: Ledger)
    requires Local(s, s', tid, k)
  {
    Counter(s', l) - Counter(s, l)
    == StoredAt(s', l, k) - StoredAt(s, l, k) + Owed(l, s'.tasks[tid]) - Owed(l, s.tasks[tid])
  }

  lemma BalanceKept(s: State, s': State, tid: nat, k: nat)
    requires Local(s, s', tid, k) && Balanced(s)
    requires forall l :: Moves(s, s', tid, k, l)
    requires s'.activeCount <= MAX_ACTIVE_IP_ENTRIES && s'.recentCount <= MAX_RECENT_IP_ENTRIES
    requires s'.queueLen < U64_SIZE
    ensures Balanced(s')
  {
    forall l
      ensures Counter(s', l) == Total(s', l)
    {
      LedgerStep(s, s', tid, k, l);
      assert Moves(s, s', tid, k, l);
    }
  }

  ghost predicate Inv(s: State) {
    Structure(s) && Balanced(s)
  }

  /** The saturating and the wrapping subtraction are exact: a task never owes more than the counter. */
  lemma OwedFits(s: State, tid: nat, l: Ledger)
    requires Inv(s) && tid < |s.tasks|
    ensures Owed(l, s.tasks[tid]) <= Counter(s, l)
  {
    LedgerStep(s, s, tid, 0, l);
    assert Counter(s, l) == Total(s, l);
  }

  lemma InitInv(s: State)
    requires Init(s)
    ensures Inv(s)
  {
    forall l
      ensures Counter(s, l) == Total(s, l)
    {
      SumZero(Stored(s, l));
      SumZero(Owing(s, l));
    }
  }
}
