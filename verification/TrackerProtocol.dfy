/** The IP tracker as a state machine over its indivisible steps: one queue operation under a queue
    mutex, one atomic counter operation, or one change of a shard's tables under its write lock.
    Any number of tasks run at once; a task between two steps of an operation is a `Task` value. */
module TrackerProtocol {
  import opened Tables
  import opened Wrappers
  import opened ShardSpec

  const MAX_ACTIVE_IP_ENTRIES: nat := 131_072
  const MAX_RECENT_IP_ENTRIES: nat := 262_144
  const SHARDS: nat := 64

  datatype Mode = ActiveWindow | TimeWindow | Combined

  datatype Policy = Policy(maxIps: map<User, nat>, defaultMax: nat, mode: Mode, windowSecs: nat)

  /** The limit in force for a user; zero means unlimited. */
  function UserLimit(policy: Policy, u: User): (limit: Option<nat>)
    ensures limit.Some? ==> limit.value > 0
  {
    if u in policy.maxIps && policy.maxIps[u] > 0 then Some(policy.maxIps[u])
    else if policy.defaultMax > 0 then Some(policy.defaultMax)
    else None
  }

  function LimitWindow(policy: Policy): nat {
    if policy.windowSecs > 1 then policy.windowSecs else 1
  }

  datatype Shard = Shard(active: Table<nat>, recent: Table<nat>)

  /** What an admission has read before it asks for the shard lock. */
  datatype Ticket = Ticket(user: User, ip: Ip, now: nat, limit: Option<nat>, mode: Mode, window: nat)

  datatype Task =
    | Idle
      // drains
    | Taken(shard: nat, batch: Batch)           // a user's queue removed, queue length not yet reduced
    | Popped(shard: nat, batch: Batch)          // batch in flight, waiting for the shard lock
      // lock held, deleted active entries not yet subtracted
    | ActiveRemoved(shard: nat, removed: nat)
      // admission
    | Arrived(ticket: Ticket)
    | Pruned(ticket: Ticket, removed: nat)      // lock held from here on
    | Deciding(ticket: Ticket)
    | Readmitting(ticket: Ticket)               // recent slot reserved
    | ActiveReserved(ticket: Ticket)
    | BothReserved(ticket: Ticket)
    | RollingBack(ticket: Ticket)               // active slot to give back
      // compaction
    | Compacting(shard: nat, now: nat, window: nat)
    | CompactPruned(shard: nat, now: nat, window: nat, removed: nat)
    | CompactSweeping(shard: nat, now: nat, window: nat)
      // clearing one user
    | ClearedActive(user: User, removed: nat)
    | ClearingRecent(user: User)
    | RecentRemoved(shard: nat, removed: nat)

  /** `live` and `history` are bookkeeping of the environment: sessions admitted and not yet released,
      and the instant of each pair's last successful admission. `clocks[k]` is the latest instant a
      holder of shard lock `k` has pruned with. */
  datatype State = State(
    hasher: User -> nat,
    shards: seq<Shard>,
    queues: seq<Table<nat>>,
    activeCount: nat,
    recentCount: nat,
    queueLen: nat,
    policy: Policy,
    tasks: seq<Task>,
    live: map<Pair, nat>,
    history: map<Pair, nat>,
    clocks: seq<nat>)

  function ShardIdx(s: State, u: User): (k: nat)
    ensures k < SHARDS
  {
    s.hasher(u) % SHARDS
  }

  predicate Shaped(s: State) {
    |s.shards| == |s.queues| == |s.clocks| == SHARDS
  }

  ghost predicate Init(s: State) {
    && Shaped(s)
    && (forall k :: 0 <= k < SHARDS ==> s.shards[k] == Shard(map[], map[]))
    && (forall k :: 0 <= k < SHARDS ==> s.queues[k] == map[])
    && s.activeCount == s.recentCount == s.queueLen == 0
    && (forall t :: 0 <= t < |s.tasks| ==> s.tasks[t] == Idle)
    && s.live == map[]
    && s.history == map[]
  }

  /** The shard whose write lock a task holds. */
  function Holds(s: State, t: Task): Option<nat> {
    match t
    case Idle => None
    case Taken(_, _) => None
    case Popped(_, _) => None
    case Arrived(_) => None
    case Compacting(_, _, _) => None
    case ActiveRemoved(k, _) => Some(k)
    case CompactPruned(k, _, _, _) => Some(k)
    case CompactSweeping(k, _, _) => Some(k)
    case RecentRemoved(k, _) => Some(k)
    case ClearedActive(u, _) => Some(ShardIdx(s, u))
    case ClearingRecent(u) => Some(ShardIdx(s, u))
    case _ => Some(ShardIdx(s, t.ticket.user))
  }

  ghost predicate Free(s: State, tid: nat, k: nat) {
    forall j :: 0 <= j < |s.tasks| && j != tid ==> Holds(s, s.tasks[j]) != Some(k)
  }

  function Live(s: State, p: Pair): nat {
    if p in s.live then s.live[p] else 0
  }

  /** The rejection rule of the three limit modes. */
  predicate Denied(limit: Option<nat>, mode: Mode, activeLen: nat, recentLen: nat, inRecent: bool) {
    limit.Some? &&
    match mode
    case ActiveWindow => activeLen >= limit.value
    case TimeWindow => recentLen >= limit.value && !inRecent
    case Combined => activeLen >= limit.value || (recentLen >= limit.value && !inRecent)
  }

  // ----- the shard's tables as an admission changes them -----

  function Opened(sh: Shard, t: Ticket): Shard {
    Shard(sh.active[t.user := Row(sh.active, t.user)],
          sh.recent[t.user := PruneRow(Row(sh.recent, t.user), t.now, t.window)])
  }

  function Admitted(sh: Shard, t: Ticket): Shard {
    Shard(sh.active[t.user := Row(sh.active, t.user)[t.ip := SatInc(Count(sh.active, (t.user, t.ip)))]],
          sh.recent[t.user := Row(sh.recent, t.user)[t.ip := t.now]])
  }

  // ----- steps -----

  datatype Step =
    | Enqueue(tid: nat, pair: Pair)
    | TakeUser(tid: nat, user: User)
    | PopShard(tid: nat, shard: nat, batch: Batch)
    | SubQueueLen(tid: nat)
    | ApplyBatch(tid: nat)
    | RemoveIp(tid: nat, pair: Pair)
    | SubActive(tid: nat)
    | Arrive(tid: nat, user: User, ip: Ip, now: nat)
    | Lock(tid: nat)
    | SubPruned(tid: nat)
    | Decide(tid: nat)
    | ReserveRecent(tid: nat)
    | Commit(tid: nat)
    | Rollback(tid: nat)
    | StartCompact(tid: nat, now: nat)
    | CompactPrune(tid: nat)
    | CompactSub(tid: nat)
    | CompactSweep(tid: nat)
    | ClearActive(tid: nat, user: User)
    | ClearSubActive(tid: nat)
    | ClearRecent(tid: nat)
    | SubRecent(tid: nat)
    | ClearAll
    | SetPolicy(policy: Policy)
    | Spawn

  function Put(s: State, tid: nat, t: Task): State
    requires tid < |s.tasks|
  {
    s.(tasks := s.tasks[tid := t])
  }

  function PutShard(s: State, k: nat, sh: Shard): State
    requires k < |s.shards|
  {
    s.(shards := s.shards[k := sh])
  }

  function Released(live: map<Pair, nat>, p: Pair): map<Pair, nat> {
    if p in live && live[p] > 0 then live[p := live[p] - 1] else live
  }

  function DoEnqueue(s: State, p: Pair): State
    requires Shaped(s)
  {
    var k := ShardIdx(s, p.0);
    s.(queues := s.queues[k := Enqueued(s.queues[k], p)],
       queueLen := if Count(s.queues[k], p) == 0 then (s.queueLen + 1) % U64_SIZE else s.queueLen,
       live := Released(s.live, p))
  }

  function DoTakeUser(s: State, tid: nat, u: User): State
    requires Shaped(s) && tid < |s.tasks|
  {
    var k := ShardIdx(s, u);
    var batch := RowBatch(u, Row(s.queues[k], u));
    Put(s.(queues := s.queues[k := s.queues[k] - {u}]), tid, if batch == map[] then Idle else Taken(k, batch))
  }

  ghost function DoPopShard(s: State, tid: nat, k: nat, batch: Batch): State
    requires Shaped(s) && tid < |s.tasks| && k < SHARDS
  {
    Put(s.(queues := s.queues[k := Without(s.queues[k], batch.Keys)],
           queueLen := WrapSub(s.queueLen, |batch|)),
        tid, if batch == map[] then Idle else Popped(k, batch))
  }

  ghost function DoApplyBatch(s: State, tid: nat, k: nat, batch: Batch): State
    requires Shaped(s) && tid < |s.tasks| && k < SHARDS
  {
    var sh := s.shards[k];
    var active := AfterBatch(sh.active, batch);
    Put(PutShard(s, k, sh.(active := active)), tid,
        ActiveRemoved(k, SatSub(|Pairs(sh.active)|, |Pairs(active)|)))
  }

  function DoRemoveIp(s: State, tid: nat, p: Pair): State
    requires Shaped(s) && tid < |s.tasks|
  {
    var k := ShardIdx(s, p.0);
    var sh := s.shards[k];
    Put(PutShard(s, k, sh.(active := RemoveOne(sh.active, p))), tid,
        ActiveRemoved(k, RemoveOneEntries(sh.active, p))).(live := Released(s.live, p))
  }

  function DoLock(s: State, tid: nat, t: Ticket): State
    requires Shaped(s) && tid < |s.tasks|
  {
    var k := ShardIdx(s, t.user);
    var sh := s.shards[k];
    var before := Row(sh.recent, t.user);
    var after := PruneRow(before, t.now, t.window);
    Put(PutShard(s, k, Opened(sh, t)), tid, Pruned(t, SatSub(|before|, |after|)))
      .(clocks := s.clocks[k := if t.now > s.clocks[k] then t.now else s.clocks[k]])
  }

  /** The successful end of an admission: both tables and the environment's books. */
  function DoAdmit(s: State, tid: nat, t: Ticket): State
    requires Shaped(s) && tid < |s.tasks|
  {
    var k := ShardIdx(s, t.user);
    var p := (t.user, t.ip);
    Put(PutShard(s, k, Admitted(s.shards[k], t)), tid, Idle)
      .(live := s.live[p := Live(s, p) + 1], history := s.history[p := t.now])
  }

  /** A successful `try_increment_counter`, then on to `next`. */
  function TakeActive(s: State, tid: nat, next: Task): State
    requires tid < |s.tasks|
  {
    Put(s.(activeCount := s.activeCount + 1), tid, next)
  }

  function TakeRecent(s: State, tid: nat, next: Task): State
    requires tid < |s.tasks|
  {
    Put(s.(recentCount := s.recentCount + 1), tid, next)
  }

  function DoDecide(s: State, tid: nat, t: Ticket): State
    requires Shaped(s) && tid < |s.tasks|
  {
    var sh := s.shards[ShardIdx(s, t.user)];
    var active, recent := Row(sh.active, t.user), Row(sh.recent, t.user);
    if t.ip in active then
      if t.ip in recent then DoAdmit(s, tid, t)
      else if s.recentCount < MAX_RECENT_IP_ENTRIES then TakeRecent(s, tid, Readmitting(t))
      else Put(s, tid, Idle)
    else if Denied(t.limit, t.mode, |active|, |recent|, t.ip in recent) then Put(s, tid, Idle)
    else if s.activeCount < MAX_ACTIVE_IP_ENTRIES then TakeActive(s, tid, ActiveReserved(t))
    else Put(s, tid, Idle)
  }

  function DoReserveRecent(s: State, tid: nat, t: Ticket): State
    requires Shaped(s) && tid < |s.tasks|
  {
    var recent := Row(s.shards[ShardIdx(s, t.user)].recent, t.user);
    if t.ip in recent then DoAdmit(s, tid, t)
    else if s.recentCount < MAX_RECENT_IP_ENTRIES then TakeRecent(s, tid, BothReserved(t))
    else Put(s, tid, RollingBack(t))
  }

  ghost function DoCompactPrune(s: State, tid: nat, k: nat, now: nat, window: nat): State
    requires Shaped(s) && tid < |s.tasks| && k < SHARDS
  {
    var sh := s.shards[k];
    var recent := PruneAll(sh.recent, now, window);
    Put(PutShard(s, k, sh.(recent := recent)), tid,
        CompactPruned(k, now, window, SatSub(|Pairs(sh.recent)|, |Pairs(recent)|)))
      .(clocks := s.clocks[k := if now > s.clocks[k] then now else s.clocks[k]])
  }

  function DoCompactSweep(s: State, tid: nat, k: nat, now: nat, window: nat): State
    requires Shaped(s) && tid < |s.tasks| && k < SHARDS
  {
    var sh := s.shards[k];
    Put(PutShard(s, k, Shard(Sweep(sh.active, sh.recent), Sweep(sh.recent, sh.active))), tid,
        if k + 1 < SHARDS then Compacting(k + 1, now, window) else Idle)
  }

  function DoClearActive(s: State, tid: nat, u: User): State
    requires Shaped(s) && tid < |s.tasks|
  {
    var k := ShardIdx(s, u);
    var sh := s.shards[k];
    Put(PutShard(s, k, sh.(active := sh.active - {u})), tid, ClearedActive(u, |Row(sh.active, u)|))
  }

  function DoClearRecent(s: State, tid: nat, u: User): State
    requires Shaped(s) && tid < |s.tasks|
  {
    var k := ShardIdx(s, u);
    var sh := s.shards[k];
    Put(PutShard(s, k, sh.(recent := sh.recent - {u})), tid, RecentRemoved(k, |Row(sh.recent, u)|))
      .(history := map p | p in s.history && p.0 != u :: s.history[p])
  }

  function DoClearAll(s: State): State {
    s.(shards := seq(SHARDS, _ => Shard(map[], map[])), queues := seq(SHARDS, _ => map[]),
       activeCount := 0, recentCount := 0, queueLen := 0, history := map[])
  }

  /** `decrement_counter` on the active or the recent counter, then on to `next`. */
  function SubtractActive(s: State, tid: nat, n: nat, next: Task): State
    requires tid < |s.tasks|
  {
    Put(s.(activeCount := SatSub(s.activeCount, n)), tid, next)
  }

  function SubtractRecent(s: State, tid: nat, n: nat, next: Task): State
    requires tid < |s.tasks|
  {
    Put(s.(recentCount := SatSub(s.recentCount, n)), tid, next)
  }

  function SubtractQueueLen(s: State, tid: nat, n: nat, next: Task): State
    requires tid < |s.tasks|
  {
    Put(s.(queueLen := WrapSub(s.queueLen, n)), tid, next)
  }

  predicate At(s: State, tid: nat, t: Task) {
    tid < |s.tasks| && s.tasks[tid] == t
  }

  /** When a step can happen: its task is at the right point and, for a step that changes a shard,
      no other task holds that shard's lock. `clear_all` is only taken when nothing else runs; fewer
      than 2^64 pairs are ever queued. */
  ghost predicate Enabled(s: State, step: Step) {
    && Shaped(s)
    && match step
       case Enqueue(tid, p) => At(s, tid, Idle) && s.queueLen + 1 < U64_SIZE
       case TakeUser(tid, u) => At(s, tid, Idle)
       case PopShard(tid, k, batch) => At(s, tid, Idle) && k < SHARDS && IsDrain(s.queues[k], batch)
       case SubQueueLen(tid) => tid < |s.tasks| && s.tasks[tid].Taken?
       case ApplyBatch(tid) =>
         && tid < |s.tasks| && s.tasks[tid].Popped? && s.tasks[tid].shard < SHARDS
         && Free(s, tid, s.tasks[tid].shard)
       case RemoveIp(tid, p) => At(s, tid, Idle) && Free(s, tid, ShardIdx(s, p.0))
       case SubActive(tid) => tid < |s.tasks| && s.tasks[tid].ActiveRemoved?
       case Arrive(tid, u, ip, now) => At(s, tid, Idle)
       case Lock(tid) =>
         && tid < |s.tasks| && s.tasks[tid].Arrived?
         && Free(s, tid, ShardIdx(s, s.tasks[tid].ticket.user))
       case SubPruned(tid) => tid < |s.tasks| && s.tasks[tid].Pruned?
       case Decide(tid) => tid < |s.tasks| && s.tasks[tid].Deciding?
       case ReserveRecent(tid) => tid < |s.tasks| && s.tasks[tid].ActiveReserved?
       case Commit(tid) => tid < |s.tasks| && (s.tasks[tid].Readmitting? || s.tasks[tid].BothReserved?)
       case Rollback(tid) => tid < |s.tasks| && s.tasks[tid].RollingBack?
       case StartCompact(tid, now) => At(s, tid, Idle)
       case CompactPrune(tid) =>
         && tid < |s.tasks| && s.tasks[tid].Compacting? && s.tasks[tid].shard < SHARDS
         && Free(s, tid, s.tasks[tid].shard)
       case CompactSub(tid) => tid < |s.tasks| && s.tasks[tid].CompactPruned?
       case CompactSweep(tid) =>
         tid < |s.tasks| && s.tasks[tid].CompactSweeping? && s.tasks[tid].shard < SHARDS
       case ClearActive(tid, u) => At(s, tid, Idle) && Free(s, tid, ShardIdx(s, u))
       case ClearSubActive(tid) => tid < |s.tasks| && s.tasks[tid].ClearedActive?
       case ClearRecent(tid) => tid < |s.tasks| && s.tasks[tid].ClearingRecent?
       case SubRecent(tid) => tid < |s.tasks| && s.tasks[tid].RecentRemoved?
       case ClearAll => forall j :: 0 <= j < |s.tasks| ==> s.tasks[j] == Idle
       case SetPolicy(_) => true
       case Spawn => true
  }

  ghost function Apply(s: State, step: Step): State
    requires Enabled(s, step)
  {
    match step
    case Enqueue(tid, p) => DoEnqueue(s, p)
    case TakeUser(tid, u) => DoTakeUser(s, tid, u)
    case PopShard(tid, k, batch) => DoPopShard(s, tid, k, batch)
    case SubQueueLen(tid) =>
      var t := s.tasks[tid];
      SubtractQueueLen(s, tid, |t.batch|, Popped(t.shard, t.batch))
    case ApplyBatch(tid) => DoApplyBatch(s, tid, s.tasks[tid].shard, s.tasks[tid].batch)
    case RemoveIp(tid, p) => DoRemoveIp(s, tid, p)
    case SubActive(tid) =>
      SubtractActive(s, tid, s.tasks[tid].removed, Idle)
    case Arrive(tid, u, ip, now) =>
      Put(s, tid, Arrived(Ticket(u, ip, now, UserLimit(s.policy, u), s.policy.mode, LimitWindow(s.policy))))
    case Lock(tid) => DoLock(s, tid, s.tasks[tid].ticket)
    case SubPruned(tid) =>
      SubtractRecent(s, tid, s.tasks[tid].removed, Deciding(s.tasks[tid].ticket))
    case Decide(tid) => DoDecide(s, tid, s.tasks[tid].ticket)
    case ReserveRecent(tid) => DoReserveRecent(s, tid, s.tasks[tid].ticket)
    case Commit(tid) => DoAdmit(s, tid, s.tasks[tid].ticket)
    case Rollback(tid) => SubtractActive(s, tid, 1, Idle)
    case StartCompact(tid, now) => Put(s, tid, Compacting(0, now, LimitWindow(s.policy)))
    case CompactPrune(tid) =>
      var t := s.tasks[tid];
      DoCompactPrune(s, tid, t.shard, t.now, t.window)
    case CompactSub(tid) =>
      var t := s.tasks[tid];
      SubtractRecent(s, tid, t.removed, CompactSweeping(t.shard, t.now, t.window))
    case CompactSweep(tid) =>
      var t := s.tasks[tid];
      DoCompactSweep(s, tid, t.shard, t.now, t.window)
    case ClearActive(tid, u) => DoClearActive(s, tid, u)
    case ClearSubActive(tid) =>
      var t := s.tasks[tid];
      SubtractActive(s, tid, t.removed, ClearingRecent(t.user))
    case ClearRecent(tid) => DoClearRecent(s, tid, s.tasks[tid].user)
    case SubRecent(tid) =>
      SubtractRecent(s, tid, s.tasks[tid].removed, Idle)
    case ClearAll => DoClearAll(s)
    case SetPolicy(policy) => s.(policy := policy)
    case Spawn => s.(tasks := s.tasks + [Idle])
  }

  /** A run: a start and the steps taken from it, each enabled where it is taken. */
  ghost predicate IsRun(states: seq<State>, steps: seq<Step>) {
    && |states| == |steps| + 1
    && Init(states[0])
    && forall i :: 0 <= i < |steps| ==> Enabled(states[i], steps[i]) && states[i + 1] == Apply(states[i], steps[i])
  }
}
