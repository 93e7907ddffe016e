/** Inside the cleanup queues' mutexes. Here every single operation is a step: inserting a zero count, raising the
    length, raising the count, removing a pair, lowering the length. A task that reads the length without a mutex can
    see any of these states. */
module CleanupMutex {
  import opened Tables
  import opened Wrappers
  import opened ShardSpec
  import opened ShardLoops
  import TrackerProtocol

  const SHARDS: nat := TrackerProtocol.SHARDS

  /** `before` is the queue as it was when the mutex was taken. */
  datatype Task =
    | Idle
    | Entered(shard: nat, pair: Pair, before: Table<nat>)       // the pair has an entry, maybe of zero
    | Raised(shard: nat, pair: Pair, before: Table<nat>)        // the length counts it
    | TakenRow(shard: nat, count: nat)                          // mutex released, length not yet lowered
    | Popping(shard: nat, before: Table<nat>, drained: Batch)
    | PoppedOne(shard: nat, before: Table<nat>, drained: Batch) // length not yet lowered for the last pair

  /** Which shard a user belongs to plays no part here: a step names the shard it works on. */
  datatype State = State(queues: seq<Table<nat>>, len: nat, tasks: seq<Task>)

  datatype Step =
    | Enter(tid: nat, shard: nat, pair: Pair)
    | Raise(tid: nat)
    | Bump(tid: nat)
    | TakeRow(tid: nat, shard: nat, user: User)
    | LowerRow(tid: nat)
    | Begin(tid: nat, shard: nat)
    | Pop(tid: nat, pair: Pair)
    | Lower(tid: nat)
    | Finish(tid: nat)

  function HeldBy(t: Task): Option<nat> {
    if t.Entered? || t.Raised? || t.Popping? || t.PoppedOne? then Some(t.shard) else None
  }

  ghost predicate Unlocked(s: State, tid: nat, k: nat) {
    forall j :: 0 <= j < |s.tasks| && j != tid ==> HeldBy(s.tasks[j]) != Some(k)
  }

  /** The entry API: a missing pair gets a zero count. */
  function Inserted(q: Table<nat>, p: Pair): Table<nat> {
    q[p.0 := Row(q, p.0)[p.1 := Count(q, p)]]
  }

  ghost predicate Enabled(s: State, step: Step) {
    && |s.queues| == SHARDS && step.tid < |s.tasks|
    && var t := s.tasks[step.tid];
       match step
       case Enter(tid, k, _) => t.Idle? && k < SHARDS && Unlocked(s, tid, k)
       case Raise(_) => t.Entered? && s.len + 1 < U64_SIZE
       case Bump(_) => t.Raised?
       case TakeRow(tid, k, _) => t.Idle? && k < SHARDS && Unlocked(s, tid, k)
       case LowerRow(_) => t.TakenRow?
       case Begin(tid, k) => t.Idle? && k < SHARDS && Unlocked(s, tid, k)
       case Pop(_, p) =>
         t.Popping? && t.shard < SHARDS && |t.drained| < CLEANUP_DRAIN_BATCH_LIMIT && p in Pairs(s.queues[t.shard])
       case Lower(_) => t.PoppedOne?
       case Finish(_) =>
         t.Popping? && t.shard < SHARDS && (|t.drained| == CLEANUP_DRAIN_BATCH_LIMIT || s.queues[t.shard] == map[])
  }

  function Moved(s: State, tid: nat, t: Task, k: nat, q: Table<nat>, len: nat): State
    requires tid < |s.tasks| && k < |s.queues|
  {
    State(s.queues[k := q], len, s.tasks[tid := t])
  }

  /** The shard a step works on, the queue and the length it leaves there, and its task. */
  ghost function Apply(s: State, step: Step): State
    requires Enabled(s, step)
  {
    var tid, t := step.tid, s.tasks[step.tid];
    match step
    case Enter(_, k, p) =>
      Moved(s, tid, Entered(k, p, s.queues[k]), k, Inserted(s.queues[k], p), s.len)
    case Raise(_) =>
      s.(tasks := s.tasks[tid := Raised(t.shard, t.pair, t.before)],
         len := if t.shard < SHARDS && Count(s.queues[t.shard], t.pair) == 0 then s.len + 1 else s.len)
    case Bump(_) =>
      if t.shard < SHARDS then Moved(s, tid, Idle, t.shard, Enqueued(s.queues[t.shard], t.pair), s.len) else s
    case TakeRow(_, k, u) =>
      var n := |Row(s.queues[k], u)|;
      Moved(s, tid, if n == 0 then Idle else TakenRow(k, n), k, s.queues[k] - {u}, s.len)
    case LowerRow(_) => s.(tasks := s.tasks[tid := Idle], len := WrapSub(s.len, t.count))
    case Begin(_, k) => s.(tasks := s.tasks[tid := Popping(k, s.queues[k], map[])])
    case Pop(_, p) =>
      var q := s.queues[t.shard];
      Moved(s, tid, PoppedOne(t.shard, t.before, t.drained[p := q[p.0][p.1]]), t.shard, PutRow(q, p.0, q[p.0] - {p.1}), s.len)
    case Lower(_) => s.(tasks := s.tasks[tid := Popping(t.shard, t.before, t.drained)], len := WrapSub(s.len, 1))
    case Finish(_) => s.(tasks := s.tasks[tid := Idle])
  }

  ghost predicate IsRun(states: seq<State>, steps: seq<Step>) {
    && |states| == |steps| + 1
    && |states[0].queues| == SHARDS && states[0].len == 0
    && (forall k :: 0 <= k < SHARDS ==> states[0].queues[k] == map[])
    && (forall j :: 0 <= j < |states[0].tasks| ==> states[0].tasks[j] == Idle)
    && forall i :: 0 <= i < |steps| ==> Enabled(states[i], steps[i]) && states[i + 1] == Apply(states[i], steps[i])
  }

  // ----- queued pairs -----

  /** The pairs with a release queued; an entry of zero is not one yet. */
  ghost function LivePairs(q: Table<nat>): set<Pair> {
    set p | p in Pairs(q) && q[p.0][p.1] > 0
  }

  ghost function Live(s: State): seq<nat> {
    seq(|s.queues|, k requires 0 <= k < |s.queues| => |LivePairs(s.queues[k])|)
  }

  /** What the length counts for a task on top of the queued pairs. */
  function Owes(t: Task): nat {
    match t
    case Raised(_, p, before) => if Count(before, p) == 0 then 1 else 0
    case TakenRow(_, n) => n
    case PoppedOne(_, _, _) => 1
    case Idle => 0
    case Entered(_, _, _) => 0
    case Popping(_, _, _) => 0
  }

  ghost function Dues(s: State): seq<nat> {
    seq(|s.tasks|, j requires 0 <= j < |s.tasks| => Owes(s.tasks[j]))
  }

  lemma LiveOfOk(q: Table<nat>)
    requires QueueOk(q)
    ensures LivePairs(q) == Pairs(q)
  {
  }

  lemma LiveOfInserted(q: Table<nat>, p: Pair)
    requires QueueOk(q)
    ensures LivePairs(Inserted(q, p)) == Pairs(q) && Count(Inserted(q, p), p) == Count(q, p)
    ensures Enqueued(Inserted(q, p), p) == Enqueued(q, p)
  {
    var more := Inserted(q, p);
    forall r
      ensures r in LivePairs(more) <==> r in Pairs(q)
    {
    }
    assert Row(more, p.0)[p.1 := SatInc(Count(q, p))] == Row(q, p.0)[p.1 := SatInc(Count(q, p))];
  }

  // ----- the invariant -----

  ghost predicate TaskOk(s: State, t: Task) {
    && (HeldBy(t).Some? || t.TakenRow? ==> t.shard < |s.queues|)
    && (t.Entered? || t.Raised? ==> QueueOk(t.before) && s.queues[t.shard] == Inserted(t.before, t.pair))
    && (t.Popping? || t.PoppedOne? ==>
          && QueueOk(t.before) && Taken(t.before, t.drained) && |t.drained| <= CLEANUP_DRAIN_BATCH_LIMIT
          && s.queues[t.shard] == Without(t.before, t.drained.Keys))
  }

  /** A queue whose mutex nobody holds has no empty row and no zero count. */
  ghost predicate ShardOk(s: State, k: nat)
    requires k < |s.queues|
  {
    (forall j :: 0 <= j < |s.tasks| ==> HeldBy(s.tasks[j]) != Some(k)) ==> QueueOk(s.queues[k])
  }

  ghost predicate Inv(s: State) {
    && |s.queues| == SHARDS
    && (forall i, j :: 0 <= i < j < |s.tasks| && HeldBy(s.tasks[i]).Some? ==> HeldBy(s.tasks[i]) != HeldBy(s.tasks[j]))
    && (forall j :: 0 <= j < |s.tasks| ==> TaskOk(s, s.tasks[j]))
    && (forall k :: 0 <= k < SHARDS ==> ShardOk(s, k))
    && s.len == Sum(Live(s)) + Sum(Dues(s))
    && s.len < U64_SIZE
  }

  /** `s'` differs from `s` at one task and one queue at most. */
  ghost predicate OneTaskOneQueue(s: State, s': State, tid: nat, k: nat) {
    && tid < |s.tasks| && k < |s.queues|
    && |s'.tasks| == |s.tasks| && |s'.queues| == |s.queues|
    && s'.tasks == s.tasks[tid := s'.tasks[tid]] && s'.queues == s.queues[k := s'.queues[k]]
  }

  /** The task holds no other mutex, and leaves the queue in order when it does not hold this one. */
  ghost predicate LeavesInOrder(s: State, s': State, tid: nat, k: nat)
    requires OneTaskOneQueue(s, s', tid, k)
  {
    && (HeldBy(s.tasks[tid]).Some? ==> HeldBy(s.tasks[tid]) == Some(k))
    && (HeldBy(s'.tasks[tid]).Some? ==> HeldBy(s'.tasks[tid]) == Some(k))
    && (HeldBy(s'.tasks[tid]) == Some(k) || QueueOk(s'.queues[k])
        || (HeldBy(s.tasks[tid]) == None && s'.queues[k] == s.queues[k]))
  }

  lemma LedgerMoves(s: State, s': State, tid: nat, k: nat)
    requires OneTaskOneQueue(s, s', tid, k)
    ensures Sum(Live(s')) == Sum(Live(s)) - |LivePairs(s.queues[k])| + |LivePairs(s'.queues[k])|
    ensures Sum(Dues(s')) == Sum(Dues(s)) - Owes(s.tasks[tid]) + Owes(s'.tasks[tid])
    ensures Owes(s.tasks[tid]) <= Sum(Dues(s))
  {
    SumUpdate(Live(s), k, |LivePairs(s'.queues[k])|);
    SumUpdate(Dues(s), tid, Owes(s'.tasks[tid]));
    assert Live(s') == Live(s)[k := |LivePairs(s'.queues[k])|];
    assert Dues(s') == Dues(s)[tid := Owes(s'.tasks[tid])];
  }

  /** A step of one task on one shard: it touches the queue only while nobody else holds the mutex, leaves it in
      order when it lets go, and moves the length by what the queue and its own debt move. */
  lemma StepKeeps(s: State, s': State, tid: nat, k: nat)
    requires Inv(s) && OneTaskOneQueue(s, s', tid, k) && LeavesInOrder(s, s', tid, k)
    requires HeldBy(s'.tasks[tid]) != HeldBy(s.tasks[tid]) || s'.queues[k] != s.queues[k] ==> Unlocked(s, tid, k)
    requires TaskOk(s', s'.tasks[tid]) && s'.len < U64_SIZE
    requires s'.len + |LivePairs(s.queues[k])| + Owes(s.tasks[tid]) == s.len + |LivePairs(s'.queues[k])| + Owes(s'.tasks[tid])
    ensures Inv(s')
  {
    hide QueueOk, LivePairs, Without, Inserted, Taken;
    LedgerMoves(s, s', tid, k);
    forall j | 0 <= j < |s'.tasks|
      ensures TaskOk(s', s'.tasks[j])
    {
      assert TaskOk(s, s.tasks[j]);
    }
    forall i | 0 <= i < SHARDS
      ensures ShardOk(s', i)
    {
      ShardKept(s, s', tid, k, i);
    }
  }

  lemma ShardKept(s: State, s': State, tid: nat, k: nat, i: nat)
    requires Inv(s) && i < SHARDS && OneTaskOneQueue(s, s', tid, k) && LeavesInOrder(s, s', tid, k)
    ensures ShardOk(s', i)
  {
    assert ShardOk(s, i);
    if forall j :: 0 <= j < |s'.tasks| ==> HeldBy(s'.tasks[j]) != Some(i) {
      forall j | 0 <= j < |s.tasks|
        ensures HeldBy(s.tasks[j]) == Some(i) ==> j == tid
      {
        assert j != tid ==> s'.tasks[j] == s.tasks[j];
      }
      assert HeldBy(s'.tasks[tid]) != Some(i);
    }
  }

  lemma HolderUnlocked(s: State, tid: nat, k: nat)
    requires Inv(s) && tid < |s.tasks| && HeldBy(s.tasks[tid]) == Some(k)
    ensures Unlocked(s, tid, k)
  {
  }

  lemma IdleShard(s: State, tid: nat, k: nat)
    requires Inv(s) && tid < |s.tasks| && HeldBy(s.tasks[tid]) == None && k < SHARDS && Unlocked(s, tid, k)
    ensures QueueOk(s.queues[k]) && LivePairs(s.queues[k]) == Pairs(s.queues[k])
  {
    assert ShardOk(s, k);
    LiveOfOk(s.queues[k]);
  }

  lemma EnterInv(s: State, tid: nat, k: nat, p: Pair)
    requires Inv(s) && Enabled(s, Enter(tid, k, p))
    ensures Inv(Apply(s, Enter(tid, k, p)))
  {
    IdleShard(s, tid, k);
    LiveOfInserted(s.queues[k], p);
    StepKeeps(s, Apply(s, Enter(tid, k, p)), tid, k);
  }

  lemma RaiseInv(s: State, tid: nat)
    requires Inv(s) && Enabled(s, Raise(tid))
    ensures Inv(Apply(s, Raise(tid)))
  {
    var t := s.tasks[tid];
    assert TaskOk(s, t);
    LiveOfInserted(t.before, t.pair);
    StepKeeps(s, Apply(s, Raise(tid)), tid, t.shard);
  }

  /** The end of an enqueue: from the queue it found, the section as a whole has done one protocol enqueue. */
  lemma BumpInv(s: State, tid: nat)
    requires Inv(s) && Enabled(s, Bump(tid))
    ensures Inv(Apply(s, Bump(tid)))
    ensures s.tasks[tid].shard < SHARDS
    ensures Apply(s, Bump(tid)).queues[s.tasks[tid].shard] == Enqueued(s.tasks[tid].before, s.tasks[tid].pair)
  {
    var t := s.tasks[tid];
    var s' := Apply(s, Bump(tid));
    assert TaskOk(s, t);
    HolderUnlocked(s, tid, t.shard);
    LiveOfInserted(t.before, t.pair);
    EnqueuedOk(t.before, t.pair);
    LiveOfOk(Enqueued(t.before, t.pair));
    StepKeeps(s, s', tid, t.shard);
  }

  lemma DropUserOk(q: Table<nat>, u: User)
    requires QueueOk(q)
    ensures QueueOk(q - {u}) && LivePairs(q - {u}) == Pairs(q - {u})
    ensures |Pairs(q)| == |Pairs(q - {u})| + |Row(q, u)|
  {
    DropUserPairs(q, u);
    LiveOfOk(q - {u});
  }

  lemma TakeRowInv(s: State, tid: nat, k: nat, u: User)
    requires Inv(s) && Enabled(s, TakeRow(tid, k, u))
    ensures Inv(Apply(s, TakeRow(tid, k, u)))
  {
    IdleShard(s, tid, k);
    DropUserOk(s.queues[k], u);
    StepKeeps(s, Apply(s, TakeRow(tid, k, u)), tid, k);
  }

  lemma LowerFits(s: State, tid: nat)
    requires Inv(s) && tid < |s.tasks|
    ensures Owes(s.tasks[tid]) <= s.len && WrapSub(s.len, Owes(s.tasks[tid])) == s.len - Owes(s.tasks[tid])
  {
    LedgerMoves(s, s, tid, 0);
  }

  lemma LowerRowInv(s: State, tid: nat)
    requires Inv(s) && Enabled(s, LowerRow(tid))
    ensures Inv(Apply(s, LowerRow(tid))) && Apply(s, LowerRow(tid)).len == s.len - s.tasks[tid].count
  {
    assert TaskOk(s, s.tasks[tid]);
    LowerFits(s, tid);
    StepKeeps(s, Apply(s, LowerRow(tid)), tid, s.tasks[tid].shard);
  }

  lemma NothingDrained(q: Table<nat>)
    requires QueueOk(q)
    ensures
      var none: Batch := map[];
      Taken(q, none) && |none| == 0 && Without(q, none.Keys) == q
  {
    var none: Batch := map[];
    WithoutNothing(q);
    assert none.Keys == {};
  }

  lemma BeginInv(s: State, tid: nat, k: nat)
    requires Inv(s) && Enabled(s, Begin(tid, k))
    ensures Inv(Apply(s, Begin(tid, k)))
  {
    hide QueueOk, LivePairs, Without, Inserted, Taken;
    IdleShard(s, tid, k);
    NothingDrained(s.queues[k]);
    StepKeeps(s, Apply(s, Begin(tid, k)), tid, k);
  }

  lemma PopFacts(before: Table<nat>, drained: Batch, q: Table<nat>, p: Pair)
    requires QueueOk(before) && Taken(before, drained) && q == Without(before, drained.Keys) && p in Pairs(q)
    ensures
      var q', more := PutRow(q, p.0, q[p.0] - {p.1}), drained[p := q[p.0][p.1]];
      && QueueOk(q') && Taken(before, more) && |more| == |drained| + 1 && q' == Without(before, more.Keys)
      && |LivePairs(q)| == |LivePairs(q')| + 1
  {
    WithoutOk(before, drained.Keys);
    PopIsWithout(q, p);
    PopExtends(before, drained, p);
    WithoutPairs(q, {p});
    WithoutOk(q, {p});
    LiveOfOk(q);
    LiveOfOk(Without(q, {p}));
  }

  lemma PopInv(s: State, tid: nat, p: Pair)
    requires Inv(s) && Enabled(s, Pop(tid, p))
    ensures Inv(Apply(s, Pop(tid, p)))
  {
    hide QueueOk, LivePairs, Without, Inserted, Taken, PutRow;
    var t := s.tasks[tid];
    assert TaskOk(s, t);
    HolderUnlocked(s, tid, t.shard);
    PopFacts(t.before, t.drained, s.queues[t.shard], p);
    StepKeeps(s, Apply(s, Pop(tid, p)), tid, t.shard);
  }

  lemma LowerInv(s: State, tid: nat)
    requires Inv(s) && Enabled(s, Lower(tid))
    ensures Inv(Apply(s, Lower(tid))) && Apply(s, Lower(tid)).len == s.len - 1
  {
    assert TaskOk(s, s.tasks[tid]);
    LowerFits(s, tid);
    StepKeeps(s, Apply(s, Lower(tid)), tid, s.tasks[tid].shard);
  }

  /** The end of a shard drain: from the queue it found, the section as a whole has taken one protocol batch. */
  lemma FinishInv(s: State, tid: nat)
    requires Inv(s) && Enabled(s, Finish(tid))
    ensures Inv(Apply(s, Finish(tid)))
    ensures IsDrain(s.tasks[tid].before, s.tasks[tid].drained)
    ensures s.queues[s.tasks[tid].shard] == Without(s.tasks[tid].before, s.tasks[tid].drained.Keys)
  {
    var t := s.tasks[tid];
    assert TaskOk(s, t);
    HolderUnlocked(s, tid, t.shard);
    WithoutOk(t.before, t.drained.Keys);
    DrainedAll(t.before, t.drained);
    StepKeeps(s, Apply(s, Finish(tid)), tid, t.shard);
  }

  lemma StepInv(s: State, step: Step)
    requires Inv(s) && Enabled(s, step)
    ensures Inv(Apply(s, step))
  {
    match step
    case Enter(tid, k, p) => EnterInv(s, tid, k, p);
    case Raise(tid) => RaiseInv(s, tid);
    case Bump(tid) => BumpInv(s, tid);
    case TakeRow(tid, k, u) => TakeRowInv(s, tid, k, u);
    case LowerRow(tid) => LowerRowInv(s, tid);
    case Begin(tid, k) => BeginInv(s, tid, k);
    case Pop(tid, p) => PopInv(s, tid, p);
    case Lower(tid) => LowerInv(s, tid);
    case Finish(tid) => FinishInv(s, tid);
  }

  lemma StartInv(s: State)
    requires |s.queues| == SHARDS && s.len == 0
    requires forall k :: 0 <= k < SHARDS ==> s.queues[k] == map[]
    requires forall j :: 0 <= j < |s.tasks| ==> s.tasks[j] == Idle
    ensures Inv(s)
  {
    assert LivePairs(map[]) == {};
    SumZero(Live(s));
    SumZero(Dues(s));
  }

  lemma {:induction false} RunInv(states: seq<State>, steps: seq<Step>, i: nat)
    requires IsRun(states, steps) && i < |states|
    ensures Inv(states[i])
  {
    hide Apply, Enabled, Inv;
    if i == 0 {
      StartInv(states[0]);
    } else {
      RunInv(states, steps, i - 1);
      StepInv(states[i - 1], steps[i - 1]);
    }
  }

  // ----- what a reader without a mutex sees -----

  /** At every instant, critical sections under way or not, the length is at least the number of pairs with a queued
      release, and exceeds it by exactly what tasks between two operations owe; so it is equal if and only if no
      enqueue has raised it ahead of its count and no drain has removed a pair ahead of lowering it. */
  lemma LengthAtEveryInstant(states: seq<State>, steps: seq<Step>, i: nat)
    requires IsRun(states, steps) && i < |states|
    ensures states[i].len == Sum(Live(states[i])) + Sum(Dues(states[i])) < U64_SIZE
    ensures Sum(Live(states[i])) == states[i].len <==> forall j :: 0 <= j < |states[i].tasks| ==> Owes(states[i].tasks[j]) == 0
  {
    RunInv(states, steps, i);
    var s := states[i];
    if forall j :: 0 <= j < |s.tasks| ==> Owes(s.tasks[j]) == 0 {
      SumZero(Dues(s));
    } else {
      var j :| 0 <= j < |s.tasks| && Owes(s.tasks[j]) != 0;
      SumUpdate(Dues(s), j, 0);
    }
  }

  /** A reader that finds zero, at any instant, finds every queue without a queued release. */
  lemma ZeroAtAnyInstant(states: seq<State>, steps: seq<Step>, i: nat, k: nat)
    requires IsRun(states, steps) && i < |states| && k < SHARDS && states[i].len == 0
    ensures |states[i].queues| == SHARDS && LivePairs(states[i].queues[k]) == {}
  {
    RunInv(states, steps, i);
    SumZeroTerms(Live(states[i]), k);
  }
}
