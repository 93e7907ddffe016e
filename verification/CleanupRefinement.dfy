/** The cleanup queues' critical sections refine the tracker's protocol. A section in progress counts as not begun: its
    queue is the one it found, and the length is corrected by what it has added or taken so far. Seen so, every single
    operation is a stutter or exactly one protocol step, and so is every run of them. */
module CleanupRefinement {
  import opened Tables
  import opened Wrappers
  import opened ShardSpec
  import opened ShardLoops
  import opened CleanupMutex
  import TP = TrackerProtocol
  import TrackerInvariants
  import TrackerSteps

  // ----- the queues and the length as if no section had begun -----

  ghost function QueueFound(s: State, k: nat): Table<nat>
    requires k < |s.queues|
  {
    if j :| 0 <= j < |s.tasks| && HeldBy(s.tasks[j]) == Some(k) then s.tasks[j].before else s.queues[k]
  }

  ghost function QueuesFound(s: State): seq<Table<nat>> {
    seq(|s.queues|, k requires 0 <= k < |s.queues| => QueueFound(s, k))
  }

  /** What a section under way has added to the length. */
  function Added(t: Task): nat {
    if t.Raised? && Count(t.before, t.pair) == 0 then 1 else 0
  }

  /** What a section under way has taken from the length. */
  function TakenOff(t: Task): int {
    if t.Popping? then |t.drained| else if t.PoppedOne? then |t.drained| - 1 else 0
  }

  ghost function Net(s: State, n: nat): int
    requires n <= |s.tasks|
  {
    if n == 0 then 0 else Net(s, n - 1) + TakenOff(s.tasks[n - 1]) - Added(s.tasks[n - 1])
  }

  ghost function LengthFound(s: State): int {
    s.len + Net(s, |s.tasks|)
  }

  lemma FoundByHolder(s: State, j: nat, k: nat)
    requires Inv(s) && j < |s.tasks| && HeldBy(s.tasks[j]) == Some(k) && k < SHARDS
    ensures QueueFound(s, k) == s.tasks[j].before
  {
  }

  lemma FoundUnheld(s: State, tid: nat, k: nat)
    requires Inv(s) && tid < |s.tasks| && k < SHARDS && Unlocked(s, tid, k) && HeldBy(s.tasks[tid]) != Some(k)
    ensures QueueFound(s, k) == s.queues[k]
  {
  }

  lemma FoundElsewhere(s: State, s': State, tid: nat, k: nat, i: nat)
    requires Inv(s) && Inv(s') && OneTaskOneQueue(s, s', tid, k) && i < SHARDS && i != k
    requires HeldBy(s.tasks[tid]) in {None, Some(k)} && HeldBy(s'.tasks[tid]) in {None, Some(k)}
    ensures QueueFound(s', i) == QueueFound(s, i)
  {
    if j :| 0 <= j < |s.tasks| && HeldBy(s.tasks[j]) == Some(i) {
      FoundByHolder(s, j, i);
      FoundByHolder(s', j, i);
    } else {
      assert forall j :: 0 <= j < |s'.tasks| ==> HeldBy(s'.tasks[j]) != Some(i);
    }
  }

  lemma {:induction false} NetMoves(s: State, s': State, tid: nat, n: nat)
    requires tid < |s.tasks| && n <= |s.tasks| == |s'.tasks| && s'.tasks == s.tasks[tid := s'.tasks[tid]]
    ensures
      var t, t' := s.tasks[tid], s'.tasks[tid];
      Net(s', n) == Net(s, n) + if tid < n then TakenOff(t') - Added(t') - TakenOff(t) + Added(t) else 0
  {
    if n > 0 {
      NetMoves(s, s', tid, n - 1);
    }
  }

  /** A step of one task on one shard, seen so. */
  lemma FoundMoves(s: State, s': State, tid: nat, k: nat)
    requires Inv(s) && Inv(s') && OneTaskOneQueue(s, s', tid, k)
    requires HeldBy(s.tasks[tid]) in {None, Some(k)} && HeldBy(s'.tasks[tid]) in {None, Some(k)}
    ensures QueuesFound(s') == QueuesFound(s)[k := QueueFound(s', k)]
    ensures
      var t, t' := s.tasks[tid], s'.tasks[tid];
      LengthFound(s') - s'.len - TakenOff(t') + Added(t') == LengthFound(s) - s.len - TakenOff(t) + Added(t)
  {
    forall i | 0 <= i < SHARDS && i != k
      ensures QueueFound(s', i) == QueueFound(s, i)
    {
      FoundElsewhere(s, s', tid, k, i);
    }
    NetMoves(s, s', tid, |s.tasks|);
  }

  lemma {:induction false} NetCovered(s: State, n: nat)
    requires Inv(s) && n <= |s.tasks|
    ensures Net(s, n) + Sum(Dues(s)[..n]) >= 0
  {
    if n > 0 {
      NetCovered(s, n - 1);
      SumPrefix(Dues(s), n - 1);
    }
  }

  lemma LengthFoundIsNat(s: State)
    requires Inv(s)
    ensures LengthFound(s) >= 0
  {
    NetCovered(s, |s.tasks|);
    assert Dues(s)[..|s.tasks|] == Dues(s);
  }

  // ----- protocol states that match -----

  /** A task in a section is still idle in the protocol; one that has taken a row owes its length there too. */
  ghost predicate TaskMatches(t: Task, p: TP.State, t': TP.Task) {
    && (HeldBy(t).Some? ==> t' == TP.Idle)
    && (t.Entered? || t.Raised? ==> t.shard == TP.ShardIdx(p, t.pair.0))
    && (t.TakenRow? ==> t'.Taken? && t'.shard == t.shard && |t'.batch| == t.count)
  }

  ghost predicate Matches(s: State, p: TP.State) {
    && TP.Shaped(p) && p.queues == QueuesFound(s) && p.queueLen == LengthFound(s) && |p.tasks| == |s.tasks|
    && forall j :: 0 <= j < |s.tasks| ==> TaskMatches(s.tasks[j], p, p.tasks[j])
  }

  /** A section is begun by a task that is idle in the protocol, at the user's own shard; fewer than 2^64 pairs are
      ever queued. */
  ghost predicate Ready(step: Step, p: TP.State) {
    && TP.Shaped(p) && p.queueLen + 1 < U64_SIZE
    && (step.Enter? ==> TP.At(p, step.tid, TP.Idle) && step.shard == TP.ShardIdx(p, step.pair.0))
    && (step.TakeRow? ==> TP.At(p, step.tid, TP.Idle) && step.shard == TP.ShardIdx(p, step.user))
    && (step.Begin? ==> TP.At(p, step.tid, TP.Idle))
  }

  /** The protocol step an operation completes, if it completes one. */
  ghost function Completes(s: State, step: Step): Option<TP.Step>
    requires Enabled(s, step)
  {
    var t := s.tasks[step.tid];
    match step
    case Bump(tid) => Some(TP.Enqueue(tid, t.pair))
    case TakeRow(tid, _, u) => Some(TP.TakeUser(tid, u))
    case LowerRow(tid) => Some(TP.SubQueueLen(tid))
    case Finish(tid) => Some(TP.PopShard(tid, t.shard, t.drained))
    case Enter(_, _, _) => None
    case Raise(_) => None
    case Begin(_, _) => None
    case Pop(_, _) => None
    case Lower(_) => None
  }

  /** After `step` from `s`, the protocol is where it was or one step of its own further. */
  ghost predicate Simulated(s: State, step: Step, p: TP.State)
    requires Enabled(s, step)
  {
    match Completes(s, step)
    case None => Matches(Apply(s, step), p)
    case Some(q) => TP.Enabled(p, q) && Matches(Apply(s, step), TP.Apply(p, q))
  }

  /** One task and one shard move, the protocol state moves by as much or not at all. */
  lemma StaysMatched(s: State, s': State, p: TP.State, p': TP.State, tid: nat, k: nat)
    requires Inv(s) && Inv(s') && OneTaskOneQueue(s, s', tid, k) && Matches(s, p)
    requires HeldBy(s.tasks[tid]) in {None, Some(k)} && HeldBy(s'.tasks[tid]) in {None, Some(k)}
    requires TP.Shaped(p') && p'.hasher == p.hasher && p'.queues == p.queues[k := QueueFound(s', k)]
    requires |p'.tasks| == |p.tasks| && p'.tasks == p.tasks[tid := p'.tasks[tid]]
    requires TaskMatches(s'.tasks[tid], p', p'.tasks[tid])
    requires
      var t, t' := s.tasks[tid], s'.tasks[tid];
      p'.queueLen - p.queueLen == s'.len + TakenOff(t') - Added(t') - s.len - TakenOff(t) + Added(t)
    ensures Matches(s', p')
  {
    hide Inv;
    FoundMoves(s, s', tid, k);
    forall j | 0 <= j < |s'.tasks|
      ensures TaskMatches(s'.tasks[j], p', p'.tasks[j])
    {
      assert TaskMatches(s.tasks[j], p, p.tasks[j]);
    }
  }

  /** What a match says of one task and one queue. */
  lemma MatchOf(s: State, p: TP.State, tid: nat, k: nat)
    requires Inv(s) && Matches(s, p) && tid < |s.tasks| && k < SHARDS
    ensures TP.Shaped(p) && |s.queues| == SHARDS && |p.tasks| == |s.tasks| && p.queues[k] == QueueFound(s, k)
    ensures TaskOk(s, s.tasks[tid]) && TaskMatches(s.tasks[tid], p, p.tasks[tid])
    ensures p.queueLen == LengthFound(s)
  {
  }

  lemma HeldShard(s: State, tid: nat)
    requires Inv(s) && tid < |s.tasks| && (HeldBy(s.tasks[tid]).Some? || s.tasks[tid].TakenRow?)
    ensures s.tasks[tid].shard < SHARDS
  {
    assert TaskOk(s, s.tasks[tid]);
  }

  lemma EnterSimulated(s: State, tid: nat, k: nat, pair: Pair, p: TP.State)
    requires Inv(s) && Enabled(s, Enter(tid, k, pair)) && Matches(s, p) && Ready(Enter(tid, k, pair), p)
    ensures Simulated(s, Enter(tid, k, pair), p)
  {
    hide Inv, QueueFound, LengthFound, QueueOk, Without, Inserted, ShardLoops.Taken, PutRow, LivePairs, Pairs;
    MatchOf(s, p, tid, k);
    var s' := Apply(s, Enter(tid, k, pair));
    EnterInv(s, tid, k, pair);
    FoundUnheld(s, tid, k);
    FoundByHolder(s', tid, k);
    StaysMatched(s, s', p, p, tid, k);
  }

  lemma RaiseSimulated(s: State, tid: nat, p: TP.State)
    requires Inv(s) && Enabled(s, Raise(tid)) && Matches(s, p)
    ensures Simulated(s, Raise(tid), p)
  {
    hide Inv, QueueFound, LengthFound, QueueOk, Without, Inserted, ShardLoops.Taken, PutRow, LivePairs, Pairs;
    HeldShard(s, tid);
    MatchOf(s, p, tid, s.tasks[tid].shard);
    var t, s' := s.tasks[tid], Apply(s, Raise(tid));
    RaiseInv(s, tid);
    LiveOfInserted(t.before, t.pair);
    FoundByHolder(s, tid, t.shard);
    FoundByHolder(s', tid, t.shard);
    StaysMatched(s, s', p, p, tid, t.shard);
  }

  lemma BumpSimulated(s: State, tid: nat, p: TP.State)
    requires Inv(s) && Enabled(s, Bump(tid)) && Matches(s, p) && p.queueLen + 1 < U64_SIZE
    ensures Simulated(s, Bump(tid), p)
  {
    hide Inv, QueueFound, LengthFound, QueueOk, Without, Inserted, ShardLoops.Taken, PutRow, LivePairs, Pairs;
    HeldShard(s, tid);
    MatchOf(s, p, tid, s.tasks[tid].shard);
    var t, s' := s.tasks[tid], Apply(s, Bump(tid));
    BumpInv(s, tid);
    HolderUnlocked(s, tid, t.shard);
    FoundByHolder(s, tid, t.shard);
    FoundUnheld(s', tid, t.shard);
    StaysMatched(s, s', p, TP.DoEnqueue(p, t.pair), tid, t.shard);
  }

  lemma TakeUserFacts(p: TP.State, tid: nat, u: User)
    requires TP.Shaped(p) && tid < |p.tasks|
    ensures
      var k, p' := TP.ShardIdx(p, u), TP.DoTakeUser(p, tid, u);
      var n := |Row(p.queues[k], u)|;
      && TP.Shaped(p') && p'.hasher == p.hasher && p'.queueLen == p.queueLen
      && p'.queues == p.queues[k := p.queues[k] - {u}] && |p'.tasks| == |p.tasks| && p'.tasks == p.tasks[tid := p'.tasks[tid]]
      && (n > 0 ==> p'.tasks[tid].Taken? && p'.tasks[tid].shard == k && |p'.tasks[tid].batch| == n)
  {
    RowBatchSize(u, Row(p.queues[TP.ShardIdx(p, u)], u));
  }

  lemma TakeRowSimulated(s: State, tid: nat, k: nat, u: User, p: TP.State)
    requires Inv(s) && Enabled(s, TakeRow(tid, k, u)) && Matches(s, p) && Ready(TakeRow(tid, k, u), p)
    ensures Simulated(s, TakeRow(tid, k, u), p)
  {
    hide Inv, QueueFound, LengthFound, QueueOk, Without, Inserted, ShardLoops.Taken, PutRow, LivePairs, Pairs;
    hide TP.DoTakeUser;
    MatchOf(s, p, tid, k);
    var s' := Apply(s, TakeRow(tid, k, u));
    TakeRowInv(s, tid, k, u);
    FoundUnheld(s, tid, k);
    FoundUnheld(s', tid, k);
    TakeUserFacts(p, tid, u);
    StaysMatched(s, s', p, TP.DoTakeUser(p, tid, u), tid, k);
  }

  /** A subtraction that does not go below zero does not wrap. */
  lemma NoWrap(n: nat, k: nat)
    requires k <= n < U64_SIZE
    ensures WrapSub(n, k) == n - k
  {
  }

  lemma LowerRowSimulated(s: State, tid: nat, p: TP.State)
    requires Inv(s) && Enabled(s, LowerRow(tid)) && Matches(s, p) && p.queueLen < U64_SIZE
    ensures Simulated(s, LowerRow(tid), p)
  {
    hide Inv, QueueFound, LengthFound, QueueOk, Without, Inserted, ShardLoops.Taken, PutRow, LivePairs, Pairs;
    HeldShard(s, tid);
    MatchOf(s, p, tid, s.tasks[tid].shard);
    var t, s' := s.tasks[tid], Apply(s, LowerRow(tid));
    LowerRowInv(s, tid);
    FoundMoves(s, s', tid, t.shard);
    LengthFoundIsNat(s');
    NoWrap(p.queueLen, t.count);
    FoundUnmoved(s, s', tid, t.shard);
    StaysMatched(s, s', p, TP.Apply(p, TP.SubQueueLen(tid)), tid, t.shard);
  }

  /** A task that holds no mutex before or after leaves every queue as found. */
  lemma FoundUnmoved(s: State, s': State, tid: nat, k: nat)
    requires Inv(s) && Inv(s') && OneTaskOneQueue(s, s', tid, k) && s'.queues == s.queues && k < SHARDS
    requires HeldBy(s.tasks[tid]) == HeldBy(s'.tasks[tid]) == None
    ensures QueueFound(s', k) == QueueFound(s, k)
  {
    if j :| 0 <= j < |s.tasks| && HeldBy(s.tasks[j]) == Some(k) {
      FoundByHolder(s, j, k);
      FoundByHolder(s', j, k);
    } else {
      assert forall j :: 0 <= j < |s'.tasks| ==> HeldBy(s'.tasks[j]) != Some(k);
    }
  }

  lemma BeginSimulated(s: State, tid: nat, k: nat, p: TP.State)
    requires Inv(s) && Enabled(s, Begin(tid, k)) && Matches(s, p) && Ready(Begin(tid, k), p)
    ensures Simulated(s, Begin(tid, k), p)
  {
    hide Inv, QueueFound, LengthFound, QueueOk, Without, Inserted, ShardLoops.Taken, PutRow, LivePairs, Pairs;
    MatchOf(s, p, tid, k);
    var s' := Apply(s, Begin(tid, k));
    BeginInv(s, tid, k);
    FoundUnheld(s, tid, k);
    FoundByHolder(s', tid, k);
    StaysMatched(s, s', p, p, tid, k);
  }

  lemma PopSimulated(s: State, tid: nat, pair: Pair, p: TP.State)
    requires Inv(s) && Enabled(s, Pop(tid, pair)) && Matches(s, p)
    ensures Simulated(s, Pop(tid, pair), p)
  {
    hide Inv, QueueFound, LengthFound, QueueOk, Without, Inserted, ShardLoops.Taken, PutRow, LivePairs, Pairs;
    HeldShard(s, tid);
    MatchOf(s, p, tid, s.tasks[tid].shard);
    var t, s' := s.tasks[tid], Apply(s, Pop(tid, pair));
    PopInv(s, tid, pair);
    PopFacts(t.before, t.drained, s.queues[t.shard], pair);
    FoundByHolder(s, tid, t.shard);
    FoundByHolder(s', tid, t.shard);
    StaysMatched(s, s', p, p, tid, t.shard);
  }

  lemma LowerSimulated(s: State, tid: nat, p: TP.State)
    requires Inv(s) && Enabled(s, Lower(tid)) && Matches(s, p)
    ensures Simulated(s, Lower(tid), p)
  {
    hide Inv, QueueFound, LengthFound, QueueOk, Without, Inserted, ShardLoops.Taken, PutRow, LivePairs, Pairs;
    HeldShard(s, tid);
    MatchOf(s, p, tid, s.tasks[tid].shard);
    var t, s' := s.tasks[tid], Apply(s, Lower(tid));
    LowerInv(s, tid);
    FoundByHolder(s, tid, t.shard);
    FoundByHolder(s', tid, t.shard);
    StaysMatched(s, s', p, p, tid, t.shard);
  }

  lemma FinishSimulated(s: State, tid: nat, p: TP.State)
    requires Inv(s) && Enabled(s, Finish(tid)) && Matches(s, p) && p.queueLen < U64_SIZE
    ensures Simulated(s, Finish(tid), p)
  {
    hide Inv, QueueFound, LengthFound, QueueOk, Without, Inserted, ShardLoops.Taken, PutRow, LivePairs, Pairs;
    HeldShard(s, tid);
    MatchOf(s, p, tid, s.tasks[tid].shard);
    var t, s' := s.tasks[tid], Apply(s, Finish(tid));
    FinishInv(s, tid);
    HolderUnlocked(s, tid, t.shard);
    FoundByHolder(s, tid, t.shard);
    FoundUnheld(s', tid, t.shard);
    FoundMoves(s, s', tid, t.shard);
    LengthFoundIsNat(s');
    NoWrap(p.queueLen, |t.drained|);
    StaysMatched(s, s', p, TP.DoPopShard(p, tid, t.shard, t.drained), tid, t.shard);
  }

  /** Every single operation is a stutter or exactly one protocol step, enabled where it happens: an enqueue takes
      effect when its count is raised, a drain of a row when the row is removed and again when the length follows, a
      drain of a shard when its mutex is released. */
  lemma StepSimulated(s: State, step: Step, p: TP.State)
    requires Inv(s) && Enabled(s, step) && Matches(s, p) && Ready(step, p)
    ensures Simulated(s, step, p)
  {
    hide Inv, Enabled, Matches, Simulated;
    match step
    case Enter(tid, k, pair) => EnterSimulated(s, tid, k, pair, p);
    case Raise(tid) => RaiseSimulated(s, tid, p);
    case Bump(tid) => BumpSimulated(s, tid, p);
    case TakeRow(tid, k, u) => TakeRowSimulated(s, tid, k, u, p);
    case LowerRow(tid) => LowerRowSimulated(s, tid, p);
    case Begin(tid, k) => BeginSimulated(s, tid, k, p);
    case Pop(tid, pair) => PopSimulated(s, tid, pair, p);
    case Lower(tid) => LowerSimulated(s, tid, p);
    case Finish(tid) => FinishSimulated(s, tid, p);
  }

  // ----- runs -----

  /** The sections' single operations and the protocol side by side. */
  datatype World = World(fine: State, coarse: TP.State)

  /** Either an operation of a section, or a protocol step that has nothing to do with the queues. */
  datatype Move = Inside(step: Step) | Elsewhere(other: TP.Step)

  ghost predicate OffQueues(q: TP.Step) {
    !q.Enqueue? && !q.TakeUser? && !q.PopShard? && !q.SubQueueLen? && !q.ClearAll? && !q.Spawn?
  }

  ghost predicate CanMove(w: World, m: Move) {
    match m
    case Inside(step) => Enabled(w.fine, step) && Ready(step, w.coarse)
    case Elsewhere(q) =>
      && OffQueues(q) && TP.Enabled(w.coarse, q)
      && (q.SetPolicy? || (q.tid < |w.fine.tasks| && w.fine.tasks[q.tid].Idle?))
  }

  /** The protocol takes a step only when an operation completes one, or one happens elsewhere. */
  ghost predicate Moves(w: World, m: Move, w': World)
    requires CanMove(w, m)
  {
    match m
    case Inside(step) =>
      && w'.fine == Apply(w.fine, step)
      && (match Completes(w.fine, step)
          case None => w'.coarse == w.coarse
          case Some(q) => TP.Enabled(w.coarse, q) ==> w'.coarse == TP.Apply(w.coarse, q))
    case Elsewhere(q) => w' == World(w.fine, TP.Apply(w.coarse, q))
  }

  ghost predicate StartsIdle(w: World) {
    && |w.fine.queues| == SHARDS && w.fine.len == 0
    && (forall k :: 0 <= k < SHARDS ==> w.fine.queues[k] == map[])
    && (forall j :: 0 <= j < |w.fine.tasks| ==> w.fine.tasks[j] == Idle)
    && TP.Init(w.coarse) && |w.coarse.tasks| == |w.fine.tasks|
  }

  ghost predicate IsJointRun(worlds: seq<World>, moves: seq<Move>) {
    && |worlds| == |moves| + 1 && StartsIdle(worlds[0])
    && forall i :: 0 <= i < |moves| ==> CanMove(worlds[i], moves[i]) && Moves(worlds[i], moves[i], worlds[i + 1])
  }

  lemma {:induction false} NetOfUnheld(s: State, n: nat)
    requires n <= |s.tasks| && forall j :: 0 <= j < |s.tasks| ==> HeldBy(s.tasks[j]) == None
    ensures Net(s, n) == 0
  {
    if n > 0 {
      NetOfUnheld(s, n - 1);
    }
  }

  lemma StartMatches(w: World)
    requires StartsIdle(w)
    ensures Inv(w.fine) && Matches(w.fine, w.coarse)
  {
    StartInv(w.fine);
    NetOfUnheld(w.fine, |w.fine.tasks|);
    assert QueuesFound(w.fine) == w.coarse.queues;
  }

  /** Queues, length and every task but one are as before. */
  ghost predicate QueuesKept(p: TP.State, p': TP.State, tid: nat) {
    && TP.Shaped(p') && p'.hasher == p.hasher && p'.queues == p.queues && p'.queueLen == p.queueLen
    && |p'.tasks| == |p.tasks| && forall j :: 0 <= j < |p.tasks| && j != tid ==> p'.tasks[j] == p.tasks[j]
  }

  lemma AdmitKeeps(p: TP.State, tid: nat, t: TP.Ticket)
    requires TP.Shaped(p) && tid < |p.tasks|
    ensures QueuesKept(p, TP.DoAdmit(p, tid, t), tid) && QueuesKept(p, TP.DoLock(p, tid, t), tid)
  {
    hide PruneRow, TP.Admitted, TP.Opened;
  }

  lemma DecideKeeps(p: TP.State, tid: nat, t: TP.Ticket)
    requires TP.Shaped(p) && tid < |p.tasks|
    ensures QueuesKept(p, TP.DoDecide(p, tid, t), tid) && QueuesKept(p, TP.DoReserveRecent(p, tid, t), tid)
  {
    hide TP.DoAdmit, TP.Denied;
    AdmitKeeps(p, tid, t);
  }

  ghost predicate OfAdmission(q: TP.Step) {
    q.Lock? || q.Decide? || q.ReserveRecent? || q.Commit?
  }

  lemma AdmissionKeeps(p: TP.State, q: TP.Step)
    requires OfAdmission(q) && TP.Enabled(p, q)
    ensures QueuesKept(p, TP.Apply(p, q), q.tid)
  {
    hide TP.DoAdmit, TP.DoLock, TP.DoDecide, TP.DoReserveRecent, QueuesKept, TP.Free;
    AdmitKeeps(p, q.tid, p.tasks[q.tid].ticket);
    DecideKeeps(p, q.tid, p.tasks[q.tid].ticket);
  }

  lemma OthersKeep(p: TP.State, q: TP.Step)
    requires OffQueues(q) && !OfAdmission(q) && TP.Enabled(p, q)
    ensures QueuesKept(p, TP.Apply(p, q), if q.SetPolicy? then |p.tasks| else q.tid)
  {
    hide PruneAll, Sweep, AfterBatch, Pairs, RemoveOne, RemoveOneEntries, TP.LimitWindow, TP.UserLimit, TP.Free;
  }

  lemma ElsewhereKeepsMatch(s: State, p: TP.State, q: TP.Step)
    requires Matches(s, p) && CanMove(World(s, p), Elsewhere(q))
    ensures Matches(s, TP.Apply(p, q))
  {
    hide TP.Apply, TP.Enabled, QueuesFound, LengthFound;
    if OfAdmission(q) {
      AdmissionKeeps(p, q);
    } else {
      OthersKeep(p, q);
    }
    forall j | 0 <= j < |s.tasks|
      ensures TaskMatches(s.tasks[j], TP.Apply(p, q), TP.Apply(p, q).tasks[j])
    {
      assert TaskMatches(s.tasks[j], p, p.tasks[j]);
    }
  }

  /** The refinement, at every point of every run: the queues and the length the sections found are those of a
      protocol state in which all of the protocol's invariants hold. */
  lemma {:induction false} RunsRefine(worlds: seq<World>, moves: seq<Move>, i: nat)
    requires IsJointRun(worlds, moves) && i < |worlds|
    ensures Inv(worlds[i].fine) && Matches(worlds[i].fine, worlds[i].coarse)
    ensures TrackerInvariants.Inv(worlds[i].coarse)
  {
    hide Inv, Matches, TrackerInvariants.Inv, TP.Apply, TP.Enabled, Enabled, Apply, Ready, StartsIdle;
    if i == 0 {
      StartMatches(worlds[0]);
      StartIsInitial(worlds[0]);
    } else {
      RunsRefine(worlds, moves, i - 1);
      var w, m := worlds[i - 1], moves[i - 1];
      assert CanMove(w, m) && Moves(w, m, worlds[i]);
      match m
      case Inside(step) =>
        StepInv(w.fine, step);
        StepSimulated(w.fine, step, w.coarse);
        if Completes(w.fine, step).Some? {
          TrackerSteps.StepInv(w.coarse, Completes(w.fine, step).value);
        }
      case Elsewhere(q) =>
        ElsewhereKeepsMatch(w.fine, w.coarse, q);
        TrackerSteps.StepInv(w.coarse, q);
    }
  }

  lemma StartIsInitial(w: World)
    requires StartsIdle(w)
    ensures TrackerInvariants.Inv(w.coarse)
  {
    TrackerInvariants.InitInv(w.coarse);
  }

  /** The protocol side of a run is a run of the protocol with pauses: a move leaves it or takes one enabled step. */
  lemma MovesAreProtocolSteps(worlds: seq<World>, moves: seq<Move>, i: nat)
    requires IsJointRun(worlds, moves) && i < |moves|
    ensures CanMove(worlds[i], moves[i])
    ensures
      var p, p' := worlds[i].coarse, worlds[i + 1].coarse;
      match moves[i]
      case Elsewhere(q) => TP.Enabled(p, q) && p' == TP.Apply(p, q)
      case Inside(step) =>
        match Completes(worlds[i].fine, step)
        case None => p' == p
        case Some(q) => TP.Enabled(p, q) && p' == TP.Apply(p, q)
  {
    hide Inv, Matches, TP.Apply, TP.Enabled, Enabled, Apply, Ready, TrackerInvariants.Inv;
    RunsRefine(worlds, moves, i);
    if moves[i].Inside? {
      StepSimulated(worlds[i].fine, moves[i].step, worlds[i].coarse);
    }
  }

  /** Whenever no mutex is held, the queues and the length are the protocol's own. */
  lemma AtRestTheyAgree(worlds: seq<World>, moves: seq<Move>, i: nat)
    requires IsJointRun(worlds, moves) && i < |worlds|
    requires forall j :: 0 <= j < |worlds[i].fine.tasks| ==> HeldBy(worlds[i].fine.tasks[j]) == None
    ensures worlds[i].fine.queues == worlds[i].coarse.queues && worlds[i].fine.len == worlds[i].coarse.queueLen
  {
    RunsRefine(worlds, moves, i);
    var s := worlds[i].fine;
    assert QueuesFound(s) == s.queues;
    NetOfUnheld(s, |s.tasks|);
  }

  // ----- one run -----

  /** A state with one task and one queue that is not empty. */
  function Single(k: nat, q: Table<nat>, len: nat, t: Task): State
    requires k < SHARDS
  {
    State(seq(SHARDS, i => if i == k then q else map[]), len, [t])
  }

  lemma EnqueueOperations(k: nat, p: Pair)
    requires k < SHARDS
    ensures
      var none: Table<nat> := map[];
      var zero, one := map[p.0 := map[p.1 := 0]], map[p.0 := map[p.1 := 1]];
      var s0, s1 := Single(k, none, 0, Idle), Single(k, zero, 0, Entered(k, p, none));
      var s2, s3 := Single(k, zero, 1, Raised(k, p, none)), Single(k, one, 1, Idle);
      && Enabled(s0, Enter(0, k, p)) && Apply(s0, Enter(0, k, p)) == s1
      && Enabled(s1, Raise(0)) && Apply(s1, Raise(0)) == s2
      && Enabled(s2, Bump(0)) && Apply(s2, Bump(0)) == s3
      && Enqueued(none, p) == one
  {
    var zero: Table<nat> := map[p.0 := map[p.1 := 0]];
    assert Inserted(map[], p) == zero;
    LiveOfInserted(map[], p);
    assert Enqueued(map[], p) == map[p.0 := map[p.1 := 1]];
  }

  /** An enqueue from start to finish, operation by operation: the protocol pauses twice and then takes its one step. */
  lemma EnqueueFromStart(p: TP.State, pair: Pair) returns (worlds: seq<World>, moves: seq<Move>)
    requires TP.Init(p) && p.tasks == [TP.Idle]
    ensures IsJointRun(worlds, moves) && |moves| == 3
    ensures worlds[0].coarse == worlds[1].coarse == worlds[2].coarse == p && worlds[3].coarse == TP.DoEnqueue(p, pair)
    ensures
      var k := TP.ShardIdx(p, pair.0);
      worlds[3].fine == Single(k, map[pair.0 := map[pair.1 := 1]], 1, Idle)
  {
    hide Enabled, Apply, TP.DoEnqueue;
    var k := TP.ShardIdx(p, pair.0);
    EnqueueOperations(k, pair);
    var zero := map[pair.0 := map[pair.1 := 0]];
    worlds := [World(Single(k, map[], 0, Idle), p), World(Single(k, zero, 0, Entered(k, pair, map[])), p),
               World(Single(k, zero, 1, Raised(k, pair, map[])), p),
               World(Single(k, map[pair.0 := map[pair.1 := 1]], 1, Idle), TP.DoEnqueue(p, pair))];
    moves := [Inside(Enter(0, k, pair)), Inside(Raise(0)), Inside(Bump(0))];
  }
}
