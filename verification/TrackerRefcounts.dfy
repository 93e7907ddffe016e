/** Refcount conservation: how the references a pair has in the active table relate to its live
    sessions, queued releases and releases in flight, step by step and over whole runs. */
module TrackerRefcounts {
  import opened Tables
  import opened Wrappers
  import opened ShardSpec
  import opened TrackerProtocol
  import opened TrackerInvariants
  import opened TrackerSteps
  import opened TrackerCounters

  /** Releases of a pair a task carries in a batch it has not applied. */
  function InFlight(t: Task, p: Pair): nat {
    if t.Taken? || t.Popped? then Pending(t.batch, p) else 0
  }

  function InFlights(s: State, p: Pair): seq<nat> {
    seq(|s.tasks|, j requires 0 <= j < |s.tasks| => InFlight(s.tasks[j], p))
  }

  function QueuedRefs(s: State, p: Pair): nat
    requires Shaped(s)
  {
    Count(s.queues[ShardIdx(s, p.0)], p)
  }

  function ActiveRefs(s: State, p: Pair): nat
    requires Shaped(s)
  {
    Count(s.shards[ShardIdx(s, p.0)].active, p)
  }

  /** References that sessions still own or have handed to the cleanup machinery. */
  ghost function Outstanding(s: State, p: Pair): nat
    requires Shaped(s)
  {
    Live(s, p) + QueuedRefs(s, p) + Sum(InFlights(s, p))
  }

  ghost function Gap(s: State, p: Pair): int
    requires Shaped(s)
  {
    Outstanding(s, p) - ActiveRefs(s, p)
  }

  /** The admission a step completes, if it completes one. */
  function Completes(s: State, step: Step): Option<Ticket>
    requires Shaped(s)
  {
    if !((step.Commit? || step.Decide? || step.ReserveRecent?) && step.tid < |s.tasks|) then None
    else
      var task := s.tasks[step.tid];
      if !(task.Readmitting? || task.BothReserved? || task.Deciding? || task.ActiveReserved?) then None
      else
        var t := task.ticket;
        var sh := s.shards[ShardIdx(s, t.user)];
        if step.Commit? then Some(t)
        else if step.Decide? && t.ip in Row(sh.active, t.user) && t.ip in Row(sh.recent, t.user) then Some(t)
        else if step.ReserveRecent? && t.ip in Row(sh.recent, t.user) then Some(t)
        else None
  }

  function Bit(b: bool): int {
    if b then 1 else 0
  }

  function Minus(n: int): int {
    -n
  }

  /** By how much a step moves the gap of a pair. Zero for every matched release and every admission. */
  ghost function Drift(s: State, step: Step, p: Pair): int
    requires Enabled(s, step)
  {
    if step.Enqueue? then
      if p == step.pair then Bit(QueuedRefs(s, p) < USIZE_MAX) - Bit(Live(s, p) > 0) else 0
    else if step.RemoveIp? then
      if p == step.pair then Bit(ActiveRefs(s, p) > 0) - Bit(Live(s, p) > 0) else 0
    else if step.ApplyBatch? then
      var t := s.tasks[step.tid];
      if ShardIdx(s, p.0) == t.shard then Minus(SatSub(Pending(t.batch, p), ActiveRefs(s, p))) else 0
    else if step.ClearActive? then
      if p.0 == step.user then ActiveRefs(s, p) else 0
    else if step.ClearAll? then Live(s, p) - Gap(s, p)
    else
      var t := Completes(s, step);
      if t.Some? && p == (t.value.user, t.value.ip) then Bit(ActiveRefs(s, p) >= USIZE_MAX) else 0
  }

  lemma InFlightStep(s: State, s': State, tid: nat, p: Pair)
    requires tid < |s.tasks| && |s'.tasks| == |s.tasks| && s'.tasks == s.tasks[tid := s'.tasks[tid]]
    ensures Sum(InFlights(s', p)) == Sum(InFlights(s, p)) - InFlight(s.tasks[tid], p) + InFlight(s'.tasks[tid], p)
    ensures InFlight(s.tasks[tid], p) <= Sum(InFlights(s, p))
  {
    assert InFlights(s', p) == InFlights(s, p)[tid := InFlight(s'.tasks[tid], p)];
    SumUpdate(InFlights(s, p), tid, InFlight(s'.tasks[tid], p));
  }

  /** The gap moves by what its four parts move. */
  lemma GapParts(s: State, s': State, tid: nat, k: nat, p: Pair)
    requires Local(s, s', tid, k)
    ensures Gap(s', p) - Gap(s, p)
         == (Live(s', p) - Live(s, p)) + (QueuedRefs(s', p) - QueuedRefs(s, p))
          + (InFlight(s'.tasks[tid], p) - InFlight(s.tasks[tid], p))
          - (ActiveRefs(s', p) - ActiveRefs(s, p))
  {
    InFlightStep(s, s', tid, p);
  }

  lemma EnqueueGap(s: State, tid: nat, q: Pair, p: Pair)
    requires Inv(s) && Enabled(s, Enqueue(tid, q))
    ensures Gap(Apply(s, Enqueue(tid, q)), p) == Gap(s, p) + Drift(s, Enqueue(tid, q), p)
  {
    var k := ShardIdx(s, q.0);
    assert QueueAt(s, k);
    EnqueuedOk(s.queues[k], q);
    GapParts(s, DoEnqueue(s, q), tid, k, p);
  }

  lemma TakeUserGap(s: State, tid: nat, u: User, p: Pair)
    requires Inv(s) && At(s, tid, Idle)
    ensures Gap(DoTakeUser(s, tid, u), p) == Gap(s, p)
  {
    var k := ShardIdx(s, u);
    var s' := DoTakeUser(s, tid, u);
    var row := Row(s.queues[k], u);
    GapParts(s, s', tid, k, p);
    assert p in RowBatch(u, row) <==> p.0 == u && p.1 in row;
    assert Pending(RowBatch(u, row), p) == if p.0 == u then Count(s.queues[k], p) else 0;
  }

  lemma PopShardGap(s: State, tid: nat, k: nat, batch: Batch, p: Pair)
    requires Inv(s) && At(s, tid, Idle) && k < SHARDS && IsDrain(s.queues[k], batch)
    ensures Gap(DoPopShard(s, tid, k, batch), p) == Gap(s, p)
  {
    GapParts(s, DoPopShard(s, tid, k, batch), tid, k, p);
    DrainCount(s.queues[k], batch, p);
    assert QueueAt(s, k);
    if ShardIdx(s, p.0) != k {
      assert p !in Pairs(s.queues[k]);
    }
  }

  lemma ApplyBatchGap(s: State, tid: nat, p: Pair)
    requires Inv(s) && Enabled(s, ApplyBatch(tid))
    ensures Gap(Apply(s, ApplyBatch(tid)), p) == Gap(s, p) + Drift(s, ApplyBatch(tid), p)
  {
    hide AfterBatch, Pairs, Free, QueueOk;
    var k, batch := s.tasks[tid].shard, s.tasks[tid].batch;
    GapParts(s, DoApplyBatch(s, tid, k, batch), tid, k, p);
    AfterBatchCount(s.shards[k].active, batch, p);
    assert TaskOk(s, s.tasks[tid]);
  }

  lemma RemoveIpGap(s: State, tid: nat, q: Pair, p: Pair)
    requires Inv(s) && Enabled(s, RemoveIp(tid, q))
    ensures Gap(Apply(s, RemoveIp(tid, q)), p) == Gap(s, p) + Drift(s, RemoveIp(tid, q), p)
  {
    var k := ShardIdx(s, q.0);
    GapParts(s, DoRemoveIp(s, tid, q), tid, k, p);
    RemoveOneIsCleanup(s.shards[k].active, q);
    CleanupCount(s.shards[k].active, q, 1, p);
  }

  /** A step that leaves live sessions, queues, batches and all active rows as they are. */
  lemma QuietGap(s: State, s': State, tid: nat, k: nat, p: Pair)
    requires Local(s, s', tid, k)
    requires s'.queues == s.queues && s'.live == s.live
    requires InFlight(s'.tasks[tid], p) == InFlight(s.tasks[tid], p)
    requires Row(s'.shards[k].active, p.0) == Row(s.shards[k].active, p.0)
    ensures Gap(s', p) == Gap(s, p)
  {
    GapParts(s, s', tid, k, p);
  }

  lemma AdmitGap(s: State, tid: nat, t: Ticket, p: Pair)
    requires Inv(s) && tid < |s.tasks| && InFlight(s.tasks[tid], p) == 0
    ensures Gap(DoAdmit(s, tid, t), p) == Gap(s, p)
         + if p == (t.user, t.ip) then Bit(ActiveRefs(s, p) >= USIZE_MAX) else 0
  {
    assert Positive(s.shards[ShardIdx(s, t.user)].active);
    GapParts(s, DoAdmit(s, tid, t), tid, ShardIdx(s, t.user), p);
  }

  lemma ClearActiveGap(s: State, tid: nat, u: User, p: Pair)
    requires Inv(s) && Enabled(s, ClearActive(tid, u))
    ensures Gap(Apply(s, ClearActive(tid, u)), p) == Gap(s, p) + Drift(s, ClearActive(tid, u), p)
  {
    GapParts(s, DoClearActive(s, tid, u), tid, ShardIdx(s, u), p);
  }

  lemma ClearAllGap(s: State, p: Pair)
    requires Inv(s) && Enabled(s, ClearAll)
    ensures Gap(DoClearAll(s), p) == Live(s, p)
  {
    SumZero(InFlights(DoClearAll(s), p));
  }

  /** A decision that does not complete the admission moves only a counter and its own task. */
  lemma QuietDecision(s: State, tid: nat, t: Ticket)
    requires Shaped(s) && At(s, tid, Deciding(t)) && Completes(s, Decide(tid)) == None
    ensures
      var s' := DoDecide(s, tid, t);
      && Local(s, s', tid, 0)
      && s'.shards == s.shards && s'.queues == s.queues && s'.live == s.live && s'.history == s.history
      && (s'.tasks[tid] == Idle || s'.tasks[tid] == Readmitting(t) || s'.tasks[tid] == ActiveReserved(t))
  {
  }

  lemma DecideGap(s: State, tid: nat, t: Ticket, p: Pair)
    requires Inv(s) && At(s, tid, Deciding(t))
    ensures Gap(DoDecide(s, tid, t), p) == Gap(s, p)
         + if Completes(s, Decide(tid)).Some? && p == (t.user, t.ip) then Bit(ActiveRefs(s, p) >= USIZE_MAX) else 0
  {
    if Completes(s, Decide(tid)).Some? {
      AdmitGap(s, tid, t, p);
    } else {
      QuietDecision(s, tid, t);
      var s' := DoDecide(s, tid, t);
      QuietGap(s, s', tid, 0, p);
    }
  }

  lemma ReserveRecentGap(s: State, tid: nat, t: Ticket, p: Pair)
    requires Inv(s) && At(s, tid, ActiveReserved(t))
    ensures Gap(DoReserveRecent(s, tid, t), p) == Gap(s, p)
         + if Completes(s, ReserveRecent(tid)).Some? && p == (t.user, t.ip) then Bit(ActiveRefs(s, p) >= USIZE_MAX) else 0
  {
    if Completes(s, ReserveRecent(tid)).Some? {
      AdmitGap(s, tid, t, p);
    } else {
      QuietGap(s, DoReserveRecent(s, tid, t), tid, 0, p);
    }
  }

  lemma AdmissionGap(s: State, step: Step, p: Pair)
    requires Inv(s) && Enabled(s, step)
    requires step.Decide? || step.ReserveRecent? || step.Commit?
    ensures Gap(Apply(s, step), p) == Gap(s, p) + Drift(s, step, p)
  {
    var tid := step.tid;
    var t := s.tasks[tid].ticket;
    if step.Decide? {
      DecideGap(s, tid, t, p);
    } else if step.ReserveRecent? {
      ReserveRecentGap(s, tid, t, p);
    } else {
      AdmitGap(s, tid, t, p);
    }
  }

  lemma CompactGap(s: State, step: Step, p: Pair)
    requires Inv(s) && Enabled(s, step)
    requires step.CompactPrune? || step.CompactSweep?
    ensures Gap(Apply(s, step), p) == Gap(s, p)
  {
    var k := s.tasks[step.tid].shard;
    if step.CompactSweep? {
      SweepPairs(s.shards[k].active, s.shards[k].recent);
    }
    QuietGap(s, Apply(s, step), step.tid, k, p);
  }

  lemma CounterGap(s: State, step: Step, p: Pair)
    requires Inv(s) && Enabled(s, step)
    requires step.SubQueueLen? || step.SubActive? || step.Arrive? || step.SubPruned? || step.Rollback?
          || step.StartCompact? || step.CompactSub? || step.ClearSubActive? || step.SubRecent?
    ensures Gap(Apply(s, step), p) == Gap(s, p)
  {
    QuietGap(s, Apply(s, step), step.tid, 0, p);
  }

  lemma LockGap(s: State, step: Step, p: Pair)
    requires Inv(s) && Enabled(s, step)
    requires step.Lock? || step.ClearRecent?
    ensures Gap(Apply(s, step), p) == Gap(s, p)
  {
    var u := if step.Lock? then s.tasks[step.tid].ticket.user else s.tasks[step.tid].user;
    QuietGap(s, Apply(s, step), step.tid, ShardIdx(s, u), p);
  }

  lemma SpawnGap(s: State, p: Pair)
    requires Inv(s)
    ensures Gap(s.(tasks := s.tasks + [Idle]), p) == Gap(s, p)
  {
    var s' := s.(tasks := s.tasks + [Idle]);
    assert InFlights(s', p) == InFlights(s, p) + [0];
    SumAppend(InFlights(s, p), 0);
  }

  lemma ReleaseGap(s: State, step: Step, p: Pair)
    requires Inv(s) && Enabled(s, step)
    requires step.Enqueue? || step.TakeUser? || step.PopShard? || step.ApplyBatch? || step.RemoveIp?
    ensures Gap(Apply(s, step), p) == Gap(s, p) + Drift(s, step, p)
  {
    match step
    case Enqueue(tid, q) => EnqueueGap(s, tid, q, p);
    case TakeUser(tid, u) => TakeUserGap(s, tid, u, p);
    case PopShard(tid, k, batch) => PopShardGap(s, tid, k, batch, p);
    case ApplyBatch(tid) => ApplyBatchGap(s, tid, p);
    case RemoveIp(tid, q) => RemoveIpGap(s, tid, q, p);
  }

  lemma EnvironmentGap(s: State, step: Step, p: Pair)
    requires Inv(s) && Enabled(s, step)
    requires step.ClearActive? || step.ClearAll? || step.SetPolicy? || step.Spawn?
    ensures Gap(Apply(s, step), p) == Gap(s, p) + Drift(s, step, p)
  {
    match step
    case ClearActive(tid, u) => ClearActiveGap(s, tid, u, p);
    case ClearAll => ClearAllGap(s, p);
    case SetPolicy(_) => assert InFlights(Apply(s, step), p) == InFlights(s, p);
    case Spawn => SpawnGap(s, p);
  }

  /** The exact law of the gap between outstanding and stored references, for every step. */
  lemma GapStep(s: State, step: Step, p: Pair)
    requires Inv(s) && Enabled(s, step) && Shaped(Apply(s, step))
    ensures Gap(Apply(s, step), p) == Gap(s, p) + Drift(s, step, p)
  {
    if step.Enqueue? || step.TakeUser? || step.PopShard? || step.ApplyBatch? || step.RemoveIp? {
      ReleaseGap(s, step, p);
    } else if step.Decide? || step.ReserveRecent? || step.Commit? {
      AdmissionGap(s, step, p);
    } else if step.ClearActive? || step.ClearAll? || step.SetPolicy? || step.Spawn? {
      EnvironmentGap(s, step, p);
    } else if step.Lock? || step.ClearRecent? {
      LockGap(s, step, p);
    } else if step.CompactPrune? || step.CompactSweep? {
      CompactGap(s, step, p);
    } else {
      CounterGap(s, step, p);
    }
  }

  /** Stored references are exactly the outstanding ones. */
  ghost predicate Conserved(s: State)
    requires Shaped(s)
  {
    forall p :: Gap(s, p) == 0
  }

  /** The steps that spoil conservation, told from the state before them: a release nobody was admitted
      for, a 64-bit refcount at its limit, and a clear that drops the entries of running sessions. */
  ghost predicate Breaks(s: State, step: Step)
    requires Enabled(s, step)
  {
    if step.Enqueue? then (Live(s, step.pair) == 0) != (QueuedRefs(s, step.pair) >= USIZE_MAX)
    else if step.RemoveIp? then Live(s, step.pair) == 0 && ActiveRefs(s, step.pair) > 0
    else if step.ClearActive? then Row(s.shards[ShardIdx(s, step.user)].active, step.user) != map[]
    else if step.ClearAll? then exists p :: Live(s, p) > 0
    else
      var t := Completes(s, step);
      t.Some? && ActiveRefs(s, (t.value.user, t.value.ip)) >= USIZE_MAX
  }

  lemma BatchNeverTruncates(s: State, tid: nat, p: Pair)
    requires Inv(s) && Conserved(s) && Enabled(s, ApplyBatch(tid))
    ensures Pending(s.tasks[tid].batch, p) <= ActiveRefs(s, p)
  {
    InFlightStep(s, s, tid, p);
    assert Gap(s, p) == 0;
  }

  lemma BreaksMeansDrift(s: State, step: Step) returns (p: Pair)
    requires Inv(s) && Conserved(s) && Enabled(s, step) && Breaks(s, step)
    ensures Drift(s, step, p) != 0
  {
    if step.Enqueue? || step.RemoveIp? {
      p := step.pair;
    } else if step.ClearActive? {
      var u := step.user;
      var i :| i in Row(s.shards[ShardIdx(s, u)].active, u);
      p := (u, i);
      assert Positive(s.shards[ShardIdx(s, u)].active);
    } else if step.ClearAll? {
      p :| Live(s, p) > 0;
      assert Gap(s, p) == 0;
    } else {
      var t := Completes(s, step).value;
      p := (t.user, t.ip);
    }
  }

  lemma NoDriftUnlessBreaks(s: State, step: Step, p: Pair)
    requires Inv(s) && Conserved(s) && Enabled(s, step) && !Breaks(s, step)
    ensures Drift(s, step, p) == 0
  {
    assert Gap(s, p) == 0;
    if step.ApplyBatch? {
      BatchNeverTruncates(s, step.tid, p);
    }
  }

  /** A step keeps conservation if and only if it is none of those. */
  lemma ConservationIff(s: State, step: Step)
    requires Inv(s) && Conserved(s) && Enabled(s, step)
    ensures Shaped(Apply(s, step))
    ensures Conserved(Apply(s, step)) <==> !Breaks(s, step)
  {
    StepInv(s, step);
    if Breaks(s, step) {
      var p := BreaksMeansDrift(s, step);
      GapStep(s, step, p);
      assert Gap(s, p) == 0;
    } else {
      forall p: Pair
        ensures Gap(Apply(s, step), p) == 0
      {
        GapStep(s, step, p);
        NoDriftUnlessBreaks(s, step, p);
        assert Gap(s, p) == 0;
      }
    }
  }

  /** Over every run without such a step, references are conserved in every state: an IP with a live
      session is active however late batches are applied, and no batch asks for more than is stored. */
  lemma {:induction false} RefcountsConserved(states: seq<State>, steps: seq<Step>, i: nat)
    requires IsRun(states, steps) && i < |states|
    requires forall j :: 0 <= j < i ==> !Breaks(states[j], steps[j])
    ensures Shaped(states[i]) && Conserved(states[i])
    ensures forall p :: Live(states[i], p) > 0 ==>
      p.1 in Row(states[i].shards[ShardIdx(states[i], p.0)].active, p.0)
    ensures forall p: Pair :: p.1 in Row(states[i].shards[ShardIdx(states[i], p.0)].active, p.0) ==>
      Outstanding(states[i], p) > 0
  {
    hide Apply, Enabled;
    var s := states[i];
    RunInv(states, steps, i);
    if i == 0 {
      forall p: Pair
        ensures Gap(s, p) == 0
      {
        SumZero(InFlights(s, p));
      }
    } else {
      RunInv(states, steps, i - 1);
      RefcountsConserved(states, steps, i - 1);
      ConservationIff(states[i - 1], steps[i - 1]);
    }
    forall p: Pair
      ensures Live(s, p) > 0 ==> p.1 in Row(s.shards[ShardIdx(s, p.0)].active, p.0)
      ensures p.1 in Row(s.shards[ShardIdx(s, p.0)].active, p.0) ==> Outstanding(s, p) > 0
    {
      assert Gap(s, p) == 0;
      assert Positive(s.shards[ShardIdx(s, p.0)].active);
    }
  }

  /** Whatever is cleared or released without admission, in every run short of a queued count at its
      64-bit limit no reference outlives its owners: an active IP always has a session, a queued release
      or a release in flight, so a quiescent tracker with no sessions has no active IPs. */
  lemma {:induction false} NoReferenceLeaks(states: seq<State>, steps: seq<Step>, i: nat, p: Pair)
    requires IsRun(states, steps) && i < |states|
    requires forall j :: 0 <= j < i && steps[j].Enqueue? ==> QueuedRefs(states[j], steps[j].pair) < USIZE_MAX
    ensures Shaped(states[i]) && ActiveRefs(states[i], p) <= Outstanding(states[i], p)
  {
    hide Apply, Enabled;
    RunInv(states, steps, i);
    if i == 0 {
      SumZero(InFlights(states[0], p));
    } else {
      var s, step := states[i - 1], steps[i - 1];
      RunInv(states, steps, i - 1);
      NoReferenceLeaks(states, steps, i - 1, p);
      GapStep(s, step, p);
      GapStaysNonNegative(s, step, p);
    }
  }

  lemma GapStaysNonNegative(s: State, step: Step, p: Pair)
    requires Inv(s) && Enabled(s, step) && Gap(s, p) >= 0
    requires step.Enqueue? ==> QueuedRefs(s, step.pair) < USIZE_MAX
    ensures Gap(s, p) + Drift(s, step, p) >= 0
  {
    if step.ApplyBatch? {
      InFlightStep(s, s, step.tid, p);
    }
  }
}
