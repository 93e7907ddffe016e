/** Lazy pruning is invisible: for one window, the pruned recent table answers every windowed reader as
    the unpruned record of last successful admissions would. */
module TrackerWindow {
  import opened Tables
  import opened ShardSpec
  import opened TrackerProtocol
  import opened TrackerInvariants
  import opened TrackerSteps
  import opened TrackerCounters
  import opened TrackerRefcounts
  import opened TrackerLimits

  /** The recent table and the history agree on a pair: what is stored is the last admission, and what
      is missing has left the window for every reader not older than the last pruning. */
  ghost predicate PairAgrees(s: State, p: Pair, window: nat)
    requires Shaped(s)
  {
    var row := RecentRow(s, p.0);
    && (p.1 in row ==> p in s.history && s.history[p] == row[p.1])
    && (p in s.history && s.clocks[ShardIdx(s, p.0)] <= s.history[p] + window ==> p.1 in row)
  }

  predicate UsesWindow(t: Task, window: nat) {
    && (TicketOf(t).Some? ==> t.ticket.window == window)
    && (t.Compacting? || t.CompactPruned? || t.CompactSweeping? ==> t.window == window)
  }

  ghost predicate WindowInv(s: State, window: nat)
    requires Shaped(s)
  {
    && (forall p :: PairAgrees(s, p, window))
    && (forall j :: 0 <= j < |s.tasks| ==> UsesWindow(s.tasks[j], window))
  }

  // ----- the tables -----

  lemma LockAgrees(s: State, tid: nat, t: Ticket, p: Pair)
    requires Shaped(s) && tid < |s.tasks| && PairAgrees(s, p, t.window)
    ensures PairAgrees(DoLock(s, tid, t), p, t.window)
  {
  }

  lemma AdmitAgrees(s: State, tid: nat, t: Ticket, p: Pair, window: nat)
    requires Shaped(s) && tid < |s.tasks| && PairAgrees(s, p, window)
    ensures PairAgrees(DoAdmit(s, tid, t), p, window)
  {
  }

  lemma PruneAgrees(s: State, tid: nat, k: nat, now: nat, window: nat, p: Pair)
    requires Shaped(s) && tid < |s.tasks| && k < SHARDS && PairAgrees(s, p, window)
    ensures PairAgrees(DoCompactPrune(s, tid, k, now, window), p, window)
  {
    assert ShardIdx(s, p.0) == k ==>
      RecentRow(DoCompactPrune(s, tid, k, now, window), p.0) == PruneRow(RecentRow(s, p.0), now, window);
  }

  lemma SweepAgrees(s: State, tid: nat, k: nat, now: nat, p: Pair, window: nat)
    requires Shaped(s) && tid < |s.tasks| && k < SHARDS && PairAgrees(s, p, window)
    ensures PairAgrees(DoCompactSweep(s, tid, k, now, window), p, window)
  {
    SweepPairs(s.shards[k].recent, s.shards[k].active);
  }

  lemma ClearAgrees(s: State, tid: nat, u: User, p: Pair, window: nat)
    requires Shaped(s) && tid < |s.tasks| && PairAgrees(s, p, window)
    ensures PairAgrees(DoClearRecent(s, tid, u), p, window)
  {
  }

  lemma DecisionAgrees(s: State, tid: nat, t: Ticket, p: Pair, window: nat)
    requires Shaped(s) && At(s, tid, Deciding(t)) && PairAgrees(s, p, window)
    ensures PairAgrees(DoDecide(s, tid, t), p, window)
  {
    hide DoAdmit, Denied;
    if Completes(s, Decide(tid)).Some? {
      AdmitAgrees(s, tid, t, p, window);
    } else {
      var s' := DoDecide(s, tid, t);
      assert s'.shards == s.shards && s'.history == s.history && s'.clocks == s.clocks;
    }
  }

  lemma ReserveRecentAgrees(s: State, tid: nat, t: Ticket, p: Pair, window: nat)
    requires Shaped(s) && At(s, tid, ActiveReserved(t)) && PairAgrees(s, p, window)
    ensures PairAgrees(DoReserveRecent(s, tid, t), p, window)
  {
    if Completes(s, ReserveRecent(tid)).Some? {
      AdmitAgrees(s, tid, t, p, window);
    } else {
      var s' := DoReserveRecent(s, tid, t);
      assert s'.shards == s.shards && s'.history == s.history && s'.clocks == s.clocks;
    }
  }

  /** Steps that leave recent tables, history and clocks alone. */
  lemma RecentUnchanged(s: State, step: Step)
    requires Enabled(s, step)
    requires !(step.Decide? || step.ReserveRecent? || step.Commit? || step.Lock? || step.CompactPrune?
            || step.CompactSweep? || step.ClearRecent? || step.ClearAll?)
    ensures
      var s' := Apply(s, step);
      && Shaped(s') && s'.history == s.history && s'.clocks == s.clocks && s'.hasher == s.hasher
      && forall k :: 0 <= k < SHARDS ==> s'.shards[k].recent == s.shards[k].recent
  {
  }

  lemma AdmissionAgrees(s: State, step: Step, p: Pair, window: nat)
    requires Enabled(s, step) && PairAgrees(s, p, window)
    requires step.Decide? || step.ReserveRecent? || step.Commit? || step.Lock?
    requires UsesWindow(s.tasks[step.tid], window)
    ensures PairAgrees(Apply(s, step), p, window)
  {
    match step
    case Decide(tid) => DecisionAgrees(s, tid, s.tasks[tid].ticket, p, window);
    case ReserveRecent(tid) => ReserveRecentAgrees(s, tid, s.tasks[tid].ticket, p, window);
    case Commit(tid) => AdmitAgrees(s, tid, s.tasks[tid].ticket, p, window);
    case Lock(tid) => LockAgrees(s, tid, s.tasks[tid].ticket, p);
  }

  lemma MaintenanceAgrees(s: State, step: Step, p: Pair, window: nat)
    requires Enabled(s, step) && PairAgrees(s, p, window)
    requires step.CompactPrune? || step.CompactSweep? || step.ClearRecent?
    requires UsesWindow(s.tasks[step.tid], window)
    ensures PairAgrees(Apply(s, step), p, window)
  {
    match step
    case CompactPrune(tid) => PruneAgrees(s, tid, s.tasks[tid].shard, s.tasks[tid].now, window, p);
    case CompactSweep(tid) => SweepAgrees(s, tid, s.tasks[tid].shard, s.tasks[tid].now, p, window);
    case ClearRecent(tid) => ClearAgrees(s, tid, s.tasks[tid].user, p, window);
  }

  lemma AgreesStep(s: State, step: Step, p: Pair, window: nat)
    requires Enabled(s, step) && Shaped(Apply(s, step))
    requires PairAgrees(s, p, window)
    requires HasTask(step) ==> UsesWindow(s.tasks[step.tid], window)
    ensures PairAgrees(Apply(s, step), p, window)
  {
    if step.Decide? || step.ReserveRecent? || step.Commit? || step.Lock? {
      AdmissionAgrees(s, step, p, window);
    } else if step.CompactPrune? || step.CompactSweep? || step.ClearRecent? {
      MaintenanceAgrees(s, step, p, window);
    } else if !step.ClearAll? {
      RecentUnchanged(s, step);
    }
  }

  // ----- the windows tasks carry -----

  lemma DecisionUsesWindow(s: State, tid: nat, t: Ticket)
    requires Shaped(s)
    ensures At(s, tid, Deciding(t)) ==> UsesWindow(DoDecide(s, tid, t).tasks[tid], t.window)
    ensures At(s, tid, ActiveReserved(t)) ==> UsesWindow(DoReserveRecent(s, tid, t).tasks[tid], t.window)
  {
  }

  lemma AdmissionUsesWindow(s: State, step: Step, window: nat)
    requires Enabled(s, step)
    requires step.Arrive? || step.Lock? || step.SubPruned? || step.Commit? || step.Rollback?
    requires UsesWindow(s.tasks[step.tid], window) && LimitWindow(s.policy) == window
    ensures step.tid < |Apply(s, step).tasks| && UsesWindow(Apply(s, step).tasks[step.tid], window)
  {
  }

  predicate OnQueues(step: Step) {
    step.Enqueue? || step.TakeUser? || step.PopShard? || step.SubQueueLen? || step.ApplyBatch? || step.RemoveIp? || step.SubActive?
  }

  lemma ReleasesUseWindow(s: State, step: Step, window: nat)
    requires Enabled(s, step) && OnQueues(step)
    requires UsesWindow(s.tasks[step.tid], window)
    ensures step.tid < |Apply(s, step).tasks| && UsesWindow(Apply(s, step).tasks[step.tid], window)
  {
    hide RowBatch, Without, AfterBatch, Pairs, IsDrain, Enqueued, RemoveOne, RemoveOneEntries, Free;
  }

  lemma MaintenanceUsesWindow(s: State, step: Step, window: nat)
    requires Enabled(s, step) && HasTask(step) && !OnQueues(step)
    requires !(step.Arrive? || step.Lock? || step.SubPruned? || step.Decide? || step.ReserveRecent?
            || step.Commit? || step.Rollback?)
    requires UsesWindow(s.tasks[step.tid], window) && LimitWindow(s.policy) == window
    ensures step.tid < |Apply(s, step).tasks| && UsesWindow(Apply(s, step).tasks[step.tid], window)
  {
    hide PruneAll, Sweep, Pairs, Free;
  }

  lemma OwnWindow(s: State, step: Step, window: nat)
    requires Enabled(s, step) && HasTask(step)
    requires UsesWindow(s.tasks[step.tid], window) && LimitWindow(s.policy) == window
    ensures step.tid < |Apply(s, step).tasks| && UsesWindow(Apply(s, step).tasks[step.tid], window)
  {
    if step.Decide? || step.ReserveRecent? {
      DecisionUsesWindow(s, step.tid, s.tasks[step.tid].ticket);
    } else if step.Arrive? || step.Lock? || step.SubPruned? || step.Commit? || step.Rollback? {
      AdmissionUsesWindow(s, step, window);
    } else if OnQueues(step) {
      ReleasesUseWindow(s, step, window);
    } else {
      MaintenanceUsesWindow(s, step, window);
    }
  }

  lemma TaskExists(s: State, step: Step)
    requires Enabled(s, step) && HasTask(step)
    ensures step.tid < |s.tasks|
  {
  }

  lemma TasklessKeepWindows(s: State, step: Step, window: nat)
    requires Enabled(s, step) && !HasTask(step)
    requires forall j :: 0 <= j < |s.tasks| ==> UsesWindow(s.tasks[j], window)
    ensures forall j :: 0 <= j < |Apply(s, step).tasks| ==> UsesWindow(Apply(s, step).tasks[j], window)
  {
  }

  lemma WindowsStep(s: State, step: Step, window: nat)
    requires Inv(s) && Enabled(s, step)
    requires forall j :: 0 <= j < |s.tasks| ==> UsesWindow(s.tasks[j], window)
    requires LimitWindow(s.policy) == window
    ensures forall j :: 0 <= j < |Apply(s, step).tasks| ==> UsesWindow(Apply(s, step).tasks[j], window)
  {
    hide Apply, Enabled, Inv, Where;
    if HasTask(step) {
      TaskExists(s, step);
      StepIsLocal(s, step);
      OwnWindow(s, step, window);
    } else {
      TasklessKeepWindows(s, step, window);
    }
  }

  lemma {:induction false} WindowHolds(states: seq<State>, steps: seq<Step>, i: nat, window: nat)
    requires IsRun(states, steps) && i < |states|
    requires forall j :: 0 <= j < i ==> LimitWindow(states[j].policy) == window
    ensures Shaped(states[i]) && WindowInv(states[i], window)
  {
    RunInv(states, steps, i);
    if i > 0 {
      var s, step := states[i - 1], steps[i - 1];
      RunInv(states, steps, i - 1);
      WindowHolds(states, steps, i - 1, window);
      WindowsStep(s, step, window);
      forall p
        ensures PairAgrees(states[i], p, window)
      {
        assert PairAgrees(s, p, window);
        AgreesStep(s, step, p, window);
      }
    }
  }

  /** What a windowed reader sees of a user at an instant. */
  ghost function SeenInWindow(s: State, u: User, now: nat, window: nat): set<Ip>
    requires Shaped(s)
  {
    PruneRow(RecentRow(s, u), now, window).Keys
  }

  /** What the unpruned history shows: the last admission is no longer than the window ago. */
  ghost function AdmittedInWindow(s: State, u: User, now: nat, window: nat): set<Ip> {
    set p | p in s.history && p.0 == u && now <= s.history[p] + window :: p.1
  }

  /** With one window in force throughout a run, whenever admissions and compactions prune, a reader
      whose instant is not before the last pruning of that shard sees exactly the IPs whose last
      successful admission lies in the window. */
  lemma PruningIsInvisible(states: seq<State>, steps: seq<Step>, i: nat, window: nat, u: User, now: nat)
    requires IsRun(states, steps) && i < |states|
    requires forall j :: 0 <= j < i ==> LimitWindow(states[j].policy) == window
    requires Shaped(states[i]) && states[i].clocks[ShardIdx(states[i], u)] <= now
    ensures SeenInWindow(states[i], u, now, window) == AdmittedInWindow(states[i], u, now, window)
  {
    var s := states[i];
    WindowHolds(states, steps, i, window);
    forall ip
      ensures ip in SeenInWindow(s, u, now, window) <==> ip in AdmittedInWindow(s, u, now, window)
    {
      var p := (u, ip);
      assert PairAgrees(s, p, window);
      PruneRowKeeps(RecentRow(s, u), now, window);
    }
  }

  /** Compaction changes no user's active row and drops no user that has one. */
  lemma CompactionKeepsActive(s: State, step: Step, u: User)
    requires Enabled(s, step)
    requires step.CompactPrune? || step.CompactSub? || step.CompactSweep?
    ensures Shaped(Apply(s, step)) && ActiveRow(Apply(s, step), u) == ActiveRow(s, u)
    ensures
      var k := ShardIdx(s, u);
      u in s.shards[k].active && s.shards[k].active[u] != map[] ==>
        u in Apply(s, step).shards[k].active && Apply(s, step).shards[k].active[u] == s.shards[k].active[u]
  {
    if step.CompactSweep? {
      var sh := s.shards[s.tasks[step.tid].shard];
      SweepPairs(sh.active, sh.recent);
    }
  }
}
