/** The per-user limits over whole runs: with one limit in force, how many IPs a user can have. */
module TrackerLimits {
  import opened Tables
  import opened Wrappers
  import opened ShardSpec
  import opened TrackerProtocol
  import opened TrackerInvariants
  import opened TrackerSteps
  import opened TrackerCounters
  import opened TrackerRefcounts

  function ActiveRow(s: State, u: User): map<Ip, nat>
    requires Shaped(s)
  {
    Row(s.shards[ShardIdx(s, u)].active, u)
  }

  function RecentRow(s: State, u: User): map<Ip, nat>
    requires Shaped(s)
  {
    Row(s.shards[ShardIdx(s, u)].recent, u)
  }

  function TicketOf(t: Task): Option<Ticket> {
    if t.Arrived? || t.Pruned? || t.Deciding? || t.Readmitting? || t.ActiveReserved? || t.BothReserved? || t.RollingBack?
    then Some(t.ticket) else None
  }

  predicate HasTask(step: Step) {
    !step.ClearAll? && !step.SetPolicy? && !step.Spawn?
  }

  /** The shard a step touches; any shard for a step that touches none. */
  function Where(s: State, step: Step): (k: nat)
    requires Shaped(s) && HasTask(step) && step.tid < |s.tasks|
  {
    var t := s.tasks[step.tid];
    if step.Enqueue? then ShardIdx(s, step.pair.0)
    else if step.RemoveIp? then ShardIdx(s, step.pair.0)
    else if step.TakeUser? then ShardIdx(s, step.user)
    else if step.ClearActive? then ShardIdx(s, step.user)
    else if step.PopShard? then step.shard
    else if step.ApplyBatch? && t.Popped? then t.shard
    else if step.CompactPrune? && t.Compacting? then t.shard
    else if step.CompactSweep? && t.CompactSweeping? then t.shard
    else if step.ClearRecent? && t.ClearingRecent? then ShardIdx(s, t.user)
    else if TicketOf(t).Some? then ShardIdx(s, t.ticket.user)
    else 0
  }

  ghost predicate OneShardStep(s: State, s': State, tid: nat, k: nat) {
    && Local(s, s', tid, k)
    && (s'.shards[k] == s.shards[k] || Free(s, tid, k))
  }

  lemma ReleaseIsLocal(s: State, step: Step)
    requires Enabled(s, step)
    requires step.Enqueue? || step.TakeUser? || step.PopShard? || step.SubQueueLen? || step.ApplyBatch?
          || step.RemoveIp? || step.SubActive?
    ensures OneShardStep(s, Apply(s, step), step.tid, Where(s, step))
  {
  }

  lemma AdmissionIsLocal(s: State, step: Step)
    requires Enabled(s, step)
    requires step.Arrive? || step.Lock? || step.SubPruned? || step.Rollback?
    ensures OneShardStep(s, Apply(s, step), step.tid, Where(s, step))
  {
  }

  lemma CommitIsLocal(s: State, step: Step)
    requires Exclusive(s) && Enabled(s, step) && step.Commit?
    ensures OneShardStep(s, Apply(s, step), step.tid, Where(s, step))
  {
    HolderIsAlone(s, step.tid, Where(s, step));
  }

  lemma DecisionIsLocal(s: State, tid: nat, t: Ticket)
    requires Shaped(s) && Exclusive(s)
    ensures At(s, tid, Deciding(t)) ==> OneShardStep(s, DoDecide(s, tid, t), tid, ShardIdx(s, t.user))
    ensures At(s, tid, ActiveReserved(t)) ==> OneShardStep(s, DoReserveRecent(s, tid, t), tid, ShardIdx(s, t.user))
  {
    if At(s, tid, Deciding(t)) || At(s, tid, ActiveReserved(t)) {
      HolderIsAlone(s, tid, ShardIdx(s, t.user));
    }
  }

  lemma CompactionIsLocal(s: State, step: Step)
    requires Exclusive(s) && Enabled(s, step)
    requires step.StartCompact? || step.CompactPrune? || step.CompactSub? || step.CompactSweep?
    ensures OneShardStep(s, Apply(s, step), step.tid, Where(s, step))
  {
    if step.CompactSweep? {
      HolderIsAlone(s, step.tid, Where(s, step));
    }
  }

  lemma ClearIsLocal(s: State, step: Step)
    requires Exclusive(s) && Enabled(s, step)
    requires step.ClearActive? || step.ClearSubActive? || step.ClearRecent? || step.SubRecent?
    ensures OneShardStep(s, Apply(s, step), step.tid, Where(s, step))
  {
    if step.ClearRecent? {
      HolderIsAlone(s, step.tid, Where(s, step));
    }
  }

  /** Every step of a task touches one shard, and only with that shard's lock. */
  lemma StepIsLocal(s: State, step: Step)
    requires Inv(s) && Enabled(s, step) && HasTask(step)
    ensures OneShardStep(s, Apply(s, step), step.tid, Where(s, step))
  {
    if step.Decide? || step.ReserveRecent? {
      DecisionIsLocal(s, step.tid, s.tasks[step.tid].ticket);
    } else if step.Commit? {
      CommitIsLocal(s, step);
    } else if step.Arrive? || step.Lock? || step.SubPruned? || step.Rollback? {
      AdmissionIsLocal(s, step);
    } else if step.Enqueue? || step.TakeUser? || step.PopShard? || step.SubQueueLen? || step.ApplyBatch?
           || step.RemoveIp? || step.SubActive? {
      ReleaseIsLocal(s, step);
    } else if step.StartCompact? || step.CompactPrune? || step.CompactSub? || step.CompactSweep? {
      CompactionIsLocal(s, step);
    } else {
      ClearIsLocal(s, step);
    }
  }

  // ----- what a step does to a user's rows -----

  ghost predicate RowsShrink(s: State, s': State, u: User)
    requires Shaped(s) && Shaped(s')
  {
    && ActiveRow(s', u).Keys <= ActiveRow(s, u).Keys
    && RecentRow(s', u).Keys <= RecentRow(s, u).Keys
  }

  ghost predicate RowsGain(s: State, s': State, u: User, ip: Ip)
    requires Shaped(s) && Shaped(s')
  {
    && ActiveRow(s', u).Keys == ActiveRow(s, u).Keys + {ip}
    && RecentRow(s', u).Keys == RecentRow(s, u).Keys + {ip}
  }

  lemma ReleaseShrinks(s: State, step: Step, u: User)
    requires Enabled(s, step)
    requires step.ApplyBatch? || step.RemoveIp? || step.ClearActive?
    ensures RowsShrink(s, Apply(s, step), u)
  {
  }

  lemma CompactionShrinks(s: State, step: Step, u: User)
    requires Enabled(s, step)
    requires step.CompactPrune? || step.CompactSweep?
    ensures RowsShrink(s, Apply(s, step), u)
  {
    if step.CompactSweep? {
      var sh := s.shards[s.tasks[step.tid].shard];
      SweepPairs(sh.active, sh.recent);
      SweepPairs(sh.recent, sh.active);
    }
  }

  lemma LockShrinks(s: State, step: Step, u: User)
    requires Enabled(s, step)
    requires step.Lock? || step.ClearRecent?
    ensures RowsShrink(s, Apply(s, step), u)
  {
  }

  lemma AdmissionGains(s: State, tid: nat, t: Ticket, u: User)
    requires Shaped(s) && tid < |s.tasks|
    ensures u == t.user ==> RowsGain(s, DoAdmit(s, tid, t), u, t.ip)
    ensures u != t.user ==> RowsShrink(s, DoAdmit(s, tid, t), u)
  {
  }

  /** Steps that leave all tables alone. */
  lemma TablesUnchanged(s: State, step: Step)
    requires Enabled(s, step) && Completes(s, step) == None
    requires !(step.ApplyBatch? || step.RemoveIp? || step.ClearActive? || step.Lock? || step.CompactPrune?
            || step.CompactSweep? || step.ClearRecent? || step.ClearAll?)
    ensures Apply(s, step).shards == s.shards
    ensures Apply(s, step).hasher == s.hasher
  {
    hide DoAdmit, DoDecide, PruneRow, Without, IsDrain, RowBatch, Enqueued, UserLimit;
    if step.Decide? {
      QuietDecision(s, step.tid, s.tasks[step.tid].ticket);
    }
  }

  lemma CompletionGains(s: State, step: Step, u: User)
    requires Enabled(s, step) && Completes(s, step).Some? && Shaped(Apply(s, step))
    ensures
      var t := Completes(s, step).value;
      if t.user == u then RowsGain(s, Apply(s, step), u, t.ip) else RowsShrink(s, Apply(s, step), u)
  {
    hide DoAdmit, RowsGain, RowsShrink;
    AdmissionGains(s, step.tid, s.tasks[step.tid].ticket, u);
  }

  lemma QuietShrinks(s: State, step: Step, u: User)
    requires Enabled(s, step) && Completes(s, step) == None && Shaped(Apply(s, step))
    requires !(step.ApplyBatch? || step.RemoveIp? || step.ClearActive? || step.Lock? || step.CompactPrune?
            || step.CompactSweep? || step.ClearRecent?)
    ensures RowsShrink(s, Apply(s, step), u)
  {
    if !step.ClearAll? {
      hide Apply, Enabled;
      TablesUnchanged(s, step);
    }
  }

  /** A user's rows gain the admitted IP when an admission of that user completes, and only shrink
      otherwise. */
  lemma RowsStep(s: State, step: Step, u: User)
    requires Enabled(s, step) && Shaped(Apply(s, step))
    ensures
      var t := Completes(s, step);
      if t.Some? && t.value.user == u then RowsGain(s, Apply(s, step), u, t.value.ip)
      else RowsShrink(s, Apply(s, step), u)
  {
    assert Shaped(s);
    hide Apply, Enabled, Completes, RowsGain, RowsShrink;
    if Completes(s, step).Some? {
      CompletionGains(s, step, u);
    } else if step.ApplyBatch? || step.RemoveIp? || step.ClearActive? {
      ReleaseShrinks(s, step, u);
    } else if step.CompactPrune? || step.CompactSweep? {
      CompactionShrinks(s, step, u);
    } else if step.Lock? || step.ClearRecent? {
      LockShrinks(s, step, u);
    } else {
      QuietShrinks(s, step, u);
    }
  }

  // ----- the limit -----

  /** A task that has passed the limit check and not yet inserted. */
  predicate Cleared(t: Task) {
    t.ActiveReserved? || t.BothReserved?
  }

  predicate Allowed(s: State, t: Ticket)
    requires Shaped(s)
  {
    !Denied(t.limit, t.mode, |ActiveRow(s, t.user)|, |RecentRow(s, t.user)|, t.ip in RecentRow(s, t.user))
  }

  /** What a task of user `u` carries while limit `n` and `mode` are in force. */
  ghost predicate TicketOk(s: State, t: Task, u: User, n: nat, mode: Mode)
    requires Shaped(s)
  {
    TicketOf(t).Some? && t.ticket.user == u ==>
      && t.ticket.limit == Some(n) && t.ticket.mode == mode
      && (Cleared(t) ==> Allowed(s, t.ticket))
  }

  ghost predicate WithinLimit(s: State, u: User, n: nat, mode: Mode)
    requires Shaped(s)
  {
    && (mode != TimeWindow ==> |ActiveRow(s, u)| <= n)
    && (mode == Combined ==> |ActiveRow(s, u).Keys + RecentRow(s, u).Keys| <= 2 * n - 1)
  }

  ghost predicate LimitInv(s: State, u: User, n: nat, mode: Mode)
    requires Shaped(s)
  {
    && n > 0
    && WithinLimit(s, u, n, mode)
    && forall j :: 0 <= j < |s.tasks| ==> TicketOk(s, s.tasks[j], u, n, mode)
  }

  lemma WithinLimitShrinks(s: State, s': State, u: User, n: nat, mode: Mode)
    requires Shaped(s) && Shaped(s') && n > 0
    requires WithinLimit(s, u, n, mode) && RowsShrink(s, s', u)
    ensures WithinLimit(s', u, n, mode)
  {
    SubsetSize(ActiveRow(s', u).Keys, ActiveRow(s, u).Keys);
    SubsetSize(ActiveRow(s', u).Keys + RecentRow(s', u).Keys, ActiveRow(s, u).Keys + RecentRow(s, u).Keys);
  }

  lemma UnionAtMostSum<T>(a: set<T>, b: set<T>)
    ensures |a + b| <= |a| + |b|
  {
    assert a + b == a + (b - a);
    SubsetSize(b - a, b);
  }

  /** An admission that completes keeps the bound: a new IP was allowed when it was checked, and an IP
      already active adds nothing to the union. */
  lemma WithinLimitGains(s: State, s': State, t: Ticket, n: nat, mode: Mode)
    requires Shaped(s) && Shaped(s') && n > 0
    requires WithinLimit(s, t.user, n, mode) && RowsGain(s, s', t.user, t.ip)
    requires t.ip !in ActiveRow(s, t.user) ==> Allowed(s, t) && t.limit == Some(n) && t.mode == mode
    ensures WithinLimit(s', t.user, n, mode)
  {
    var a, r := ActiveRow(s, t.user).Keys, RecentRow(s, t.user).Keys;
    assert ActiveRow(s', t.user).Keys + RecentRow(s', t.user).Keys == a + r + {t.ip};
    assert |ActiveRow(s, t.user)| == |a| && |ActiveRow(s', t.user)| == |a + {t.ip}|;
    assert |RecentRow(s, t.user)| == |r|;
    if t.ip in a {
      assert a + {t.ip} == a;
      assert a + r + {t.ip} == a + r;
    } else if t.ip in r {
      assert a + r + {t.ip} == a + r;
    } else {
      UnionAtMostSum(a, r);
    }
  }

  /** A task that has passed the check holds the lock, so other tasks leave its rows as they are. */
  lemma OtherTicketsStayOk(s: State, s': State, tid: nat, k: nat, j: nat, u: User, n: nat, mode: Mode)
    requires OneShardStep(s, s', tid, k)
    requires j < |s.tasks| && j != tid && TicketOk(s, s.tasks[j], u, n, mode)
    ensures TicketOk(s', s'.tasks[j], u, n, mode)
  {
    var t := s.tasks[j];
    assert s'.tasks[j] == t;
    if Cleared(t) {
      assert Holds(s, t) == Some(ShardIdx(s, t.ticket.user));
      assert s'.shards[ShardIdx(s, t.ticket.user)] == s.shards[ShardIdx(s, t.ticket.user)];
    }
  }

  /** Off the two deciding steps, the acting task passes no check; its ticket is the one it had, or a
      fresh one with the policy in force. */
  lemma QuietTicket(s: State, step: Step)
    requires Enabled(s, step)
    requires step.Lock? || step.SubPruned? || step.Commit? || step.Rollback?
    ensures step.tid < |Apply(s, step).tasks|
    ensures
      var t' := Apply(s, step).tasks[step.tid];
      !Cleared(t') && (TicketOf(t').Some? ==> TicketOf(s.tasks[step.tid]) == TicketOf(t'))
  {
  }

  lemma NoTicket(s: State, step: Step)
    requires Enabled(s, step) && HasTask(step)
    requires !(step.Decide? || step.ReserveRecent? || step.Arrive? || step.Lock? || step.SubPruned?
            || step.Commit? || step.Rollback?)
    ensures step.tid < |Apply(s, step).tasks|
    ensures TicketOf(Apply(s, step).tasks[step.tid]) == None
  {
  }

  lemma DecisionTicket(s: State, tid: nat, t: Ticket, u: User, n: nat, mode: Mode)
    requires Shaped(s) && At(s, tid, Deciding(t)) && TicketOk(s, Deciding(t), u, n, mode)
    ensures Shaped(DoDecide(s, tid, t)) && TicketOk(DoDecide(s, tid, t), DoDecide(s, tid, t).tasks[tid], u, n, mode)
  {
  }

  lemma ReserveRecentTicket(s: State, tid: nat, t: Ticket, u: User, n: nat, mode: Mode)
    requires Shaped(s) && At(s, tid, ActiveReserved(t)) && TicketOk(s, ActiveReserved(t), u, n, mode)
    ensures Shaped(DoReserveRecent(s, tid, t))
    ensures TicketOk(DoReserveRecent(s, tid, t), DoReserveRecent(s, tid, t).tasks[tid], u, n, mode)
  {
  }

  lemma OwnTicketOk(s: State, step: Step, u: User, n: nat, mode: Mode)
    requires Enabled(s, step) && HasTask(step) && Shaped(Apply(s, step))
    requires TicketOk(s, s.tasks[step.tid], u, n, mode)
    requires UserLimit(s.policy, u) == Some(n) && s.policy.mode == mode
    ensures step.tid < |Apply(s, step).tasks|
    ensures TicketOk(Apply(s, step), Apply(s, step).tasks[step.tid], u, n, mode)
  {
    if step.Decide? {
      DecisionTicket(s, step.tid, s.tasks[step.tid].ticket, u, n, mode);
    } else if step.ReserveRecent? {
      ReserveRecentTicket(s, step.tid, s.tasks[step.tid].ticket, u, n, mode);
    } else if step.Lock? || step.SubPruned? || step.Commit? || step.Rollback? {
      QuietTicket(s, step);
    } else if !step.Arrive? {
      NoTicket(s, step);
    }
  }

  lemma FrozenTicketsStayOk(s: State, step: Step, u: User, n: nat, mode: Mode)
    requires Enabled(s, step) && !HasTask(step) && Shaped(Apply(s, step))
    requires forall j :: 0 <= j < |s.tasks| ==> TicketOk(s, s.tasks[j], u, n, mode)
    ensures
      var s' := Apply(s, step);
      forall j :: 0 <= j < |s'.tasks| ==> TicketOk(s', s'.tasks[j], u, n, mode)
  {
    var s' := Apply(s, step);
    forall j | 0 <= j < |s'.tasks|
      ensures TicketOk(s', s'.tasks[j], u, n, mode)
    {
      if j < |s.tasks| {
        assert TicketOk(s, s.tasks[j], u, n, mode);
        assert s'.tasks[j] == s.tasks[j];
      }
    }
  }

  lemma TicketsStep(s: State, step: Step, u: User, n: nat, mode: Mode)
    requires Inv(s) && Enabled(s, step) && Shaped(Apply(s, step))
    requires forall j :: 0 <= j < |s.tasks| ==> TicketOk(s, s.tasks[j], u, n, mode)
    requires UserLimit(s.policy, u) == Some(n) && s.policy.mode == mode
    ensures
      var s' := Apply(s, step);
      forall j :: 0 <= j < |s'.tasks| ==> TicketOk(s', s'.tasks[j], u, n, mode)
  {
    if HasTask(step) {
      StepIsLocal(s, step);
      OwnTicketOk(s, step, u, n, mode);
      TicketsOfOthers(s, Apply(s, step), step.tid, Where(s, step), u, n, mode);
    } else {
      FrozenTicketsStayOk(s, step, u, n, mode);
    }
  }

  lemma TicketsOfOthers(s: State, s': State, tid: nat, k: nat, u: User, n: nat, mode: Mode)
    requires OneShardStep(s, s', tid, k)
    requires forall j :: 0 <= j < |s.tasks| ==> TicketOk(s, s.tasks[j], u, n, mode)
    requires TicketOk(s', s'.tasks[tid], u, n, mode)
    ensures forall j :: 0 <= j < |s'.tasks| ==> TicketOk(s', s'.tasks[j], u, n, mode)
  {
    forall j | 0 <= j < |s'.tasks|
      ensures TicketOk(s', s'.tasks[j], u, n, mode)
    {
      if j != tid {
        OtherTicketsStayOk(s, s', tid, k, j, u, n, mode);
      }
    }
  }

  lemma CompletedWasAllowed(s: State, step: Step, u: User, n: nat, mode: Mode)
    requires Inv(s) && Enabled(s, step) && Completes(s, step).Some?
    requires TicketOk(s, s.tasks[step.tid], u, n, mode)
    ensures
      var t := Completes(s, step).value;
      t.user == u && t.ip !in ActiveRow(s, u) ==> Allowed(s, t) && t.limit == Some(n) && t.mode == mode
  {
    assert TaskOk(s, s.tasks[step.tid]);
  }

  /** Rows that gain an allowed IP or only shrink stay within the limit. */
  lemma RowsStayWithin(s: State, s': State, done: Option<Ticket>, u: User, n: nat, mode: Mode)
    requires Shaped(s) && Shaped(s') && n > 0 && WithinLimit(s, u, n, mode)
    requires if done.Some? && done.value.user == u then RowsGain(s, s', u, done.value.ip) else RowsShrink(s, s', u)
    requires done.Some? && done.value.user == u && done.value.ip !in ActiveRow(s, u) ==>
      Allowed(s, done.value) && done.value.limit == Some(n) && done.value.mode == mode
    ensures WithinLimit(s', u, n, mode)
  {
    if done.Some? && done.value.user == u {
      WithinLimitGains(s, s', done.value, n, mode);
    } else {
      WithinLimitShrinks(s, s', u, n, mode);
    }
  }

  /** One step under the limit. */
  lemma LimitStep(s: State, step: Step, u: User, n: nat, mode: Mode)
    requires Inv(s) && Enabled(s, step) && Shaped(Apply(s, step))
    requires LimitInv(s, u, n, mode)
    requires UserLimit(s.policy, u) == Some(n) && s.policy.mode == mode
    ensures LimitInv(Apply(s, step), u, n, mode)
  {
    RowsStep(s, step, u);
    if Completes(s, step).Some? {
      CompletedWasAllowed(s, step, u, n, mode);
    }
    RowsStayWithin(s, Apply(s, step), Completes(s, step), u, n, mode);
    TicketsStep(s, step, u, n, mode);
  }

  /** With one limit `n` and one mode in force for a user throughout a run: under ActiveWindow and
      Combined the user never has more than `n` active IPs, and under Combined active and recent IPs
      together never number more than `2n - 1`. */
  lemma {:induction false} LimitHolds(states: seq<State>, steps: seq<Step>, i: nat, u: User, n: nat, mode: Mode)
    requires IsRun(states, steps) && i < |states|
    requires forall j :: 0 <= j < i ==> UserLimit(states[j].policy, u) == Some(n) && states[j].policy.mode == mode
    requires n > 0
    ensures Shaped(states[i]) && LimitInv(states[i], u, n, mode)
    ensures mode != TimeWindow ==> |ActiveRow(states[i], u)| <= n
    ensures mode == Combined ==> |ActiveRow(states[i], u).Keys + RecentRow(states[i], u).Keys| <= 2 * n - 1
  {
    hide Apply, Enabled;
    RunInv(states, steps, i);
    if i == 0 {
      assert ActiveRow(states[0], u) == map[] && RecentRow(states[0], u) == map[];
    } else {
      RunInv(states, steps, i - 1);
      LimitHolds(states, steps, i - 1, u, n, mode);
      LimitStep(states[i - 1], steps[i - 1], u, n, mode);
    }
  }

  lemma FullWindowGrowth(s: State, s': State, t: Option<Ticket>, u: User, n: nat, mode: Mode)
    requires Shaped(s) && Shaped(s') && mode != ActiveWindow
    requires if t.Some? && t.value.user == u then RowsGain(s, s', u, t.value.ip) else RowsShrink(s, s', u)
    requires t.Some? && t.value.user == u && t.value.ip !in ActiveRow(s, u) ==>
      Allowed(s, t.value) && t.value.limit == Some(n) && t.value.mode == mode
    requires |RecentRow(s, u)| >= n && |RecentRow(s', u)| > |RecentRow(s, u)|
    ensures t.Some? && t.value.user == u && t.value.ip in ActiveRow(s, u)
  {
    var r, r' := RecentRow(s, u).Keys, RecentRow(s', u).Keys;
    assert |RecentRow(s, u)| == |r| && |RecentRow(s', u)| == |r'|;
    if r' <= r {
      SubsetSize(r', r);
    }
  }

  lemma FullWindowStep(s: State, step: Step, u: User, n: nat, mode: Mode)
    requires Inv(s) && Enabled(s, step) && Shaped(Apply(s, step)) && LimitInv(s, u, n, mode)
    requires mode != ActiveWindow && |RecentRow(s, u)| >= n && |RecentRow(Apply(s, step), u)| > |RecentRow(s, u)|
    ensures
      var t := Completes(s, step);
      t.Some? && t.value.user == u && t.value.ip in ActiveRow(s, u)
  {
    RowsStep(s, step, u);
    if Completes(s, step).Some? {
      CompletedWasAllowed(s, step, u, n, mode);
    }
    FullWindowGrowth(s, Apply(s, step), Completes(s, step), u, n, mode);
  }

  /** Under TimeWindow and Combined a window that already holds `n` IPs grows only by the re-admission of an IP
      that is still active: no new IP enters a full window. */
  lemma FullWindowAdmitsNoNewIp(states: seq<State>, steps: seq<Step>, i: nat, u: User, n: nat, mode: Mode)
    requires IsRun(states, steps) && i < |steps| && n > 0 && mode != ActiveWindow
    requires forall j :: 0 <= j <= i ==> UserLimit(states[j].policy, u) == Some(n) && states[j].policy.mode == mode
    requires Shaped(states[i]) && Shaped(states[i + 1])
    requires |RecentRow(states[i], u)| >= n && |RecentRow(states[i + 1], u)| > |RecentRow(states[i], u)|
    ensures
      var t := Completes(states[i], steps[i]);
      t.Some? && t.value.user == u && t.value.ip in ActiveRow(states[i], u)
  {
    hide Apply, Enabled;
    RunInv(states, steps, i);
    LimitHolds(states, steps, i, u, n, mode);
    FullWindowStep(states[i], steps[i], u, n, mode);
  }

  // ----- TimeWindow and the active IPs -----

  /** A decision and what follows it under the same lock. */
  function Decided(s: State, tid: nat, t: Ticket): State
    requires Shaped(s) && tid < |s.tasks|
  {
    var s1 := DoDecide(s, tid, t);
    if s1.tasks[tid].Readmitting? then DoAdmit(s1, tid, t)
    else if s1.tasks[tid].ActiveReserved? then Completed(s1, tid, t)
    else s1
  }

  /** The rest of it once the active slot is reserved. */
  function Completed(s: State, tid: nat, t: Ticket): State
    requires Shaped(s) && tid < |s.tasks|
  {
    var s' := DoReserveRecent(s, tid, t);
    if s'.tasks[tid].BothReserved? then DoAdmit(s', tid, t) else s'
  }

  lemma AdmitRow(s: State, tid: nat, t: Ticket)
    requires Shaped(s) && tid < |s.tasks|
    ensures
      var s' := DoAdmit(s, tid, t);
      && Shaped(s') && tid < |s'.tasks| && s'.tasks[tid] == Idle
      && ActiveRow(s', t.user).Keys == ActiveRow(s, t.user).Keys + {t.ip}
  {
  }

  /** The recent entry the ticket needs is there, or the cap leaves room for it. */
  predicate RoomInRecent(s: State, t: Ticket)
    requires Shaped(s)
  {
    t.ip in RecentRow(s, t.user) || s.recentCount < MAX_RECENT_IP_ENTRIES
  }

  lemma DecidedActive(s: State, tid: nat, t: Ticket)
    requires Shaped(s) && At(s, tid, Deciding(t)) && t.ip in ActiveRow(s, t.user)
    ensures Shaped(Decided(s, tid, t)) && ActiveRow(Decided(s, tid, t), t.user).Keys == ActiveRow(s, t.user).Keys
  {
    hide DoAdmit;
    if RoomInRecent(s, t) {
      var s1 := if t.ip in RecentRow(s, t.user) then s else TakeRecent(s, tid, Readmitting(t));
      AdmitRow(s1, tid, t);
      assert Decided(s, tid, t) == DoAdmit(s1, tid, t);
      assert ActiveRow(s, t.user).Keys + {t.ip} == ActiveRow(s, t.user).Keys;
    }
  }

  lemma CompletedRow(s: State, tid: nat, t: Ticket)
    requires Shaped(s) && At(s, tid, ActiveReserved(t))
    ensures Shaped(Completed(s, tid, t))
    ensures ActiveRow(Completed(s, tid, t), t.user).Keys ==
      ActiveRow(s, t.user).Keys + if RoomInRecent(s, t) then {t.ip} else {}
  {
    hide DoAdmit;
    if RoomInRecent(s, t) {
      var s' := if t.ip in RecentRow(s, t.user) then s else TakeRecent(s, tid, BothReserved(t));
      AdmitRow(s', tid, t);
      assert Completed(s, tid, t) == DoAdmit(s', tid, t);
    }
  }

  lemma DecisionOnNew(s: State, tid: nat, t: Ticket)
    requires Shaped(s) && tid < |s.tasks| && t.ip !in ActiveRow(s, t.user)
    ensures DoDecide(s, tid, t) ==
      if Allowed(s, t) && s.activeCount < MAX_ACTIVE_IP_ENTRIES then TakeActive(s, tid, ActiveReserved(t)) else Put(s, tid, Idle)
  {
    hide DoAdmit, Denied;
  }

  lemma DecidedNew(s: State, tid: nat, t: Ticket)
    requires Shaped(s) && At(s, tid, Deciding(t)) && t.ip !in ActiveRow(s, t.user)
    ensures Shaped(Decided(s, tid, t))
    ensures ActiveRow(Decided(s, tid, t), t.user).Keys ==
      ActiveRow(s, t.user).Keys +
      if Allowed(s, t) && s.activeCount < MAX_ACTIVE_IP_ENTRIES && RoomInRecent(s, t) then {t.ip} else {}
  {
    DecisionOnNew(s, tid, t);
    hide DoDecide, Completed, Denied;
    if Allowed(s, t) && s.activeCount < MAX_ACTIVE_IP_ENTRIES {
      CompletedRow(TakeActive(s, tid, ActiveReserved(t)), tid, t);
    }
  }

  /** Under TimeWindow a decision takes the user past `n` active IPs if and only if the IP is new, `n` are active
      already, the window has room or knows the IP, and neither cap is in the way. */
  lemma TimeWindowPassesIff(s: State, tid: nat, t: Ticket, n: nat)
    requires Shaped(s) && At(s, tid, Deciding(t)) && t.mode == TimeWindow && t.limit == Some(n)
    ensures Shaped(Decided(s, tid, t))
    ensures
      var before, after := |ActiveRow(s, t.user)|, |ActiveRow(Decided(s, tid, t), t.user)|;
      (after > before && after > n) <==>
        && t.ip !in ActiveRow(s, t.user) && before >= n
        && (|RecentRow(s, t.user)| < n || t.ip in RecentRow(s, t.user))
        && s.activeCount < MAX_ACTIVE_IP_ENTRIES
        && (t.ip in RecentRow(s, t.user) || s.recentCount < MAX_RECENT_IP_ENTRIES)
  {
    if t.ip in ActiveRow(s, t.user) {
      DecidedActive(s, tid, t);
    } else {
      DecidedNew(s, tid, t);
    }
    hide Decided;
    var a, a' := ActiveRow(s, t.user).Keys, ActiveRow(Decided(s, tid, t), t.user).Keys;
    assert |ActiveRow(s, t.user)| == |a| && |ActiveRow(Decided(s, tid, t), t.user)| == |a'|;
  }

  /** In every run under TimeWindow with limit `n`, a step takes the user from at most `n` active IPs past `n` if and
      only if it completes the admission of a new IP with `n` active; its window then had room or knew the IP. */
  lemma TimeWindowCrossing(states: seq<State>, steps: seq<Step>, i: nat, u: User, n: nat)
    requires IsRun(states, steps) && i < |steps| && n > 0
    requires forall j :: 0 <= j <= i ==> UserLimit(states[j].policy, u) == Some(n) && states[j].policy.mode == TimeWindow
    requires Shaped(states[i]) && Shaped(states[i + 1]) && |ActiveRow(states[i], u)| <= n
    ensures
      var t := Completes(states[i], steps[i]);
      && (|ActiveRow(states[i + 1], u)| > n <==>
            t.Some? && t.value.user == u && t.value.ip !in ActiveRow(states[i], u) && |ActiveRow(states[i], u)| == n)
      && (|ActiveRow(states[i + 1], u)| > n ==>
            |RecentRow(states[i], u)| < n || t.value.ip in RecentRow(states[i], u))
  {
    hide Apply, Enabled, Completes;
    var s, step := states[i], steps[i];
    RunInv(states, steps, i);
    LimitHolds(states, steps, i, u, n, TimeWindow);
    RowsStep(s, step, u);
    if Completes(s, step).Some? {
      CompletedTicketOk(s, step, u, n, TimeWindow);
    }
    CrossingRows(s, states[i + 1], Completes(s, step), u, n);
  }

  lemma CompletedTicketOk(s: State, step: Step, u: User, n: nat, mode: Mode)
    requires Inv(s) && Enabled(s, step) && Completes(s, step).Some? && LimitInv(s, u, n, mode)
    ensures
      var t := Completes(s, step).value;
      t.user == u && t.ip !in ActiveRow(s, u) ==> Allowed(s, t) && t.limit == Some(n) && t.mode == mode
  {
    CompletedWasAllowed(s, step, u, n, mode);
  }

  lemma CrossingRows(s: State, s': State, t: Option<Ticket>, u: User, n: nat)
    requires Shaped(s) && Shaped(s') && |ActiveRow(s, u)| <= n
    requires if t.Some? && t.value.user == u then RowsGain(s, s', u, t.value.ip) else RowsShrink(s, s', u)
    requires t.Some? && t.value.user == u && t.value.ip !in ActiveRow(s, u) ==>
      Allowed(s, t.value) && t.value.limit == Some(n) && t.value.mode == TimeWindow
    ensures |ActiveRow(s', u)| > n <==>
      t.Some? && t.value.user == u && t.value.ip !in ActiveRow(s, u) && |ActiveRow(s, u)| == n
    ensures |ActiveRow(s', u)| > n ==> |RecentRow(s, u)| < n || t.value.ip in RecentRow(s, u)
  {
    var a, a' := ActiveRow(s, u).Keys, ActiveRow(s', u).Keys;
    assert |ActiveRow(s, u)| == |a| && |ActiveRow(s', u)| == |a'|;
    if a' <= a {
      SubsetSize(a', a);
    }
  }
}
