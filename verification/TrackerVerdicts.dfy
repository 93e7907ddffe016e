/** When an IP must be admitted and when it must be refused, mode by mode: at one decision, and in every run from the
    decision to the step that inserts the IP, whatever other tasks do in between. */
module TrackerVerdicts {
  import opened Tables
  import opened Wrappers
  import opened ShardSpec
  import opened TrackerProtocol
  import opened TrackerInvariants
  import opened TrackerCounters
  import opened TrackerRefcounts
  import opened TrackerLimits

  // ----- the policy a ticket carries -----

  /** A positive limit of the user's own wins over the default, whatever that is; without one a positive default
      applies; with neither there is no limit. A window is at least one second. */
  lemma PolicyRules(policy: Policy, u: User)
    ensures u in policy.maxIps && policy.maxIps[u] > 0 ==> UserLimit(policy, u) == Some(policy.maxIps[u])
    ensures !(u in policy.maxIps && policy.maxIps[u] > 0) ==>
      UserLimit(policy, u) == if policy.defaultMax == 0 then None else Some(policy.defaultMax)
    ensures LimitWindow(policy) >= 1 && (policy.windowSecs >= 1 ==> LimitWindow(policy) == policy.windowSecs)
  {
  }

  // ----- one decision -----

  /** The limit leaves room for a new IP: ActiveWindow looks at the active IPs only, TimeWindow at the window only, and
      Combined at both. */
  ghost predicate LimitLeavesRoom(s: State, t: Ticket)
    requires Shaped(s)
  {
    var active, recent := ActiveRow(s, t.user), RecentRow(s, t.user);
    match t.limit
    case None => true
    case Some(n) =>
      match t.mode
      case ActiveWindow => |active| < n
      case TimeWindow => |recent| < n || t.ip in recent
      case Combined => |active| < n && (|recent| < n || t.ip in recent)
  }

  lemma LimitLeavesRoomMeansAllowed(s: State, t: Ticket)
    requires Shaped(s)
    ensures Allowed(s, t) <==> LimitLeavesRoom(s, t)
  {
  }

  /** A new IP is admitted if and only if its limit and both caps leave room; refused, it leaves the tables alone. */
  lemma NewIpAdmittedIff(s: State, tid: nat, t: Ticket)
    requires Shaped(s) && At(s, tid, Deciding(t)) && t.ip !in ActiveRow(s, t.user)
    ensures Shaped(Decided(s, tid, t))
    ensures t.ip in ActiveRow(Decided(s, tid, t), t.user) <==>
      && LimitLeavesRoom(s, t) && s.activeCount < MAX_ACTIVE_IP_ENTRIES
      && (t.ip in RecentRow(s, t.user) || s.recentCount < MAX_RECENT_IP_ENTRIES)
    ensures t.ip !in ActiveRow(Decided(s, tid, t), t.user) ==> Decided(s, tid, t).shards == s.shards
  {
    LimitLeavesRoomMeansAllowed(s, t);
    DecidedNew(s, tid, t);
    DecisionOnNew(s, tid, t);
    hide DoDecide, DoAdmit, Allowed, LimitLeavesRoom;
  }

  /** An active IP is admitted whatever the limit, if and only if it is in the window or the recent cap leaves room:
      one more session, seen now. */
  lemma ActiveIpAdmittedIff(s: State, tid: nat, t: Ticket)
    requires Shaped(s) && At(s, tid, Deciding(t)) && t.ip in ActiveRow(s, t.user)
    ensures
      var s' := Decided(s, tid, t);
      && Shaped(s')
      && if t.ip in RecentRow(s, t.user) || s.recentCount < MAX_RECENT_IP_ENTRIES
         then
           && ActiveRow(s', t.user) == ActiveRow(s, t.user)[t.ip := SatInc(ActiveRow(s, t.user)[t.ip])]
           && RecentRow(s', t.user) == RecentRow(s, t.user)[t.ip := t.now]
         else s'.shards == s.shards
  {
    hide Denied, DoReserveRecent;
    assert !DoDecide(s, tid, t).tasks[tid].ActiveReserved?;
  }

  // ----- runs -----

  /** `j` is the next step of task `tid` after step `i`. */
  ghost predicate NextOwn(steps: seq<Step>, tid: nat, i: nat, j: nat) {
    && i < j < |steps| && HasTask(steps[j]) && steps[j].tid == tid
    && forall m :: i < m < j && HasTask(steps[m]) ==> steps[m].tid != tid
  }

  lemma OthersLeaveTask(s: State, step: Step, tid: nat)
    requires Inv(s) && Enabled(s, step) && tid < |s.tasks| && !s.tasks[tid].Idle?
    requires HasTask(step) ==> step.tid != tid
    ensures tid < |Apply(s, step).tasks| && Apply(s, step).tasks[tid] == s.tasks[tid]
  {
    if HasTask(step) {
      hide Apply, Enabled, Inv;
      StepIsLocal(s, step);
    }
  }

  lemma {:induction false} TaskWaits(states: seq<State>, steps: seq<Step>, i: nat, j: nat, tid: nat)
    requires IsRun(states, steps) && i <= j < |states| && tid < |states[i].tasks| && !states[i].tasks[tid].Idle?
    requires forall m :: i <= m < j && HasTask(steps[m]) ==> steps[m].tid != tid
    ensures tid < |states[j].tasks| && states[j].tasks[tid] == states[i].tasks[tid]
  {
    hide Apply, Enabled, Inv, HasTask;
    if i < j {
      TaskWaits(states, steps, i, j - 1, tid);
      RunInv(states, steps, j - 1);
      OthersLeaveTask(states[j - 1], steps[j - 1], tid);
    }
  }

  lemma ReservedGoesOn(s: State, step: Step, tid: nat, t: Ticket)
    requires Enabled(s, step) && At(s, tid, ActiveReserved(t)) && HasTask(step) && step.tid == tid
    ensures step == ReserveRecent(tid) && Apply(s, step) == DoReserveRecent(s, tid, t)
  {
    hide DoReserveRecent;
  }

  lemma BothReservedCommits(s: State, step: Step, tid: nat, t: Ticket)
    requires Enabled(s, step) && At(s, tid, BothReserved(t)) && HasTask(step) && step.tid == tid
    ensures step == Commit(tid) && Apply(s, step) == DoAdmit(s, tid, t)
  {
    hide DoAdmit;
  }

  /** What a decision on a new IP does at once: it reserves the active slot, or refuses and changes no table. */
  lemma DecisionReservesIff(states: seq<State>, steps: seq<Step>, i: nat, tid: nat, t: Ticket)
    requires IsRun(states, steps) && i < |steps| && steps[i] == Decide(tid) && At(states[i], tid, Deciding(t))
    requires Shaped(states[i]) && t.ip !in ActiveRow(states[i], t.user)
    ensures tid < |states[i + 1].tasks| && states[i + 1].shards == states[i].shards
    ensures
      if LimitLeavesRoom(states[i], t) && states[i].activeCount < MAX_ACTIVE_IP_ENTRIES
      then states[i + 1].tasks[tid] == ActiveReserved(t) else states[i + 1].tasks[tid] == Idle
  {
    var s := states[i];
    assert Enabled(s, steps[i]) && states[i + 1] == DoDecide(s, tid, t);
    LimitLeavesRoomMeansAllowed(s, t);
    DecisionOnNew(s, tid, t);
    hide DoDecide, Allowed, LimitLeavesRoom;
  }

  /** In every run a decision on a new IP whose limit and active cap leave room leads to its admission: its own next
      step, whenever it comes, finds the IP in the window and inserts it, or takes a recent slot if one is free, and the
      step after that inserts it. */
  lemma RoomLeadsToAdmission(states: seq<State>, steps: seq<Step>, i: nat, j: nat, tid: nat, t: Ticket)
    requires IsRun(states, steps) && NextOwn(steps, tid, i, j)
    requires steps[i] == Decide(tid) && At(states[i], tid, Deciding(t))
    requires Shaped(states[i]) && Shaped(states[j]) && Shaped(states[j + 1]) && t.ip !in ActiveRow(states[i], t.user)
    requires LimitLeavesRoom(states[i], t) && states[i].activeCount < MAX_ACTIVE_IP_ENTRIES
    ensures steps[j] == ReserveRecent(tid)
    ensures t.ip in RecentRow(states[j], t.user) ==> t.ip in ActiveRow(states[j + 1], t.user)
    ensures t.ip !in RecentRow(states[j], t.user) && states[j].recentCount < MAX_RECENT_IP_ENTRIES ==>
      forall m: nat :: NextOwn(steps, tid, j, m) ==>
        steps[m] == Commit(tid) && Shaped(states[m + 1]) && t.ip in ActiveRow(states[m + 1], t.user)
  {
    hide Apply, Enabled, Inv, DoAdmit, LimitLeavesRoom;
    DecisionReservesIff(states, steps, i, tid, t);
    TaskWaits(states, steps, i + 1, j, tid);
    ReservedGoesOn(states[j], steps[j], tid, t);
    AdmitRow(states[j], tid, t);
    if t.ip !in RecentRow(states[j], t.user) && states[j].recentCount < MAX_RECENT_IP_ENTRIES {
      forall m: nat | NextOwn(steps, tid, j, m)
        ensures steps[m] == Commit(tid) && Shaped(states[m + 1]) && t.ip in ActiveRow(states[m + 1], t.user)
      {
        CommitInserts(states, steps, j, m, tid, t);
      }
    }
  }

  lemma CommitInserts(states: seq<State>, steps: seq<Step>, j: nat, m: nat, tid: nat, t: Ticket)
    requires IsRun(states, steps) && NextOwn(steps, tid, j, m) && At(states[j + 1], tid, BothReserved(t))
    ensures steps[m] == Commit(tid) && Shaped(states[m + 1]) && t.ip in ActiveRow(states[m + 1], t.user)
  {
    hide Apply, Inv, DoAdmit;
    TaskWaits(states, steps, j + 1, m, tid);
    assert Enabled(states[m], steps[m]);
    hide Enabled;
    BothReservedCommits(states[m], steps[m], tid, t);
    AdmitRow(states[m], tid, t);
  }
}
