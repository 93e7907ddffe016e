/** Runs of the tracker: `clear_user_ips` takes the entry of a running session, and `TimeWindow` lets a user have
    more active IPs than the limit. */
module TrackerExamples {
  import opened Tables
  import opened Wrappers
  import opened ShardSpec
  import opened TrackerProtocol
  import opened TrackerInvariants
  import opened TrackerCounters
  import opened TrackerRefcounts
  import opened TrackerLimits

  ghost predicate Reached(s: State) {
    exists states, steps :: IsRun(states, steps) && states[|steps|] == s
  }

  lemma ReachedNext(s: State, step: Step, s': State)
    requires Reached(s) && Enabled(s, step) && s' == Apply(s, step)
    ensures Reached(s')
  {
    hide Apply, Enabled;
    var states, steps :| IsRun(states, steps) && states[|steps|] == s;
    var more, plan := states + [s'], steps + [step];
    forall i | 0 <= i < |plan|
      ensures Enabled(more[i], plan[i]) && more[i + 1] == Apply(more[i], plan[i])
    {
      if i < |steps| {
        assert more[i] == states[i] && more[i + 1] == states[i + 1] && plan[i] == steps[i];
      }
    }
    assert IsRun(more, plan) && more[|plan|] == s';
  }

  function Start(policy: Policy): State {
    State((u: User) => 0,
          seq(SHARDS, _ => Shard(map[], map[])), seq(SHARDS, _ => map[]), 0, 0, 0,
          policy, [Idle], map[], map[], seq(SHARDS, _ => 0))
  }

  lemma StartReached(policy: Policy)
    ensures Reached(Start(policy)) && Shaped(Start(policy))
  {
    assert IsRun([Start(policy)], []) && [Start(policy)][0] == Start(policy);
  }

  // ----- the six steps of an admission by a lone task -----

  function PrunedRow(s: State, t: Ticket): map<Ip, nat>
    requires Shaped(s)
  {
    PruneRow(RecentRow(s, t.user), t.now, t.window)
  }

  function DroppedBy(s: State, t: Ticket): nat
    requires Shaped(s)
  {
    SatSub(|RecentRow(s, t.user)|, |PrunedRow(s, t)|)
  }

  /** The ticket an admission draws now, and that it gets as far as inserting a new IP. */
  predicate Admissible(s: State, t: Ticket) {
    && Shaped(s) && s.tasks == [Idle]
    && t.limit == UserLimit(s.policy, t.user) && t.mode == s.policy.mode && t.window == LimitWindow(s.policy)
    && t.ip !in ActiveRow(s, t.user) && t.ip !in PrunedRow(s, t)
    && !Denied(t.limit, t.mode, |ActiveRow(s, t.user)|, |PrunedRow(s, t)|, false)
    && s.activeCount < MAX_ACTIVE_IP_ENTRIES && s.recentCount < MAX_RECENT_IP_ENTRIES
  }

  function AtLock(s: State, t: Ticket): State
    requires Admissible(s, t)
  {
    DoLock(Put(s, 0, Arrived(t)), 0, t)
  }

  function AtDecision(s: State, t: Ticket): State
    requires Admissible(s, t)
  {
    SubtractRecent(AtLock(s, t), 0, DroppedBy(s, t), Deciding(t))
  }

  function AtCommit(s: State, t: Ticket): State
    requires Admissible(s, t)
  {
    TakeRecent(TakeActive(AtDecision(s, t), 0, ActiveReserved(t)), 0, BothReserved(t))
  }

  function AfterAdmission(s: State, t: Ticket): State
    requires Admissible(s, t)
  {
    DoAdmit(AtCommit(s, t), 0, t)
  }

  lemma LockReached(s: State, t: Ticket)
    requires Reached(s) && Admissible(s, t)
    ensures Reached(AtLock(s, t))
  {
    hide Reached;
    var arrived := Put(s, 0, Arrived(t));
    ReachedNext(s, Arrive(0, t.user, t.ip, t.now), arrived);
    assert arrived.tasks == [Arrived(t)];
    ReachedNext(arrived, Lock(0), AtLock(s, t));
  }

  lemma AtDecisionRows(s: State, t: Ticket)
    requires Admissible(s, t)
    ensures
      var d := AtDecision(s, t);
      && Shaped(d) && d.tasks == [Deciding(t)] && d.policy == s.policy && d.hasher == s.hasher && d.live == s.live
      && ActiveRow(d, t.user) == ActiveRow(s, t.user) && RecentRow(d, t.user) == PrunedRow(s, t)
      && d.activeCount == s.activeCount && d.recentCount <= s.recentCount
  {
  }

  lemma DecisionReached(s: State, t: Ticket)
    requires Reached(s) && Admissible(s, t)
    ensures Reached(AtDecision(s, t))
  {
    hide Reached;
    LockReached(s, t);
    ReachedNext(AtLock(s, t), SubPruned(0), AtDecision(s, t));
  }

  lemma CommitReached(s: State, t: Ticket)
    requires Reached(s) && Admissible(s, t)
    ensures Reached(AtCommit(s, t))
  {
    hide Reached;
    DecisionReached(s, t);
    AtDecisionRows(s, t);
    var d := AtDecision(s, t);
    var reserved := TakeActive(d, 0, ActiveReserved(t));
    ReachedNext(d, Decide(0), reserved);
    ReachedNext(reserved, ReserveRecent(0), AtCommit(s, t));
  }

  lemma CommitStep(s: State, t: Ticket)
    requires Admissible(s, t)
    ensures Enabled(AtCommit(s, t), Commit(0)) && Apply(AtCommit(s, t), Commit(0)) == AfterAdmission(s, t)
  {
  }

  lemma LiveAtDecision(s: State, t: Ticket)
    requires Admissible(s, t)
    ensures Live(AtDecision(s, t), (t.user, t.ip)) == Live(s, (t.user, t.ip))
  {
  }

  lemma AdmittedRows(d: State, t: Ticket, s': State)
    requires Shaped(d) && d.tasks == [Deciding(t)] && t.ip !in ActiveRow(d, t.user)
    requires s' == DoAdmit(TakeRecent(TakeActive(d, 0, ActiveReserved(t)), 0, BothReserved(t)), 0, t)
    ensures Shaped(s') && s'.tasks == [Idle] && s'.policy == d.policy
    ensures ActiveRow(s', t.user) == ActiveRow(d, t.user)[t.ip := 1]
    ensures RecentRow(s', t.user) == RecentRow(d, t.user)[t.ip := t.now]
    ensures s'.activeCount == d.activeCount + 1 && s'.recentCount == d.recentCount + 1
    ensures Live(s', (t.user, t.ip)) == Live(d, (t.user, t.ip)) + 1
  {
  }

  /** The admission ends in a reached state in which the IP has joined both rows. */
  lemma AdmissionReached(s: State, t: Ticket)
    requires Reached(s) && Admissible(s, t)
    ensures
      var s' := AfterAdmission(s, t);
      && Reached(s') && Shaped(s') && s'.tasks == [Idle] && s'.policy == s.policy
      && ActiveRow(s', t.user) == ActiveRow(s, t.user)[t.ip := 1]
      && RecentRow(s', t.user) == PrunedRow(s, t)[t.ip := t.now]
      && s'.activeCount == s.activeCount + 1 && s'.recentCount <= s.recentCount + 1
      && Live(s', (t.user, t.ip)) == Live(s, (t.user, t.ip)) + 1
  {
    hide Reached, Apply, Enabled, AtDecision, ActiveRow, RecentRow, PrunedRow, DoAdmit, Live;
    CommitReached(s, t);
    CommitStep(s, t);
    AtDecisionRows(s, t);
    AdmittedRows(AtDecision(s, t), t, AfterAdmission(s, t));
    ReachedNext(AtCommit(s, t), Commit(0), AfterAdmission(s, t));
    LiveAtDecision(s, t);
  }

  // ----- the runs -----

  const ALICE: User := "alice"
  const HOME: Ip := V4(1)
  const AWAY: Ip := V4(2)

  lemma StartAdmits(policy: Policy, t: Ticket)
    requires t.limit == UserLimit(policy, t.user) && t.mode == policy.mode && t.window == LimitWindow(policy)
    ensures Admissible(Start(policy), t)
  {
    assert PrunedRow(Start(policy), t) == map[];
  }

  /** After clearing a user with a running session, that session is live and its IP is not active. */
  lemma ClearOrphansALiveSession()
    ensures exists s, p :: Reached(s) && Shaped(s) && Live(s, p) == 1 && ActiveRefs(s, p) == 0 && !Conserved(s)
  {
    hide Reached;
    var policy := Policy(map[], 0, ActiveWindow, 30);
    var t := Ticket(ALICE, HOME, 5, None, ActiveWindow, 30);
    StartReached(policy);
    StartAdmits(policy, t);
    AdmissionReached(Start(policy), t);
    var s := AfterAdmission(Start(policy), t);
    ClearReached(s);
    assert Gap(DoClearActive(s, 0, ALICE), (ALICE, HOME)) > 0;
  }

  lemma ClearReached(s: State)
    requires Reached(s) && Shaped(s) && s.tasks == [Idle]
    ensures
      var s' := DoClearActive(s, 0, ALICE);
      && Reached(s') && Shaped(s')
      && Live(s', (ALICE, HOME)) == Live(s, (ALICE, HOME)) && ActiveRefs(s', (ALICE, HOME)) == 0
  {
    hide Reached;
    ReachedNext(s, ClearActive(0, ALICE), DoClearActive(s, 0, ALICE));
  }

  /** Limit one under TimeWindow: a session from one IP outlives the window, then another IP is admitted. */
  lemma TimeWindowExceedsTheLimit()
    ensures exists s :: Reached(s) && Shaped(s) && s.policy.mode == TimeWindow &&
                        UserLimit(s.policy, ALICE) == Some(1) && |ActiveRow(s, ALICE)| == 2
  {
    hide Reached;
    var policy := Policy(map[], 1, TimeWindow, 30);
    var t1, t2 := Ticket(ALICE, HOME, 0, Some(1), TimeWindow, 30), Ticket(ALICE, AWAY, 31, Some(1), TimeWindow, 30);
    StartReached(policy);
    StartAdmits(policy, t1);
    AdmissionReached(Start(policy), t1);
    var s1 := AfterAdmission(Start(policy), t1);
    FirstSession(policy, t1);
    assert PrunedRow(s1, t2) == map[];
    AdmissionReached(s1, t2);
    assert ActiveRow(AfterAdmission(s1, t2), ALICE) == map[HOME := 1, AWAY := 1];
  }

  lemma FirstSession(policy: Policy, t: Ticket)
    requires Admissible(Start(policy), t) && Reached(Start(policy))
    ensures
      var s := AfterAdmission(Start(policy), t);
      && ActiveRow(s, t.user) == map[t.ip := 1] && RecentRow(s, t.user) == map[t.ip := t.now]
      && s.activeCount == 1 && s.recentCount <= 1
  {
    hide Reached;
    AdmissionReached(Start(policy), t);
    assert PrunedRow(Start(policy), t) == map[];
  }
}
