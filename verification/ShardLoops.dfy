/** The tracker's loops over hash maps, in whatever order the maps are iterated, each proved to compute
    the order-free function of `ShardSpec`. */
module ShardLoops {
  import opened Tables
  import opened Wrappers
  import opened ShardSpec

  /** `pop_one_cleanup`: one pair leaves the queue with its whole count. */
  method PopOneCleanup(q: Table<nat>) returns (popped: Option<(Pair, nat)>, rest: Table<nat>)
    requires QueueOk(q)
    ensures popped.None? <==> q == map[]
    ensures popped.None? ==> rest == q
    ensures popped.Some? ==>
      var (p, n) := popped.value;
      p in Pairs(q) && n == q[p.0][p.1] && n > 0 && rest == Without(q, {p})
    ensures QueueOk(rest)
  {
    if q == map[] {
      return None, q;
    }
    var u :| u in q;
    var ip :| ip in q[u];
    var n := q[u][ip];
    var row := q[u] - {ip};
    rest := if row == map[] then q - {u} else q[u := row];
    popped := Some(((u, ip), n));
    PopIsWithout(q, (u, ip));
    WithoutOk(q, {(u, ip)});
  }

  lemma PopIsWithout(q: Table<nat>, p: Pair)
    requires QueueOk(q) && p in Pairs(q)
    ensures PutRow(q, p.0, q[p.0] - {p.1}) == Without(q, {p})
  {
    var lhs, rhs := PutRow(q, p.0, q[p.0] - {p.1}), Without(q, {p});
    forall u
      ensures u in lhs <==> u in rhs
      ensures u in lhs ==> lhs[u] == rhs[u]
    {
      PutRowAt(q, p.0, q[p.0] - {p.1}, u);
      if u in q {
        WithoutRow(q, p, u);
      }
    }
  }

  lemma WithoutRow(q: Table<nat>, p: Pair, u: User)
    requires QueueOk(q) && u in q && p in Pairs(q)
    ensures
      var row := if u == p.0 then q[u] - {p.1} else q[u];
      && (u in Without(q, {p}) <==> row != map[])
      && (u in Without(q, {p}) ==> Without(q, {p})[u] == row)
  {
    var row := if u == p.0 then q[u] - {p.1} else q[u];
    assert forall i :: i in row <==> i in q[u] && (u, i) !in {p};
    if row != map[] {
      var i :| i in row;
      assert i in q[u] && (u, i) !in {p};
    }
  }

  lemma WithoutTwice(q: Table<nat>, a: set<Pair>, b: set<Pair>)
    ensures Without(Without(q, a), b) == Without(q, a + b)
  {
    var mid, lhs, rhs := Without(q, a), Without(Without(q, a), b), Without(q, a + b);
    forall u
      ensures u in lhs <==> u in rhs
      ensures u in lhs ==> lhs[u] == rhs[u]
    {
      WithoutTwiceRow(q, a, b, u);
    }
  }

  lemma WithoutTwiceRow(q: Table<nat>, a: set<Pair>, b: set<Pair>, u: User)
    ensures u in Without(Without(q, a), b) <==> u in Without(q, a + b)
    ensures u in Without(q, a + b) ==> Without(Without(q, a), b)[u] == Without(q, a + b)[u]
  {
    var mid := Without(q, a);
    if u in Without(mid, b) {
      var i :| i in mid[u] && (u, i) !in b;
      assert i in q[u] && (u, i) !in a + b;
    }
    if u in Without(q, a + b) {
      var i :| i in q[u] && (u, i) !in a + b;
      assert (u, i) !in a && u in mid && i in mid[u];
    }
  }

  lemma WithoutNothing(q: Table<nat>)
    requires QueueOk(q)
    ensures Without(q, {}) == q
  {
    var nothing: set<Pair> := {};
    forall u | u in q
      ensures u in Without(q, nothing) && Without(q, nothing)[u] == q[u]
    {
      var i :| i in q[u];
      assert (u, i) !in nothing;
    }
  }

  /** Pairs of a queue, recorded with their whole counts. */
  ghost predicate Taken(q: Table<nat>, batch: Batch) {
    && batch.Keys <= Pairs(q)
    && forall p :: p in batch ==> batch[p] == q[p.0][p.1]
  }

  lemma StillQueued(q: Table<nat>, drained: Batch, p: Pair)
    requires Taken(q, drained) && p in Pairs(Without(q, drained.Keys))
    ensures p in Pairs(q) && p !in drained && Without(q, drained.Keys)[p.0][p.1] == q[p.0][p.1]
  {
    WithoutPairs(q, drained.Keys);
  }

  lemma InsertPairSize(batch: Batch, p: Pair, n: nat)
    requires p !in batch
    ensures batch[p := n].Keys == batch.Keys + {p}
    ensures |batch[p := n]| == |batch| + 1
  {
    assert |batch[p := n]| == |batch[p := n].Keys| && |batch| == |batch.Keys|;
  }

  /** One more pop: a pair still queued is not recorded yet. */
  lemma PopExtends(q: Table<nat>, drained: Batch, p: Pair)
    requires Taken(q, drained) && p in Pairs(Without(q, drained.Keys))
    ensures p in Pairs(q) && Without(q, drained.Keys)[p.0][p.1] == q[p.0][p.1]
    ensures Taken(q, drained[p := q[p.0][p.1]])
    ensures |drained[p := q[p.0][p.1]]| == |drained| + 1
    ensures Without(Without(q, drained.Keys), {p}) == Without(q, drained[p := q[p.0][p.1]].Keys)
  {
    StillQueued(q, drained, p);
    InsertPairSize(drained, p, q[p.0][p.1]);
    WithoutTwice(q, drained.Keys, {p});
  }

  /** The loop of `drain_cleanup_shard`: at most 1024 pops, each recorded once; no popped pair meets a
      key already recorded. */
  method DrainBatch(q: Table<nat>) returns (drained: Batch, rest: Table<nat>)
    requires QueueOk(q)
    ensures IsDrain(q, drained)
    ensures rest == Without(q, drained.Keys)
    ensures QueueOk(rest)
  {
    drained, rest := map[], q;
    WithoutNothing(q);
    assert drained.Keys == {};
    while |drained| < CLEANUP_DRAIN_BATCH_LIMIT
      invariant |drained| <= CLEANUP_DRAIN_BATCH_LIMIT
      invariant QueueOk(rest) && rest == Without(q, drained.Keys)
      invariant Taken(q, drained)
    {
      var popped, next := PopOneCleanup(rest);
      if popped.None? {
        break;
      }
      var (p, n) := popped.value;
      PopExtends(q, drained, p);
      drained := drained[p := n];
      rest := next;
    }
    DrainedAll(q, drained);
  }

  lemma DrainedAll(q: Table<nat>, drained: Batch)
    requires Taken(q, drained)
    ensures |drained| <= |Pairs(q)|
    ensures Without(q, drained.Keys) == map[] ==> |drained| == |Pairs(q)|
  {
    WithoutPairs(q, drained.Keys);
    assert |drained| == |drained.Keys|;
    assert Pairs<nat>(map[]) == {};
    SubsetSize(drained.Keys, Pairs(q));
  }

  lemma AfterBatchZero(active: Table<nat>, batch: Batch, p: Pair)
    requires p !in batch
    ensures AfterBatch(active, batch[p := 0]) == AfterBatch(active, batch)
  {
    var wide := batch[p := 0];
    forall u
      ensures Names(wide, u) <==> Names(batch, u)
    {
      if Names(batch, u) {
        var r :| r in batch && r.0 == u && batch[r] > 0;
        assert r in wide && wide[r] > 0;
      }
    }
    forall u | u in active
      ensures BatchRow(active[u], u, wide) == BatchRow(active[u], u, batch)
    {
      assert forall i {:trigger active[u][i]} :: i in active[u] ==> Pending(wide, (u, i)) == Pending(batch, (u, i));
    }
  }

  lemma BatchGrows(active: Table<nat>, done: Batch, p: Pair, k: nat)
    requires p !in done
    ensures
      var mid := AfterBatch(active, done);
      && ApplyCleanup(mid, p, k) == AfterBatch(active, done[p := k])
      && CleanupEntries(mid, p, k) + |Pairs(AfterBatch(active, done[p := k]))| == |Pairs(mid)|
  {
    CleanupPairs(AfterBatch(active, done), p, k);
    if k > 0 {
      AfterBatchStep(active, done, p, k);
    } else {
      AfterBatchZero(active, done, p);
    }
  }

  /** The part of a batch a loop has handled. */
  ghost function Handled(batch: Batch, todo: set<Pair>): Batch {
    map p | p in batch && p !in todo :: batch[p]
  }

  lemma HandledNext(batch: Batch, todo: set<Pair>, p: Pair)
    requires todo <= batch.Keys && p in todo
    ensures p !in Handled(batch, todo)
    ensures Handled(batch, todo - {p}) == Handled(batch, todo)[p := batch[p]]
  {
  }

  /** Where the loop stands when `todo` is still to be applied. */
  ghost predicate HalfApplied(active: Table<nat>, batch: Batch, todo: set<Pair>, after: Table<nat>, removed: nat) {
    && after == AfterBatch(active, Handled(batch, todo))
    && removed + |Pairs(after)| == |Pairs(active)|
  }

  lemma HalfAppliedStart(active: Table<nat>, batch: Batch)
    ensures HalfApplied(active, batch, batch.Keys, active, 0)
  {
    assert Handled(batch, batch.Keys) == map[];
    AfterEmptyBatch(active);
  }

  lemma HalfAppliedNext(active: Table<nat>, batch: Batch, todo: set<Pair>, after: Table<nat>, removed: nat, p: Pair)
    requires todo <= batch.Keys && p in todo && HalfApplied(active, batch, todo, after, removed)
    ensures HalfApplied(active, batch, todo - {p},
                        ApplyCleanup(after, p, batch[p]), removed + CleanupEntries(after, p, batch[p]))
  {
    HandledNext(batch, todo, p);
    BatchGrows(active, Handled(batch, todo), p, batch[p]);
  }

  lemma HalfAppliedEnd(active: Table<nat>, batch: Batch, after: Table<nat>, removed: nat)
    requires HalfApplied(active, batch, {}, after, removed)
    ensures after == AfterBatch(active, batch)
  {
    assert Handled(batch, {}) == batch;
  }

  /** The loop both drains run under the shard lock. */
  method ApplyBatchLoop(active: Table<nat>, batch: Batch) returns (after: Table<nat>, removed: nat)
    ensures after == AfterBatch(active, batch)
    ensures removed + |Pairs(after)| == |Pairs(active)|
  {
    after, removed := active, 0;
    var todo := batch.Keys;
    HalfAppliedStart(active, batch);
    while todo != {}
      invariant todo <= batch.Keys && HalfApplied(active, batch, todo, after, removed)
      decreases todo
    {
      var p :| p in todo;
      HalfAppliedNext(active, batch, todo, after, removed, p);
      var n := CleanupEntries(after, p, batch[p]);
      after := ApplyCleanup(after, p, batch[p]);
      removed := removed + n;
      todo := todo - {p};
    }
    HalfAppliedEnd(active, batch, after, removed);
  }

  /** Compaction's first loop: prune every user's row and add up what went. */
  method PruneLoop(recent: Table<nat>, now: nat, window: nat) returns (after: Table<nat>, pruned: nat)
    ensures after == PruneAll(recent, now, window)
    ensures after.Keys == recent.Keys && forall u :: u in recent ==> after[u].Keys == InWindow(recent[u], now, window)
    ensures pruned + |Pairs(after)| == |Pairs(recent)|
  {
    after, pruned := recent, 0;
    var todo := recent.Keys;
    while todo != {}
      invariant todo <= recent.Keys && after.Keys == recent.Keys
      invariant forall u :: u in recent ==>
        after[u] == if u in todo then recent[u] else PruneRow(recent[u], now, window)
      invariant pruned + |Pairs(after)| == |Pairs(recent)|
      decreases todo
    {
      var u :| u in todo;
      var kept := PruneRow(after[u], now, window);
      PruneRowSize(after[u], now, window);
      SetRowPairs(after, u, kept);
      pruned := pruned + (|after[u]| - |kept|);
      after := after[u := kept];
      todo := todo - {u};
    }
    forall u | u in recent
      ensures after[u].Keys == InWindow(recent[u], now, window)
    {
      PruneRowKeeps(recent[u], now, window);
    }
  }

  /** Compaction's second loop: over the users of either table, drop those empty in both. */
  method SweepLoop(active: Table<nat>, recent: Table<nat>) returns (active': Table<nat>, recent': Table<nat>)
    ensures active' == Sweep(active, recent)
    ensures recent' == Sweep(recent, active)
  {
    active', recent' := active, recent;
    var todo := active.Keys + recent.Keys;
    while todo != {}
      invariant todo <= active.Keys + recent.Keys
      invariant forall u :: u in active' <==>
        u in active && (u in todo || !(active[u].Keys == {} && Row(recent, u).Keys == {}))
      invariant forall u :: u in recent' <==>
        u in recent && (u in todo || !(recent[u].Keys == {} && Row(active, u).Keys == {}))
      invariant forall u :: u in active' ==> active'[u] == active[u]
      invariant forall u :: u in recent' ==> recent'[u] == recent[u]
      decreases todo
    {
      var u :| u in todo;
      if Row(active', u).Keys == {} && Row(recent', u).Keys == {} {
        active' := active' - {u};
        recent' := recent' - {u};
      }
      todo := todo - {u};
    }
  }

  /** `values().map(len).sum()` of a table. */
  method CountEntries<V>(m: Table<V>) returns (total: nat)
    ensures total == |Pairs(m)|
  {
    total := 0;
    var todo := m.Keys;
    ghost var done: Table<V> := map[];
    while todo != {}
      invariant todo <= m.Keys && done.Keys == m.Keys - todo
      invariant forall u :: u in done ==> done[u] == m[u]
      invariant total == |Pairs(done)|
      decreases todo
    {
      var u :| u in todo;
      SetRowPairs(done, u, m[u]);
      total := total + |m[u]|;
      done := done[u := m[u]];
      todo := todo - {u};
    }
    assert done == m;
  }
}
