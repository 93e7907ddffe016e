/** What the tracker does to one shard or one cleanup queue while it holds that shard's lock,
    as functions of the tables, and the laws of those functions. */
module ShardSpec {
  import opened Tables
  import opened Wrappers

  const USIZE_MAX: nat := 0xFFFF_FFFF_FFFF_FFFF
  const CLEANUP_DRAIN_BATCH_LIMIT: nat := 1024

  /** Releases taken out of a cleanup queue and not yet applied. */
  type Batch = map<Pair, nat>

  function SatInc(n: nat): nat {
    if n < USIZE_MAX then n + 1 else n
  }

  /** `fetch_sub` on a 64-bit counter. */
  function WrapSub(n: nat, k: nat): nat {
    (n + U64_SIZE - k % U64_SIZE) % U64_SIZE
  }

  /** The refcount of a pair, zero when it has no entry. */
  function Count(m: Table<nat>, p: Pair): nat {
    var row := Row(m, p.0);
    if p.1 in row then row[p.1] else 0
  }

  function Pending(batch: Batch, p: Pair): nat {
    if p in batch then batch[p] else 0
  }

  /** Every entry has a positive count. */
  ghost predicate Positive(m: Table<nat>) {
    forall u, i :: u in m && i in m[u] ==> m[u][i] > 0
  }

  // ----- direct and deferred release -----

  /** Store a row, or drop the user when the row is empty. */
  function PutRow(m: Table<nat>, u: User, row: map<Ip, nat>): Table<nat> {
    if row == map[] then m - {u} else m[u := row]
  }

  lemma PutRowAt(m: Table<nat>, u: User, row: map<Ip, nat>, v: User)
    ensures Row(PutRow(m, u, row), v) == if v == u then row else Row(m, v)
    ensures v in PutRow(m, u, row) <==> if v == u then row != map[] else v in m
  {
  }

  /** `remove_ip` on the active table. */
  function RemoveOne(active: Table<nat>, p: Pair): Table<nat> {
    if p.0 !in active then active
    else
      var row := active[p.0];
      PutRow(active, p.0,
             if p.1 !in row then row
             else if row[p.1] > 1 then row[p.1 := row[p.1] - 1]
             else row - {p.1})
  }

  /** How many entries `remove_ip` deletes. */
  function RemoveOneEntries(active: Table<nat>, p: Pair): nat {
    if p.0 in active && p.1 in active[p.0] && active[p.0][p.1] <= 1 then 1 else 0
  }

  /** One release of `k` references applied to one row. */
  function CleanupRow(row: map<Ip, nat>, i: Ip, k: nat): map<Ip, nat> {
    if i !in row then row
    else if row[i] > k then row[i := row[i] - k]
    else row - {i}
  }

  /** `apply_active_cleanup`: release `k` references at once. */
  function ApplyCleanup(active: Table<nat>, p: Pair, k: nat): Table<nat> {
    if k == 0 || p.0 !in active then active
    else PutRow(active, p.0, CleanupRow(active[p.0], p.1, k))
  }

  function CleanupEntries(active: Table<nat>, p: Pair, k: nat): nat {
    if k != 0 && p.0 in active && p.1 in active[p.0] && active[p.0][p.1] <= k then 1 else 0
  }

  /** `k` successive `remove_ip` calls. */
  function RemoveTimes(active: Table<nat>, p: Pair, k: nat): Table<nat> {
    if k == 0 then active else RemoveTimes(RemoveOne(active, p), p, k - 1)
  }

  function RemoveTimesEntries(active: Table<nat>, p: Pair, k: nat): nat {
    if k == 0 then 0
    else RemoveOneEntries(active, p) + RemoveTimesEntries(RemoveOne(active, p), p, k - 1)
  }

  lemma CleanupPeel(active: Table<nat>, p: Pair, k: nat)
    requires k > 0
    ensures ApplyCleanup(active, p, k) == ApplyCleanup(RemoveOne(active, p), p, k - 1)
    ensures CleanupEntries(active, p, k)
         == RemoveOneEntries(active, p) + CleanupEntries(RemoveOne(active, p), p, k - 1)
  {
    if p.0 in active && p.1 in active[p.0] {
      var row := active[p.0];
      if row[p.1] > k {
        var mid := row[p.1 := row[p.1] - 1];
        assert mid[p.1 := mid[p.1] - (k - 1)] == row[p.1 := row[p.1] - k];
      } else if row[p.1] > 1 {
        var mid := row[p.1 := row[p.1] - 1];
        assert mid - {p.1} == row - {p.1};
        assert active[p.0 := mid] - {p.0} == active - {p.0};
      }
    }
  }

  /** The deferred release of `k` references is `k` direct releases: same table, same number of
      deleted entries. */
  lemma {:induction false} DeferredIsDirect(active: Table<nat>, p: Pair, k: nat)
    ensures ApplyCleanup(active, p, k) == RemoveTimes(active, p, k)
    ensures CleanupEntries(active, p, k) == RemoveTimesEntries(active, p, k)
    decreases k
  {
    if k > 0 {
      CleanupPeel(active, p, k);
      DeferredIsDirect(RemoveOne(active, p), p, k - 1);
    }
  }

  lemma CleanupPairs(active: Table<nat>, p: Pair, k: nat)
    ensures |Pairs(ApplyCleanup(active, p, k))| + CleanupEntries(active, p, k) == |Pairs(active)|
  {
    if k != 0 && p.0 in active {
      var row := active[p.0];
      if p.1 in row {
        RemoveIpSize(row, p.1);
        InsertIpSize(row, p.1, SatSub(row[p.1], k));
      }
      DropUserPairs(active, p.0);
      SetRowPairs(active, p.0, CleanupRow(row, p.1, k));
    }
  }

  lemma CleanupCount(active: Table<nat>, p: Pair, k: nat, q: Pair)
    ensures Count(ApplyCleanup(active, p, k), q)
         == if q == p then SatSub(Count(active, p), k) else Count(active, q)
  {
    if k != 0 && p.0 in active {
      PutRowAt(active, p.0, CleanupRow(active[p.0], p.1, k), q.0);
    }
  }

  lemma CleanupPositive(active: Table<nat>, p: Pair, k: nat)
    requires Positive(active)
    ensures Positive(ApplyCleanup(active, p, k))
  {
  }

  lemma RemoveOneIsCleanup(active: Table<nat>, p: Pair)
    ensures RemoveOne(active, p) == ApplyCleanup(active, p, 1)
    ensures RemoveOneEntries(active, p) == CleanupEntries(active, p, 1)
  {
  }

  // ----- a drained batch -----

  /** The users some release of the batch names. */
  predicate Names(batch: Batch, u: User) {
    exists p :: p in batch && p.0 == u && batch[p] > 0
  }

  function BatchRow(row: map<Ip, nat>, u: User, batch: Batch): map<Ip, nat> {
    map i | i in row && (Pending(batch, (u, i)) == 0 || row[i] > Pending(batch, (u, i)))
      :: row[i] - Pending(batch, (u, i))
  }

  /** The active table after a whole batch: every named pair loses its pending count, users the
      batch leaves without IPs disappear. No order of application is mentioned. */
  function AfterBatch(active: Table<nat>, batch: Batch): Table<nat> {
    map u | u in active && !(Names(batch, u) && BatchRow(active[u], u, batch) == map[])
      :: BatchRow(active[u], u, batch)
  }

  lemma AfterEmptyBatch(active: Table<nat>)
    ensures AfterBatch(active, map[]) == active
  {
    assert forall u :: u in active ==> BatchRow(active[u], u, map[]) == active[u];
  }

  lemma BatchRowOther(row: map<Ip, nat>, u: User, batch: Batch, p: Pair, k: nat)
    requires p.0 != u
    ensures BatchRow(row, u, batch[p := k]) == BatchRow(row, u, batch)
  {
    assert forall i {:trigger row[i]} :: i in row ==> Pending(batch[p := k], (u, i)) == Pending(batch, (u, i));
  }

  lemma BatchRowSame(row: map<Ip, nat>, u: User, batch: Batch, i: Ip, k: nat)
    requires (u, i) !in batch && k > 0
    ensures BatchRow(row, u, batch[(u, i) := k]) == CleanupRow(BatchRow(row, u, batch), i, k)
  {
    var wide := batch[(u, i) := k];
    var lhs, rhs := BatchRow(row, u, wide), CleanupRow(BatchRow(row, u, batch), i, k);
    forall j
      ensures j in lhs <==> j in rhs
      ensures j in lhs ==> lhs[j] == rhs[j]
    {
      assert Pending(wide, (u, j)) == if j == i then k else Pending(batch, (u, j));
      assert Pending(batch, (u, i)) == 0;
    }
  }

  lemma NamesExtend(batch: Batch, p: Pair, k: nat, u: User)
    requires p !in batch && k > 0
    ensures Names(batch[p := k], u) <==> Names(batch, u) || u == p.0
  {
    var wide := batch[p := k];
    if Names(batch, u) {
      var q :| q in batch && q.0 == u && batch[q] > 0;
      assert q in wide && wide[q] > 0;
    }
    if u == p.0 {
      assert p in wide && wide[p] > 0;
    }
  }

  lemma AfterBatchOther(active: Table<nat>, batch: Batch, p: Pair, k: nat, u: User)
    requires p !in batch && k > 0 && u != p.0
    ensures Row(AfterBatch(active, batch[p := k]), u) == Row(AfterBatch(active, batch), u)
    ensures u in AfterBatch(active, batch[p := k]) <==> u in AfterBatch(active, batch)
  {
    NamesExtend(batch, p, k, u);
    if u in active {
      BatchRowOther(active[u], u, batch, p, k);
    }
  }

  lemma AfterBatchSame(active: Table<nat>, batch: Batch, p: Pair, k: nat)
    requires p !in batch && k > 0 && p.0 in active
    ensures
      var row := CleanupRow(BatchRow(active[p.0], p.0, batch), p.1, k);
      && (p.0 in AfterBatch(active, batch[p := k]) <==> row != map[])
      && Row(AfterBatch(active, batch[p := k]), p.0) == row
  {
    NamesExtend(batch, p, k, p.0);
    BatchRowSame(active[p.0], p.0, batch, p.1, k);
    assert (p.0, p.1) == p;
  }

  /** Tables that agree off one user, and at that user as a release would leave it. */
  lemma CleanupByRows(mid: Table<nat>, rhs: Table<nat>, p: Pair, k: nat)
    requires k > 0
    requires forall u :: u != p.0 ==> (u in rhs <==> u in mid) && Row(rhs, u) == Row(mid, u)
    requires p.0 !in mid ==> p.0 !in rhs
    requires p.0 in mid ==>
      var row := CleanupRow(mid[p.0], p.1, k);
      (p.0 in rhs <==> row != map[]) && Row(rhs, p.0) == row
    ensures rhs == ApplyCleanup(mid, p, k)
  {
    var lhs := ApplyCleanup(mid, p, k);
    forall u
      ensures u in lhs <==> u in rhs
      ensures Row(lhs, u) == Row(rhs, u)
    {
      if p.0 in mid {
        PutRowAt(mid, p.0, CleanupRow(mid[p.0], p.1, k), u);
      }
    }
    assert forall u :: u in lhs ==> lhs[u] == Row(lhs, u) && rhs[u] == Row(rhs, u);
  }

  /** Applying one more release of a batch: the step of the drain loop. */
  lemma AfterBatchStep(active: Table<nat>, batch: Batch, p: Pair, k: nat)
    requires p !in batch && k > 0
    ensures ApplyCleanup(AfterBatch(active, batch), p, k) == AfterBatch(active, batch[p := k])
  {
    forall u | u != p.0
      ensures u in AfterBatch(active, batch[p := k]) <==> u in AfterBatch(active, batch)
      ensures Row(AfterBatch(active, batch[p := k]), u) == Row(AfterBatch(active, batch), u)
    {
      AfterBatchOther(active, batch, p, k, u);
    }
    if p.0 in active {
      AfterBatchSame(active, batch, p, k);
    }
    CleanupByRows(AfterBatch(active, batch), AfterBatch(active, batch[p := k]), p, k);
  }

  lemma AfterBatchCount(active: Table<nat>, batch: Batch, p: Pair)
    ensures Count(AfterBatch(active, batch), p) == SatSub(Count(active, p), Pending(batch, p))
  {
    var u := p.0;
    if u in active && Names(batch, u) && BatchRow(active[u], u, batch) == map[] && p.1 in active[u] {
      assert p.1 !in BatchRow(active[u], u, batch);
    }
  }

  lemma AfterBatchPairs(active: Table<nat>, batch: Batch)
    ensures Pairs(AfterBatch(active, batch)) <= Pairs(active)
    ensures |Pairs(AfterBatch(active, batch))| <= |Pairs(active)|
  {
    PairsSubset(AfterBatch(active, batch), active);
  }

  lemma AfterBatchPositive(active: Table<nat>, batch: Batch)
    requires Positive(active)
    ensures Positive(AfterBatch(active, batch))
  {
  }

  // ----- cleanup queues -----

  /** No empty row and no zero count: what every queue operation keeps. */
  ghost predicate QueueOk(q: Table<nat>) {
    && (forall u :: u in q ==> q[u] != map[])
    && Positive(q)
  }

  function Enqueued(q: Table<nat>, p: Pair): Table<nat> {
    q[p.0 := Row(q, p.0)[p.1 := SatInc(Count(q, p))]]
  }

  lemma EnqueuedOk(q: Table<nat>, p: Pair)
    requires QueueOk(q)
    ensures QueueOk(Enqueued(q, p))
    ensures |Pairs(Enqueued(q, p))| == |Pairs(q)| + (if Count(q, p) == 0 then 1 else 0)
    ensures forall r :: Count(Enqueued(q, p), r) == if r == p then SatInc(Count(q, p)) else Count(q, r)
  {
    var row := Row(q, p.0);
    SetRowPairs(q, p.0, row[p.1 := SatInc(Count(q, p))]);
    InsertIpSize(row, p.1, SatInc(Count(q, p)));
    assert p.1 in Enqueued(q, p)[p.0];
  }

  /** A user's row as a batch. */
  function RowBatch(u: User, row: map<Ip, nat>): Batch {
    map p | p in (set i | i in row :: (u, i)) :: row[p.1]
  }

  lemma RowBatchSize(u: User, row: map<Ip, nat>)
    ensures RowBatch(u, row).Keys == Slice(u, row)
    ensures |RowBatch(u, row)| == |row|
  {
    SliceSize(u, row);
    assert |RowBatch(u, row)| == |RowBatch(u, row).Keys|;
  }

  /** The queue without some of its pairs; rows left empty go away with them. */
  function Without(q: Table<nat>, gone: set<Pair>): Table<nat> {
    map u | u in q && (exists i :: i in q[u] && (u, i) !in gone)
      :: map i | i in q[u] && (u, i) !in gone :: q[u][i]
  }

  lemma WithoutPairs(q: Table<nat>, gone: set<Pair>)
    requires gone <= Pairs(q)
    ensures Pairs(Without(q, gone)) == Pairs(q) - gone
    ensures |Pairs(Without(q, gone))| == |Pairs(q)| - |gone|
  {
    SubsetSize(gone, Pairs(q));
  }

  lemma WithoutOk(q: Table<nat>, gone: set<Pair>)
    requires QueueOk(q)
    ensures QueueOk(Without(q, gone))
  {
    var r := Without(q, gone);
    forall u | u in r
      ensures r[u] != map[]
    {
      var i :| i in q[u] && (u, i) !in gone;
      assert i in r[u];
    }
  }

  /** What a shard drain may take: pairs of the queue with their whole counts, as many as the batch
      limit allows. */
  ghost predicate IsDrain(q: Table<nat>, batch: Batch) {
    && batch.Keys <= Pairs(q)
    && (forall p :: p in batch ==> batch[p] == q[p.0][p.1])
    && |batch| == if |Pairs(q)| < CLEANUP_DRAIN_BATCH_LIMIT then |Pairs(q)| else CLEANUP_DRAIN_BATCH_LIMIT
  }

  lemma DrainCount(q: Table<nat>, batch: Batch, p: Pair)
    requires batch.Keys <= Pairs(q)
    requires forall r :: r in batch ==> batch[r] == q[r.0][r.1]
    ensures Count(Without(q, batch.Keys), p) + Pending(batch, p) == Count(q, p)
  {
    if p.0 in q && p.1 in q[p.0] {
      assert p in Pairs(q);
      if p !in batch {
        assert p.0 in Without(q, batch.Keys);
      }
    }
  }

  // ----- the recent table -----

  /** `now.duration_since(seen) <= window`, which counts a later `seen` as no time at all. */
  predicate Fresh(seen: nat, now: nat, window: nat) {
    SatSub(now, seen) <= window
  }

  function PruneRow(row: map<Ip, nat>, now: nat, window: nat): map<Ip, nat> {
    map i | i in row && Fresh(row[i], now, window) :: row[i]
  }

  /** The IPs seen no longer than the window ago. */
  function InWindow(row: map<Ip, nat>, now: nat, window: nat): set<Ip> {
    set i | i in row && now <= row[i] + window
  }

  /** Pruning keeps exactly those, as they are. */
  lemma PruneRowKeeps(row: map<Ip, nat>, now: nat, window: nat)
    ensures PruneRow(row, now, window).Keys == InWindow(row, now, window)
    ensures |PruneRow(row, now, window)| == |InWindow(row, now, window)|
    ensures forall i :: i in PruneRow(row, now, window) ==> PruneRow(row, now, window)[i] == row[i]
  {
    assert |PruneRow(row, now, window)| == |PruneRow(row, now, window).Keys|;
  }

  lemma PruneRowSize(row: map<Ip, nat>, now: nat, window: nat)
    ensures |PruneRow(row, now, window)| <= |row|
  {
    SubsetSize(PruneRow(row, now, window).Keys, row.Keys);
  }

  function PruneAll(recent: Table<nat>, now: nat, window: nat): Table<nat> {
    map u | u in recent :: PruneRow(recent[u], now, window)
  }

  lemma PruneAllPairs(recent: Table<nat>, now: nat, window: nat)
    ensures |Pairs(PruneAll(recent, now, window))| <= |Pairs(recent)|
  {
    PairsSubset(PruneAll(recent, now, window), recent);
  }

  /** Compaction's last pass: users empty in both tables leave both. */
  function Sweep<V, W>(table: Table<V>, other: Table<W>): Table<V> {
    map u | u in table && !(table[u].Keys == {} && Row(other, u).Keys == {}) :: table[u]
  }

  lemma SweepPairs<V, W>(table: Table<V>, other: Table<W>)
    ensures Pairs(Sweep(table, other)) == Pairs(table)
    ensures forall u :: Row(Sweep(table, other), u) == Row(table, u)
    ensures forall u :: u in table && table[u] != map[] ==> u in Sweep(table, other)
  {
    forall u
      ensures Row(Sweep(table, other), u) == Row(table, u)
    {
      if u in table && table[u].Keys == {} {
        assert table[u] == map[];
      }
    }
    forall p
      ensures p in Pairs(Sweep(table, other)) <==> p in Pairs(table)
    {
      assert Row(Sweep(table, other), p.0) == Row(table, p.0);
    }
  }
}
