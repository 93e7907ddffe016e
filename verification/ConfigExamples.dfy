/** Runs in which an outside edit meets a config commit: one is overwritten, one makes the snapshot a mixture. */
module ConfigExamples {
  import opened Wrappers
  import opened ConfigRevision
  import opened ConfigConcurrency

  ghost predicate Reached(sch: Scheme, first: Graph, s: State) {
    exists states: seq<State>, steps: seq<Step> ::
      IsRun(sch, states, steps) && states[0].disk == first && states[|steps|] == s
  }

  lemma ReachedStart(sch: Scheme, first: Graph)
    requires Enumerates(sch.order)
    ensures Reached(sch, first, State(first, [Idle], []))
  {
    var states, steps: seq<Step> := [State(first, [Idle], [])], [];
    assert IsRun(sch, states, steps) && states[|steps|] == State(first, [Idle], []);
  }

  lemma ReachedNext(sch: Scheme, first: Graph, s: State, step: Step, s': State)
    requires Reached(sch, first, s) && Enumerates(sch.order) && Enabled(sch, s, step) && s' == Apply(sch, s, step)
    ensures Reached(sch, first, s')
  {
    hide Apply, Enabled;
    var states: seq<State>, steps: seq<Step> :|
      IsRun(sch, states, steps) && states[0].disk == first && states[|steps|] == s;
    var more, plan := states + [s'], steps + [step];
    forall i | 0 <= i < |plan|
      ensures Enabled(sch, more[i], plan[i]) && more[i + 1] == Apply(sch, more[i], plan[i])
    {
      if i < |steps| {
        assert more[i] == states[i] && more[i + 1] == states[i + 1] && plan[i] == steps[i];
      }
    }
    assert IsRun(sch, more, plan) && more[|plan|] == s';
  }

  const ROOT: Bytes := [1]
  const PART: Bytes := [2]
  const OLD: Bytes := [10]
  const NEW: Bytes := [11]
  const PATCHED: Bytes := [12]

  /** A root file that includes one other, and a request that rewrites the root. */
  function TwoFiles(order: KeyOrder, hash: Bytes -> Revision): Scheme {
    Scheme(order, hash, (seen: seq<(Bytes, Bytes)>) =>
             if |seen| == 0 then ReadFile(ROOT) else if |seen| == 1 then ReadFile(PART) else Done)
  }

  function Rewrite(): Request {
    Request(None, (g: Graph) => Some((ROOT, PATCHED)))
  }

  const BEFORE: Graph := map[ROOT := OLD, PART := OLD]
  const AFTER: Graph := map[ROOT := NEW, PART := NEW]

  lemma LockReached(sch: Scheme)
    requires Enumerates(sch.order)
    ensures Reached(sch, BEFORE, State(BEFORE, [Holding(Rewrite(), [])], []))
  {
    hide Reached;
    ReachedStart(sch, BEFORE);
    var s0 := State(BEFORE, [Idle], []);
    var s1 := State(BEFORE, [Waiting(Rewrite())], []);
    ReachedNext(sch, BEFORE, s0, Ask(0, Rewrite()), s1);
    ReachedNext(sch, BEFORE, s1, Acquire(0), State(BEFORE, [Holding(Rewrite(), [])], []));
  }

  /** Two reads, with an outside edit of both files after the first or after the second. */
  lemma {:induction false} ReadingReached(order: KeyOrder, hash: Bytes -> Revision, between: bool, reading: seq<Read>)
    requires Enumerates(order)
    requires reading == [Read(ROOT, OLD, 0), if between then Read(PART, NEW, 1) else Read(PART, OLD, 0)]
    ensures Reached(TwoFiles(order, hash), BEFORE, State(AFTER, [Holding(Rewrite(), reading)], [Edit(BEFORE, AFTER)]))
  {
    hide Reached;
    var sch := TwoFiles(order, hash);
    LockReached(sch);
    var s0 := State(BEFORE, [Holding(Rewrite(), [])], []);
    var none: seq<Read>, one := [], [Read(ROOT, OLD, 0)];
    assert |Seen(none)| == 0 && none + one == one;
    var s1 := State(BEFORE, [Holding(Rewrite(), one)], []);
    assert ROOT != PART && BEFORE[ROOT] == OLD && BEFORE[PART] == OLD;
    ReachedNext(sch, BEFORE, s0, ReadNext(0), s1);
    assert reading == one + [reading[1]];
    if between {
      var s2 := State(AFTER, [Holding(Rewrite(), one)], [Edit(BEFORE, AFTER)]);
      ReachedNext(sch, BEFORE, s1, Outside(AFTER), s2);
      ReachedNext(sch, BEFORE, s2, ReadNext(0), State(AFTER, [Holding(Rewrite(), reading)], [Edit(BEFORE, AFTER)]));
    } else {
      var s2 := State(BEFORE, [Holding(Rewrite(), reading)], []);
      ReachedNext(sch, BEFORE, s1, ReadNext(0), s2);
      ReachedNext(sch, BEFORE, s2, Outside(AFTER), State(AFTER, [Holding(Rewrite(), reading)], [Edit(BEFORE, AFTER)]));
    }
  }

  lemma {:induction false} CommitReached(order: KeyOrder, hash: Bytes -> Revision, reading: seq<Read>)
    requires Enumerates(order) && |reading| == 2 && ROOT in GraphOf(reading)
    requires Reached(TwoFiles(order, hash), BEFORE, State(AFTER, [Holding(Rewrite(), reading)], [Edit(BEFORE, AFTER)]))
    ensures Reached(TwoFiles(order, hash), BEFORE,
                    State(AFTER[ROOT := PATCHED], [Idle],
                          [Edit(BEFORE, AFTER), Commit(AFTER, Rewrite(), reading, ROOT, PATCHED)]))
  {
    hide Reached, RevisionOf;
    var sch := TwoFiles(order, hash);
    var s0 := State(AFTER, [Holding(Rewrite(), reading)], [Edit(BEFORE, AFTER)]);
    var s1 := State(AFTER, [Prepared(Rewrite(), reading, ROOT, PATCHED)], [Edit(BEFORE, AFTER)]);
    ReachedNext(sch, BEFORE, s0, Prepare(0), s1);
    ReachedNext(sch, BEFORE, s1, Write(0),
                State(AFTER[ROOT := PATCHED], [Idle],
                      [Edit(BEFORE, AFTER), Commit(AFTER, Rewrite(), reading, ROOT, PATCHED)]));
  }

  lemma {:induction false} GraphOfTwo(a: Read, b: Read)
    requires a.file != b.file
    ensures GraphOf([a, b]) == map[a.file := a.contents, b.file := b.contents]
  {
    assert [a, b][..1] == [a] && [a][..0] == [];
    assert GraphOf([a]) == map[a.file := a.contents];
  }

  /** An outside edit of the owner file after it was read is overwritten. */
  lemma OutsideEditCanBeLost(order: KeyOrder, hash: Bytes -> Revision)
    requires Enumerates(order)
    ensures exists s, c ::
      Reached(TwoFiles(order, hash), BEFORE, s) && c in s.log && c.Commit? && OverwritesUnseen(c)
  {
    hide Reached;
    var reading := [Read(ROOT, OLD, 0), Read(PART, OLD, 0)];
    GraphOfTwo(reading[0], reading[1]);
    ReadingReached(order, hash, false, reading);
    CommitReached(order, hash, reading);
    var c := Commit(AFTER, Rewrite(), reading, ROOT, PATCHED);
    var s := State(AFTER[ROOT := PATCHED], [Idle], [Edit(BEFORE, AFTER), c]);
    assert s.log[1] == c;
  }

  /** An outside edit between two reads gives a commit a graph the disk held at no moment before it. */
  lemma SnapshotCanBeAMixture(order: KeyOrder, hash: Bytes -> Revision)
    requires Enumerates(order)
    ensures exists s ::
      && Reached(TwoFiles(order, hash), BEFORE, s) && |s.log| == 2 && s.log[1].Commit?
      && !Agrees(GraphOf(s.log[1].reading), DiskAt(BEFORE, s.log, 0))
      && !Agrees(GraphOf(s.log[1].reading), DiskAt(BEFORE, s.log, 1))
  {
    hide Reached;
    var reading := [Read(ROOT, OLD, 0), Read(PART, NEW, 1)];
    GraphOfTwo(reading[0], reading[1]);
    ReadingReached(order, hash, true, reading);
    CommitReached(order, hash, reading);
    var c := Commit(AFTER, Rewrite(), reading, ROOT, PATCHED);
    var s := State(AFTER[ROOT := PATCHED], [Idle], [Edit(BEFORE, AFTER), c]);
    var g := GraphOf(reading);
    assert PART in g && TextOf(BEFORE, PART) != Some(g[PART]);
    assert ROOT in g && TextOf(AFTER, ROOT) != Some(g[ROOT]);
  }
}
