/** Concurrent config edits as a state machine. Every mutation holds the mutation lock while it reads the source files
    one by one, checks the revision it expects and writes one file; an editor outside the lock may change any file
    between any two of these. */
module ConfigConcurrency {
  import opened ConfigMerge
  import opened Wrappers
  import opened ConfigRevision

  type Revision = string

  /** One source file as a snapshot read it, after `at` changes of the disk. */
  datatype Read = Read(file: Bytes, contents: Bytes, at: nat)

  datatype Next = ReadFile(file: Bytes) | Done | Refused

  /** How graphs are turned into revisions, the manifest order and the hash; and the include scan, which tells from
      the files read so far which one is read next. */
  datatype Scheme = Scheme(order: KeyOrder, hash: Bytes -> Revision, next: seq<(Bytes, Bytes)> -> Next)

  ghost predicate CollisionFree(sch: Scheme) {
    && Enumerates(sch.order)
    && forall a, b :: sch.hash(a) == sch.hash(b) ==> a == b
  }

  function RevisionOf(sch: Scheme, g: Graph): Revision
    requires forall k :: k in sch.order(g.Keys) ==> k in g
  {
    sch.hash(Manifest(sch.order, g))
  }

  /** A request: the revision it expects, and the one file it would write for the snapshot it is built on
      (none when the patch is refused). */
  datatype Request = Request(expected: Option<Revision>, prepare: Graph -> Option<(Bytes, Bytes)>)

  datatype Task =
    | Idle
    | Waiting(req: Request)
    | Holding(req: Request, reading: seq<Read>)
    | Prepared(req: Request, reading: seq<Read>, owner: Bytes, contents: Bytes)

  /** A change of the disk: a commit, built on what it had read and landing on what it found, or an edit from
      outside. */
  datatype Change =
    | Commit(found: Graph, req: Request, reading: seq<Read>, owner: Bytes, contents: Bytes)
    | Edit(found: Graph, result: Graph)

  function ResultOf(c: Change): Graph {
    match c
    case Commit(found, _, _, owner, contents) => found[owner := contents]
    case Edit(_, result) => result
  }

  /** The disk after the first `n` changes. */
  function DiskAt(first: Graph, log: seq<Change>, n: nat): Graph
    requires n <= |log|
  {
    if n == 0 then first else ResultOf(log[n - 1])
  }

  function TextOf(g: Graph, f: Bytes): Option<Bytes> {
    if f in g then Some(g[f]) else None
  }

  datatype State = State(disk: Graph, tasks: seq<Task>, log: seq<Change>)

  /** `Outside` is an editor that knows nothing of the lock. */
  datatype Step =
    | Ask(tid: nat, req: Request)
    | Acquire(tid: nat)
    | ReadNext(tid: nat)
    | Prepare(tid: nat)
    | Write(tid: nat)
    | Abort(tid: nat)
    | Outside(graph: Graph)

  predicate HoldsLock(t: Task) {
    t.Holding? || t.Prepared?
  }

  // ----- the snapshot -----

  function Seen(reading: seq<Read>): seq<(Bytes, Bytes)> {
    seq(|reading|, k requires 0 <= k < |reading| => (reading[k].file, reading[k].contents))
  }

  /** The source graph a reading yields; a file read twice counts as it was last read. */
  function GraphOf(reading: seq<Read>): Graph {
    if reading == [] then map[]
    else
      var last := reading[|reading| - 1];
      GraphOf(reading[..|reading| - 1])[last.file := last.contents]
  }

  /** Where a file was last read. */
  function LastRead(reading: seq<Read>, f: Bytes): (k: nat)
    requires f in GraphOf(reading)
    ensures k < |reading| && reading[k].file == f && GraphOf(reading)[f] == reading[k].contents
    ensures forall j :: k < j < |reading| ==> reading[j].file != f
  {
    if reading[|reading| - 1].file == f then |reading| - 1 else LastRead(reading[..|reading| - 1], f)
  }

  /** The optimistic check of `prepare_patch_to_path`. */
  predicate RevisionMatches(sch: Scheme, req: Request, g: Graph)
    requires forall k :: k in sch.order(g.Keys) ==> k in g
  {
    req.expected.Some? ==> req.expected.value == RevisionOf(sch, g)
  }

  /** The check and the edit, once the reading is complete; a patch whose owner was not read is refused. */
  function Prepares(sch: Scheme, t: Task): Task
    requires t.Holding? && forall k :: k in sch.order(GraphOf(t.reading).Keys) ==> k in GraphOf(t.reading)
  {
    var base := GraphOf(t.reading);
    var edit := t.req.prepare(base);
    if RevisionMatches(sch, t.req, base) && edit.Some? && edit.value.0 in base
    then Prepared(t.req, t.reading, edit.value.0, edit.value.1)
    else Idle
  }

  function Reads(sch: Scheme, s: State, t: Task): Task
    requires t.Holding?
  {
    var next := sch.next(Seen(t.reading));
    if next.ReadFile? && next.file in s.disk
    then Holding(t.req, t.reading + [Read(next.file, s.disk[next.file], |s.log|)])
    else Idle
  }

  // ----- runs -----

  ghost predicate Enabled(sch: Scheme, s: State, step: Step) {
    match step
    case Ask(tid, _) => tid < |s.tasks| && s.tasks[tid].Idle?
    case Acquire(tid) =>
      tid < |s.tasks| && s.tasks[tid].Waiting? && forall j :: 0 <= j < |s.tasks| ==> !HoldsLock(s.tasks[j])
    case ReadNext(tid) => tid < |s.tasks| && s.tasks[tid].Holding? && !sch.next(Seen(s.tasks[tid].reading)).Done?
    case Prepare(tid) => tid < |s.tasks| && s.tasks[tid].Holding? && sch.next(Seen(s.tasks[tid].reading)).Done?
    case Write(tid) => tid < |s.tasks| && s.tasks[tid].Prepared?
    case Abort(tid) => tid < |s.tasks| && s.tasks[tid].Prepared?
    case Outside(_) => true
  }

  ghost function Apply(sch: Scheme, s: State, step: Step): State
    requires Enumerates(sch.order) && Enabled(sch, s, step)
  {
    match step
    case Ask(tid, req) => s.(tasks := s.tasks[tid := Waiting(req)])
    case Acquire(tid) => s.(tasks := s.tasks[tid := Holding(s.tasks[tid].req, [])])
    case ReadNext(tid) => s.(tasks := s.tasks[tid := Reads(sch, s, s.tasks[tid])])
    case Prepare(tid) => s.(tasks := s.tasks[tid := Prepares(sch, s.tasks[tid])])
    case Write(tid) =>
      var t := s.tasks[tid];
      State(s.disk[t.owner := t.contents], s.tasks[tid := Idle],
            s.log + [Commit(s.disk, t.req, t.reading, t.owner, t.contents)])
    case Abort(tid) => s.(tasks := s.tasks[tid := Idle])
    case Outside(graph) => s.(disk := graph, log := s.log + [Edit(s.disk, graph)])
  }

  ghost predicate IsRun(sch: Scheme, states: seq<State>, steps: seq<Step>) {
    && Enumerates(sch.order)
    && |states| == |steps| + 1
    && (forall j :: 0 <= j < |states[0].tasks| ==> states[0].tasks[j] == Idle)
    && states[0].log == []
    && forall i :: 0 <= i < |steps| ==> Enabled(sch, states[i], steps[i]) && states[i + 1] == Apply(sch, states[i], steps[i])
  }

  // ----- the invariant -----

  /** A read took what the disk held at that moment, of the file the scan asked for. */
  ghost predicate ReadOk(sch: Scheme, first: Graph, log: seq<Change>, reading: seq<Read>, k: nat, n: nat)
    requires n <= |log| && k < |reading|
  {
    && reading[k].at <= n
    && TextOf(DiskAt(first, log, reading[k].at), reading[k].file) == Some(reading[k].contents)
    && sch.next(Seen(reading[..k])) == ReadFile(reading[k].file)
  }

  /** A reading under the lock: each read is in order, and nothing but outside edits came since the first. */
  ghost predicate ReadingOk(sch: Scheme, first: Graph, log: seq<Change>, reading: seq<Read>, n: nat)
    requires n <= |log|
  {
    && (forall k :: 0 <= k < |reading| ==> ReadOk(sch, first, log, reading, k, n))
    && (forall j, k :: 0 <= j < k < |reading| ==> reading[j].at <= reading[k].at)
    && (forall j :: reading != [] && reading[0].at <= j < n ==> log[j].Edit?)
  }

  /** A complete reading, checked against the revision asked for, with the owner among its files. */
  ghost predicate BuiltOn(sch: Scheme, first: Graph, log: seq<Change>, req: Request, reading: seq<Read>, owner: Bytes, n: nat)
    requires Enumerates(sch.order) && n <= |log|
  {
    && ReadingOk(sch, first, log, reading, n)
    && sch.next(Seen(reading)).Done?
    && owner in GraphOf(reading)
    && RevisionMatches(sch, req, GraphOf(reading))
  }

  ghost predicate TaskOk(sch: Scheme, first: Graph, log: seq<Change>, t: Task)
    requires Enumerates(sch.order)
  {
    && (t.Holding? ==> ReadingOk(sch, first, log, t.reading, |log|))
    && (t.Prepared? ==> BuiltOn(sch, first, log, t.req, t.reading, t.owner, |log|))
  }

  ghost predicate ChangeOk(sch: Scheme, first: Graph, log: seq<Change>, i: nat)
    requires Enumerates(sch.order) && i < |log|
  {
    && log[i].found == DiskAt(first, log, i)
    && (log[i].Commit? ==> BuiltOn(sch, first, log, log[i].req, log[i].reading, log[i].owner, i))
  }

  ghost predicate Inv(sch: Scheme, first: Graph, s: State)
    requires Enumerates(sch.order)
  {
    && (forall i, j :: 0 <= i < j < |s.tasks| ==> !(HoldsLock(s.tasks[i]) && HoldsLock(s.tasks[j])))
    && (forall i :: 0 <= i < |s.tasks| ==> TaskOk(sch, first, s.log, s.tasks[i]))
    && (forall i :: 0 <= i < |s.log| ==> ChangeOk(sch, first, s.log, i))
    && s.disk == DiskAt(first, s.log, |s.log|)
  }

  lemma ReadingKept(sch: Scheme, first: Graph, log: seq<Change>, more: seq<Change>, reading: seq<Read>, n: nat)
    requires log <= more && n <= |log| && ReadingOk(sch, first, log, reading, n)
    ensures ReadingOk(sch, first, more, reading, n)
  {
    assert forall m :: 0 <= m <= |log| ==> DiskAt(first, more, m) == DiskAt(first, log, m);
    forall k | 0 <= k < |reading|
      ensures ReadOk(sch, first, more, reading, k, n)
    {
      assert ReadOk(sch, first, log, reading, k, n);
    }
  }

  lemma LogExtends(sch: Scheme, first: Graph, log: seq<Change>, c: Change)
    requires Enumerates(sch.order) && (forall i :: 0 <= i < |log| ==> ChangeOk(sch, first, log, i))
    requires c.found == DiskAt(first, log, |log|)
    requires c.Commit? ==> BuiltOn(sch, first, log, c.req, c.reading, c.owner, |log|)
    ensures forall i :: 0 <= i < |log + [c]| ==> ChangeOk(sch, first, log + [c], i)
  {
    var more := log + [c];
    assert forall n :: 0 <= n <= |log| ==> DiskAt(first, more, n) == DiskAt(first, log, n);
    forall i | 0 <= i < |more|
      ensures ChangeOk(sch, first, more, i)
    {
      if i < |log| {
        assert more[i] == log[i] && ChangeOk(sch, first, log, i);
      }
      if more[i].Commit? {
        ReadingKept(sch, first, log, more, more[i].reading, i);
      }
    }
  }

  /** An outside edit leaves a reading under way in order. */
  lemma EditKeepsTask(sch: Scheme, first: Graph, log: seq<Change>, c: Change, t: Task)
    requires Enumerates(sch.order) && TaskOk(sch, first, log, t) && c.Edit?
    ensures TaskOk(sch, first, log + [c], t)
  {
    if HoldsLock(t) {
      var more := log + [c];
      ReadingKept(sch, first, log, more, t.reading, |log|);
      forall k | 0 <= k < |t.reading|
        ensures ReadOk(sch, first, more, t.reading, k, |more|)
      {
        assert ReadOk(sch, first, more, t.reading, k, |log|);
      }
    }
  }

  lemma ReadKeepsTask(sch: Scheme, first: Graph, s: State, t: Task)
    requires Enumerates(sch.order) && t.Holding? && TaskOk(sch, first, s.log, t) && s.disk == DiskAt(first, s.log, |s.log|)
    ensures TaskOk(sch, first, s.log, Reads(sch, s, t))
  {
    var t' := Reads(sch, s, t);
    if t'.Holding? {
      forall k | 0 <= k < |t'.reading|
        ensures ReadOk(sch, first, s.log, t'.reading, k, |s.log|)
      {
        assert t'.reading[..k] == t.reading[..k];
        if k < |t.reading| {
          assert ReadOk(sch, first, s.log, t.reading, k, |s.log|);
        } else {
          assert t.reading[..k] == t.reading;
        }
      }
      forall k | 0 <= k < |t.reading|
        ensures t.reading[k].at <= |s.log|
      {
        assert ReadOk(sch, first, s.log, t.reading, k, |s.log|);
      }
    }
  }

  lemma StepInv(sch: Scheme, first: Graph, s: State, step: Step)
    requires Enumerates(sch.order) && Inv(sch, first, s) && Enabled(sch, s, step)
    ensures Inv(sch, first, Apply(sch, s, step))
  {
    hide ReadingOk, RevisionMatches;
    if step.Write? {
      var t := s.tasks[step.tid];
      assert TaskOk(sch, first, s.log, t);
      LogExtends(sch, first, s.log, Commit(s.disk, t.req, t.reading, t.owner, t.contents));
      assert HoldsLock(t);
      assert forall i :: 0 <= i < |s.tasks| && i != step.tid ==> !HoldsLock(s.tasks[i]);
    } else if step.Outside? {
      LogExtends(sch, first, s.log, Edit(s.disk, step.graph));
      forall i | 0 <= i < |s.tasks|
        ensures TaskOk(sch, first, Apply(sch, s, step).log, s.tasks[i])
      {
        EditKeepsTask(sch, first, s.log, Edit(s.disk, step.graph), s.tasks[i]);
      }
    } else {
      TaskStepInv(sch, first, s, step);
    }
  }

  lemma TaskStepInv(sch: Scheme, first: Graph, s: State, step: Step)
    requires Enumerates(sch.order) && Inv(sch, first, s) && Enabled(sch, s, step) && !step.Write? && !step.Outside?
    ensures Inv(sch, first, Apply(sch, s, step))
  {
    hide RevisionMatches;
    var s' := Apply(sch, s, step);
    assert TaskOk(sch, first, s.log, s.tasks[step.tid]);
    if step.ReadNext? {
      ReadKeepsTask(sch, first, s, s.tasks[step.tid]);
    }
    assert s'.log == s.log && s'.disk == s.disk;
    assert forall i :: 0 <= i < |s.tasks| && i != step.tid ==> s'.tasks[i] == s.tasks[i];
    assert TaskOk(sch, first, s.log, s'.tasks[step.tid]);
  }

  lemma {:induction false} RunInv(sch: Scheme, states: seq<State>, steps: seq<Step>, i: nat)
    requires IsRun(sch, states, steps) && i < |states|
    ensures Inv(sch, states[0].disk, states[i])
  {
    hide Apply, Enabled;
    if i > 0 {
      RunInv(sch, states, steps, i - 1);
      StepInv(sch, states[0].disk, states[i - 1], steps[i - 1]);
    }
  }

  // ----- what commits overwrite -----

  /** No lost updates between commits, outside edits or not. Every change starts from what the one before it left. A
      commit's files are each the disk's at the moment that file was read; since the first of these reads no other
      commit came, and the commit changes its owner file only. */
  lemma CommitsNeverOverwriteUnseen(sch: Scheme, states: seq<State>, steps: seq<Step>, n: nat, i: nat, f: Bytes)
    requires IsRun(sch, states, steps) && n < |states| && i < |states[n].log|
    ensures
      var first, log := states[0].disk, states[n].log;
      var c := log[i];
      && states[n].disk == DiskAt(first, log, |log|) && c.found == DiskAt(first, log, i)
      && (c.Commit? ==>
            && c.owner in GraphOf(c.reading)
            && (f in GraphOf(c.reading) ==>
                  var k := c.reading[LastRead(c.reading, f)].at;
                  k <= i && TextOf(DiskAt(first, log, k), f) == Some(GraphOf(c.reading)[f]))
            && (forall j :: c.reading[0].at <= j < i ==> log[j].Edit?)
            && (f != c.owner ==> TextOf(ResultOf(c), f) == TextOf(c.found, f)))
  {
    RunInv(sch, states, steps, n);
    var first, log := states[0].disk, states[n].log;
    assert ChangeOk(sch, first, log, i);
    if log[i].Commit? && f in GraphOf(log[i].reading) {
      assert ReadOk(sch, first, log, log[i].reading, LastRead(log[i].reading, f), i);
    }
  }

  /** Change `j` is an outside edit of file `f`. */
  predicate Touches(log: seq<Change>, j: nat, f: Bytes)
    requires j < |log|
  {
    log[j].Edit? && TextOf(log[j].found, f) != TextOf(log[j].result, f)
  }

  /** Of the changes from `from` to `to`, the last outside edit of `f` is `j`, and it left the file other than `text`. */
  predicate LastEditLeaves(log: seq<Change>, from: nat, to: nat, j: nat, f: Bytes, text: Option<Bytes>)
    requires to <= |log|
  {
    && from <= j < to && Touches(log, j, f)
    && (forall m :: j < m < to ==> !Touches(log, m, f))
    && TextOf(log[j].result, f) != text
  }

  /** Between the read of file `f` and change `to`, the last outside edit of the file left it other than it was read. */
  ghost predicate EditedAfterRead(log: seq<Change>, reading: seq<Read>, f: Bytes, to: nat)
    requires to <= |log| && f in GraphOf(reading)
  {
    var r := reading[LastRead(reading, f)];
    exists j: nat :: LastEditLeaves(log, r.at, to, j, f, Some(r.contents))
  }

  lemma {:induction false} Untouched(sch: Scheme, first: Graph, log: seq<Change>, from: nat, to: nat, f: Bytes)
    requires Enumerates(sch.order) && from <= to <= |log|
    requires forall i :: 0 <= i < |log| ==> ChangeOk(sch, first, log, i)
    requires forall j :: from <= j < to ==> log[j].Edit? && !Touches(log, j, f)
    ensures TextOf(DiskAt(first, log, to), f) == TextOf(DiskAt(first, log, from), f)
  {
    if from < to {
      Untouched(sch, first, log, from, to - 1, f);
      assert ChangeOk(sch, first, log, to - 1) && !Touches(log, to - 1, f);
    }
  }

  lemma {:induction false} LastTouch(log: seq<Change>, from: nat, to: nat, f: Bytes) returns (j: nat)
    requires from <= to <= |log| && exists m :: from <= m < to && Touches(log, m, f)
    ensures from <= j < to && Touches(log, j, f) && forall m :: j < m < to ==> !Touches(log, m, f)
  {
    if Touches(log, to - 1, f) {
      j := to - 1;
    } else {
      j := LastTouch(log, from, to - 1, f);
    }
  }

  /** Over a stretch of outside edits a file ends up different if and only if the last edit of it left it so. */
  lemma ChangedIff(sch: Scheme, first: Graph, log: seq<Change>, from: nat, to: nat, f: Bytes)
    requires Enumerates(sch.order) && from <= to <= |log|
    requires forall i :: 0 <= i < |log| ==> ChangeOk(sch, first, log, i)
    requires forall j :: from <= j < to ==> log[j].Edit?
    ensures
      var text := TextOf(DiskAt(first, log, from), f);
      TextOf(DiskAt(first, log, to), f) != text <==> exists j: nat :: LastEditLeaves(log, from, to, j, f, text)
  {
    var text := TextOf(DiskAt(first, log, from), f);
    if exists m :: from <= m < to && Touches(log, m, f) {
      var j := LastTouch(log, from, to, f);
      Untouched(sch, first, log, j + 1, to, f);
      if TextOf(DiskAt(first, log, to), f) != text {
        assert LastEditLeaves(log, from, to, j, f, text);
      }
      forall m: nat | LastEditLeaves(log, from, to, m, f, text)
        ensures m == j
      {
      }
    } else {
      Untouched(sch, first, log, from, to, f);
    }
  }

  /** A commit replaces owner contents it had not seen. */
  predicate OverwritesUnseen(c: Change)
    requires c.Commit?
  {
    TextOf(c.found, c.owner) != TextOf(GraphOf(c.reading), c.owner)
  }

  /** A commit overwrites owner contents it had not seen if and only if, between its read of that file and its write,
      the last outside edit of the file left it other than it was read. */
  lemma OnlyOutsideEditsAreLost(sch: Scheme, states: seq<State>, steps: seq<Step>, n: nat, i: nat)
    requires IsRun(sch, states, steps) && n < |states| && i < |states[n].log| && states[n].log[i].Commit?
    ensures
      var log, c := states[n].log, states[n].log[i];
      && c.owner in GraphOf(c.reading)
      && (OverwritesUnseen(c) <==> EditedAfterRead(log, c.reading, c.owner, i))
  {
    RunInv(sch, states, steps, n);
    var first, log := states[0].disk, states[n].log;
    var c := log[i];
    assert ChangeOk(sch, first, log, i);
    var k := LastRead(c.reading, c.owner);
    assert ReadOk(sch, first, log, c.reading, k, i);
    assert c.reading[0].at <= c.reading[k].at;
    ChangedIff(sch, first, log, c.reading[k].at, i, c.owner);
  }

  // ----- what a snapshot is worth -----

  /** The files of a graph are all on the disk as the graph has them. */
  ghost predicate Agrees(g: Graph, disk: Graph) {
    forall f :: f in g ==> TextOf(disk, f) == Some(g[f])
  }

  /** A snapshot agrees with the disk at its last read if and only if no file of it was read before an outside edit
      that, as the last edit of that file, left it different. */
  lemma SnapshotIsTrueIff(sch: Scheme, states: seq<State>, steps: seq<Step>, n: nat, i: nat)
    requires IsRun(sch, states, steps) && n < |states| && i < |states[n].log| && states[n].log[i].Commit?
    ensures
      var first, log, reading := states[0].disk, states[n].log, states[n].log[i].reading;
      && reading != [] && reading[|reading| - 1].at <= i
      && (Agrees(GraphOf(reading), DiskAt(first, log, reading[|reading| - 1].at)) <==>
            forall f :: f in GraphOf(reading) ==> !EditedAfterRead(log, reading, f, reading[|reading| - 1].at))
  {
    RunInv(sch, states, steps, n);
    var first, log := states[0].disk, states[n].log;
    assert ChangeOk(sch, first, log, i);
    var reading := log[i].reading;
    var z := reading[|reading| - 1].at;
    assert ReadOk(sch, first, log, reading, |reading| - 1, i);
    forall f | f in GraphOf(reading)
      ensures TextOf(DiskAt(first, log, z), f) != Some(GraphOf(reading)[f]) <==> EditedAfterRead(log, reading, f, z)
    {
      var k := LastRead(reading, f);
      assert ReadOk(sch, first, log, reading, k, i);
      assert reading[0].at <= reading[k].at <= z;
      ChangedIff(sch, first, log, reading[k].at, z, f);
    }
  }

  /** With no edit between its reads, a commit was built on the disk as it was: its reading is the one the scan makes
      of that disk, file by file. */
  lemma UndisturbedSnapshot(sch: Scheme, states: seq<State>, steps: seq<Step>, n: nat, i: nat, k: nat)
    requires IsRun(sch, states, steps) && n < |states| && i < |states[n].log| && states[n].log[i].Commit?
    requires k < |states[n].log[i].reading|
    requires states[n].log[i].reading[0].at == states[n].log[i].reading[|states[n].log[i].reading| - 1].at
    ensures
      var first, log, reading := states[0].disk, states[n].log, states[n].log[i].reading;
      && reading[0].at <= i && reading[k].at == reading[0].at
      && sch.next(Seen(reading[..k])) == ReadFile(reading[k].file) && sch.next(Seen(reading)).Done?
      && TextOf(DiskAt(first, log, reading[0].at), reading[k].file) == Some(reading[k].contents)
      && Agrees(GraphOf(reading), DiskAt(first, log, reading[0].at))
  {
    RunInv(sch, states, steps, n);
    var first, log := states[0].disk, states[n].log;
    assert ChangeOk(sch, first, log, i);
    var reading := log[i].reading;
    assert ReadOk(sch, first, log, reading, k, i) && ReadOk(sch, first, log, reading, 0, i);
    forall f | f in GraphOf(reading)
      ensures TextOf(DiskAt(first, log, reading[0].at), f) == Some(GraphOf(reading)[f])
    {
      var m := LastRead(reading, f);
      assert ReadOk(sch, first, log, reading, m, i);
      assert reading[0].at <= reading[m].at <= reading[|reading| - 1].at;
    }
  }

  /** With a collision-free hash, a commit that named a revision was built on the one graph that has it. */
  lemma NamedRevisionIsTheBase(sch: Scheme, states: seq<State>, steps: seq<Step>, n: nat, i: nat, g: Graph)
    requires IsRun(sch, states, steps) && n < |states| && CollisionFree(sch)
    requires i < |states[n].log| && states[n].log[i].Commit? && SizedGraph(GraphOf(states[n].log[i].reading)) && SizedGraph(g)
    requires states[n].log[i].req.expected == Some(RevisionOf(sch, g))
    ensures GraphOf(states[n].log[i].reading) == g
  {
    RunInv(sch, states, steps, n);
    assert ChangeOk(sch, states[0].disk, states[n].log, i);
    ManifestInjective(sch.order, GraphOf(states[n].log[i].reading), g);
  }

  /** Two commits that named one revision were built on one graph; the second read every file of it after the first
      commit, so each file had come back to what the first was built on. */
  lemma SameRevisionMeansRestored(sch: Scheme, states: seq<State>, steps: seq<Step>, n: nat, i: nat, j: nat, f: Bytes)
    requires IsRun(sch, states, steps) && n < |states| && CollisionFree(sch)
    requires i < j < |states[n].log| && states[n].log[i].Commit? && states[n].log[j].Commit?
    requires SizedGraph(GraphOf(states[n].log[i].reading)) && SizedGraph(GraphOf(states[n].log[j].reading))
    requires states[n].log[i].req.expected.Some? && states[n].log[i].req.expected == states[n].log[j].req.expected
    requires f in GraphOf(states[n].log[i].reading)
    ensures
      var first, log := states[0].disk, states[n].log;
      && GraphOf(log[j].reading) == GraphOf(log[i].reading)
      && i < log[j].reading[LastRead(log[j].reading, f)].at <= j
      && TextOf(DiskAt(first, log, log[j].reading[LastRead(log[j].reading, f)].at), f) == Some(GraphOf(log[i].reading)[f])
  {
    RunInv(sch, states, steps, n);
    var first, log := states[0].disk, states[n].log;
    assert ChangeOk(sch, first, log, i) && ChangeOk(sch, first, log, j);
    ManifestInjective(sch.order, GraphOf(log[i].reading), GraphOf(log[j].reading));
    var k := LastRead(log[j].reading, f);
    assert ReadOk(sch, first, log, log[j].reading, k, j);
    assert log[j].reading[0].at <= log[j].reading[k].at;
  }
}
