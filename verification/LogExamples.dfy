/** Runs of the log appender: a size that misses a failed write, a rotation that loses a record, and a log that
    stays shut. */
module LogExamples {
  import opened LogFiles
  import opened LogDecisions
  import opened LogAppender
  import opened Wrappers

  /** Every operation succeeds but the write, which goes as given. */
  function Obliging(putting: Putting): Answers {
    Answers(true, Opens, true, true, Opens, true, (n: string) => true, putting)
  }

  /** One byte of a failed write stays in the file; the next write succeeds, and the size is one short. */
  method SizeMissesAFailedWrite(period: nat -> string, stamp: nat -> string)
      returns (log: BoundedFileAppender, first: bool, second: bool)
    ensures log.Valid() && !first && second
    ensures log.isOpen && log.currentSize == 1 && Size(log.files[log.currentPath]) == 2
    ensures log.trail == [Outcome(false, 1), Outcome(false, 0)] && !NothingLeft(log.trail)
  {
    log := new BoundedFileAppender(Options(Never, 0, 0, 0), "log", period, stamp, map[], 0, 0, true, n => true);
    first := log.Write([7, 7], 0, Obliging(Cut(1)));
    second := log.Write([7], 0, Obliging(Whole));
  }

  /** A log and every archive name of one stamp, the overflow file among them with a record in it. */
  function CrowdedDirectory(stamp: string): Directory {
    (map n: nat | n < 1000 :: ArchiveName("log", stamp, n) := LogFile([], 0))
    + map[OverflowName("log", stamp) := LogFile([Record(0, [1])], 0)]
    + map["log" := LogFile([Record(1, [2])], 0)]
  }

  lemma Crowded(stamp: string)
    ensures
      var dir := CrowdedDirectory(stamp);
      && OnePlaceEach(dir, 2) && !HasRoom(dir, "log", stamp)
      && "log" in dir && Size(dir["log"]) == 1
  {
    var dir := CrowdedDirectory(stamp);
    assert |OverflowName("log", stamp)| > |"log"|;
    assert dir["log"].records[..0] == [];
    forall n | 0 <= n < 1000
      ensures ArchiveName("log", stamp, n) in dir
    {
    }
    forall n, i, r | Holds(dir, n, i, r)
      ensures i == 0 && r.id < 2 && (r.id == 0 ==> n == OverflowName("log", stamp)) && (r.id == 1 ==> n == "log")
    {
    }
  }

  /** In such a directory a write that rotates succeeds and loses a record. */
  method OverflowLosesARecord(period: nat -> string, stamp: nat -> string) returns (log: BoundedFileAppender, ok: bool)
    ensures log.Valid() && ok && log.overwrote
    ensures exists n, i, r :: Holds(CrowdedDirectory(stamp(0)), n, i, r) && !Stored(log.files, r)
  {
    Crowded(stamp(0));
    log := new BoundedFileAppender(Options(Never, 1, 0, 0), "log", period, stamp, CrowdedDirectory(stamp(0)), 2, 0, true, n => true);
    ok := log.Write([3], 0, Obliging(Whole));
  }

  datatype Request = Request(buf: seq<Byte>, now: nat, fs: Answers)

  /** A log whose file could not be opened stays shut for the rest of its period: as long as the size it last knew
      calls for no rotation, every write fails, whatever the file system answers. */
  method ClosedLogStaysShut(log: BoundedFileAppender, calls: seq<Request>) returns (results: seq<bool>)
    requires log.Valid() && !log.isOpen
    requires forall i :: 0 <= i < |calls| ==>
      log.ActivePath(calls[i].now) == log.currentPath
      && (log.options.maxSizeBytes == 0 || log.currentSize == 0
          || log.currentSize + |calls[i].buf| <= log.options.maxSizeBytes)
    modifies log
    ensures log.Valid() && !log.isOpen && log.currentPath == old(log.currentPath) && log.currentSize == old(log.currentSize)
    ensures |results| == |calls| && forall i :: 0 <= i < |results| ==> !results[i]
  {
    results := [];
    for i := 0 to |calls|
      invariant log.Valid() && !log.isOpen
      invariant log.currentPath == old(log.currentPath) && log.currentSize == old(log.currentSize)
      invariant |results| == i && forall j :: 0 <= j < i ==> !results[j]
    {
      var ok := log.Write(calls[i].buf, calls[i].now, calls[i].fs);
      results := results + [ok];
    }
  }

  /** The period turns, the new file cannot be opened, and the write fails. The file system then obliges, yet the
      next write of that period fails too: the log is shut. */
  method FailedOpeningShutsTheLog(stamp: nat -> string) returns (log: BoundedFileAppender, first: bool, second: bool)
    ensures log.Valid() && !log.isOpen && !first && !second
  {
    hide BoundedFileAppender.Valid, Keeps, InAgeAll, OthersKept, HasRoom, MovesAside, NothingLeft;
    log := new BoundedFileAppender(Options(Daily, 0, 0, 0), "log", (n: nat) => Digits(n), stamp, map[], 0, 0, true, n => true);
    assert log.ActivePath(0)[4] == '0' && log.ActivePath(1)[4] == '1';
    first := log.Write([7], 1, Obliging(Whole).(opening := Fails(false)));
    second := log.Write([7], 1, Obliging(Whole));
  }
}
