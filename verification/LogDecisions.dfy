/** What one log write decides, from the log it finds and the file system's answers: whether it switches to a new
    period, rotates for size, opens a file, reaches the write and succeeds, and what it leaves behind. */
module LogDecisions {
  import opened LogFiles
  import opened Wrappers

  const CLEANUP_INTERVAL_SECS: nat := 60
  /** Offsets are signed 64-bit: no file grows past this. */
  const MAX_FILE_SIZE: nat := 0x7FFF_FFFF_FFFF_FFFF

  datatype Rotation = Never | Minutely | Hourly | Daily | Weekly

  type U64 = n: nat | n <= U64_MAX

  datatype Options = Options(rotation: Rotation, maxSizeBytes: U64, maxFiles: nat, maxAgeSecs: nat)

  datatype Opening = Opens | Fails(created: bool)

  datatype Putting = Whole | Cut(bytes: nat)

  /** What the file system answers during one write. */
  datatype Answers = Answers(closes: bool, opening: Opening, closesAgain: bool, renames: bool, reopening: Opening,
                             lists: bool, removes: string -> bool, putting: Putting)

  /** The part of the appender a write's course depends on. */
  datatype Log = Log(files: Directory, path: string, size: nat, isOpen: bool)

  /** One call of `write`: the active path of its instant, its length, the size limit and the answers it gets. */
  datatype Call = Call(active: string, incoming: nat, limit: U64, fs: Answers)

  function SatAdd(a: nat, b: nat): nat {
    if a + b <= U64_MAX then a + b else U64_MAX
  }

  function Max(a: nat, b: nat): nat {
    if a < b then b else a
  }

  function LengthIn(dir: Directory, name: string): nat {
    if name in dir then Size(dir[name]) else 0
  }

  /** The size rule. */
  predicate OverLimit(limit: U64, size: nat, incoming: nat) {
    limit > 0 && size > 0 && SatAdd(size, incoming) > limit
  }

  /** The period is the same, or its new file could be opened. */
  predicate Refreshes(log: Log, c: Call) {
    c.active == log.path || ((log.isOpen ==> c.fs.closes) && c.fs.opening.Opens?)
  }

  /** The size the appender goes by once the path is refreshed. */
  function SizeThen(log: Log, c: Call): nat {
    if c.active == log.path then log.size else LengthIn(log.files, c.active)
  }

  predicate Rotates(log: Log, c: Call) {
    OverLimit(c.limit, SizeThen(log, c), c.incoming)
  }

  /** In numbers: there is a limit below the largest 64-bit number, and the size gone by is positive and exceeds it
      together with what comes in. */
  lemma RotatesIff(log: Log, c: Call)
    ensures
      var size := if c.active == log.path then log.size else LengthIn(log.files, c.active);
      Rotates(log, c) <==> 0 < c.limit < U64_MAX && size > 0 && size + c.incoming > c.limit
  {
  }

  predicate OpenThen(log: Log, c: Call) {
    log.isOpen || c.active != log.path
  }

  /** The active file is renamed to an archive. */
  predicate MovesAside(log: Log, c: Call) {
    && Refreshes(log, c) && Rotates(log, c)
    && (OpenThen(log, c) ==> c.fs.closesAgain) && c.active in log.files && c.fs.renames
  }

  /** Nothing before the write itself fails. */
  predicate Prepares(log: Log, c: Call) {
    && Refreshes(log, c)
    && (Rotates(log, c) ==>
          (OpenThen(log, c) ==> c.fs.closesAgain) && (c.active in log.files ==> c.fs.renames) && c.fs.reopening.Opens?)
  }

  /** The call opens the file it writes to. */
  predicate OpensFile(log: Log, c: Call) {
    Prepares(log, c) && (c.active != log.path || Rotates(log, c))
  }

  predicate ReachesPut(log: Log, c: Call) {
    Prepares(log, c) && (log.isOpen || c.active != log.path || Rotates(log, c))
  }

  function SizeAtPut(log: Log, c: Call): nat {
    if Rotates(log, c) then 0 else SizeThen(log, c)
  }

  /** The length of the file the call writes to. */
  function LengthAtPut(log: Log, c: Call): nat {
    if Rotates(log, c) then 0 else LengthIn(log.files, c.active)
  }

  predicate PutSucceeds(putting: Putting, length: nat, incoming: nat) {
    putting.Whole? && length + incoming <= MAX_FILE_SIZE
  }

  predicate Succeeds(log: Log, c: Call) {
    ReachesPut(log, c) && PutSucceeds(c.fs.putting, LengthAtPut(log, c), c.incoming)
  }

  /** What a failed write puts into the file before it fails. */
  function CutBytes(putting: Putting, incoming: nat): (n: nat)
    ensures n <= incoming
  {
    if putting.Whole? then 0 else if putting.bytes < incoming then putting.bytes else incoming
  }

  function LeftBy(log: Log, c: Call): nat {
    if ReachesPut(log, c) && !Succeeds(log, c) then CutBytes(c.fs.putting, c.incoming) else 0
  }

  /** A call that writes without opening a file found the log open. */
  lemma PutMeansOpen(log: Log, c: Call)
    ensures ReachesPut(log, c) && !OpensFile(log, c) ==> log.isOpen
  {
  }

  // ----- recorded outcomes -----

  /** Of one call: whether it opened the file, and the bytes it left in it by failing. */
  datatype Outcome = Outcome(freshFile: bool, left: nat)

  function OutcomeOf(log: Log, c: Call): Outcome {
    Outcome(OpensFile(log, c), LeftBy(log, c))
  }

  /** The latest call that opened the file, or the first call of all. */
  function LastOpening(trail: seq<Outcome>): (k: nat)
    ensures k <= |trail|
    ensures k < |trail| ==> k == 0 || trail[k].freshFile
    ensures forall j :: k < j < |trail| ==> !trail[j].freshFile
  {
    if |trail| <= 1 then 0
    else if trail[|trail| - 1].freshFile then |trail| - 1
    else LastOpening(trail[..|trail| - 1])
  }

  /** No call since the file was opened, the opening one included, left bytes behind. */
  ghost predicate NothingLeft(trail: seq<Outcome>) {
    forall i :: LastOpening(trail) <= i < |trail| ==> trail[i].left == 0
  }

  function LeftSinceOpening(trail: seq<Outcome>): nat {
    if trail == [] then 0
    else
      var last := trail[|trail| - 1];
      if last.freshFile then last.left else LeftSinceOpening(trail[..|trail| - 1]) + last.left
  }

  lemma LeftPush(trail: seq<Outcome>, o: Outcome)
    ensures LeftSinceOpening(trail + [o]) == (if o.freshFile then 0 else LeftSinceOpening(trail)) + o.left
  {
    assert (trail + [o])[..|trail|] == trail;
  }

  lemma {:induction false} NothingLeftIffZero(trail: seq<Outcome>)
    ensures LeftSinceOpening(trail) == 0 <==> NothingLeft(trail)
  {
    if trail != [] {
      var front, n := trail[..|trail| - 1], |trail| - 1;
      NothingLeftIffZero(front);
      if !trail[n].freshFile {
        if n > 0 {
          assert LastOpening(trail) == LastOpening(front);
          assert forall i :: 0 <= i < n ==> trail[i] == front[i];
        } else {
          assert front == [];
        }
      }
    }
  }

  // ----- the verdict spelled out -----

  /** A write succeeds if and only if the file system agrees to everything its course needs: to close the old period's
      file and open the new one's when the period has changed, to close, rename and reopen when the size calls for it,
      and to write all of it into an open file within the signed 64-bit range. */
  lemma SucceedsIff(log: Log, c: Call)
    ensures
      var switches := c.active != log.path;
      var length := LengthIn(log.files, c.active);
      var size := if switches then length else log.size;
      var rotates := 0 < c.limit < U64_MAX && size > 0 && size + c.incoming > c.limit;
      Succeeds(log, c) <==>
        && (switches ==> (log.isOpen ==> c.fs.closes) && c.fs.opening.Opens?)
        && (rotates ==>
              (log.isOpen || switches ==> c.fs.closesAgain) && (c.active in log.files ==> c.fs.renames) && c.fs.reopening.Opens?)
        && (log.isOpen || switches || rotates)
        && c.fs.putting.Whole? && (if rotates then 0 else length) + c.incoming <= 0x7FFF_FFFF_FFFF_FFFF
  {
    RotatesIff(log, c);
  }

  /** A file is archived if and only if the size calls for it, the file is there, and the file system agrees to what
      comes before: the switch of period if there is one, closing an open file, and the rename. */
  lemma MovesAsideIff(log: Log, c: Call)
    ensures
      var switches := c.active != log.path;
      var size := if switches then LengthIn(log.files, c.active) else log.size;
      MovesAside(log, c) <==>
        && c.active in log.files && size > 0 && 0 < c.limit < U64_MAX && size + c.incoming > c.limit
        && (switches ==> (log.isOpen ==> c.fs.closes) && c.fs.opening.Opens?)
        && (log.isOpen || switches ==> c.fs.closesAgain) && c.fs.renames
  {
    RotatesIff(log, c);
  }

  /** A write that fits the open file of the same period goes straight into it. */
  lemma FittingWrite(log: Log, c: Call)
    requires log.isOpen && c.active == log.path && log.path in log.files
    requires c.limit == 0 || log.size == 0 || log.size + c.incoming <= c.limit
    ensures !Rotates(log, c) && ReachesPut(log, c) && LengthAtPut(log, c) == Size(log.files[log.path])
    ensures Succeeds(log, c) <==>
      c.fs.putting.Whole? && Size(log.files[log.path]) + c.incoming <= 0x7FFF_FFFF_FFFF_FFFF
  {
    RotatesIff(log, c);
    SucceedsIff(log, c);
  }

  /** What is archived for its size exceeds the limit together with what comes in. */
  lemma ArchivedForSize(log: Log, c: Call)
    requires MovesAside(log, c)
    ensures
      var size := if c.active == log.path then log.size else LengthIn(log.files, c.active);
      size > 0 && 0 < c.limit < size + c.incoming
  {
    RotatesIff(log, c);
  }

  // ----- a closed log -----

  /** A log that is not open writes again exactly by opening the file of a new period, or, in the same period, when
      the size it last knew makes it rotate. */
  lemma ClosedLogReopensIff(log: Log, c: Call)
    requires !log.isOpen
    ensures ReachesPut(log, c) <==>
      && (c.active != log.path ==> c.fs.opening.Opens?)
      && (c.active == log.path ==> 0 < c.limit < U64_MAX && log.size > 0 && log.size + c.incoming > c.limit)
      && (Rotates(log, c) ==>
            (c.active != log.path ==> c.fs.closesAgain) && (c.active in log.files ==> c.fs.renames) && c.fs.reopening.Opens?)
  {
  }
}
