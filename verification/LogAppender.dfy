/** The bounded log appender: time rotation, size rotation, retention, and the write itself, over a directory
    whose operations may each fail. */
module LogAppender {
  import opened LogFiles
  import opened LogDecisions
  import opened LogRetention
  import opened Wrappers

  // ----- one step on the directory -----

  /** Opening for append creates a missing file; it can also fail after creating it. */
  function Touched(dir: Directory, name: string, opening: Opening, now: nat): Directory {
    if name in dir || opening == Fails(false) then dir else dir[name := LogFile([], now)]
  }

  /** Files that do not carry the log's name are left alone. */
  ghost predicate OthersKept(before: Directory, after: Directory, base: string) {
    forall n :: n in before && !NamesActive(base, n) ==> n in after && after[n] == before[n]
  }

  lemma OthersKeptTrans(a: Directory, b: Directory, c: Directory, base: string)
    requires OthersKept(a, b, base) && OthersKept(b, c, base)
    ensures OthersKept(a, c, base)
  {
  }

  lemma TouchedKeeps(dir: Directory, name: string, opening: Opening, now: nat, nextId: nat, base: string)
    requires OnePlaceEach(dir, nextId) && NamesActive(base, name)
    ensures
      var after := Touched(dir, name, opening, now);
      SameRecords(dir, after) && OnePlaceEach(after, nextId) && OthersKept(dir, after, base)
  {
    if name in dir || opening == Fails(false) {
      KeepsSelf(dir);
    } else {
      OpenKeeps(dir, name, now, nextId);
    }
  }

  /** An empty file at the active path is no archive. */
  lemma TouchedRoom(dir: Directory, name: string, opening: Opening, now: nat, stamp: string)
    ensures HasRoom(Touched(dir, name, opening, now), name, stamp) <==> HasRoom(dir, name, stamp)
  {
    var after := Touched(dir, name, opening, now);
    assert forall n :: 0 <= n < 1000 ==> |ArchiveName(name, stamp, n)| > |name|;
    assert |OverflowName(name, stamp)| > |name|;
    assert FreeSlot(after, name, stamp) <==> FreeSlot(dir, name, stamp);
  }

  lemma RotatedKeeps(dir: Directory, current: string, stamp: string, archive: string, nextId: nat, base: string)
    requires OnePlaceEach(dir, nextId) && NamesActive(base, current) && current in dir
    requires IsArchivePath(dir, current, stamp, archive)
    ensures
      var after := Renamed(dir, current, archive);
      && archive != current && current !in after
      && OnePlaceEach(after, nextId) && OthersKept(dir, after, base)
      && (Keeps(dir, after) <==> HasRoom(dir, current, stamp))
  {
    var tail :| archive == current + "." + tail;
    ArchivesMatch(base, current, tail);
    ArchiveKeepsIff(dir, current, stamp, archive, nextId);
    RenameOnePlace(dir, current, archive, nextId);
  }

  lemma AppendedKeeps(dir: Directory, name: string, r: Record, now: nat, base: string)
    requires OnePlaceEach(dir, r.id) && NamesActive(base, name) && name in dir
    ensures
      var after := Appended(dir, name, r, now);
      && Keeps(dir, after) && OnePlaceEach(after, r.id + 1) && OthersKept(dir, after, base) && Stored(after, r)
      && Size(after[name]) == Size(dir[name]) + |r.data|
      && Matching(after, base, name) == Matching(dir, base, name)
      && Archives(after, base, name) == Archives(dir, base, name)
  {
    AppendKeeps(dir, name, r, now);
    BytesAppend(dir[name].records, r);
  }

  lemma RemovalKeeps(dir: Directory, gone: set<string>, nextId: nat, base: string)
    requires OnePlaceEach(dir, nextId) && forall n :: n in gone ==> StartsWith(n, base + ".")
    ensures OnePlaceEach(dir - gone, nextId) && OthersKept(dir, dir - gone, base) && Keeps(dir - gone, dir)
  {
    forall n, i, r | Holds(dir - gone, n, i, r)
      ensures Holds(dir, n, i, r)
    {
    }
  }

  /** What retention asks to delete from a directory. */
  ghost predicate Retires(dir: Directory, base: string, current: string, options: Options, now: nat, gone: set<string>) {
    IsRetention(Archives(dir, base, current), if current in dir then 1 else 0, options.maxFiles, options.maxAgeSecs, now, gone)
  }

  ghost predicate InAgeAll(dir: Directory, base: string, current: string, maxAge: nat, now: nat) {
    var times := Archives(dir, base, current);
    maxAge > 0 ==> forall n :: n in times ==> times[n] + maxAge >= now
  }

  function Removed(gone: set<string>, removes: string -> bool): set<string> {
    set n | n in gone && removes(n)
  }

  lemma AllRemoved(gone: set<string>, removes: string -> bool)
    requires forall n :: removes(n)
    ensures Removed(gone, removes) == gone
  {
  }

  lemma CleanupKeeps(dir: Directory, base: string, current: string, options: Options, now: nat, gone: set<string>,
                     removed: set<string>, nextId: nat)
    requires OnePlaceEach(dir, nextId) && Retires(dir, base, current, options, now, gone) && removed <= gone
    ensures OnePlaceEach(dir - removed, nextId) && OthersKept(dir, dir - removed, base) && Keeps(dir - removed, dir)
    ensures current in dir ==> current in dir - removed
    ensures options.maxFiles == 0 && options.maxAgeSecs == 0 ==> dir - removed == dir
    ensures removed == gone && current in dir && options.maxFiles > 0 ==>
      |Matching(dir - removed, base, current)| <= options.maxFiles
    ensures removed == gone && current in dir ==> InAgeAll(dir - removed, base, current, options.maxAgeSecs, now)
  {
    RemovalKeeps(dir, removed, nextId, base);
    if options.maxFiles == 0 && options.maxAgeSecs == 0 {
      NoLimitsKeepAll(Archives(dir, base, current), if current in dir then 1 else 0, now, gone);
      assert dir - removed == dir;
    }
    if removed == gone && current in dir {
      RetentionHolds(dir, base, current, options.maxFiles, options.maxAgeSecs, now, gone);
    }
  }

  lemma LessIsCovered(ever: set<Record>, dir: Directory, after: Directory, nextId: nat)
    requires Covered(ever, dir, nextId) && Keeps(after, dir)
    ensures Covered(ever, after, nextId)
  {
    forall n, i, r | Holds(after, n, i, r)
      ensures r in ever
    {
      var m, j :| Holds(dir, m, j, r);
    }
  }

  /** The directory part of `cleanup`. */
  method CleanDirectory(dir: Directory, base: string, current: string, options: Options, now: nat, lists: bool,
                        removes: string -> bool, ghost nextId: nat) returns (after: Directory, ghost gone: set<string>)
    requires OnePlaceEach(dir, nextId)
    ensures if lists then Retires(dir, base, current, options, now, gone) else gone == {}
    ensures after == dir - Removed(gone, removes)
    ensures OnePlaceEach(after, nextId) && OthersKept(dir, after, base) && Keeps(after, dir)
    ensures current in dir <==> current in after
    ensures current in dir ==> after[current] == dir[current]
    ensures options.maxFiles == 0 && options.maxAgeSecs == 0 ==> after == dir
    ensures lists && Removed(gone, removes) == gone && current in dir && options.maxFiles > 0 ==>
      |Matching(after, base, current)| <= options.maxFiles
    ensures lists && Removed(gone, removes) == gone && current in dir ==>
      InAgeAll(after, base, current, options.maxAgeSecs, now)
  {
    if !lists {
      gone, after := {}, dir;
      KeepsSelf(dir);
      assert Removed({}, removes) == {} && dir - {} == dir;
      return;
    }
    var asked := ChooseRemovals(Archives(dir, base, current), if current in dir then 1 else 0, options.maxFiles,
                                options.maxAgeSecs, now);
    var removed := Removed(asked, removes);
    CleanupKeeps(dir, base, current, options, now, asked, removed, nextId);
    after, gone := dir - removed, asked;
  }

  // ----- the appender -----

  class BoundedFileAppender {
    const options: Options
    const base: string
    const period: nat -> string
    const stamp: nat -> string

    var files: Directory
    var currentPath: string
    var currentSize: nat
    var lastCleanup: nat
    var isOpen: bool

    /** Writes are numbered only to tell equal writes apart. */
    var nextId: nat
    /** Bytes that failed writes left in the active file since it was opened. */
    ghost var slack: nat
    /** What each write did, in order. */
    ghost var trail: seq<Outcome>
    /** Every record there was at the start or was put since, and of these the successful writes. */
    ghost var ever: set<Record>
    ghost var written: set<Record>
    /** Some rotation landed on an archive that held records. */
    ghost var overwrote: bool
    /** Every listing and every removal has succeeded so far. */
    ghost var tidy: bool

    ghost function View(): Log
      reads this
    {
      Log(files, currentPath, currentSize, isOpen)
    }

    function ActivePath(now: nat): string {
      if options.rotation.Never? then base else base + "." + period(now)
    }

    ghost function CallAt(incoming: nat, now: nat, fs: Answers): Call {
      Call(ActivePath(now), incoming, options.maxSizeBytes, fs)
    }

    ghost predicate Unlimited() {
      options.maxFiles == 0 && options.maxAgeSecs == 0
    }

    ghost predicate SizeKnown()
      reads this`isOpen, this`files, this`currentPath, this`currentSize, this`slack
    {
      isOpen ==> currentPath in files && currentSize + slack == Size(files[currentPath])
    }

    ghost predicate CountHolds()
      reads this`isOpen, this`files, this`currentPath
    {
      isOpen && options.maxFiles > 0 ==> |Matching(files, base, currentPath)| <= options.maxFiles
    }

    /** The books: with retention off, no record was ever lost if and only if no rotation lacked room. */
    ghost predicate Sound()
      reads this`files, this`currentPath, this`nextId, this`ever, this`written, this`overwrote
    {
      && NamesActive(base, currentPath) && OnePlaceEach(files, nextId)
      && Covered(ever, files, nextId) && written <= ever
      && (Unlimited() ==> (Complete(ever, files) <==> !overwrote))
    }

    ghost predicate Ready()
      reads this`files, this`currentPath, this`nextId, this`ever, this`written, this`overwrote, this`isOpen, this`currentSize, this`slack, this`tidy
    {
      Sound() && SizeKnown() && (tidy ==> CountHolds())
    }

    /** Between writes the uncounted bytes are those the recorded writes left. */
    ghost predicate Valid()
      reads this
    {
      Ready() && (isOpen ==> slack == LeftSinceOpening(trail))
    }

    constructor (options: Options, base: string, period: nat -> string, stamp: nat -> string, dir: Directory,
                 firstId: nat, now: nat, lists: bool, removes: string -> bool)
      requires OnePlaceEach(dir, firstId)
      ensures Valid() && isOpen && trail == [] && currentPath == ActivePath(now) && lastCleanup == now
      ensures this.options == options && this.base == base && this.period == period && this.stamp == stamp
      ensures ever == RecordsOf(dir) && written == {} && !overwrote
      ensures currentSize == LengthIn(dir, currentPath)
      ensures Unlimited() ==> files == Touched(dir, currentPath, Opens, now)
      ensures lists && (forall n :: removes(n)) ==> tidy
      ensures tidy ==> InAgeAll(files, base, currentPath, options.maxAgeSecs, now)
    {
      this.options, this.base, this.period, this.stamp := options, base, period, stamp;
      files, nextId, ever, written, overwrote, tidy, trail := dir, firstId, RecordsOf(dir), {}, false, true, [];
      isOpen, slack, currentSize, lastCleanup := false, 0, 0, now;
      currentPath := if options.rotation.Never? then base else base + "." + period(now);
      new;
      CompleteStart(dir, firstId);
      Start(now, lists, removes);
    }

    /** The first open and the first cleanup. */
    method Start(now: nat, lists: bool, removes: string -> bool)
      requires Sound() && tidy && currentPath == ActivePath(now)
      modifies this`files, this`currentSize, this`isOpen, this`slack, this`lastCleanup, this`tidy
      ensures Ready() && isOpen && slack == 0 && lastCleanup == now
      ensures currentSize == LengthIn(old(files), currentPath)
      ensures Unlimited() ==> files == Touched(old(files), currentPath, Opens, now)
      ensures lists && (forall n :: removes(n)) ==> tidy
      ensures tidy ==> InAgeAll(files, base, currentPath, options.maxAgeSecs, now)
    {
      hide OnePlaceEach, Keeps, Stored, Matching, Archives, StartsWith, Complete, Covered;
      var _ := OpenCurrent(Opens, now);
      Tidy(now, lists, removes);
    }

    method OpenCurrent(opening: Opening, now: nat) returns (ok: bool)
      requires Sound()
      modifies this`files, this`currentSize, this`isOpen, this`slack
      ensures Sound() && OthersKept(old(files), files, base) && SameRecords(old(files), files)
      ensures files == Touched(old(files), currentPath, opening, now)
      ensures ok == opening.Opens?
      ensures ok ==> isOpen && slack == 0 && currentPath in files
      ensures ok ==> currentSize == Size(files[currentPath]) == LengthIn(old(files), currentPath)
      ensures !ok ==> isOpen == old(isOpen) && slack == old(slack) && currentSize == old(currentSize)
    {
      hide OnePlaceEach, Keeps, Stored, StartsWith, Complete, Covered;
      TouchedKeeps(files, currentPath, opening, now, nextId, base);
      CompleteSame(ever, files, Touched(files, currentPath, opening, now), nextId);
      files := Touched(files, currentPath, opening, now);
      ok := opening.Opens?;
      if ok {
        isOpen, slack, currentSize := true, 0, Size(files[currentPath]);
      }
    }

    method CloseCurrent(closes: bool) returns (ok: bool)
      modifies this`isOpen
      ensures !isOpen && ok == (old(isOpen) ==> closes)
    {
      ok := !isOpen || closes;
      isOpen := false;
    }

    /** Switch to the file of a new period. `Some(true)` when it did, `None` when the file system refused. */
    method RefreshActivePath(now: nat, fs: Answers) returns (switched: Option<bool>)
      requires Sound() && SizeKnown()
      modifies this`files, this`currentPath, this`currentSize, this`isOpen, this`slack
      ensures Sound() && SizeKnown() && OthersKept(old(files), files, base) && SameRecords(old(files), files)
      ensures switched.Some? <==> Refreshes(old(View()), CallAt(0, now, fs))
      ensures switched.Some? ==> switched.value == (old(currentPath) != ActivePath(now))
      ensures currentPath == if old(isOpen) && !fs.closes then old(currentPath) else ActivePath(now)
      ensures switched == Some(false) ==> View() == old(View()) && slack == old(slack)
      ensures switched == Some(true) ==> isOpen && slack == 0 && currentSize == LengthIn(old(files), currentPath)
      ensures switched == Some(true) ==> files == Touched(old(files), currentPath, Opens, now)
      ensures switched.None? ==> !isOpen && currentSize == old(currentSize)
    {
      hide OnePlaceEach, Keeps, Stored, StartsWith, Complete, Covered;
      SelfRecords(files);
      var next := ActivePath(now);
      if next == currentPath {
        return Some(false);
      }
      var ok := CloseCurrent(fs.closes);
      if !ok {
        return None;
      }
      PathIsActive(now);
      currentPath := next;
      ok := OpenCurrent(fs.opening, now);
      return if ok then Some(true) else None;
    }

    lemma PlacedOnce()
      requires Sound()
      ensures OnePlaceEach(files, nextId)
    {
    }

    lemma OpenFileIsThere()
      requires Valid() && isOpen
      ensures currentPath in files
    {
    }

    lemma PathIsActive(now: nat)
      ensures NamesActive(base, ActivePath(now))
    {
    }

    /** The active file goes to the first free archive name of the stamp, to the overflow name when there is none;
        what is lost is what the overflow file held. */
    method RenameToArchive(now: nat) returns (archive: string)
      requires Sound() && currentPath in files
      modifies this`files, this`overwrote
      ensures Sound() && OthersKept(old(files), files, base)
      ensures IsArchivePath(old(files), currentPath, stamp(now), archive)
      ensures currentPath !in files && files == Renamed(old(files), currentPath, archive)
      ensures Keeps(old(files), files) <==> HasRoom(old(files), currentPath, stamp(now))
      ensures overwrote == (old(overwrote) || !HasRoom(old(files), currentPath, stamp(now)))
    {
      hide OnePlaceEach, Keeps, Stored, StartsWith, Complete, Covered, HasRoom;
      archive := ArchivePath(files, currentPath, stamp(now));
      RotatedKeeps(files, currentPath, stamp(now), archive, nextId, base);
      CompleteRotated(ever, files, currentPath, stamp(now), archive, nextId);
      overwrote := overwrote || !HasRoom(files, currentPath, stamp(now));
      files := Renamed(files, currentPath, archive);
    }

    /** Archive the active file and start an empty one. */
    method RotateForSize(now: nat, fs: Answers) returns (ok: bool)
      requires Sound()
      modifies this`files, this`currentSize, this`isOpen, this`slack, this`overwrote
      ensures Sound() && SizeKnown() && OthersKept(old(files), files, base)
      ensures
        var moves := (old(isOpen) ==> fs.closesAgain) && currentPath in old(files) && fs.renames;
        && (Keeps(old(files), files) <==> !moves || HasRoom(old(files), currentPath, stamp(now)))
        && overwrote == (old(overwrote) || (moves && !HasRoom(old(files), currentPath, stamp(now))))
      ensures ok <==>
        (old(isOpen) ==> fs.closesAgain) && (currentPath in old(files) ==> fs.renames) && fs.reopening.Opens?
      ensures if ok then isOpen && slack == 0 && currentSize == 0 else !isOpen && currentSize == old(currentSize)
    {
      hide OnePlaceEach, Keeps, Stored, StartsWith, Complete, Covered, HasRoom;
      SelfRecords(files);
      ok := CloseCurrent(fs.closesAgain);
      if !ok {
        return;
      }
      if currentPath in files {
        if !fs.renames {
          return false;
        }
        var _ := RenameToArchive(now);
      }
      ghost var moved := files;
      ok := OpenCurrent(fs.reopening, now);
      SameRecordsKeep(moved, files, old(files));
    }

    lemma SelfRecords(dir: Directory)
      ensures SameRecords(dir, dir) && Keeps(dir, dir)
    {
      KeepsSelf(dir);
    }

    predicate ShouldRotateForSize(incoming: nat)
      reads this
    {
      OverLimit(options.maxSizeBytes, currentSize, incoming)
    }

    predicate CleanupDue(now: nat)
      reads this
    {
      options.maxAgeSecs > 0 && now >= lastCleanup + CLEANUP_INTERVAL_SECS
    }

    /** Nothing to do before writing: the period is the same, the write fits, no cleanup is due. */
    predicate Quiet(incoming: nat, now: nat)
      reads this
    {
      currentPath == ActivePath(now) && !ShouldRotateForSize(incoming) && !CleanupDue(now)
    }

    /** `gone` is what retention asks to delete; a removal that fails is skipped over. */
    method Cleanup(now: nat, lists: bool, removes: string -> bool) returns (ghost gone: set<string>)
      requires Sound() && SizeKnown()
      modifies this`files, this`lastCleanup, this`tidy
      ensures Sound() && SizeKnown() && OthersKept(old(files), files, base)
      ensures lastCleanup == now
      ensures files == old(files) - Removed(gone, removes)
      ensures Unlimited() ==> files == old(files)
      ensures LengthIn(files, currentPath) == LengthIn(old(files), currentPath)
      ensures if lists then Retires(old(files), base, currentPath, options, now, gone) else gone == {}
      ensures tidy == (old(tidy) && lists && Removed(gone, removes) == gone)
      ensures tidy ==> CountHolds() && (isOpen ==> InAgeAll(files, base, currentPath, options.maxAgeSecs, now))
    {
      hide OnePlaceEach, Keeps, Stored, Archives, StartsWith, Retires, Removed, Complete, Covered;
      lastCleanup := now;
      ghost var before := files;
      files, gone := CleanDirectory(files, base, currentPath, options, now, lists, removes, nextId);
      LessIsCovered(ever, before, files, nextId);
      tidy := tidy && lists && Removed(gone, removes) == gone;
    }

    /** Cleanup as its callers see it. */
    method Tidy(now: nat, lists: bool, removes: string -> bool)
      requires Sound() && SizeKnown()
      modifies this`files, this`lastCleanup, this`tidy
      ensures Ready() && OthersKept(old(files), files, base) && lastCleanup == now
      ensures Unlimited() ==> files == old(files)
      ensures LengthIn(files, currentPath) == LengthIn(old(files), currentPath)
      ensures tidy ==> old(tidy)
      ensures old(tidy) && lists && (forall n :: removes(n)) ==> tidy
      ensures tidy && isOpen ==> InAgeAll(files, base, currentPath, options.maxAgeSecs, now)
    {
      ghost var gone := Cleanup(now, lists, removes);
      if forall n :: removes(n) {
        AllRemoved(gone, removes);
      }
    }

    /** Rotate for size, then clean up; or clean up because the period changed or it is time to. */
    method MakeRoom(incoming: nat, now: nat, switched: bool, fs: Answers) returns (ok: bool)
      requires Sound() && SizeKnown() && (tidy && !switched ==> CountHolds()) && currentPath == ActivePath(now)
      modifies this`files, this`currentSize, this`lastCleanup, this`isOpen, this`slack, this`overwrote, this`tidy
      ensures Ready() && OthersKept(old(files), files, base)
      ensures
        var moves := old(ShouldRotateForSize(incoming)) && (old(isOpen) ==> fs.closesAgain) && currentPath in old(files) && fs.renames;
        && (Unlimited() ==> (Keeps(old(files), files) <==> !moves || HasRoom(old(files), currentPath, stamp(now))))
        && overwrote == (old(overwrote) || (moves && !HasRoom(old(files), currentPath, stamp(now))))
      ensures ok <==> (old(ShouldRotateForSize(incoming)) ==>
        (old(isOpen) ==> fs.closesAgain) && (currentPath in old(files) ==> fs.renames) && fs.reopening.Opens?)
      ensures isOpen == (ok && (old(isOpen) || old(ShouldRotateForSize(incoming))))
      ensures old(!switched && Quiet(incoming, now)) ==> files == old(files)
      ensures currentSize == if ok && old(ShouldRotateForSize(incoming)) then 0 else old(currentSize)
      ensures ok ==> slack == if old(ShouldRotateForSize(incoming)) then 0 else old(slack)
      ensures ok && !old(ShouldRotateForSize(incoming)) ==>
        LengthIn(files, currentPath) == LengthIn(old(files), currentPath)
      ensures ok && old(CleanupDue(now)) ==> lastCleanup == now
      ensures tidy && isOpen && lastCleanup != old(lastCleanup) ==>
        InAgeAll(files, base, currentPath, options.maxAgeSecs, now)
      ensures old(tidy) && CanClean(fs) ==> tidy
    {
      hide OnePlaceEach, Keeps, Stored, Matching, Archives, StartsWith, Complete, Covered, HasRoom;
      SelfRecords(files);
      if ShouldRotateForSize(incoming) {
        ok := RotateForSize(now, fs);
        if !ok {
          return;
        }
        Tidy(now, fs.lists, fs.removes);
      } else if switched || CleanupDue(now) {
        Tidy(now, fs.lists, fs.removes);
      }
      ok := true;
    }

    /** Everything `write` does before it writes. */
    method Prepare(incoming: nat, now: nat, fs: Answers) returns (ok: bool)
      requires Ready()
      modifies this`files, this`currentPath, this`currentSize, this`lastCleanup, this`isOpen, this`slack, this`overwrote, this`tidy
      ensures Ready() && OthersKept(old(files), files, base)
      ensures
        var log, c := old(View()), CallAt(incoming, now, fs);
        && ok == Prepares(log, c)
        && isOpen == ReachesPut(log, c)
        && (isOpen ==> currentSize == SizeAtPut(log, c) && LengthIn(files, currentPath) == LengthAtPut(log, c))
        && (isOpen ==> slack == if OpensFile(log, c) then 0 else old(slack))
        && (!isOpen ==> currentSize == if Refreshes(log, c) then SizeThen(log, c) else log.size)
        && overwrote == (old(overwrote) || (MovesAside(log, c) && !HasRoom(log.files, c.active, stamp(now))))
        && (Unlimited() ==> (Keeps(log.files, files) <==> !MovesAside(log, c) || HasRoom(log.files, c.active, stamp(now))))
      ensures currentPath == if old(isOpen) && !fs.closes then old(currentPath) else ActivePath(now)
      ensures isOpen ==> ok && currentPath in files && !ShouldRotateForSize(incoming)
      ensures old(Quiet(incoming, now)) ==> files == old(files)
      ensures ok && old(CleanupDue(now)) ==> lastCleanup == now
      ensures tidy && isOpen && lastCleanup != old(lastCleanup) ==>
        InAgeAll(files, base, currentPath, options.maxAgeSecs, now)
      ensures old(tidy) && CanClean(fs) ==> tidy
    {
      hide Sound, OthersKept, OnePlaceEach, Keeps, Stored, Matching, Archives, StartsWith, HasRoom, InAgeAll;
      var switched := RefreshActivePath(now, fs);
      if switched.None? {
        return false;
      }
      ghost var refreshed := files;
      if switched.value {
        TouchedRoom(old(files), currentPath, Opens, now, stamp(now));
      }
      ok := MakeRoom(incoming, now, switched.value, fs);
      SameRecordsKeep(old(files), refreshed, files);
      OthersKeptTrans(old(files), refreshed, files, base);
    }

    method AppendRecord(r: Record, now: nat)
      requires Sound() && r.id == nextId && currentPath in files
      modifies this`files, this`nextId, this`ever
      ensures Sound() && OthersKept(old(files), files, base) && ever == old(ever) + {r}
      ensures files == Appended(old(files), currentPath, r, now) && nextId == old(nextId) + 1
      ensures EndsWith(files, currentPath, r) && Size(files[currentPath]) == Size(old(files)[currentPath]) + |r.data|
      ensures Matching(files, base, currentPath) == Matching(old(files), base, currentPath)
      ensures Archives(files, base, currentPath) == Archives(old(files), base, currentPath)
    {
      hide OnePlaceEach, Keeps, Stored, Matching, Archives, StartsWith, Complete, Covered;
      AppendedKeeps(files, currentPath, r, now, base);
      CompleteAppended(ever, files, currentPath, r, now);
      files := Appended(files, currentPath, r, now);
      ever := ever + {r};
      nextId := nextId + 1;
    }

    /** `write_all`, whole or cut short; the bytes of a write that fails stay in the file and are not counted. */
    method Put(buf: seq<Byte>, now: nat, putting: Putting) returns (ok: bool)
      requires Ready() && isOpen
      modifies this`files, this`currentSize, this`slack, this`nextId, this`ever, this`written
      ensures Ready() && OthersKept(old(files), files, base)
      ensures ok == PutSucceeds(putting, Size(old(files)[currentPath]), |buf|)
      ensures
        var put := Record(old(nextId), PutData(buf, putting, ok));
        && files == Appended(old(files), currentPath, put, now) && nextId == old(nextId) + 1
        && PutInto(files, currentPath, put, Size(old(files)[currentPath])) && ever == old(ever) + {put}
        && files == old(files)[currentPath := files[currentPath]]
        && written == old(written) + (if ok then {put} else {})
        && slack == old(slack) + (if ok then 0 else |put.data|)
      ensures currentSize == old(currentSize) + if ok then |buf| else 0
      ensures ok && options.maxSizeBytes > 0 && !old(ShouldRotateForSize(|buf|)) ==>
        currentSize <= Max(options.maxSizeBytes, |buf|)
      ensures old(InAgeAll(files, base, currentPath, options.maxAgeSecs, now)) ==>
        InAgeAll(files, base, currentPath, options.maxAgeSecs, now)
    {
      hide OnePlaceEach, Keeps, Stored, Matching, Archives, StartsWith, Complete, Covered;
      ok := PutSucceeds(putting, Size(files[currentPath]), |buf|);
      var put := Record(nextId, PutData(buf, putting, ok));
      AppendRecord(put, now);
      if ok {
        currentSize := SatAdd(currentSize, |buf|);
        written := written + {put};
      } else {
        slack := slack + |put.data|;
      }
    }

    /** Preparing and putting, before the outcome is recorded. */
    method PrepareAndPut(buf: seq<Byte>, now: nat, fs: Answers) returns (ok: bool)
      requires Ready()
      modifies this`files, this`currentPath, this`currentSize, this`lastCleanup, this`isOpen, this`slack, this`overwrote,
        this`tidy, this`nextId, this`ever, this`written
      ensures Ready() && OthersKept(old(files), files, base) && old(ever) <= ever
      ensures
        var log, c := old(View()), CallAt(|buf|, now, fs);
        && Follows(log, c, View(), Record(old(nextId), PutData(buf, fs.putting, ok)), ok)
        && (isOpen ==> slack == LeftBy(log, c) + if OpensFile(log, c) then 0 else old(slack))
        && overwrote == (old(overwrote) || (MovesAside(log, c) && !HasRoom(log.files, c.active, stamp(now))))
        && (Unlimited() ==> (Keeps(log.files, files) <==> !MovesAside(log, c) || HasRoom(log.files, c.active, stamp(now))))
      ensures written == old(written) + if ok then {Record(old(nextId), buf)} else {}
      ensures isOpen && old(Quiet(|buf|, now)) ==> files == old(files)[currentPath := files[currentPath]]
      ensures ok && options.maxSizeBytes > 0 ==> currentSize <= Max(options.maxSizeBytes, |buf|)
      ensures old(tidy) && CanClean(fs) ==> tidy
      ensures ok && old(CleanupDue(now)) ==> lastCleanup == now
      ensures ok && tidy && lastCleanup != old(lastCleanup) ==> InAgeAll(files, base, currentPath, options.maxAgeSecs, now)
    {
      hide Sound, CountHolds, OthersKept, OnePlaceEach, Keeps, Stored, Archives, StartsWith, HasRoom, InAgeAll;
      hide Size, Appended, PutInto, Matching, CanClean;
      hide Refreshes, SizeThen, Rotates, Prepares, OpensFile, ReachesPut, MovesAside, SizeAtPut, LengthAtPut;
      ghost var log := View();
      PlacedOnce();
      ok := Prepare(|buf|, now, fs);
      if !isOpen {
        return false;
      }
      PlacedOnce();
      ghost var prepared := files;
      ok := Put(buf, now, fs.putting);
      OthersKeptTrans(log.files, prepared, files, base);
      AppendKeepsIff(log.files, prepared, currentPath, Record(old(nextId), PutData(buf, fs.putting, ok)), now);
    }

    /** Preparing, putting and recording. */
    method PutAndRecord(buf: seq<Byte>, now: nat, fs: Answers) returns (ok: bool)
      requires Valid()
      modifies this
      ensures Valid() && OthersKept(old(files), files, base) && old(ever) <= ever
      ensures
        var log, c := old(View()), CallAt(|buf|, now, fs);
        && Follows(log, c, View(), Record(old(nextId), PutData(buf, fs.putting, ok)), ok)
        && trail == old(trail) + [OutcomeOf(log, c)]
        && overwrote == (old(overwrote) || (MovesAside(log, c) && !HasRoom(log.files, c.active, stamp(now))))
        && (Unlimited() ==> (Keeps(log.files, files) <==> !MovesAside(log, c) || HasRoom(log.files, c.active, stamp(now))))
      ensures isOpen ==> currentPath in files && (currentSize == Size(files[currentPath]) <==> NothingLeft(trail))
      ensures written == old(written) + if ok then {Record(old(nextId), buf)} else {}
      ensures isOpen && old(Quiet(|buf|, now)) ==> files == old(files)[currentPath := files[currentPath]]
      ensures ok && options.maxSizeBytes > 0 ==> currentSize <= Max(options.maxSizeBytes, |buf|)
      ensures old(tidy) && CanClean(fs) ==> tidy
      ensures ok && old(CleanupDue(now)) ==> lastCleanup == now
      ensures ok && tidy && lastCleanup != old(lastCleanup) ==> InAgeAll(files, base, currentPath, options.maxAgeSecs, now)
    {
      hide Sound, CountHolds, OthersKept, Keeps, HasRoom, InAgeAll, MovesAside, NothingLeft;
      ghost var log, c := View(), CallAt(|buf|, now, fs);
      PutMeansOpen(log, c);
      ok := PrepareAndPut(buf, now, fs);
      trail := trail + [OutcomeOf(log, c)];
      LeftPush(old(trail), OutcomeOf(log, c));
      NothingLeftIffZero(trail);
    }

    /** One write. Whether it succeeds, whether the log is open afterwards, the size it goes by, the bytes a failure
        leaves and whether a rotation overwrote records are all told by the log it finds and the answers it gets.
        Afterwards the size is the file's length if and only if no write since the file was opened left bytes in it. */
    method Write(buf: seq<Byte>, now: nat, fs: Answers) returns (ok: bool)
      requires Valid()
      modifies this
      ensures Valid() && OthersKept(old(files), files, base) && old(ever) <= ever
      ensures
        var log, c := old(View()), CallAt(|buf|, now, fs);
        && Follows(log, c, View(), Record(old(nextId), PutData(buf, fs.putting, ok)), ok)
        && trail == old(trail) + [OutcomeOf(log, c)]
        && overwrote == (old(overwrote) || (MovesAside(log, c) && !HasRoom(log.files, c.active, stamp(now))))
        && (Unlimited() ==> (Keeps(log.files, files) <==> !MovesAside(log, c) || HasRoom(log.files, c.active, stamp(now))))
      ensures isOpen ==> currentPath in files && (currentSize == Size(files[currentPath]) <==> NothingLeft(trail))
      ensures written == old(written) + if ok then {Record(old(nextId), buf)} else {}
      ensures isOpen && old(Quiet(|buf|, now)) ==> files == old(files)[currentPath := files[currentPath]]
      ensures
        && old(isOpen) && old(currentPath) == ActivePath(now)
        && (options.maxSizeBytes == 0 || old(currentSize) == 0 || old(currentSize) + |buf| <= options.maxSizeBytes)
        && (options.maxAgeSecs == 0 || now < old(lastCleanup) + 60) ==>
          && isOpen && currentPath == old(currentPath) && files == old(files)[currentPath := files[currentPath]]
          && (ok <==> fs.putting == Whole && Size(old(files)[currentPath]) + |buf| <= 0x7FFF_FFFF_FFFF_FFFF)
          && (ok ==> Size(files[currentPath]) == Size(old(files)[currentPath]) + |buf|)
      ensures MovesAside(old(View()), CallAt(|buf|, now, fs)) ==>
        var size := if ActivePath(now) == old(currentPath) then old(currentSize) else LengthIn(old(files), ActivePath(now));
        0 < options.maxSizeBytes < size + |buf| && size > 0
      ensures ok && options.maxSizeBytes > 0 ==> currentSize <= Max(options.maxSizeBytes, |buf|)
      ensures old(tidy) && CanClean(fs) ==> tidy
      ensures ok && options.maxAgeSecs > 0 && now >= old(lastCleanup) + 60 ==> lastCleanup == now
      ensures ok && tidy && lastCleanup != old(lastCleanup) ==> InAgeAll(files, base, currentPath, options.maxAgeSecs, now)
    {
      hide BoundedFileAppender.Valid, OthersKept, Keeps, HasRoom, InAgeAll, MovesAside, NothingLeft, CanClean, Size;
      hide Refreshes, SizeThen, Rotates, Prepares, OpensFile, ReachesPut, SizeAtPut, LengthAtPut, Succeeds, OutcomeOf;
      ghost var log, c := View(), CallAt(|buf|, now, fs);
      if isOpen && currentPath == ActivePath(now)
         && (c.limit == 0 || currentSize == 0 || currentSize + |buf| <= c.limit) {
        OpenFileIsThere();
        FittingWrite(log, c);
      }
      if MovesAside(log, c) {
        ArchivedForSize(log, c);
      }
      ok := PutAndRecord(buf, now, fs);
    }
  }

  /** What a call makes of the log it finds. */
  ghost predicate Follows(log: Log, c: Call, after: Log, put: Record, ok: bool) {
    && ok == Succeeds(log, c)
    && after.isOpen == ReachesPut(log, c)
    && after.path == (if log.isOpen && !c.fs.closes then log.path else c.active)
    && (after.isOpen ==>
          && after.size == SizeAtPut(log, c) + (if ok then c.incoming else 0)
          && PutInto(after.files, after.path, put, LengthAtPut(log, c)))
    && (!after.isOpen ==> after.size == if Refreshes(log, c) then SizeThen(log, c) else log.size)
  }

  /** What a put leaves in the file. */
  function PutData(buf: seq<Byte>, putting: Putting, ok: bool): seq<Byte> {
    if ok then buf else buf[..CutBytes(putting, |buf|)]
  }

  /** `put` is the last record of a file that was `before` bytes long. */
  ghost predicate PutInto(dir: Directory, name: string, put: Record, before: nat) {
    EndsWith(dir, name, put) && Size(dir[name]) == before + |put.data|
  }

  ghost predicate CanClean(fs: Answers) {
    fs.lists && forall n :: fs.removes(n)
  }

  /** The last record of a file. */
  predicate EndsWith(dir: Directory, name: string, r: Record) {
    name in dir && dir[name].records != [] && dir[name].records[|dir[name].records| - 1] == r
  }
}
