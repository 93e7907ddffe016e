/** The log directory as a value: files of records, the names the appender uses, and what renaming and
    retention do to a directory. */
module LogFiles {
  import opened Wrappers

  /** One write, or what a file held when the appender first saw it. */
  datatype Record = Record(id: nat, data: seq<Byte>)

  datatype LogFile = LogFile(records: seq<Record>, modified: nat)

  type Directory = map<string, LogFile>

  function Bytes(records: seq<Record>): nat {
    if records == [] then 0 else Bytes(records[..|records| - 1]) + |records[|records| - 1].data|
  }

  function Size(f: LogFile): nat {
    Bytes(f.records)
  }

  lemma BytesAppend(records: seq<Record>, r: Record)
    ensures Bytes(records + [r]) == Bytes(records) + |r.data|
  {
    assert (records + [r])[..|records|] == records;
  }

  // ----- names -----

  predicate StartsWith(name: string, prefix: string) {
    prefix <= name
  }

  function ArchiveName(current: string, stamp: string, n: nat): string {
    current + "." + stamp + "." + Digits(n)
  }

  function OverflowName(current: string, stamp: string): string {
    current + "." + stamp + ".overflow"
  }

  /** Archives of different stamps, or of different numbers, have different names; none is an overflow name. A stamp
      has no dot. */
  lemma ArchiveNamesDiffer(current: string, s: string, m: nat, t: string, n: nat)
    requires '.' !in s && '.' !in t
    ensures ArchiveName(current, s, m) == ArchiveName(current, t, n) ==> s == t && m == n
    ensures OverflowName(current, s) == OverflowName(current, t) ==> s == t
    ensures ArchiveName(current, s, m) != OverflowName(current, t)
  {
    DigitsDenote(m);
    DigitsDenote(n);
    DottedTail(current + ".", s, Digits(m), t, Digits(n));
    DottedTail(current + ".", s, "overflow", t, "overflow");
    DottedTail(current + ".", s, Digits(m), t, "overflow");
    assert ArchiveName(current, s, m) == (current + ".") + s + "." + Digits(m);
    assert OverflowName(current, t) == (current + ".") + t + "." + "overflow";
    assert OverflowName(current, s) == (current + ".") + s + "." + "overflow";
    assert "overflow"[0] == 'o' && Digits(m)[0] in Digits(m);
  }

  lemma DottedTail(front: string, s: string, x: string, t: string, y: string)
    requires '.' !in s && '.' !in t
    ensures front + s + "." + x == front + t + "." + y ==> s == t && x == y
  {
    var l, r := front + s + "." + x, front + t + "." + y;
    if l == r {
      DotIsFirst(s, x);
      DotIsFirst(t, y);
      assert l[|front|..] == s + "." + x && r[|front|..] == t + "." + y;
      var whole := s + "." + x;
      assert whole[|s| + 1..] == x && whole[|t| + 1..] == y;
      assert whole[..|s|] == s && whole[..|t|] == t;
    }
  }

  lemma DotIsFirst(s: string, x: string)
    requires '.' !in s
    ensures (s + "." + x)[|s|] == '.' && forall i :: 0 <= i < |s| ==> (s + "." + x)[i] != '.'
  {
    assert forall i :: 0 <= i < |s| ==> (s + "." + x)[i] == s[i] && s[i] in s;
  }

  /** The active file is the base name, or the base name with a period suffix. */
  predicate NamesActive(base: string, current: string) {
    current == base || StartsWith(current, base + ".")
  }

  lemma ArchivesMatch(base: string, current: string, tail: string)
    requires NamesActive(base, current)
    ensures StartsWith(current + "." + tail, base + ".") && current + "." + tail != current
  {
    var name := current + "." + tail;
    if current == base {
      assert name[..|base| + 1] == base + ".";
    } else {
      assert name[..|base| + 1] == current[..|base| + 1];
    }
    assert |name| > |current|;
  }

  predicate FreeSlot(dir: Directory, current: string, stamp: string) {
    exists n :: 0 <= n < 1000 && ArchiveName(current, stamp, n) !in dir
  }

  predicate FirstFree(dir: Directory, current: string, stamp: string, n: nat) {
    && n < 1000
    && ArchiveName(current, stamp, n) !in dir
    && forall m :: 0 <= m < n ==> ArchiveName(current, stamp, m) in dir
  }

  /** A rotation at this stamp lands on no stored record: a slot is free, or the overflow file holds nothing. */
  predicate HasRoom(dir: Directory, current: string, stamp: string) {
    || FreeSlot(dir, current, stamp)
    || OverflowName(current, stamp) !in dir
    || dir[OverflowName(current, stamp)].records == []
  }

  /** What `archive_path` chooses. */
  ghost predicate IsArchivePath(dir: Directory, current: string, stamp: string, name: string) {
    && (FreeSlot(dir, current, stamp) ==>
          exists n :: FirstFree(dir, current, stamp, n) && name == ArchiveName(current, stamp, n))
    && (!FreeSlot(dir, current, stamp) ==> name == OverflowName(current, stamp))
    && exists tail :: name == current + "." + tail
  }

  /** The archive slots of one stamp, with the first free one or the overflow name. */
  method ArchivePath(dir: Directory, current: string, stamp: string) returns (name: string)
    ensures IsArchivePath(dir, current, stamp, name)
  {
    for n := 0 to 1000
      invariant forall m :: 0 <= m < n ==> ArchiveName(current, stamp, m) in dir
    {
      var candidate := ArchiveName(current, stamp, n);
      if candidate !in dir {
        assert candidate == current + "." + (stamp + "." + Digits(n));
        assert FirstFree(dir, current, stamp, n);
        return candidate;
      }
    }
    name := OverflowName(current, stamp);
    assert name == current + "." + (stamp + ".overflow");
  }

  // ----- nothing lost -----

  predicate Holds(dir: Directory, name: string, i: nat, r: Record) {
    name in dir && i < |dir[name].records| && dir[name].records[i] == r
  }

  /** Every record of `before` is still in some file of `after`. */
  ghost predicate Keeps(before: Directory, after: Directory) {
    forall name, i, r :: Holds(before, name, i, r) ==> Stored(after, r)
  }

  ghost predicate Stored(dir: Directory, r: Record) {
    exists name, i :: Holds(dir, name, i, r)
  }

  /** No record is in two places, and no record has an id not yet given out. */
  ghost predicate OnePlaceEach(dir: Directory, nextId: nat) {
    && (forall name, i, r :: Holds(dir, name, i, r) ==> r.id < nextId)
    && (forall n, i, r, m, j, q :: Holds(dir, n, i, r) && Holds(dir, m, j, q) && r.id == q.id ==> n == m && i == j)
  }

  function Renamed(dir: Directory, from: string, to: string): Directory
    requires from in dir
  {
    (dir - {from})[to := dir[from]]
  }

  /** Renaming loses nothing if and only if it does not land on a file that holds something. */
  lemma RenameKeepsIff(dir: Directory, from: string, to: string, nextId: nat)
    requires from in dir && from != to && OnePlaceEach(dir, nextId)
    ensures Keeps(dir, Renamed(dir, from, to)) <==> to !in dir || dir[to].records == []
  {
    var after := Renamed(dir, from, to);
    if to !in dir || dir[to].records == [] {
      forall name, i, r | Holds(dir, name, i, r)
        ensures Stored(after, r)
      {
        assert Holds(after, if name == from then to else name, i, r);
      }
    } else {
      var r := dir[to].records[0];
      assert Holds(dir, to, 0, r);
      if Stored(after, r) {
        var m, j :| Holds(after, m, j, r);
        assert Holds(dir, if m == to then from else m, j, r);
      }
    }
  }

  lemma RenameOnePlace(dir: Directory, from: string, to: string, nextId: nat)
    requires from in dir && from != to && OnePlaceEach(dir, nextId)
    ensures OnePlaceEach(Renamed(dir, from, to), nextId)
  {
    var after := Renamed(dir, from, to);
    forall n, i, r | Holds(after, n, i, r)
      ensures Holds(dir, if n == to then from else n, i, r)
    {
    }
    forall n, i, r, m, j, q | Holds(after, n, i, r) && Holds(after, m, j, q) && r.id == q.id
      ensures n == m && i == j
    {
      assert Holds(dir, if n == to then from else n, i, r) && Holds(dir, if m == to then from else m, j, q);
    }
  }

  function Appended(dir: Directory, name: string, r: Record, now: nat): Directory
    requires name in dir
  {
    dir[name := LogFile(dir[name].records + [r], now)]
  }

  lemma AppendKeeps(dir: Directory, name: string, r: Record, now: nat)
    requires name in dir && OnePlaceEach(dir, r.id)
    ensures Keeps(dir, Appended(dir, name, r, now))
    ensures OnePlaceEach(Appended(dir, name, r, now), r.id + 1)
    ensures Holds(Appended(dir, name, r, now), name, |dir[name].records|, r)
  {
    var after := Appended(dir, name, r, now);
    forall n, i, q | Holds(dir, n, i, q)
      ensures Holds(after, n, i, q)
    {
    }
    forall n, i, q | Holds(after, n, i, q)
      ensures Holds(dir, n, i, q) || (n == name && i == |dir[name].records| && q == r)
    {
    }
  }

  lemma OpenKeeps(dir: Directory, name: string, now: nat, nextId: nat)
    requires name !in dir && OnePlaceEach(dir, nextId)
    ensures SameRecords(dir, dir[name := LogFile([], now)]) && OnePlaceEach(dir[name := LogFile([], now)], nextId)
  {
    var after := dir[name := LogFile([], now)];
    forall n, i, q
      ensures Holds(dir, n, i, q) <==> Holds(after, n, i, q)
    {
    }
  }

  /** A rotation loses nothing if and only if it has room. */
  lemma ArchiveKeepsIff(dir: Directory, current: string, stamp: string, archive: string, nextId: nat)
    requires current in dir && OnePlaceEach(dir, nextId) && IsArchivePath(dir, current, stamp, archive)
    ensures archive != current
    ensures Keeps(dir, Renamed(dir, current, archive)) <==> HasRoom(dir, current, stamp)
  {
    var tail :| archive == current + "." + tail;
    assert |archive| > |current|;
    RenameKeepsIff(dir, current, archive, nextId);
  }

  lemma KeepsTrans(a: Directory, b: Directory, c: Directory)
    requires Keeps(a, b) && Keeps(b, c)
    ensures Keeps(a, c)
  {
    forall name, i, r | Holds(a, name, i, r)
      ensures Stored(c, r)
    {
      var m, j :| Holds(b, m, j, r);
      assert Stored(c, r);
    }
  }

  lemma KeepsSelf(dir: Directory)
    ensures Keeps(dir, dir)
  {
    forall n, i, r | Holds(dir, n, i, r)
      ensures Stored(dir, r)
    {
    }
  }

  /** Two directories with the same records. */
  ghost predicate SameRecords(a: Directory, b: Directory) {
    Keeps(a, b) && Keeps(b, a)
  }

  lemma SameRecordsKeep(a: Directory, b: Directory, c: Directory)
    requires SameRecords(a, b)
    ensures (Keeps(a, c) <==> Keeps(b, c)) && (Keeps(c, a) <==> Keeps(c, b))
  {
    if Keeps(a, c) {
      KeepsTrans(b, a, c);
    }
    if Keeps(b, c) {
      KeepsTrans(a, b, c);
    }
    if Keeps(c, a) {
      KeepsTrans(c, a, b);
    }
    if Keeps(c, b) {
      KeepsTrans(c, b, a);
    }
  }

  /** A new record replaces none that is missing. */
  lemma AppendKeepsIff(a: Directory, dir: Directory, name: string, r: Record, now: nat)
    requires name in dir && OnePlaceEach(a, r.id) && OnePlaceEach(dir, r.id)
    ensures Keeps(a, Appended(dir, name, r, now)) <==> Keeps(a, dir)
  {
    var after := Appended(dir, name, r, now);
    if Keeps(a, dir) {
      AppendKeeps(dir, name, r, now);
      KeepsTrans(a, dir, after);
    }
    if Keeps(a, after) {
      forall n, i, q | Holds(a, n, i, q)
        ensures Stored(dir, q)
      {
        var m, j :| Holds(after, m, j, q);
        assert Holds(dir, m, j, q);
      }
    }
  }

  // ----- every record there ever was -----

  function RecordsOf(dir: Directory): set<Record> {
    set n, i | n in dir && 0 <= i < |dir[n].records| :: dir[n].records[i]
  }

  /** Every record of `ever` is still stored. */
  ghost predicate Complete(ever: set<Record>, dir: Directory) {
    forall r :: r in ever ==> Stored(dir, r)
  }

  /** `ever` has all that is stored, and only ids already given out. */
  ghost predicate Covered(ever: set<Record>, dir: Directory, nextId: nat) {
    && (forall n, i, r :: Holds(dir, n, i, r) ==> r in ever)
    && (forall r :: r in ever ==> r.id < nextId)
  }

  lemma CompleteStart(dir: Directory, nextId: nat)
    requires OnePlaceEach(dir, nextId)
    ensures Complete(RecordsOf(dir), dir) && Covered(RecordsOf(dir), dir, nextId)
  {
    forall r | r in RecordsOf(dir)
      ensures Stored(dir, r) && r.id < nextId
    {
      var n, i :| n in dir && 0 <= i < |dir[n].records| && dir[n].records[i] == r;
      assert Holds(dir, n, i, r);
    }
  }

  lemma CompleteSame(ever: set<Record>, a: Directory, b: Directory, nextId: nat)
    requires SameRecords(a, b) && Covered(ever, a, nextId)
    ensures Covered(ever, b, nextId) && (Complete(ever, a) <==> Complete(ever, b))
  {
    forall n, i, r | Holds(b, n, i, r)
      ensures r in ever
    {
      var m, j :| Holds(a, m, j, r);
    }
    forall r | r in ever
      ensures Stored(a, r) <==> Stored(b, r)
    {
    }
  }

  lemma RenamedHoldsLess(dir: Directory, from: string, to: string)
    requires from in dir && from != to
    ensures Keeps(Renamed(dir, from, to), dir)
  {
    var after := Renamed(dir, from, to);
    forall n, i, r | Holds(after, n, i, r)
      ensures Stored(dir, r)
    {
      assert Holds(dir, if n == to then from else n, i, r);
    }
  }

  /** A rotation keeps the books complete if and only if it has room. */
  lemma CompleteRotated(ever: set<Record>, dir: Directory, current: string, stamp: string, archive: string, nextId: nat)
    requires current in dir && OnePlaceEach(dir, nextId) && IsArchivePath(dir, current, stamp, archive)
    requires Covered(ever, dir, nextId)
    ensures archive != current
    ensures
      var after := Renamed(dir, current, archive);
      && Covered(ever, after, nextId)
      && (Complete(ever, after) <==> Complete(ever, dir) && HasRoom(dir, current, stamp))
  {
    ArchiveKeepsIff(dir, current, stamp, archive, nextId);
    RenamedHoldsLess(dir, current, archive);
    var after := Renamed(dir, current, archive);
    forall n, i, r | Holds(after, n, i, r)
      ensures r in ever
    {
      var m, j :| Holds(dir, m, j, r);
    }
    if Complete(ever, after) {
      forall r | r in ever
        ensures Stored(dir, r)
      {
        var n, i :| Holds(after, n, i, r);
      }
      assert Keeps(dir, after);
    }
    if Complete(ever, dir) && Keeps(dir, after) {
      forall r | r in ever
        ensures Stored(after, r)
      {
        var n, i :| Holds(dir, n, i, r);
      }
    }
  }

  lemma CompleteAppended(ever: set<Record>, dir: Directory, name: string, r: Record, now: nat)
    requires name in dir && OnePlaceEach(dir, r.id) && Covered(ever, dir, r.id)
    ensures
      var after := Appended(dir, name, r, now);
      Covered(ever + {r}, after, r.id + 1) && (Complete(ever + {r}, after) <==> Complete(ever, dir))
  {
    var after := Appended(dir, name, r, now);
    AppendKeeps(dir, name, r, now);
    forall n, i, q | Holds(after, n, i, q)
      ensures q == r || Holds(dir, n, i, q)
    {
    }
    forall q | q in ever
      ensures Stored(after, q) <==> Stored(dir, q)
    {
      if Stored(after, q) {
        var n, i :| Holds(after, n, i, q);
        assert Holds(dir, n, i, q);
      }
    }
    assert Stored(after, r);
  }
}
