/** Retention: which archives `cleanup` deletes. */
module LogRetention {
  import opened LogFiles

  /** The archives a directory listing yields, with their modification times: every file named after the
      base except the active one. */
  function Archives(dir: Directory, base: string, current: string): map<string, nat> {
    map n | n in dir && n != current && StartsWith(n, base + ".") :: dir[n].modified
  }

  function Cutoff(now: nat, maxAge: nat): nat {
    if maxAge <= now then now - maxAge else 0
  }

  /** The age rule of `cleanup`. */
  predicate InAge(modified: nat, maxAge: nat, now: nat) {
    maxAge == 0 || modified >= Cutoff(now, maxAge)
  }

  /** The archives no older than the age limit, if there is one. */
  function Young(times: map<string, nat>, maxAge: nat, now: nat): set<string> {
    set n | n in times && (maxAge > 0 ==> times[n] + maxAge >= now)
  }

  /** Deleting `gone` out of `names` deletes nothing newer than what it leaves. */
  ghost predicate DropsOldest(times: map<string, nat>, names: set<string>, gone: set<string>)
    requires gone <= names <= times.Keys
  {
    forall r, k :: r in gone && k in names - gone ==> times[r] <= times[k]
  }

  /** What `cleanup` has to delete: every archive past the age limit, and of the others the oldest, as many as
      bring the active file and the archives together down to `maxFiles`, and no more. */
  ghost predicate IsRetention(times: map<string, nat>, listed: nat, maxFiles: nat, maxAge: nat, now: nat, gone: set<string>) {
    var young := Young(times, maxAge, now);
    && times.Keys - young <= gone <= times.Keys
    && DropsOldest(times, young, gone * young)
    && |young - gone| == if maxFiles > 0 && |young| + listed > maxFiles then maxFiles - 1 else |young|
  }

  // ----- the loops -----

  method FindOldest(times: map<string, nat>, names: set<string>) returns (oldest: string)
    requires names != {} && names <= times.Keys
    ensures oldest in names && forall n :: n in names ==> times[oldest] <= times[n]
  {
    oldest :| oldest in names;
    var todo := names - {oldest};
    while todo != {}
      invariant todo <= names && oldest in names
      invariant forall n :: n in names && n !in todo ==> times[oldest] <= times[n]
      decreases todo
    {
      var n :| n in todo;
      if times[n] < times[oldest] {
        oldest := n;
      }
      todo := todo - {n};
    }
  }

  function Elements(order: seq<string>): set<string> {
    set n | n in order
  }

  ghost predicate Ordered(times: map<string, nat>, order: seq<string>) {
    && Elements(order) <= times.Keys
    && (forall i, j :: 0 <= i < j < |order| ==> times[order[i]] <= times[order[j]])
    && (forall i, j :: 0 <= i < j < |order| ==> order[i] != order[j])
  }

  /** Sorting by modification time; the order of equal times does not matter. */
  method SortByModified(times: map<string, nat>, names: set<string>) returns (order: seq<string>)
    requires names <= times.Keys
    ensures Ordered(times, order) && Elements(order) == names
  {
    order := [];
    var left := names;
    while left != {}
      invariant left <= names && Elements(order) == names - left && Ordered(times, order)
      invariant forall i, m :: 0 <= i < |order| && m in left ==> times[order[i]] <= times[m]
      decreases left
    {
      var n := FindOldest(times, left);
      ElementsPush(order, n);
      order := order + [n];
      left := left - {n};
    }
  }

  lemma ElementsPush(order: seq<string>, n: string)
    ensures Elements(order + [n]) == Elements(order) + {n}
  {
  }

  lemma {:induction false} ElementsSize(order: seq<string>)
    requires forall i, j :: 0 <= i < j < |order| ==> order[i] != order[j]
    ensures |Elements(order)| == |order|
  {
    if order == [] {
      assert Elements(order) == {};
    } else {
      var front := order[..|order| - 1];
      ElementsSize(front);
      assert order == front + [order[|order| - 1]];
      ElementsPush(front, order[|order| - 1]);
    }
  }

  lemma IndexBelow(order: seq<string>, k: nat, r: string) returns (i: nat)
    requires k <= |order| && r in order[..k]
    ensures i < k && order[i] == r
  {
    i :| 0 <= i < k && order[..k][i] == r;
  }

  lemma IndexFrom(order: seq<string>, k: nat, m: string) returns (j: nat)
    requires k <= |order| && m in order && m !in order[..k]
    ensures k <= j < |order| && order[j] == m
  {
    assert order == order[..k] + order[k..];
    var i :| 0 <= i < |order[k..]| && order[k..][i] == m;
    j := k + i;
  }

  lemma PrefixDropsOldest(times: map<string, nat>, order: seq<string>, k: nat)
    requires Ordered(times, order) && k <= |order|
    ensures Elements(order[..k]) <= Elements(order) && DropsOldest(times, Elements(order), Elements(order[..k]))
  {
    var all, gone := Elements(order), Elements(order[..k]);
    forall r, m | r in gone && m in all - gone
      ensures times[r] <= times[m]
    {
      var i := IndexBelow(order, k, r);
      var j := IndexFrom(order, k, m);
    }
  }

  lemma PrefixLeaves(order: seq<string>, k: nat)
    requires k <= |order| && forall i, j :: 0 <= i < j < |order| ==> order[i] != order[j]
    requires Elements(order[..k]) <= Elements(order)
    ensures |Elements(order) - Elements(order[..k])| == |order| - k
  {
    var all, gone := Elements(order), Elements(order[..k]);
    ElementsSize(order);
    ElementsSize(order[..k]);
    assert all == gone + (all - gone);
  }

  /** The age rule's loop. */
  method RemoveOld(times: map<string, nat>, maxAge: nat, now: nat) returns (gone: set<string>)
    ensures gone == times.Keys - Young(times, maxAge, now)
  {
    gone := {};
    var todo := times.Keys;
    while todo != {}
      invariant todo <= times.Keys
      invariant gone == (times.Keys - todo) - Young(times, maxAge, now)
      decreases todo
    {
      var n :| n in todo;
      if !InAge(times[n], maxAge, now) {
        gone := gone + {n};
      }
      todo := todo - {n};
    }
  }

  /** How many of `n` archives are too many, the active file counted on top. */
  function Excess(n: nat, maxFiles: nat): nat {
    if n + 1 > maxFiles > 0 then n + 1 - maxFiles else 0
  }

  /** The loop over the sorted archives. */
  method RemoveFirst(order: seq<string>, maxFiles: nat) returns (gone: set<string>)
    requires maxFiles > 0
    ensures gone == Elements(order[..Excess(|order|, maxFiles)])
  {
    gone := {};
    var total := |order| + 1;
    var k := 0;
    while k < |order| && total > maxFiles
      invariant 0 <= k <= |order| && total == |order| + 1 - k
      invariant k > 0 ==> total >= maxFiles
      invariant gone == Elements(order[..k])
    {
      assert order[..k + 1] == order[..k] + [order[k]];
      ElementsPush(order[..k], order[k]);
      gone := gone + {order[k]};
      total := total - 1;
      k := k + 1;
    }
  }

  /** The count rule. */
  method RemoveExcess(times: map<string, nat>, young: set<string>, maxFiles: nat) returns (gone: set<string>)
    requires young <= times.Keys && maxFiles > 0
    ensures gone <= young && DropsOldest(times, young, gone)
    ensures |young - gone| == if |young| + 1 > maxFiles then maxFiles - 1 else |young|
  {
    var order := SortByModified(times, young);
    ElementsSize(order);
    gone := RemoveFirst(order, maxFiles);
    var i := Excess(|order|, maxFiles);
    PrefixDropsOldest(times, order, i);
    PrefixLeaves(order, i);
  }

  /** `listed` is 1 when the active file is in the listing. */
  method ChooseRemovals(times: map<string, nat>, listed: nat, maxFiles: nat, maxAge: nat, now: nat) returns (gone: set<string>)
    requires listed <= 1
    ensures IsRetention(times, listed, maxFiles, maxAge, now, gone)
  {
    var aged := RemoveOld(times, maxAge, now);
    var young := times.Keys - aged;
    assert young == Young(times, maxAge, now);
    var excess := {};
    if maxFiles > 0 && |young| + listed > maxFiles {
      excess := RemoveExcess(times, young, maxFiles);
    } else {
      assert young - excess == young;
    }
    gone := aged + excess;
    SplitRemovals(times.Keys, young, aged, excess);
  }

  lemma SplitRemovals(all: set<string>, young: set<string>, aged: set<string>, excess: set<string>)
    requires young <= all && aged == all - young && excess <= young
    ensures all - young <= aged + excess <= all
    ensures (aged + excess) * young == excess && young - (aged + excess) == young - excess
  {
  }

  // ----- what retention leaves behind -----

  /** The files retention counts. */
  function Matching(dir: Directory, base: string, current: string): set<string> {
    set n | n in dir && (n == current || StartsWith(n, base + "."))
  }

  lemma MatchingIsArchivesAndCurrent(dir: Directory, base: string, current: string)
    ensures Matching(dir, base, current) == Archives(dir, base, current).Keys + (if current in dir then {current} else {})
  {
  }

  lemma ArchivesAfter(dir: Directory, base: string, current: string, gone: set<string>)
    ensures Archives(dir - gone, base, current) == Archives(dir, base, current) - gone
  {
  }

  lemma LeftAfterRetention(dir: Directory, base: string, current: string, maxFiles: nat, maxAge: nat, now: nat, gone: set<string>)
    requires current in dir
    requires IsRetention(Archives(dir, base, current), 1, maxFiles, maxAge, now, gone)
    ensures
      var young := Young(Archives(dir, base, current), maxAge, now);
      && Archives(dir - gone, base, current).Keys == young - gone
      && |Matching(dir - gone, base, current)| == |young - gone| + 1
  {
    var times := Archives(dir, base, current);
    var young := Young(times, maxAge, now);
    ArchivesAfter(dir, base, current, gone);
    MatchingIsArchivesAndCurrent(dir - gone, base, current);
    assert (times - gone).Keys == young - gone;
    assert current !in young - gone;
    assert |(young - gone) + {current}| == |young - gone| + 1;
  }

  /** With every removal carried out: no archive left is past the age limit, none deleted for the count was newer
      than one left, the count is within `maxFiles`, nothing was deleted that the limits did not ask for, and
      nothing but archives went. */
  lemma RetentionHolds(dir: Directory, base: string, current: string, maxFiles: nat, maxAge: nat, now: nat, gone: set<string>)
    requires current in dir
    requires IsRetention(Archives(dir, base, current), 1, maxFiles, maxAge, now, gone)
    ensures current in dir - gone && forall n :: n in dir && n !in Matching(dir, base, current) ==> n in dir - gone
    ensures maxAge > 0 ==> forall n :: n in Archives(dir - gone, base, current) ==> dir[n].modified + maxAge >= now
    ensures forall r, k ::
      r in gone && (maxAge > 0 ==> dir[r].modified + maxAge >= now) && k in Archives(dir - gone, base, current) ==>
        dir[r].modified <= dir[k].modified
    ensures maxFiles > 0 ==> |Matching(dir - gone, base, current)| <= maxFiles
    ensures forall r :: r in gone && (maxAge > 0 ==> dir[r].modified + maxAge >= now) ==>
      0 < maxFiles == |Matching(dir - gone, base, current)|
  {
    var young := Young(Archives(dir, base, current), maxAge, now);
    LeftAfterRetention(dir, base, current, maxFiles, maxAge, now, gone);
    if |young - gone| == |young| {
      NothingTaken(young, gone);
    }
  }

  lemma NothingTaken(all: set<string>, part: set<string>)
    requires |all - part| == |all|
    ensures all * part == {}
  {
    assert all == (all - part) + (all * part);
  }

  /** With no limit set, nothing is deleted. */
  lemma NoLimitsKeepAll(times: map<string, nat>, listed: nat, now: nat, gone: set<string>)
    requires IsRetention(times, listed, 0, 0, now, gone)
    ensures gone == {}
  {
    var young := Young(times, 0, now);
    assert young == times.Keys;
    NothingTaken(young, gone);
    assert gone == young * gone;
  }
}
