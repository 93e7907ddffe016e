/** Two-level tables `user -> ip -> value`, the shape of every map of the IP tracker,
    and the sums over shards and tasks its counters are compared with. */
module Tables {

  type User = string

  datatype Ip = V4(bits: nat) | V6(bits: nat)

  type Pair = (User, Ip)

  type Table<V> = map<User, map<Ip, V>>

  /** The row of a user, empty when the user is absent. */
  function Row<V>(m: Table<V>, u: User): map<Ip, V> {
    if u in m then m[u] else map[]
  }

  /** The stored `(user, ip)` entries. */
  ghost function Pairs<V>(m: Table<V>): set<Pair> {
    set u, i | u in m && i in m[u] :: (u, i)
  }

  ghost function Slice<V>(u: User, row: map<Ip, V>): set<Pair> {
    set i | i in row :: (u, i)
  }

  lemma {:induction false} SliceSize<V>(u: User, row: map<Ip, V>)
    ensures |Slice(u, row)| == |row|
    decreases |row|
  {
    if row == map[] {
      assert Slice(u, row) == {};
    } else {
      var i :| i in row;
      var rest := row - {i};
      assert rest.Keys == row.Keys - {i};
      SliceSize(u, rest);
      assert Slice(u, row) == Slice(u, rest) + {(u, i)};
    }
  }

  lemma SetRowSet<V>(m: Table<V>, u: User, row: map<Ip, V>)
    ensures Pairs(m[u := row]) == (Pairs(m) - Slice(u, Row(m, u))) + Slice(u, row)
    ensures Slice(u, Row(m, u)) <= Pairs(m)
    ensures Pairs(m) - Slice(u, Row(m, u)) !! Slice(u, row)
  {
    var kept := Pairs(m) - Slice(u, Row(m, u));
    forall p | p in Pairs(m[u := row])
      ensures p in kept + Slice(u, row)
    {
      assert p.0 == u ==> p in Slice(u, row);
    }
    forall p | p in kept + Slice(u, row)
      ensures p in Pairs(m[u := row])
    {
      assert p.0 != u ==> p in Pairs(m);
    }
  }

  lemma SetRowPairs<V>(m: Table<V>, u: User, row: map<Ip, V>)
    ensures |Pairs(m[u := row])| == |Pairs(m)| - |Row(m, u)| + |row|
  {
    SetRowSet(m, u, row);
    SliceSize(u, Row(m, u));
    SliceSize(u, row);
  }

  lemma DropUserPairs<V>(m: Table<V>, u: User)
    ensures |Pairs(m - {u})| == |Pairs(m)| - |Row(m, u)|
  {
    SliceSize(u, Row(m, u));
    assert Slice(u, Row(m, u)) <= Pairs(m);
    assert Pairs(m - {u}) == Pairs(m) - Slice(u, Row(m, u));
  }

  /** Removing one IP of a row shrinks it by one. */
  lemma RemoveIpSize<V>(row: map<Ip, V>, ip: Ip)
    requires ip in row
    ensures |row - {ip}| == |row| - 1
  {
    assert (row - {ip}).Keys == row.Keys - {ip};
  }

  lemma InsertIpSize<V>(row: map<Ip, V>, ip: Ip, v: V)
    ensures |row[ip := v]| == |row| + (if ip in row then 0 else 1)
  {
    assert row[ip := v].Keys == row.Keys + {ip};
  }

  lemma PairsSubset<V, W>(m: Table<V>, n: Table<W>)
    requires Pairs(m) <= Pairs(n)
    ensures |Pairs(m)| <= |Pairs(n)|
  {
    SubsetSize(Pairs(m), Pairs(n));
  }

  lemma SubsetSize<T>(a: set<T>, b: set<T>)
    requires a <= b
    ensures |a| <= |b|
    ensures |b - a| == |b| - |a|
  {
    assert b == a + (b - a);
  }

  /** The sum of a sequence of naturals. */
  ghost function Sum(xs: seq<nat>): nat {
    if xs == [] then 0 else xs[0] + Sum(xs[1..])
  }

  lemma {:induction false} SumUpdate(xs: seq<nat>, i: nat, v: nat)
    requires i < |xs|
    ensures Sum(xs[i := v]) == Sum(xs) - xs[i] + v
    ensures xs[i] <= Sum(xs)
  {
    if i == 0 {
      assert xs[i := v] == [v] + xs[1..];
    } else {
      assert xs[i := v] == [xs[0]] + xs[1..][i - 1 := v];
      SumUpdate(xs[1..], i - 1, v);
    }
  }

  lemma {:induction false} SumAppend(xs: seq<nat>, v: nat)
    ensures Sum(xs + [v]) == Sum(xs) + v
  {
    if xs == [] {
      assert xs + [v] == [v];
    } else {
      assert (xs + [v])[1..] == xs[1..] + [v];
      SumAppend(xs[1..], v);
    }
  }

  lemma SumPrefix(a: seq<nat>, k: nat)
    requires k < |a|
    ensures Sum(a[..k + 1]) == Sum(a[..k]) + a[k]
  {
    assert a[..k + 1] == a[..k] + [a[k]];
    SumAppend(a[..k], a[k]);
  }

  lemma {:induction false} SumZero(xs: seq<nat>)
    requires forall i :: 0 <= i < |xs| ==> xs[i] == 0
    ensures Sum(xs) == 0
  {
    if xs != [] {
      SumZero(xs[1..]);
    }
  }

  /** A zero sum has only zero terms. */
  lemma SumZeroTerms(xs: seq<nat>, i: nat)
    requires i < |xs| && Sum(xs) == 0
    ensures xs[i] == 0
  {
    SumUpdate(xs, i, 0);
  }
}
