/** The config revision: an injective manifest of the source files, to be hashed, and the one file an edit can be
    written to. */
module ConfigRevision {
  import opened ConfigMerge
  import opened Wrappers

  /** A byte as a number, for the arithmetic of length prefixes. */
  type Octet = n: nat | n < 256
  type Bytes = seq<Octet>

  /** Source files by path. */
  type Graph = map<Bytes, Bytes>

  // ----- the manifest -----

  function Pow256(k: nat): (r: nat)
    ensures r > 0
  {
    if k == 0 then 1 else 256 * Pow256(k - 1)
  }

  /** The `k` low bytes of `n`, least significant first. */
  function LittleEndian(n: nat, k: nat): (r: Bytes)
    ensures |r| == k
  {
    if k == 0 then [] else [n % 256] + LittleEndian(n / 256, k - 1)
  }

  /** Byte `i` is digit `i` of the number to base 256. */
  lemma {:induction false} LittleEndianDigits(n: nat, k: nat, i: nat)
    requires i < k
    ensures LittleEndian(n, k)[i] == (n / Pow256(i)) % 256
  {
    if i > 0 {
      LittleEndianDigits(n / 256, k - 1, i - 1);
      DivideTwice(n, 256, Pow256(i - 1));
    }
  }

  lemma DivideTwice(n: nat, a: nat, b: nat)
    requires a > 0 && b > 0
    ensures a * b > 0 && n / a / b == n / (a * b)
  {
    var q, r := n / a, n % a;
    var p, s := q / b, q % b;
    Regroup(n, a, b, p, s, r);
    MulLe(a, s, b - 1);
    QuotientIs(n, a * b, p, a * s + r);
  }

  lemma Regroup(n: int, a: int, b: int, p: int, s: int, r: int)
    requires n == a * (b * p + s) + r
    ensures n == (a * b) * p + (a * s + r) && a * (b - 1) + a == a * b
  {
    assert a * (b * p) == (a * b) * p;
  }

  lemma MulLe(a: nat, x: int, y: int)
    requires x <= y
    ensures a * x <= a * y
  {
  }

  lemma QuotientIs(n: nat, m: nat, q: nat, r: nat)
    requires n == m * q + r && r < m
    ensures n / m == q
  {
    var d := n / m - q;
    assert m * (n / m) + n % m == m * q + r;
    assert m * d == r - n % m;
    if d > 0 {
      MulLe(m, 1, d);
    } else if d < 0 {
      MulLe(m, d, -1);
    }
  }

  lemma {:induction false} LittleEndianInjective(a: nat, b: nat, k: nat)
    requires a < Pow256(k) && b < Pow256(k) && LittleEndian(a, k) == LittleEndian(b, k)
    ensures a == b
  {
    if k > 0 {
      var x, y := LittleEndian(a, k), LittleEndian(b, k);
      assert x[0] == a % 256 && y[0] == b % 256;
      assert x[1..] == LittleEndian(a / 256, k - 1) && y[1..] == LittleEndian(b / 256, k - 1);
      LittleEndianInjective(a / 256, b / 256, k - 1);
    }
  }

  lemma Pow256OfEight()
    ensures Pow256(8) == U64_SIZE
  {
    assert Pow256(2) == 0x1_0000;
    assert Pow256(4) == 0x1_0000_0000;
    assert Pow256(6) == 0x1_0000_0000_0000;
  }

  /** A length-prefixed field; every length fits in 64 bits. */
  function Field(data: Bytes): (r: Bytes)
    ensures |r| == 8 + |data|
  {
    LittleEndian(|data|, 8) + data
  }

  lemma FieldInjective(a: Bytes, x: Bytes, b: Bytes, y: Bytes)
    requires |a| < U64_SIZE && |b| < U64_SIZE && Field(a) + x == Field(b) + y
    ensures a == b && x == y
  {
    var l, r := Field(a) + x, Field(b) + y;
    assert l[..8] == LittleEndian(|a|, 8) && r[..8] == LittleEndian(|b|, 8);
    Pow256OfEight();
    LittleEndianInjective(|a|, |b|, 8);
    assert l[8..8 + |a|] == a && r[8..8 + |b|] == b;
    assert l[8 + |a|..] == x && r[8 + |b|..] == y;
  }

  datatype Entry = Entry(path: Bytes, content: Bytes)

  predicate Sized(e: Entry) {
    |e.path| < U64_SIZE && |e.content| < U64_SIZE
  }

  function Encoded(entries: seq<Entry>): Bytes {
    if entries == [] then []
    else Field(entries[0].path) + (Field(entries[0].content) + Encoded(entries[1..]))
  }

  /** Length-prefixed records read back one way only. */
  lemma {:induction false} EncodedInjective(a: seq<Entry>, b: seq<Entry>)
    requires (forall e :: e in a ==> Sized(e)) && (forall e :: e in b ==> Sized(e))
    requires Encoded(a) == Encoded(b)
    ensures a == b
  {
    if a != [] && b != [] {
      assert Sized(a[0]) && Sized(b[0]);
      FieldInjective(a[0].path, Field(a[0].content) + Encoded(a[1..]), b[0].path, Field(b[0].content) + Encoded(b[1..]));
      FieldInjective(a[0].content, Encoded(a[1..]), b[0].content, Encoded(b[1..]));
      EncodedInjective(a[1..], b[1..]);
      assert a == [a[0]] + a[1..] && b == [b[0]] + b[1..];
    } else {
      assert a == [] ==> |Encoded(a)| == 0;
      assert b == [] ==> |Encoded(b)| == 0;
    }
  }

  /** The order a sorted map visits its keys in: each key once. */
  type KeyOrder = set<Bytes> -> seq<Bytes>

  ghost predicate Enumerates(order: KeyOrder) {
    forall keys: set<Bytes> ::
      (forall k :: k in order(keys) <==> k in keys) && (forall i, j :: 0 <= i < j < |order(keys)| ==> order(keys)[i] != order(keys)[j])
  }

  function Listing(keys: seq<Bytes>, g: Graph): seq<Entry>
    requires forall k :: k in keys ==> k in g
  {
    seq(|keys|, i requires 0 <= i < |keys| => assert keys[i] in keys; Entry(keys[i], g[keys[i]]))
  }

  ghost predicate SizedGraph(g: Graph) {
    forall k :: k in g ==> |k| < U64_SIZE && |g[k]| < U64_SIZE
  }

  /** "tupoproxy-config-manifest-v1" and a zero byte. */
  const HEADER: Bytes := [
    116, 117, 112, 111, 112, 114, 111, 120, 121, 45, 99, 111, 110, 102, 105, 103, 45,
    109, 97, 110, 105, 102, 101, 115, 116, 45, 118, 49, 0]

  function Manifest(order: KeyOrder, g: Graph): Bytes
    requires forall k :: k in order(g.Keys) ==> k in g
  {
    HEADER + Encoded(Listing(order(g.Keys), g))
  }

  /** Two source graphs with one manifest are the same graph. */
  lemma ManifestInjective(order: KeyOrder, a: Graph, b: Graph)
    requires Enumerates(order) && SizedGraph(a) && SizedGraph(b)
    requires Manifest(order, a) == Manifest(order, b)
    ensures a == b
  {
    var x, y := Listing(order(a.Keys), a), Listing(order(b.Keys), b);
    assert Manifest(order, a)[|HEADER|..] == Encoded(x) && Manifest(order, b)[|HEADER|..] == Encoded(y);
    EncodedInjective(x, y);
    ListingDetermines(order(a.Keys), a, order(b.Keys), b);
  }

  lemma ListingDetermines(ka: seq<Bytes>, a: Graph, kb: seq<Bytes>, b: Graph)
    requires (forall k :: k in ka <==> k in a) && (forall k :: k in kb <==> k in b)
    requires Listing(ka, a) == Listing(kb, b)
    ensures a == b
  {
    var x, y := Listing(ka, a), Listing(kb, b);
    assert |x| == |ka| && |y| == |kb|;
    forall i | 0 <= i < |ka|
      ensures ka[i] == kb[i] && a[ka[i]] == b[kb[i]]
    {
      assert x[i] == y[i];
    }
    assert ka == kb;
    forall k | k in a
      ensures k in b && a[k] == b[k]
    {
      assert k in ka;
      var i :| 0 <= i < |ka| && ka[i] == k;
    }
  }

  /** One length and one byte string, as the hasher receives them. */
  method UpdateField(out: Bytes, data: Bytes) returns (r: Bytes)
    ensures r == out + Field(data)
  {
    r := out + LittleEndian(|data|, 8);
    r := r + data;
  }

  lemma ManifestNext(out: Bytes, listing: seq<Entry>, i: nat)
    requires i < |listing| && out == HEADER + Encoded(listing[..i])
    ensures (out + Field(listing[i].path)) + Field(listing[i].content) == HEADER + Encoded(listing[..i + 1])
  {
    EncodedAppend(listing[..i], listing[i]);
    assert listing[..i + 1] == listing[..i] + [listing[i]];
  }

  /** `compute_source_revision` up to the hash: the updates the hasher receives, concatenated. */
  method ManifestBytes(order: KeyOrder, g: Graph) returns (out: Bytes)
    requires forall k :: k in order(g.Keys) ==> k in g
    ensures out == Manifest(order, g)
  {
    var keys := order(g.Keys);
    ghost var listing := Listing(keys, g);
    out := HEADER;
    for i := 0 to |keys|
      invariant out == HEADER + Encoded(listing[..i])
    {
      assert keys[i] in keys;
      ManifestNext(out, listing, i);
      out := UpdateField(out, keys[i]);
      out := UpdateField(out, g[keys[i]]);
    }
    assert listing[..|keys|] == listing;
  }

  lemma {:induction false} EncodedAppend(entries: seq<Entry>, e: Entry)
    ensures Encoded(entries + [e]) == Encoded(entries) + (Field(e.path) + Field(e.content))
  {
    if entries == [] {
      assert entries + [e] == [e];
      assert Encoded([e]) == Field(e.path) + (Field(e.content) + []);
    } else {
      assert (entries + [e])[1..] == entries[1..] + [e];
      EncodedAppend(entries[1..], e);
    }
  }

  // ----- the owner of an edit -----

  /** The files that define a section. */
  function Owners(parse: Bytes -> Option<Toml>, sources: Graph, target: Path): set<Bytes> {
    set f | f in sources && parse(sources[f]).Some? && Lookup(parse(sources[f]).value, target).Some?
  }

  /** An edit of these sections can be written to one file: everything parses on its own, no file nests an
      include in a table, no other file defines a section, and sections nobody defines go to the root. */
  predicate OwnedBy(parse: Bytes -> Option<Toml>, nested: Bytes -> bool, sources: Graph, root: Bytes,
                    targets: seq<Path>, owner: Bytes) {
    && targets != []
    && (forall f :: f in sources ==> !nested(sources[f]) && parse(sources[f]).Some?)
    && (forall t :: t in targets ==>
          Owners(parse, sources, t) <= {owner} && (Owners(parse, sources, t) == {} ==> owner == root))
  }

  /** `resolve_single_source_owner`. */
  method ResolveSingleSourceOwner(parse: Bytes -> Option<Toml>, nested: Bytes -> bool, sources: Graph, root: Bytes,
                                  targets: seq<Path>) returns (owner: Option<Bytes>)
    ensures owner.Some? ==> OwnedBy(parse, nested, sources, root, targets, owner.value)
    ensures owner.None? ==> forall f :: !OwnedBy(parse, nested, sources, root, targets, f)
  {
    if exists f :: f in sources && nested(sources[f]) {
      return None;
    }
    var mutationOwners: set<Bytes> := {};
    for i := 0 to |targets|
      invariant i > 0 ==> AllParse(parse, sources)
      invariant Collects(parse, sources, root, targets[..i], mutationOwners)
    {
      if !AllParse(parse, sources) {
        UnparsedRefuses(parse, nested, sources, root, targets, i);
        return None;
      }
      var owners := Owners(parse, sources, targets[i]);
      if |owners| > 1 {
        TwoOwnersRefuse(parse, nested, sources, root, targets, i);
        return None;
      }
      CollectsNext(parse, sources, root, targets, i, mutationOwners);
      mutationOwners := mutationOwners + (if owners == {} then {root} else owners);
    }
    assert targets[..|targets|] == targets;
    if |mutationOwners| != 1 {
      NotOneRefuses(parse, nested, sources, root, targets, mutationOwners);
      return None;
    }
    var only :| only in mutationOwners;
    OneAccepts(parse, nested, sources, root, targets, mutationOwners, only);
    owner := Some(only);
  }

  predicate AllParse(parse: Bytes -> Option<Toml>, sources: Graph) {
    forall f :: f in sources ==> parse(sources[f]).Some?
  }

  lemma UnparsedRefuses(parse: Bytes -> Option<Toml>, nested: Bytes -> bool, sources: Graph, root: Bytes,
                        targets: seq<Path>, i: nat)
    requires i < |targets| && !AllParse(parse, sources)
    ensures forall f :: !OwnedBy(parse, nested, sources, root, targets, f)
  {
  }

  /** Where one section would be written. */
  function Target(parse: Bytes -> Option<Toml>, sources: Graph, root: Bytes, target: Path): set<Bytes> {
    var owners := Owners(parse, sources, target);
    if owners == {} then {root} else owners
  }

  lemma TwoOwnersRefuse(parse: Bytes -> Option<Toml>, nested: Bytes -> bool, sources: Graph, root: Bytes,
                        targets: seq<Path>, i: nat)
    requires i < |targets| && |Owners(parse, sources, targets[i])| > 1
    ensures forall f :: !OwnedBy(parse, nested, sources, root, targets, f)
  {
    assert targets[i] in targets;
    forall f
      ensures !OwnedBy(parse, nested, sources, root, targets, f)
    {
      if Owners(parse, sources, targets[i]) <= {f} {
        SubsetOfOne(Owners(parse, sources, targets[i]), f);
      }
    }
  }

  lemma SubsetOfOne(s: set<Bytes>, f: Bytes)
    requires s <= {f}
    ensures |s| <= 1
  {
    assert {f} == s + ({f} - s);
  }

  ghost predicate Collects(parse: Bytes -> Option<Toml>, sources: Graph, root: Bytes, targets: seq<Path>, all: set<Bytes>) {
    forall f :: f in all <==> exists j :: 0 <= j < |targets| && f in Target(parse, sources, root, targets[j])
  }

  lemma CollectsNext(parse: Bytes -> Option<Toml>, sources: Graph, root: Bytes, targets: seq<Path>, i: nat, all: set<Bytes>)
    requires i < |targets| && Collects(parse, sources, root, targets[..i], all)
    ensures Collects(parse, sources, root, targets[..i + 1], all + Target(parse, sources, root, targets[i]))
  {
    var before, after := targets[..i], targets[..i + 1];
    forall f | f in all
      ensures exists j :: 0 <= j < |after| && f in Target(parse, sources, root, after[j])
    {
      var j :| 0 <= j < |before| && f in Target(parse, sources, root, before[j]);
      assert after[j] == before[j];
    }
    forall j, f | 0 <= j < |after| && f in Target(parse, sources, root, after[j])
      ensures f in all + Target(parse, sources, root, targets[i])
    {
      if j < i {
        assert before[j] == after[j];
      }
    }
    assert after[i] == targets[i];
  }

  lemma OwnedMeansOne(parse: Bytes -> Option<Toml>, nested: Bytes -> bool, sources: Graph, root: Bytes,
                      targets: seq<Path>, all: set<Bytes>, f: Bytes)
    requires Collects(parse, sources, root, targets, all) && OwnedBy(parse, nested, sources, root, targets, f)
    ensures all == {f}
  {
    forall j | 0 <= j < |targets|
      ensures Target(parse, sources, root, targets[j]) == {f}
    {
      assert targets[j] in targets;
    }
    assert f in Target(parse, sources, root, targets[0]);
  }

  lemma NotOneRefuses(parse: Bytes -> Option<Toml>, nested: Bytes -> bool, sources: Graph, root: Bytes,
                      targets: seq<Path>, all: set<Bytes>)
    requires Collects(parse, sources, root, targets, all) && |all| != 1
    ensures forall f :: !OwnedBy(parse, nested, sources, root, targets, f)
  {
    forall f
      ensures !OwnedBy(parse, nested, sources, root, targets, f)
    {
      if OwnedBy(parse, nested, sources, root, targets, f) {
        OwnedMeansOne(parse, nested, sources, root, targets, all, f);
      }
    }
  }

  lemma OneAccepts(parse: Bytes -> Option<Toml>, nested: Bytes -> bool, sources: Graph, root: Bytes,
                   targets: seq<Path>, all: set<Bytes>, only: Bytes)
    requires Collects(parse, sources, root, targets, all) && |all| == 1 && only in all
    requires forall f :: f in sources ==> !nested(sources[f]) && parse(sources[f]).Some?
    ensures OwnedBy(parse, nested, sources, root, targets, only)
  {
    assert all == {only} by {
      assert |all - {only}| == 0;
    }
    forall t | t in targets
      ensures Owners(parse, sources, t) <= {only} && (Owners(parse, sources, t) == {} ==> only == root)
    {
      var j :| 0 <= j < |targets| && targets[j] == t;
      forall f | f in Target(parse, sources, root, targets[j])
        ensures f in all
      {
      }
      assert Target(parse, sources, root, t) <= all;
    }
  }
}
