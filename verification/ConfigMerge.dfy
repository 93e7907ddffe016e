/** The config-editing API's patches: JSON to TOML, the editable-section rules, and the sparse merge. */
module ConfigMerge {
  import opened Wrappers

  datatype Scalar = Text(s: string) | Integer(i: int) | Float(r: real) | Boolean(b: bool)

  datatype Toml = Leaf(scalar: Scalar) | Array(items: seq<Toml>) | Table(entries: map<string, Toml>)

  type Path = seq<string>

  // ----- the merge -----

  /** `deep_merge` key by key: tables merge, everything else is replaced. */
  function Merge(base: Toml, patch: Toml): Toml
    decreases patch
  {
    if base.Table? && patch.Table? then
      Table(map k | k in base.entries.Keys + patch.entries.Keys ::
        if k !in patch.entries then base.entries[k]
        else if k !in base.entries then patch.entries[k]
        else Merge(base.entries[k], patch.entries[k]))
    else patch
  }

  /** The recursive overlay with its loop over the patch's keys, in any order. */
  method DeepMerge(base: Toml, patch: Toml) returns (merged: Toml)
    ensures merged == Merge(base, patch) && forall path :: OverlaidAt(base, patch, merged, path)
    decreases patch
  {
    forall path: Path {
      MergeAtPath(base, patch, path);
    }
    if !(base.Table? && patch.Table?) {
      return patch;
    }
    var entries := base.entries;
    var todo := patch.entries.Keys;
    while todo != {}
      invariant todo <= patch.entries.Keys
      invariant entries.Keys == base.entries.Keys + (patch.entries.Keys - todo)
      invariant forall k :: k in entries ==>
        (entries[k] ==
         if k !in patch.entries || k in todo then base.entries[k]
         else if k in base.entries then Merge(base.entries[k], patch.entries[k])
         else patch.entries[k])
      decreases todo
    {
      var k :| k in todo;
      if k in entries {
        var v := DeepMerge(entries[k], patch.entries[k]);
        entries := entries[k := v];
      } else {
        entries := entries[k := patch.entries[k]];
      }
      todo := todo - {k};
    }
    merged := Table(entries);
    assert merged.entries == Merge(base, patch).entries;
  }

  /** The value at a path. */
  function Lookup(t: Toml, path: Path): Option<Toml> {
    if path == [] then Some(t)
    else if t.Table? && path[0] in t.entries then Lookup(t.entries[path[0]], path[1..])
    else None
  }

  /** How a patch meets a path: it has a value there, it does not mention it, or it puts a non-table
      value above it. */
  datatype Meeting = At(value: Toml) | Misses | Covers

  function Meet(patch: Toml, path: Path): Meeting {
    if path == [] then At(patch)
    else if !patch.Table? then Covers
    else if path[0] in patch.entries then Meet(patch.entries[path[0]], path[1..])
    else Misses
  }

  lemma MergedEntry(base: Toml, patch: Toml, k: string)
    requires base.Table? && patch.Table?
    ensures Merge(base, patch).Table?
    ensures k in Merge(base, patch).entries <==> k in base.entries || k in patch.entries
    ensures k in Merge(base, patch).entries ==>
      (Merge(base, patch).entries[k] ==
       if k !in patch.entries then base.entries[k]
       else if k !in base.entries then patch.entries[k]
       else Merge(base.entries[k], patch.entries[k]))
  {
  }

  lemma {:induction false} MeetIsLookup(patch: Toml, path: Path)
    ensures Meet(patch, path).At? ==> Lookup(patch, path) == Some(Meet(patch, path).value)
    ensures !Meet(patch, path).At? ==> Lookup(patch, path) == None
    decreases path
  {
    if path != [] && patch.Table? && path[0] in patch.entries {
      MeetIsLookup(patch.entries[path[0]], path[1..]);
    }
  }

  lemma {:induction false} MergeBelow(base: Toml, patch: Toml, path: Path)
    ensures
      var merged, old_ := Lookup(Merge(base, patch), path), Lookup(base, path);
      match Meet(patch, path)
      case Misses => merged == old_
      case Covers => merged == None
      case At(v) => merged == Some(if old_.Some? then Merge(old_.value, v) else v)
    decreases path
  {
    if path != [] && patch.Table? {
      var k := path[0];
      if base.Table? {
        MergedEntry(base, patch, k);
        if k in patch.entries {
          if k in base.entries {
            MergeBelow(base.entries[k], patch.entries[k], path[1..]);
          } else {
            MeetIsLookup(patch.entries[k], path[1..]);
          }
        }
      } else {
        MeetIsLookup(patch, path);
      }
    }
  }

  /** What the overlay of `patch` on `base` has at a path. A path the patch misses keeps the base's value, and below a
      non-table patch value there is nothing. Where the patch has a value, it replaces what was there unless both are
      tables; two tables give a table with the keys of both. */
  ghost predicate OverlaidAt(base: Toml, patch: Toml, merged: Toml, path: Path) {
    var before, after := Lookup(base, path), Lookup(merged, path);
    match Meet(patch, path)
    case Misses => after == before
    case Covers => after == None
    case At(v) =>
      if v.Table? && before.Some? && before.value.Table?
      then after.Some? && after.value.Table? && after.value.entries.Keys == before.value.entries.Keys + v.entries.Keys
      else after == Some(v)
  }

  lemma MergeAtPath(base: Toml, patch: Toml, path: Path)
    ensures OverlaidAt(base, patch, Merge(base, patch), path)
  {
    MergeBelow(base, patch, path);
  }

  /** Nothing, two tables, or one and the same value. */
  ghost predicate AlikeAt(a: Toml, b: Toml, path: Path) {
    var x, y := Lookup(a, path), Lookup(b, path);
    x == y || (x.Some? && y.Some? && x.value.Table? && y.value.Table?)
  }

  lemma {:induction false} PathsDetermine(a: Toml, b: Toml)
    requires forall path :: AlikeAt(a, b, path)
    ensures a == b
    decreases a
  {
    assert AlikeAt(a, b, []);
    if a.Table? {
      forall k | k in a.entries || k in b.entries
        ensures k in a.entries && k in b.entries && a.entries[k] == b.entries[k]
      {
        assert [k][1..] == [];
        assert Lookup(a, [k]) == if k in a.entries then Some(a.entries[k]) else None;
        assert Lookup(b, [k]) == if k in b.entries then Some(b.entries[k]) else None;
        assert AlikeAt(a, b, [k]);
        forall path: Path
          ensures AlikeAt(a.entries[k], b.entries[k], path)
        {
          assert ([k] + path)[0] == k && ([k] + path)[1..] == path;
          assert AlikeAt(a, b, [k] + path);
        }
        PathsDetermine(a.entries[k], b.entries[k]);
      }
      assert a.entries == b.entries;
    }
  }

  /** The overlay is determined by its paths: nothing else has these values. */
  lemma OverlayIsMerge(base: Toml, patch: Toml, merged: Toml)
    requires forall path :: OverlaidAt(base, patch, merged, path)
    ensures merged == Merge(base, patch)
  {
    forall path: Path
      ensures AlikeAt(Merge(base, patch), merged, path)
    {
      assert OverlaidAt(base, patch, merged, path);
      MergeAtPath(base, patch, path);
    }
    PathsDetermine(Merge(base, patch), merged);
  }

  /** Merging the same patch again changes nothing. */
  lemma {:induction false} MergeIsIdempotent(base: Toml, patch: Toml)
    ensures Merge(Merge(base, patch), patch) == Merge(base, patch)
    decreases patch
  {
    var once := Merge(base, patch);
    if patch.Table? {
      var twice := Merge(once, patch);
      forall k | k in patch.entries
        ensures Merge(once.entries[k], patch.entries[k]) == once.entries[k]
      {
        if base.Table? && k in base.entries {
          MergeIsIdempotent(base.entries[k], patch.entries[k]);
        } else {
          MergeWithItself(patch.entries[k]);
        }
      }
      assert twice.entries.Keys == once.entries.Keys;
      assert twice.entries == once.entries;
    }
  }

  lemma {:induction false} MergeWithItself(patch: Toml)
    ensures Merge(patch, patch) == patch
  {
    if patch.Table? {
      forall k | k in patch.entries
        ensures Merge(patch.entries[k], patch.entries[k]) == patch.entries[k]
      {
        MergeWithItself(patch.entries[k]);
      }
      assert Merge(patch, patch).entries == patch.entries;
    }
  }

  // ----- which patches are accepted -----

  const EDITABLE_SECTIONS := {"general", "timeouts", "censorship", "upstreams", "dc_overrides"}
  const EDITABLE_SERVER_FIELDS := {"listeners"}

  predicate IsEditableSection(key: string) {
    key in EDITABLE_SECTIONS || key == "server"
  }

  datatype Refusal =
    | NotAnObject
    | AccessNotEditable
    | SectionNotEditable(section: string)
    | ServerNotAnObject
    | EmptyServerPatch
    | FieldNotEditable(field: string)
    | EmptyPatch

  predicate ServerPatchOk(server: Toml) {
    server.Table? && server.entries != map[] && server.entries.Keys <= EDITABLE_SERVER_FIELDS
  }

  predicate Acceptable(patch: Toml) {
    && patch.Table? && patch.entries != map[]
    && (forall k :: k in patch.entries ==> IsEditableSection(k))
    && ("server" in patch.entries ==> ServerPatchOk(patch.entries["server"]))
  }

  /** By name: the six editable sections, and of `server` only `listeners`. */
  lemma AcceptableIff(patch: Toml)
    ensures Acceptable(patch) <==>
      && patch.Table? && patch.entries != map[]
      && patch.entries.Keys <= {"general", "timeouts", "censorship", "upstreams", "dc_overrides", "server"}
      && ("server" in patch.entries ==>
            patch.entries["server"].Table? && patch.entries["server"].entries.Keys == {"listeners"})
  {
    if patch.Table? && "server" in patch.entries && ServerPatchOk(patch.entries["server"]) {
      var fields := patch.entries["server"].entries;
      var f :| f in fields;
      assert f == "listeners" && fields.Keys == {"listeners"};
    }
  }

  /** `validate_server_patch`. */
  method ValidateServerPatch(server: Toml) returns (refusal: Option<Refusal>)
    ensures refusal == None <==> ServerPatchOk(server)
    ensures !server.Table? ==> refusal == Some(ServerNotAnObject)
    ensures server == Table(map[]) ==> refusal == Some(EmptyServerPatch)
    ensures refusal.Some? ==>
      refusal.value.ServerNotAnObject? || refusal.value.EmptyServerPatch? || refusal.value.FieldNotEditable?
    ensures refusal.Some? && refusal.value.FieldNotEditable? ==>
      server.Table? && refusal.value.field in server.entries && refusal.value.field !in EDITABLE_SERVER_FIELDS
  {
    if !server.Table? {
      return Some(ServerNotAnObject);
    }
    if server.entries == map[] {
      return Some(EmptyServerPatch);
    }
    var todo := server.entries.Keys;
    while todo != {}
      invariant todo <= server.entries.Keys
      invariant server.entries.Keys - todo <= EDITABLE_SERVER_FIELDS
      decreases todo
    {
      var k :| k in todo;
      if k !in EDITABLE_SERVER_FIELDS {
        return Some(FieldNotEditable(k));
      }
      todo := todo - {k};
    }
    refusal := None;
  }

  /** The checks of `prepare_patch_to_path` before the merge. */
  method ValidatePatch(patch: Toml) returns (refusal: Option<Refusal>)
    ensures refusal == None <==> Acceptable(patch)
    ensures !patch.Table? ==> refusal == Some(NotAnObject)
    ensures patch == Table(map[]) ==> refusal == Some(EmptyPatch)
    ensures patch.Table? && "access" in patch.entries ==> refusal == Some(AccessNotEditable)
    ensures refusal.Some? && refusal.value.SectionNotEditable? ==>
      patch.Table? && refusal.value.section in patch.entries && !IsEditableSection(refusal.value.section)
  {
    if !patch.Table? {
      return Some(NotAnObject);
    }
    if "access" in patch.entries {
      return Some(AccessNotEditable);
    }
    var todo := patch.entries.Keys;
    while todo != {}
      invariant todo <= patch.entries.Keys
      invariant forall k :: k in patch.entries && k !in todo ==> IsEditableSection(k)
      invariant "server" in patch.entries && "server" !in todo ==> ServerPatchOk(patch.entries["server"])
      decreases todo
    {
      var k :| k in todo;
      if !IsEditableSection(k) {
        return Some(SectionNotEditable(k));
      }
      if k == "server" {
        var bad := ValidateServerPatch(patch.entries[k]);
        if bad.Some? {
          return bad;
        }
      }
      todo := todo - {k};
    }
    refusal := if patch.entries == map[] then Some(EmptyPatch) else None;
  }

  /** An accepted patch leaves every section outside the editable list exactly as it was. */
  lemma OtherSectionsUntouched(base: Toml, patch: Toml, section: string, rest: Path)
    requires Acceptable(patch)
    requires section !in {"general", "timeouts", "censorship", "upstreams", "dc_overrides", "server"}
    ensures Lookup(Merge(base, patch), [section] + rest) == Lookup(base, [section] + rest)
  {
    AcceptableIff(patch);
    MergeBelow(base, patch, [section] + rest);
    assert Meet(patch, [section] + rest) == Misses;
  }

  /** And every field of `server` but `listeners`. */
  lemma OtherServerFieldsUntouched(base: Toml, patch: Toml, field: string, rest: Path)
    requires Acceptable(patch) && field != "listeners"
    ensures Lookup(Merge(base, patch), ["server", field] + rest) == Lookup(base, ["server", field] + rest)
  {
    AcceptableIff(patch);
    var path := ["server", field] + rest;
    MergeAtPath(base, patch, path);
    if "server" in patch.entries {
      assert path[1..] == [field] + rest;
      assert Meet(patch.entries["server"], path[1..]) == Misses;
    }
  }

  // ----- JSON -----

  datatype JsonNumber = JsonNumber(asI64: Option<int>, asF64: Option<real>)

  datatype Json =
    | Null
    | JsonBool(b: bool)
    | JsonNum(n: JsonNumber)
    | JsonText(s: string)
    | JsonArray(items: seq<Json>)
    | JsonObject(fields: map<string, Json>)

  /** A value TOML can hold: no null except as an object's field, and only representable numbers. */
  predicate Representable(j: Json) {
    match j
    case Null => false
    case JsonNum(n) => n.asI64.Some? || n.asF64.Some?
    case JsonArray(items) => forall x :: x in items ==> Representable(x)
    case JsonObject(fields) => forall k :: k in fields ==> fields[k].Null? || Representable(fields[k])
    case _ => true
  }

  /** The TOML value of a representable JSON value; null fields are dropped. */
  function ToToml(j: Json): Toml
    requires Representable(j)
  {
    match j
    case JsonBool(b) => Leaf(Boolean(b))
    case JsonNum(n) => Leaf(if n.asI64.Some? then Integer(n.asI64.value) else Float(n.asF64.value))
    case JsonText(s) => Leaf(Text(s))
    case JsonArray(items) =>
      Array(seq(|items|, i requires 0 <= i < |items| => assert items[i] in items; ToToml(items[i])))
    case JsonObject(fields) =>
      Table(map k | k in fields && !fields[k].Null? :: ToToml(fields[k]))
  }

  /** `json_to_toml` with its loops: it succeeds exactly on the representable values. */
  method JsonToToml(j: Json) returns (r: Option<Toml>)
    ensures r == if Representable(j) then Some(ToToml(j)) else None
    decreases j, 1
  {
    match j
    case Null =>
      r := None;
    case JsonBool(b) =>
      r := Some(Leaf(Boolean(b)));
    case JsonNum(n) =>
      if n.asI64.Some? {
        r := Some(Leaf(Integer(n.asI64.value)));
      } else if n.asF64.Some? {
        r := Some(Leaf(Float(n.asF64.value)));
      } else {
        r := None;
      }
    case JsonText(s) =>
      r := Some(Leaf(Text(s)));
    case JsonArray(items) =>
      r := ConvertItems(j);
    case JsonObject(fields) =>
      r := ConvertFields(j);
  }

  method ConvertItems(j: Json) returns (r: Option<Toml>)
    requires j.JsonArray?
    ensures r == if Representable(j) then Some(ToToml(j)) else None
    decreases j, 0
  {
    var items := j.items;
    var out := [];
    for i := 0 to |items|
      invariant |out| == i
      invariant forall k :: 0 <= k < i ==> Representable(items[k]) && out[k] == ToToml(items[k])
    {
      assert items[i] in items;
      var v := JsonToToml(items[i]);
      if v.None? {
        return None;
      }
      out := out + [v.value];
    }
    r := Some(Array(out));
    assert forall x :: x in items ==> Representable(x);
    assert out == ToToml(j).items;
  }

  method ConvertFields(j: Json) returns (r: Option<Toml>)
    requires j.JsonObject?
    ensures r == if Representable(j) then Some(ToToml(j)) else None
    decreases j, 0
  {
    var fields := j.fields;
    var table: map<string, Toml> := map[];
    var todo := fields.Keys;
    while todo != {}
      invariant todo <= fields.Keys
      invariant forall k :: k in fields && k !in todo ==> fields[k].Null? || Representable(fields[k])
      invariant forall k :: k in table <==> k in fields && k !in todo && !fields[k].Null?
      invariant forall k :: k in table ==> table[k] == ToToml(fields[k])
      decreases todo
    {
      var k :| k in todo;
      if !fields[k].Null? {
        var v := JsonToToml(fields[k]);
        if v.None? {
          return None;
        }
        table := table[k := v.value];
      }
      todo := todo - {k};
    }
    r := Some(Table(table));
    assert table == ToToml(j).entries;
  }

  datatype Crumb = Key(key: string) | Index(index: nat)

  /** The value at a trail of field names and array positions. */
  function JsonGet(j: Json, trail: seq<Crumb>): Option<Json> {
    if trail == [] then Some(j)
    else if trail[0].Key? && j.JsonObject? && trail[0].key in j.fields then JsonGet(j.fields[trail[0].key], trail[1..])
    else if trail[0].Index? && j.JsonArray? && trail[0].index < |j.items| then JsonGet(j.items[trail[0].index], trail[1..])
    else None
  }

  function TomlGet(t: Toml, trail: seq<Crumb>): Option<Toml> {
    if trail == [] then Some(t)
    else if trail[0].Key? && t.Table? && trail[0].key in t.entries then TomlGet(t.entries[trail[0].key], trail[1..])
    else if trail[0].Index? && t.Array? && trail[0].index < |t.items| then TomlGet(t.items[trail[0].index], trail[1..])
    else None
  }

  /** A value TOML cannot hold: a number that is neither a signed 64-bit integer nor a float, or a null that is not an
      object's field. */
  ghost predicate Unrepresentable(j: Json, trail: seq<Crumb>) {
    match JsonGet(j, trail)
    case None => false
    case Some(v) =>
      (v.JsonNum? && v.n.asI64.None? && v.n.asF64.None?) || (v.Null? && !(trail != [] && trail[|trail| - 1].Key?))
  }

  lemma UnrepresentableBelow(j: Json, c: Crumb, trail: seq<Crumb>)
    requires
      || (c.Key? && j.JsonObject? && c.key in j.fields)
      || (c.Index? && j.JsonArray? && c.index < |j.items|)
    ensures
      var below := if c.Key? then j.fields[c.key] else j.items[c.index];
      && JsonGet(j, [c] + trail) == JsonGet(below, trail)
      && (Unrepresentable(j, [c] + trail) <==> Unrepresentable(below, trail) && !(trail == [] && c.Key? && below.Null?))
  {
    assert ([c] + trail)[0] == c && ([c] + trail)[1..] == trail;
    if trail != [] {
      assert ([c] + trail)[|trail|] == trail[|trail| - 1];
    }
  }

  /** A value converts if and only if there is no such value anywhere in it. */
  lemma {:induction false} RepresentableIff(j: Json)
    ensures Representable(j) <==> !exists trail :: Unrepresentable(j, trail)
    decreases j
  {
    if !Representable(j) {
      var trail := Offender(j);
    } else {
      forall trail
        ensures !Unrepresentable(j, trail)
      {
        NoOffender(j, trail);
      }
    }
  }

  lemma {:induction false} NoOffender(j: Json, trail: seq<Crumb>)
    requires Representable(j)
    ensures !Unrepresentable(j, trail)
    decreases trail
  {
    if trail != [] {
      var c, rest := trail[0], trail[1..];
      assert trail == [c] + rest;
      if c.Key? && j.JsonObject? && c.key in j.fields {
        UnrepresentableBelow(j, c, rest);
        if !j.fields[c.key].Null? {
          NoOffender(j.fields[c.key], rest);
        }
      } else if c.Index? && j.JsonArray? && c.index < |j.items| {
        assert j.items[c.index] in j.items;
        UnrepresentableBelow(j, c, rest);
        NoOffender(j.items[c.index], rest);
      }
    }
  }

  lemma {:induction false} Offender(j: Json) returns (trail: seq<Crumb>)
    requires !Representable(j)
    ensures Unrepresentable(j, trail)
    decreases j
  {
    match j
    case JsonArray(items) =>
      var x :| x in items && !Representable(x);
      var i :| 0 <= i < |items| && items[i] == x;
      var below := Offender(items[i]);
      UnrepresentableBelow(j, Index(i), below);
      trail := [Index(i)] + below;
    case JsonObject(fields) =>
      var k :| k in fields && !fields[k].Null? && !Representable(fields[k]);
      var below := Offender(fields[k]);
      UnrepresentableBelow(j, Key(k), below);
      trail := [Key(k)] + below;
    case _ =>
      trail := [];
  }

  /** The conversion at every trail: booleans, texts and numbers keep their values, a number being an integer when it
      is a signed 64-bit one; arrays keep their length, objects the fields that are not null; nothing else appears. */
  lemma {:induction false} ConvertedAt(j: Json, trail: seq<Crumb>)
    requires Representable(j)
    ensures
      var there := TomlGet(ToToml(j), trail);
      match JsonGet(j, trail)
      case None => there == None
      case Some(v) =>
        match v
        case Null => there == None
        case JsonBool(b) => there == Some(Leaf(Boolean(b)))
        case JsonText(s) => there == Some(Leaf(Text(s)))
        case JsonNum(n) =>
          if n.asI64.Some? then there == Some(Leaf(Integer(n.asI64.value)))
          else n.asF64.Some? && there == Some(Leaf(Float(n.asF64.value)))
        case JsonArray(items) => there.Some? && there.value.Array? && |there.value.items| == |items|
        case JsonObject(fields) =>
          there.Some? && there.value.Table? && there.value.entries.Keys == set k | k in fields && !fields[k].Null?
    decreases trail
  {
    if trail != [] {
      var c := trail[0];
      if c.Key? && j.JsonObject? && c.key in j.fields {
        if !j.fields[c.key].Null? {
          ConvertedAt(j.fields[c.key], trail[1..]);
        }
      } else if c.Index? && j.JsonArray? && c.index < |j.items| {
        assert j.items[c.index] in j.items;
        ConvertedAt(j.items[c.index], trail[1..]);
      }
    }
  }

  function JsonAt(j: Json, path: Path): Option<Json> {
    if path == [] then Some(j)
    else if j.JsonObject? && path[0] in j.fields then JsonAt(j.fields[path[0]], path[1..])
    else None
  }

  lemma {:induction false} NullIsMissed(j: Json, path: Path, rest: Path)
    requires Representable(j) && JsonAt(j, path) == Some(Null)
    ensures Meet(ToToml(j), path + rest) == Misses
    decreases path
  {
    var k := path[0];
    assert (path + rest)[1..] == path[1..] + rest;
    if !j.fields[k].Null? {
      NullIsMissed(j.fields[k], path[1..], rest);
    }
  }

  /** A null anywhere in a JSON patch leaves the value at its path, and all below, as it was. */
  lemma NullLeavesValueAlone(base: Toml, j: Json, path: Path, rest: Path)
    requires Representable(j) && JsonAt(j, path) == Some(Null)
    ensures Lookup(Merge(base, ToToml(j)), path + rest) == Lookup(base, path + rest)
  {
    NullIsMissed(j, path, rest);
    MergeAtPath(base, ToToml(j), path + rest);
  }
}
