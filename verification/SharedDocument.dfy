/** Seeding the shared document from a JSON tree and stripping it again
    (document.go). */
module SharedDocument {

  import opened Wrappers
  import opened Decimal

  datatype Json = Null | Bool(b: bool) | Number(n: real) | Str(s: string) | Obj(fields: map<string, Json>) | Arr(items: seq<Json>)

  /** CRDT containers: a text, a map, an array, or a plain value kept as it is. */
  datatype Node = Text(s: string) | YMap(entries: map<string, Node>) | YArray(elements: seq<Node>) | Plain(value: Json)

  const ID := "__yjsId"
  const GENERATION := "__yjsGeneration"
  const ORIGIN := "__yjsOrigin"
  const SCHEMA := "schemaVersion"

  predicate Reserved(key: string) {
    key == ID || key == GENERATION || key == ORIGIN
  }

  predicate Structured(key: string) {
    key == "segments" || key == "ruby"
  }

  predicate TextField(key: string) {
    key in {"attribution", "translationCredit", "proofreadingCredit", "sourceNote", "licenseNote",
            "japanese", "zh-CN", "en-US", "label", "translation", "proofreading", "text", "reading", "name"}
  }

  // ---- seeding ----

  function ItemPath(path: string, index: nat): string {
    path + "[" + Itoa(index) + "]"
  }

  function SeedId(key: string, path: string, index: nat): string {
    key + ":" + ItemPath(path, index)
  }

  /** The two keys written over an item of a structured array. */
  function WithSeedKeys(entries: map<string, Node>, id: string): map<string, Node> {
    entries[ID := Plain(Str(id))][GENERATION := Plain(Str("seed:" + id))]
  }

  function SetMapValue(key: string, value: Json, path: string): Node
    decreases value, 1
  {
    if TextField(key) && value.Str? then Text(value.s) else NestedValue(value, key, path)
  }

  function NestedValue(value: Json, key: string, path: string): Node
    decreases value, 0
  {
    match value
    case Obj(fields) => YMap(map k | k in fields :: SetMapValue(k, fields[k], path + "." + k))
    case Arr(items) =>
      YArray(seq(|items|, i requires 0 <= i < |items| =>
        var nested := NestedValue(items[i], "", ItemPath(path, i));
        if Structured(key) && nested.YMap? then YMap(WithSeedKeys(nested.entries, SeedId(key, path, i))) else nested))
    case _ => Plain(value)
  }

  /** ToJSON of the CRDT. */
  function JsonOf(node: Node): Json {
    match node
    case Text(s) => Str(s)
    case Plain(value) => value
    case YMap(entries) => Obj(map k | k in entries :: JsonOf(entries[k]))
    case YArray(elements) => Arr(seq(|elements|, i requires 0 <= i < |elements| => JsonOf(elements[i])))
  }

  // ---- what a walk accepts, and what it leaves ----

  predicate NonEmptyString(fields: map<string, Json>, key: string) {
    key in fields && fields[key].Str? && fields[key].s != ""
  }

  predicate LegacyItem(item: Json) {
    item.Obj? && ID !in item.fields && GENERATION !in item.fields && ORIGIN !in item.fields
  }

  predicate IdentifiedItem(item: Json) {
    item.Obj? && NonEmptyString(item.fields, ID) && NonEmptyString(item.fields, GENERATION)
    && (ORIGIN in item.fields ==> NonEmptyString(item.fields, ORIGIN))
  }

  predicate SameOrigin(a: Json, b: Json) {
    IdentifiedItem(a) && IdentifiedItem(b) && ORIGIN in a.fields && ORIGIN in b.fields
    && a.fields[ORIGIN].s == b.fields[ORIGIN].s
  }

  /** The conditions on one structured array: only objects, all legacy or all
      identified, ids unique, one generation per origin. */
  ghost predicate GoodItems(items: seq<Json>) {
    && (forall i :: 0 <= i < |items| ==> LegacyItem(items[i]) || IdentifiedItem(items[i]))
    && (forall i, j :: 0 <= i < |items| && 0 <= j < |items| ==> !(LegacyItem(items[i]) && IdentifiedItem(items[j])))
    && (forall i, j :: 0 <= i < j < |items| && IdentifiedItem(items[i]) && IdentifiedItem(items[j]) ==>
          items[i].fields[ID].s != items[j].fields[ID].s)
    && (forall i, j :: 0 <= i < |items| && 0 <= j < |items| && SameOrigin(items[i], items[j]) ==>
          items[i].fields[GENERATION].s == items[j].fields[GENERATION].s)
  }

  ghost predicate Acceptable(value: Json, parentKey: string) {
    match value
    case Obj(fields) => forall k :: k in fields ==> Acceptable(fields[k], k)
    case Arr(items) =>
      if !Structured(parentKey) then forall i :: 0 <= i < |items| ==> Acceptable(items[i], "")
      else
        && GoodItems(items)
        && forall i :: 0 <= i < |items| && items[i].Obj? ==>
             forall k :: k in items[i].fields && !Reserved(k) ==> Acceptable(items[i].fields[k], k)
    case _ => true
  }

  function Strip(value: Json, parentKey: string): Json {
    match value
    case Obj(fields) => Obj(map k | k in fields :: Strip(fields[k], k))
    case Arr(items) =>
      Arr(seq(|items|, i requires 0 <= i < |items| =>
        if Structured(parentKey) && items[i].Obj? then
          Obj(map k | k in items[i].fields && !Reserved(k) :: Strip(items[i].fields[k], k))
        else Strip(items[i], "")))
    case _ => value
  }

  predicate NullFree(value: Json) {
    match value
    case Null => false
    case Obj(fields) => forall k :: k in fields ==> NullFree(fields[k])
    case Arr(items) => forall i :: 0 <= i < |items| ==> NullFree(items[i])
    case _ => true
  }

  /** materializeDocument up to decoding the Go struct. */
  ghost function Materialize(root: Node): Option<map<string, Json>>
    requires root.YMap?
  {
    var values := JsonOf(root).fields;
    if SCHEMA !in values || values[SCHEMA] != Number(1.0) then None
    else
      var document := Obj(map k | k in values && k != SCHEMA :: values[k]);
      if !Acceptable(document, "") then None
      else
        var clean := Strip(document, "");
        if NullFree(clean) then Some(clean.fields) else None
  }

  /** documentUpdate on the canonical JSON of a document. */
  function SeedRoot(values: map<string, Json>): Node {
    YMap(map[SCHEMA := Plain(Number(1.0))] + map k | k in values :: SetMapValue(k, values[k], "lyrics." + k))
  }

  // ---- round trip ----

  /** Structured arrays hold only objects without the reserved keys. */
  predicate Clean(value: Json, parentKey: string) {
    match value
    case Obj(fields) => forall k :: k in fields ==> Clean(fields[k], k)
    case Arr(items) =>
      forall i :: 0 <= i < |items| ==>
        && Clean(items[i], "")
        && (Structured(parentKey) ==> items[i].Obj? && forall k :: k in items[i].fields ==> !Reserved(k))
    case _ => true
  }

  ghost predicate RoundTrips(value: Json, key: string, node: Node) {
    Acceptable(JsonOf(node), key) && Strip(JsonOf(node), key) == value
  }

  lemma ItemPathInjective(path: string, i: nat, j: nat)
    requires ItemPath(path, i) == ItemPath(path, j)
    ensures i == j
  {
    var a, b := path + "[" + Format(i), path + "[" + Format(j);
    assert a == ItemPath(path, i)[..|ItemPath(path, i)| - 1];
    assert b == ItemPath(path, j)[..|ItemPath(path, j)| - 1];
    assert a[|path| + 1..] == Format(i) && b[|path| + 1..] == Format(j);
    ValueOfFormat(i);
    ValueOfFormat(j);
  }

  lemma SeedIdsDiffer(key: string, path: string, i: nat, j: nat)
    requires i != j
    ensures SeedId(key, path, i) != SeedId(key, path, j)
  {
    if SeedId(key, path, i) == SeedId(key, path, j) {
      var a, b := ItemPath(path, i), ItemPath(path, j);
      assert a == SeedId(key, path, i)[|key| + 1..] && b == SeedId(key, path, j)[|key| + 1..];
      ItemPathInjective(path, i, j);
    }
  }

  /** A text container is the string it holds. */
  lemma TextIsInvisible(key: string, value: Json, path: string)
    ensures JsonOf(SetMapValue(key, value, path)) == JsonOf(NestedValue(value, key, path))
  {}

  ghost predicate NestedRoundTrips(value: Json, key: string, path: string) {
    RoundTrips(value, key, NestedValue(value, key, path))
  }

  /** The members of a seeded object, as JSON. */
  function JsonMembers(fields: map<string, Json>, path: string): map<string, Json> {
    map k | k in fields :: JsonOf(NestedValue(fields[k], k, path + "." + k))
  }

  function StripMembers(fields: map<string, Json>): map<string, Json> {
    map k | k in fields :: Strip(fields[k], k)
  }

  ghost predicate MembersAcceptable(fields: map<string, Json>) {
    forall k :: k in fields ==> Acceptable(fields[k], k)
  }

  lemma ObjectMembers(fields: map<string, Json>, key: string, path: string)
    ensures JsonOf(NestedValue(Obj(fields), key, path)) == Obj(JsonMembers(fields, path))
  {
    forall k | k in fields ensures JsonOf(SetMapValue(k, fields[k], path + "." + k)) == JsonMembers(fields, path)[k] {
      TextIsInvisible(k, fields[k], path + "." + k);
    }
  }

  lemma MembersRoundTrip(fields: map<string, Json>, path: string)
    ensures MembersAcceptable(JsonMembers(fields, path)) && StripMembers(JsonMembers(fields, path)) == fields
       <==> forall k :: k in fields ==> NestedRoundTrips(fields[k], k, path + "." + k)
  {
    var json := JsonMembers(fields, path);
    var stripped := StripMembers(json);
    assert stripped.Keys == fields.Keys;
    if forall k :: k in fields ==> NestedRoundTrips(fields[k], k, path + "." + k) {
      forall k | k in fields ensures stripped[k] == fields[k] && Acceptable(json[k], k) {
        assert NestedRoundTrips(fields[k], k, path + "." + k);
      }
    }
    if MembersAcceptable(json) && stripped == fields {
      forall k | k in fields ensures NestedRoundTrips(fields[k], k, path + "." + k) {
        assert k in json && stripped[k] == fields[k];
      }
    }
  }

  /** An object round-trips exactly when each of its members does. */
  lemma ObjectRoundTrips(fields: map<string, Json>, key: string, path: string)
    ensures NestedRoundTrips(Obj(fields), key, path)
       <==> forall k :: k in fields ==> NestedRoundTrips(fields[k], k, path + "." + k)
  {
    ObjectMembers(fields, key, path);
    MembersRoundTrip(fields, path);
    assert Strip(Obj(JsonMembers(fields, path)), key) == Obj(StripMembers(JsonMembers(fields, path)));
  }

  lemma PlainArrayRoundTrips(items: seq<Json>, key: string, path: string)
    requires !Structured(key)
    ensures NestedRoundTrips(Arr(items), key, path)
       <==> forall i :: 0 <= i < |items| ==> NestedRoundTrips(items[i], "", ItemPath(path, i))
  {
    var json := JsonOf(NestedValue(Arr(items), key, path)).items;
    forall i | 0 <= i < |items| ensures json[i] == JsonOf(NestedValue(items[i], "", ItemPath(path, i))) {}
    var stripped := Strip(Arr(json), key).items;
    if forall i :: 0 <= i < |items| ==> NestedRoundTrips(items[i], "", ItemPath(path, i)) {
      assert stripped == items;
    }
    if NestedRoundTrips(Arr(items), key, path) {
      forall i | 0 <= i < |items| ensures NestedRoundTrips(items[i], "", ItemPath(path, i)) {
        assert stripped[i] == items[i];
      }
    }
  }

  // ---- structured arrays ----

  predicate Unreserved(fields: map<string, Json>) {
    forall k :: k in fields ==> !Reserved(k)
  }

  /** What stripping leaves of an item of a structured array. */
  function StripItem(fields: map<string, Json>): map<string, Json> {
    map k | k in fields && !Reserved(k) :: Strip(fields[k], k)
  }

  ghost predicate ItemAcceptable(fields: map<string, Json>) {
    forall k :: k in fields && !Reserved(k) ==> Acceptable(fields[k], k)
  }

  /** The JSON of an object with the two seed keys written over it. */
  function Seeded(fields: map<string, Json>, itemPath: string, id: string): map<string, Json> {
    JsonMembers(fields, itemPath)[ID := Str(id)][GENERATION := Str("seed:" + id)]
  }

  /** The JSON of one seeded item of a structured array. */
  function SeededItem(fields: map<string, Json>, key: string, path: string, index: nat): map<string, Json> {
    Seeded(fields, ItemPath(path, index), SeedId(key, path, index))
  }

  lemma SeededItemIs(items: seq<Json>, key: string, path: string, index: nat)
    requires Structured(key) && index < |items|
    ensures var json := JsonOf(NestedValue(Arr(items), key, path));
            && json.Arr? && |json.items| == |items|
            && (json.items[index].Obj? <==> items[index].Obj?)
            && (items[index].Obj? ==> json.items[index] == Obj(SeededItem(items[index].fields, key, path, index)))
  {
    if items[index].Obj? {
      var nested := NestedValue(items[index], "", ItemPath(path, index));
      var id := SeedId(key, path, index);
      ObjectMembers(items[index].fields, "", ItemPath(path, index));
      assert JsonOf(YMap(WithSeedKeys(nested.entries, id))).fields
          == JsonOf(nested).fields[ID := Str(id)][GENERATION := Str("seed:" + id)];
    }
  }

  lemma SeededKeys(json: map<string, Json>, a: Json, b: Json)
    ensures json[ID := a][GENERATION := b].Keys == json.Keys + {ID, GENERATION}
    ensures forall k :: k in json && !Reserved(k) ==> json[ID := a][GENERATION := b][k] == json[k]
  {}

  /** Stripping a seeded item gives the item back exactly when it had no
      reserved keys and its members round-trip. */
  lemma ItemRoundTrips(fields: map<string, Json>, itemPath: string, id: string)
    ensures ItemAcceptable(Seeded(fields, itemPath, id)) && StripItem(Seeded(fields, itemPath, id)) == fields
       <==> Unreserved(fields) && NestedRoundTrips(Obj(fields), "", itemPath)
  {
    var json := JsonMembers(fields, itemPath);
    SeededKeys(json, Str(id), Str("seed:" + id));
    AddedReservedKeys(fields, json, Seeded(fields, itemPath, id));
    ObjectRoundTrips(fields, "", itemPath);
    MembersRoundTrip(fields, itemPath);
  }

  /** Two more reserved keys on an object's JSON, whatever they hold. */
  lemma AddedReservedKeys(fields: map<string, Json>, json: map<string, Json>, seeded: map<string, Json>)
    requires json.Keys == fields.Keys
    requires seeded.Keys == json.Keys + {ID, GENERATION}
    requires forall k :: k in json && !Reserved(k) ==> seeded[k] == json[k]
    ensures ItemAcceptable(seeded) && StripItem(seeded) == fields
       <==> Unreserved(fields) && MembersAcceptable(json) && StripMembers(json) == fields
  {
    if Unreserved(fields) {
      assert forall k :: k in json ==> !Reserved(k) && k in seeded;
      assert StripItem(seeded).Keys == StripMembers(json).Keys;
      assert StripItem(seeded) == StripMembers(json);
      assert ItemAcceptable(seeded) <==> MembersAcceptable(json);
    } else {
      var k :| k in fields && Reserved(k);
      assert k !in StripItem(seeded);
    }
  }

  lemma SeededItemsAreGood(items: seq<Json>, json: seq<Json>, key: string, path: string)
    requires |json| == |items|
    requires forall i :: 0 <= i < |items| ==>
      items[i].Obj? && Unreserved(items[i].fields) && json[i] == Obj(SeededItem(items[i].fields, key, path, i))
    ensures GoodItems(json)
  {
    forall i | 0 <= i < |items|
      ensures IdentifiedItem(json[i]) && ORIGIN !in json[i].fields && json[i].fields[ID].s == SeedId(key, path, i)
    {
      assert Reserved(ORIGIN);
    }
    forall i, j | 0 <= i < j < |items| ensures json[i].fields[ID].s != json[j].fields[ID].s {
      SeedIdsDiffer(key, path, i, j);
    }
  }

  ghost predicate GoodItem(item: Json, path: string, index: nat) {
    item.Obj? && Unreserved(item.fields) && NestedRoundTrips(item, "", ItemPath(path, index))
  }

  lemma GoodItemRoundTrips(item: Json, seeded: map<string, Json>, key: string, path: string, i: nat)
    requires GoodItem(item, path, i) && seeded == SeededItem(item.fields, key, path, i)
    ensures ItemAcceptable(seeded) && Obj(StripItem(seeded)) == item
  {
    ItemRoundTrips(item.fields, ItemPath(path, i), SeedId(key, path, i));
  }

  lemma StripStructured(json: seq<Json>, key: string, i: nat)
    requires Structured(key) && i < |json| && json[i].Obj?
    ensures Strip(Arr(json), key).Arr? && |Strip(Arr(json), key).items| == |json|
    ensures Strip(Arr(json), key).items[i] == Obj(StripItem(json[i].fields))
  {}

  lemma StructuredRoundTripsIf(items: seq<Json>, json: seq<Json>, key: string, path: string)
    requires Structured(key) && |json| == |items|
    requires forall i :: 0 <= i < |items| ==>
      GoodItem(items[i], path, i) && json[i] == Obj(SeededItem(items[i].fields, key, path, i))
    ensures Acceptable(Arr(json), key) && Strip(Arr(json), key) == Arr(items)
  {
    SeededItemsAreGood(items, json, key, path);
    forall i | 0 <= i < |items|
      ensures Strip(Arr(json), key).items[i] == items[i]
      ensures ItemAcceptable(json[i].fields)
    {
      GoodItemRoundTrips(items[i], json[i].fields, key, path, i);
      StripStructured(json, key, i);
    }
    assert Strip(Arr(json), key).items == items;
  }

  lemma StructuredRoundTripsOnlyIf(items: seq<Json>, json: seq<Json>, key: string, path: string, i: nat)
    requires Structured(key) && |json| == |items| && i < |items|
    requires items[i].Obj? <==> json[i].Obj?
    requires items[i].Obj? ==> json[i] == Obj(SeededItem(items[i].fields, key, path, i))
    requires Acceptable(Arr(json), key) && Strip(Arr(json), key) == Arr(items)
    ensures GoodItem(items[i], path, i)
  {
    assert LegacyItem(json[i]) || IdentifiedItem(json[i]);
    StripStructured(json, key, i);
    assert ItemAcceptable(json[i].fields);
    ItemRoundTrips(items[i].fields, ItemPath(path, i), SeedId(key, path, i));
  }

  lemma StructuredArrayRoundTrips(items: seq<Json>, key: string, path: string)
    requires Structured(key)
    ensures NestedRoundTrips(Arr(items), key, path)
       <==> forall i :: 0 <= i < |items| ==> GoodItem(items[i], path, i)
  {
    var json := JsonOf(NestedValue(Arr(items), key, path)).items;
    forall i | 0 <= i < |items|
      ensures json[i].Obj? <==> items[i].Obj?
      ensures items[i].Obj? ==> json[i] == Obj(SeededItem(items[i].fields, key, path, i))
    {
      SeededItemIs(items, key, path, i);
    }
    if forall i :: 0 <= i < |items| ==> GoodItem(items[i], path, i) {
      StructuredRoundTripsIf(items, json, key, path);
    }
    if NestedRoundTrips(Arr(items), key, path) {
      forall i | 0 <= i < |items| ensures GoodItem(items[i], path, i) {
        StructuredRoundTripsOnlyIf(items, json, key, path, i);
      }
    }
  }

  /** Seeding a member and walking it gives the same tree back exactly when
      its structured arrays are clean. */
  lemma {:induction false} NestedRoundTripsExactlyWhenClean(value: Json, key: string, path: string)
    ensures NestedRoundTrips(value, key, path) <==> Clean(value, key)
    decreases value
  {
    match value
    case Obj(fields) =>
      ObjectRoundTrips(fields, key, path);
      forall k | k in fields ensures NestedRoundTrips(fields[k], k, path + "." + k) <==> Clean(fields[k], k) {
        NestedRoundTripsExactlyWhenClean(fields[k], k, path + "." + k);
      }
    case Arr(items) =>
      if Structured(key) {
        StructuredArrayRoundTrips(items, key, path);
      } else {
        PlainArrayRoundTrips(items, key, path);
      }
      forall i | 0 <= i < |items| ensures NestedRoundTrips(items[i], "", ItemPath(path, i)) <==> Clean(items[i], "") {
        NestedRoundTripsExactlyWhenClean(items[i], "", ItemPath(path, i));
      }
    case _ =>
  }

  lemma RootPath(key: string)
    ensures "lyrics." + key == "lyrics" + "." + key
  {}

  lemma RootMembers(values: map<string, Json>)
    requires SCHEMA !in values
    ensures var json := JsonOf(SeedRoot(values)).fields;
            && SCHEMA in json && json[SCHEMA] == Number(1.0)
            && (map k | k in json && k != SCHEMA :: json[k]) == JsonMembers(values, "lyrics")
  {
    var entries := SeedRoot(values).entries;
    forall k | k in values ensures JsonOf(entries[k]) == JsonMembers(values, "lyrics")[k] {
      RootPath(k);
      TextIsInvisible(k, values[k], "lyrics." + k);
    }
    RootJson(values, SCHEMA, entries, JsonMembers(values, "lyrics"));
  }

  lemma RootJson(values: map<string, Json>, schema: string, entries: map<string, Node>, members: map<string, Json>)
    requires schema !in values && members.Keys == values.Keys
    requires entries.Keys == values.Keys + {schema} && entries[schema] == Plain(Number(1.0))
    requires forall k :: k in values ==> JsonOf(entries[k]) == members[k]
    ensures var json := JsonOf(YMap(entries)).fields;
            && schema in json && json[schema] == Number(1.0)
            && (map k | k in json && k != schema :: json[k]) == members
  {
    var json := JsonOf(YMap(entries)).fields;
    assert json[schema] == JsonOf(entries[schema]);
    forall k | k in members ensures k in json && k != schema && json[k] == members[k] {}
  }

  lemma RootRoundTrips(values: map<string, Json>)
    ensures var document := Obj(JsonMembers(values, "lyrics"));
            Acceptable(document, "") && Strip(document, "") == Obj(values) <==> Clean(Obj(values), "")
  {
    var document := JsonMembers(values, "lyrics");
    assert Strip(Obj(document), "") == Obj(StripMembers(document));
    MembersRoundTrip(values, "lyrics");
    forall k | k in values ensures NestedRoundTrips(values[k], k, "lyrics" + "." + k) <==> Clean(values[k], k) {
      NestedRoundTripsExactlyWhenClean(values[k], k, "lyrics" + "." + k);
    }
  }

  // ---- main result ----

  /** A document seeded into a room and materialised from it is the same
      document, exactly when it is null-free, has no schemaVersion field of its
      own, and every structured array holds only objects without reserved keys. */
  lemma DocumentRoundTrip(values: map<string, Json>)
    ensures Materialize(SeedRoot(values)) == Some(values)
       <==> NullFree(Obj(values)) && Clean(Obj(values), "") && SCHEMA !in values
  {
    if SCHEMA !in values {
      RootMembers(values);
      RootRoundTrips(values);
    } else if Materialize(SeedRoot(values)).Some? {
      assert SCHEMA !in Materialize(SeedRoot(values)).value;
    }
  }

  // ---- the walk, as the code runs it ----

  function Origin(item: Json): string
    requires IdentifiedItem(item) && ORIGIN in item.fields
  {
    item.fields[ORIGIN].s
  }

  function Generation(item: Json): string
    requires IdentifiedItem(item)
  {
    item.fields[GENERATION].s
  }

  /** Generations seen per origin among the first n items. */
  ghost predicate Generations(items: seq<Json>, n: nat, seen: map<string, set<string>>)
    requires n <= |items|
  {
    && (forall j :: 0 <= j < n && IdentifiedItem(items[j]) && ORIGIN in items[j].fields ==>
          Origin(items[j]) in seen && Generation(items[j]) in seen[Origin(items[j])])
    && (forall o, g :: o in seen && g in seen[o] ==>
          exists j :: 0 <= j < n && IdentifiedItem(items[j]) && ORIGIN in items[j].fields
                      && Origin(items[j]) == o && Generation(items[j]) == g)
  }

  /** What the loop over a structured array has established about its first n items. */
  ghost predicate Scanned(items: seq<Json>, n: nat, ids: set<string>, seen: map<string, set<string>>, legacy: nat, identified: nat)
    requires n <= |items|
  {
    && (forall j :: 0 <= j < n ==> LegacyItem(items[j]) || IdentifiedItem(items[j]))
    && IdsOf(items, n, ids)
    && (forall j, k :: 0 <= j < k < n && IdentifiedItem(items[j]) && IdentifiedItem(items[k]) ==>
          items[j].fields[ID].s != items[k].fields[ID].s)
    && (legacy > 0 <==> exists j :: 0 <= j < n && LegacyItem(items[j]))
    && (identified > 0 <==> exists j :: 0 <= j < n && IdentifiedItem(items[j]))
    && Generations(items, n, seen)
  }

  lemma LegacyIsNotIdentified(item: Json)
    requires LegacyItem(item)
    ensures !IdentifiedItem(item)
  {}

  lemma IdsSkip(items: seq<Json>, n: nat, ids: set<string>)
    requires n < |items| && IdsOf(items, n, ids) && !IdentifiedItem(items[n])
    ensures IdsOf(items, n + 1, ids)
  {
    forall id | id in ids ensures IdSeen(items, n + 1, id) {
      assert IdSeen(items, n, id);
    }
  }

  lemma GenerationsSkip(items: seq<Json>, n: nat, seen: map<string, set<string>>)
    requires n < |items| && Generations(items, n, seen) && !IdentifiedItem(items[n])
    ensures Generations(items, n + 1, seen)
  {}

  lemma ScannedLegacy(items: seq<Json>, n: nat, ids: set<string>, seen: map<string, set<string>>, legacy: nat, identified: nat)
    requires n < |items| && Scanned(items, n, ids, seen, legacy, identified) && LegacyItem(items[n])
    ensures Scanned(items, n + 1, ids, seen, legacy + 1, identified)
  {
    LegacyIsNotIdentified(items[n]);
    IdsSkip(items, n, ids);
    GenerationsSkip(items, n, seen);
  }

  function Noted(seen: map<string, set<string>>, item: Json): map<string, set<string>>
    requires IdentifiedItem(item)
  {
    if ORIGIN !in item.fields then seen
    else
      var o := Origin(item);
      seen[o := (if o in seen then seen[o] else {}) + {Generation(item)}]
  }

  lemma NotedGenerations(items: seq<Json>, n: nat, seen: map<string, set<string>>)
    requires n < |items| && Generations(items, n, seen) && IdentifiedItem(items[n])
    ensures Generations(items, n + 1, Noted(seen, items[n]))
  {
    var seen' := Noted(seen, items[n]);
    forall o, g | o in seen' && g in seen'[o]
      ensures exists j :: 0 <= j < n + 1 && IdentifiedItem(items[j]) && ORIGIN in items[j].fields
                          && Origin(items[j]) == o && Generation(items[j]) == g
    {
      if o in seen && g in seen[o] {
        var j :| 0 <= j < n && IdentifiedItem(items[j]) && ORIGIN in items[j].fields
                 && Origin(items[j]) == o && Generation(items[j]) == g;
      } else {
        assert IdentifiedItem(items[n]) && Origin(items[n]) == o && Generation(items[n]) == g;
      }
    }
  }

  predicate IdSeen(items: seq<Json>, n: nat, id: string)
    requires n <= |items|
  {
    exists j :: 0 <= j < n && IdentifiedItem(items[j]) && items[j].fields[ID].s == id
  }

  /** Which ids the first n items carry. */
  ghost predicate IdsOf(items: seq<Json>, n: nat, ids: set<string>)
    requires n <= |items|
  {
    && (forall j :: 0 <= j < n && IdentifiedItem(items[j]) ==> items[j].fields[ID].s in ids)
    && (forall id :: id in ids ==> IdSeen(items, n, id))
  }

  lemma IdsGrow(items: seq<Json>, n: nat, ids: set<string>)
    requires n < |items| && IdsOf(items, n, ids) && IdentifiedItem(items[n])
    ensures IdsOf(items, n + 1, ids + {items[n].fields[ID].s})
  {
    forall id | id in ids ensures IdSeen(items, n + 1, id) {
      assert IdSeen(items, n, id);
    }
    assert IdSeen(items, n + 1, items[n].fields[ID].s);
  }

  lemma ScannedIdentified(items: seq<Json>, n: nat, ids: set<string>, seen: map<string, set<string>>, legacy: nat, identified: nat)
    requires n < |items| && Scanned(items, n, ids, seen, legacy, identified)
    requires IdentifiedItem(items[n]) && items[n].fields[ID].s !in ids
    ensures Scanned(items, n + 1, ids + {items[n].fields[ID].s}, Noted(seen, items[n]), legacy, identified + 1)
  {
    NotedGenerations(items, n, seen);
    IdsGrow(items, n, ids);
  }

  /** The two checks after the loop are the rest of GoodItems. */
  lemma ScannedDecides(items: seq<Json>, ids: set<string>, seen: map<string, set<string>>, legacy: nat, identified: nat)
    requires Scanned(items, |items|, ids, seen, legacy, identified)
    ensures GoodItems(items)
       <==> !(legacy > 0 && identified > 0) && forall o :: o in seen ==> forall g, h :: g in seen[o] && h in seen[o] ==> g == h
  {
    if GoodItems(items) {
      forall o, g, h | o in seen && g in seen[o] && h in seen[o] ensures g == h {
        var i :| 0 <= i < |items| && IdentifiedItem(items[i]) && ORIGIN in items[i].fields
                 && Origin(items[i]) == o && Generation(items[i]) == g;
        var j :| 0 <= j < |items| && IdentifiedItem(items[j]) && ORIGIN in items[j].fields
                 && Origin(items[j]) == o && Generation(items[j]) == h;
        assert SameOrigin(items[i], items[j]);
      }
    }
  }

  method WalkMembers(fields: map<string, Json>, ghost bound: Json) returns (r: Option<map<string, Json>>)
    requires forall k :: k in fields ==> fields[k] < bound
    ensures r == if MembersAcceptable(fields) then Some(StripMembers(fields)) else None
    decreases bound, 0
  {
    var out: map<string, Json> := map[];
    var pending := fields.Keys;
    while pending != {}
      invariant pending <= fields.Keys && out.Keys == fields.Keys - pending
      invariant forall k :: k in out ==> Acceptable(fields[k], k) && out[k] == Strip(fields[k], k)
      decreases pending
    {
      var key :| key in pending;
      var walked := Walk(fields[key], key);
      if walked.None? {
        return None;
      }
      out := out[key := walked.value];
      pending := pending - {key};
    }
    assert out == StripMembers(fields);
    r := Some(out);
  }

  /** walkStructuredMetadata, returning the tree it leaves. */
  method Walk(value: Json, parentKey: string) returns (r: Option<Json>)
    ensures r == if Acceptable(value, parentKey) then Some(Strip(value, parentKey)) else None
    decreases value, 1
  {
    match value {
      case Obj(fields) =>
        var members := WalkMembers(fields, value);
        if members.None? {
          return None;
        }
        r := Some(Obj(members.value));
      case Arr(items) =>
        if Structured(parentKey) {
          var walked := WalkItems(items, value);
          StructuredWalk(items, parentKey);
          if walked.None? {
            return None;
          }
          WalkedItems(items, walked.value, parentKey);
          r := Some(Arr(walked.value));
        } else {
          var out := [];
          for i := 0 to |items|
            invariant |out| == i
            invariant forall j :: 0 <= j < i ==> Acceptable(items[j], "") && out[j] == Strip(items[j], "")
          {
            var walked := Walk(items[i], "");
            if walked.None? {
              return None;
            }
            out := out + [walked.value];
          }
          assert out == Strip(value, parentKey).items;
          r := Some(Arr(out));
        }
      case _ =>
        r := Some(value);
    }
  }

  /** What the loop over a structured array keeps. */
  datatype Scan = Scan(ids: set<string>, generations: map<string, set<string>>, legacy: nat, identified: nat)

  /** The checks one item goes through; None is a document mismatch. */
  function ScanItem(scan: Scan, item: Json): Option<Scan> {
    if LegacyItem(item) then Some(scan.(legacy := scan.legacy + 1))
    else if !IdentifiedItem(item) || item.fields[ID].s in scan.ids then None
    else Some(Scan(scan.ids + {item.fields[ID].s}, Noted(scan.generations, item), scan.legacy, scan.identified + 1))
  }

  function ScanItems(items: seq<Json>, n: nat): Option<Scan>
    requires n <= |items|
  {
    if n == 0 then Some(Scan({}, map[], 0, 0))
    else
      var before := ScanItems(items, n - 1);
      if before.None? then None else ScanItem(before.value, items[n - 1])
  }

  ghost predicate ScannedAs(items: seq<Json>, n: nat, scan: Scan)
    requires n <= |items|
  {
    Scanned(items, n, scan.ids, scan.generations, scan.legacy, scan.identified)
  }

  /** One more item: the scan goes on, or the array is not acceptable. */
  lemma ScanItemStep(items: seq<Json>, n: nat, scan: Scan)
    requires n < |items| && ScannedAs(items, n, scan)
    ensures var next := ScanItem(scan, items[n]);
            if next.Some? then ScannedAs(items, n + 1, next.value) else !GoodItems(items)
  {
    var item := items[n];
    if LegacyItem(item) {
      ScannedLegacy(items, n, scan.ids, scan.generations, scan.legacy, scan.identified);
    } else if !IdentifiedItem(item) {
      assert !(LegacyItem(items[n]) || IdentifiedItem(items[n]));
    } else if item.fields[ID].s in scan.ids {
      assert IdSeen(items, n, item.fields[ID].s);
    } else {
      ScannedIdentified(items, n, scan.ids, scan.generations, scan.legacy, scan.identified);
    }
  }

  lemma {:induction false} ScanItemsScans(items: seq<Json>, n: nat)
    requires n <= |items|
    ensures var scan := ScanItems(items, n);
            if scan.Some? then ScannedAs(items, n, scan.value) else !GoodItems(items)
  {
    if n > 0 {
      ScanItemsScans(items, n - 1);
      var before := ScanItems(items, n - 1);
      if before.Some? {
        ScanItemStep(items, n - 1, before.value);
      }
    }
  }

  predicate SingleGeneration(generations: map<string, set<string>>) {
    forall o :: o in generations ==> |generations[o]| <= 1
  }

  /** Scanning and the two checks after the loop decide GoodItems. */
  lemma ScanDecides(items: seq<Json>)
    ensures var scan := ScanItems(items, |items|);
            GoodItems(items) <==> scan.Some? && !(scan.value.legacy > 0 && scan.value.identified > 0) && SingleGeneration(scan.value.generations)
  {
    ScanItemsScans(items, |items|);
    var scan := ScanItems(items, |items|);
    if scan.Some? {
      ScannedDecides(items, scan.value.ids, scan.value.generations, scan.value.legacy, scan.value.identified);
      SingleMeansEqual(scan.value.generations);
    }
  }

  lemma SingleMeansEqual(generations: map<string, set<string>>)
    ensures SingleGeneration(generations)
       <==> forall o :: o in generations ==> forall g, h :: g in generations[o] && h in generations[o] ==> g == h
  {
    forall o | o in generations
      ensures |generations[o]| <= 1 <==> forall g, h :: g in generations[o] && h in generations[o] ==> g == h
    {
      AtMostOne(generations[o]);
    }
  }

  /** An item refused at position n refuses the array. */
  lemma {:induction false} RefusedStaysRefused(items: seq<Json>, n: nat)
    requires n <= |items| && ScanItems(items, n).None?
    ensures ScanItems(items, |items|).None?
    decreases |items| - n
  {
    if n < |items| {
      RefusedStaysRefused(items, n + 1);
    }
  }

  lemma RestOfItem(fields: map<string, Json>, rest: map<string, Json>)
    requires rest == map k | k in fields && !Reserved(k) :: fields[k]
    ensures MembersAcceptable(rest) <==> ItemAcceptable(fields)
    ensures StripMembers(rest) == StripItem(fields)
  {
    assert forall k :: k in rest <==> k in fields && !Reserved(k);
  }

  /** The members of one item, without its three reserved keys. */
  method WalkItem(fields: map<string, Json>, ghost bound: Json) returns (r: Option<map<string, Json>>)
    requires bound == Obj(fields)
    ensures r == if ItemAcceptable(fields) then Some(StripItem(fields)) else None
    decreases bound, 1
  {
    var rest := map k | k in fields && !Reserved(k) :: fields[k];
    RestOfItem(fields, rest);
    r := WalkMembers(rest, bound);
  }

  ghost predicate ItemsAcceptable(items: seq<Json>) {
    forall i :: 0 <= i < |items| ==> items[i].Obj? && ItemAcceptable(items[i].fields)
  }

  /** The checks one item goes through, in the code's order. */
  method CheckItem(scan: Scan, item: Json) returns (next: Option<Scan>)
    ensures next == ScanItem(scan, item)
  {
    if !item.Obj? {
      return None;
    }
    var entry := item.fields;
    if ID !in entry && GENERATION !in entry && ORIGIN !in entry {
      return Some(scan.(legacy := scan.legacy + 1));
    }
    if !NonEmptyString(entry, ID) || !NonEmptyString(entry, GENERATION) || entry[ID].s in scan.ids {
      return None;
    }
    var originGenerations := scan.generations;
    if ORIGIN in entry {
      if !NonEmptyString(entry, ORIGIN) {
        return None;
      }
      var generations := if entry[ORIGIN].s in originGenerations then originGenerations[entry[ORIGIN].s] else {};
      originGenerations := originGenerations[entry[ORIGIN].s := generations + {entry[GENERATION].s}];
    }
    next := Some(Scan(scan.ids + {entry[ID].s}, originGenerations, scan.legacy, scan.identified + 1));
  }

  /** The loop over a structured array. */
  method WalkItems(items: seq<Json>, ghost bound: Json) returns (r: Option<seq<Json>>)
    requires bound == Arr(items)
    ensures r.Some? <==> GoodItems(items) && ItemsAcceptable(items)
    ensures r.Some? ==> |r.value| == |items| && forall j :: 0 <= j < |items| ==> r.value[j] == Obj(StripItem(items[j].fields))
    decreases bound, 0
  {
    ScanDecides(items);
    var scan := Scan({}, map[], 0, 0);
    var out := [];
    for i := 0 to |items|
      invariant ScanItems(items, i) == Some(scan)
      invariant |out| == i
      invariant forall j :: 0 <= j < i ==> items[j].Obj? && ItemAcceptable(items[j].fields) && out[j] == Obj(StripItem(items[j].fields))
    {
      var next := CheckItem(scan, items[i]);
      if next.None? {
        RefusedStaysRefused(items, i + 1);
        return None;
      }
      scan := next.value;
      var walked := WalkItem(items[i].fields, items[i]);
      if walked.None? {
        return None;
      }
      out := out + [Obj(walked.value)];
    }
    if scan.legacy > 0 && scan.identified > 0 {
      return None;
    }
    var single := OneGenerationEach(scan.generations);
    if !single {
      return None;
    }
    r := Some(out);
  }

  lemma StructuredWalk(items: seq<Json>, key: string)
    requires Structured(key)
    ensures Acceptable(Arr(items), key) <==> GoodItems(items) && ItemsAcceptable(items)
  {
    if GoodItems(items) {
      assert forall i :: 0 <= i < |items| ==> LegacyItem(items[i]) || IdentifiedItem(items[i]);
    }
  }

  lemma WalkedItems(items: seq<Json>, out: seq<Json>, parentKey: string)
    requires Structured(parentKey) && |out| == |items| && ItemsAcceptable(items)
    requires forall j :: 0 <= j < |items| ==> out[j] == Obj(StripItem(items[j].fields))
    ensures Strip(Arr(items), parentKey) == Arr(out)
  {
    forall i | 0 <= i < |items| ensures out[i] == Strip(Arr(items), parentKey).items[i] {
      StripStructured(items, parentKey, i);
    }
    assert out == Strip(Arr(items), parentKey).items;
  }

  method OneGenerationEach(generations: map<string, set<string>>) returns (ok: bool)
    ensures ok <==> SingleGeneration(generations)
  {
    var pending := generations.Keys;
    while pending != {}
      invariant pending <= generations.Keys
      invariant forall o :: o in generations.Keys - pending ==> |generations[o]| <= 1
      decreases pending
    {
      var o :| o in pending;
      if |generations[o]| > 1 {
        return false;
      }
      pending := pending - {o};
    }
    ok := true;
  }

  lemma AtMostOne(s: set<string>)
    ensures |s| > 1 <==> exists g, h :: g in s && h in s && g != h
  {
    if s != {} {
      var g :| g in s;
      var others := s - {g};
      assert s == others + {g};
      if others != {} {
        var h :| h in others;
      }
    }
  }

  // ---- seeding and materialising, as the code runs them ----

  /** setMapValue: the value that goes under a key of a container. */
  method FillMember(key: string, value: Json, path: string) returns (node: Node)
    ensures node == SetMapValue(key, value, path)
    decreases value, 1
  {
    if TextField(key) && value.Str? {
      return Text(value.s);
    }
    node := FillNested(value, key, path);
  }

  /** nestedValue: containers are filled one member or item at a time. */
  method FillNested(value: Json, key: string, path: string) returns (node: Node)
    ensures node == NestedValue(value, key, path)
    decreases value, 0
  {
    match value {
      case Obj(fields) =>
        var entries: map<string, Node> := map[];
        var pending := fields.Keys;
        while pending != {}
          invariant pending <= fields.Keys && entries.Keys == fields.Keys - pending
          invariant forall k :: k in entries ==> entries[k] == SetMapValue(k, fields[k], path + "." + k)
          decreases pending
        {
          var k :| k in pending;
          var member := FillMember(k, fields[k], path + "." + k);
          entries := entries[k := member];
          pending := pending - {k};
        }
        node := YMap(entries);
      case Arr(items) =>
        var elements := [];
        for i := 0 to |items|
          invariant elements == NestedValue(value, key, path).elements[..i]
        {
          var nested := FillNested(items[i], "", ItemPath(path, i));
          if Structured(key) && nested.YMap? {
            nested := YMap(WithSeedKeys(nested.entries, SeedId(key, path, i)));
          }
          elements := elements + [nested];
        }
        node := YArray(elements);
      case _ =>
        node := Plain(value);
    }
  }

  /** materializeDocument up to decoding the song's struct. */
  method MaterializeDocument(root: Node) returns (r: Option<map<string, Json>>)
    requires root.YMap?
    ensures r == Materialize(root)
  {
    var values := JsonOf(root).fields;
    if SCHEMA !in values || values[SCHEMA] != Number(1.0) {
      return None;
    }
    var document := Obj(map k | k in values && k != SCHEMA :: values[k]);
    var clean := Walk(document, "");
    if clean.None? || !NullFree(clean.value) {
      return None;
    }
    r := Some(clean.value.fields);
  }
}
