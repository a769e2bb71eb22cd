/** The cross checks of the embedded lyrics seed (embeddedlyricsseed/contract.go). */
module SeedBundle {

  import opened Decimal
  import opened Sets
  import opened Wrappers

  const SOURCE_V3 := 652
  const LEGACY := 1
  const AVAILABILITY := 47
  const ARTIFACTS := 785
  const CONTRIBUTIONS := 4893

  type Key = string

  datatype Kind = SourceV3Item | LegacyItem | AvailabilityItem | UnknownItem

  /** sound stands for the checks of a record that look at no other kind of
      record but its item: formats, digests, canonical encodings, states. */
  datatype Item = Item(musicId: int, kind: Kind, sound: bool)

  /** identities: fixed identities by rendition key; bindings: component keys with
      the rendition key each is bound to, None when they cannot be enumerated. */
  datatype Document = Document(musicId: int, sound: bool, identities: seq<(Key, nat)>, bindings: Option<seq<(Key, Key)>>)
  datatype Artifact = Artifact(musicId: int, key: Key, identity: nat, sound: bool)
  datatype Contribution = Contribution(musicId: int, component: Key, key: Key, sound: bool)
  datatype Record = Record(musicId: int, sound: bool)
  datatype Line = Line(musicId: int, lineId: Key, position: int, sound: bool)
  datatype Segment = Segment(musicId: int, lineId: Key, sound: bool)

  /** The record counts the manifest announces. */
  datatype Inventory = Inventory(documents: int, artifacts: int, contributions: int, legacyDocuments: int, lines: int, segments: int, availability: int)

  datatype Bundle = Bundle(
    inventory: Inventory, items: seq<Item>, documents: seq<Document>, artifacts: seq<Artifact>, contributions: seq<Contribution>,
    legacyDocuments: seq<Record>, lines: seq<Line>, segments: seq<Segment>, availability: seq<Record>,
    catalogDigest: bool, seedDigest: bool)

  // ---- covers ----

  ghost predicate Distinct<T>(keys: seq<T>) {
    forall i, j :: 0 <= i < j < |keys| ==> keys[i] != keys[j]
  }

  ghost function Elements<T>(keys: seq<T>): set<T> {
    set k | k in keys
  }

  /** Each expected key exactly once, and nothing else. */
  ghost predicate ExactCover<T>(keys: seq<T>, expected: set<T>) {
    Distinct(keys) && Elements(keys) == expected
  }

  lemma {:induction false} DistinctSize<T>(keys: seq<T>)
    requires Distinct(keys)
    ensures |Elements(keys)| == |keys|
  {
    if keys != [] {
      var n := |keys| - 1;
      DistinctSize(keys[..n]);
      assert Elements(keys) == Elements(keys[..n]) + {keys[n]};
      assert keys[n] !in Elements(keys[..n]);
    }
  }

  lemma SameSizeSubset<T>(a: set<T>, b: set<T>)
    requires a <= b && |a| == |b|
    ensures a == b
  {
    assert b == a + (b - a);
    assert |b| == |a| + |b - a|;
  }

  /** Distinct members of a set cover it exactly when there are as many as it has. */
  lemma CoverByCount<T>(keys: seq<T>, expected: set<T>)
    requires Distinct(keys) && Elements(keys) <= expected
    ensures |keys| == |expected| <==> ExactCover(keys, expected)
  {
    DistinctSize(keys);
    if |keys| == |expected| {
      SameSizeSubset(Elements(keys), expected);
    }
  }

  // ---- items ----

  /** The music ids of one kind. */
  function Ids(items: seq<Item>, kind: Kind): set<int> {
    if items == [] then {}
    else Ids(items[..|items| - 1], kind) + if items[|items| - 1].kind == kind then {items[|items| - 1].musicId} else {}
  }

  /** Ordered by positive music id, each sound and of a known kind. */
  predicate ItemsInOrder(items: seq<Item>) {
    && (forall i :: 0 <= i < |items| ==> items[i].musicId > 0 && items[i].sound && !items[i].kind.UnknownItem?)
    && (forall i, j :: 0 <= i < j < |items| ==> items[i].musicId < items[j].musicId)
  }

  function KindCount(items: seq<Item>, kind: Kind): nat {
    if items == [] then 0
    else KindCount(items[..|items| - 1], kind) + if items[|items| - 1].kind == kind then 1 else 0
  }

  /** The map the code fills: the kind of each item. */
  function KindMap(items: seq<Item>): map<int, Kind> {
    if items == [] then map[] else KindMap(items[..|items| - 1])[items[|items| - 1].musicId := items[|items| - 1].kind]
  }

  /** Ids up to the last one, which is the largest. */
  lemma {:induction false} IdsAreBounded(items: seq<Item>, kind: Kind, id: int)
    requires ItemsInOrder(items) && (id in Ids(items, kind) || id in KindMap(items))
    ensures items != [] && 0 < id <= items[|items| - 1].musicId
  {
    var n := |items| - 1;
    if id != items[n].musicId {
      IdsAreBounded(items[..n], kind, id);
    }
  }

  lemma {:induction false} KindCountIs(items: seq<Item>, kind: Kind)
    requires ItemsInOrder(items)
    ensures KindCount(items, kind) == |Ids(items, kind)|
  {
    if items != [] {
      var n := |items| - 1;
      KindCountIs(items[..n], kind);
      NotYet(items, kind);
    }
  }

  lemma NotYet(items: seq<Item>, kind: Kind)
    requires ItemsInOrder(items) && items != []
    ensures items[|items| - 1].musicId !in Ids(items[..|items| - 1], kind)
    ensures items[|items| - 1].musicId !in KindMap(items[..|items| - 1])
  {
    var n := |items| - 1;
    if items[n].musicId in Ids(items[..n], kind) || items[n].musicId in KindMap(items[..n]) {
      IdsAreBounded(items[..n], kind, items[n].musicId);
    }
  }

  lemma {:induction false} KindMapIs(items: seq<Item>, kind: Kind, id: int)
    requires ItemsInOrder(items)
    ensures id in KindMap(items) && KindMap(items)[id] == kind <==> id in Ids(items, kind)
  {
    if items != [] {
      KindMapIs(items[..|items| - 1], kind, id);
      NotYet(items, kind);
    }
  }

  predicate CatalogPartition(items: seq<Item>) {
    && ItemsInOrder(items) && |Ids(items, SourceV3Item)| == SOURCE_V3 && |Ids(items, LegacyItem)| == LEGACY
    && |Ids(items, AvailabilityItem)| == AVAILABILITY
  }

  predicate FollowsInOrder(last: int, item: Item) {
    item.musicId > last && item.sound && !item.kind.UnknownItem?
  }

  function LastId(items: seq<Item>): int {
    if items == [] then 0 else items[|items| - 1].musicId
  }

  lemma LastInOrder(items: seq<Item>, item: Item)
    requires ItemsInOrder(items + [item])
    ensures FollowsInOrder(LastId(items), item)
  {
    var more := items + [item];
    assert more[|items|] == item;
    if items != [] {
      assert more[|items| - 1].musicId < more[|items|].musicId;
    }
  }

  lemma OneMoreInOrder(items: seq<Item>, item: Item)
    requires ItemsInOrder(items)
    ensures ItemsInOrder(items + [item]) <==> FollowsInOrder(LastId(items), item)
  {
    if ItemsInOrder(items + [item]) {
      LastInOrder(items, item);
    }
  }

  lemma PrefixInOrder(items: seq<Item>, n: nat)
    requires n <= |items|
    ensures ItemsInOrder(items) ==> ItemsInOrder(items[..n])
  {}

  lemma NextItem(items: seq<Item>, n: nat)
    requires n < |items|
    ensures items[..n + 1] == items[..n] + [items[n]]
    ensures KindMap(items[..n + 1]) == KindMap(items[..n])[items[n].musicId := items[n].kind]
    ensures LastId(items[..n + 1]) == items[n].musicId
  {
    assert items[..n + 1][..n] == items[..n];
  }

  lemma NextCount(items: seq<Item>, n: nat, kind: Kind)
    requires n < |items|
    ensures KindCount(items[..n + 1], kind) == KindCount(items[..n], kind) + if items[n].kind == kind then 1 else 0
  {
    assert items[..n + 1][..n] == items[..n];
  }

  /** The loop over the manifest's items. */
  method CheckItems(items: seq<Item>) returns (ok: bool, kinds: map<int, Kind>)
    ensures ok <==> CatalogPartition(items)
    ensures ok ==> kinds == KindMap(items)
  {
    kinds := map[];
    var lastMusicId := 0;
    var sources, legacy, availability := 0, 0, 0;
    for i := 0 to |items|
      invariant ItemsInOrder(items[..i]) && lastMusicId == LastId(items[..i])
      invariant kinds == KindMap(items[..i])
      invariant sources == KindCount(items[..i], SourceV3Item) && legacy == KindCount(items[..i], LegacyItem)
      invariant availability == KindCount(items[..i], AvailabilityItem)
    {
      var item := items[i];
      OneMoreInOrder(items[..i], item);
      NextItem(items, i);
      NextCount(items, i, SourceV3Item);
      NextCount(items, i, LegacyItem);
      NextCount(items, i, AvailabilityItem);
      if item.musicId <= lastMusicId || !item.sound || item.kind.UnknownItem? {
        PrefixInOrder(items, i + 1);
        return false, kinds;
      }
      kinds := kinds[item.musicId := item.kind];
      if item.kind.SourceV3Item? {
        sources := sources + 1;
      } else if item.kind.LegacyItem? {
        legacy := legacy + 1;
      } else {
        availability := availability + 1;
      }
      lastMusicId := item.musicId;
    }
    assert items[..|items|] == items;
    KindCountIs(items, SourceV3Item);
    KindCountIs(items, LegacyItem);
    KindCountIs(items, AvailabilityItem);
    ok := sources == SOURCE_V3 && legacy == LEGACY && availability == AVAILABILITY;
  }

  // ---- source documents ----

  datatype Info = Info(identities: map<Key, nat>, bindings: map<Key, Key>)

  function KeysOf(pairs: seq<(Key, nat)>): seq<Key> {
    seq(|pairs|, i requires 0 <= i < |pairs| => pairs[i].0)
  }

  function IdentityMap(pairs: seq<(Key, nat)>): map<Key, nat> {
    if pairs == [] then map[] else IdentityMap(pairs[..|pairs| - 1])[pairs[|pairs| - 1].0 := pairs[|pairs| - 1].1]
  }

  function BindingMap(pairs: seq<(Key, Key)>): map<Key, Key> {
    if pairs == [] then map[] else BindingMap(pairs[..|pairs| - 1])[pairs[|pairs| - 1].0 := pairs[|pairs| - 1].1]
  }

  ghost predicate DocumentOk(document: Document, kinds: map<int, Kind>) {
    && document.musicId in kinds && kinds[document.musicId] == SourceV3Item && document.sound
    && Distinct(KeysOf(document.identities)) && document.bindings.Some?
  }

  function InfoOf(document: Document): Info {
    Info(IdentityMap(document.identities), if document.bindings.Some? then BindingMap(document.bindings.value) else map[])
  }

  function InfoMap(documents: seq<Document>): map<int, Info> {
    if documents == [] then map[]
    else InfoMap(documents[..|documents| - 1])[documents[|documents| - 1].musicId := InfoOf(documents[|documents| - 1])]
  }

  function DocumentIds(documents: seq<Document>): seq<int> {
    seq(|documents|, i requires 0 <= i < |documents| => documents[i].musicId)
  }

  lemma {:induction false} InfoMapKeys(documents: seq<Document>)
    ensures InfoMap(documents).Keys == Elements(DocumentIds(documents))
  {
    if documents != [] {
      var n := |documents| - 1;
      InfoMapKeys(documents[..n]);
      assert DocumentIds(documents) == DocumentIds(documents[..n]) + [documents[n].musicId];
    }
  }

  lemma {:induction false} IdentityMapKeys(pairs: seq<(Key, nat)>)
    ensures IdentityMap(pairs).Keys == Elements(KeysOf(pairs))
  {
    if pairs != [] {
      var n := |pairs| - 1;
      IdentityMapKeys(pairs[..n]);
      assert KeysOf(pairs) == KeysOf(pairs[..n]) + [pairs[n].0];
    }
  }

  lemma DistinctParts<T>(keys: seq<T>, key: T)
    requires Distinct(keys + [key])
    ensures Distinct(keys) && key !in keys
  {
    var more := keys + [key];
    forall i | 0 <= i < |keys| ensures keys[i] != key {
      assert more[i] == keys[i] && more[|keys|] == key;
    }
    forall i, j | 0 <= i < j < |keys| ensures keys[i] != keys[j] {
      assert more[i] == keys[i] && more[j] == keys[j];
    }
  }

  lemma DistinctMore<T>(keys: seq<T>, key: T)
    ensures Distinct(keys + [key]) <==> Distinct(keys) && key !in keys
  {
    if Distinct(keys + [key]) {
      DistinctParts(keys, key);
    }
  }

  lemma DistinctPrefix<T>(keys: seq<T>, n: nat)
    requires n <= |keys|
    ensures Distinct(keys) ==> Distinct(keys[..n])
  {}

  method FillIdentities(pairs: seq<(Key, nat)>) returns (ok: bool, identities: map<Key, nat>)
    ensures ok <==> Distinct(KeysOf(pairs))
    ensures ok ==> identities == IdentityMap(pairs)
  {
    identities := map[];
    var keys := KeysOf(pairs);
    for i := 0 to |pairs|
      invariant identities == IdentityMap(pairs[..i]) && Distinct(keys[..i])
    {
      IdentityMapKeys(pairs[..i]);
      DistinctMore(keys[..i], keys[i]);
      assert keys[..i] + [keys[i]] == keys[..i + 1] && KeysOf(pairs[..i]) == keys[..i] && pairs[..i + 1][..i] == pairs[..i];
      if pairs[i].0 in identities {
        DistinctPrefix(keys, i + 1);
        return false, identities;
      }
      identities := identities[pairs[i].0 := pairs[i].1];
    }
    assert pairs[..|pairs|] == pairs && keys[..|keys|] == keys;
    ok := true;
  }

  method FillBindings(pairs: seq<(Key, Key)>) returns (bindings: map<Key, Key>)
    ensures bindings == BindingMap(pairs)
  {
    bindings := map[];
    for i := 0 to |pairs|
      invariant bindings == BindingMap(pairs[..i])
    {
      assert pairs[..i + 1][..i] == pairs[..i];
      bindings := bindings[pairs[i].0 := pairs[i].1];
    }
    assert pairs[..|pairs|] == pairs;
  }

  ghost predicate DocumentsOk(documents: seq<Document>, kinds: map<int, Kind>) {
    (forall i :: 0 <= i < |documents| ==> DocumentOk(documents[i], kinds)) && Distinct(DocumentIds(documents))
  }

  lemma NextDocument(documents: seq<Document>, i: nat)
    requires i < |documents| && Distinct(DocumentIds(documents)[..i])
    ensures documents[..i + 1][..i] == documents[..i]
    ensures var known := documents[i].musicId in InfoMap(documents[..i]);
      (Distinct(DocumentIds(documents)[..i + 1]) <==> !known) && (known ==> !Distinct(DocumentIds(documents)))
  {
    var ids := DocumentIds(documents);
    InfoMapKeys(documents[..i]);
    DistinctMore(ids[..i], ids[i]);
    DistinctPrefix(ids, i + 1);
    assert ids[..i] + [ids[i]] == ids[..i + 1] && DocumentIds(documents[..i]) == ids[..i];
  }

  /** The loop over the source documents. */
  method CheckDocuments(documents: seq<Document>, kinds: map<int, Kind>) returns (ok: bool, infos: map<int, Info>)
    ensures ok <==> DocumentsOk(documents, kinds)
    ensures ok ==> infos == InfoMap(documents)
  {
    infos := map[];
    var ids := DocumentIds(documents);
    for i := 0 to |documents|
      invariant infos == InfoMap(documents[..i]) && Distinct(ids[..i])
      invariant forall j :: 0 <= j < i ==> DocumentOk(documents[j], kinds)
    {
      var document := documents[i];
      NextDocument(documents, i);
      if document.musicId !in kinds || kinds[document.musicId] != SourceV3Item || !document.sound || document.musicId in infos {
        return false, infos;
      }
      var distinct, identities := FillIdentities(document.identities);
      if !distinct || document.bindings.None? {
        return false, infos;
      }
      var bindings := FillBindings(document.bindings.value);
      infos := infos[document.musicId := Info(identities, bindings)];
    }
    assert documents[..|documents|] == documents && ids[..|ids|] == ids;
    ok := true;
  }

  /** With as many documents as source items, the documents are the items. */
  lemma DocumentsCoverItems(documents: seq<Document>, items: seq<Item>)
    requires CatalogPartition(items) && |documents| == SOURCE_V3 && DocumentsOk(documents, KindMap(items))
    ensures ExactCover(DocumentIds(documents), Ids(items, SourceV3Item))
  {
    forall id | id in DocumentIds(documents) ensures id in Ids(items, SourceV3Item) {
      var i :| 0 <= i < |documents| && documents[i].musicId == id;
      assert DocumentOk(documents[i], KindMap(items));
      KindMapIs(items, SourceV3Item, id);
    }
    CoverByCount(DocumentIds(documents), Ids(items, SourceV3Item));
  }

  // ---- keys per document: artifacts and contributions ----

  /** Every expected (music id, key) pair. */
  ghost function Pairs(expected: map<int, set<Key>>): set<(int, Key)> {
    set m, k | m in expected && k in expected[m] :: (m, k)
  }

  function Got(keys: map<int, set<Key>>, m: int): set<Key> {
    if m in keys then keys[m] else {}
  }

  function Put(keys: map<int, set<Key>>, m: int, k: Key): map<int, set<Key>> {
    keys[m := Got(keys, m) + {k}]
  }

  /** keys holds exactly these pairs. */
  ghost predicate Holds(keys: map<int, set<Key>>, pairs: seq<(int, Key)>) {
    forall m, k :: k in Got(keys, m) <==> (m, k) in pairs
  }

  lemma PutHolds(keys: map<int, set<Key>>, pairs: seq<(int, Key)>, m: int, k: Key)
    requires Holds(keys, pairs)
    ensures Holds(Put(keys, m, k), pairs + [(m, k)])
  {
    var more := pairs + [(m, k)];
    assert more[|pairs|] == (m, k);
    forall a, b ensures (a, b) in more <==> (a, b) in pairs || (a, b) == (m, k) {}
  }

  /** The loop over artifacts or contributions: each record fine on its own, no
      pair twice. */
  method CollectKeys(pairs: seq<(int, Key)>, fine: seq<bool>) returns (ok: bool, keys: map<int, set<Key>>)
    requires |fine| == |pairs|
    ensures ok <==> (forall i :: 0 <= i < |fine| ==> fine[i]) && Distinct(pairs)
    ensures ok ==> Holds(keys, pairs)
  {
    keys := map[];
    for i := 0 to |pairs|
      invariant (forall j :: 0 <= j < i ==> fine[j]) && Distinct(pairs[..i])
      invariant Holds(keys, pairs[..i])
    {
      var m, k := pairs[i].0, pairs[i].1;
      DistinctMore(pairs[..i], pairs[i]);
      DistinctPrefix(pairs, i + 1);
      assert pairs[..i + 1] == pairs[..i] + [(m, k)];
      if !fine[i] || k in Got(keys, m) {
        return false, keys;
      }
      PutHolds(keys, pairs[..i], m, k);
      keys := Put(keys, m, k);
    }
    assert pairs[..|pairs|] == pairs;
    ok := true;
  }

  predicate SizesMatch(keys: map<int, set<Key>>, expected: map<int, set<Key>>) {
    forall m :: m in expected ==> |Got(keys, m)| == |expected[m]|
  }

  /** The loop over the documents: as many keys as each expects. */
  method CheckSizes(keys: map<int, set<Key>>, expected: map<int, set<Key>>) returns (ok: bool)
    ensures ok <==> SizesMatch(keys, expected)
  {
    var pending := expected.Keys;
    while pending != {}
      invariant pending <= expected.Keys
      invariant forall m :: m in expected && m !in pending ==> |Got(keys, m)| == |expected[m]|
      decreases pending
    {
      var m := Pick(pending);
      if |Got(keys, m)| != |expected[m]| {
        return false;
      }
      pending := pending - {m};
    }
    ok := true;
  }

  lemma InPairs(expected: map<int, set<Key>>, m: int, k: Key)
    requires m in expected && k in expected[m]
    ensures (m, k) in Pairs(expected)
  {}

  /** Members, no duplicates and matching sizes make an exact cover, and nothing else does. */
  lemma SizesMeanCover(pairs: seq<(int, Key)>, keys: map<int, set<Key>>, expected: map<int, set<Key>>)
    requires Distinct(pairs) && Holds(keys, pairs)
    requires forall i :: 0 <= i < |pairs| ==> pairs[i].0 in expected && pairs[i].1 in expected[pairs[i].0]
    ensures SizesMatch(keys, expected) <==> ExactCover(pairs, Pairs(expected))
  {
    forall m | m in expected ensures Got(keys, m) <= expected[m] {
      forall k | k in Got(keys, m) ensures k in expected[m] {
        assert (m, k) in pairs;
      }
    }
    if SizesMatch(keys, expected) {
      forall m, k | m in expected && k in expected[m] ensures (m, k) in pairs {
        SameSizeSubset(Got(keys, m), expected[m]);
      }
      forall p | p in pairs ensures p in Pairs(expected) {
        var i :| 0 <= i < |pairs| && pairs[i] == p;
        InPairs(expected, p.0, p.1);
      }
      assert Elements(pairs) == Pairs(expected);
    }
    if ExactCover(pairs, Pairs(expected)) {
      forall m | m in expected ensures Got(keys, m) == expected[m] {
        forall k | k in expected[m] ensures k in Got(keys, m) {
          assert (m, k) in Pairs(expected);
          assert (m, k) in Elements(pairs);
        }
      }
    }
  }

  function ExpectedIdentities(infos: map<int, Info>): map<int, set<Key>> {
    map m | m in infos :: infos[m].identities.Keys
  }

  function ExpectedBindings(infos: map<int, Info>): map<int, set<Key>> {
    map m | m in infos :: infos[m].bindings.Keys
  }

  predicate ArtifactOk(a: Artifact, infos: map<int, Info>) {
    a.musicId in infos && a.key in infos[a.musicId].identities && infos[a.musicId].identities[a.key] == a.identity && a.sound
  }

  function ArtifactPairs(artifacts: seq<Artifact>): seq<(int, Key)> {
    seq(|artifacts|, i requires 0 <= i < |artifacts| => (artifacts[i].musicId, artifacts[i].key))
  }

  ghost predicate ArtifactsExact(artifacts: seq<Artifact>, infos: map<int, Info>) {
    && (forall i :: 0 <= i < |artifacts| ==> ArtifactOk(artifacts[i], infos))
    && ExactCover(ArtifactPairs(artifacts), Pairs(ExpectedIdentities(infos)))
  }

  method CheckArtifacts(artifacts: seq<Artifact>, infos: map<int, Info>) returns (ok: bool, keys: map<int, set<Key>>)
    ensures ok <==> ArtifactsExact(artifacts, infos)
    ensures ok ==> Holds(keys, ArtifactPairs(artifacts))
  {
    var pairs := ArtifactPairs(artifacts);
    var fine := seq(|artifacts|, i requires 0 <= i < |artifacts| => ArtifactOk(artifacts[i], infos));
    ok, keys := CollectKeys(pairs, fine);
    if ok {
      forall i | 0 <= i < |pairs| ensures ArtifactOk(artifacts[i], infos) {
        assert fine[i];
      }
      SizesMeanCover(pairs, keys, ExpectedIdentities(infos));
      ok := CheckSizes(keys, ExpectedIdentities(infos));
    } else if forall i :: 0 <= i < |artifacts| ==> ArtifactOk(artifacts[i], infos) {
      assert forall i :: 0 <= i < |fine| ==> fine[i];
    }
  }

  /** A contribution names a component of a document, the rendition it is bound
      to, and an artifact that exists. */
  predicate ContributionOk(c: Contribution, infos: map<int, Info>, artifactKeys: map<int, set<Key>>) {
    && c.musicId in infos && c.component in infos[c.musicId].bindings && infos[c.musicId].bindings[c.component] == c.key
    && c.key != "" && c.key in Got(artifactKeys, c.musicId) && c.sound
  }

  function ContributionPairs(contributions: seq<Contribution>): seq<(int, Key)> {
    seq(|contributions|, i requires 0 <= i < |contributions| => (contributions[i].musicId, contributions[i].component))
  }

  ghost predicate ContributionsExact(contributions: seq<Contribution>, infos: map<int, Info>, artifactKeys: map<int, set<Key>>) {
    && (forall i :: 0 <= i < |contributions| ==> ContributionOk(contributions[i], infos, artifactKeys))
    && ExactCover(ContributionPairs(contributions), Pairs(ExpectedBindings(infos)))
  }

  method CheckContributions(contributions: seq<Contribution>, infos: map<int, Info>, artifactKeys: map<int, set<Key>>) returns (ok: bool)
    ensures ok <==> ContributionsExact(contributions, infos, artifactKeys)
  {
    var pairs := ContributionPairs(contributions);
    var fine := seq(|contributions|, i requires 0 <= i < |contributions| => ContributionOk(contributions[i], infos, artifactKeys));
    var keys;
    ok, keys := CollectKeys(pairs, fine);
    if ok {
      forall i | 0 <= i < |pairs| ensures ContributionOk(contributions[i], infos, artifactKeys) {
        assert fine[i];
      }
      SizesMeanCover(pairs, keys, ExpectedBindings(infos));
      ok := CheckSizes(keys, ExpectedBindings(infos));
    } else if forall i :: 0 <= i < |contributions| ==> ContributionOk(contributions[i], infos, artifactKeys) {
      assert forall i :: 0 <= i < |fine| ==> fine[i];
    }
  }

  // ---- legacy documents ----

  function RecordIds(records: seq<Record>): seq<int> {
    seq(|records|, i requires 0 <= i < |records| => records[i].musicId)
  }

  predicate RecordOk(record: Record, kinds: map<int, Kind>, kind: Kind) {
    record.musicId in kinds && kinds[record.musicId] == kind && record.sound
  }

  predicate RecordsOk(records: seq<Record>, kinds: map<int, Kind>, kind: Kind) {
    forall i :: 0 <= i < |records| ==> RecordOk(records[i], kinds, kind)
  }

  /** The loop over the legacy documents does not look for duplicates. */
  method CheckLegacyDocuments(records: seq<Record>, kinds: map<int, Kind>) returns (ok: bool, ids: set<int>)
    ensures ok <==> RecordsOk(records, kinds, LegacyItem)
    ensures ok ==> ids == Elements(RecordIds(records))
  {
    ids := {};
    for i := 0 to |records|
      invariant RecordsOk(records[..i], kinds, LegacyItem) && ids == Elements(RecordIds(records)[..i])
    {
      if !RecordOk(records[i], kinds, LegacyItem) {
        return false, ids;
      }
      assert RecordIds(records)[..i + 1] == RecordIds(records)[..i] + [records[i].musicId];
      ids := ids + {records[i].musicId};
    }
    assert RecordIds(records)[..|records|] == RecordIds(records);
    ok := true;
  }

  /** What makes the legacy documents cover their items all the same: there is
      one of each. */
  lemma LegacyCoverItems(records: seq<Record>, items: seq<Item>)
    requires CatalogPartition(items) && |records| == LEGACY && RecordsOk(records, KindMap(items), LegacyItem)
    ensures ExactCover(RecordIds(records), Ids(items, LegacyItem))
  {
    RecordsCoverItems(records, items, LegacyItem);
  }

  lemma RecordsCoverItems(records: seq<Record>, items: seq<Item>, kind: Kind)
    requires ItemsInOrder(items) && Distinct(RecordIds(records)) && RecordsOk(records, KindMap(items), kind)
    requires |records| == |Ids(items, kind)|
    ensures ExactCover(RecordIds(records), Ids(items, kind))
  {
    forall id | id in RecordIds(records) ensures id in Ids(items, kind) {
      var i :| 0 <= i < |records| && records[i].musicId == id;
      assert RecordOk(records[i], KindMap(items), kind);
      KindMapIs(items, kind, id);
    }
    CoverByCount(RecordIds(records), Ids(items, kind));
  }

  /** The loop over the availability records. */
  method CheckAvailability(records: seq<Record>, kinds: map<int, Kind>) returns (ok: bool)
    ensures ok <==> RecordsOk(records, kinds, AvailabilityItem) && Distinct(RecordIds(records)) && |records| == AVAILABILITY
  {
    var ids := RecordIds(records);
    var seen: set<int> := {};
    for i := 0 to |records|
      invariant RecordsOk(records[..i], kinds, AvailabilityItem)
      invariant seen == Elements(ids[..i]) && Distinct(ids[..i])
    {
      DistinctMore(ids[..i], ids[i]);
      DistinctPrefix(ids, i + 1);
      assert ids[..i + 1] == ids[..i] + [ids[i]];
      if !RecordOk(records[i], kinds, AvailabilityItem) || records[i].musicId in seen {
        return false;
      }
      seen := seen + {records[i].musicId};
    }
    assert ids[..|ids|] == ids;
    DistinctSize(ids);
    ok := |seen| == AVAILABILITY;
  }

  // ---- legacy lines and segments ----

  function LineKeys(lines: seq<Line>): seq<(int, Key)> {
    seq(|lines|, i requires 0 <= i < |lines| => (lines[i].musicId, lines[i].lineId))
  }

  function LinePositions(lines: seq<Line>): seq<(int, int)> {
    seq(|lines|, i requires 0 <= i < |lines| => (lines[i].musicId, lines[i].position))
  }

  function SegmentLines(segments: seq<Segment>): seq<(int, Key)> {
    seq(|segments|, i requires 0 <= i < |segments| => (segments[i].musicId, segments[i].lineId))
  }

  predicate LineOk(line: Line, documents: set<int>) {
    line.musicId in documents && line.sound
  }

  /** Lines belong to legacy documents and repeat neither id nor position. */
  ghost predicate LinesExact(lines: seq<Line>, documents: set<int>) {
    && (forall i :: 0 <= i < |lines| ==> LineOk(lines[i], documents))
    && Distinct(LineKeys(lines)) && Distinct(LinePositions(lines))
  }

  method CheckLines(lines: seq<Line>, documents: set<int>) returns (ok: bool, keys: set<(int, Key)>)
    ensures ok <==> LinesExact(lines, documents)
    ensures ok ==> keys == Elements(LineKeys(lines))
  {
    var lineKeys, linePositions := LineKeys(lines), LinePositions(lines);
    keys := {};
    var positions: set<(int, int)> := {};
    for i := 0 to |lines|
      invariant forall j :: 0 <= j < i ==> LineOk(lines[j], documents)
      invariant keys == Elements(lineKeys[..i]) && Distinct(lineKeys[..i])
      invariant positions == Elements(linePositions[..i]) && Distinct(linePositions[..i])
    {
      DistinctMore(lineKeys[..i], lineKeys[i]);
      DistinctPrefix(lineKeys, i + 1);
      DistinctMore(linePositions[..i], linePositions[i]);
      DistinctPrefix(linePositions, i + 1);
      assert lineKeys[..i + 1] == lineKeys[..i] + [lineKeys[i]] && linePositions[..i + 1] == linePositions[..i] + [linePositions[i]];
      if !LineOk(lines[i], documents) || lineKeys[i] in keys || linePositions[i] in positions {
        return false, keys;
      }
      keys := keys + {lineKeys[i]};
      positions := positions + {linePositions[i]};
    }
    assert lineKeys[..|lines|] == lineKeys && linePositions[..|lines|] == linePositions;
    ok := true;
  }

  /** The string the code counts a line's segments under. */
  function SegmentKey(musicId: int, lineId: Key): string {
    Itoa(musicId) + [0 as char] + lineId
  }

  lemma NoSeparator(n: int)
    ensures (0 as char) !in Itoa(n)
  {
    var digits := Format(if n < 0 then -n else n);
    assert (0 as char) !in digits by {
      assert !IsDigit(0 as char);
    }
  }

  lemma ItoaInjective(m: int, n: int)
    requires Itoa(m) == Itoa(n)
    ensures m == n
  {
    var i, j := if m < 0 then -m else m, if n < 0 then -n else n;
    assert !IsDigit('-');
    assert m < 0 ==> Itoa(m)[1..] == Format(i);
    assert n < 0 ==> Itoa(n)[1..] == Format(j);
    assert IsDigit(Format(i)[0]) && IsDigit(Format(j)[0]);
    assert Format(i) == Format(j) && (m < 0 <==> n < 0);
    ValueOfFormat(i);
    ValueOfFormat(j);
  }

  predicate FirstSeparator(s: string, n: nat) {
    n < |s| && s[n] == 0 as char && forall i :: 0 <= i < n ==> s[i] != 0 as char
  }

  lemma SeparatorStands(left: string, right: string)
    requires (0 as char) !in left
    ensures FirstSeparator(left + [0 as char] + right, |left|)
  {
  }

  /** What stands before the first separator is determined. */
  lemma SplitAtSeparator(left: string, right: string, left': string, right': string)
    requires (0 as char) !in left && (0 as char) !in left'
    requires left + [0 as char] + right == left' + [0 as char] + right'
    ensures left == left' && right == right'
  {
    var whole := left + [0 as char] + right;
    SeparatorStands(left, right);
    SeparatorStands(left', right');
    assert whole[..|left|] == left && whole[..|left'|] == left';
    assert whole[|left| + 1..] == right && whole[|left'| + 1..] == right';
  }

  /** Two lines never share that string, whatever their ids contain. */
  lemma SegmentKeyInjective(m: int, line: Key, n: int, other: Key)
    requires SegmentKey(m, line) == SegmentKey(n, other)
    ensures m == n && line == other
  {
    NoSeparator(m);
    NoSeparator(n);
    SplitAtSeparator(Itoa(m), line, Itoa(n), other);
    ItoaInjective(m, n);
  }

  function PrintedKeys(keys: seq<(int, Key)>): seq<string> {
    seq(|keys|, i requires 0 <= i < |keys| => SegmentKey(keys[i].0, keys[i].1))
  }

  /** Counting under the printed string is counting by song and line. */
  lemma PrintedExactly(keys: seq<(int, Key)>, key: (int, Key))
    ensures SegmentKey(key.0, key.1) in PrintedKeys(keys) <==> key in keys
  {
    var printed := PrintedKeys(keys);
    if SegmentKey(key.0, key.1) in printed {
      var i :| 0 <= i < |printed| && printed[i] == SegmentKey(key.0, key.1);
      SegmentKeyInjective(keys[i].0, keys[i].1, key.0, key.1);
    }
    if key in keys {
      var i :| 0 <= i < |keys| && keys[i] == key;
      assert printed[i] == SegmentKey(key.0, key.1);
    }
  }

  function CountOf(counts: map<string, nat>, key: string): nat {
    if key in counts then counts[key] else 0
  }

  /** Every segment belongs to a line, and every line has a segment. */
  ghost predicate SegmentsExact(segments: seq<Segment>, lineKeys: set<(int, Key)>) {
    && (forall i :: 0 <= i < |segments| ==> segments[i].sound)
    && Elements(SegmentLines(segments)) == lineKeys
  }

  predicate EveryCounted(counts: map<string, nat>, lineKeys: set<(int, Key)>) {
    forall key :: key in lineKeys ==> CountOf(counts, SegmentKey(key.0, key.1)) > 0
  }

  /** The loop over the lines: each string has been counted. */
  method EveryLineCounted(counts: map<string, nat>, lineKeys: set<(int, Key)>) returns (ok: bool)
    ensures ok <==> EveryCounted(counts, lineKeys)
  {
    var left := lineKeys;
    while left != {}
      invariant left <= lineKeys
      invariant forall key :: key in lineKeys && key !in left ==> CountOf(counts, SegmentKey(key.0, key.1)) > 0
      decreases |left|
    {
      var key := Pick(left);
      if CountOf(counts, SegmentKey(key.0, key.1)) == 0 {
        return false;
      }
      left := left - {key};
    }
    ok := true;
  }

  /** The counts of the strings seen so far. */
  ghost predicate Tallied(counts: map<string, nat>, printed: seq<string>) {
    counts.Keys == Elements(printed) && forall key :: key in counts ==> counts[key] > 0
  }

  lemma TallyOne(counts: map<string, nat>, printed: seq<string>, key: string)
    requires Tallied(counts, printed)
    ensures Tallied(counts[key := CountOf(counts, key) + 1], printed + [key])
  {
  }

  lemma TalliedLines(counts: map<string, nat>, keys: seq<(int, Key)>, lineKeys: set<(int, Key)>)
    requires Tallied(counts, PrintedKeys(keys)) && Elements(keys) <= lineKeys
    ensures Elements(keys) == lineKeys <==> EveryCounted(counts, lineKeys)
  {
    forall key | key in lineKeys ensures CountOf(counts, SegmentKey(key.0, key.1)) > 0 <==> key in keys {
      PrintedExactly(keys, key);
    }
  }

  /** The first n segments are sound, of known lines, and counted. */
  ghost predicate SegmentsSoFar(segments: seq<Segment>, n: nat, lineKeys: set<(int, Key)>, counts: map<string, nat>)
    requires n <= |segments|
  {
    var keys := SegmentLines(segments[..n]);
    && (forall j :: 0 <= j < n ==> segments[j].sound)
    && Elements(keys) <= lineKeys && Tallied(counts, PrintedKeys(keys))
  }

  lemma NextSegment(segments: seq<Segment>, i: nat, lineKeys: set<(int, Key)>, counts: map<string, nat>)
    requires i < |segments| && SegmentsSoFar(segments, i, lineKeys, counts)
    ensures var segment := segments[i];
      var key := SegmentKey(segment.musicId, segment.lineId);
      if segment.sound && (segment.musicId, segment.lineId) in lineKeys
      then SegmentsSoFar(segments, i + 1, lineKeys, counts[key := CountOf(counts, key) + 1])
      else !SegmentsExact(segments, lineKeys)
  {
    var all, keys, segment := SegmentLines(segments), SegmentLines(segments[..i]), segments[i];
    assert all[i] in Elements(all);
    assert SegmentLines(segments[..i + 1]) == keys + [all[i]];
    var key := SegmentKey(segment.musicId, segment.lineId);
    assert PrintedKeys(keys + [all[i]]) == PrintedKeys(keys) + [key];
    TallyOne(counts, PrintedKeys(keys), key);
  }

  lemma AllSegments(segments: seq<Segment>, lineKeys: set<(int, Key)>, counts: map<string, nat>)
    requires SegmentsSoFar(segments, |segments|, lineKeys, counts)
    ensures SegmentsExact(segments, lineKeys) <==> EveryCounted(counts, lineKeys)
  {
    assert segments[..|segments|] == segments;
    TalliedLines(counts, SegmentLines(segments), lineKeys);
  }

  method CheckSegments(segments: seq<Segment>, lineKeys: set<(int, Key)>) returns (ok: bool)
    ensures ok <==> SegmentsExact(segments, lineKeys)
  {
    var segmentsByLine: map<string, nat> := map[];
    for i := 0 to |segments|
      invariant SegmentsSoFar(segments, i, lineKeys, segmentsByLine)
    {
      NextSegment(segments, i, lineKeys, segmentsByLine);
      var segment := segments[i];
      if (segment.musicId, segment.lineId) !in lineKeys || !segment.sound {
        return false;
      }
      var key := SegmentKey(segment.musicId, segment.lineId);
      segmentsByLine := segmentsByLine[key := CountOf(segmentsByLine, key) + 1];
    }
    AllSegments(segments, lineKeys, segmentsByLine);
    ok := EveryLineCounted(segmentsByLine, lineKeys);
  }

  // ---- the whole bundle ----

  predicate Counts(b: Bundle) {
    && |b.documents| == SOURCE_V3 && |b.artifacts| == ARTIFACTS && |b.contributions| == CONTRIBUTIONS
    && |b.legacyDocuments| == LEGACY && |b.availability| == AVAILABILITY
    && b.inventory == Inventory(|b.documents|, |b.artifacts|, |b.contributions|, |b.legacyDocuments|, |b.lines|, |b.segments|, |b.availability|)
  }

  /** What an accepted bundle is: every kind of record covers what it belongs to,
      one to one. */
  ghost predicate Exact(b: Bundle) {
    var kinds, infos := KindMap(b.items), InfoMap(b.documents);
    && Counts(b) && CatalogPartition(b.items) && b.catalogDigest && b.seedDigest
    && (forall i :: 0 <= i < |b.documents| ==> DocumentOk(b.documents[i], kinds))
    && ExactCover(DocumentIds(b.documents), Ids(b.items, SourceV3Item))
    && ArtifactsExact(b.artifacts, infos)
    && (exists keys :: Holds(keys, ArtifactPairs(b.artifacts)) && ContributionsExact(b.contributions, infos, keys))
    && RecordsOk(b.legacyDocuments, kinds, LegacyItem) && ExactCover(RecordIds(b.legacyDocuments), Ids(b.items, LegacyItem))
    && LinesExact(b.lines, Elements(RecordIds(b.legacyDocuments)))
    && SegmentsExact(b.segments, Elements(LineKeys(b.lines)))
    && RecordsOk(b.availability, kinds, AvailabilityItem) && ExactCover(RecordIds(b.availability), Ids(b.items, AvailabilityItem))
  }

  lemma SameKeys(a: map<int, set<Key>>, b: map<int, set<Key>>, pairs: seq<(int, Key)>, contributions: seq<Contribution>, infos: map<int, Info>)
    requires Holds(a, pairs) && Holds(b, pairs) && ContributionsExact(contributions, infos, a)
    ensures ContributionsExact(contributions, infos, b)
  {
    forall i | 0 <= i < |contributions| ensures ContributionOk(contributions[i], infos, b) {
      var c := contributions[i];
      assert ContributionOk(c, infos, a);
      assert c.key in Got(a, c.musicId) <==> (c.musicId, c.key) in pairs;
      assert c.key in Got(b, c.musicId) <==> (c.musicId, c.key) in pairs;
    }
  }

  method CheckSources(b: Bundle, kinds: map<int, Kind>) returns (ok: bool)
    ensures ok <==> && DocumentsOk(b.documents, kinds) && ArtifactsExact(b.artifacts, InfoMap(b.documents))
                    && exists keys :: Holds(keys, ArtifactPairs(b.artifacts)) && ContributionsExact(b.contributions, InfoMap(b.documents), keys)
  {
    var infos, keys;
    ok, infos := CheckDocuments(b.documents, kinds);
    if ok {
      ok, keys := CheckArtifacts(b.artifacts, infos);
      if ok {
        ok := CheckContributions(b.contributions, infos, keys);
        if !ok {
          forall other | Holds(other, ArtifactPairs(b.artifacts)) ensures !ContributionsExact(b.contributions, infos, other) {
            if ContributionsExact(b.contributions, infos, other) {
              SameKeys(other, keys, ArtifactPairs(b.artifacts), b.contributions, infos);
            }
          }
        }
      }
    }
  }

  method CheckLegacy(b: Bundle, kinds: map<int, Kind>) returns (ok: bool)
    ensures ok <==> && RecordsOk(b.legacyDocuments, kinds, LegacyItem)
                    && LinesExact(b.lines, Elements(RecordIds(b.legacyDocuments)))
                    && SegmentsExact(b.segments, Elements(LineKeys(b.lines)))
  {
    var ids, keys;
    ok, ids := CheckLegacyDocuments(b.legacyDocuments, kinds);
    if ok {
      ok, keys := CheckLines(b.lines, ids);
      if ok {
        ok := CheckSegments(b.segments, keys);
      }
    }
  }

  /** validateBundle accepts exactly the exact covers. */
  method ValidateBundle(b: Bundle) returns (ok: bool)
    ensures ok <==> Exact(b)
  {
    if !Counts(b) {
      return false;
    }
    var kinds;
    ok, kinds := CheckItems(b.items);
    if !ok || !b.catalogDigest {
      return false;
    }
    ok := CheckSources(b, kinds);
    if ok {
      DocumentsCoverItems(b.documents, b.items);
      ok := CheckLegacy(b, kinds);
      if ok {
        LegacyCoverItems(b.legacyDocuments, b.items);
        ok := CheckAvailability(b.availability, kinds);
        if ok {
          RecordsCoverItems(b.availability, b.items, AvailabilityItem);
          ok := b.seedDigest;
        }
      }
    }
  }
}
