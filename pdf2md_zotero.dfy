// `ZoteroClient` of the older revision (src/zotero_pdf2md/zotero.py): the
// collection names it loads page by page, the configured collection keys it
// keeps only when the library knows them, and `iter_pdf_attachments`, which
// reports collections by name and has no citation key.
module Pdf2mdZotero {
  import opened Wrappers
  import opened Text
  import opened Sorting
  import opened Models
  import opened ZoteroData
  import opened SettingsCommon
  import opened Paging

  /** The `data` of one collection of the library, as far as the client
      reads it. */
  datatype CollectionData = CollectionData(key: Option<string>, name: Option<string>)

  /** A collection with a key and a name is recorded. */
  predicate Named(c: CollectionData) {
    Truthy(c.key) && Truthy(c.name)
  }

  /** `mappings` after the collections of `cols`, from `m`: each named
      collection maps its key to its name. */
  function MappingsFrom(m: map<string, string>, cols: seq<CollectionData>): map<string, string>
    decreases |cols|
  {
    if cols == [] then m
    else
      var before := MappingsFrom(m, cols[..|cols| - 1]);
      var c := cols[|cols| - 1];
      if Named(c) then before[c.key.value := c.name.value] else before
  }

  /** The mapping `_load_collection_mappings` returns for the collections
      of the library, in the order the server lists them. */
  function Mappings(cols: seq<CollectionData>): map<string, string> {
    MappingsFrom(map[], cols)
  }

  /** Reading two runs of collections one after the other. */
  lemma {:induction false} MappingsFromAppend(m: map<string, string>, xs: seq<CollectionData>, ys: seq<CollectionData>)
    ensures MappingsFrom(m, xs + ys) == MappingsFrom(MappingsFrom(m, xs), ys)
    decreases |ys|
  {
    if ys == [] {
      assert xs + ys == xs;
    } else {
      MappingsFromAppend(m, xs, ys[..|ys| - 1]);
      assert (xs + ys)[..|xs + ys| - 1] == xs + ys[..|ys| - 1];
    }
  }

  /** The `for collection in batch` loop. */
  method AddCollections(m: map<string, string>, batch: seq<CollectionData>) returns (m': map<string, string>)
    ensures m' == MappingsFrom(m, batch)
  {
    m' := m;
    var b := 0;
    while b < |batch|
      invariant 0 <= b <= |batch|
      invariant m' == MappingsFrom(m, batch[..b])
    {
      assert batch[..b + 1][..b] == batch[..b];
      var key := batch[b].key;
      var name := batch[b].name;
      if Truthy(key) && Truthy(name) {
        m' := m'[key.value := name.value];
      }
      b := b + 1;
    }
    assert batch[..b] == batch;
  }

  /** `_load_collection_mappings`: the collections of the library, `chunkSize`
      at a time from start 0 until an empty page. */
  method LoadCollectionMappings(all: seq<CollectionData>, chunkSize: int) returns (mappings: map<string, string>)
    requires chunkSize > 0
    ensures mappings == Mappings(all)
  {
    mappings := map[];
    var start := 0;
    var batch := Page(all, start, chunkSize);
    assert all[..start] == [];
    while batch != []
      invariant 0 <= start <= |all| && batch == Page(all, start, chunkSize)
      invariant mappings == Mappings(all[..start])
      decreases |all| - start
    {
      mappings := AddCollections(mappings, batch);
      SliceJoin(all, start, start + |batch|);
      MappingsFromAppend(map[], all[..start], batch);
      start := start + |batch|;
      batch := Page(all, start, chunkSize);
    }
    assert all[..start] == all;
  }

  /** The mapping knows exactly the keys of the named collections. */
  lemma {:induction false} MappingsKeys(cols: seq<CollectionData>)
    ensures forall k :: k in Mappings(cols) <==>
              exists i :: 0 <= i < |cols| && Named(cols[i]) && cols[i].key.value == k
    decreases |cols|
  {
    if cols != [] {
      var init := cols[..|cols| - 1];
      var c := cols[|cols| - 1];
      MappingsKeys(init);
      assert Mappings(cols) == if Named(c) then Mappings(init)[c.key.value := c.name.value] else Mappings(init);
      forall k | k in Mappings(cols)
        ensures exists i :: 0 <= i < |cols| && Named(cols[i]) && cols[i].key.value == k
      {
        if k in Mappings(init) {
          var i :| 0 <= i < |init| && Named(init[i]) && init[i].key.value == k;
          assert cols[i] == init[i];
        } else {
          assert Named(cols[|cols| - 1]) && cols[|cols| - 1].key.value == k;
        }
      }
      forall k | exists i :: 0 <= i < |cols| && Named(cols[i]) && cols[i].key.value == k
        ensures k in Mappings(cols)
      {
        var i :| 0 <= i < |cols| && Named(cols[i]) && cols[i].key.value == k;
        if i < |init| {
          assert init[i] == cols[i];
          assert k in Mappings(init);
        }
      }
    }
  }

  /** A key listed twice takes the name of its last named listing. */
  lemma {:induction false} MappingsLastNameWins(cols: seq<CollectionData>, i: int)
    requires 0 <= i < |cols| && Named(cols[i])
    requires forall j :: i < j < |cols| && Named(cols[j]) ==> cols[j].key != cols[i].key
    ensures cols[i].key.value in Mappings(cols) && Mappings(cols)[cols[i].key.value] == cols[i].name.value
    decreases |cols|
  {
    if i < |cols| - 1 {
      var init := cols[..|cols| - 1];
      assert init[i] == cols[i];
      MappingsLastNameWins(init, i);
    }
  }

  /** `_resolve_collection_names(keys)`: the names of the known keys, in
      order; unknown keys are dropped. */
  function ResolveCollectionNames(names: map<string, string>, keys: seq<string>): (r: seq<string>)
    ensures |r| <= |keys|
    decreases |keys|
  {
    if keys == [] then []
    else
      var rest := ResolveCollectionNames(names, keys[..|keys| - 1]);
      var k := keys[|keys| - 1];
      if k in names then rest + [names[k]] else rest
  }

  /** The resolved names are the names of the known keys, and only those. */
  lemma {:induction false} ResolveCollectionNamesMembers(names: map<string, string>, keys: seq<string>)
    ensures forall x :: x in ResolveCollectionNames(names, keys) <==> exists k :: k in keys && k in names && names[k] == x
    decreases |keys|
  {
    if keys != [] {
      var init := keys[..|keys| - 1];
      ResolveCollectionNamesMembers(names, init);
      assert forall j :: j in init ==> j in keys;
      assert forall j :: j in keys ==> j in init || j == keys[|keys| - 1];
    }
  }

  /** Resolving two runs of keys one after the other. */
  lemma {:induction false} ResolveCollectionNamesAppend(names: map<string, string>, a: seq<string>, b: seq<string>)
    ensures ResolveCollectionNames(names, a + b) == ResolveCollectionNames(names, a) + ResolveCollectionNames(names, b)
    decreases |b|
  {
    if b == [] {
      assert a + b == a;
    } else {
      ResolveCollectionNamesAppend(names, a, b[..|b| - 1]);
      assert (a + b)[..|a + b| - 1] == a + b[..|b| - 1];
    }
  }

  /** When the library knows every key, each key gives its name, in order. */
  lemma {:induction false} ResolveKnownCollectionNames(names: map<string, string>, keys: seq<string>)
    requires forall i :: 0 <= i < |keys| ==> keys[i] in names
    ensures |ResolveCollectionNames(names, keys)| == |keys|
    ensures forall i :: 0 <= i < |keys| ==> ResolveCollectionNames(names, keys)[i] == names[keys[i]]
    decreases |keys|
  {
    if keys != [] {
      ResolveKnownCollectionNames(names, keys[..|keys| - 1]);
    }
  }

  /** `_resolve_collection_filters(names)`: the configured collection keys,
      stripped and not blank, that the library knows; the others are only
      reported. */
  function ResolveCollectionFilters(names: map<string, string>, given: set<string>): (r: set<string>)
    ensures forall k :: k in r <==> k in names && k != "" && exists g :: g in given && Strip(g) == k
  {
    set k | k in NormalizeNames(given) && k in names
  }

  /** Clean configured keys (as `__post_init__` leaves them) are kept
      exactly when the library knows them. */
  lemma ResolveCleanCollectionFilters(names: map<string, string>, given: set<string>)
    requires CleanNames(given)
    ensures ResolveCollectionFilters(names, given) == given * names.Keys
  {
    NormalizeNamesIdempotent(given);
  }

  /** When the library knows none of the configured keys, there is no
      collection filter left, and every attachment passes the collection
      test: unknown keys widen the export to the whole library. */
  lemma UnknownCollectionsDisableFilter(names: map<string, string>, given: set<string>,
                                        attachmentKeys: seq<string>, parentKeys: seq<string>)
    requires forall g :: g in given ==> Strip(g) !in names
    ensures ResolveCollectionFilters(names, given) == {}
    ensures MatchCollections(ResolveCollectionFilters(names, given), attachmentKeys, parentKeys)
  {
  }

  /** The collections of a parent, by name, or none without a parent. */
  function ParentCollectionNames(names: map<string, string>, parent: Option<ItemData>): seq<string> {
    ResolveCollectionNames(names, ParentCollections(parent))
  }

  /** `all_collections`: the names of the known collections of the
      attachment and its parent, each once, sorted. */
  function NamedCollections(names: map<string, string>, data: ItemData, parent: Option<ItemData>): (r: seq<string>)
    ensures StrictlySorted(r)
    ensures forall c :: c in r <==>
              exists k :: (k in data.collections || k in ParentCollections(parent)) && k in names && names[k] == c
  {
    ResolveCollectionNamesMembers(names, data.collections);
    ResolveCollectionNamesMembers(names, ParentCollections(parent));
    SortedUnion(ResolveCollectionNames(names, data.collections), ParentCollectionNames(names, parent))
  }

  /** The tests of the loop body, in order, on an item whose key is new;
      the server lists only PDF attachments. */
  predicate Accepts(filterKeys: set<string>, tagFilters: set<string>, data: ItemData, parent: Option<ItemData>) {
    IsDownloadable(Some(data))
    && MatchCollections(filterKeys, data.collections, ParentCollections(parent))
    && MatchTags(tagFilters, MergedTags(data, parent))
  }

  /** The `AttachmentMetadata` the loop body yields; this revision records
      no citation key. */
  function Metadata(names: map<string, string>, data: ItemData, parent: Option<ItemData>): (m: AttachmentMetadata)
    requires data.key.Some?
    ensures m.attachmentKey == data.key.value && m.parentItemKey == data.parentItem
    ensures m.parentCitationKey.None? && (m.parentTitle.Some? ==> parent.Some?)
  {
    AttachmentMetadata(
      data.key.value,
      data.parentItem,
      data.title,
      if parent.Some? then parent.value.title else None,
      data.filename,
      None,
      NamedCollections(names, data, parent),
      MergedTags(data, parent),
      Timestamp(data.dateAdded),
      Timestamp(data.dateModified))
  }

  /** The body of the `for item in batch` loop once the key is new. */
  function Build(names: map<string, string>, filterKeys: set<string>, tagFilters: set<string>,
                 parents: string -> Option<ItemData>, data: ItemData): (r: Option<AttachmentMetadata>)
    ensures r.Some? <==> Accepts(filterKeys, tagFilters, data, Parent(data, parents))
    ensures r.Some? ==> data.key.Some? && r.value == Metadata(names, data, Parent(data, parents))
  {
    var parent := Parent(data, parents);
    if Accepts(filterKeys, tagFilters, data, parent) then Some(Metadata(names, data, parent)) else None
  }

  /** The metadata of a client on the mapping `names`, with the filters it
      resolved. */
  function Builder(names: map<string, string>, filterKeys: set<string>, tagFilters: set<string>,
                   parents: string -> Option<ItemData>): ItemData -> Option<AttachmentMetadata> {
    (d: ItemData) => Build(names, filterKeys, tagFilters, parents, d)
  }

  /** An attachment meets the filters of a client: every collection it
      reports is a name from the mapping, the name of one of the filter
      keys is among them, and one of its tags equals one of the configured
      tags up to case. */
  predicate MeetsFilters(names: map<string, string>, filterKeys: set<string>, tags: set<string>, m: AttachmentMetadata) {
    (forall c :: c in m.collections ==> c in names.Values)
    && (filterKeys == {} || exists k :: k in filterKeys && k in names && names[k] in m.collections)
    && (tags == {} || exists t, u :: t in m.tags && u in tags && Lower(t) == Lower(u))
  }

  /** Every collection reported is a name from the mapping. */
  lemma NamedCollectionsAreNames(names: map<string, string>, data: ItemData, parent: Option<ItemData>)
    ensures forall c :: c in NamedCollections(names, data, parent) ==> c in names.Values
  {
    forall c | c in NamedCollections(names, data, parent) ensures c in names.Values {
      var k :| (k in data.collections || k in ParentCollections(parent)) && k in names && names[k] == c;
    }
  }

  /** A collection filter met through the keys shows as the name of a
      filter key among the names reported. */
  lemma FilterKeyNamed(names: map<string, string>, filterKeys: set<string>, data: ItemData, parent: Option<ItemData>)
    requires filterKeys <= names.Keys
    requires MatchCollections(filterKeys, data.collections, ParentCollections(parent))
    ensures filterKeys == {} || exists k :: k in filterKeys && k in names && names[k] in NamedCollections(names, data, parent)
  {
    if filterKeys != {} {
      var k :| k in filterKeys && (k in data.collections || k in ParentCollections(parent));
      assert names[k] in NamedCollections(names, data, parent);
    }
  }

  /** An item that passes the tests of a client yields metadata that meets
      its filters. */
  lemma AcceptedMeetsFilters(names: map<string, string>, filterKeys: set<string>, tags: set<string>,
                             data: ItemData, parent: Option<ItemData>)
    requires filterKeys <= names.Keys
    requires Accepts(filterKeys, TagFilters(tags), data, parent)
    ensures data.key.Some? && MeetsFilters(names, filterKeys, tags, Metadata(names, data, parent))
  {
    var m := Metadata(names, data, parent);
    assert m.collections == NamedCollections(names, data, parent) && m.tags == MergedTags(data, parent);
    NamedCollectionsAreNames(names, data, parent);
    FilterKeyNamed(names, filterKeys, data, parent);
    MatchTagsIgnoresCase(tags, m.tags);
  }

  /** Every attachment a client's builder makes meets its filters and keeps
      the item key. */
  lemma BuilderMeetsFilters(names: map<string, string>, filterKeys: set<string>, tags: set<string>,
                            parents: string -> Option<ItemData>)
    requires filterKeys <= names.Keys
    ensures var build := Builder(names, filterKeys, TagFilters(tags), parents);
            forall d :: build(d).Some? ==>
              MeetsFilters(names, filterKeys, tags, build(d).value)
              && d.key.Some? && build(d).value.attachmentKey == d.key.value
  {
    forall d | Build(names, filterKeys, TagFilters(tags), parents, d).Some?
      ensures MeetsFilters(names, filterKeys, tags, Build(names, filterKeys, TagFilters(tags), parents, d).value)
    {
      AcceptedMeetsFilters(names, filterKeys, tags, d, Parent(d, parents));
    }
  }

  /** `iter_pdf_attachments` of a client built on the settings: the
      collection filter is resolved against the mapping `names`, `order` is
      the order in which Python iterates the resolved keys, and `listing`
      what the server lists for a collection (or the library for `None`). */
  method IterPdfAttachments(names: map<string, string>, collections: set<string>, tags: set<string>, chunkSize: int,
                            limit: Option<int>, order: seq<string>,
                            listing: Option<string> -> seq<Option<ItemData>>, parents: string -> Option<ItemData>)
    returns (yielded: seq<AttachmentMetadata>)
    requires chunkSize > 0
    requires forall k :: k in order <==> k in ResolveCollectionFilters(names, collections)
    ensures var filterKeys := ResolveCollectionFilters(names, collections);
            yielded == Scan(Stream(listing, CollectionsToFetch(filterKeys, order)),
                            Builder(names, filterKeys, TagFilters(tags), parents), limit).yielded
    ensures forall i, j :: 0 <= i < j < |yielded| ==> yielded[i].attachmentKey != yielded[j].attachmentKey
    ensures LimitSet(limit) && limit.value > 0 ==> |yielded| <= limit.value
    ensures forall m :: m in yielded ==> MeetsFilters(names, ResolveCollectionFilters(names, collections), tags, m)
  {
    var filterKeys := ResolveCollectionFilters(names, collections);
    var build := Builder(names, filterKeys, TagFilters(tags), parents);
    var fetch := CollectionsToFetch(filterKeys, order);
    yielded := Iterate(listing, fetch, chunkSize, build, limit);
    ghost var items := Stream(listing, fetch);
    BuilderMeetsFilters(names, filterKeys, tags, parents);
    ScanKeysDistinct(items, build, limit);
    if LimitSet(limit) && limit.value > 0 {
      ScanLimitTruncates(items, build, limit.value);
    }
    ScanYieldsOnly(items, build, limit, (m: AttachmentMetadata) => MeetsFilters(names, filterKeys, tags, m));
  }
}
