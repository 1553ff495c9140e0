// The item data both revisions' zotero.py read from the Zotero Web API, and
// what their `ZoteroClient`s share word for word: `_extract_tags`,
// `_match_tags`, `_match_collections`, `_is_downloadable_attachment`,
// `_fetch_parent` (the parent item as the server serves it), the merged tag
// list of an attachment and its parent, and `_parse_timestamp`.
module ZoteroData {
  import opened Wrappers
  import opened Text
  import opened Sorting

  /** One entry of an item's `tags` list: the value of its "tag" field. */
  datatype TagEntry = TagEntry(tag: Option<string>)

  /** The `data` dictionary of a Zotero item, as far as the client reads
      it. `None` is a missing field; `citationKey` and `extra` are `None`
      too when they hold something other than a string; a missing list is
      empty. */
  datatype ItemData = ItemData(
    key: Option<string>,
    linkMode: Option<string>,
    contentType: Option<string>,
    parentItem: Option<string>,
    title: Option<string>,
    filename: Option<string>,
    collections: seq<string>,
    tags: seq<TagEntry>,
    dateAdded: Option<string>,
    dateModified: Option<string>,
    citationKey: Option<string>,
    extra: Option<string>)

  /** The link modes of attachments whose file is stored in Zotero. */
  const ImportedLinkModes: set<string> := {"imported_file", "imported_url"}

  /** `_is_downloadable_attachment(data)`, where `None` is the empty
      dictionary: an imported attachment with a non-empty key. */
  predicate IsDownloadable(data: Option<ItemData>) {
    data.Some? && data.value.linkMode.Some? && data.value.linkMode.value in ImportedLinkModes
    && Truthy(data.value.key)
  }

  /** The non-empty "tag" values of a tag list. */
  function TagNames(tags: seq<TagEntry>): set<string> {
    set i | 0 <= i < |tags| && Truthy(tags[i].tag) :: tags[i].tag.value
  }

  /** `_extract_tags(tags)`: the non-empty tag names, each once, sorted. */
  function ExtractTags(tags: seq<TagEntry>): (r: seq<string>)
    ensures StrictlySorted(r)
    ensures forall x :: x in r <==> x != "" && exists i :: 0 <= i < |tags| && tags[i].tag == Some(x)
  {
    var names := TagNames(tags);
    assert forall i :: 0 <= i < |tags| && Truthy(tags[i].tag) ==> tags[i].tag.value in names;
    SortedSet(names)
  }

  /** A strictly sorted list holds no name twice. */
  lemma StrictlySortedDistinct(xs: seq<string>)
    requires StrictlySorted(xs)
    ensures forall i, j :: 0 <= i < j < |xs| ==> xs[i] != xs[j]
  {
    forall i, j | 0 <= i < j < |xs| ensures xs[i] != xs[j] {
      assert LexLt(xs[i], xs[j]);
    }
  }

  /** `tuple(sorted(set(a + b)))`: the names of both lists, each once, sorted. */
  function SortedUnion(a: seq<string>, b: seq<string>): (r: seq<string>)
    ensures StrictlySorted(r)
    ensures forall x :: x in r <==> x in a || x in b
  {
    SortedSet(set x | x in a + b)
  }

  /** `self._tag_filters`: the configured tags, lower-cased. */
  function TagFilters(tags: set<string>): (r: set<string>)
    ensures forall t :: t in tags ==> Lower(t) in r
    ensures forall f :: f in r ==> exists t :: t in tags && Lower(t) == f
  {
    set t | t in tags :: Lower(t)
  }

  /** `_match_tags(names)`: with no tag filter everything matches; otherwise
      some name, lower-cased, is a filter. */
  predicate MatchTags(tagFilters: set<string>, names: seq<string>) {
    tagFilters == {} || exists i :: 0 <= i < |names| && Lower(names[i]) in tagFilters
  }

  /** Tag matching ignores case on both sides: an attachment matches the
      configured tags exactly when none are configured or one of its names
      equals one of them up to case. */
  lemma MatchTagsIgnoresCase(tags: set<string>, names: seq<string>)
    ensures MatchTags(TagFilters(tags), names) <==>
              tags == {} || exists i, t :: 0 <= i < |names| && t in tags && Lower(names[i]) == Lower(t)
  {
    if tags != {} {
      var t :| t in tags;
      assert Lower(t) in TagFilters(tags);
    }
    if MatchTags(TagFilters(tags), names) && tags != {} {
      var i :| 0 <= i < |names| && Lower(names[i]) in TagFilters(tags);
      var t :| t in tags && Lower(t) == Lower(names[i]);
    }
  }

  /** `_match_collections(attachment_keys, parent_keys)`: with no collection
      filter everything matches; otherwise the attachment's or its parent's
      collections meet the filter. */
  predicate MatchCollections(filterKeys: set<string>, attachmentKeys: seq<string>, parentKeys: seq<string>) {
    filterKeys == {} || exists k :: k in filterKeys && (k in attachmentKeys || k in parentKeys)
  }

  /** The parent item of an attachment, as `_fetch_parent` returns it:
      `None` when the attachment names no parent or the parent is not
      found, and otherwise the parent's `data` (the `parents` parameter is
      the library as the server serves it). */
  function Parent(data: ItemData, parents: string -> Option<ItemData>): Option<ItemData>
  {
    if Truthy(data.parentItem) then parents(data.parentItem.value) else None
  }

  /** The collections of a parent, or none without a parent. */
  function ParentCollections(parent: Option<ItemData>): seq<string> {
    if parent.Some? then parent.value.collections else []
  }

  /** The tag names of a parent, or none without a parent. */
  function ParentTags(parent: Option<ItemData>): seq<string> {
    if parent.Some? then ExtractTags(parent.value.tags) else []
  }

  /** `all_tags`: the tag names of the attachment and its parent, each once,
      sorted. */
  function MergedTags(data: ItemData, parent: Option<ItemData>): (r: seq<string>)
    ensures StrictlySorted(r)
    ensures forall t :: t in r <==> t in ExtractTags(data.tags) || t in ParentTags(parent)
  {
    SortedUnion(ExtractTags(data.tags), ParentTags(parent))
  }

  /** `_parse_timestamp`, on the text: a missing or empty value gives
      nothing; otherwise the stripped text. */
  function Timestamp(value: Option<string>): (r: Option<string>)
    ensures !Truthy(value) ==> r.None?
    ensures Truthy(value) ==> r == Some(Strip(value.value))
  {
    if Truthy(value) then Some(Strip(value.value)) else None
  }
}
