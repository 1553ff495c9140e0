// The attachment record produced by the attachment source
// (zotero_files2md/models.py) and the path type used for output files.
module Models {
  import opened Wrappers
  import opened Text

  /** A filesystem path as its sequence of components; `p / name` appends. */
  type Path = seq<string>

  /** `Path(text)` for a single file or directory name. */
  function PathOf(name: string): (p: Path)
    ensures |p| == 1 && p[0] == name
  {
    [name]
  }

  /** `base / x / y` as a sequence of components. */
  lemma AppendTwo<T>(base: seq<T>, x: T, y: T)
    ensures var r := base + [x] + [y];
            |r| == |base| + 2 && r[..|base|] == base && r[|base|] == x && r[|base| + 1] == y
            && r == base + [x, y] && r[..|base| + 1] == base + [x]
  {
    var r := base + [x] + [y];
    assert r[..|base|] == base;
    assert r[..|base| + 1] == base + [x];
  }

  /** A value of the mapping returned by `as_info`. */
  datatype InfoValue = Null | Text(text: string) | List(items: seq<string>)

  /** Immutable metadata of one attachment. Timestamps are kept as the ISO
      8601 text that `as_info` writes out. */
  datatype AttachmentMetadata = AttachmentMetadata(
    attachmentKey: string,
    parentItemKey: Option<string>,
    title: Option<string>,
    parentTitle: Option<string>,
    filename: Option<string>,
    parentCitationKey: Option<string>,
    collections: seq<string>,
    tags: seq<string>,
    dateAdded: Option<string>,
    dateModified: Option<string>)
  {
    /** The separator `label` puts between the two titles (an en dash). */
    static const LabelSeparator: string := " \U{2013} "

    /** Human-friendly label combining parent and attachment titles. */
    function Label(): (r: string)
      ensures attachmentKey != "" ==> r != ""
    {
      if Truthy(parentTitle) && Truthy(title) then
        if Lower(Strip(parentTitle.value)) == Lower(Strip(title.value)) then parentTitle.value
        else parentTitle.value + LabelSeparator + title.value
      else OrText(title, OrText(parentTitle, attachmentKey))
    }

    /** The keys of `as_info`. */
    static const InfoKeys: set<string> := {
      "attachment_key", "parent_item_key", "title", "parent_title", "parent_citation_key",
      "filename", "collections", "tags", "date_added", "date_modified"
    }

    /** A serialisable mapping of the core metadata. */
    function AsInfo(): (r: map<string, InfoValue>)
      ensures r.Keys == InfoKeys
      ensures r["attachment_key"] == Text(attachmentKey)
      ensures r["collections"] == List(collections) && r["tags"] == List(tags)
      ensures forall k :: k in r && k !in {"collections", "tags"} ==> !r[k].List?
      ensures r["parent_item_key"] == OptionalText(parentItemKey) && r["title"] == OptionalText(title)
      ensures r["parent_title"] == OptionalText(parentTitle) && r["parent_citation_key"] == OptionalText(parentCitationKey)
      ensures r["filename"] == OptionalText(filename)
      ensures r["date_added"] == OptionalText(dateAdded) && r["date_modified"] == OptionalText(dateModified)
    {
      map[
        "attachment_key" := Text(attachmentKey),
        "parent_item_key" := OptionalText(parentItemKey),
        "title" := OptionalText(title),
        "parent_title" := OptionalText(parentTitle),
        "parent_citation_key" := OptionalText(parentCitationKey),
        "filename" := OptionalText(filename),
        "collections" := List(collections),
        "tags" := List(tags),
        "date_added" := OptionalText(dateAdded),
        "date_modified" := OptionalText(dateModified)
      ]
    }
  }

  /** `None` becomes `Null`; a string is written as it is (an empty string too). */
  function OptionalText(o: Option<string>): (v: InfoValue)
    ensures o.None? <==> v.Null?
    ensures o.Some? ==> v == Text(o.value)
  {
    match o
    case None => Null
    case Some(s) => Text(s)
  }

  /** A text value read back from the info mapping; anything else is `None`. */
  function TextOf(v: InfoValue): (o: Option<string>)
    ensures v.Text? <==> o.Some?
  {
    if v.Text? then Some(v.text) else None
  }

  /** Reads an attachment record back from an info mapping, when the mapping
      has every key and the attachment key, collections and tags have the
      right shape. */
  function FromInfo(info: map<string, InfoValue>): (a: Option<AttachmentMetadata>)
    ensures a.Some? ==> AttachmentMetadata.InfoKeys <= info.Keys && info["attachment_key"] == Text(a.value.attachmentKey)
  {
    if AttachmentMetadata.InfoKeys <= info.Keys && info["attachment_key"].Text?
       && info["collections"].List? && info["tags"].List?
    then
      Some(AttachmentMetadata(
        info["attachment_key"].text,
        TextOf(info["parent_item_key"]),
        TextOf(info["title"]),
        TextOf(info["parent_title"]),
        TextOf(info["filename"]),
        TextOf(info["parent_citation_key"]),
        info["collections"].items,
        info["tags"].items,
        TextOf(info["date_added"]),
        TextOf(info["date_modified"])))
    else None
  }

  /** `as_info` loses nothing: the record reads back from its mapping. */
  lemma AsInfoRoundTrip(a: AttachmentMetadata)
    ensures FromInfo(a.AsInfo()) == Some(a)
  {
  }

  /** With both titles present and equal up to surrounding whitespace and
      case, the label is the parent title alone. */
  lemma LabelOfEqualTitles(a: AttachmentMetadata)
    requires Truthy(a.parentTitle) && Truthy(a.title)
    requires Lower(Strip(a.parentTitle.value)) == Lower(Strip(a.title.value))
    ensures a.Label() == a.parentTitle.value
  {
  }

  /** With both titles present and different, the label joins them with an en dash. */
  lemma LabelOfDistinctTitles(a: AttachmentMetadata)
    requires Truthy(a.parentTitle) && Truthy(a.title)
    requires Lower(Strip(a.parentTitle.value)) != Lower(Strip(a.title.value))
    ensures a.Label() == a.parentTitle.value + AttachmentMetadata.LabelSeparator + a.title.value
    ensures |a.Label()| == |a.parentTitle.value| + 3 + |a.title.value|
  {
  }

  /** Otherwise the first of title, parent title and attachment key that is set. */
  lemma LabelFallsBack(a: AttachmentMetadata)
    requires !(Truthy(a.parentTitle) && Truthy(a.title))
    ensures Truthy(a.title) ==> a.Label() == a.title.value
    ensures !Truthy(a.title) && Truthy(a.parentTitle) ==> a.Label() == a.parentTitle.value
    ensures !Truthy(a.title) && !Truthy(a.parentTitle) ==> a.Label() == a.attachmentKey
  {
  }
}
