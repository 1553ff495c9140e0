// `ZoteroClient` of the newer revision (src/zotero_files2md/zotero.py): the
// citation key of a parent item, read from its `citationKey` field or from
// a `Citation Key:` line of its `extra` field, and `iter_attachments`, which
// turns the listed attachments into `AttachmentMetadata` under the content
// type, collection and tag filters.
module Files2mdZotero {
  import opened Wrappers
  import opened Text
  import opened Sorting
  import opened Models
  import opened ZoteroData
  import opened SettingsCommon
  import opened Paging

  /** `s[i..]` begins with `word` when ASCII capitals are read as small
      letters; `word` is written in small letters. */
  predicate WordAt(s: string, i: nat, word: string) {
    i + |word| <= |s| && Lower(s[i..i + |word|]) == word
  }

  /** Where the keyword of `_citation_key_pattern` ends in `line`, when the
      line opens with it after blanks: "citekey", or "citation" and "key"
      with blanks or nothing between ("citationkey"), in any case. */
  function KeywordEnd(line: string): (e: Option<nat>)
    ensures e.Some? ==> e.value <= |line|
  {
    var i := SkipSpaces(line, 0);
    if WordAt(line, i, "citekey") then Some(i + 7)
    else if WordAt(line, i, "citation") then
      var j := SkipSpaces(line, i + 8);
      if WordAt(line, j, "key") then Some(j + 3) else None
    else None
  }

  /** `_citation_key_pattern.match(line)` on a line without line breaks,
      giving `match.group(1).strip()`: the keyword, blanks, a colon, and at
      least one more character; the group is what follows the colon. */
  function CitationMatch(line: string): (r: Option<string>)
    ensures r.Some? ==> Strip(r.value) == r.value
  {
    match KeywordEnd(line)
    case None => None
    case Some(e) =>
      var c := SkipSpaces(line, e);
      if c + 1 < |line| && line[c] == ':' then
        StripIdempotent(line[c + 1..]);
        Some(Strip(line[c + 1..]))
      else None
  }

  /** The key a line of `extra` gives: a match whose group is not blank. */
  function LineKey(line: string): (r: Option<string>)
    ensures r.Some? ==> r.value != "" && Strip(r.value) == r.value
  {
    match CitationMatch(line)
    case None => None
    case Some(k) => if k != "" then Some(k) else None
  }

  /** The key each line gives, in order. */
  function LineKeys(lines: seq<string>): (keys: seq<Option<string>>)
    ensures |keys| == |lines|
  {
    seq(|lines|, i requires 0 <= i < |lines| => LineKey(lines[i]))
  }

  /** The first key present in `keys`, if any. */
  function FirstKey(keys: seq<Option<string>>): (r: Option<string>)
    ensures r.None? <==> forall i :: 0 <= i < |keys| ==> keys[i].None?
    ensures r.Some? ==> exists i :: 0 <= i < |keys| && keys[i] == r && forall j :: 0 <= j < i ==> keys[j].None?
  {
    if keys == [] then None
    else if keys[0].Some? then keys[0]
    else
      var r := FirstKey(keys[1..]);
      assert forall i :: 1 <= i < |keys| ==> keys[i] == keys[1..][i - 1];
      if r.Some? then
        var i :| 0 <= i < |keys[1..]| && keys[1..][i] == r && forall j :: 0 <= j < i ==> keys[1..][j].None?;
        assert keys[i + 1] == r && forall j :: 0 <= j < i + 1 ==> keys[j].None?;
        r
      else
        r
  }

  /** The key of the first line of `extra` that gives one. */
  function ExtraCitationKey(extra: string): (r: Option<string>)
    ensures r.Some? ==> r.value != "" && Strip(r.value) == r.value
  {
    var keys := LineKeys(SplitLines(extra));
    var r := FirstKey(keys);
    assert r.Some? ==> exists i :: 0 <= i < |keys| && keys[i] == r && LineKey(SplitLines(extra)[i]) == r;
    r
  }

  /** `_extract_parent_citation_key` on the `data` of a parent item: a
      string `citationKey` that is not blank wins, stripped, whatever
      `extra` holds; otherwise the key of the first line of a string
      `extra` that gives one; otherwise nothing. */
  function ParentCitationKey(data: ItemData): (r: Option<string>)
    ensures data.citationKey.Some? && Strip(data.citationKey.value) != "" ==> r == Some(Strip(data.citationKey.value))
    ensures r.Some? ==> r.value != "" && Strip(r.value) == r.value
  {
    if data.citationKey.Some? && Strip(data.citationKey.value) != "" then
      StripIdempotent(data.citationKey.value);
      Some(Strip(data.citationKey.value))
    else if data.extra.None? then None
    else ExtraCitationKey(data.extra.value)
  }

  /** The `for line in extra.splitlines()` loop: the first line that gives
      a key ends it. */
  method FirstLineKey(lines: seq<string>) returns (r: Option<string>)
    ensures r == FirstKey(LineKeys(lines))
  {
    ghost var keys := LineKeys(lines);
    var n := 0;
    while n < |lines|
      invariant 0 <= n <= |lines|
      invariant FirstKey(keys[n..]) == FirstKey(keys)
    {
      var key := LineKey(lines[n]);
      assert keys[n] == key;
      assert keys[n..][0] == key && keys[n..][1..] == keys[n + 1..];
      if key.Some? {
        return key;
      }
      n := n + 1;
    }
    assert keys[n..] == [];
    return None;
  }

  /** `_extract_parent_citation_key`. */
  method ExtractParentCitationKey(data: ItemData) returns (r: Option<string>)
    ensures r == ParentCitationKey(data)
  {
    if data.citationKey.Some? {
      var cleaned := Strip(data.citationKey.value);
      if cleaned != "" {
        return Some(cleaned);
      }
    }
    if data.extra.None? {
      return None;
    }
    r := FirstLineKey(SplitLines(data.extra.value));
  }

  /** A key preceded only by missing ones is the first key. */
  lemma FirstKeyAt(keys: seq<Option<string>>, n: nat)
    requires n < |keys| && keys[n].Some? && forall j :: 0 <= j < n ==> keys[j].None?
    ensures FirstKey(keys) == keys[n]
  {
    var i :| 0 <= i < |keys| && keys[i] == FirstKey(keys) && forall j :: 0 <= j < i ==> keys[j].None?;
  }

  /** A string without line breaks is one line. */
  lemma OneLine(s: string)
    requires s != [] && forall k :: 0 <= k < |s| ==> !IsLineBreak(s[k])
    ensures SplitLines(s) == [s]
  {
    assert LineEnd(s) == |s|;
    assert s[..|s|] == s;
    assert SplitLines(s) == [s[..|s|]] + SplitLines([]);
  }

  /** Blanks before a clean text are stripped away. */
  lemma StripLeadingSpace(k: string)
    requires Strip(k) == k
    ensures Strip(" " + k) == k
  {
    var s := " " + k;
    var i := SkipSpaces(s, 0);
    if k == [] {
      assert i == 1;
    } else {
      assert !IsSpace(k[0]);
      assert SkipSpaces(s, 1) == 1;
      assert i == 1;
      assert !IsSpace(s[|s| - 1]);
    }
  }

  /** A piece of `s` that lower-cases to `word` starts an occurrence of
      `word`. */
  lemma WordAtPiece(s: string, i: nat, piece: string, word: string)
    requires i + |piece| <= |s| && s[i..i + |piece|] == piece && |piece| == |word|
    requires forall j :: 0 <= j < |piece| ==> LowerChar(piece[j]) == word[j]
    ensures WordAt(s, i, word)
  {
    assert Lower(piece) == word;
  }

  /** "Citation Key: k" opens with "citation", not with "citekey". */
  lemma CitationStart(k: string)
    ensures var a := "Citation Key: " + k;
            SkipSpaces(a, 0) == 0 && !WordAt(a, 0, "citekey") && WordAt(a, 0, "citation")
  {
    var a := "Citation Key: " + k;
    assert SkipSpaces(a, 0) == 0;
    assert !WordAt(a, 0, "citekey") by {
      assert Lower(a[0..7])[3] == LowerChar(a[3]) == 'a';
    }
    assert a[0..8] == "Citation";
    CitationLowers();
    WordAtPiece(a, 0, "Citation", "citation");
  }

  /** "Citation" lower-cases to "citation", character by character. */
  lemma CitationLowers()
    ensures forall j :: 0 <= j < 8 ==> LowerChar("Citation"[j]) == "citation"[j]
  {
    assert LowerChar('C') == 'c';
  }

  /** The one blank between "Citation" and "Key" is skipped. */
  lemma CitationKeyBlank(k: string)
    ensures SkipSpaces("Citation Key: " + k, 8) == 9
  {
    var a := "Citation Key: " + k;
    assert a[8] == ' ' && a[9] == 'K';
    assert SkipSpaces(a, 9) == 9;
  }

  /** "Key" follows the blank of "Citation Key: k". */
  lemma CitationKeyWord(k: string)
    ensures WordAt("Citation Key: " + k, 9, "key")
  {
    var a := "Citation Key: " + k;
    assert a[9..12] == "Key" by {
      assert a[9] == 'K' && a[10] == 'e' && a[11] == 'y';
    }
    WordAtPiece(a, 9, "Key", "key");
  }

  /** The keyword of "Citation Key: k" ends before its colon. */
  lemma CitationKeyKeyword(k: string)
    ensures KeywordEnd("Citation Key: " + k) == Some(12)
  {
    CitationStart(k);
    CitationKeyBlank(k);
    CitationKeyWord(k);
  }

  /** "citekey: k" opens with "citekey". */
  lemma CitekeyStart(k: string)
    ensures SkipSpaces("citekey: " + k, 0) == 0 && WordAt("citekey: " + k, 0, "citekey")
  {
    var b := "citekey: " + k;
    assert SkipSpaces(b, 0) == 0;
    assert b[0..7] == "citekey";
    WordAtPiece(b, 0, "citekey", "citekey");
  }

  /** The keyword of "citekey: k" ends before its colon. */
  lemma CitekeyKeyword(k: string)
    ensures KeywordEnd("citekey: " + k) == Some(7)
  {
    CitekeyStart(k);
  }

  /** A colon right after the keyword, followed by something, matches with
      the stripped rest of the line as its group. */
  lemma MatchAfterColon(line: string, e: nat)
    requires KeywordEnd(line) == Some(e) && e + 1 < |line| && line[e] == ':'
    ensures CitationMatch(line) == Some(Strip(line[e + 1..]))
  {
    assert SkipSpaces(line, e) == e;
  }

  /** After the keyword, a colon, a blank and a clean key give that key. */
  lemma KeyAfterColon(line: string, e: nat, k: string)
    requires k != "" && Strip(k) == k
    requires KeywordEnd(line) == Some(e) && e < |line| && line[e] == ':' && line[e + 1..] == " " + k
    ensures LineKey(line) == Some(k)
  {
    MatchAfterColon(line, e);
    StripLeadingSpace(k);
  }

  /** Zotero's own spelling, "Citation Key: k", gives back a clean key. */
  lemma CitationKeyLine(k: string)
    requires k != "" && Strip(k) == k
    ensures LineKey("Citation Key: " + k) == Some(k)
  {
    var a := "Citation Key: " + k;
    CitationKeyKeyword(k);
    assert a[13..] == " " + k;
    KeyAfterColon(a, 12, k);
  }

  /** Better BibTeX's spelling, "citekey: k", gives back a clean key. */
  lemma CitekeyLine(k: string)
    requires k != "" && Strip(k) == k
    ensures LineKey("citekey: " + k) == Some(k)
  {
    var b := "citekey: " + k;
    CitekeyKeyword(k);
    assert b[8..] == " " + k;
    KeyAfterColon(b, 7, k);
  }

  /** "Citation Key: k" has no line boundary when `k` has none. */
  lemma CitationLineUnbroken(k: string)
    requires forall i :: 0 <= i < |k| ==> !IsLineBreak(k[i])
    ensures var s := "Citation Key: " + k; forall i :: 0 <= i < |s| ==> !IsLineBreak(s[i])
  {
    var s := "Citation Key: " + k;
    forall i | 0 <= i < |s| ensures !IsLineBreak(s[i]) {
      if i >= 14 { assert s[i] == k[i - 14]; }
    }
  }

  /** A parent whose `extra` is one `Citation Key:` line, with no direct key,
      has that key. */
  lemma ExtraKeyRoundTrip(data: ItemData, k: string)
    requires k != "" && Strip(k) == k && forall i :: 0 <= i < |k| ==> !IsLineBreak(k[i])
    requires data.citationKey.None? && data.extra == Some("Citation Key: " + k)
    ensures ParentCitationKey(data) == Some(k)
  {
    CitationLineUnbroken(k);
    OneLine("Citation Key: " + k);
    CitationKeyLine(k);
  }

  /** No key is read from `extra` exactly when none of its lines gives
      one. */
  lemma ExtraCitationKeyNone(extra: string)
    ensures ExtraCitationKey(extra).None? <==>
            forall i :: 0 <= i < |SplitLines(extra)| ==> LineKey(SplitLines(extra)[i]).None?
  {
    assert ExtraCitationKey(extra) == FirstKey(LineKeys(SplitLines(extra)));
    NoLineKey(SplitLines(extra));
  }

  /** `lines` has no first key exactly when none of them gives a key. */
  lemma NoLineKey(lines: seq<string>)
    ensures FirstKey(LineKeys(lines)).None? <==> forall i :: 0 <= i < |lines| ==> LineKey(lines[i]).None?
  {
    var keys := LineKeys(lines);
    forall j | 0 <= j < |lines| ensures keys[j] == LineKey(lines[j]) {}
  }

  /** The first key of `lines` is given by a line all of whose
      predecessors give none. */
  lemma FirstLineKeyAt(lines: seq<string>)
    requires FirstKey(LineKeys(lines)).Some?
    ensures exists i :: 0 <= i < |lines| && LineKey(lines[i]) == FirstKey(LineKeys(lines))
                        && forall j :: 0 <= j < i ==> LineKey(lines[j]).None?
  {
    var keys := LineKeys(lines);
    var i :| 0 <= i < |keys| && keys[i] == FirstKey(keys) && forall j :: 0 <= j < i ==> keys[j].None?;
    forall j | 0 <= j < i ensures LineKey(lines[j]).None? {
      assert keys[j] == LineKey(lines[j]);
    }
    assert keys[i] == LineKey(lines[i]);
  }

  /** A key read from `extra` is that of a line all of whose predecessors
      give none. */
  lemma ExtraCitationKeyFirst(extra: string)
    requires ExtraCitationKey(extra).Some?
    ensures exists i :: 0 <= i < |SplitLines(extra)| && LineKey(SplitLines(extra)[i]) == ExtraCitationKey(extra)
                        && forall j :: 0 <= j < i ==> LineKey(SplitLines(extra)[j]).None?
  {
    var lines := SplitLines(extra);
    assert ExtraCitationKey(extra) == FirstKey(LineKeys(lines));
    FirstLineKeyAt(lines);
  }

  /** Without a usable direct key, the parent's key is the one read from a
      string `extra`, and there is none when `extra` is missing. */
  lemma ParentCitationKeyFromExtra(data: ItemData)
    requires !(data.citationKey.Some? && Strip(data.citationKey.value) != "")
    ensures data.extra.None? ==> ParentCitationKey(data).None?
    ensures data.extra.Some? ==> ParentCitationKey(data) == ExtraCitationKey(data.extra.value)
  {
  }

  /** A line whose first character is neither blank nor a "c" of either
      case gives no key. */
  lemma LineKeyNeedsC(line: string)
    requires line != [] && !IsSpace(line[0]) && LowerChar(line[0]) != 'c'
    ensures LineKey(line).None?
  {
    assert SkipSpaces(line, 0) == 0;
    assert !WordAt(line, 0, "citekey") by {
      if 7 <= |line| { assert Lower(line[0..7])[0] == LowerChar(line[0]); }
    }
    assert !WordAt(line, 0, "citation") by {
      if 8 <= |line| { assert Lower(line[0..8])[0] == LowerChar(line[0]); }
    }
  }

  /** When the first line gives no key and the second does, the second
      line's key is the first key. */
  lemma SecondLineKey(lines: seq<string>)
    requires 2 <= |lines| && LineKey(lines[0]).None? && LineKey(lines[1]).Some?
    ensures FirstKey(LineKeys(lines)) == LineKey(lines[1])
  {
    var keys := LineKeys(lines);
    assert keys[0].None? && keys[1] == LineKey(lines[1]);
    assert forall j :: 0 <= j < 1 ==> keys[j].None?;
    FirstKeyAt(keys, 1);
  }

  /** Lines before the `Citation Key:` line that give no key do not hide
      it, and the lines after it are not read. */
  lemma KeyOnLaterLine(data: ItemData, note: string, k: string, tail: string)
    requires forall i :: 0 <= i < |note| ==> !IsLineBreak(note[i])
    requires LineKey(note).None?
    requires k != "" && Strip(k) == k && forall i :: 0 <= i < |k| ==> !IsLineBreak(k[i])
    requires data.citationKey.None? && data.extra == Some(note + "\n" + ("Citation Key: " + k) + "\n" + tail)
    ensures ParentCitationKey(data) == Some(k)
  {
    var line := "Citation Key: " + k;
    var extra := note + "\n" + (line + "\n" + tail);
    assert data.extra.value == extra;
    CitationLineUnbroken(k);
    SplitLinesAfterBreak(line, tail);
    SplitLinesAfterBreak(note, line + "\n" + tail);
    assert SplitLines(extra)[0] == note && SplitLines(extra)[1] == line;
    CitationKeyLine(k);
    assert ExtraCitationKey(extra) == FirstKey(LineKeys(SplitLines(extra)));
    SecondLineKey(SplitLines(extra));
  }

  /** A note line, the key line and a trailing line: the key is found on
      the second line. */
  lemma KeyAmongNotes(data: ItemData)
    requires data.citationKey.None?
    requires data.extra == Some("Some note" + "\n" + ("Citation Key: " + "smith2023foundations") + "\n" + "Another line")
    ensures ParentCitationKey(data) == Some("smith2023foundations")
  {
    NoteLine();
    KeyText();
    KeyOnLaterLine(data, "Some note", "smith2023foundations", "Another line");
  }

  /** The note line of that test is one line giving no key. */
  lemma NoteLine()
    ensures LineKey("Some note").None?
    ensures forall i :: 0 <= i < |"Some note"| ==> !IsLineBreak("Some note"[i])
  {
    LineKeyNeedsC("Some note");
  }

  /** The key of that test is stripped and unbroken. */
  lemma KeyText()
    ensures Strip("smith2023foundations") == "smith2023foundations"
    ensures forall i :: 0 <= i < |"smith2023foundations"| ==> !IsLineBreak("smith2023foundations"[i])
  {
    StripOfTrimmed("smith2023foundations");
  }

  /** An `extra` of one line that does not open with a keyword gives no
      key. */
  lemma UnkeyedExtra(data: ItemData, line: string)
    requires line != [] && !IsSpace(line[0]) && LowerChar(line[0]) != 'c'
    requires forall i :: 0 <= i < |line| ==> !IsLineBreak(line[i])
    requires data.citationKey.None? && data.extra == Some(line)
    ensures ParentCitationKey(data).None?
  {
    OneLine(line);
    LineKeyNeedsC(line);
    var keys := LineKeys([line]);
    assert keys[0] == LineKey(line);
  }

  /** "No key here" as the whole `extra` gives no key. */
  lemma NoKeyInExtra(data: ItemData)
    requires data.citationKey.None? && data.extra == Some("No key here")
    ensures ParentCitationKey(data).None?
  {
    UnkeyedExtra(data, "No key here");
  }

  /** A parent whose direct key is padded with blanks has that key,
      stripped. */
  lemma DirectKeyStripped(data: ItemData)
    requires data.citationKey == Some("  " + "smith2023foundations" + "  ")
    ensures ParentCitationKey(data) == Some("smith2023foundations")
  {
    var w := "smith2023foundations";
    var s := "  " + w + "  ";
    assert s[2] == w[0] == 's' && s[21] == w[19] == 's';
    assert SkipSpaces(s, 2) == 2;
    assert SkipSpaces(s, 0) == 2;
    assert TrimSpaces(s, 2, 22) == 22;
    assert TrimSpaces(s, 2, |s|) == 22;
    assert s[2..22] == w;
  }

  /** The filters of one `iter_attachments` call: the lower-cased content
      types (empty when none were asked for), the collection keys of the
      settings, and the lower-cased tags. */
  datatype Filters = Filters(contentTypes: set<string>, collectionKeys: set<string>, tagFilters: set<string>)

  /** `content_type_filter`: the given MIME types, lower-cased; none when
      no types or an empty list were given. */
  function ContentTypeFilter(contentTypes: Option<seq<string>>): (r: set<string>)
    ensures contentTypes.None? || contentTypes.value == [] <==> r == {}
    ensures contentTypes.Some? ==> forall t :: t in contentTypes.value ==> Lower(t) in r
    ensures forall f :: f in r ==> contentTypes.Some? && exists t :: t in contentTypes.value && Lower(t) == f
  {
    if contentTypes.None? then {}
    else
      var r := set t | t in contentTypes.value :: Lower(t);
      assert contentTypes.value != [] ==> Lower(contentTypes.value[0]) in r;
      r
  }

  /** `all_collections`: the collections of the attachment and its parent,
      each once, sorted. */
  function MergedCollections(data: ItemData, parent: Option<ItemData>): (r: seq<string>)
    ensures StrictlySorted(r)
    ensures forall c :: c in r <==> c in data.collections || c in ParentCollections(parent)
  {
    SortedUnion(data.collections, ParentCollections(parent))
  }

  /** The `contentType` test: passes with no content type filter, otherwise
      the lower-cased content type (empty when missing) must be asked for. */
  predicate ContentTypeAccepted(contentTypes: set<string>, contentType: Option<string>) {
    contentTypes == {} || Lower(OrText(contentType, "")) in contentTypes
  }

  /** The tests of the loop body, in order, on an item whose key is new. */
  predicate Accepts(f: Filters, data: ItemData, parent: Option<ItemData>) {
    IsDownloadable(Some(data))
    && ContentTypeAccepted(f.contentTypes, data.contentType)
    && MatchCollections(f.collectionKeys, data.collections, ParentCollections(parent))
    && MatchTags(f.tagFilters, MergedTags(data, parent))
  }

  /** The `AttachmentMetadata` the loop body yields. */
  function Metadata(data: ItemData, parent: Option<ItemData>): (m: AttachmentMetadata)
    requires data.key.Some?
    ensures m.attachmentKey == data.key.value && m.parentItemKey == data.parentItem
    ensures m.parentTitle.Some? || m.parentCitationKey.Some? ==> parent.Some?
  {
    AttachmentMetadata(
      data.key.value,
      data.parentItem,
      data.title,
      if parent.Some? then parent.value.title else None,
      data.filename,
      if parent.Some? then ParentCitationKey(parent.value) else None,
      MergedCollections(data, parent),
      MergedTags(data, parent),
      Timestamp(data.dateAdded),
      Timestamp(data.dateModified))
  }

  /** The body of the `for item in batch` loop once the key is new. */
  function Build(f: Filters, parents: string -> Option<ItemData>, data: ItemData): (r: Option<AttachmentMetadata>)
    ensures r.Some? <==> Accepts(f, data, Parent(data, parents))
    ensures r.Some? ==> data.key.Some? && r.value == Metadata(data, Parent(data, parents))
  {
    var parent := Parent(data, parents);
    if Accepts(f, data, parent) then Some(Metadata(data, parent)) else None
  }

  /** Every attachment that passes the tests is an imported file with a
      key, in a filtered collection through itself or its parent, and
      carries a filtered tag, on itself or its parent, among its merged
      tags. */
  lemma AcceptedMeetsFilters(f: Filters, data: ItemData, parent: Option<ItemData>)
    requires Accepts(f, data, parent)
    ensures data.key.Some? && data.key.value != "" && data.linkMode.Some? && data.linkMode.value in ImportedLinkModes
    ensures f.collectionKeys == {} || exists c :: c in f.collectionKeys && c in MergedCollections(data, parent)
    ensures f.tagFilters == {} || exists t :: t in MergedTags(data, parent) && Lower(t) in f.tagFilters
  {
    if f.collectionKeys != {} {
      var c :| c in f.collectionKeys && (c in data.collections || c in ParentCollections(parent));
      assert c in MergedCollections(data, parent);
    }
    if f.tagFilters != {} {
      var tags := MergedTags(data, parent);
      var i :| 0 <= i < |tags| && Lower(tags[i]) in f.tagFilters;
      assert tags[i] in tags;
    }
  }

  /** What the filters of a `ZoteroClient` built on the settings keep, and
      the metadata it makes of a listed item. */
  function Builder(f: Filters, parents: string -> Option<ItemData>): ItemData -> Option<AttachmentMetadata> {
    (d: ItemData) => Build(f, parents, d)
  }

  /** An attachment meets the collection and tag filters of the settings:
      it is in one of the collections, and one of its tags equals one of the
      tags up to case. */
  predicate MeetsFilters(collections: set<string>, tags: set<string>, m: AttachmentMetadata) {
    (collections == {} || exists c :: c in collections && c in m.collections)
    && (tags == {} || exists t, u :: t in m.tags && u in tags && Lower(t) == Lower(u))
  }

  /** An item that passes the tests of a client built on the settings
      yields metadata that meets the settings' filters. */
  lemma AcceptedMeetsSettings(collections: set<string>, tags: set<string>, contentTypes: set<string>,
                              data: ItemData, parent: Option<ItemData>)
    requires Accepts(Filters(contentTypes, collections, TagFilters(tags)), data, parent)
    ensures data.key.Some? && MeetsFilters(collections, tags, Metadata(data, parent))
  {
    var f := Filters(contentTypes, collections, TagFilters(tags));
    var m := Metadata(data, parent);
    assert m.collections == MergedCollections(data, parent) && m.tags == MergedTags(data, parent);
    AcceptedMeetsFilters(f, data, parent);
    MatchTagsIgnoresCase(tags, m.tags);
    if tags != {} {
      var i, u :| 0 <= i < |m.tags| && u in tags && Lower(m.tags[i]) == Lower(u);
      assert m.tags[i] in m.tags;
    }
  }

  /** Every attachment a client's builder makes meets the filters and keeps
      the item key. */
  lemma BuilderMeetsFilters(collections: set<string>, tags: set<string>, contentTypes: set<string>,
                            parents: string -> Option<ItemData>)
    ensures var build := Builder(Filters(contentTypes, collections, TagFilters(tags)), parents);
            forall d :: build(d).Some? ==>
              MeetsFilters(collections, tags, build(d).value)
              && d.key.Some? && build(d).value.attachmentKey == d.key.value
  {
    forall d | Build(Filters(contentTypes, collections, TagFilters(tags)), parents, d).Some?
      ensures MeetsFilters(collections, tags, Build(Filters(contentTypes, collections, TagFilters(tags)), parents, d).value)
    {
      AcceptedMeetsSettings(collections, tags, contentTypes, d, Parent(d, parents));
    }
  }

  /** `iter_attachments(content_types=...)` of a client built on the
      settings' collections, tags, chunk size and limit; `order` is the
      order in which Python iterates the collection keys and `listing` what
      the server lists for a collection (or the library for `None`). */
  method IterAttachments(collections: set<string>, tags: set<string>, chunkSize: int, limit: Option<int>,
                         contentTypes: Option<seq<string>>, order: seq<string>,
                         listing: Option<string> -> seq<Option<ItemData>>, parents: string -> Option<ItemData>)
    returns (yielded: seq<AttachmentMetadata>)
    requires chunkSize > 0
    requires forall k :: k in order <==> k in collections
    ensures var f := Filters(ContentTypeFilter(contentTypes), collections, TagFilters(tags));
            yielded == Scan(Stream(listing, CollectionsToFetch(collections, order)), Builder(f, parents), limit).yielded
    ensures forall i, j :: 0 <= i < j < |yielded| ==> yielded[i].attachmentKey != yielded[j].attachmentKey
    ensures LimitSet(limit) && limit.value > 0 ==> |yielded| <= limit.value
    ensures forall m :: m in yielded ==> MeetsFilters(collections, tags, m)
  {
    var f := Filters(ContentTypeFilter(contentTypes), collections, TagFilters(tags));
    var build := Builder(f, parents);
    var fetch := CollectionsToFetch(collections, order);
    yielded := Iterate(listing, fetch, chunkSize, build, limit);
    ghost var items := Stream(listing, fetch);
    BuilderMeetsFilters(collections, tags, f.contentTypes, parents);
    ScanKeysDistinct(items, build, limit);
    if LimitSet(limit) && limit.value > 0 {
      ScanLimitTruncates(items, build, limit.value);
    }
    ScanYieldsOnly(items, build, limit, (m: AttachmentMetadata) => MeetsFilters(collections, tags, m));
  }
}
