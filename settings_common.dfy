// What both revisions' settings.py share: the validation chain at the head
// of `ExportSettings.__post_init__`, the clean-up of the collection and tag
// filters, and `describe_filters`.
module SettingsCommon {
  import opened Wrappers
  import opened Text
  import opened Sorting

  /** The `ValueError`s `__post_init__` raises, one per check (the message
      text is not modelled). */
  datatype SettingsError =
    | MissingApiKey
    | MissingLibraryId
    | InvalidLibraryType
    | InvalidLimit
    | InvalidChunkSize
    | InvalidMaxWorkers
    | InvalidWorkersPerGpu
    | InvalidImageProcessing

  /** `LibraryType = Literal["user", "group"]`. */
  const LibraryTypes: set<string> := {"user", "group"}

  /** An optional count that is absent or positive. */
  predicate PositiveWhenGiven(n: Option<int>) {
    n.None? || n.value > 0
  }

  /** The checks both revisions make, in their order: API key and library ID
      not blank once stripped, a known library type, a positive limit when
      given, a positive chunk size, a positive worker count when given. The
      first failing check names the error. */
  function CommonError(apiKey: string, libraryId: string, libraryType: string, limit: Option<int>,
                       chunkSize: int, maxWorkers: Option<int>): (e: Option<SettingsError>)
    ensures e.None? <==>
              Strip(apiKey) != "" && Strip(libraryId) != "" && libraryType in LibraryTypes
              && PositiveWhenGiven(limit) && chunkSize > 0 && PositiveWhenGiven(maxWorkers)
    ensures e == Some(MissingApiKey) <==> Strip(apiKey) == ""
    ensures e == Some(MissingLibraryId) <==> Strip(apiKey) != "" && Strip(libraryId) == ""
    ensures e == Some(InvalidLibraryType) <==>
              Strip(apiKey) != "" && Strip(libraryId) != "" && libraryType !in LibraryTypes
    ensures e == Some(InvalidLimit) <==>
              Strip(apiKey) != "" && Strip(libraryId) != "" && libraryType in LibraryTypes && !PositiveWhenGiven(limit)
    ensures e == Some(InvalidChunkSize) <==>
              Strip(apiKey) != "" && Strip(libraryId) != "" && libraryType in LibraryTypes
              && PositiveWhenGiven(limit) && chunkSize <= 0
    ensures e.Some? ==> e.value.MissingApiKey? || e.value.MissingLibraryId? || e.value.InvalidLibraryType?
                        || e.value.InvalidLimit? || e.value.InvalidChunkSize? || e.value.InvalidMaxWorkers?
  {
    if Strip(apiKey) == "" then Some(MissingApiKey)
    else if Strip(libraryId) == "" then Some(MissingLibraryId)
    else if libraryType !in LibraryTypes then Some(InvalidLibraryType)
    else if !PositiveWhenGiven(limit) then Some(InvalidLimit)
    else if chunkSize <= 0 then Some(InvalidChunkSize)
    else if !PositiveWhenGiven(maxWorkers) then Some(InvalidMaxWorkers)
    else None
  }

  /** `{c.strip() for c in names if c.strip()}`: the stripped names that are
      not blank. */
  function NormalizeNames(names: set<string>): (r: set<string>)
    ensures forall c :: c in names && Strip(c) != "" ==> Strip(c) in r
    ensures forall x :: x in r ==> x != "" && exists c :: c in names && Strip(c) == x
  {
    set c | c in names && Strip(c) != "" :: Strip(c)
  }

  /** No name is blank and each is its own `strip()`. */
  predicate CleanNames(names: set<string>) {
    forall x :: x in names ==> x != "" && Strip(x) == x
  }

  /** Normalized names are clean. */
  lemma NormalizedNamesAreClean(names: set<string>)
    ensures CleanNames(NormalizeNames(names))
  {
    forall c | c in names {
      StripIdempotent(c);
    }
  }

  /** Normalizing clean names changes nothing, so normalizing twice is
      normalizing once. */
  lemma NormalizeNamesIdempotent(names: set<string>)
    ensures CleanNames(names) ==> NormalizeNames(names) == names
    ensures NormalizeNames(NormalizeNames(names)) == NormalizeNames(names)
  {
    NormalizedNamesAreClean(names);
    var once := NormalizeNames(names);
    assert NormalizeNames(once) == once by {
      forall x | x in once ensures x in NormalizeNames(once) {
        assert Strip(x) == x;
      }
    }
    if CleanNames(names) {
      forall x | x in names ensures x in NormalizeNames(names) {
        assert Strip(x) == x;
      }
    }
  }

  /** `set(values or ())`. */
  function SetOf(values: Option<seq<string>>): (r: set<string>)
    ensures values.None? ==> r == {}
    ensures values.Some? ==> forall x :: x in r <==> x in values.value
  {
    if values.None? then {} else set x | x in values.value
  }

  /** Python's `repr` of a string that holds neither a quote nor a
      backslash: the text between single quotes. */
  function ReprText(s: string): (r: string)
    ensures |r| == |s| + 2 && r[0] == '\'' && r[|r| - 1] == '\'' && r[1..|r| - 1] == s
  {
    "'" + s + "'"
  }

  /** The `repr` of each item, in order. */
  function ReprItems(items: seq<string>): (r: seq<string>)
    ensures |r| == |items|
    ensures forall i :: 0 <= i < |items| ==> r[i] == ReprText(items[i])
  {
    if items == [] then [] else [ReprText(items[0])] + ReprItems(items[1..])
  }

  /** The reprs of one more item end with that item's repr. */
  lemma {:induction false} ReprItemsAppend(items: seq<string>, x: string)
    ensures ReprItems(items + [x]) == ReprItems(items) + [ReprText(x)]
    decreases |items|
  {
    if items != [] {
      assert (items + [x])[1..] == items[1..] + [x];
      ReprItemsAppend(items[1..], x);
    } else {
      assert items + [x] == [x];
    }
  }

  /** Python's `repr` of a list of such strings: `['a', 'b']`. */
  function ReprList(items: seq<string>): (r: string)
    ensures |r| >= 2 && r[0] == '[' && r[|r| - 1] == ']'
    ensures items == [] ==> r == "[]"
  {
    "[" + Join(ReprItems(items), ", ") + "]"
  }

  /** Listing one more item puts ", " and its repr after the reprs already
      listed, before the closing bracket. */
  lemma ReprListAppend(items: seq<string>, x: string)
    requires items != []
    ensures ReprList(items + [x]) == "[" + Join(ReprItems(items), ", ") + ", " + ReprText(x) + "]"
  {
    ReprItemsAppend(items, x);
    JoinAppend(ReprItems(items), ReprText(x), ", ");
    Regroup("[", Join(ReprItems(items), ", "), ", ", ReprText(x));
  }

  /** Two items: their reprs separated by ", " between brackets. */
  lemma ReprListPair(a: string, b: string)
    ensures ReprList([a, b]) == "[" + ReprText(a) + ", " + ReprText(b) + "]"
  {
    assert [a] + [b] == [a, b];
    ReprListAppend([a], b);
    assert ReprItems([a]) == [ReprText(a)];
  }

  /** A one-item list is its item's repr between brackets. */
  lemma ReprListSingleton(x: string)
    ensures ReprList([x]) == "[" + ReprText(x) + "]"
  {
    assert ReprItems([x]) == [ReprText(x)];
    assert Join([ReprText(x)], ", ") == ReprText(x);
  }

  /** `if self.limit:`: a limit that is given and not zero. */
  predicate LimitSet(limit: Option<int>) {
    limit.Some? && limit.value != 0
  }

  /** `f"collections={sorted(self.collections)}"`. */
  function CollectionsPart(collections: set<string>): (r: string)
    ensures r != [] && r[0] == 'c'
    ensures StartsWith(r, "collections=") && r[|r| - 1] == ']'
  {
    "collections=" + ReprList(SortedSet(collections))
  }

  /** `f"tags={sorted(self.tags)}"`. */
  function TagsPart(tags: set<string>): (r: string)
    ensures r != [] && r[0] == 't'
    ensures StartsWith(r, "tags=") && r[|r| - 1] == ']'
  {
    "tags=" + ReprList(SortedSet(tags))
  }

  /** `f"limit={self.limit}"`. */
  function LimitPart(n: int): (r: string)
    ensures r != [] && r[0] == 'l'
    ensures StartsWith(r, "limit=") && |r| > 6 && (r[6] == '-' <==> n < 0)
  {
    "limit=" + IntToString(n)
  }

  /** The `parts` list of `describe_filters`, in the order it is built:
      collections, tags, limit, each present only when set. */
  function FilterParts(collections: set<string>, tags: set<string>, limit: Option<int>): (parts: seq<string>)
    ensures parts == [] <==> collections == {} && tags == {} && !LimitSet(limit)
    ensures parts != [] ==> parts[0] != [] && parts[0][0] in {'c', 't', 'l'}
    ensures |parts| == (if collections != {} then 1 else 0) + (if tags != {} then 1 else 0) + (if LimitSet(limit) then 1 else 0)
    ensures collections != {} ==> parts[0] == CollectionsPart(collections)
    ensures tags != {} ==> parts[if collections != {} then 1 else 0] == TagsPart(tags)
    ensures LimitSet(limit) ==> parts[|parts| - 1] == LimitPart(limit.value)
  {
    var n := if limit.Some? then limit.value else 0;
    var parts := Optional(collections != {}, CollectionsPart(collections))
                 + Optional(tags != {}, TagsPart(tags))
                 + Optional(LimitSet(limit), LimitPart(n));
    ThreeOptional(collections != {}, CollectionsPart(collections), tags != {}, TagsPart(tags),
                  LimitSet(limit), LimitPart(n), parts);
    parts
  }

  /** `[x]` when `present`, else nothing: one conditional `parts.append`. */
  function Optional(present: bool, x: string): (r: seq<string>)
    ensures |r| == if present then 1 else 0
    ensures present ==> r[0] == x
  {
    if present then [x] else []
  }

  /** Where each of three conditionally appended items lands. */
  lemma ThreeOptional(b1: bool, x1: string, b2: bool, x2: string, b3: bool, x3: string, p: seq<string>)
    requires p == Optional(b1, x1) + Optional(b2, x2) + Optional(b3, x3)
    ensures |p| == (if b1 then 1 else 0) + (if b2 then 1 else 0) + (if b3 then 1 else 0)
    ensures b1 ==> p[0] == x1
    ensures b2 ==> p[if b1 then 1 else 0] == x2
    ensures b3 ==> p[|p| - 1] == x3
    ensures p != [] ==> p[0] == (if b1 then x1 else if b2 then x2 else x3)
  {
    var c, t, l := Optional(b1, x1), Optional(b2, x2), Optional(b3, x3);
    assert b2 ==> (c + t)[|c|] == x2;
  }

  /** The parts joined by ", ", or "no filters" when there are none. */
  function DescribeParts(parts: seq<string>): (r: string)
    ensures parts == [] ==> r == "no filters"
    ensures |parts| == 1 ==> r == parts[0]
    ensures parts != [] ==> StartsWith(r, parts[0]) && EndsWith(r, parts[|parts| - 1])
  {
    if parts == [] then "no filters" else Join(parts, ", ")
  }

  /** One more part is appended after ", ". */
  lemma DescribePartsAppend(parts: seq<string>, x: string)
    requires parts != []
    ensures DescribeParts(parts + [x]) == DescribeParts(parts) + ", " + x
  {
    JoinAppend(parts, x, ", ");
  }

  /** `describe_filters`: "no filters" exactly when no filter is set,
      otherwise the parts joined by ", ". */
  function DescribeFilters(collections: set<string>, tags: set<string>, limit: Option<int>): (r: string)
    ensures r == "no filters" <==> collections == {} && tags == {} && !LimitSet(limit)
  {
    var parts := FilterParts(collections, tags, limit);
    var r := DescribeParts(parts);
    assert parts != [] ==> r[0] == parts[0][0];
    r
  }

  /** `s` begins with `p`. */
  predicate StartsWith(s: string, p: string) {
    |p| <= |s| && s[..|p|] == p
  }

  /** `s` ends with `p`. */
  predicate EndsWith(s: string, p: string) {
    |p| <= |s| && s[|s| - |p|..] == p
  }

  /** A description other than "no filters" begins with the first part and
      ends with the last. */
  lemma DescribeFiltersEnds(collections: set<string>, tags: set<string>, limit: Option<int>)
    ensures var parts := FilterParts(collections, tags, limit);
            parts != [] ==>
              var r := DescribeFilters(collections, tags, limit);
              StartsWith(r, parts[0]) && EndsWith(r, parts[|parts| - 1])
  {
  }

  /** The sorted collections come first. */
  lemma CollectionsComeFirst(collections: set<string>, tags: set<string>, limit: Option<int>)
    requires collections != {}
    ensures StartsWith(DescribeFilters(collections, tags, limit), CollectionsPart(collections))
  {
    DescribeFiltersEnds(collections, tags, limit);
  }

  /** Without collections, the sorted tags come first. */
  lemma TagsComeFirstWithoutCollections(collections: set<string>, tags: set<string>, limit: Option<int>)
    requires collections == {} && tags != {}
    ensures StartsWith(DescribeFilters(collections, tags, limit), TagsPart(tags))
  {
    DescribeFiltersEnds(collections, tags, limit);
  }

  /** A set limit comes last. */
  lemma LimitComesLast(collections: set<string>, tags: set<string>, limit: Option<int>)
    requires LimitSet(limit)
    ensures EndsWith(DescribeFilters(collections, tags, limit), LimitPart(limit.value))
  {
    DescribeFiltersEnds(collections, tags, limit);
  }

  /** All three filters set: collections, tags and limit, in that order,
      separated by ", ". */
  lemma DescribeAllFilters(collections: set<string>, tags: set<string>, n: int)
    requires collections != {} && tags != {} && n != 0
    ensures DescribeFilters(collections, tags, Some(n))
         == CollectionsPart(collections) + ", " + TagsPart(tags) + ", " + LimitPart(n)
  {
    var parts := FilterParts(collections, tags, Some(n));
    JoinThree(parts, ", ");
  }

  /** A one-element set sorts to the one-element list. */
  lemma SortedSingleton(x: string)
    ensures SortedSet({x}) == [x]
  {
    var r := SortedSet({x});
    assert |r| == 1 && x in r;
  }

  /** `repr(sorted({x}))` for a name without quotes or backslashes. */
  lemma ReprOfOneName(x: string)
    ensures ReprList(SortedSet({x})) == "['" + x + "']"
  {
    SortedSingleton(x);
    ReprListSingleton(x);
  }
}
