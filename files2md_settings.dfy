// src/zotero_files2md/settings.py: `parse_collection_output_pairs` and the
// `ExportSettings` dataclass, whose `__post_init__` validates and normalizes
// the fields in place.
module Files2mdSettings {
  import opened Wrappers
  import opened Text
  import opened SettingsCommon

  /** `ImageProcessing = Literal["embed", "placeholder", "drop"]`. */
  const ImageModes: set<string> := {"embed", "placeholder", "drop"}

  /** The `ValueError`s of `parse_collection_output_pairs`. */
  datatype PairError =
    | MissingEquals
    | EmptyKey
    | EmptyDir
    | DuplicateKey

  /** A non-blank, stripped entry split at its first `=`, the key and the
      directory stripped; neither may be empty. */
  function ParseEntry(raw: string): (r: Result<(string, string), PairError>)
    ensures r.Ok? ==> r.value.0 != "" && r.value.1 != ""
    ensures r == Err(MissingEquals) <==> '=' !in raw
  {
    match SplitOnce(raw, '=')
    case None => Err(MissingEquals)
    case Some((key, dir)) =>
      if Strip(key) == "" then Err(EmptyKey)
      else if Strip(dir) == "" then Err(EmptyDir)
      else Ok((Strip(key), Strip(dir)))
  }

  /** One `COLLECTION_KEY=OUTPUT_DIR` entry: `None` for a blank entry, which
      is skipped, otherwise the entry parsed once stripped. */
  function ParsePair(item: string): (r: Result<Option<(string, string)>, PairError>)
    ensures r == Ok(None) <==> Strip(item) == ""
    ensures r.Ok? && r.value.Some? ==> r.value.value.0 != "" && r.value.value.1 != ""
  {
    var raw := Strip(item);
    if raw == "" then Ok(None)
    else
      match ParseEntry(raw)
      case Ok(p) => Ok(Some(p))
      case Err(e) => Err(e)
  }

  /** An entry without `=` is refused; the other errors need an `=`. */
  lemma ParsePairNeedsEquals(item: string)
    ensures ParsePair(item) == Err(MissingEquals) <==> Strip(item) != "" && '=' !in Strip(item)
  {
    var raw := Strip(item);
    if raw != "" {
      assert ParsePair(item) == Err(MissingEquals) <==> ParseEntry(raw) == Err(MissingEquals);
    }
  }

  /** The key is the stripped text before the first `=`, the directory the
      stripped text after it. */
  lemma ParseEntrySplitsAtFirstEquals(raw: string)
    requires ParseEntry(raw).Ok?
    ensures var i := IndexOf(raw, '=');
            i < |raw| && ParseEntry(raw).value == (Strip(raw[..i]), Strip(raw[i + 1..]))
  {
    var split := SplitOnce(raw, '=');
    var key := split.value.0;
    assert |key| == IndexOf(raw, '=') by {
      assert raw[..|key|] == key && raw[|key|] == '=';
    }
    assert raw[|key| + 1..] == split.value.1;
  }

  /** The keys of an ordered mapping. */
  function KeysOf(m: seq<(string, string)>): (keys: set<string>)
    ensures forall i :: 0 <= i < |m| ==> m[i].0 in keys
    ensures forall k :: k in keys ==> exists i :: 0 <= i < |m| && m[i].0 == k
  {
    set i | 0 <= i < |m| :: m[i].0
  }

  /** What one entry parses to. */
  type Entry = Result<Option<(string, string)>, PairError>

  /** Every entry parsed on its own. */
  function Entries(values: seq<string>): (es: seq<Entry>)
    ensures |es| == |values|
  {
    seq(|values|, i requires 0 <= i < |values| => ParsePair(values[i]))
  }

  /** One turn of the loop: a blank entry adds nothing, a malformed one or a
      repeated key stops it, any other adds its pair at the end. */
  function Step(acc: Result<seq<(string, string)>, PairError>, entry: Entry): Result<seq<(string, string)>, PairError> {
    match acc
    case Err(e) => Err(e)
    case Ok(m) =>
      match entry
      case Err(e) => Err(e)
      case Ok(None) => Ok(m)
      case Ok(Some(p)) => if p.0 in KeysOf(m) then Err(DuplicateKey) else Ok(m + [p])
  }

  /** The mapping the loop has built after the first `n` entries, or the
      error that stopped it. */
  function Pairs(entries: seq<Entry>, n: nat): (r: Result<seq<(string, string)>, PairError>)
    requires n <= |entries|
  {
    if n == 0 then Ok([]) else Step(Pairs(entries, n - 1), entries[n - 1])
  }

  /** `parse_collection_output_pairs(values)`: `None` and an empty list give
      the empty mapping. */
  function CollectionOutputPairs(values: Option<seq<string>>): (r: Result<seq<(string, string)>, PairError>)
    ensures values.None? || values.value == [] ==> r == Ok([])
  {
    if values.None? then Ok([]) else Pairs(Entries(values.value), |values.value|)
  }

  /** The pairs of the well-formed, non-blank entries among the first `n`,
      in input order. */
  function Parsed(entries: seq<Entry>, n: nat): (ps: seq<(string, string)>)
    requires n <= |entries|
    ensures |ps| <= n
  {
    if n == 0 then []
    else
      var rest := Parsed(entries, n - 1);
      match entries[n - 1]
      case Ok(Some(p)) => rest + [p]
      case _ => rest
  }

  /** No key occurs twice. */
  predicate DistinctKeys(m: seq<(string, string)>) {
    forall i, j :: 0 <= i < j < |m| ==> m[i].0 != m[j].0
  }

  /** Every entry parses. */
  predicate AllParse(entries: seq<Entry>, n: nat)
    requires n <= |entries|
  {
    forall i :: 0 <= i < n ==> entries[i].Ok?
  }

  /** Once an entry fails, the error stays: the first bad entry decides it. */
  lemma {:induction false} PairsErrorSticks(entries: seq<Entry>, n: nat, m: nat)
    requires n <= m <= |entries|
    requires Pairs(entries, n).Err?
    ensures Pairs(entries, m) == Pairs(entries, n)
    decreases m
  {
    if m > n {
      PairsErrorSticks(entries, n, m - 1);
    }
  }

  /** The parse succeeds exactly when every entry is blank or well formed and
      no key repeats; the mapping then holds the entries' pairs in input
      order. */
  lemma {:induction false} PairsSucceedExactly(entries: seq<Entry>, n: nat)
    requires n <= |entries|
    ensures Pairs(entries, n).Ok? <==> AllParse(entries, n) && DistinctKeys(Parsed(entries, n))
    ensures Pairs(entries, n).Ok? ==> Pairs(entries, n).value == Parsed(entries, n)
  {
    if n > 0 {
      PairsSucceedExactly(entries, n - 1);
      var rest := Parsed(entries, n - 1);
      var q := entries[n - 1];
      if !AllParse(entries, n - 1) {
        assert !AllParse(entries, n) by {
          var i :| 0 <= i < n - 1 && !entries[i].Ok?;
        }
      } else if q.Ok? && q.value.Some? {
        var p := q.value.value;
        var next := rest + [p];
        assert Parsed(entries, n) == next;
        if !DistinctKeys(rest) {
          var i, j :| 0 <= i < j < |rest| && rest[i].0 == rest[j].0;
          assert next[i] == rest[i] && next[j] == rest[j];
        } else if p.0 in KeysOf(rest) {
          var i :| 0 <= i < |rest| && rest[i].0 == p.0;
          assert next[i].0 == next[|rest|].0;
        } else {
          forall i, j | 0 <= i < j < |next| ensures next[i].0 != next[j].0 {
            if j == |rest| {
              assert rest[i].0 in KeysOf(rest);
            } else {
              assert next[i] == rest[i] && next[j] == rest[j];
            }
          }
        }
      }
    }
  }

  /** `p` is what one of the first `n` entries parses to. */
  predicate ParsedFrom(entries: seq<Entry>, n: nat, p: (string, string))
    requires n <= |entries|
  {
    exists i :: 0 <= i < n && entries[i] == Ok(Some(p))
  }

  /** Each parsed pair comes from a well-formed entry. */
  lemma {:induction false} ParsedComeFromEntries(entries: seq<Entry>, n: nat)
    requires n <= |entries|
    ensures forall k :: 0 <= k < |Parsed(entries, n)| ==> ParsedFrom(entries, n, Parsed(entries, n)[k])
  {
    if n > 0 {
      ParsedComeFromEntries(entries, n - 1);
      var rest := Parsed(entries, n - 1);
      var ps := Parsed(entries, n);
      forall k | 0 <= k < |ps| ensures ParsedFrom(entries, n, ps[k]) {
        if k < |rest| {
          assert ps[k] == rest[k];
          assert ParsedFrom(entries, n - 1, rest[k]);
          var i :| 0 <= i < n - 1 && entries[i] == Ok(Some(rest[k]));
          assert entries[i] == Ok(Some(ps[k]));
        } else {
          assert entries[n - 1] == Ok(Some(ps[k]));
        }
      }
    }
  }

  /** A parsed key and directory are non-empty and already stripped. */
  lemma ParsePairIsClean(item: string)
    requires ParsePair(item).Ok? && ParsePair(item).value.Some?
    ensures var p := ParsePair(item).value.value;
            p.0 != "" && p.1 != "" && Strip(p.0) == p.0 && Strip(p.1) == p.1
  {
    var raw := Strip(item);
    ParseEntrySplitsAtFirstEquals(raw);
    var i := IndexOf(raw, '=');
    StripIdempotent(raw[..i]);
    StripIdempotent(raw[i + 1..]);
  }

  /** Every key and directory of a successful parse is non-empty and
      stripped, and no key repeats. */
  lemma ParsedMappingIsClean(values: seq<string>)
    requires CollectionOutputPairs(Some(values)).Ok?
    ensures var m := CollectionOutputPairs(Some(values)).value;
            DistinctKeys(m)
            && forall k :: 0 <= k < |m| ==> m[k].0 != "" && m[k].1 != "" && Strip(m[k].0) == m[k].0 && Strip(m[k].1) == m[k].1
  {
    var es := Entries(values);
    PairsSucceedExactly(es, |values|);
    ParsedComeFromEntries(es, |values|);
    var m := Parsed(es, |values|);
    forall k | 0 <= k < |m| ensures m[k].0 != "" && m[k].1 != "" && Strip(m[k].0) == m[k].0 && Strip(m[k].1) == m[k].1 {
      assert ParsedFrom(es, |values|, m[k]);
      var i :| 0 <= i < |values| && es[i] == Ok(Some(m[k]));
      ParsePairIsClean(values[i]);
    }
  }

  /** The body of the loop of `parse_collection_output_pairs` for one entry. */
  method AddEntry(mapping: seq<(string, string)>, item: string) returns (r: Result<seq<(string, string)>, PairError>)
    ensures r == Step(Ok(mapping), ParsePair(item))
  {
    var raw := Strip(item);
    if raw == "" {
      return Ok(mapping);
    }
    var entry := ParseEntry(raw);
    if entry.Err? {
      return Err(entry.error);
    }
    var (key, dir) := entry.value;
    if key in KeysOf(mapping) {
      return Err(DuplicateKey);
    }
    return Ok(mapping + [(key, dir)]);
  }

  /** `parse_collection_output_pairs`: parses the entries in order, skipping
      blank ones, and stops at the first malformed entry or repeated key. */
  method ParseCollectionOutputPairs(values: Option<seq<string>>) returns (r: Result<seq<(string, string)>, PairError>)
    ensures r == CollectionOutputPairs(values)
  {
    if values.None? || values.value == [] {
      return Ok([]);
    }
    var items := values.value;
    ghost var entries := Entries(items);
    var mapping: seq<(string, string)> := [];
    var n := 0;
    while n < |items|
      invariant 0 <= n <= |items|
      invariant Pairs(entries, n) == Ok(mapping)
    {
      var next := AddEntry(mapping, items[n]);
      assert entries[n] == ParsePair(items[n]);
      if next.Err? {
        PairsErrorSticks(entries, n + 1, |items|);
        return next;
      }
      mapping := next.value;
      n := n + 1;
    }
    return Ok(mapping);
  }

  /** The checks of `__post_init__` in their order: the ones both revisions
      share, then a positive `workers_per_gpu`, then an image mode among
      embed, placeholder and drop once stripped and lower-cased. */
  function FirstError(apiKey: string, libraryId: string, libraryType: string, limit: Option<int>,
                      chunkSize: int, maxWorkers: Option<int>, workersPerGpu: int,
                      imageProcessing: string): (e: Option<SettingsError>)
    ensures e.None? <==>
              CommonError(apiKey, libraryId, libraryType, limit, chunkSize, maxWorkers).None?
              && workersPerGpu > 0 && Lower(Strip(imageProcessing)) in ImageModes
    ensures CommonError(apiKey, libraryId, libraryType, limit, chunkSize, maxWorkers).Some? ==>
              e == CommonError(apiKey, libraryId, libraryType, limit, chunkSize, maxWorkers)
    ensures e == Some(InvalidWorkersPerGpu) <==>
              CommonError(apiKey, libraryId, libraryType, limit, chunkSize, maxWorkers).None? && workersPerGpu <= 0
    ensures e == Some(InvalidImageProcessing) <==>
              CommonError(apiKey, libraryId, libraryType, limit, chunkSize, maxWorkers).None? && workersPerGpu > 0
              && Lower(Strip(imageProcessing)) !in ImageModes
  {
    var common := CommonError(apiKey, libraryId, libraryType, limit, chunkSize, maxWorkers);
    if common.Some? then common
    else if workersPerGpu <= 0 then Some(InvalidWorkersPerGpu)
    else if Lower(Strip(imageProcessing)) !in ImageModes then Some(InvalidImageProcessing)
    else None
  }

  /** What `__post_init__` leaves behind when it raises nothing: the API
      key and library ID non-blank and stripped, every count in range, a
      known image mode, and clean filters. */
  predicate Normalized(apiKey: string, libraryId: string, libraryType: string, limit: Option<int>,
                       chunkSize: int, maxWorkers: Option<int>, workersPerGpu: int,
                       imageProcessing: string, collections: set<string>, tags: set<string>)
  {
    apiKey != "" && Strip(apiKey) == apiKey
    && libraryId != "" && Strip(libraryId) == libraryId
    && libraryType in LibraryTypes
    && PositiveWhenGiven(limit) && chunkSize > 0 && PositiveWhenGiven(maxWorkers) && workersPerGpu > 0
    && imageProcessing in ImageModes
    && CleanNames(collections) && CleanNames(tags)
  }

  /** The fields `__post_init__` may rewrite, and the error it raises. */
  datatype Outcome = Outcome(apiKey: string, libraryId: string, imageProcessing: string,
                             collections: set<string>, tags: set<string>, error: Option<SettingsError>)

  /** `__post_init__` on the old field values, in its order: the API key is
      stripped, then checked; the library ID likewise; the counts are checked;
      the image mode is stripped and lower-cased, then checked; the filters
      are cleaned last. A failing check leaves the later fields as they were. */
  function PostInitOutcome(apiKey: string, libraryId: string, libraryType: string, limit: Option<int>,
                           chunkSize: int, maxWorkers: Option<int>, workersPerGpu: int,
                           imageProcessing: string, collections: set<string>, tags: set<string>): Outcome
  {
    var key := Strip(apiKey);
    if key == "" then Outcome(key, libraryId, imageProcessing, collections, tags, Some(MissingApiKey))
    else
      var id := Strip(libraryId);
      if id == "" then Outcome(key, id, imageProcessing, collections, tags, Some(MissingLibraryId))
      else
        var count :=
          if libraryType !in LibraryTypes then Some(InvalidLibraryType)
          else if !PositiveWhenGiven(limit) then Some(InvalidLimit)
          else if chunkSize <= 0 then Some(InvalidChunkSize)
          else if !PositiveWhenGiven(maxWorkers) then Some(InvalidMaxWorkers)
          else if workersPerGpu <= 0 then Some(InvalidWorkersPerGpu)
          else None;
        if count.Some? then Outcome(key, id, imageProcessing, collections, tags, count)
        else
          var mode := Lower(Strip(imageProcessing));
          if mode !in ImageModes then Outcome(key, id, mode, collections, tags, Some(InvalidImageProcessing))
          else Outcome(key, id, mode, NormalizeNames(collections), NormalizeNames(tags), None)
  }

  /** The error `__post_init__` raises is the first failing check. */
  lemma PostInitRaisesFirstError(apiKey: string, libraryId: string, libraryType: string, limit: Option<int>,
                                 chunkSize: int, maxWorkers: Option<int>, workersPerGpu: int,
                                 imageProcessing: string, collections: set<string>, tags: set<string>)
    ensures PostInitOutcome(apiKey, libraryId, libraryType, limit, chunkSize, maxWorkers, workersPerGpu,
                            imageProcessing, collections, tags).error
            == FirstError(apiKey, libraryId, libraryType, limit, chunkSize, maxWorkers, workersPerGpu, imageProcessing)
  {
  }

  /** Settings that pass every check come out normalized. */
  lemma PostInitNormalizes(apiKey: string, libraryId: string, libraryType: string, limit: Option<int>,
                           chunkSize: int, maxWorkers: Option<int>, workersPerGpu: int,
                           imageProcessing: string, collections: set<string>, tags: set<string>)
    ensures var o := PostInitOutcome(apiKey, libraryId, libraryType, limit, chunkSize, maxWorkers, workersPerGpu,
                                     imageProcessing, collections, tags);
            o.error.None? ==>
              Normalized(o.apiKey, o.libraryId, libraryType, limit, chunkSize, maxWorkers, workersPerGpu,
                         o.imageProcessing, o.collections, o.tags)
  {
    var o := PostInitOutcome(apiKey, libraryId, libraryType, limit, chunkSize, maxWorkers, workersPerGpu,
                             imageProcessing, collections, tags);
    if o.error.None? {
      StripIdempotent(apiKey);
      StripIdempotent(libraryId);
      NormalizedNamesAreClean(collections);
      NormalizedNamesAreClean(tags);
    }
  }

  /** Everything `from_cli_args` needs of `__post_init__`: the error is the
      first failing check, and on success the rewritten fields are the
      normalised inputs. */
  lemma PostInitOnSuccess(apiKey: string, libraryId: string, libraryType: string, limit: Option<int>,
                          chunkSize: int, maxWorkers: Option<int>, workersPerGpu: int,
                          imageProcessing: string, collections: set<string>, tags: set<string>)
    ensures var o := PostInitOutcome(apiKey, libraryId, libraryType, limit, chunkSize, maxWorkers, workersPerGpu,
                                     imageProcessing, collections, tags);
            o.error == FirstError(apiKey, libraryId, libraryType, limit, chunkSize, maxWorkers, workersPerGpu,
                                  imageProcessing)
            && (o.error.None? ==>
                  o.apiKey == Strip(apiKey) && o.libraryId == Strip(libraryId)
                  && o.imageProcessing == Lower(Strip(imageProcessing))
                  && o.collections == NormalizeNames(collections) && o.tags == NormalizeNames(tags)
                  && Normalized(o.apiKey, o.libraryId, libraryType, limit, chunkSize, maxWorkers, workersPerGpu,
                                o.imageProcessing, o.collections, o.tags))
  {
    PostInitRaisesFirstError(apiKey, libraryId, libraryType, limit, chunkSize, maxWorkers, workersPerGpu,
                             imageProcessing, collections, tags);
    PostInitNormalizes(apiKey, libraryId, libraryType, limit, chunkSize, maxWorkers, workersPerGpu,
                       imageProcessing, collections, tags);
  }

  /** The filters are cleaned only once every check has passed, so a raised
      error leaves them as given, and the image mode is rewritten only once
      the counts have passed; the API key is stripped whatever happens. */
  lemma PostInitFailureKeepsFilters(apiKey: string, libraryId: string, libraryType: string, limit: Option<int>,
                                    chunkSize: int, maxWorkers: Option<int>, workersPerGpu: int,
                                    imageProcessing: string, collections: set<string>, tags: set<string>)
    ensures var o := PostInitOutcome(apiKey, libraryId, libraryType, limit, chunkSize, maxWorkers, workersPerGpu,
                                     imageProcessing, collections, tags);
            o.apiKey == Strip(apiKey)
            && (o.error.Some? ==> o.collections == collections && o.tags == tags)
            && (o.error.Some? && o.error != Some(InvalidImageProcessing) ==> o.imageProcessing == imageProcessing)
  {
  }

  /** Text without upper-case ASCII letters and without whitespace at its
      ends is its own stripped, lower-cased form. */
  lemma NormalText(s: string)
    requires forall i :: 0 <= i < |s| ==> !('A' <= s[i] <= 'Z')
    requires s != [] ==> !IsSpace(s[0]) && !IsSpace(s[|s| - 1])
    ensures Lower(Strip(s)) == s
  {
    StripOfTrimmed(s);
    assert Lower(s) == s;
  }

  /** The accepted image modes are their own stripped, lower-cased form. */
  lemma ImageModesAreNormal(mode: string)
    requires mode in ImageModes
    ensures Lower(Strip(mode)) == mode
  {
    NormalText(mode);
  }

  /** Running `__post_init__` on normalized settings raises nothing and
      changes nothing: validation is idempotent. */
  lemma PostInitIdempotent(apiKey: string, libraryId: string, libraryType: string, limit: Option<int>,
                           chunkSize: int, maxWorkers: Option<int>, workersPerGpu: int,
                           imageProcessing: string, collections: set<string>, tags: set<string>)
    requires Normalized(apiKey, libraryId, libraryType, limit, chunkSize, maxWorkers, workersPerGpu,
                        imageProcessing, collections, tags)
    ensures PostInitOutcome(apiKey, libraryId, libraryType, limit, chunkSize, maxWorkers, workersPerGpu,
                            imageProcessing, collections, tags)
            == Outcome(apiKey, libraryId, imageProcessing, collections, tags, None)
  {
    ImageModesAreNormal(imageProcessing);
    NormalizeNamesIdempotent(collections);
    NormalizeNamesIdempotent(tags);
  }

  /** The files2md `ExportSettings`. `output_dir` is kept as given
      (`expanduser().resolve()` is not modelled) and the float
      `image_resolution_scale` is left out. */
  class ExportSettings {
    var apiKey: string
    var libraryId: string
    var libraryType: string
    var outputDir: string
    var collections: set<string>
    var tags: set<string>
    var overwrite: bool
    var dryRun: bool
    var limit: Option<int>
    var chunkSize: int
    var maxWorkers: Option<int>
    var workersPerGpu: int
    var forceFullPageOcr: bool
    var doPictureDescription: bool
    var imageProcessing: string
    var useMultiGpu: bool

    /** What `__post_init__` leaves behind when it raises nothing. */
    ghost predicate Valid()
      reads this
    {
      Normalized(apiKey, libraryId, libraryType, limit, chunkSize, maxWorkers, workersPerGpu,
                 imageProcessing, collections, tags)
    }

    /** The dataclass `__init__`: every field as given, before `__post_init__`. */
    constructor Raw(apiKey: string, libraryId: string, libraryType: string, outputDir: string,
                    collections: set<string>, tags: set<string>, overwrite: bool, dryRun: bool,
                    limit: Option<int>, chunkSize: int, maxWorkers: Option<int>, workersPerGpu: int,
                    forceFullPageOcr: bool, doPictureDescription: bool, imageProcessing: string,
                    useMultiGpu: bool)
      ensures this.apiKey == apiKey && this.libraryId == libraryId && this.libraryType == libraryType
      ensures this.outputDir == outputDir && this.collections == collections && this.tags == tags
      ensures this.overwrite == overwrite && this.dryRun == dryRun && this.limit == limit
      ensures this.chunkSize == chunkSize && this.maxWorkers == maxWorkers && this.workersPerGpu == workersPerGpu
      ensures this.forceFullPageOcr == forceFullPageOcr && this.doPictureDescription == doPictureDescription
      ensures this.imageProcessing == imageProcessing && this.useMultiGpu == useMultiGpu
    {
      this.apiKey := apiKey;
      this.libraryId := libraryId;
      this.libraryType := libraryType;
      this.outputDir := outputDir;
      this.collections := collections;
      this.tags := tags;
      this.overwrite := overwrite;
      this.dryRun := dryRun;
      this.limit := limit;
      this.chunkSize := chunkSize;
      this.maxWorkers := maxWorkers;
      this.workersPerGpu := workersPerGpu;
      this.forceFullPageOcr := forceFullPageOcr;
      this.doPictureDescription := doPictureDescription;
      this.imageProcessing := imageProcessing;
      this.useMultiGpu := useMultiGpu;
    }

    /** `__post_init__`: strips the API key, then the library ID, checks each
        field in turn and stops at the first failure (the fields already
        rewritten stay rewritten), lower-cases the image mode, and finally
        cleans the collection and tag filters. */
    method PostInit() returns (err: Option<SettingsError>)
      modifies this`apiKey, this`libraryId, this`imageProcessing, this`collections, this`tags
      ensures Outcome(apiKey, libraryId, imageProcessing, collections, tags, err)
              == PostInitOutcome(old(apiKey), old(libraryId), libraryType, limit, chunkSize, maxWorkers,
                                 workersPerGpu, old(imageProcessing), old(collections), old(tags))
    {
      apiKey := Strip(apiKey);
      if apiKey == "" {
        return Some(MissingApiKey);
      }
      libraryId := Strip(libraryId);
      if libraryId == "" {
        return Some(MissingLibraryId);
      }
      if libraryType !in LibraryTypes {
        return Some(InvalidLibraryType);
      }
      if !PositiveWhenGiven(limit) {
        return Some(InvalidLimit);
      }
      if chunkSize <= 0 {
        return Some(InvalidChunkSize);
      }
      if !PositiveWhenGiven(maxWorkers) {
        return Some(InvalidMaxWorkers);
      }
      if workersPerGpu <= 0 {
        return Some(InvalidWorkersPerGpu);
      }
      imageProcessing := Lower(Strip(imageProcessing));
      if imageProcessing !in ImageModes {
        return Some(InvalidImageProcessing);
      }
      collections := NormalizeNames(collections);
      tags := NormalizeNames(tags);
      return None;
    }

    /** `describe_filters()`. */
    function DescribeFilters(): (r: string)
      reads this
      ensures r == "no filters" <==> collections == {} && tags == {} && !LimitSet(limit)
    {
      SettingsCommon.DescribeFilters(collections, tags, limit)
    }
  }

  /** `ExportSettings.from_cli_args`: missing collection or tag lists become
      empty sets; the object is built and validated, and a validation error
      is raised to the caller. */
  method FromCliArgs(apiKey: string, libraryId: string, libraryType: string, outputDir: string,
                     collections: Option<seq<string>>, tags: Option<seq<string>>, overwrite: bool,
                     dryRun: bool, limit: Option<int>, chunkSize: int, maxWorkers: Option<int>,
                     workersPerGpu: int, forceFullPageOcr: bool, doPictureDescription: bool,
                     imageProcessing: string, useMultiGpu: bool)
    returns (r: Result<ExportSettings, SettingsError>)
    ensures r.Err? <==> FirstError(apiKey, libraryId, libraryType, limit, chunkSize, maxWorkers, workersPerGpu, imageProcessing).Some?
    ensures r.Err? ==> Some(r.error) == FirstError(apiKey, libraryId, libraryType, limit, chunkSize, maxWorkers,
                                                     workersPerGpu, imageProcessing)
    ensures r.Ok? ==> fresh(r.value) && r.value.Valid()
    ensures r.Ok? ==> r.value.collections == NormalizeNames(SetOf(collections))
                      && r.value.tags == NormalizeNames(SetOf(tags))
                      && r.value.apiKey == Strip(apiKey) && r.value.libraryId == Strip(libraryId)
                      && r.value.imageProcessing == Lower(Strip(imageProcessing))
                      && r.value.outputDir == outputDir && r.value.limit == limit
    ensures r.Ok? ==> r.value.libraryType == libraryType && r.value.overwrite == overwrite
                      && r.value.dryRun == dryRun && r.value.chunkSize == chunkSize
                      && r.value.maxWorkers == maxWorkers && r.value.workersPerGpu == workersPerGpu
                      && r.value.forceFullPageOcr == forceFullPageOcr
                      && r.value.doPictureDescription == doPictureDescription
                      && r.value.useMultiGpu == useMultiGpu
  {
    var cs, ts := SetOf(collections), SetOf(tags);
    PostInitOnSuccess(apiKey, libraryId, libraryType, limit, chunkSize, maxWorkers, workersPerGpu,
                      imageProcessing, cs, ts);
    var s := new ExportSettings.Raw(apiKey, libraryId, libraryType, outputDir, cs, ts,
                                    overwrite, dryRun, limit, chunkSize, maxWorkers, workersPerGpu,
                                    forceFullPageOcr, doPictureDescription, imageProcessing, useMultiGpu);
    var err := s.PostInit();
    if err.Some? {
      return Err(err.value);
    }
    return Ok(s);
  }
}
