// The pdf2md `ExportSettings` (src/zotero_pdf2md/settings.py): the shared
// validation chain with no GPU or image options, a `skip_existing` flag, and
// a dictionary of Markdown options that `__post_init__` copies.
module Pdf2mdSettings {
  import opened Wrappers
  import opened Text
  import opened SettingsCommon

  /** What `__post_init__` leaves behind when it raises nothing: the API key
      and library ID non-blank and stripped, a known library type, every
      count in range, and clean filters. */
  predicate Normalized(apiKey: string, libraryId: string, libraryType: string, limit: Option<int>,
                       chunkSize: int, maxWorkers: Option<int>, collections: set<string>, tags: set<string>)
  {
    apiKey != "" && Strip(apiKey) == apiKey
    && libraryId != "" && Strip(libraryId) == libraryId
    && libraryType in LibraryTypes
    && PositiveWhenGiven(limit) && chunkSize > 0 && PositiveWhenGiven(maxWorkers)
    && CleanNames(collections) && CleanNames(tags)
  }

  /** The fields `__post_init__` may rewrite, and the error it raises. */
  datatype Outcome = Outcome(apiKey: string, libraryId: string, collections: set<string>, tags: set<string>,
                             error: Option<SettingsError>)

  /** `__post_init__` on the old field values, in its order: the API key is
      stripped, then checked; the library ID likewise; the library type and
      the counts are checked; the filters are cleaned last. A failing check
      leaves the later fields as they were. */
  function PostInitOutcome(apiKey: string, libraryId: string, libraryType: string, limit: Option<int>,
                           chunkSize: int, maxWorkers: Option<int>, collections: set<string>,
                           tags: set<string>): Outcome
  {
    var key := Strip(apiKey);
    if key == "" then Outcome(key, libraryId, collections, tags, Some(MissingApiKey))
    else
      var id := Strip(libraryId);
      if id == "" then Outcome(key, id, collections, tags, Some(MissingLibraryId))
      else
        var check :=
          if libraryType !in LibraryTypes then Some(InvalidLibraryType)
          else if !PositiveWhenGiven(limit) then Some(InvalidLimit)
          else if chunkSize <= 0 then Some(InvalidChunkSize)
          else if !PositiveWhenGiven(maxWorkers) then Some(InvalidMaxWorkers)
          else None;
        if check.Some? then Outcome(key, id, collections, tags, check)
        else Outcome(key, id, NormalizeNames(collections), NormalizeNames(tags), None)
  }

  /** The error `__post_init__` raises is the first failing check of the
      chain both revisions share; this revision adds none. */
  lemma PostInitRaisesCommonError(apiKey: string, libraryId: string, libraryType: string, limit: Option<int>,
                                  chunkSize: int, maxWorkers: Option<int>, collections: set<string>,
                                  tags: set<string>)
    ensures PostInitOutcome(apiKey, libraryId, libraryType, limit, chunkSize, maxWorkers, collections, tags).error
            == CommonError(apiKey, libraryId, libraryType, limit, chunkSize, maxWorkers)
  {
  }

  /** Settings that pass every check come out normalized. */
  lemma PostInitNormalizes(apiKey: string, libraryId: string, libraryType: string, limit: Option<int>,
                           chunkSize: int, maxWorkers: Option<int>, collections: set<string>, tags: set<string>)
    ensures var o := PostInitOutcome(apiKey, libraryId, libraryType, limit, chunkSize, maxWorkers, collections, tags);
            o.error.None? ==> Normalized(o.apiKey, o.libraryId, libraryType, limit, chunkSize, maxWorkers,
                                         o.collections, o.tags)
  {
    var o := PostInitOutcome(apiKey, libraryId, libraryType, limit, chunkSize, maxWorkers, collections, tags);
    if o.error.None? {
      StripIdempotent(apiKey);
      StripIdempotent(libraryId);
      NormalizedNamesAreClean(collections);
      NormalizedNamesAreClean(tags);
    }
  }

  /** Everything `from_cli_args` needs of `__post_init__`: the error is the
      first failing check, and on success the rewritten fields are the
      normalised inputs. */
  lemma PostInitOnSuccess(apiKey: string, libraryId: string, libraryType: string, limit: Option<int>,
                          chunkSize: int, maxWorkers: Option<int>, collections: set<string>, tags: set<string>)
    ensures var o := PostInitOutcome(apiKey, libraryId, libraryType, limit, chunkSize, maxWorkers, collections, tags);
            o.error == CommonError(apiKey, libraryId, libraryType, limit, chunkSize, maxWorkers)
            && (o.error.None? ==>
                  o.apiKey == Strip(apiKey) && o.libraryId == Strip(libraryId)
                  && o.collections == NormalizeNames(collections) && o.tags == NormalizeNames(tags)
                  && Normalized(o.apiKey, o.libraryId, libraryType, limit, chunkSize, maxWorkers,
                                o.collections, o.tags))
  {
    PostInitRaisesCommonError(apiKey, libraryId, libraryType, limit, chunkSize, maxWorkers, collections, tags);
    PostInitNormalizes(apiKey, libraryId, libraryType, limit, chunkSize, maxWorkers, collections, tags);
  }

  /** Running `__post_init__` on normalized settings raises nothing and
      changes nothing. */
  lemma PostInitIdempotent(apiKey: string, libraryId: string, libraryType: string, limit: Option<int>,
                           chunkSize: int, maxWorkers: Option<int>, collections: set<string>, tags: set<string>)
    requires Normalized(apiKey, libraryId, libraryType, limit, chunkSize, maxWorkers, collections, tags)
    ensures PostInitOutcome(apiKey, libraryId, libraryType, limit, chunkSize, maxWorkers, collections, tags)
            == Outcome(apiKey, libraryId, collections, tags, None)
  {
    NormalizeNamesIdempotent(collections);
    NormalizeNamesIdempotent(tags);
  }

  /** The pdf2md `ExportSettings`. `output_dir` is kept as given
      (`expanduser().resolve()` and `mkdir` are not modelled); the option
      values are kept as text. */
  class ExportSettings {
    var apiKey: string
    var libraryId: string
    var libraryType: string
    var outputDir: string
    var collections: set<string>
    var tags: set<string>
    var overwrite: bool
    var skipExisting: bool
    var dryRun: bool
    var limit: Option<int>
    var chunkSize: int
    var maxWorkers: Option<int>
    var markdownOptions: map<string, string>

    /** What `__post_init__` leaves behind when it raises nothing. */
    ghost predicate Valid()
      reads this
    {
      Normalized(apiKey, libraryId, libraryType, limit, chunkSize, maxWorkers, collections, tags)
    }

    /** The dataclass `__init__`: every field as given, before `__post_init__`. */
    constructor Raw(apiKey: string, libraryId: string, libraryType: string, outputDir: string,
                    collections: set<string>, tags: set<string>, overwrite: bool, skipExisting: bool,
                    dryRun: bool, limit: Option<int>, chunkSize: int, maxWorkers: Option<int>,
                    markdownOptions: map<string, string>)
      ensures this.apiKey == apiKey && this.libraryId == libraryId && this.libraryType == libraryType
      ensures this.outputDir == outputDir && this.collections == collections && this.tags == tags
      ensures this.overwrite == overwrite && this.skipExisting == skipExisting && this.dryRun == dryRun
      ensures this.limit == limit && this.chunkSize == chunkSize && this.maxWorkers == maxWorkers
      ensures this.markdownOptions == markdownOptions
    {
      this.apiKey := apiKey;
      this.libraryId := libraryId;
      this.libraryType := libraryType;
      this.outputDir := outputDir;
      this.collections := collections;
      this.tags := tags;
      this.overwrite := overwrite;
      this.skipExisting := skipExisting;
      this.dryRun := dryRun;
      this.limit := limit;
      this.chunkSize := chunkSize;
      this.maxWorkers := maxWorkers;
      this.markdownOptions := markdownOptions;
    }

    /** `__post_init__`: strips the API key, then the library ID, checks each
        field in turn and stops at the first failure (the fields already
        rewritten stay rewritten), then cleans the collection and tag
        filters. The copy of the options it makes last is a copy of a value
        here, so the options field is left alone. */
    method PostInit() returns (err: Option<SettingsError>)
      modifies this`apiKey, this`libraryId, this`collections, this`tags
      ensures Outcome(apiKey, libraryId, collections, tags, err)
              == PostInitOutcome(old(apiKey), old(libraryId), libraryType, limit, chunkSize, maxWorkers,
                                 old(collections), old(tags))
    {
      apiKey := Strip(apiKey);
      if apiKey == "" {
        return Some(MissingApiKey);
      }
      libraryId := Strip(libraryId);
      if libraryId == "" {
        return Some(MissingLibraryId);
      }
      if libraryType !in LibraryTypes {
        return Some(InvalidLibraryType);
      }
      if !PositiveWhenGiven(limit) {
        return Some(InvalidLimit);
      }
      if chunkSize <= 0 {
        return Some(InvalidChunkSize);
      }
      if !PositiveWhenGiven(maxWorkers) {
        return Some(InvalidMaxWorkers);
      }
      collections := NormalizeNames(collections);
      tags := NormalizeNames(tags);
      return None;
    }

    /** `describe_filters()`, the same as in the newer revision. */
    function DescribeFilters(): (r: string)
      reads this
      ensures r == "no filters" <==> collections == {} && tags == {} && !LimitSet(limit)
    {
      SettingsCommon.DescribeFilters(collections, tags, limit)
    }
  }

  /** `dict(markdown_options or {})`: a missing mapping becomes the empty one. */
  function OptionsOf(options: Option<map<string, string>>): (r: map<string, string>)
    ensures options.None? ==> r == map[]
    ensures options.Some? ==> r == options.value
  {
    if options.None? then map[] else options.value
  }

  /** `ExportSettings.from_cli_args`: missing collections, tags or options
      become empty containers; the object is built and validated, and a
      validation error is raised to the caller. */
  method FromCliArgs(apiKey: string, libraryId: string, libraryType: string, outputDir: string,
                     collections: Option<seq<string>>, tags: Option<seq<string>>, overwrite: bool,
                     skipExisting: bool, dryRun: bool, limit: Option<int>, chunkSize: int,
                     maxWorkers: Option<int>, markdownOptions: Option<map<string, string>>)
    returns (r: Result<ExportSettings, SettingsError>)
    ensures r.Err? <==> CommonError(apiKey, libraryId, libraryType, limit, chunkSize, maxWorkers).Some?
    ensures r.Err? ==> Some(r.error) == CommonError(apiKey, libraryId, libraryType, limit, chunkSize, maxWorkers)
    ensures r.Ok? ==> fresh(r.value) && r.value.Valid()
    ensures r.Ok? ==> r.value.collections == NormalizeNames(SetOf(collections))
                      && r.value.tags == NormalizeNames(SetOf(tags))
                      && r.value.apiKey == Strip(apiKey) && r.value.libraryId == Strip(libraryId)
                      && r.value.markdownOptions == OptionsOf(markdownOptions)
                      && r.value.skipExisting == skipExisting && r.value.outputDir == outputDir
    ensures r.Ok? ==> r.value.libraryType == libraryType && r.value.overwrite == overwrite
                      && r.value.dryRun == dryRun && r.value.limit == limit && r.value.chunkSize == chunkSize
                      && r.value.maxWorkers == maxWorkers
  {
    var cs, ts := SetOf(collections), SetOf(tags);
    PostInitOnSuccess(apiKey, libraryId, libraryType, limit, chunkSize, maxWorkers, cs, ts);
    var s := new ExportSettings.Raw(apiKey, libraryId, libraryType, outputDir, cs, ts,
                                    overwrite, skipExisting, dryRun, limit, chunkSize, maxWorkers,
                                    OptionsOf(markdownOptions));
    var err := s.PostInit();
    if err.Some? {
      return Err(err.value);
    }
    return Ok(s);
  }
}
