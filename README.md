# zotero-files2md / zotero-pdf2md in Dafny

This project models the core of a command-line tool that exports the file
attachments of a Zotero library, read over the Zotero Web API, to Markdown
files. The repository holds two revisions of the tool:

- `zotero_files2md` is the newer one. It exports any imported file through a
  rendering engine and names the reference folders after citation keys.
- `zotero_pdf2md` is the older one. It exports PDFs only, resolves collection
  names, and names folders after titles.

The model covers:

- the attachment metadata record and its label and info mapping;
- the scan over paged item listings with de-duplication, filters and limit,
  in both revisions (`iter_attachments` and `iter_pdf_attachments`), and the
  extraction of citation keys from the `extra` field;
- the collection mappings of the older revision;
- slug making and output path computation;
- settings validation and normalisation (`ExportSettings.__post_init__`,
  `from_cli_args`, `describe_filters`), and the `collection=dir` pairs;
- the command-line key=value options and log-level check;
- the converter's guard chain over a modelled filesystem;
- `export_library` up to the hand-over to the worker pools: the empty
  listing, the dry-run loop, the worker count, and the newer revision's
  pre-filter of duplicate and existing output paths;
- the export summary, including the fact that its counts do not depend on the
  order in which workers finish.

The two revisions share much code. Where they are the same, the code is
modelled once and cited at the files2md lines:

- `_extract_tags`: pdf2md zotero.py:254-260;
- `_match_tags`: pdf2md zotero.py:262-266;
- `_fetch_parent`: pdf2md zotero.py:268-282;
- `_is_downloadable_attachment`: pdf2md zotero.py:284-301;
- `_parse_timestamp`: pdf2md zotero.py:303-313;
- `ensure_directory`: pdf2md utils.py:52-55;
- `_parse_key_value_option`: pdf2md cli.py:33-44;
- the log-level check: pdf2md cli.py:124-126;
- the validation checks of `__post_init__`: pdf2md settings.py:36-60;
- `describe_filters`: pdf2md settings.py:104-115;
- `summarize_results`: pdf2md exporter.py:134-154.

Modelling conventions:

- A path is a sequence of components, and `a / b` appends a component.
- The filesystem is a class holding a map from file paths to bytes and a set
  of directory paths.
- The Zotero server is a function from a collection key to its full item
  listing, and a function from a parent key to the parent item.
- A rendering engine is a function from a path to optional Markdown, where
  `None` means that it raised.
- Every operation that loops or updates state is a method. Each method is
  proved equal to a specification function, and the properties are lemmas
  about those functions.

Where the written code and its documentation disagree, the model follows the
code:

- `convert_attachment_to_markdown` creates the reference folder before it
  checks `dry_run`, so a dry run still creates directories
  (`Conversion.Convert`, `ExportCommon.DryRunAll`).
- The pdf2md `slugify` promises a slug containing only `A-Za-z0-9._-`, but
  it returns the fallback unsanitised (`Pdf2mdUtils.UncleanFallbackIsKept`).
- In the newer revision, the exporter's pre-filter looks for
  `compute_output_path` with the citation-key folder. The converter instead
  writes into a folder named after the parent title. The two agree without a
  citation key and part with one
  (`Files2mdConverter.ConverterPathAgreesWithoutCitationKey`,
  `Files2mdConverter.ConverterPathDiffersWithCitationKey`).
- In the older revision, collection filters that name no known collection
  resolve to no keys. That switches collection filtering off rather than
  matching nothing (`Pdf2mdZotero.UnknownCollectionsDisableFilter`).
- The newer exporter reads a `skip_existing` setting that its settings class
  does not declare. The model takes it as a parameter and records the raise
  under "## Findings" (`Files2mdExporter.PreFilterRaisesAt`).
- The newer `download_and_save` calls `download_attachment`, which the newer
  `ZoteroClient` does not define, so every dispatched download raises and is
  dropped. The model lets a download succeed and records the failure under
  "## Findings" (`ExportCommon.AllDownloadsFailed`).
- The newer `utils.py` imports `ReferenceFolderName` from `settings.py`, which
  does not define it, so as written the newer package cannot be imported at
  all. The model takes the folder-naming strategy as a text of its own
  (`Files2mdUtils.ReferenceFolder`).

## Model

| member | source | states |
|---|---|---|
| Models.AttachmentMetadata.Label | src/zotero_files2md/models.py:42-49 | an attachment with a non-empty key always has a non-empty label |
| Models.LabelOfEqualTitles | src/zotero_files2md/models.py:45-47 | when parent and attachment titles agree up to surrounding blanks and case, the label is the parent title alone |
| Models.LabelOfDistinctTitles | src/zotero_files2md/models.py:45-48 | when both titles are set and differ, the label is parent title, en dash, attachment title, three characters longer than the two titles together |
| Models.LabelFallsBack | src/zotero_files2md/models.py:49 | without both titles the label is the title, else the parent title, else the attachment key |
| Models.AttachmentMetadata.AsInfo | src/zotero_files2md/models.py:25-40 | the info mapping has exactly the ten documented keys: the attachment key as text, collections and tags as lists, and each optional field as its text or null |
| Models.AsInfoRoundTrip | src/zotero_files2md/models.py:25-40 | the mapping loses nothing: every field of the record reads back from it |
| Models.OptionalText | src/zotero_files2md/models.py:29-33 | an absent optional text becomes null, a present one its text |
| Text.Strip | src/zotero_files2md/settings.py:83 | `str.strip()`: the result is no longer than the input and neither starts nor ends with Python whitespace |
| Text.SkipSpacesSkipsOnlySpace | src/zotero_files2md/settings.py:83 | every character skipped from the front is whitespace |
| Text.TrimSpacesDropsOnlySpace | src/zotero_files2md/settings.py:83 | every character trimmed from the back is whitespace |
| Text.StripRemovesOnlySpace | src/zotero_files2md/settings.py:83 | the result is the piece of the input from its first non-whitespace character, and everything before and after that piece is whitespace |
| Text.StripOfTrimmed | src/zotero_files2md/settings.py:83 | stripping text without edge whitespace leaves it unchanged |
| Text.StripIdempotent | src/zotero_files2md/settings.py:83 | stripping twice is stripping once |
| Text.Lower | src/zotero_files2md/cli.py:162 | `str.lower()` keeps the length and lowers each letter A-Z, leaving every other character |
| Text.LowerIdempotent | src/zotero_files2md/cli.py:162 | lowering twice is lowering once |
| Text.LowerStripped | src/zotero_files2md/settings.py:113 | lowering stripped text keeps it stripped |
| Text.Or | src/zotero_files2md/utils.py:84 | Python `a or b`: `a` when it is a non-empty text, `b` otherwise |
| Text.OrText | src/zotero_files2md/utils.py:85 | `a or "text"`: `a`'s text when non-empty, the default otherwise |
| Text.IndexOf | src/zotero_files2md/cli.py:41 | the first index of the character, or the length when it is absent |
| Text.SplitOnce | src/zotero_files2md/cli.py:41 | `split(c, 1)` fails exactly when `c` is absent, and otherwise gives a prefix free of `c` and the rest, which rejoined with `c` is the input |
| Text.Join | src/zotero_files2md/settings.py:180 | `sep.join(parts)`: empty for no parts, the part itself for one, begins with the first part and ends with the last |
| Text.JoinAppend | src/zotero_files2md/settings.py:180 | joining one more part adds the separator and that part at the end |
| Text.JoinThree | src/zotero_files2md/settings.py:180 | three parts join as first, separator, second, separator, third |
| Text.SplitLines | src/zotero_files2md/zotero.py:235 | `str.splitlines()`: no line contains a line boundary, and only the empty text has no lines |
| Text.SplitLinesAfterBreak | src/zotero_files2md/zotero.py:235 | a line feed after an unbroken line splits off exactly that line |
| Text.LineEndBefore | src/zotero_files2md/zotero.py:235 | an unbroken line followed by a boundary ends just before the boundary |
| Text.SplitLinesAfterCrLf | src/zotero_files2md/zotero.py:235 | "\r\n" after an unbroken line is one boundary: it splits off exactly that line, with no empty line between |
| Text.SplitLinesAfterBoundary | src/zotero_files2md/zotero.py:235 | any other single boundary character after an unbroken line splits off exactly that line |
| Text.IntToString | src/zotero_files2md/settings.py:177 | the decimal text of an integer is non-empty, starts with "-" exactly for a negative number, and is otherwise digits; zero is "0", and no other number has a leading zero after the sign |
| Text.NatToString | src/zotero_files2md/settings.py:177 | the decimal text of a natural number is a non-empty run of digits that starts with "0" only for zero |
| Text.NatToStringValue | src/zotero_files2md/settings.py:177 | the digits read back as the number |
| Text.IntToStringValue | src/zotero_files2md/settings.py:177 | the digits after the sign read back as the absolute value of the number |
| Sorting.SortedSet | src/zotero_files2md/settings.py:173 | `sorted(set)`: each element exactly once, in strictly increasing order |
| Slug.CleanSlugText | src/zotero_files2md/utils.py:35-38 | `_clean_slug_text` gives clean text: only `A-Za-z0-9._-`, no two adjacent dashes, and no `-`, `.` or `_` at either end |
| Slug.ReplaceDisallowed | src/zotero_files2md/utils.py:37 | each run of disallowed characters becomes a dash, so only slug characters remain |
| Slug.SkipNonSlugRun | src/zotero_files2md/utils.py:37 | a run of disallowed characters is skipped up to the next text |
| Slug.SkipNonSlugAppend | src/zotero_files2md/utils.py:37 | skipping stops inside the first piece when that piece holds a slug character |
| Slug.ReplaceDisallowedAppend | src/zotero_files2md/utils.py:37 | text that ends in a slug character is replaced independently of what follows it |
| Slug.RunAtStart | src/zotero_files2md/utils.py:37 | a run of disallowed characters at the front becomes one dash |
| Slug.ReplaceDisallowedRun | src/zotero_files2md/utils.py:37 | a whole run of disallowed characters between two slug characters becomes exactly one dash, and the text on both sides is replaced on its own |
| Slug.CollapseDashes | src/zotero_files2md/utils.py:38 | `-{2,}` to `-`: no two adjacent dashes, slug characters kept, empty exactly for empty input, first character kept |
| Slug.Collapsed | src/zotero_files2md/utils.py:36-38 | the text before the edge strip holds only slug characters and no double dash |
| Slug.StripEdges | src/zotero_files2md/utils.py:38 | `strip("-._")`: no `-`, `.` or `_` at either end |
| Slug.StripEdgesKeepsSlugs | src/zotero_files2md/utils.py:38 | stripping the edges of slug text without double dashes gives clean text |
| Slug.ReplaceDisallowedFixesSlugText | src/zotero_files2md/utils.py:37 | replacement leaves text made of slug characters unchanged |
| Slug.CollapseDashesFixesSingleDashes | src/zotero_files2md/utils.py:38 | collapsing leaves text without double dashes unchanged |
| Slug.SlugCharsAreNotWhitespace | src/zotero_files2md/utils.py:36 | no slug character is whitespace, so the initial strip keeps slug text |
| Slug.CleanSlugTextFixpoints | src/zotero_files2md/utils.py:35-38 | cleaning leaves text unchanged if and only if the text is already clean |
| Slug.CleanSlugTextIdempotent | src/zotero_files2md/utils.py:35-38 | cleaning twice is cleaning once |
| Slug.AlnumIsClean | src/zotero_files2md/utils.py:35-38 | letters and digits alone are clean text |
| Slug.DashJoinIsClean | src/zotero_files2md/utils.py:35-38 | two words of letters and digits joined by a dash are clean text |
| Slug.CleanTwoWords | src/zotero_files2md/utils.py:35-38 | two words of letters and digits separated by a blank clean to the words joined by a dash |
| Slug.ItemIsClean | src/zotero_files2md/utils.py:55 | the last-resort slug "item" is clean |
| Slug.Truncate | src/zotero_files2md/utils.py:56 | `text[:120]`: a prefix of the text of length `min(len, n)` |
| Slug.TruncateClean | src/zotero_files2md/utils.py:56 | cutting clean non-empty text keeps it non-empty, of slug characters, without double dash and without an edge character in front |
| Slug.SliceKeepsSlugShape | src/zotero_files2md/utils.py:56 | any slice of slug text without double dashes keeps both properties |
| Files2mdUtils.SlugSource | src/zotero_files2md/utils.py:51-55 | the text before the cut: the cleaned value when non-empty, else the cleaned fallback when non-empty, else "item"; always clean and non-empty |
| Files2mdUtils.Slugify | src/zotero_files2md/utils.py:41-56 | a slug is 1 to 120 slug characters, has no double dash and no edge character in front, and is the first `min(120, len)` characters of the cleaned source |
| Files2mdUtils.SlugifyKeepsSlugs | src/zotero_files2md/utils.py:41-56 | a clean value of at most 120 characters is its own slug |
| Files2mdUtils.SlugifyFallsBack | src/zotero_files2md/utils.py:51-53 | a value that cleans to nothing gives the same slug as no value |
| Files2mdUtils.SlugifyValue | src/zotero_files2md/utils.py:51-56 | a value that cleans to something gives its cleaned text cut to 120 characters; otherwise the slug is that of the fallback alone |
| Files2mdUtils.SlugifyNone | src/zotero_files2md/utils.py:51-56 | the fallback alone gives its cleaned text cut to 120 characters, or "item" when it cleans to nothing |
| Files2mdUtils.ReferenceFolder | src/zotero_files2md/utils.py:80-93 | the folder slug fails exactly for a strategy other than "citation-key" and "item-title", and is otherwise a slug |
| Files2mdUtils.ItemTitleFolder | src/zotero_files2md/utils.py:80-82 | item-title folder: the parent title's cleaned text cut to 120 when it cleans to something; otherwise the parent item key's slug when that key is set, else the citation key's slug when set, else "item" |
| Files2mdUtils.CitationKeyFolder | src/zotero_files2md/utils.py:83-85 | citation-key folder: a set citation key's cleaned text cut to 120 when it cleans to something; without a key the parent title's; otherwise the slug of the parent item key or "item" |
| Files2mdUtils.FileName | src/zotero_files2md/utils.py:94-95 | the file name ends in ".md", is made of slug characters and is at most 123 characters |
| Files2mdUtils.FileNameValue | src/zotero_files2md/utils.py:94-95 | a title that cleans to something gives its cleaned text cut to 120 plus ".md"; otherwise the attachment key's slug plus ".md" |
| Files2mdUtils.ComputeOutputPath | src/zotero_files2md/utils.py:65-95 | the error is raised exactly for an unknown strategy and names it; otherwise the path is the output folder, then the folder of `ReferenceFolder`, then the name of `FileName`, both slug text |
| Files2mdUtils.DefaultOutputPath | src/zotero_files2md/utils.py:68 | the default strategy is "citation-key" and always succeeds |
| Files2mdUtils.CitationKeyNamesFolder | src/zotero_files2md/utils.py:83-85 | a clean citation key of at most 120 characters is the folder name itself |
| Files2mdUtils.StrategiesAgreeWithoutCitationKey | src/zotero_files2md/utils.py:80-85 | without a citation key both strategies give the same path |
| Files2mdUtils.PathFromParts | src/zotero_files2md/utils.py:93-95 | the path is the output folder, the reference folder and the file name, in that order |
| Files2mdUtils.TestPaperSlug | tests/test_settings.py:127-140 | "Test Paper" cleans to "Test-Paper" |
| Files2mdUtils.AuthorSlug | tests/test_settings.py:143-154 | "Author 2023" cleans to "Author-2023" |
| Files2mdUtils.CitationKeySlug | tests/test_settings.py:127-140 | "smith2023foundations" is its own clean text |
| Files2mdUtils.ParentKeySlug | tests/test_settings.py:171-184 | "PARENT1" is its own clean text |
| Files2mdUtils.AttachmentKeySlug | tests/test_settings.py:171-184 | "ABC123" is its own clean text |
| Files2mdUtils.TestPaperFileName | tests/test_settings.py:127-140 | the title "Test Paper" gives the file name "Test-Paper.md" |
| Files2mdUtils.AuthorFolder | tests/test_settings.py:143-168 | the parent title "Author 2023" gives the folder "Author-2023" in the item-title strategy, and in the citation-key strategy when there is no citation key |
| Files2mdUtils.DefaultPathExample | tests/test_settings.py:127-140 | the test paper goes to `smith2023foundations/Test-Paper.md` by default |
| Files2mdUtils.ItemTitlePathExample | tests/test_settings.py:143-154 | with "item-title" it goes to `Author-2023/Test-Paper.md` |
| Files2mdUtils.MissingCitationKeyPathExample | tests/test_settings.py:157-168 | without a citation key the default goes to `Author-2023/Test-Paper.md` |
| Files2mdUtils.FallbackPathExample | tests/test_settings.py:171-184 | without titles and citation key it goes to `PARENT1/ABC123.md` |
| Pdf2mdUtils.Slugify | src/zotero_pdf2md/utils.py:33-49 | a value that cleans to something gives its cleaned text cut to 120 characters, a slug without double dash; otherwise the raw fallback cut to 120 characters, uncleaned; the result is empty exactly when both are empty |
| Pdf2mdUtils.UncleanFallbackIsKept | src/zotero_pdf2md/utils.py:47-48 | a fallback with a space comes back as it is, so the result is not a slug |
| Pdf2mdUtils.SlugifyRevisionsAgree | src/zotero_pdf2md/utils.py:33-49 | when the value cleans to something or the fallback is clean and non-empty, both revisions' slugify agree |
| Pdf2mdUtils.Flatten | src/zotero_pdf2md/utils.py:58-63 | the set holds exactly the strings that occur in some iterable |
| Pdf2mdUtils.OutputFolder | src/zotero_pdf2md/utils.py:78-80 | the folder is the output folder plus one component: the parent title's cleaned text cut to 120 when it cleans to something, else the raw parent item key cut to 120 when set, else "item" |
| Pdf2mdUtils.FileName | src/zotero_pdf2md/utils.py:81-82 | the file name ends in ".md", is at most 123 characters, and is the title's cleaned text cut to 120 plus ".md", or the raw attachment key cut to 120 plus ".md" |
| Pdf2mdUtils.ComputeOutputPath | src/zotero_pdf2md/utils.py:66-82 | the path is the folder of `OutputFolder` plus the name of `FileName` |
| Pdf2mdUtils.OutputPathIsSlugWithCleanFallbacks | src/zotero_pdf2md/utils.py:66-82 | with a title that cleans to something and a usable folder source, both path components are slug text |
| ZoteroData.ExtractTags | src/zotero_files2md/zotero.py:192-198 | the tag names are strictly sorted, and a name occurs exactly when it is the non-empty "tag" of some entry |
| ZoteroData.StrictlySortedDistinct | src/zotero_files2md/zotero.py:198 | a strictly sorted tuple has no repeated element |
| ZoteroData.SortedUnion | src/zotero_files2md/zotero.py:141 | `sorted(set(a + b))`: strictly sorted, holding exactly the elements of either |
| ZoteroData.TagFilters | src/zotero_files2md/zotero.py:35 | the tag filters are exactly the lowered configured tags |
| ZoteroData.MatchTagsIgnoresCase | src/zotero_files2md/zotero.py:200-204 | tag matching succeeds exactly when no tags are configured or a name equals a configured tag up to case |
| ZoteroData.MergedTags | src/zotero_files2md/zotero.py:135-141 | the merged tags are strictly sorted, holding exactly the tags of the attachment and of its parent |
| ZoteroData.Timestamp | src/zotero_files2md/zotero.py:263-273 | no timestamp for an absent or empty value, and the stripped text otherwise |
| Paging.KeyOf | src/zotero_files2md/zotero.py:103-105 | an item key is used only when non-empty, and it is the item's own key |
| Paging.CollectionsToFetch | src/zotero_files2md/zotero.py:70-74 | no collection filters mean a single unfiltered listing; otherwise one listing per filter key |
| Paging.Page | src/zotero_files2md/zotero.py:76-101 | a page is the next at most `chunk_size` items of the listing, and is empty exactly at the end of the listing or for a zero chunk size |
| Paging.ScanFromAppend | src/zotero_files2md/zotero.py:76-101 | scanning two runs of items one after the other is scanning their concatenation |
| Paging.ScanStoppedStays | src/zotero_files2md/zotero.py:170-174 | once the generator has returned, later items change nothing |
| Paging.StreamNext | src/zotero_files2md/zotero.py:70-101 | the items seen after one more collection are those before plus that collection's listing |
| Paging.StreamPrefix | src/zotero_files2md/zotero.py:70-101 | the items of the first collections are a prefix of all items |
| Paging.VisitItem | src/zotero_files2md/zotero.py:103-108 | the loop body on one item computes the state of the item-by-item specification |
| Paging.VisitPage | src/zotero_files2md/zotero.py:102-174 | the loop over a page computes the specification's state after the page |
| Paging.VisitListing | src/zotero_files2md/zotero.py:76-101 | the paging loop over a listing computes the specification's state after the whole listing |
| Paging.Iterate | src/zotero_files2md/zotero.py:70-176 | the generator yields exactly the specification's attachments for the concatenated listings |
| Paging.ScanYieldsBuilt | src/zotero_files2md/zotero.py:103-169 | every yielded attachment was built from some listed item |
| Paging.ScanYieldsOnly | src/zotero_files2md/zotero.py:103-169 | a property of every attachment the loop body builds holds of every yielded one |
| Paging.ScanKeysDistinct | src/zotero_files2md/zotero.py:103-108 | no two yielded attachments share a key, and every yielded key has been seen |
| Paging.ScanLimitAgrees | src/zotero_files2md/zotero.py:170-174 | with a positive limit the generator either returns after exactly `limit` attachments, the first `limit` of the unlimited scan, or ends like the unlimited scan with fewer |
| Paging.ScanLimitTruncates | src/zotero_files2md/zotero.py:170-174 | the limited result is the unlimited one cut to `limit`, so it never exceeds the limit |
| Files2mdZotero.KeywordEnd | src/zotero_files2md/zotero.py:18-21 | the end of the keyword "citation key", "citationkey" or "citekey", after leading blanks and in any case, lies within the line |
| Files2mdZotero.CitationMatch | src/zotero_files2md/zotero.py:18-21 | the captured group has no surrounding whitespace |
| Files2mdZotero.LineKey | src/zotero_files2md/zotero.py:236-240 | a line yields a key only when it matches and the key is non-empty and stripped |
| Files2mdZotero.LineKeys | src/zotero_files2md/zotero.py:235-240 | there is one candidate key per line |
| Files2mdZotero.FirstKey | src/zotero_files2md/zotero.py:235-242 | none exactly when no line has a key; otherwise the key of the first line that has one |
| Files2mdZotero.FirstKeyAt | src/zotero_files2md/zotero.py:235-240 | the key of the first line with one is returned |
| Files2mdZotero.ExtraCitationKey | src/zotero_files2md/zotero.py:231-242 | a key found in `extra` is non-empty and stripped |
| Files2mdZotero.ExtraCitationKeyNone | src/zotero_files2md/zotero.py:235-242 | `extra` gives no key exactly when none of its lines gives one |
| Files2mdZotero.NoLineKey | src/zotero_files2md/zotero.py:235-242 | over any lines, there is no key exactly when no line gives one |
| Files2mdZotero.FirstLineKeyAt | src/zotero_files2md/zotero.py:235-240 | a found key comes from a line all of whose predecessors give none |
| Files2mdZotero.ExtraCitationKeyFirst | src/zotero_files2md/zotero.py:235-240 | the key found in `extra` is that of its first line that gives a key |
| Files2mdZotero.ParentCitationKey | src/zotero_files2md/zotero.py:221-242 | a non-blank direct `citationKey` wins, stripped; any key returned is non-empty and stripped |
| Files2mdZotero.ParentCitationKeyFromExtra | src/zotero_files2md/zotero.py:225-233 | without a usable direct key, no `extra` gives no key and otherwise the key comes from `extra` |
| Files2mdZotero.FirstLineKey | src/zotero_files2md/zotero.py:235-242 | the loop over the lines returns the first key of the specification |
| Files2mdZotero.ExtractParentCitationKey | src/zotero_files2md/zotero.py:221-242 | the method returns the specification's key |
| Files2mdZotero.OneLine | src/zotero_files2md/zotero.py:235 | a non-empty text without line boundaries is a single line |
| Files2mdZotero.CitationKeyKeyword | src/zotero_files2md/zotero.py:18-21 | the keyword of "Citation Key: k" ends before the colon |
| Files2mdZotero.MatchAfterColon | src/zotero_files2md/zotero.py:18-21 | a colon right after the keyword, with more text after it, matches with the stripped rest of the line as its group |
| Files2mdZotero.CitekeyKeyword | src/zotero_files2md/zotero.py:18-21 | the keyword of "citekey: k" ends before the colon |
| Files2mdZotero.KeyAfterColon | src/zotero_files2md/zotero.py:18-21 | a keyword, a colon, a blank and a stripped key give that key |
| Files2mdZotero.CitationKeyLine | src/zotero_files2md/zotero.py:18-21 | the line "Citation Key: k" gives k |
| Files2mdZotero.CitekeyLine | src/zotero_files2md/zotero.py:18-21 | the line "citekey: k" gives k |
| Files2mdZotero.ExtraKeyRoundTrip | src/zotero_files2md/zotero.py:231-240 | an `extra` written as "Citation Key: k" gives back k |
| Files2mdZotero.LineKeyNeedsC | src/zotero_files2md/zotero.py:18-21 | a line whose first non-blank character is not a "c" in either case gives no key |
| Files2mdZotero.SecondLineKey | src/zotero_files2md/zotero.py:235-240 | when the first line has no key and the second has one, the second's key is found |
| Files2mdZotero.KeyOnLaterLine | src/zotero_files2md/zotero.py:231-240 | a citation-key line after a keyless note line is found |
| Files2mdZotero.KeyAmongNotes | tests/test_zotero.py:11-17 | the test's `extra` with a note line, a citation-key line and a trailing line gives "smith2023foundations" |
| Files2mdZotero.UnkeyedExtra | src/zotero_files2md/zotero.py:235-242 | a single line not opening with "c" gives no key |
| Files2mdZotero.NoKeyInExtra | tests/test_zotero.py:20-22 | "No key here" gives no key |
| Files2mdZotero.DirectKeyStripped | tests/test_zotero.py:6-8 | a direct key with surrounding blanks is returned stripped |
| Files2mdZotero.ContentTypeFilter | src/zotero_files2md/zotero.py:66-68 | no content types or an empty list mean no filter; otherwise the filter is exactly the lowered types |
| Files2mdZotero.MergedCollections | src/zotero_files2md/zotero.py:122-133 | strictly sorted, holding exactly the collections of the attachment and of its parent |
| Files2mdZotero.Metadata | src/zotero_files2md/zotero.py:154-169 | the metadata carries the attachment's key and parent key, and parent title or citation key only when a parent was found |
| Files2mdZotero.Build | src/zotero_files2md/zotero.py:110-169 | an item yields metadata exactly when it is downloadable and passes the content-type, collection and tag tests |
| Files2mdZotero.AcceptedMeetsFilters | src/zotero_files2md/zotero.py:110-152 | an accepted item has a non-empty key, an imported link mode, a filtered collection and a filtered tag when filters are set |
| Files2mdZotero.AcceptedMeetsSettings | src/zotero_files2md/zotero.py:143-169 | the metadata of an accepted item lies in one of the configured collections and carries one of the configured tags up to case |
| Files2mdZotero.BuilderMeetsFilters | src/zotero_files2md/zotero.py:103-169 | everything the loop body yields meets the filters and keeps the item's key |
| Files2mdZotero.IterAttachments | src/zotero_files2md/zotero.py:53-179 | `iter_attachments` yields the specification's attachments with distinct keys, no more than a positive limit, and all meeting the filters |
| Pdf2mdZotero.MappingsFromAppend | src/zotero_pdf2md/zotero.py:178-200 | reading two runs of collections one after the other is reading their concatenation |
| Pdf2mdZotero.AddCollections | src/zotero_pdf2md/zotero.py:194-199 | the batch loop records each named collection's key and name as the specification does |
| Pdf2mdZotero.LoadCollectionMappings | src/zotero_pdf2md/zotero.py:173-210 | the paged loop builds the specification's key-to-name mapping |
| Pdf2mdZotero.MappingsKeys | src/zotero_pdf2md/zotero.py:194-199 | a key is mapped exactly when some collection with a key and a name has it |
| Pdf2mdZotero.MappingsLastNameWins | src/zotero_pdf2md/zotero.py:194-199 | a key maps to the name of its last named collection |
| Pdf2mdZotero.ResolveCollectionNames | src/zotero_pdf2md/zotero.py:212-217 | at most one name per key |
| Pdf2mdZotero.ResolveCollectionNamesMembers | src/zotero_pdf2md/zotero.py:212-217 | the names are exactly those of the known keys |
| Pdf2mdZotero.ResolveCollectionNamesAppend | src/zotero_pdf2md/zotero.py:212-217 | resolving a concatenation resolves each part in order |
| Pdf2mdZotero.ResolveKnownCollectionNames | src/zotero_pdf2md/zotero.py:212-217 | when every key is known, the names follow the keys one for one |
| Pdf2mdZotero.ResolveCollectionFilters | src/zotero_pdf2md/zotero.py:219-242 | the filter keys are exactly the known non-empty stripped values given |
| Pdf2mdZotero.ResolveCleanCollectionFilters | src/zotero_pdf2md/zotero.py:219-242 | for stripped non-empty values the filter keys are the given values that are known keys |
| Pdf2mdZotero.UnknownCollectionsDisableFilter | src/zotero_pdf2md/zotero.py:219-252 | when no given value is a known key, no filter keys remain and every attachment passes the collection test |
| Pdf2mdZotero.NamedCollections | src/zotero_pdf2md/zotero.py:108-120 | strictly sorted, holding exactly the names of the known collections of the attachment and its parent |
| Pdf2mdZotero.NamedCollectionsAreNames | src/zotero_pdf2md/zotero.py:108-120 | every collection reported is a name from the mapping |
| Pdf2mdZotero.FilterKeyNamed | src/zotero_pdf2md/zotero.py:130-139 | a passed collection test leaves the name of a filter key among the reported collections |
| Pdf2mdZotero.Metadata | src/zotero_pdf2md/zotero.py:141-153 | the metadata carries the attachment's key and parent key and no citation key, and a parent title only when a parent was found |
| Pdf2mdZotero.Build | src/zotero_pdf2md/zotero.py:102-153 | an item yields metadata exactly when it is downloadable and passes the collection and tag tests |
| Pdf2mdZotero.AcceptedMeetsFilters | src/zotero_pdf2md/zotero.py:102-153 | the metadata of an accepted item names only known collections and meets the collection and tag filters |
| Pdf2mdZotero.BuilderMeetsFilters | src/zotero_pdf2md/zotero.py:95-153 | everything the loop body yields meets the filters and keeps the item's key |
| Pdf2mdZotero.IterPdfAttachments | src/zotero_pdf2md/zotero.py:55-163 | `iter_pdf_attachments` yields the specification's attachments with distinct keys, no more than a positive limit, and all meeting the filters |
| SettingsCommon.CommonError | src/zotero_files2md/settings.py:82-111 | no error exactly when every check passes; otherwise the first failing check, in source order, names the error |
| SettingsCommon.NormalizeNames | src/zotero_files2md/settings.py:123-124 | the normalised names are exactly the non-empty stripped given names |
| SettingsCommon.NormalizedNamesAreClean | src/zotero_files2md/settings.py:123-124 | normalised names are non-empty and stripped |
| SettingsCommon.NormalizeNamesIdempotent | src/zotero_files2md/settings.py:123-124 | clean names are kept as they are, and normalising twice is normalising once |
| SettingsCommon.SetOf | src/zotero_files2md/settings.py:154-155 | `set(values or [])` holds exactly the given values |
| SettingsCommon.ReprText | src/zotero_files2md/settings.py:173 | a name's repr is the name in single quotes |
| SettingsCommon.ReprItems | src/zotero_files2md/settings.py:173 | one repr per item, in order |
| SettingsCommon.ReprItemsAppend | src/zotero_files2md/settings.py:173 | one more item adds its repr at the end |
| SettingsCommon.ReprList | src/zotero_files2md/settings.py:173 | a list's repr is bracketed and is `[]` for no items; the items' reprs follow in order, separated by ", " (see the singleton, pair and append lemmas) |
| SettingsCommon.ReprListSingleton | src/zotero_files2md/settings.py:173 | a one-element list prints as its element's repr in brackets |
| SettingsCommon.ReprListAppend | src/zotero_files2md/settings.py:173 | one more item adds ", " and its repr before the closing bracket |
| SettingsCommon.ReprListPair | src/zotero_files2md/settings.py:173 | two items print as `[a, b]` with their reprs separated by ", " |
| SettingsCommon.FilterParts | src/zotero_files2md/settings.py:171-177 | one part for each of a collection, a tag and a non-zero limit that is set, in that order: the collections part first when present, the tags part next, the limit part last |
| SettingsCommon.CollectionsPart | src/zotero_files2md/settings.py:172-173 | the collections part begins with `collections=` and ends with the closing bracket of the sorted collections' repr |
| SettingsCommon.TagsPart | src/zotero_files2md/settings.py:174-175 | the tags part begins with `tags=` and ends with the closing bracket of the sorted tags' repr |
| SettingsCommon.LimitPart | src/zotero_files2md/settings.py:176-177 | the limit part begins with `limit=`, followed by the decimal limit, which carries a minus sign exactly for a negative limit |
| SettingsCommon.DescribeParts | src/zotero_files2md/settings.py:178-180 | "no filters" for no parts, the part itself for one part, and otherwise the parts joined by ", ", beginning with the first and ending with the last |
| SettingsCommon.DescribePartsAppend | src/zotero_files2md/settings.py:180 | one more part adds ", " and that part at the end |
| SettingsCommon.DescribeFilters | src/zotero_files2md/settings.py:169-180 | "no filters" exactly when no collection, tag or non-zero limit is set |
| SettingsCommon.DescribeFiltersEnds | src/zotero_files2md/settings.py:169-180 | a description other than "no filters" begins with its first part and ends with its last |
| SettingsCommon.DescribeAllFilters | src/zotero_files2md/settings.py:169-180 | with collections, tags and a non-zero limit all set the description is the collections part, ", ", the tags part, ", ", the limit part |
| SettingsCommon.CollectionsComeFirst | src/zotero_files2md/settings.py:172-173 | with collections set, the description opens with the sorted collections |
| SettingsCommon.TagsComeFirstWithoutCollections | src/zotero_files2md/settings.py:174-175 | with tags but no collections, the description opens with the sorted tags |
| SettingsCommon.LimitComesLast | src/zotero_files2md/settings.py:176-177 | with a non-zero limit, the description ends with it |
| SettingsCommon.SortedSingleton | src/zotero_files2md/settings.py:173 | a one-element set sorts to that element |
| SettingsCommon.ReprOfOneName | src/zotero_files2md/settings.py:173 | a single collection prints as `['name']` |
| Files2mdSettings.ParseEntry | src/zotero_files2md/settings.py:31-44 | an entry without "=" is refused; a parsed pair has a non-empty key and directory |
| Files2mdSettings.ParsePair | src/zotero_files2md/settings.py:28-44 | a blank entry is skipped exactly; a parsed pair has a non-empty key and directory |
| Files2mdSettings.ParsePairNeedsEquals | src/zotero_files2md/settings.py:28-33 | the "=" error is raised exactly for a non-blank entry without "=" |
| Files2mdSettings.ParseEntrySplitsAtFirstEquals | src/zotero_files2md/settings.py:35-37 | a parsed pair is the stripped text before and after the first "=" |
| Files2mdSettings.KeysOf | src/zotero_files2md/settings.py:45 | the keys of the mapping are exactly the keys of its pairs |
| Files2mdSettings.Entries | src/zotero_files2md/settings.py:27 | one parsed entry per value |
| Files2mdSettings.CollectionOutputPairs | src/zotero_files2md/settings.py:24-25 | no values or an empty list give an empty mapping |
| Files2mdSettings.Parsed | src/zotero_files2md/settings.py:27-49 | at most one pair per entry |
| Files2mdSettings.PairsErrorSticks | src/zotero_files2md/settings.py:27-49 | the first error ends the loop: later entries do not change it |
| Files2mdSettings.PairsSucceedExactly | src/zotero_files2md/settings.py:14-51 | parsing succeeds exactly when every entry parses and no key repeats, and then yields all parsed pairs in order |
| Files2mdSettings.ParsedComeFromEntries | src/zotero_files2md/settings.py:27-49 | every pair of the mapping comes from an entry |
| Files2mdSettings.ParsePairIsClean | src/zotero_files2md/settings.py:35-44 | a parsed pair has a non-empty stripped key and directory |
| Files2mdSettings.ParsedMappingIsClean | src/zotero_files2md/settings.py:14-51 | a parsed mapping has distinct, non-empty, stripped keys and directories |
| Files2mdSettings.AddEntry | src/zotero_files2md/settings.py:28-49 | one loop step parses the entry and adds it as the specification does |
| Files2mdSettings.ParseCollectionOutputPairs | src/zotero_files2md/settings.py:14-51 | the loop computes the specification's mapping or error |
| Files2mdSettings.FirstError | src/zotero_files2md/settings.py:82-119 | no error exactly when the shared checks, the GPU worker check and the image-mode check pass; a shared error comes first, then the GPU worker error, then the image-mode error |
| Files2mdSettings.PostInitRaisesFirstError | src/zotero_files2md/settings.py:82-119 | `__post_init__` raises the first failing check's error |
| Files2mdSettings.PostInitNormalizes | src/zotero_files2md/settings.py:82-124 | after a successful `__post_init__` the settings are normalised: stripped key and ID, lowered image mode, clean names |
| Files2mdSettings.PostInitFailureKeepsFilters | src/zotero_files2md/settings.py:82-124 | the API key is stripped even on failure; a failure leaves collections and tags as given, and the image mode too unless its own check failed |
| Files2mdSettings.ImageModesAreNormal | src/zotero_files2md/settings.py:113-119 | every accepted image mode is already stripped and lowered |
| Files2mdSettings.PostInitIdempotent | src/zotero_files2md/settings.py:82-124 | `__post_init__` on normalised settings changes nothing and raises nothing |
| Files2mdSettings.ExportSettings.Raw | src/zotero_files2md/settings.py:54-80 | the dataclass constructor stores every field as given |
| Files2mdSettings.ExportSettings.PostInit | src/zotero_files2md/settings.py:82-124 | the method raises, and rewrites key, ID, image mode, collections and tags, as the specification function says |
| Files2mdSettings.ExportSettings.DescribeFilters | src/zotero_files2md/settings.py:169-180 | "no filters" exactly when no collection, tag or non-zero limit is set |
| Files2mdSettings.FromCliArgs | src/zotero_files2md/settings.py:126-167 | fails exactly with the first failing check; otherwise new valid settings with normalised names, stripped key and ID, lowered image mode, and every other field (folder, limit, library type, overwrite, dry run, chunk size, worker counts and the three GPU and OCR flags) as given |
| Pdf2mdSettings.PostInitRaisesCommonError | src/zotero_pdf2md/settings.py:35-60 | `__post_init__` raises the first failing shared check's error |
| Pdf2mdSettings.PostInitNormalizes | src/zotero_pdf2md/settings.py:35-66 | after a successful `__post_init__` key and ID are stripped and names clean |
| Pdf2mdSettings.PostInitIdempotent | src/zotero_pdf2md/settings.py:35-67 | `__post_init__` on normalised settings changes nothing and raises nothing |
| Pdf2mdSettings.ExportSettings.Raw | src/zotero_pdf2md/settings.py:14-33 | the dataclass constructor stores every field as given |
| Pdf2mdSettings.ExportSettings.PostInit | src/zotero_pdf2md/settings.py:35-67 | the method raises, and rewrites key, ID, collections and tags, as the specification function says |
| Pdf2mdSettings.ExportSettings.DescribeFilters | src/zotero_pdf2md/settings.py:104-115 | "no filters" exactly when no collection, tag or non-zero limit is set |
| Pdf2mdSettings.OptionsOf | src/zotero_pdf2md/settings.py:101 | `markdown_options or {}` |
| Pdf2mdSettings.FromCliArgs | src/zotero_pdf2md/settings.py:69-102 | fails exactly with the first failing check; otherwise new valid settings with normalised names, stripped key and ID, and options, skip flag, folder, library type, overwrite, dry run, limit, chunk size and worker count as given |
| Cli.ParseOption | src/zotero_files2md/cli.py:39-46 | an item without "=" is refused; a parsed option has a non-empty stripped key without "=" and a stripped value |
| Cli.ParseOptionEmptyKey | src/zotero_files2md/cli.py:41-45 | the empty-key error is raised exactly when the text before the first "=" is blank |
| Cli.ParseOptionRoundTrip | src/zotero_files2md/cli.py:36-47 | `key=value` with a clean key and value parses back to that pair |
| Cli.Entries | src/zotero_files2md/cli.py:38 | one parsed entry per item |
| Cli.ParseKeyValueOption | src/zotero_files2md/cli.py:36-47 | the loop computes the specification's options or error |
| Cli.FillErrorSticks | src/zotero_files2md/cli.py:38-46 | the first bad item ends the loop: later items change nothing |
| Cli.FillFailsAtFirstBadEntry | src/zotero_files2md/cli.py:36-47 | parsing succeeds exactly when every item parses, and otherwise fails with the first bad item's error |
| Cli.FillKeys | src/zotero_files2md/cli.py:36-47 | the keys of the result are exactly the keys of the items |
| Cli.FillLastValueWins | src/zotero_files2md/cli.py:46 | a repeated key keeps the value of its last item |
| Cli.CheckLogLevel | src/zotero_files2md/cli.py:162-164 | a level is accepted exactly when its lowered form is one of the five levels; the level returned is one of them, and a refused one raises the invalid-level error |
| Cli.LogLevelCaseInsensitive | src/zotero_files2md/cli.py:162 | the check ignores case |
| Cli.LogLevelsAccepted | src/zotero_files2md/cli.py:22-28 | each of the five levels is accepted as it is |
| Utf8.EncodeChar | src/zotero_files2md/converter.py:75 | a character takes one to four bytes, one exactly when it is ASCII, and the bytes after the first are continuation bytes |
| Utf8.Encode | src/zotero_files2md/converter.py:75 | the encoding takes between one and four bytes per character |
| Utf8.DecodeChar | src/zotero_files2md/converter.py:75 | a decoded character uses one to four of the bytes |
| Utf8.Decode | src/zotero_files2md/converter.py:75 | decoding never gives more characters than bytes |
| Utf8.DecodeEncodeChar | src/zotero_files2md/converter.py:75 | each character's encoding decodes back to it whatever follows |
| Utf8.DecodeEncode | src/zotero_files2md/converter.py:75 | the bytes written decode back to the Markdown text |
| Utf8.EncodeAscii | src/zotero_files2md/converter.py:75 | ASCII text is written byte for byte |
| Files.Ancestry | src/zotero_files2md/utils.py:61 | the directories `mkdir(parents=True)` makes are exactly the non-empty prefixes of the path |
| Files.FileSystem.Empty | src/zotero_files2md/utils.py:59-62 | an empty filesystem is well formed |
| Files.FileSystem.EnsureDirectory | src/zotero_files2md/utils.py:59-62 | fails exactly when a file is in the way; otherwise adds the path and its ancestors as directories and leaves files alone |
| Files.FileSystem.WriteBytes | src/zotero_files2md/converter.py:75 | succeeds exactly when the path is not a directory, its parent is one and the device does not fail; then the file holds exactly the bytes and nothing else changes |
| Conversion.Status.Text | src/zotero_files2md/converter.py:97 | each status is one of the literals "converted", "skipped" and "dry-run" |
| Conversion.NextStep | src/zotero_files2md/converter.py:53-74 | an existing output without overwrite is skipped even in a dry run; then a dry run only reports; then a missing source raises; otherwise the engine runs |
| Conversion.Convert | src/zotero_files2md/converter.py:45-88 | the folder is created first; then the outcome and the new files follow the guard chain, and a written file holds the UTF-8 Markdown |
| Files2mdConverter.OutputFolder | src/zotero_files2md/converter.py:45-48 | the converter's folder is the output folder plus one slug of 1 to 120 slug characters |
| Files2mdConverter.OutputFolderValue | src/zotero_files2md/converter.py:45-48 | the parent title's cleaned text cut to 120 when it cleans to something, else the slug of the parent item key or "item"; the citation key is not consulted |
| Files2mdConverter.ConverterPathAgreesWithoutCitationKey | src/zotero_files2md/converter.py:45-51 | without a citation key the converter writes where the pre-filter looks, under either strategy |
| Files2mdConverter.ConverterPathDiffersWithCitationKey | src/zotero_files2md/converter.py:45-51 | for an attachment whose parent is titled "Paper" and has citation key "smith2023", the converter writes into folder "Paper" while the pre-filter looks in folder "smith2023" |
| Files2mdConverter.ConvertAttachmentToMarkdown | src/zotero_files2md/converter.py:26-88 | `convert_attachment_to_markdown` behaves as the guard chain in its own folder and file name |
| Pdf2mdConverter.PathText | src/zotero_pdf2md/converter.py:94 | `str(path)` of a single component is that component |
| Pdf2mdConverter.RenderOptions | src/zotero_pdf2md/converter.py:92-96 | the engine's options are the caller's plus "doc", which is set to the PDF path only when missing |
| Pdf2mdConverter.RenderOptionsIdempotent | src/zotero_pdf2md/converter.py:93-94 | merging the options again changes nothing |
| Pdf2mdConverter.ConvertAttachmentToMarkdown | src/zotero_pdf2md/converter.py:18-80 | `convert_attachment_to_markdown` behaves as the guard chain, with the engine run on the merged options |
| Summary.CountStatus | src/zotero_files2md/exporter.py:200-202 | a count never exceeds the number of results and grows by one per matching result |
| Summary.CountStatusAppend | src/zotero_files2md/exporter.py:200-202 | counts over consecutive batches add up |
| Summary.CountsPartition | src/zotero_files2md/exporter.py:200-204 | the three counts add up to the number of results |
| Summary.CountStatusAbsent | src/zotero_files2md/exporter.py:200-202 | without results of a status its count is zero |
| Summary.CountStatusPermutation | src/zotero_files2md/exporter.py:157-161 | the counts do not depend on the order of the results |
| Summary.SummarizeResults | src/zotero_files2md/exporter.py:198-209 | processed is the number of results, the three counts add up to it, and the output paths are those of the results in order |
| Summary.SummarizeAppend | src/zotero_files2md/exporter.py:198-209 | summaries of consecutive batches add up field by field |
| Summary.OutputPathsAppend | src/zotero_files2md/exporter.py:208 | the output paths of a concatenation are those of each part in order |
| Summary.DownloadWorkers | src/zotero_files2md/exporter.py:67-68 | `max(1, max_workers or min(8, total))`: a positive setting is used as it is; an unset or zero setting gives `min(8, total)` for a non-empty listing and 1 for an empty one; a negative setting gives 1 |
| ExportCommon.FolderAncestry | src/zotero_files2md/exporter.py:59-64 | every folder of the dry-run loop has its ancestors among the created directories |
| ExportCommon.DryRunResults | src/zotero_files2md/converter.py:53-67 | in a dry run each attachment's result is skipped exactly when its output exists (a file before the export, or a directory made by then) and `overwrite` is off, and dry-run otherwise |
| ExportCommon.DryRunCounts | src/zotero_files2md/exporter.py:59-65 | a dry-run summary converts nothing, its skipped and dry-run counts add up to the attachments, and with `overwrite` all of them are dry-run |
| ExportCommon.DryRunOne | src/zotero_files2md/converter.py:45-67 | with `dry_run` set, the converter creates the folder or raises for a blocked one, writes nothing, and returns skipped for an existing output without `overwrite` and dry-run otherwise |
| ExportCommon.DryRunAll | src/zotero_files2md/exporter.py:59-64 | the dry-run loop writes no file, creates the folders, fails exactly when one is blocked, and otherwise gives exactly the results of `DryRunResults` |
| ExportCommon.DryRunExport | src/zotero_files2md/exporter.py:59-65 | a dry run ends with the summary of exactly the results of `DryRunResults`, none converted |
| ExportCommon.Collected | src/zotero_files2md/exporter.py:127-171 | at most one result per dispatched job |
| ExportCommon.CollectedCounts | src/zotero_files2md/exporter.py:127-171 | one result per finished job, and per status one per job that finished with it |
| ExportCommon.FinishExport | src/zotero_files2md/exporter.py:173 | the final count covers the synthesized results and at most one result per job |
| ExportCommon.FinishExportOrderIrrelevant | src/zotero_files2md/exporter.py:127-173 | the final counts do not depend on the order in which the jobs finish |
| ExportCommon.CollectedAllFailed | src/zotero_files2md/exporter.py:127-138 | jobs whose download raised contribute no result |
| ExportCommon.AllDownloadsFailed | src/zotero_files2md/exporter.py:189-195 | as written, every download raises, so the summary is exactly that of the results synthesized before dispatch |
| ExportCommon.CollectedAllFinished | src/zotero_files2md/exporter.py:127-171 | every job that finishes contributes one result |
| ExportCommon.AllJobsFinished | src/zotero_files2md/exporter.py:127-173 | when every job finishes, the summary counts the synthesized results plus one per job |
| ExportCommon.FinishedJobAt | src/zotero_files2md/exporter.py:156-171 | when every job finishes, the results are theirs in completion order |
| Files2mdExporter.RFind | src/zotero_files2md/exporter.py:183 | the last index of the character, or -1 |
| Files2mdExporter.Suffix | src/zotero_files2md/exporter.py:183 | `Path(name).suffix` is empty or a "." followed by dot-free text, at the end of the name and shorter than it |
| Files2mdExporter.SuffixOfDottedName | src/zotero_files2md/exporter.py:183 | "stem.ext" has suffix ".ext" |
| Files2mdExporter.SuffixOfUndottedName | src/zotero_files2md/exporter.py:183 | a name without "." has no suffix |
| Files2mdExporter.TempPathForAttachment | src/zotero_files2md/exporter.py:176-185 | the temporary file sits in the temporary folder and is named by the attachment key followed by the suffix of its file name or key |
| Files2mdExporter.OutputPaths | src/zotero_files2md/exporter.py:76 | one output path per attachment |
| Files2mdExporter.KeptIndices | src/zotero_files2md/exporter.py:72-110 | kept indices are among the attachments seen |
| Files2mdExporter.SkippedIndices | src/zotero_files2md/exporter.py:72-107 | skipped indices are among the attachments seen |
| Files2mdExporter.KeptIndicesAreFirstClaims | src/zotero_files2md/exporter.py:78-110 | an attachment is kept exactly when its path is admitted and no earlier attachment has it |
| Files2mdExporter.SkippedIndicesAreTheRest | src/zotero_files2md/exporter.py:78-107 | an attachment is skipped exactly when it is not kept |
| Files2mdExporter.IndicesIncrease | src/zotero_files2md/exporter.py:75-110 | both lists keep the input order |
| Files2mdExporter.PreFilterPartitions | src/zotero_files2md/exporter.py:72-110 | every attachment is either kept or skipped, never both |
| Files2mdExporter.KeptPathsDistinct | src/zotero_files2md/exporter.py:78-91 | kept attachments have pairwise distinct output paths |
| Files2mdExporter.FirstClaimWins | src/zotero_files2md/exporter.py:78-91 | an admitted attachment that is skipped was beaten by an earlier kept one with the same path |
| Files2mdExporter.ExistenceIrrelevantWithoutSkipExisting | src/zotero_files2md/exporter.py:93-107 | without skip-existing, which files exist makes no difference |
| Files2mdExporter.SkipResult | src/zotero_files2md/exporter.py:84-90 | a synthesized result is skipped and carries the attachment's output path |
| Files2mdExporter.Work | src/zotero_files2md/exporter.py:109-110 | at most one attachment to process per attachment seen |
| Files2mdExporter.Skips | src/zotero_files2md/exporter.py:84-106 | at most one synthesized result per attachment seen |
| Files2mdExporter.WorkFollowsKeptIndices | src/zotero_files2md/exporter.py:72-110 | the attachments to process are those at the kept indices, in order |
| Files2mdExporter.SkipsFollowSkippedIndices | src/zotero_files2md/exporter.py:72-107 | the synthesized results belong to the skipped indices, in order |
| Files2mdExporter.DistinctPathsAllKept | src/zotero_files2md/exporter.py:72-110 | with distinct paths and without skip-existing, everything is processed and nothing is synthesized |
| Files2mdExporter.SeenPaths | src/zotero_files2md/exporter.py:73 | `seen_output_paths` holds only admitted paths |
| Files2mdExporter.SeenPathsAreAdmittedPrefix | src/zotero_files2md/exporter.py:73-109 | the seen set is exactly the admitted paths met so far |
| Files2mdExporter.FirstClaimBySeen | src/zotero_files2md/exporter.py:78-110 | an attachment is kept exactly when its path is admitted and not yet seen |
| Files2mdExporter.PreFilterRaisesAt | src/zotero_files2md/exporter.py:75-93 | the loop as written raises at the first attachment whose path is not already seen, and only there |
| Files2mdExporter.PreFilterAsWrittenRaisesAtFirst | src/zotero_files2md/exporter.py:75-93 | as written, any non-empty listing raises at its first attachment |
| Files2mdExporter.PreFilterKeepsFirst | src/zotero_files2md/exporter.py:75-110 | with the setting supplied, the first attachment is kept exactly when skip-existing is off or its output does not exist |
| Files2mdExporter.PreFilter | src/zotero_files2md/exporter.py:72-110 | the pre-filter loop computes the specification's attachments to process and synthesized results |
| Files2mdExporter.ConverterFolders | src/zotero_files2md/exporter.py:60-63 | one converter folder per attachment |
| Files2mdExporter.ConverterNames | src/zotero_files2md/exporter.py:60-63 | one converter file name per attachment |
| Files2mdExporter.TempPaths | src/zotero_files2md/exporter.py:61 | one temporary path per attachment |
| Files2mdExporter.Jobs | src/zotero_files2md/exporter.py:120-125 | one download job per attachment to process, at its temporary path |
| Files2mdExporter.PlanAfterPreFilter | src/zotero_files2md/exporter.py:67-125 | when nothing is left to convert, the summary counts every attachment with none converted; otherwise at least one worker gets between one and all of the attachments as jobs, and jobs and synthesized results together number the attachments |
| Files2mdExporter.WorkAndSkipsPartition | src/zotero_files2md/exporter.py:72-110 | every attachment goes to exactly one of the two lists |
| Files2mdExporter.SkipsAreSkipped | src/zotero_files2md/exporter.py:84-106 | every synthesized result has status skipped |
| Files2mdExporter.ExportLibrary | src/zotero_files2md/exporter.py:31-125 | an empty listing gives the empty summary; a dry run gives the blocked folder's error or the summary of `DryRunResults` over the converter's folders and names (skipped for an existing output without `overwrite`, dry-run otherwise); otherwise no file is touched and the plan is the pre-filter's, with `skip_existing` supplied as a parameter |
| Pdf2mdExporter.PdfTempPath | src/zotero_pdf2md/exporter.py:54 | the temporary file is the attachment key followed by ".pdf" |
| Pdf2mdExporter.ConverterFolders | src/zotero_pdf2md/exporter.py:53-57 | one converter folder per attachment |
| Pdf2mdExporter.ConverterNames | src/zotero_pdf2md/exporter.py:53-57 | one converter file name per attachment |
| Pdf2mdExporter.TempPaths | src/zotero_pdf2md/exporter.py:54 | one temporary path per attachment |
| Pdf2mdExporter.Jobs | src/zotero_pdf2md/exporter.py:68-73 | one download job per attachment, in listing order |
| Pdf2mdExporter.ExportLibrary | src/zotero_pdf2md/exporter.py:31-73 | an empty listing gives the empty summary; a dry run gives the blocked folder's error or the summary of `DryRunResults` over the converter's folders and names (skipped for an existing output without `overwrite`, dry-run otherwise); otherwise every attachment is dispatched with nothing synthesized |

## Findings

| source | as written | input that shows it | evidently intended | confidence | as-written member | corrected member |
|---|---|---|---|---|---|---|
| src/zotero_files2md/exporter.py:93 | the pre-filter reads `settings.skip_existing`, which the slotted `ExportSettings` (settings.py:53-80) does not declare, so the read raises `AttributeError` | any non-empty listing with `dry_run` off: the first attachment's path is never already seen, so the loop reaches the read at once | `skip_existing` is a setting: the command line collects it (cli.py:108, 176) and the older revision declares it (pdf2md settings.py:28), and the pre-filter keeps or skips each attachment by it | high (not executed) | Files2mdExporter.PreFilterAsWrittenRaisesAtFirst | Files2mdExporter.PreFilterKeepsFirst |
| src/zotero_files2md/exporter.py:195 | `download_and_save` calls `client.download_attachment`, which the newer `ZoteroClient` (zotero.py:24-264) does not define, so each download raises `AttributeError`; exporter.py:132-138 logs and drops it | any export that dispatches a job (`skip_existing` supplied, so that the pre-filter does not raise first): no job reaches the converter, and the summary holds only the pre-filter's skipped results | the client downloads the attachment to the temporary path, as the older client does (pdf2md zotero.py:165), and each finished job adds its result | high (not executed) | ExportCommon.AllDownloadsFailed | ExportCommon.AllJobsFinished |

## Left out
- Files2mdExporter.ExportLibrary: `skip_existing` is a parameter. As written, the newer `export_library` reads `settings.skip_existing` at exporter.py:93, a field `ExportSettings` does not declare, so a non-empty export that is not a dry run raises `AttributeError` before any download (see "## Findings").

- Network access: the pyzotero client, the older client's `download_attachment`, the transfer in `download_and_save` and the parent cache. The newer client has no `download_attachment` (see "## Findings"); a job's download is a `JobOutcome` that may succeed. The server is a pair of function parameters, and a listing is served whole and sliced by `chunk_size`.
- The server-side `contentType=application/pdf` filter of the older revision (src/zotero_pdf2md/zotero.py:72 and 84): the listing parameter stands for what the server returns.
- Concurrency: the thread and process pools and `as_completed`. Dispatch ends in a `Plan`, and each job's end is a `JobOutcome` in any order. Only the counts of the final summary are proved order-independent, not the order of its output paths.
- The rendering engines (Docling and `pymupdf4llm.to_markdown`) and `get_pipeline_options`: a function parameter that returns the Markdown or fails. The page-section markers checked in tests/test_converter.py belong to an engine and are not modelled.
- Logging, `get_logger`, `_configure_logging`, `to_cli_summary` and every error message text. Errors are datatype constructors without their message.
- Temporary directories, `expanduser`, `resolve` and the `mkdir` of the output folder in `__post_init__`. The output folder is kept as given.
- The typer command functions beyond the option parsing and the log-level check. The files2md `export_command` passes `skip_existing` and `markdown_options` to `ExportSettings.from_cli_args`, which does not accept them.
- The context-manager methods `__enter__` and `__exit__`.
- src/zotero_pdf2md/models.py is not part of this model. The older revision uses the same `AttachmentMetadata`, and its citation key is always absent.
- The Unicode NFKD normalisation in `slugify` is the identity here, which is exact for ASCII text.
- Text.Lower: lowers only A-Z, not Unicode letters. The same holds for the case-insensitive citation-key keyword match (`Files2mdZotero.KeywordEnd`, over `Files2mdZotero.WordAt`): Python's `re.IGNORECASE` on text also matches Unicode case equivalents, such as a dotless "ı" or the KELVIN SIGN, which the model does not.
- SettingsCommon.ReprText: quotes with single quotes and escapes nothing. Python's `repr` switches to double quotes for a name holding a single quote (and no double quote), escapes backslashes, and writes control and non-printable characters as escapes such as `\t`, `\n` and `\x..`.
- ZoteroData.Timestamp: keeps the stripped text instead of a `datetime`. The "Z" rewrite, ISO parsing and the `None` for unparsable text are not modelled.
- Models.AttachmentMetadata.AsInfo: the dates are texts, so `isoformat()` is not modelled.
- The float `image_resolution_scale` and the GPU settings are stored but play no part. The GPU routing of tests/pdf2md.py is not modelled.
- Iteration order of Python sets (collection filter keys) is a parameter `order` that lists exactly the keys.
- Files2mdZotero.Metadata, Pdf2mdZotero.Metadata: the title, file name, collections and tags fields are built as the source builds them, but the ensures names only the key fields and where the parent fields come from.
- Files2mdExporter.Suffix, Files2mdExporter.SkipResult, Pdf2mdUtils.OutputFolder, Pdf2mdUtils.FileName: a text that becomes a path is one path component here. Python's `Path(text)` and `output_dir / text` split the text at each "/", so a raw parent item key, attachment key or file name holding a "/" gives more components (and `Path(name).suffix` looks only at the last one).
- Files.FileSystem.WriteBytes: a failed write leaves the old content in place. Python's `write_bytes` opens the file for writing first, which truncates it, so a write that fails part-way can leave an empty or partial file.
- The missing `ReferenceFolderName`: src/zotero_files2md/utils.py:11 imports it from settings.py, which defines only `LibraryType` and `ImageProcessing`, so importing the newer package raises `ImportError` and no newer module loads. The model treats the strategy as a text (`Files2mdUtils.ReferenceFolder`), as the type alias evidently intends; the `ImportError` itself is not modelled.
- Utf8.Encode: a Dafny `char` cannot hold a lone surrogate. Python's `encode("utf-8")` raises on one, which converter.py:73-81 turns into a skipped result; the model has no such text.
- Text.Join: the recursive step `parts[0] + sep + Join(parts[1..], sep)` is not an ensures of the function; `Text.JoinAppend` and `Text.JoinThree` state the join part by part from the other end.
