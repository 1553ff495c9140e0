// zotero_files2md/utils.py: `slugify` and `compute_output_path` with its
// two reference-folder naming strategies.
module Files2mdUtils {
  import opened Wrappers
  import opened Text
  import opened Slug
  import opened Models

  /** The text a slug is cut from: the first of the cleaned `value`, the
      cleaned `fallback` and "item" that is not empty. */
  function SlugSource(value: Option<string>, fallback: string): (r: string)
    ensures r != [] && IsClean(r)
    ensures CleanSlugText(OrText(value, "")) != "" ==> r == CleanSlugText(OrText(value, ""))
    ensures CleanSlugText(OrText(value, "")) == "" && CleanSlugText(fallback) != "" ==> r == CleanSlugText(fallback)
    ensures CleanSlugText(OrText(value, "")) == "" && CleanSlugText(fallback) == "" ==> r == "item"
  {
    var v := CleanSlugText(OrText(value, ""));
    var f := CleanSlugText(fallback);
    ItemIsClean();
    if v != "" then v else if f != "" then f else "item"
  }

  /** A filesystem-friendly slug: the first 120 characters of the slug
      source; it is never empty and starts with a letter or digit. */
  function Slugify(value: Option<string>, fallback: string): (r: string)
    ensures 0 < |r| <= MaxSlugLength
    ensures AllSlugChars(r) && NoDoubleDash(r)
    ensures r[0] !in EdgeChars
    ensures |r| <= |SlugSource(value, fallback)| && r == SlugSource(value, fallback)[..|r|]
    ensures |r| == if |SlugSource(value, fallback)| < MaxSlugLength then |SlugSource(value, fallback)| else MaxSlugLength
  {
    var text := SlugSource(value, fallback);
    TruncateClean(text, MaxSlugLength);
    Truncate(text, MaxSlugLength)
  }

  /** Text that is already a slug of at most 120 characters is kept verbatim,
      whatever the fallback. */
  lemma {:induction false} SlugifyKeepsSlugs(value: string, fallback: string)
    requires IsClean(value) && 0 < |value| <= MaxSlugLength
    ensures Slugify(Some(value), fallback) == value
  {
    CleanSlugTextFixpoints(value);
    assert OrText(Some(value), "") == value;
    assert CleanSlugText(value) == value;
  }

  /** `None`, "" and text without any slug character all fall back alike. */
  lemma {:induction false} SlugifyFallsBack(value: Option<string>, fallback: string)
    requires CleanSlugText(OrText(value, "")) == ""
    ensures Slugify(value, fallback) == Slugify(None, fallback)
  {
    assert OrText(None, "") == "";
    assert CleanSlugText(OrText(None, "")) == "" by {
      CleanSlugTextFixpoints("");
    }
  }

  /** A value that cleans to something gives its own slug: the cleaned text
      cut to 120 characters; one that cleans to nothing gives the slug of the
      fallback alone. */
  lemma SlugifyValue(value: Option<string>, fallback: string)
    ensures CleanSlugText(OrText(value, "")) != "" ==>
              Slugify(value, fallback) == Truncate(CleanSlugText(OrText(value, "")), MaxSlugLength)
    ensures CleanSlugText(OrText(value, "")) == "" ==> Slugify(value, fallback) == Slugify(None, fallback)
  {
    if CleanSlugText(OrText(value, "")) == "" {
      SlugifyFallsBack(value, fallback);
    }
  }

  /** The slug of a fallback alone: the cleaned fallback cut to 120
      characters, or "item" when it cleans to nothing. */
  lemma SlugifyNone(fallback: string)
    ensures CleanSlugText(fallback) != "" ==> Slugify(None, fallback) == Truncate(CleanSlugText(fallback), MaxSlugLength)
    ensures CleanSlugText(fallback) == "" ==> Slugify(None, fallback) == "item"
  {
    assert OrText(None, "") == "";
    CleanSlugTextFixpoints("");
  }

  /** The error raised for an unknown naming strategy. */
  datatype NamingError = UnknownReferenceFolderName(got: string)

  const CitationKeyNaming: string := "citation-key"
  const ItemTitleNaming: string := "item-title"

  /** The reference folder: the citation-key strategy prefers the citation
      key, then the parent title, then the parent item key, then "item"; the
      item-title strategy prefers the parent title, then the parent item key,
      then the citation key, then "item". */
  function ReferenceFolder(a: AttachmentMetadata, referenceFolderName: string): (r: Result<string, NamingError>)
    ensures r.Err? <==> referenceFolderName != CitationKeyNaming && referenceFolderName != ItemTitleNaming
    ensures r.Ok? ==> 0 < |r.value| <= MaxSlugLength && AllSlugChars(r.value)
  {
    if referenceFolderName == ItemTitleNaming then
      Ok(Slugify(a.parentTitle, OrText(Or(a.parentItemKey, a.parentCitationKey), "item")))
    else if referenceFolderName == CitationKeyNaming then
      Ok(Slugify(Or(a.parentCitationKey, a.parentTitle), OrText(a.parentItemKey, "item")))
    else
      Err(UnknownReferenceFolderName(referenceFolderName))
  }

  /** The item-title strategy: a parent title that cleans to something
      names the folder whatever the keys; otherwise the parent item key, when
      set, is the fallback (the citation key is then not consulted), else the
      citation key, else "item". */
  lemma ItemTitleFolder(a: AttachmentMetadata)
    ensures CleanSlugText(OrText(a.parentTitle, "")) != "" ==>
              ReferenceFolder(a, ItemTitleNaming) == Ok(Truncate(CleanSlugText(OrText(a.parentTitle, "")), MaxSlugLength))
    ensures CleanSlugText(OrText(a.parentTitle, "")) == "" && Truthy(a.parentItemKey) ==>
              ReferenceFolder(a, ItemTitleNaming) == Ok(Slugify(None, a.parentItemKey.value))
    ensures CleanSlugText(OrText(a.parentTitle, "")) == "" && !Truthy(a.parentItemKey) && Truthy(a.parentCitationKey) ==>
              ReferenceFolder(a, ItemTitleNaming) == Ok(Slugify(None, a.parentCitationKey.value))
    ensures CleanSlugText(OrText(a.parentTitle, "")) == "" && !Truthy(a.parentItemKey) && !Truthy(a.parentCitationKey) ==>
              ReferenceFolder(a, ItemTitleNaming) == Ok("item")
  {
    var fb := OrText(Or(a.parentItemKey, a.parentCitationKey), "item");
    SlugifyValue(a.parentTitle, fb);
    if !Truthy(a.parentItemKey) && !Truthy(a.parentCitationKey) {
      assert fb == "item";
      ItemIsClean();
      CleanSlugTextFixpoints("item");
      SlugifyNone("item");
    }
  }

  /** The citation-key strategy: a citation key that is set decides alone
      (the parent title is not consulted even when the key cleans to
      nothing); without one the parent title is used as in the other
      strategy; the fallback is the parent item key, else "item". */
  lemma CitationKeyFolder(a: AttachmentMetadata)
    ensures Truthy(a.parentCitationKey) && CleanSlugText(a.parentCitationKey.value) != "" ==>
              ReferenceFolder(a, CitationKeyNaming) == Ok(Truncate(CleanSlugText(a.parentCitationKey.value), MaxSlugLength))
    ensures Truthy(a.parentCitationKey) && CleanSlugText(a.parentCitationKey.value) == "" ==>
              ReferenceFolder(a, CitationKeyNaming) == Ok(Slugify(None, OrText(a.parentItemKey, "item")))
    ensures !Truthy(a.parentCitationKey) && CleanSlugText(OrText(a.parentTitle, "")) != "" ==>
              ReferenceFolder(a, CitationKeyNaming) == Ok(Truncate(CleanSlugText(OrText(a.parentTitle, "")), MaxSlugLength))
    ensures !Truthy(a.parentCitationKey) && CleanSlugText(OrText(a.parentTitle, "")) == "" ==>
              ReferenceFolder(a, CitationKeyNaming) == Ok(Slugify(None, OrText(a.parentItemKey, "item")))
  {
    var v := Or(a.parentCitationKey, a.parentTitle);
    SlugifyValue(v, OrText(a.parentItemKey, "item"));
    if Truthy(a.parentCitationKey) {
      assert OrText(v, "") == a.parentCitationKey.value;
    } else {
      assert OrText(v, "") == OrText(a.parentTitle, "");
    }
  }

  /** The file name: the slug of the title, falling back to the attachment
      key, with the suffix ".md". */
  function FileName(a: AttachmentMetadata): (r: string)
    ensures 3 < |r| <= MaxSlugLength + 3 && r[|r| - 3..] == ".md"
    ensures AllSlugChars(r)
  {
    var s := Slugify(a.title, a.attachmentKey);
    MdSuffix(s);
    s + ".md"
  }

  /** A title that cleans to something gives its cleaned text cut to 120
      characters; otherwise the attachment key's slug is used. */
  lemma FileNameValue(a: AttachmentMetadata)
    ensures CleanSlugText(OrText(a.title, "")) != "" ==> FileName(a) == Truncate(CleanSlugText(OrText(a.title, "")), MaxSlugLength) + ".md"
    ensures CleanSlugText(OrText(a.title, "")) == "" ==> FileName(a) == Slugify(None, a.attachmentKey) + ".md"
  {
    SlugifyValue(a.title, a.attachmentKey);
  }

  lemma MdSuffix(s: string)
    requires AllSlugChars(s)
    ensures var r := s + ".md"; |r| == |s| + 3 && r[|r| - 3..] == ".md" && AllSlugChars(r)
  {
    var r := s + ".md";
    assert r[|r| - 3..] == ".md";
    forall i | 0 <= i < |r| ensures IsSlugChar(r[i]) {
      if i < |s| {
        assert r[i] == s[i];
      }
    }
  }

  /** `compute_output_path`: `output_dir / folder / file name`, or the
      `ValueError` for a strategy other than the two known ones. */
  function ComputeOutputPath(a: AttachmentMetadata, outputDir: Path, referenceFolderName: string): (r: Result<Path, NamingError>)
    ensures r.Err? <==> referenceFolderName != CitationKeyNaming && referenceFolderName != ItemTitleNaming
    ensures r.Err? ==> r.error == UnknownReferenceFolderName(referenceFolderName)
    ensures r.Ok? ==> |r.value| == |outputDir| + 2 && r.value[..|outputDir|] == outputDir
    ensures r.Ok? ==> AllSlugChars(r.value[|outputDir|]) && AllSlugChars(r.value[|outputDir| + 1])
    ensures r.Ok? ==> r.value[|outputDir|] == ReferenceFolder(a, referenceFolderName).value
    ensures r.Ok? ==> r.value[|outputDir| + 1] == FileName(a)
  {
    match ReferenceFolder(a, referenceFolderName)
    case Err(e) => Err(e)
    case Ok(folder) => Ok(outputDir + [folder, FileName(a)])
  }

  /** The path the exporter's pre-filter uses: the default strategy, which
      never fails. */
  function DefaultOutputPath(a: AttachmentMetadata, outputDir: Path): (p: Path)
    ensures ComputeOutputPath(a, outputDir, CitationKeyNaming) == Ok(p)
  {
    outputDir + [ReferenceFolder(a, CitationKeyNaming).value, FileName(a)]
  }

  /** In the citation-key strategy a present citation key that is already a
      slug names the folder verbatim; the parent title is not consulted. */
  lemma {:induction false} CitationKeyNamesFolder(a: AttachmentMetadata, outputDir: Path)
    requires Truthy(a.parentCitationKey)
    requires IsClean(a.parentCitationKey.value) && |a.parentCitationKey.value| <= MaxSlugLength
    ensures DefaultOutputPath(a, outputDir)[|outputDir|] == a.parentCitationKey.value
  {
    SlugifyKeepsSlugs(a.parentCitationKey.value, OrText(a.parentItemKey, "item"));
  }

  /** Without a citation key the two strategies name the same folder unless
      the parent title cleans to nothing (then the first uses the parent item
      key, the second the parent item key as well, so they agree again). */
  lemma {:induction false} StrategiesAgreeWithoutCitationKey(a: AttachmentMetadata, outputDir: Path)
    requires !Truthy(a.parentCitationKey)
    ensures ComputeOutputPath(a, outputDir, CitationKeyNaming) == ComputeOutputPath(a, outputDir, ItemTitleNaming)
  {
    assert Or(a.parentCitationKey, a.parentTitle) == a.parentTitle;
    assert Or(a.parentItemKey, a.parentCitationKey) == a.parentItemKey || !Truthy(a.parentItemKey);
    if !Truthy(a.parentItemKey) {
      assert OrText(Or(a.parentItemKey, a.parentCitationKey), "item") == "item" by {
        assert !Truthy(Or(a.parentItemKey, a.parentCitationKey));
      }
    }
  }

  /** The attachment of the path examples: a paper with a parent title and
      a citation key. */
  const TestPaper: AttachmentMetadata :=
    AttachmentMetadata("ABC123", Some("PARENT1"), Some("Test Paper"), Some("Author 2023"), Some("test.pdf"),
                       Some("smith2023foundations"), [], [], None, None)

  /** A word of letters and digits cleans to itself. */
  lemma CleanWord(s: string)
    requires forall i :: 0 <= i < |s| ==> IsAlnum(s[i])
    ensures CleanSlugText(s) == s
  {
    AlnumIsClean(s);
    CleanSlugTextFixpoints(s);
  }

  /** `spaced` and `dashed` are the two words joined by a space and by a
      dash. */
  lemma TwoWords(u: string, w: string, spaced: string, dashed: string)
    requires |spaced| == |dashed| == |u| + 1 + |w|
    requires spaced[..|u|] == dashed[..|u|] == u && spaced[|u| + 1..] == dashed[|u| + 1..] == w
    requires spaced[|u|] == ' ' && dashed[|u|] == '-'
    ensures u + " " + w == spaced && u + "-" + w == dashed
  {
    assert spaced == spaced[..|u|] + [spaced[|u|]] + spaced[|u| + 1..];
    assert dashed == dashed[..|u|] + [dashed[|u|]] + dashed[|u| + 1..];
  }

  lemma TestPaperSlug()
    ensures CleanSlugText("Test Paper") == "Test-Paper"
  {
    TwoWords("Test", "Paper", "Test Paper", "Test-Paper");
    CleanTwoWords("Test", "Paper");
  }

  lemma AuthorSlug()
    ensures CleanSlugText("Author 2023") == "Author-2023"
  {
    TwoWords("Author", "2023", "Author 2023", "Author-2023");
    CleanTwoWords("Author", "2023");
  }

  /** The example keys are words of letters and digits. */
  lemma ExampleKeysAreWords()
    ensures forall i :: 0 <= i < |"smith2023foundations"| ==> IsAlnum("smith2023foundations"[i])
    ensures forall i :: 0 <= i < |"PARENT1"| ==> IsAlnum("PARENT1"[i])
    ensures forall i :: 0 <= i < |"ABC123"| ==> IsAlnum("ABC123"[i])
  {
  }

  lemma CitationKeySlug()
    ensures CleanSlugText("smith2023foundations") == "smith2023foundations"
  {
    ExampleKeysAreWords();
    CleanWord("smith2023foundations");
  }

  lemma ParentKeySlug()
    ensures CleanSlugText("PARENT1") == "PARENT1"
  {
    ExampleKeysAreWords();
    CleanWord("PARENT1");
  }

  lemma AttachmentKeySlug()
    ensures CleanSlugText("ABC123") == "ABC123"
  {
    ExampleKeysAreWords();
    CleanWord("ABC123");
  }

  /** The example file names are their stems followed by ".md". */
  lemma ExampleFileNames()
    ensures "Test-Paper" + ".md" == "Test-Paper.md" && "ABC123" + ".md" == "ABC123.md"
  {
  }

  /** The title "Test Paper" gives the file "Test-Paper.md". */
  lemma TestPaperFileName(a: AttachmentMetadata)
    requires a.title == Some("Test Paper")
    ensures FileName(a) == "Test-Paper.md"
  {
    TestPaperSlug();
    ExampleFileNames();
    FileNameValue(a);
    assert OrText(a.title, "") == "Test Paper";
  }

  /** A path is its reference folder followed by its file name. */
  lemma PathFromParts(a: AttachmentMetadata, outputDir: Path, referenceFolderName: string, folder: string, file: string)
    requires ReferenceFolder(a, referenceFolderName) == Ok(folder) && FileName(a) == file
    ensures ComputeOutputPath(a, outputDir, referenceFolderName) == Ok(outputDir + [folder, file])
  {
  }

  /** A parent title "Author 2023" gives the folder "Author-2023" when the
      citation key is absent or the item-title strategy is chosen. */
  lemma AuthorFolder(a: AttachmentMetadata)
    requires a.parentTitle == Some("Author 2023")
    ensures ReferenceFolder(a, ItemTitleNaming) == Ok("Author-2023")
    ensures !Truthy(a.parentCitationKey) ==> ReferenceFolder(a, CitationKeyNaming) == Ok("Author-2023")
  {
    AuthorSlug();
    assert OrText(a.parentTitle, "") == "Author 2023";
    ItemTitleFolder(a);
    CitationKeyFolder(a);
  }

  /** The default strategy files the paper under its citation key. */
  lemma DefaultPathExample(outputDir: Path)
    ensures ComputeOutputPath(TestPaper, outputDir, CitationKeyNaming) == Ok(outputDir + ["smith2023foundations", "Test-Paper.md"])
  {
    CitationKeySlug();
    TestPaperFileName(TestPaper);
    CitationKeyFolder(TestPaper);
  }

  /** The item-title strategy files it under its parent title. */
  lemma ItemTitlePathExample(outputDir: Path)
    ensures ComputeOutputPath(TestPaper, outputDir, ItemTitleNaming) == Ok(outputDir + ["Author-2023", "Test-Paper.md"])
  {
    AuthorFolder(TestPaper);
    TestPaperFileName(TestPaper);
    PathFromParts(TestPaper, outputDir, ItemTitleNaming, "Author-2023", "Test-Paper.md");
  }

  /** Without a citation key the default strategy uses the parent title. */
  lemma MissingCitationKeyPathExample(outputDir: Path)
    ensures ComputeOutputPath(TestPaper.(parentCitationKey := None), outputDir, CitationKeyNaming)
         == Ok(outputDir + ["Author-2023", "Test-Paper.md"])
  {
    var a := TestPaper.(parentCitationKey := None);
    AuthorFolder(a);
    TestPaperFileName(a);
    PathFromParts(a, outputDir, CitationKeyNaming, "Author-2023", "Test-Paper.md");
  }

  /** Without titles and citation key the folder is the parent item key and
      the file is named after the attachment key. */
  lemma FallbackPathExample(outputDir: Path)
    ensures ComputeOutputPath(TestPaper.(title := None, parentTitle := None, parentCitationKey := None), outputDir, CitationKeyNaming)
         == Ok(outputDir + ["PARENT1", "ABC123.md"])
  {
    var a := TestPaper.(title := None, parentTitle := None, parentCitationKey := None);
    ParentKeySlug();
    AttachmentKeySlug();
    assert OrText(None, "") == "";
    CleanSlugTextFixpoints("");
    CitationKeyFolder(a);
    SlugifyNone("PARENT1");
    SlugifyNone("ABC123");
    assert OrText(a.parentItemKey, "item") == "PARENT1";
    FileNameValue(a);
    ExampleFileNames();
  }
}
