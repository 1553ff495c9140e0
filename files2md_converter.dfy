// zotero_files2md/converter.py: the output path the converter writes to
// and `convert_attachment_to_markdown`.
module Files2mdConverter {
  import opened Wrappers
  import opened Text
  import opened Slug
  import opened Models
  import opened Files
  import opened Conversion
  import Files2mdUtils

  /** The folder the converter creates: the parent title's slug, falling
      back to the parent item key, else "item". The citation key plays no
      part here, unlike in `compute_output_path`. */
  function OutputFolder(a: AttachmentMetadata, outputDir: Path): (d: Path)
    ensures |d| == |outputDir| + 1 && d[..|outputDir|] == outputDir
    ensures 0 < |d[|outputDir|]| <= MaxSlugLength && AllSlugChars(d[|outputDir|])
  {
    outputDir + [Files2mdUtils.Slugify(a.parentTitle, OrText(a.parentItemKey, "item"))]
  }

  /** The folder is the parent title's slug cut to 120 characters when the
      title cleans to something, else the slug of the parent item key, else
      "item". */
  lemma OutputFolderValue(a: AttachmentMetadata, outputDir: Path)
    ensures CleanSlugText(OrText(a.parentTitle, "")) != "" ==>
              OutputFolder(a, outputDir)[|outputDir|] == Truncate(CleanSlugText(OrText(a.parentTitle, "")), MaxSlugLength)
    ensures CleanSlugText(OrText(a.parentTitle, "")) == "" ==>
              OutputFolder(a, outputDir)[|outputDir|] == Files2mdUtils.Slugify(None, OrText(a.parentItemKey, "item"))
  {
    Files2mdUtils.SlugifyValue(a.parentTitle, OrText(a.parentItemKey, "item"));
  }

  /** Without a citation key the converter writes where the exporter's
      pre-filter expects the file (both naming strategies agree then). */
  lemma {:induction false} ConverterPathAgreesWithoutCitationKey(a: AttachmentMetadata, outputDir: Path)
    requires !Truthy(a.parentCitationKey)
    ensures OutputFolder(a, outputDir) + [Files2mdUtils.FileName(a)] == Files2mdUtils.DefaultOutputPath(a, outputDir)
    ensures Files2mdUtils.ComputeOutputPath(a, outputDir, Files2mdUtils.ItemTitleNaming) == Ok(Files2mdUtils.DefaultOutputPath(a, outputDir))
  {
    var folder := Files2mdUtils.Slugify(a.parentTitle, OrText(a.parentItemKey, "item"));
    assert Or(a.parentCitationKey, a.parentTitle) == a.parentTitle;
    assert Files2mdUtils.ReferenceFolder(a, Files2mdUtils.CitationKeyNaming) == Ok(folder);
    var name := Files2mdUtils.FileName(a);
    assert Files2mdUtils.DefaultOutputPath(a, outputDir) == outputDir + [folder, name];
    assert OutputFolder(a, outputDir) == outputDir + [folder];
    AppendTwo(outputDir, folder, name);
    Files2mdUtils.StrategiesAgreeWithoutCitationKey(a, outputDir);
  }

  /** An attachment whose parent has both a title and a citation key. */
  const CitedAttachment: AttachmentMetadata :=
    AttachmentMetadata("ABC", Some("P1"), Some("Doc"), Some("Paper"), None, Some("smith2023"), [], [], None, None)

  /** With a citation key the two can part: the pre-filter looks in the
      citation-key folder while the converter writes to the title folder. */
  lemma ConverterPathDiffersWithCitationKey()
    ensures OutputFolder(CitedAttachment, []) == ["Paper"]
    ensures Files2mdUtils.DefaultOutputPath(CitedAttachment, [])[0] == "smith2023"
  {
    AlnumIsClean("smith2023");
    AlnumIsClean("Paper");
    var a := CitedAttachment;
    assert OrText(a.parentItemKey, "item") == "P1";
    assert Or(a.parentCitationKey, a.parentTitle) == Some("smith2023");
    Files2mdUtils.SlugifyKeepsSlugs("Paper", "P1");
    assert OutputFolder(a, []) == [] + [Files2mdUtils.Slugify(Some("Paper"), "P1")];
    Files2mdUtils.SlugifyKeepsSlugs("smith2023", "P1");
    assert Files2mdUtils.ReferenceFolder(a, Files2mdUtils.CitationKeyNaming)
        == Ok(Files2mdUtils.Slugify(Some("smith2023"), "P1"));
  }

  /** `convert_attachment_to_markdown(attachment, file_path, settings)` with
      `settings.output_dir`, `overwrite` and `dry_run` passed in. */
  method ConvertAttachmentToMarkdown(fs: FileSystem, a: AttachmentMetadata, filePath: Path, outputDir: Path,
                                     overwrite: bool, dryRun: bool, render: Path -> Option<string>, ioFails: bool)
    returns (r: Result<ConversionResult, ConvertError>)
    requires fs.Valid()
    modifies fs
    ensures fs.Valid()
    ensures Outcome(fs, OutputFolder(a, outputDir), Files2mdUtils.FileName(a), filePath,
                    overwrite, dryRun, render(filePath), ioFails, r)
  {
    r := Convert(fs, OutputFolder(a, outputDir), Files2mdUtils.FileName(a), filePath,
                 overwrite, dryRun, render, ioFails);
  }
}
