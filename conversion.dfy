// The body of `convert_attachment_to_markdown`, which both revisions share
// (zotero_files2md/converter.py and zotero_pdf2md/converter.py): create the
// folder, then the guard chain existing-output / dry-run / missing source /
// render and write.
module Conversion {
  import opened Wrappers
  import opened Models
  import opened Utf8
  import opened Files

  /** `Literal["converted", "skipped", "dry-run"]`. */
  datatype Status = Converted | Skipped | DryRun
  {
    /** The literal the source uses for the status. */
    function Text(): (t: string)
      ensures t in {"converted", "skipped", "dry-run"}
    {
      match this
      case Converted => "converted"
      case Skipped => "skipped"
      case DryRun => "dry-run"
    }
  }

  /** The outcome of converting one attachment. */
  datatype ConversionResult = ConversionResult(source: Path, output: Path, status: Status)

  /** The exceptions the converter lets escape instead of returning a result. */
  datatype ConvertError =
    | DirectoryNotCreated(dir: Path)  // `ensure_directory` raised
    | FileNotFound(missing: Path)     // `FileNotFoundError`

  /** What the guard chain does next. */
  datatype Step = SkipExisting | ReportDryRun | MissingSource | RenderAndWrite

  /** The guard chain, in the source's order: an existing output without
      `overwrite` is skipped, even in dry-run; then dry-run only reports;
      then a missing source raises; only then is the engine run. */
  function NextStep(outputExists: bool, overwrite: bool, dryRun: bool, sourceExists: bool): (s: Step)
    ensures s == SkipExisting <==> outputExists && !overwrite
    ensures s == ReportDryRun <==> (overwrite || !outputExists) && dryRun
    ensures s == MissingSource <==> (overwrite || !outputExists) && !dryRun && !sourceExists
    ensures s == RenderAndWrite <==> (overwrite || !outputExists) && !dryRun && sourceExists
    ensures dryRun ==> s == SkipExisting || s == ReportDryRun
  {
    if outputExists && !overwrite then SkipExisting
    else if dryRun then ReportDryRun
    else if !sourceExists then MissingSource
    else RenderAndWrite
  }

  /** The outcome of `convert_attachment_to_markdown` writing `fileName`
      into `outputDir`, between the state before the call and the state
      after it; `rendered` is what the engine returns for `source` (`None`
      when it raises) and `ioFails` a device error while writing. */
  twostate predicate Outcome(fs: FileSystem, outputDir: Path, fileName: string, source: Path,
                             overwrite: bool, dryRun: bool, new rendered: Option<string>, ioFails: bool,
                             new r: Result<ConversionResult, ConvertError>)
    reads fs
  {
    (old(fs.Blocked(outputDir)) ==>
       r == Err(DirectoryNotCreated(outputDir)) && fs.files == old(fs.files) && fs.dirs == old(fs.dirs))
    && (r.Ok? ==> r.value.source == source && r.value.output == outputDir + [fileName])
    && (!old(fs.Blocked(outputDir)) ==>
          var out := outputDir + [fileName];
          var step := NextStep(out in old(fs.files) || out in fs.dirs, overwrite, dryRun,
                               source in old(fs.files) || source in fs.dirs);
          fs.dirs == old(fs.dirs) + Ancestry(outputDir)
          && (step == SkipExisting ==> r == Ok(ConversionResult(source, out, Skipped)) && fs.files == old(fs.files))
          && (step == ReportDryRun ==> r == Ok(ConversionResult(source, out, DryRun)) && fs.files == old(fs.files))
          && (step == MissingSource ==> r == Err(FileNotFound(source)) && fs.files == old(fs.files))
          && (step == RenderAndWrite && (rendered.None? || ioFails || out in fs.dirs) ==>
                r == Ok(ConversionResult(source, out, Skipped)) && fs.files == old(fs.files))
          && (step == RenderAndWrite && rendered.Some? && !ioFails && out !in fs.dirs ==>
                r == Ok(ConversionResult(source, out, Converted))
                && fs.files == old(fs.files)[out := Encode(rendered.value)]))
  }

  /** `convert_attachment_to_markdown` once the folder and file name are
      known; `render` stands for the engine. */
  method Convert(fs: FileSystem, outputDir: Path, fileName: string, source: Path,
                 overwrite: bool, dryRun: bool, render: Path -> Option<string>, ioFails: bool)
    returns (r: Result<ConversionResult, ConvertError>)
    requires fs.Valid()
    modifies fs
    ensures fs.Valid()
    ensures Outcome(fs, outputDir, fileName, source, overwrite, dryRun, render(source), ioFails, r)
  {
    var created := fs.EnsureDirectory(outputDir);
    if !created {
      return Err(DirectoryNotCreated(outputDir));
    }
    var out := outputDir + [fileName];
    match NextStep(fs.Exists(out), overwrite, dryRun, fs.Exists(source))
    case SkipExisting =>
      r := Ok(ConversionResult(source, out, Skipped));
    case ReportDryRun =>
      r := Ok(ConversionResult(source, out, DryRun));
    case MissingSource =>
      r := Err(FileNotFound(source));
    case RenderAndWrite =>
      match render(source)
      case None =>
        r := Ok(ConversionResult(source, out, Skipped));
      case Some(markdown) =>
        assert |out| == 1 || out[..|out| - 1] == outputDir[..|outputDir|];
        var written := fs.WriteBytes(out, Encode(markdown), ioFails);
        r := Ok(ConversionResult(source, out, if written then Converted else Skipped));
  }
}
