// zotero_pdf2md/exporter.py: `export_library` up to the hand-over to the
// worker pools. Unlike the newer revision there is no pre-filter: every
// attachment is dispatched, and the temporary file is always "<key>.pdf".
module Pdf2mdExporter {
  import opened Wrappers
  import opened Models
  import opened Files
  import opened Conversion
  import opened Summary
  import opened ExportCommon
  import Pdf2mdUtils

  /** `temp_dir / f"{attachment.attachment_key}.pdf"`. */
  function PdfTempPath(tempDir: Path, a: AttachmentMetadata): (p: Path)
    ensures |p| == |tempDir| + 1 && p[..|tempDir|] == tempDir
    ensures var name := p[|tempDir|];
            |name| == |a.attachmentKey| + 4 && name[..|a.attachmentKey|] == a.attachmentKey
            && name[|a.attachmentKey|..] == ".pdf"
  {
    var name := a.attachmentKey + ".pdf";
    assert name[..|a.attachmentKey|] == a.attachmentKey;
    tempDir + [name]
  }

  /** The folders the converter writes the attachments into. */
  function ConverterFolders(atts: seq<AttachmentMetadata>, outputDir: Path): (r: seq<Path>)
    ensures |r| == |atts| && forall i :: 0 <= i < |atts| ==> r[i] == Pdf2mdUtils.OutputFolder(atts[i], outputDir)
  {
    seq(|atts|, i requires 0 <= i < |atts| => Pdf2mdUtils.OutputFolder(atts[i], outputDir))
  }

  /** The file names the converter gives the attachments. */
  function ConverterNames(atts: seq<AttachmentMetadata>): (r: seq<string>)
    ensures |r| == |atts| && forall i :: 0 <= i < |atts| ==> r[i] == Pdf2mdUtils.FileName(atts[i])
  {
    seq(|atts|, i requires 0 <= i < |atts| => Pdf2mdUtils.FileName(atts[i]))
  }

  /** The temporary download paths of the attachments. */
  function TempPaths(atts: seq<AttachmentMetadata>, tempDir: Path): (r: seq<Path>)
    ensures |r| == |atts| && forall i :: 0 <= i < |atts| ==> r[i] == PdfTempPath(tempDir, atts[i])
  {
    seq(|atts|, i requires 0 <= i < |atts| => PdfTempPath(tempDir, atts[i]))
  }

  /** One download job per attachment, in listing order. */
  function Jobs(atts: seq<AttachmentMetadata>, tempDir: Path): (jobs: seq<Job>)
    ensures |jobs| == |atts|
    ensures forall i :: 0 <= i < |atts| ==> jobs[i] == Job(atts[i], PdfTempPath(tempDir, atts[i]))
  {
    seq(|atts|, i requires 0 <= i < |atts| => Job(atts[i], PdfTempPath(tempDir, atts[i])))
  }

  /** `export_library` up to the hand-over to the worker pools: nothing to
      do for an empty listing, the dry-run loop, or every attachment
      dispatched with no result synthesized beforehand. */
  method ExportLibrary(fs: FileSystem, atts: seq<AttachmentMetadata>, tempDir: Path, outputDir: Path,
                       overwrite: bool, dryRun: bool, maxWorkers: Option<int>, render: Path -> Option<string>)
    returns (r: Result<Plan, ConvertError>)
    requires fs.Valid()
    modifies fs
    ensures fs.Valid() && fs.files == old(fs.files)
    ensures atts == [] ==> r == Ok(Done(SummarizeResults([]))) && fs.dirs == old(fs.dirs)
    ensures atts != [] && dryRun ==>
              (r.Ok? <==> forall i :: 0 <= i < |atts| ==> !old(fs.Blocked(ConverterFolders(atts, outputDir)[i])))
    ensures atts != [] && dryRun && r.Ok? ==>
              r.value.Done? && r.value.summary.processed == |atts| && r.value.summary.converted == 0
              && |r.value.summary.outputPaths| == |atts|
              && forall i :: 0 <= i < |atts| ==>
                   r.value.summary.outputPaths[i] == ConverterFolders(atts, outputDir)[i] + [ConverterNames(atts)[i]]
    ensures atts != [] && dryRun && r.Ok? ==>
              r.value == Done(SummarizeResults(DryRunResults(old(fs.files.Keys), old(fs.dirs),
                                                             ConverterFolders(atts, outputDir), ConverterNames(atts),
                                                             TempPaths(atts, tempDir), overwrite, |atts|)))
    ensures atts != [] && !dryRun ==>
              fs.dirs == old(fs.dirs) && r == Ok(Dispatch(DownloadWorkers(maxWorkers, |atts|), Jobs(atts, tempDir), []))
  {
    if |atts| == 0 {
      return Ok(Done(SummarizeResults([])));
    }
    if dryRun {
      r := DryRunExport(fs, ConverterFolders(atts, outputDir), ConverterNames(atts), TempPaths(atts, tempDir),
                        overwrite, render);
      return;
    }
    r := Ok(Dispatch(DownloadWorkers(maxWorkers, |atts|), Jobs(atts, tempDir), []));
  }
}
