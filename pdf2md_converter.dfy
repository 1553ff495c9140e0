// zotero_pdf2md/converter.py: `convert_attachment_to_markdown` and the
// option merge of `_render_markdown`.
module Pdf2mdConverter {
  import opened Wrappers
  import opened Text
  import opened Models
  import opened Files
  import opened Conversion
  import Pdf2mdUtils

  /** `str(path)`: the components joined by "/". */
  function PathText(p: Path): (t: string)
    ensures |p| == 1 ==> t == p[0]
  {
    Join(p, "/")
  }

  /** The keyword arguments `_render_markdown` passes to the engine: a copy
      of `markdown_options` in which "doc" is set to the PDF path unless the
      caller already gave one. The caller's mapping is a value here, so it
      cannot be changed. */
  function RenderOptions(pdfPath: Path, markdownOptions: map<string, string>): (r: map<string, string>)
    ensures r.Keys == markdownOptions.Keys + {"doc"}
    ensures forall k :: k in markdownOptions ==> r[k] == markdownOptions[k]
    ensures "doc" !in markdownOptions ==> r["doc"] == PathText(pdfPath)
  {
    if "doc" in markdownOptions then markdownOptions else markdownOptions["doc" := PathText(pdfPath)]
  }

  /** Merging again changes nothing: once "doc" is present, later defaults
      are ignored. */
  lemma RenderOptionsIdempotent(p: Path, q: Path, options: map<string, string>)
    ensures RenderOptions(q, RenderOptions(p, options)) == RenderOptions(p, options)
  {
  }

  /** `convert_attachment_to_markdown(attachment, pdf_path, settings)` with
      `settings.output_dir`, `overwrite`, `dry_run` and `markdown_options`
      passed in. The folder and file name are those of `compute_output_path`,
      written out again in the source; `engine` stands for `pymupdf4llm.to_markdown` applied to
      the merged options (`None` when it raises). */
  method ConvertAttachmentToMarkdown(fs: FileSystem, a: AttachmentMetadata, pdfPath: Path, outputDir: Path,
                                     overwrite: bool, dryRun: bool, markdownOptions: map<string, string>,
                                     engine: map<string, string> -> Option<string>, ioFails: bool)
    returns (r: Result<ConversionResult, ConvertError>)
    requires fs.Valid()
    modifies fs
    ensures fs.Valid()
    ensures Outcome(fs, Pdf2mdUtils.OutputFolder(a, outputDir), Pdf2mdUtils.FileName(a), pdfPath,
                    overwrite, dryRun, engine(RenderOptions(pdfPath, markdownOptions)), ioFails, r)
  {
    r := Convert(fs, Pdf2mdUtils.OutputFolder(a, outputDir), Pdf2mdUtils.FileName(a), pdfPath, overwrite, dryRun,
                 p => engine(RenderOptions(p, markdownOptions)), ioFails);
  }
}
