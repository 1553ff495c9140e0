// zotero_pdf2md/utils.py: the older `slugify` (whose fallback is used as
// given, without cleaning), `flatten` and `compute_output_path`.
module Pdf2mdUtils {
  import opened Wrappers
  import opened Text
  import opened Slug
  import opened Models
  import Files2mdUtils

  /** The older `slugify`: the cleaned `value` when that is not empty,
      otherwise `fallback` exactly as given; cut to 120 characters. */
  function Slugify(value: Option<string>, fallback: string): (r: string)
    ensures |r| <= MaxSlugLength
    ensures var v := CleanSlugText(OrText(value, ""));
            v != "" ==> r != [] && |r| <= |v| && r == v[..|r|] && AllSlugChars(r) && NoDoubleDash(r)
    ensures var v := CleanSlugText(OrText(value, ""));
            v == "" ==> |r| <= |fallback| && r == fallback[..|r|]
    ensures |r| == MaxSlugLength || r == CleanSlugText(OrText(value, "")) || r == fallback
    ensures r == [] <==> CleanSlugText(OrText(value, "")) == "" && fallback == []
    ensures CleanSlugText(OrText(value, "")) != "" ==> r == Truncate(CleanSlugText(OrText(value, "")), MaxSlugLength)
    ensures CleanSlugText(OrText(value, "")) == "" ==> r == Truncate(fallback, MaxSlugLength)
  {
    var v := CleanSlugText(OrText(value, ""));
    if v != "" then
      TruncateClean(v, MaxSlugLength);
      Truncate(v, MaxSlugLength)
    else
      Truncate(fallback, MaxSlugLength)
  }

  /** The slug-character promise of the docstring does not hold for the
      fallback: with no title the fallback "a b" comes back with its space. */
  lemma UncleanFallbackIsKept()
    ensures Slugify(None, "a b") == "a b"
    ensures !AllSlugChars(Slugify(None, "a b"))
  {
    assert CleanSlugText("") == "" by {
      CleanSlugTextFixpoints("");
    }
    assert !IsSlugChar("a b"[1]);
  }

  /** The two revisions agree whenever the newer one would not need to clean
      the fallback: when `value` cleans to something, or when the fallback is
      already a non-empty slug of at most 120 characters. */
  lemma {:induction false} SlugifyRevisionsAgree(value: Option<string>, fallback: string)
    requires CleanSlugText(OrText(value, "")) != "" || (IsClean(fallback) && fallback != [])
    ensures Slugify(value, fallback) == Files2mdUtils.Slugify(value, fallback)
  {
    Files2mdUtils.SlugifyValue(value, fallback);
    if CleanSlugText(OrText(value, "")) == "" {
      CleanSlugTextFixpoints(fallback);
      Files2mdUtils.SlugifyNone(fallback);
    }
  }

  /** `flatten`: every value of every inner collection, once. */
  method Flatten(iterables: seq<seq<string>>) returns (result: set<string>)
    ensures forall x :: x in result <==> exists i :: 0 <= i < |iterables| && x in iterables[i]
  {
    result := {};
    var n := 0;
    while n < |iterables|
      invariant n <= |iterables|
      invariant forall x :: x in result <==> exists i :: 0 <= i < n && x in iterables[i]
    {
      result := result + set x | x in iterables[n];
      n := n + 1;
    }
  }

  /** The folder of `compute_output_path`: the parent title's slug, falling
      back to the parent item key as it is (not cleaned), else "item". */
  function OutputFolder(a: AttachmentMetadata, outputDir: Path): (d: Path)
    ensures |d| == |outputDir| + 1 && d[..|outputDir|] == outputDir
    ensures |d[|outputDir|]| <= MaxSlugLength
    ensures CleanSlugText(OrText(a.parentTitle, "")) != "" ==>
              d[|outputDir|] == Truncate(CleanSlugText(OrText(a.parentTitle, "")), MaxSlugLength)
    ensures CleanSlugText(OrText(a.parentTitle, "")) == "" && Truthy(a.parentItemKey) ==>
              d[|outputDir|] == Truncate(a.parentItemKey.value, MaxSlugLength)
    ensures CleanSlugText(OrText(a.parentTitle, "")) == "" && !Truthy(a.parentItemKey) ==>
              d[|outputDir|] == "item"
  {
    outputDir + [Slugify(a.parentTitle, OrText(a.parentItemKey, "item"))]
  }

  /** The file name: the title's slug, falling back to the attachment key,
      with ".md" appended. */
  function FileName(a: AttachmentMetadata): (name: string)
    ensures 3 <= |name| <= MaxSlugLength + 3 && name[|name| - 3..] == ".md"
    ensures CleanSlugText(OrText(a.title, "")) != "" ==>
              name == Truncate(CleanSlugText(OrText(a.title, "")), MaxSlugLength) + ".md"
    ensures CleanSlugText(OrText(a.title, "")) == "" ==> name == Truncate(a.attachmentKey, MaxSlugLength) + ".md"
  {
    var stem := Slugify(a.title, a.attachmentKey);
    var name := stem + ".md";
    assert name[|name| - 3..] == ".md";
    name
  }

  /** `compute_output_path`: `output_dir / parent slug / (title slug + ".md")`. */
  function ComputeOutputPath(a: AttachmentMetadata, outputDir: Path): (r: Path)
    ensures |r| == |outputDir| + 2 && r[..|outputDir|] == outputDir
    ensures r[..|outputDir| + 1] == OutputFolder(a, outputDir)
    ensures r[|outputDir| + 1] == FileName(a)
  {
    var folder := Slugify(a.parentTitle, OrText(a.parentItemKey, "item"));
    AppendTwo(outputDir, folder, FileName(a));
    OutputFolder(a, outputDir) + [FileName(a)]
  }

  /** With neither title nor a clean attachment key the file name carries
      the attachment key as it is, so the path may hold characters outside
      the slug set; with a parent item key that is a slug and a title that
      cleans to something, both components are slugs. */
  lemma {:induction false} OutputPathIsSlugWithCleanFallbacks(a: AttachmentMetadata, outputDir: Path)
    requires CleanSlugText(OrText(a.title, "")) != ""
    requires CleanSlugText(OrText(a.parentTitle, "")) != "" || IsClean(OrText(a.parentItemKey, "item"))
    ensures AllSlugChars(ComputeOutputPath(a, outputDir)[|outputDir|])
    ensures var name := ComputeOutputPath(a, outputDir)[|outputDir| + 1];
            AllSlugChars(name[..|name| - 3])
  {
    var fb := OrText(a.parentItemKey, "item");
    var folder := Slugify(a.parentTitle, fb);
    if CleanSlugText(OrText(a.parentTitle, "")) == "" {
      assert folder == Truncate(fb, MaxSlugLength);
      if fb != [] {
        TruncateClean(fb, MaxSlugLength);
      }
    }
    assert OutputFolder(a, outputDir)[|outputDir|] == folder;
    var stem := Slugify(a.title, a.attachmentKey);
    assert FileName(a) == stem + ".md";
    assert (stem + ".md")[..|stem|] == stem;
  }
}
