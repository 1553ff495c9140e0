// zotero_files2md/exporter.py: `export_library` up to the hand-over to the
// worker pools (empty list, dry-run loop, worker count, the pre-filter that
// drops duplicate and existing output paths) and `_temp_path_for_attachment`.
module Files2mdExporter {
  import opened Wrappers
  import opened Text
  import opened Models
  import opened Files
  import opened Conversion
  import opened Summary
  import opened ExportCommon
  import Files2mdUtils
  import Files2mdConverter

  /** Python's `s.rfind(c)`: the last index of `c`, or -1. */
  function RFind(s: string, c: char): (i: int)
    ensures -1 <= i < |s|
    ensures i >= 0 ==> s[i] == c
    ensures forall k :: i < k < |s| ==> s[k] != c
  {
    if s == [] then -1
    else if s[|s| - 1] == c then |s| - 1
    else RFind(s[..|s| - 1], c)
  }

  /** `PurePath(name).suffix` for a single file name: from the last "." on,
      unless that "." is the first or the last character. */
  function Suffix(name: string): (r: string)
    ensures r == [] || (|r| >= 2 && r[0] == '.' && '.' !in r[1..])
    ensures |r| <= |name| && r == name[|name| - |r|..]
    ensures r != [] ==> |r| < |name|
  {
    var i := RFind(name, '.');
    if 0 < i < |name| - 1 then
      assert name[i + 1..] == name[i..][1..];
      name[i..]
    else []
  }

  /** A name whose last "." sits strictly inside it has exactly the text
      from that "." on as suffix. */
  lemma SuffixOfDottedName(stem: string, ext: string)
    requires stem != [] && ext != [] && '.' !in ext
    ensures Suffix(stem + "." + ext) == "." + ext
  {
    var name := stem + "." + ext;
    assert name[|stem|] == '.';
    forall k | |stem| < k < |name| ensures name[k] != '.' {
      assert name[k] == ext[k - |stem| - 1];
    }
    assert RFind(name, '.') == |stem|;
    assert name[|stem|..] == "." + ext;
  }

  /** A name without "." has no suffix. */
  lemma {:induction false} SuffixOfUndottedName(name: string)
    requires '.' !in name
    ensures Suffix(name) == []
  {
    assert RFind(name, '.') == -1;
  }

  /** `_temp_path_for_attachment`: the attachment key with the suffix of the
      file name (or of the key itself), inside `baseDir`. */
  function TempPathForAttachment(baseDir: Path, a: AttachmentMetadata): (p: Path)
    ensures |p| == |baseDir| + 1 && p[..|baseDir|] == baseDir
    ensures var name := p[|baseDir|];
            |a.attachmentKey| <= |name| && name[..|a.attachmentKey|] == a.attachmentKey
            && name[|a.attachmentKey|..] == Suffix(OrText(a.filename, a.attachmentKey))
  {
    var name := a.attachmentKey + Suffix(OrText(a.filename, a.attachmentKey));
    assert name[..|a.attachmentKey|] == a.attachmentKey;
    baseDir + [name]
  }

  // ---------------------------------------------------------------------
  // The pre-filter. It is specified over the sequence of output paths, by
  // the indices of the attachments it keeps and of those it skips.

  /** The path the pre-filter computes for each attachment; `outputPath` is
      `compute_output_path` with the export's folder and naming settings. */
  function OutputPaths(atts: seq<AttachmentMetadata>, outputPath: AttachmentMetadata -> Path): (paths: seq<Path>)
    ensures |paths| == |atts|
    ensures forall i :: 0 <= i < |atts| ==> paths[i] == outputPath(atts[i])
  {
    seq(|atts|, i requires 0 <= i < |atts| => outputPath(atts[i]))
  }

  /** An output path the skip-existing rule lets through. */
  predicate Admissible(p: Path, skipExisting: bool, existing: set<Path>) {
    !(skipExisting && p in existing)
  }

  /** Attachment `i` is kept: its path is admissible and no earlier
      attachment has the same path. */
  predicate FirstClaim(paths: seq<Path>, i: nat, skipExisting: bool, existing: set<Path>)
    requires i < |paths|
  {
    Admissible(paths[i], skipExisting, existing) && paths[i] !in paths[..i]
  }

  /** The indices below `n` of the attachments that are kept, in order. */
  function KeptIndices(paths: seq<Path>, n: nat, skipExisting: bool, existing: set<Path>): (kept: seq<nat>)
    requires n <= |paths|
    ensures |kept| <= n && forall k :: 0 <= k < |kept| ==> kept[k] < n
  {
    if n == 0 then []
    else
      KeptIndices(paths, n - 1, skipExisting, existing)
      + (if FirstClaim(paths, n - 1, skipExisting, existing) then [n - 1] else [])
  }

  /** The indices below `n` of the attachments that are skipped, in order. */
  function SkippedIndices(paths: seq<Path>, n: nat, skipExisting: bool, existing: set<Path>): (skipped: seq<nat>)
    requires n <= |paths|
    ensures |skipped| <= n && forall k :: 0 <= k < |skipped| ==> skipped[k] < n
  {
    if n == 0 then []
    else
      SkippedIndices(paths, n - 1, skipExisting, existing)
      + (if FirstClaim(paths, n - 1, skipExisting, existing) then [] else [n - 1])
  }

  /** The kept indices are exactly the indices below `n` whose attachment
      claims its path first. */
  lemma {:induction false} KeptIndicesAreFirstClaims(paths: seq<Path>, n: nat, skipExisting: bool, existing: set<Path>)
    requires n <= |paths|
    ensures forall i: nat :: i in KeptIndices(paths, n, skipExisting, existing)
                             <==> i < n && FirstClaim(paths, i, skipExisting, existing)
  {
    if n > 0 {
      KeptIndicesAreFirstClaims(paths, n - 1, skipExisting, existing);
      var prev := KeptIndices(paths, n - 1, skipExisting, existing);
      var kept := KeptIndices(paths, n, skipExisting, existing);
      assert kept == prev + (if FirstClaim(paths, n - 1, skipExisting, existing) then [n - 1] else []);
      forall i: nat ensures i in kept <==> i < n && FirstClaim(paths, i, skipExisting, existing) {
        if i < n - 1 {
          assert i in kept <==> i in prev;
        }
      }
    }
  }

  /** The skipped indices are exactly the indices below `n` whose
      attachment does not claim its path first. */
  lemma {:induction false} SkippedIndicesAreTheRest(paths: seq<Path>, n: nat, skipExisting: bool, existing: set<Path>)
    requires n <= |paths|
    ensures forall i: nat :: i in SkippedIndices(paths, n, skipExisting, existing)
                             <==> i < n && !FirstClaim(paths, i, skipExisting, existing)
  {
    if n > 0 {
      SkippedIndicesAreTheRest(paths, n - 1, skipExisting, existing);
      var prev := SkippedIndices(paths, n - 1, skipExisting, existing);
      var skipped := SkippedIndices(paths, n, skipExisting, existing);
      assert skipped == prev + (if FirstClaim(paths, n - 1, skipExisting, existing) then [] else [n - 1]);
      forall i: nat ensures i in skipped <==> i < n && !FirstClaim(paths, i, skipExisting, existing) {
        if i < n - 1 {
          assert i in skipped <==> i in prev;
        }
      }
    }
  }

  /** Strictly increasing indices. */
  predicate Increasing(s: seq<nat>) {
    forall a, b :: 0 <= a < b < |s| ==> s[a] < s[b]
  }

  lemma AppendKeepsIncreasing(s: seq<nat>, x: nat)
    requires Increasing(s)
    requires forall k :: 0 <= k < |s| ==> s[k] < x
    ensures Increasing(s + [x])
  {
    forall a, b | 0 <= a < b < |s + [x]| ensures (s + [x])[a] < (s + [x])[b] {
      assert (s + [x])[a] == s[a];
    }
  }

  /** Both index lists are in increasing order, as the input is. */
  lemma {:induction false} IndicesIncrease(paths: seq<Path>, n: nat, skipExisting: bool, existing: set<Path>)
    requires n <= |paths|
    ensures Increasing(KeptIndices(paths, n, skipExisting, existing))
    ensures Increasing(SkippedIndices(paths, n, skipExisting, existing))
  {
    if n > 0 {
      IndicesIncrease(paths, n - 1, skipExisting, existing);
      var kept := KeptIndices(paths, n - 1, skipExisting, existing);
      var skipped := SkippedIndices(paths, n - 1, skipExisting, existing);
      if FirstClaim(paths, n - 1, skipExisting, existing) {
        assert KeptIndices(paths, n, skipExisting, existing) == kept + [n - 1];
        assert SkippedIndices(paths, n, skipExisting, existing) == skipped;
        AppendKeepsIncreasing(kept, n - 1);
      } else {
        assert KeptIndices(paths, n, skipExisting, existing) == kept;
        assert SkippedIndices(paths, n, skipExisting, existing) == skipped + [n - 1];
        AppendKeepsIncreasing(skipped, n - 1);
      }
    }
  }

  /** Each attachment ends up in exactly one place: kept or skipped. */
  lemma {:induction false} PreFilterPartitions(paths: seq<Path>, n: nat, skipExisting: bool, existing: set<Path>)
    requires n <= |paths|
    ensures |KeptIndices(paths, n, skipExisting, existing)| + |SkippedIndices(paths, n, skipExisting, existing)| == n
    ensures forall i :: 0 <= i < n ==>
              (i in KeptIndices(paths, n, skipExisting, existing)) != (i in SkippedIndices(paths, n, skipExisting, existing))
  {
    KeptIndicesAreFirstClaims(paths, n, skipExisting, existing);
    SkippedIndicesAreTheRest(paths, n, skipExisting, existing);
    if n > 0 {
      PreFilterPartitions(paths, n - 1, skipExisting, existing);
    }
  }

  /** The kept attachments have pairwise distinct output paths. */
  lemma KeptPathsDistinct(paths: seq<Path>, n: nat, skipExisting: bool, existing: set<Path>)
    requires n <= |paths|
    ensures var kept := KeptIndices(paths, n, skipExisting, existing);
            forall a, b :: 0 <= a < b < |kept| ==> paths[kept[a]] != paths[kept[b]]
  {
    var kept := KeptIndices(paths, n, skipExisting, existing);
    KeptIndicesAreFirstClaims(paths, n, skipExisting, existing);
    IndicesIncrease(paths, n, skipExisting, existing);
    forall a, b | 0 <= a < b < |kept| ensures paths[kept[a]] != paths[kept[b]] {
      assert kept[b] in kept && kept[a] < kept[b];
      assert FirstClaim(paths, kept[b], skipExisting, existing);
      assert paths[kept[a]] == paths[..kept[b]][kept[a]];
    }
  }

  /** The first claim wins: a skipped attachment whose path the
      skip-existing rule admits was beaten by an earlier kept attachment
      with the same path. */
  lemma {:induction false} FirstClaimWins(paths: seq<Path>, n: nat, skipExisting: bool, existing: set<Path>, i: nat)
    requires i < n <= |paths|
    requires i in SkippedIndices(paths, n, skipExisting, existing)
    requires Admissible(paths[i], skipExisting, existing)
    ensures exists j :: j in KeptIndices(paths, n, skipExisting, existing) && j < i && paths[j] == paths[i]
  {
    KeptIndicesAreFirstClaims(paths, n, skipExisting, existing);
    SkippedIndicesAreTheRest(paths, n, skipExisting, existing);
    // The earliest attachment with the same path is kept.
    var j: nat := i;
    while !FirstClaim(paths, j, skipExisting, existing)
      invariant j <= i && paths[j] == paths[i]
      decreases j
    {
      var earlier: nat :| earlier < j && paths[..j][earlier] == paths[j];
      j := earlier;
    }
    assert j in KeptIndices(paths, n, skipExisting, existing);
  }

  /** Without skip-existing, which files exist makes no difference. */
  lemma {:induction false} ExistenceIrrelevantWithoutSkipExisting(paths: seq<Path>, n: nat, e1: set<Path>, e2: set<Path>)
    requires n <= |paths|
    ensures KeptIndices(paths, n, false, e1) == KeptIndices(paths, n, false, e2)
    ensures SkippedIndices(paths, n, false, e1) == SkippedIndices(paths, n, false, e2)
  {
    if n > 0 {
      ExistenceIrrelevantWithoutSkipExisting(paths, n - 1, e1, e2);
      assert FirstClaim(paths, n - 1, false, e1) == FirstClaim(paths, n - 1, false, e2);
    }
  }

  /** The synthesized result for a skipped attachment: its file name (or
      key) as source, its output path, status skipped. */
  function SkipResult(a: AttachmentMetadata, p: Path): (r: ConversionResult)
    ensures r.status == Skipped && r.output == p
  {
    ConversionResult(PathOf(OrText(a.filename, a.attachmentKey)), p, Skipped)
  }

  /** The attachments among the first `n` that the pre-filter keeps. */
  function Work(atts: seq<AttachmentMetadata>, paths: seq<Path>, n: nat, skipExisting: bool, existing: set<Path>)
    : (work: seq<AttachmentMetadata>)
    requires n <= |atts| == |paths|
    ensures |work| <= n
  {
    if n == 0 then []
    else
      Work(atts, paths, n - 1, skipExisting, existing)
      + (if FirstClaim(paths, n - 1, skipExisting, existing) then [atts[n - 1]] else [])
  }

  /** The results the pre-filter synthesizes for the first `n` attachments. */
  function Skips(atts: seq<AttachmentMetadata>, paths: seq<Path>, n: nat, skipExisting: bool, existing: set<Path>)
    : (results: seq<ConversionResult>)
    requires n <= |atts| == |paths|
    ensures |results| <= n
  {
    if n == 0 then []
    else
      Skips(atts, paths, n - 1, skipExisting, existing)
      + (if FirstClaim(paths, n - 1, skipExisting, existing) then [] else [SkipResult(atts[n - 1], paths[n - 1])])
  }

  /** The kept attachments are those at the kept indices, in order. */
  lemma {:induction false} WorkFollowsKeptIndices(atts: seq<AttachmentMetadata>, paths: seq<Path>, n: nat,
                                                  skipExisting: bool, existing: set<Path>)
    requires n <= |atts| == |paths|
    ensures var work := Work(atts, paths, n, skipExisting, existing);
            var kept := KeptIndices(paths, n, skipExisting, existing);
            |work| == |kept| && forall k :: 0 <= k < |kept| ==> work[k] == atts[kept[k]]
  {
    if n > 0 {
      WorkFollowsKeptIndices(atts, paths, n - 1, skipExisting, existing);
    }
  }

  /** The synthesized results belong to the skipped indices, in order. */
  lemma {:induction false} SkipsFollowSkippedIndices(atts: seq<AttachmentMetadata>, paths: seq<Path>, n: nat,
                                                     skipExisting: bool, existing: set<Path>)
    requires n <= |atts| == |paths|
    ensures var results := Skips(atts, paths, n, skipExisting, existing);
            var skipped := SkippedIndices(paths, n, skipExisting, existing);
            |results| == |skipped|
            && forall k :: 0 <= k < |skipped| ==> results[k] == SkipResult(atts[skipped[k]], paths[skipped[k]])
  {
    if n > 0 {
      SkipsFollowSkippedIndices(atts, paths, n - 1, skipExisting, existing);
      var prev := Skips(atts, paths, n - 1, skipExisting, existing);
      var sk := SkippedIndices(paths, n - 1, skipExisting, existing);
      if FirstClaim(paths, n - 1, skipExisting, existing) {
        assert Skips(atts, paths, n, skipExisting, existing) == prev;
        assert SkippedIndices(paths, n, skipExisting, existing) == sk;
      } else {
        var results := prev + [SkipResult(atts[n - 1], paths[n - 1])];
        var skipped := sk + [n - 1];
        assert Skips(atts, paths, n, skipExisting, existing) == results;
        assert SkippedIndices(paths, n, skipExisting, existing) == skipped;
        forall k | 0 <= k < |skipped|
          ensures results[k] == SkipResult(atts[skipped[k]], paths[skipped[k]])
        {
          if k < |sk| {
            assert results[k] == prev[k] && skipped[k] == sk[k];
          }
        }
      }
    }
  }

  /** Without skip-existing and with pairwise distinct output paths, the
      pre-filter keeps every attachment and synthesizes no result. */
  lemma {:induction false} DistinctPathsAllKept(atts: seq<AttachmentMetadata>, paths: seq<Path>, n: nat, existing: set<Path>)
    requires n <= |atts| == |paths|
    requires forall i, j :: 0 <= i < j < |paths| ==> paths[i] != paths[j]
    ensures Work(atts, paths, n, false, existing) == atts[..n]
    ensures Skips(atts, paths, n, false, existing) == []
  {
    if n > 0 {
      DistinctPathsAllKept(atts, paths, n - 1, existing);
      var before := paths[..n - 1];
      forall k | 0 <= k < |before| ensures before[k] != paths[n - 1] {
        assert before[k] == paths[k];
      }
      assert FirstClaim(paths, n - 1, false, existing);
      assert atts[..n] == atts[..n - 1] + [atts[n - 1]];
    }
  }

  /** The output paths among the first `n` that the skip-existing rule admits:
      the `seen` set of the pre-filter after `n` attachments. */
  function SeenPaths(paths: seq<Path>, n: nat, skipExisting: bool, existing: set<Path>): (seen: set<Path>)
    requires n <= |paths|
    ensures forall p :: p in seen ==> Admissible(p, skipExisting, existing)
  {
    if n == 0 then {}
    else SeenPaths(paths, n - 1, skipExisting, existing)
         + (if Admissible(paths[n - 1], skipExisting, existing) then {paths[n - 1]} else {})
  }

  /** The seen set holds exactly the admissible paths among the first `n`. */
  lemma {:induction false} SeenPathsAreAdmittedPrefix(paths: seq<Path>, n: nat, skipExisting: bool, existing: set<Path>)
    requires n <= |paths|
    ensures forall p :: p in SeenPaths(paths, n, skipExisting, existing)
                        <==> p in paths[..n] && Admissible(p, skipExisting, existing)
  {
    if n > 0 {
      SeenPathsAreAdmittedPrefix(paths, n - 1, skipExisting, existing);
      assert paths[..n] == paths[..n - 1] + [paths[n - 1]];
    }
  }

  /** Attachment `n` is kept exactly when its path is admissible and not yet seen. */
  lemma FirstClaimBySeen(paths: seq<Path>, n: nat, skipExisting: bool, existing: set<Path>)
    requires n < |paths|
    ensures FirstClaim(paths, n, skipExisting, existing)
            <==> Admissible(paths[n], skipExisting, existing) && paths[n] !in SeenPaths(paths, n, skipExisting, existing)
  {
    SeenPathsAreAdmittedPrefix(paths, n, skipExisting, existing);
  }

  /** The pre-filter loop of `export_library`: the attachments to process
      and the results synthesized for the others, both in input order. */
  method PreFilter(atts: seq<AttachmentMetadata>, outputPath: AttachmentMetadata -> Path,
                   skipExisting: bool, existing: set<Path>)
    returns (work: seq<AttachmentMetadata>, results: seq<ConversionResult>)
    ensures work == Work(atts, OutputPaths(atts, outputPath), |atts|, skipExisting, existing)
    ensures results == Skips(atts, OutputPaths(atts, outputPath), |atts|, skipExisting, existing)
  {
    ghost var paths := OutputPaths(atts, outputPath);
    work := [];
    results := [];
    var seen: set<Path> := {};
    var n := 0;
    while n < |atts|
      invariant n <= |atts|
      invariant seen == SeenPaths(paths, n, skipExisting, existing)
      invariant work == Work(atts, paths, n, skipExisting, existing)
      invariant results == Skips(atts, paths, n, skipExisting, existing)
    {
      var p := outputPath(atts[n]);
      assert p == paths[n];
      FirstClaimBySeen(paths, n, skipExisting, existing);
      if p in seen || (skipExisting && p in existing) {
        assert !FirstClaim(paths, n, skipExisting, existing);
        results := results + [SkipResult(atts[n], p)];
      } else {
        assert FirstClaim(paths, n, skipExisting, existing);
        seen := seen + {p};
        work := work + [atts[n]];
      }
      n := n + 1;
    }
  }

  // ---------------------------------------------------------------------
  // `export_library`.

  /** `compute_output_path(attachment, output_dir)`, as the pre-filter calls it. */
  function DefaultPathIn(outputDir: Path): AttachmentMetadata -> Path {
    a => Files2mdUtils.DefaultOutputPath(a, outputDir)
  }

  /** The folders the converter writes the attachments into. */
  function ConverterFolders(atts: seq<AttachmentMetadata>, outputDir: Path): (r: seq<Path>)
    ensures |r| == |atts| && forall i :: 0 <= i < |atts| ==> r[i] == Files2mdConverter.OutputFolder(atts[i], outputDir)
  {
    seq(|atts|, i requires 0 <= i < |atts| => Files2mdConverter.OutputFolder(atts[i], outputDir))
  }

  /** The file names the converter gives the attachments. */
  function ConverterNames(atts: seq<AttachmentMetadata>): (r: seq<string>)
    ensures |r| == |atts| && forall i :: 0 <= i < |atts| ==> r[i] == Files2mdUtils.FileName(atts[i])
  {
    seq(|atts|, i requires 0 <= i < |atts| => Files2mdUtils.FileName(atts[i]))
  }

  /** The temporary download paths of the attachments. */
  function TempPaths(atts: seq<AttachmentMetadata>, tempDir: Path): (r: seq<Path>)
    ensures |r| == |atts| && forall i :: 0 <= i < |atts| ==> r[i] == TempPathForAttachment(tempDir, atts[i])
  {
    seq(|atts|, i requires 0 <= i < |atts| => TempPathForAttachment(tempDir, atts[i]))
  }

  /** The download jobs for the attachments that survive the pre-filter. */
  function Jobs(work: seq<AttachmentMetadata>, tempDir: Path): (jobs: seq<Job>)
    ensures |jobs| == |work|
    ensures forall i :: 0 <= i < |work| ==> jobs[i] == Job(work[i], TempPathForAttachment(tempDir, work[i]))
  {
    seq(|work|, i requires 0 <= i < |work| => Job(work[i], TempPathForAttachment(tempDir, work[i])))
  }

  /** What `export_library` does after the pre-filter, outside dry-run: stop
      with the synthesized results when nothing is left, or dispatch the
      remaining attachments. */
  function PlanAfterPreFilter(atts: seq<AttachmentMetadata>, tempDir: Path, outputDir: Path,
                              skipExisting: bool, existing: set<Path>, maxWorkers: Option<int>): (plan: Plan)
    ensures plan.Dispatch? ==> plan.workers >= 1 && 0 < |plan.jobs| <= |atts|
    ensures plan.Dispatch? ==> |plan.jobs| + |plan.preResults| == |atts|
    ensures plan.Done? ==> plan.summary.processed == |atts| && plan.summary.converted == 0
  {
    var paths := OutputPaths(atts, DefaultPathIn(outputDir));
    var work := Work(atts, paths, |atts|, skipExisting, existing);
    var pre := Skips(atts, paths, |atts|, skipExisting, existing);
    WorkAndSkipsPartition(atts, paths, |atts|, skipExisting, existing);
    if work == [] then
      SkipsAreSkipped(atts, paths, |atts|, skipExisting, existing);
      CountStatusAbsent(pre, Converted);
      Done(SummarizeResults(pre))
    else
      Dispatch(DownloadWorkers(maxWorkers, |atts|), Jobs(work, tempDir), pre)
  }

  /** Every attachment goes to exactly one of the two lists. */
  lemma {:induction false} WorkAndSkipsPartition(atts: seq<AttachmentMetadata>, paths: seq<Path>, n: nat,
                                                 skipExisting: bool, existing: set<Path>)
    requires n <= |atts| == |paths|
    ensures |Work(atts, paths, n, skipExisting, existing)| + |Skips(atts, paths, n, skipExisting, existing)| == n
  {
    if n > 0 {
      WorkAndSkipsPartition(atts, paths, n - 1, skipExisting, existing);
    }
  }

  /** Every synthesized result has status skipped. */
  lemma {:induction false} SkipsAreSkipped(atts: seq<AttachmentMetadata>, paths: seq<Path>, n: nat,
                                           skipExisting: bool, existing: set<Path>)
    requires n <= |atts| == |paths|
    ensures forall k :: 0 <= k < |Skips(atts, paths, n, skipExisting, existing)| ==>
                          Skips(atts, paths, n, skipExisting, existing)[k].status == Skipped
  {
    if n > 0 {
      SkipsAreSkipped(atts, paths, n - 1, skipExisting, existing);
    }
  }

  /** The pre-filter loop as the source is written. For each attachment
      whose output path is not already seen it reads `skip_existing` from
      the settings, which declare no such field, so that read raises
      `AttributeError`. The seen set grows only after the read, so it stays
      as given until the raise. The result is the index of the attachment
      at which the loop raises, or None when every path is already seen. */
  function PreFilterRaisesAt(paths: seq<Path>, n: nat, seen: set<Path>): (i: Option<nat>)
    requires n <= |paths|
    ensures i.Some? ==> n <= i.value < |paths| && paths[i.value] !in seen
                        && forall k :: n <= k < i.value ==> paths[k] in seen
    ensures i.None? ==> forall k :: n <= k < |paths| ==> paths[k] in seen
    decreases |paths| - n
  {
    if n == |paths| then None
    else if paths[n] in seen then PreFilterRaisesAt(paths, n + 1, seen)
    else Some(n)
  }

  /** As written, every non-empty export that is not a dry run raises at its
      first attachment, before any download. */
  lemma PreFilterAsWrittenRaisesAtFirst(paths: seq<Path>)
    requires paths != []
    ensures PreFilterRaisesAt(paths, 0, {}) == Some(0)
  {
  }

  /** With the setting supplied, the pre-filter keeps the first attachment
      unless `skip_existing` is on and its output already exists. */
  lemma PreFilterKeepsFirst(paths: seq<Path>, skipExisting: bool, existing: set<Path>)
    requires paths != []
    ensures 0 in KeptIndices(paths, |paths|, skipExisting, existing) <==> !(skipExisting && paths[0] in existing)
  {
    KeptIndicesAreFirstClaims(paths, |paths|, skipExisting, existing);
    assert paths[..0] == [];
  }

  /** `export_library` up to the hand-over to the worker pools. The
      settings it reads are parameters; `existing` paths are those of the
      filesystem when the export starts. */
  method ExportLibrary(fs: FileSystem, atts: seq<AttachmentMetadata>, tempDir: Path, outputDir: Path,
                       overwrite: bool, dryRun: bool, skipExisting: bool, maxWorkers: Option<int>,
                       render: Path -> Option<string>)
    returns (r: Result<Plan, ConvertError>)
    requires fs.Valid()
    modifies fs
    ensures fs.Valid() && fs.files == old(fs.files)
    ensures atts == [] ==> r == Ok(Done(SummarizeResults([]))) && fs.dirs == old(fs.dirs)
    ensures atts != [] && dryRun ==>
              (r.Ok? <==> forall i :: 0 <= i < |atts| ==> !old(fs.Blocked(ConverterFolders(atts, outputDir)[i])))
    ensures atts != [] && dryRun && r.Ok? ==>
              r.value.Done? && r.value.summary.processed == |atts| && r.value.summary.converted == 0
              && |r.value.summary.outputPaths| == |atts|
              && forall i :: 0 <= i < |atts| ==>
                   r.value.summary.outputPaths[i] == ConverterFolders(atts, outputDir)[i] + [ConverterNames(atts)[i]]
    ensures atts != [] && dryRun && r.Ok? ==>
              r.value == Done(SummarizeResults(DryRunResults(old(fs.files.Keys), old(fs.dirs),
                                                             ConverterFolders(atts, outputDir), ConverterNames(atts),
                                                             TempPaths(atts, tempDir), overwrite, |atts|)))
    ensures atts != [] && !dryRun ==>
              fs.dirs == old(fs.dirs)
              && r == Ok(PlanAfterPreFilter(atts, tempDir, outputDir, skipExisting, old(fs.files.Keys + fs.dirs), maxWorkers))
  {
    if |atts| == 0 {
      return Ok(Done(SummarizeResults([])));
    }
    if dryRun {
      r := DryRunExport(fs, ConverterFolders(atts, outputDir), ConverterNames(atts), TempPaths(atts, tempDir),
                        overwrite, render);
      return;
    }
    var workers := DownloadWorkers(maxWorkers, |atts|);
    var work, pre := PreFilter(atts, DefaultPathIn(outputDir), skipExisting, fs.files.Keys + fs.dirs);
    if work == [] {
      r := Ok(PlanAfterPreFilter(atts, tempDir, outputDir, skipExisting, fs.files.Keys + fs.dirs, maxWorkers));
      assert r == Ok(Done(SummarizeResults(pre)));
    } else {
      r := Ok(Dispatch(workers, Jobs(work, tempDir), pre));
    }
  }
}
