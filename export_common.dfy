// What both revisions' exporter.py share around `export_library`: the
// dry-run loop, in which every attachment goes through the converter with
// its temporary path (never downloaded) and `dry_run` set, and the
// concurrent download-and-convert stage, described by the jobs it is handed
// and the outcomes it collects.
module ExportCommon {
  import opened Wrappers
  import opened Models
  import opened Files
  import opened Conversion
  import opened Summary
  import opened Bags

  /** The directories the converter creates for the first `n` folders. */
  function FolderAncestry(folders: seq<Path>, n: nat): (r: set<Path>)
    requires n <= |folders|
    ensures forall i :: 0 <= i < n ==> Ancestry(folders[i]) <= r
  {
    if n == 0 then {} else FolderAncestry(folders, n - 1) + Ancestry(folders[n - 1])
  }

  /** The results the dry-run loop gives the first `n` attachments when the
      export starts with files `files` and directories `dirs`. The
      converter creates each folder before it looks at the output, so an
      output that is a directory created for an earlier or the same
      attachment also counts as existing. An existing output without
      `overwrite` is skipped, and every other one is reported as dry-run. */
  function DryRunResults(files: set<Path>, dirs: set<Path>, folders: seq<Path>, names: seq<string>,
                         sources: seq<Path>, overwrite: bool, n: nat): (r: seq<ConversionResult>)
    requires n <= |folders| == |names| == |sources|
    ensures |r| == n
    ensures forall i :: 0 <= i < n ==>
              var out := folders[i] + [names[i]];
              r[i].source == sources[i] && r[i].output == out
              && (r[i].status == Skipped <==> !overwrite && (out in files || out in dirs + FolderAncestry(folders, i + 1)))
              && (r[i].status == DryRun <==> overwrite || (out !in files && out !in dirs + FolderAncestry(folders, i + 1)))
  {
    if n == 0 then []
    else
      var out := folders[n - 1] + [names[n - 1]];
      var known := files + dirs + FolderAncestry(folders, n);
      DryRunResults(files, dirs, folders, names, sources, overwrite, n - 1)
      + [ConversionResult(sources[n - 1], out, if !overwrite && out in known then Skipped else DryRun)]
  }

  /** One more attachment appends its dry-run result. */
  lemma DryRunStep(files: set<Path>, dirs: set<Path>, folders: seq<Path>, names: seq<string>,
                   sources: seq<Path>, overwrite: bool, n: nat, known: set<Path>, res: ConversionResult)
    requires n < |folders| == |names| == |sources|
    requires known == files + dirs + FolderAncestry(folders, n + 1)
    requires var out := folders[n] + [names[n]];
             res == ConversionResult(sources[n], out, if !overwrite && out in known then Skipped else DryRun)
    ensures DryRunResults(files, dirs, folders, names, sources, overwrite, n) + [res]
            == DryRunResults(files, dirs, folders, names, sources, overwrite, n + 1)
  {
  }

  /** No dry-run result is converted, so the skipped and dry-run counts
      share out all the attachments; with `overwrite` every one of them is a
      dry-run result. */
  lemma DryRunCounts(files: set<Path>, dirs: set<Path>, folders: seq<Path>, names: seq<string>,
                     sources: seq<Path>, overwrite: bool)
    requires |folders| == |names| == |sources|
    ensures var s := SummarizeResults(DryRunResults(files, dirs, folders, names, sources, overwrite, |folders|));
            s.converted == 0 && s.skipped + s.dryRun == |folders|
            && (overwrite ==> s.skipped == 0 && s.dryRun == |folders|)
  {
    var results := DryRunResults(files, dirs, folders, names, sources, overwrite, |folders|);
    CountStatusAbsent(results, Converted);
    if overwrite {
      CountStatusAbsent(results, Skipped);
    }
  }

  /** `convert_attachment_to_markdown` with `dry_run` set: the folder is
      created or the call raises, and the output is skipped when it exists
      without `overwrite`, reported as dry-run otherwise. */
  method DryRunOne(fs: FileSystem, folder: Path, name: string, source: Path, overwrite: bool,
                   render: Path -> Option<string>)
    returns (r: Result<ConversionResult, ConvertError>)
    requires fs.Valid()
    modifies fs
    ensures fs.Valid() && fs.files == old(fs.files)
    ensures r.Err? <==> old(fs.Blocked(folder))
    ensures r.Err? ==> r.error == DirectoryNotCreated(folder)
    ensures r.Ok? ==> fs.dirs == old(fs.dirs) + Ancestry(folder)
    ensures r.Ok? ==> var out := folder + [name];
                      r.value == ConversionResult(source, out, if !overwrite && out in fs.files.Keys + fs.dirs
                                                               then Skipped else DryRun)
  {
    r := Convert(fs, folder, name, source, overwrite, true, render, false);
  }

  /** The dry-run loop over attachments whose converter folders, file names
      and temporary paths are `folders`, `names` and `sources`. Nothing is
      written, the folders are created, and the first folder that cannot be
      created aborts the export. */
  method DryRunAll(fs: FileSystem, folders: seq<Path>, names: seq<string>, sources: seq<Path>,
                   overwrite: bool, render: Path -> Option<string>)
    returns (r: Result<seq<ConversionResult>, ConvertError>)
    requires |folders| == |names| == |sources|
    requires fs.Valid()
    modifies fs
    ensures fs.Valid() && fs.files == old(fs.files)
    ensures r.Ok? <==> forall i :: 0 <= i < |folders| ==> !old(fs.Blocked(folders[i]))
    ensures r.Err? ==> exists i :: 0 <= i < |folders| && old(fs.Blocked(folders[i]))
                                   && r.error == DirectoryNotCreated(folders[i])
    ensures r.Ok? ==> fs.dirs == old(fs.dirs) + FolderAncestry(folders, |folders|)
    ensures r.Ok? ==> r.value == DryRunResults(old(fs.files.Keys), old(fs.dirs), folders, names, sources, overwrite, |folders|)
  {
    ghost var files0, dirs0 := fs.files.Keys, fs.dirs;
    var results: seq<ConversionResult> := [];
    var n := 0;
    while n < |folders|
      invariant n <= |folders| && |results| == n
      invariant fs.Valid() && fs.files == old(fs.files)
      invariant fs.dirs == dirs0 + FolderAncestry(folders, n)
      invariant forall i :: 0 <= i < n ==> !fs.Blocked(folders[i])
      invariant results == DryRunResults(files0, dirs0, folders, names, sources, overwrite, n)
    {
      var one := DryRunOne(fs, folders[n], names[n], sources[n], overwrite, render);
      if one.Err? {
        return Err(one.error);
      }
      DryRunStep(files0, dirs0, folders, names, sources, overwrite, n, fs.files.Keys + fs.dirs, one.value);
      results := results + [one.value];
      n := n + 1;
    }
    r := Ok(results);
  }

  /** The dry-run branch of `export_library`: the summary of the dry-run
      results, one per attachment, none of them converted. */
  method DryRunExport(fs: FileSystem, folders: seq<Path>, names: seq<string>, sources: seq<Path>,
                      overwrite: bool, render: Path -> Option<string>)
    returns (r: Result<Plan, ConvertError>)
    requires |folders| == |names| == |sources|
    requires fs.Valid()
    modifies fs
    ensures fs.Valid() && fs.files == old(fs.files)
    ensures r.Ok? <==> forall i :: 0 <= i < |folders| ==> !old(fs.Blocked(folders[i]))
    ensures r.Ok? ==>
              r.value.Done? && r.value.summary.processed == |folders| && r.value.summary.converted == 0
              && |r.value.summary.outputPaths| == |folders|
              && forall i :: 0 <= i < |folders| ==> r.value.summary.outputPaths[i] == folders[i] + [names[i]]
    ensures r.Ok? ==>
              r.value == Done(SummarizeResults(DryRunResults(old(fs.files.Keys), old(fs.dirs), folders, names,
                                                             sources, overwrite, |folders|)))
  {
    var results := DryRunAll(fs, folders, names, sources, overwrite, render);
    if results.Err? {
      return Err(results.error);
    }
    CountStatusAbsent(results.value, Converted);
    r := Ok(Done(SummarizeResults(results.value)));
  }

  /** One attachment to download to `filePath` and then convert. */
  datatype Job = Job(attachment: AttachmentMetadata, filePath: Path)

  /** Where `export_library` stands once the sequential part is done: either
      the summary is final, or the jobs go to the worker pools with
      `workers` download threads, after the results already synthesized. */
  datatype Plan =
    | Done(summary: ExportSummary)
    | Dispatch(workers: int, jobs: seq<Job>, preResults: seq<ConversionResult>)

  /** How one dispatched job ends: its download raised (logged, dropped),
      its conversion raised (logged, dropped), or it produced a result. */
  datatype JobOutcome = DownloadFailed | ConversionFailed | Finished(result: ConversionResult)

  /** The results `as_completed` collects, in completion order. */
  function Collected(outcomes: seq<JobOutcome>): (r: seq<ConversionResult>)
    ensures |r| <= |outcomes|
  {
    if outcomes == [] then []
    else Collected(outcomes[..|outcomes| - 1])
         + (if outcomes[|outcomes| - 1].Finished? then [outcomes[|outcomes| - 1].result] else [])
  }

  /** Whether a job produced a result at all, and whether it produced one
      with status `st`. */
  function IsFinished(): JobOutcome -> bool
  {
    (o: JobOutcome) => o.Finished?
  }

  function FinishedWith(st: Status): JobOutcome -> bool
  {
    (o: JobOutcome) => o.Finished? && o.result.status == st
  }

  /** The collected results are one per finished job, and those with status
      `st` are one per job that finished with it. */
  lemma {:induction false} CollectedCounts(outcomes: seq<JobOutcome>, st: Status)
    ensures |Collected(outcomes)| == Count(outcomes, IsFinished())
    ensures CountStatus(Collected(outcomes), st) == Count(outcomes, FinishedWith(st))
    decreases |outcomes|
  {
    if outcomes != [] {
      var rest, last := outcomes[..|outcomes| - 1], outcomes[|outcomes| - 1];
      CollectedCounts(rest, st);
      var tail := if last.Finished? then [last.result] else [];
      assert Collected(outcomes) == Collected(rest) + tail;
      CountStatusAppend(Collected(rest), tail, st);
      if last.Finished? {
        assert CountStatus(tail, st) == if last.result.status == st then 1 else 0 by {
          assert tail[..0] == [];
        }
      }
    }
  }

  /** The summary `export_library` returns after the dispatched jobs end
      with `outcomes`, in completion order. */
  function FinishExport(preResults: seq<ConversionResult>, outcomes: seq<JobOutcome>): (s: ExportSummary)
    ensures |preResults| <= s.processed <= |preResults| + |outcomes|
  {
    SummarizeResults(preResults + Collected(outcomes))
  }

  /** The counts of the final summary do not depend on the order in which
      the workers finish. */
  lemma FinishExportOrderIrrelevant(preResults: seq<ConversionResult>, a: seq<JobOutcome>, b: seq<JobOutcome>)
    requires multiset(a) == multiset(b)
    ensures var sa := FinishExport(preResults, a);
            var sb := FinishExport(preResults, b);
            sa.processed == sb.processed && sa.converted == sb.converted
            && sa.skipped == sb.skipped && sa.dryRun == sb.dryRun
  {
    forall st: Status
      ensures CountStatus(preResults + Collected(a), st) == CountStatus(preResults + Collected(b), st)
    {
      CountStatusAppend(preResults, Collected(a), st);
      CountStatusAppend(preResults, Collected(b), st);
      CollectedCounts(a, st);
      CollectedCounts(b, st);
      CountPermutation(a, b, FinishedWith(st));
    }
    CollectedCounts(a, Converted);
    CollectedCounts(b, Converted);
    CountPermutation(a, b, IsFinished());
  }

  /** Jobs whose download raised contribute nothing to the collected results. */
  lemma {:induction false} CollectedAllFailed(outcomes: seq<JobOutcome>)
    requires forall i :: 0 <= i < |outcomes| ==> outcomes[i].DownloadFailed?
    ensures Collected(outcomes) == []
    decreases |outcomes|
  {
    if outcomes != [] {
      CollectedAllFailed(outcomes[..|outcomes| - 1]);
    }
  }

  /** In the newer revision as written, `download_and_save` calls
      `download_attachment`, which its client does not define, so every
      dispatched download raises, is logged and dropped. The summary is then
      exactly that of the results synthesized before dispatch: nothing is
      converted. */
  lemma AllDownloadsFailed(preResults: seq<ConversionResult>, outcomes: seq<JobOutcome>)
    requires forall i :: 0 <= i < |outcomes| ==> outcomes[i].DownloadFailed?
    ensures FinishExport(preResults, outcomes) == SummarizeResults(preResults)
  {
    CollectedAllFailed(outcomes);
    assert preResults + Collected(outcomes) == preResults;
  }

  /** Every job that finishes contributes one collected result. */
  lemma {:induction false} CollectedAllFinished(outcomes: seq<JobOutcome>)
    requires forall i :: 0 <= i < |outcomes| ==> outcomes[i].Finished?
    ensures |Collected(outcomes)| == |outcomes|
    decreases |outcomes|
  {
    if outcomes != [] {
      CollectedAllFinished(outcomes[..|outcomes| - 1]);
    }
  }

  /** With a client that downloads, every job that finishes reports its
      result, after the synthesized ones. */
  lemma AllJobsFinished(preResults: seq<ConversionResult>, outcomes: seq<JobOutcome>)
    requires forall i :: 0 <= i < |outcomes| ==> outcomes[i].Finished?
    ensures FinishExport(preResults, outcomes).processed == |preResults| + |outcomes|
  {
    CollectedAllFinished(outcomes);
  }

  /** The `i`-th collected result is that of the `i`-th job to finish, when
      every job finishes: `as_completed` order is kept. */
  lemma {:induction false} FinishedJobAt(outcomes: seq<JobOutcome>, i: nat)
    requires forall k :: 0 <= k < |outcomes| ==> outcomes[k].Finished?
    requires i < |outcomes|
    ensures |Collected(outcomes)| == |outcomes| && Collected(outcomes)[i] == outcomes[i].result
    decreases |outcomes|
  {
    var rest, last := outcomes[..|outcomes| - 1], outcomes[|outcomes| - 1];
    CollectedAllFinished(outcomes);
    CollectedAllFinished(rest);
    var c := Collected(outcomes);
    assert c == Collected(rest) + [last.result];
    if i < |rest| {
      FinishedJobAt(rest, i);
      assert c[i] == Collected(rest)[i];
    } else {
      assert c[i] == last.result;
    }
  }
}
