// `ExportSummary`, `summarize_results` and the download worker count, which
// both revisions' exporter.py write the same way.
module Summary {
  import opened Wrappers
  import opened Models
  import opened Conversion
  import opened Bags

  /** Summary of a full export run. */
  datatype ExportSummary = ExportSummary(
    processed: nat, converted: nat, skipped: nat, dryRun: nat, outputPaths: seq<Path>)

  /** Whether a result carries status `st`. */
  function HasStatus(st: Status): ConversionResult -> bool
  {
    (r: ConversionResult) => r.status == st
  }

  /** How many results carry status `st`. */
  function CountStatus(results: seq<ConversionResult>, st: Status): (c: nat)
    ensures c <= |results|
    ensures results != [] ==>
              c == CountStatus(results[..|results| - 1], st) + (if results[|results| - 1].status == st then 1 else 0)
  {
    Count(results, HasStatus(st))
  }

  /** Counting over a concatenation adds the counts of the two parts. */
  lemma CountStatusAppend(a: seq<ConversionResult>, b: seq<ConversionResult>, st: Status)
    ensures CountStatus(a + b, st) == CountStatus(a, st) + CountStatus(b, st)
  {
    CountAppend(a, b, HasStatus(st));
  }

  /** Every result has exactly one of the three statuses, so the three
      counts add up to the number of results. */
  lemma {:induction false} CountsPartition(results: seq<ConversionResult>)
    ensures CountStatus(results, Converted) + CountStatus(results, Skipped) + CountStatus(results, DryRun) == |results|
  {
    if results != [] {
      CountsPartition(results[..|results| - 1]);
    }
  }

  /** No result with status `st`, no count for it. */
  lemma {:induction false} CountStatusAbsent(results: seq<ConversionResult>, st: Status)
    requires forall i :: 0 <= i < |results| ==> results[i].status != st
    ensures CountStatus(results, st) == 0
  {
    if results != [] {
      CountStatusAbsent(results[..|results| - 1], st);
    }
  }

  /** Counting does not depend on the order of the results: `as_completed`
      hands them over in whatever order the workers finish. */
  lemma CountStatusPermutation(a: seq<ConversionResult>, b: seq<ConversionResult>, st: Status)
    requires multiset(a) == multiset(b)
    ensures CountStatus(a, st) == CountStatus(b, st)
  {
    CountPermutation(a, b, HasStatus(st));
  }

  /** `summarize_results`: how many results there are, how many of each
      status, and the output paths in result order. */
  function SummarizeResults(results: seq<ConversionResult>): (s: ExportSummary)
    ensures s.processed == |results|
    ensures s.converted + s.skipped + s.dryRun == s.processed
    ensures |s.outputPaths| == |results|
    ensures forall i :: 0 <= i < |results| ==> s.outputPaths[i] == results[i].output
    ensures results == [] ==> s == ExportSummary(0, 0, 0, 0, [])
  {
    CountsPartition(results);
    ExportSummary(|results|, CountStatus(results, Converted), CountStatus(results, Skipped),
                  CountStatus(results, DryRun), seq(|results|, i requires 0 <= i < |results| => results[i].output))
  }

  /** Summaries of consecutive batches add up, field by field. */
  lemma SummarizeAppend(a: seq<ConversionResult>, b: seq<ConversionResult>)
    ensures var s := SummarizeResults(a + b);
            var sa := SummarizeResults(a);
            var sb := SummarizeResults(b);
            s.converted == sa.converted + sb.converted
            && s.skipped == sa.skipped + sb.skipped
            && s.dryRun == sa.dryRun + sb.dryRun
            && s.outputPaths == sa.outputPaths + sb.outputPaths
  {
    CountStatusAppend(a, b, Converted);
    CountStatusAppend(a, b, Skipped);
    CountStatusAppend(a, b, DryRun);
    OutputPathsAppend(SummarizeResults(a + b).outputPaths, SummarizeResults(a).outputPaths,
                      SummarizeResults(b).outputPaths, a, b);
  }

  /** Paths listed one per result of `a + b` are those of `a`, then those of `b`. */
  lemma OutputPathsAppend(p: seq<Path>, pa: seq<Path>, pb: seq<Path>, a: seq<ConversionResult>, b: seq<ConversionResult>)
    requires |p| == |a + b| && |pa| == |a| && |pb| == |b|
    requires forall i :: 0 <= i < |a + b| ==> p[i] == (a + b)[i].output
    requires forall i :: 0 <= i < |a| ==> pa[i] == a[i].output
    requires forall i :: 0 <= i < |b| ==> pb[i] == b[i].output
    ensures p == pa + pb
  {
    forall i | 0 <= i < |p|
      ensures p[i] == (pa + pb)[i]
    {
      if i >= |a| {
        assert (a + b)[i] == b[i - |a|];
      }
    }
  }

  /** `max(1, settings.max_workers or min(8, total))`: an unset or zero
      `max_workers` means up to eight threads, never more than there are
      attachments, and never fewer than one. */
  function DownloadWorkers(maxWorkers: Option<int>, total: nat): (w: int)
    ensures w >= 1
    ensures maxWorkers.Some? && maxWorkers.value >= 1 ==> w == maxWorkers.value
    ensures (maxWorkers.None? || maxWorkers.value == 0) && total >= 1 ==> w <= 8 && w <= total
    ensures (maxWorkers.None? || maxWorkers.value == 0) ==> w == 8 || w == total || w == 1
    ensures (maxWorkers.None? || maxWorkers.value == 0) && total >= 1 ==> w == (if total < 8 then total else 8)
    ensures (maxWorkers.None? || maxWorkers.value == 0) && total == 0 ==> w == 1
    ensures maxWorkers.Some? && maxWorkers.value < 0 ==> w == 1
  {
    var chosen := if maxWorkers.Some? && maxWorkers.value != 0 then maxWorkers.value
                  else if total < 8 then total else 8;
    if chosen < 1 then 1 else chosen
  }
}
