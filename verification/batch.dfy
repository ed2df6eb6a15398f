/** Legacy batch mode: every positional argument is a recording, encoded with
    mpeg4 to a file named after it with ".m4v" appended. */
module Batch {
  import opened Config
  import opened Encoder

  /** The suffix appended to each input path. */
  const Suffix: string := ".m4v"

  /** The codec batch mode always uses, whatever the command line says. */
  const BatchCodec: string := "mpeg4"

  /** The untruncated name `snprintf` formats for input `p`. */
  function OutputPath(p: Path): (o: Path)
    ensures |o| == |p| + |Suffix|
    ensures o[..|p|] == p && o[|p|..] == Suffix
  {
    p + Suffix
  }

  /** Whether the formatted name fits the output buffer, i.e. whether the
      length `snprintf` reports is below the buffer size. */
  predicate NameFits(p: Path) {
    |OutputPath(p)| < PathBufferSize
  }

  /** The encoder call batch mode makes for input `p`. */
  function JobFor(s: Settings, p: Path): Job {
    MakeJob(s, p, OutputPath(p), BatchCodec)
  }

  /** The positional arguments `argv[optind..]`; none when `optind` is at or
      past the end (`argc - optind <= 0`). */
  function Positional(argv: seq<Path>, optind: nat): seq<Path> {
    if optind < |argv| then argv[optind..] else []
  }

  /** Reference definition: the encoder calls a batch over `files` makes, in
      order, leaving out the files whose output name does not fit. */
  function PlannedJobs(s: Settings, files: seq<Path>): (js: seq<Job>)
    ensures |js| <= |files|
  {
    if |files| == 0 then []
    else
      var last := files[|files| - 1];
      PlannedJobs(s, files[..|files| - 1]) + (if NameFits(last) then [JobFor(s, last)] else [])
  }

  /** The number of jobs in `jobs` for which `encode` reports failure. */
  function CountFailed(jobs: seq<Job>, encode: Encode): (n: nat)
    ensures n <= |jobs|
    ensures n == 0 <==> forall k :: 0 <= k < |jobs| ==> !encode(jobs[k])
  {
    if |jobs| == 0 then 0
    else CountFailed(jobs[..|jobs| - 1], encode) + (if encode(jobs[|jobs| - 1]) then 1 else 0)
  }

  /** The closing log line of a batch. */
  datatype Summary =
    | NothingToDo                               // "No input files specified. Nothing to do."
    | AllEncoded                                // "All files encoded successfully."
    | SomeFailed(failures: nat, total: nat)     // "Encoding failed for %i of %i file(s)."

  /** Which closing line a batch over `total` files with `failures` failures logs. */
  function Summarize(failures: nat, total: nat): (r: Summary)
    ensures r.NothingToDo? <==> total == 0
    ensures r.SomeFailed? <==> total > 0 && failures != 0
    ensures r.SomeFailed? ==> r.failures == failures && r.total == total
  {
    if total == 0 then NothingToDo
    else if failures != 0 then SomeFailed(failures, total)
    else AllEncoded
  }

  /** What a batch run returns and which encoder calls it made. */
  datatype BatchOutcome = BatchOutcome(status: int, failures: nat, summary: Summary, trace: seq<Job>)

  /** `guacenc_batch_mode`: walks `argv[optind..]`, skips names that do not fit,
      encodes the rest and counts failures. It always returns 0. */
  method BatchMode(s: Settings, argv: seq<Path>, optind: nat, encode: Encode) returns (r: BatchOutcome)
    ensures r.status == 0
    ensures r.trace == PlannedJobs(s, Positional(argv, optind))
    ensures r.failures == CountFailed(r.trace, encode)
    ensures r.failures <= |r.trace| <= |Positional(argv, optind)|
    ensures r.summary.NothingToDo? <==> |Positional(argv, optind)| == 0
    ensures r.summary.SomeFailed? <==> r.failures != 0
    ensures r.summary.SomeFailed? ==> r.summary.failures == r.failures
    ensures r.summary.SomeFailed? ==> r.summary.total == |Positional(argv, optind)|
  {
    var totalFiles := |argv| - optind;
    if totalFiles <= 0 {
      return BatchOutcome(0, 0, NothingToDo, []);
    }
    var failures: nat := 0;
    var trace: seq<Job> := [];
    var i := optind;
    while i < |argv|
      invariant optind <= i <= |argv|
      invariant trace == PlannedJobs(s, argv[optind..i])
      invariant failures == CountFailed(trace, encode)
    {
      assert argv[optind..i + 1][..i - optind] == argv[optind..i];
      var path := argv[i];
      var len := |OutputPath(path)|;
      if len >= PathBufferSize {
        i := i + 1;
        continue;
      }
      var job := JobFor(s, path);
      var failed := encode(job);
      assert (trace + [job])[..|trace|] == trace;
      trace := trace + [job];
      if failed {
        failures := failures + 1;
      }
      i := i + 1;
    }
    assert argv[optind..|argv|] == Positional(argv, optind);
    r := BatchOutcome(0, failures, Summarize(failures, totalFiles), trace);
  }

  /** Distinct inputs never share an output name. */
  lemma OutputPathInjective(p: Path, q: Path)
    requires OutputPath(p) == OutputPath(q)
    ensures p == q
  {
  }

  /** Processing a list in two parts makes the two parts' calls, in order. */
  lemma {:induction false} PlannedJobsAppend(s: Settings, a: seq<Path>, b: seq<Path>)
    ensures PlannedJobs(s, a + b) == PlannedJobs(s, a) + PlannedJobs(s, b)
    decreases |b|
  {
    if |b| == 0 {
      assert a + b == a;
    } else {
      var b' := b[..|b| - 1];
      assert (a + b)[..|a + b| - 1] == a + b';
      PlannedJobsAppend(s, a, b');
    }
  }

  /** A file whose output name does not fit makes no call and leaves the calls
      for the files after it unchanged. */
  lemma SkippedFileInvisible(s: Settings, a: seq<Path>, p: Path, b: seq<Path>)
    requires !NameFits(p)
    ensures PlannedJobs(s, a + [p] + b) == PlannedJobs(s, a + b)
  {
    PlannedJobsAppend(s, a + [p], b);
    PlannedJobsAppend(s, a, [p]);
    PlannedJobsAppend(s, a, b);
    assert PlannedJobs(s, [p]) == PlannedJobs(s, [p][..0]);
  }

  /** A job is made iff some input file fits and the job is the one for it. */
  lemma {:induction false} TraceMembership(s: Settings, files: seq<Path>, j: Job)
    ensures j in PlannedJobs(s, files) <==>
            exists k :: 0 <= k < |files| && NameFits(files[k]) && j == JobFor(s, files[k])
    decreases |files|
  {
    if |files| > 0 {
      var init := files[..|files| - 1];
      TraceMembership(s, init, j);
      if j in PlannedJobs(s, init) {
        var k :| 0 <= k < |init| && NameFits(init[k]) && j == JobFor(s, init[k]);
        assert files[k] == init[k];
      }
      if exists k :: 0 <= k < |files| && NameFits(files[k]) && j == JobFor(s, files[k]) {
        var k :| 0 <= k < |files| && NameFits(files[k]) && j == JobFor(s, files[k]);
        if k < |init| {
          assert init[k] == files[k];
        }
      }
    }
  }

  /** Every call batch mode makes uses the mpeg4 codec, the configured
      settings, and the input path with ".m4v" appended as output. */
  lemma BatchJobsShape(s: Settings, files: seq<Path>)
    ensures forall j :: j in PlannedJobs(s, files) ==>
      && j.codec == BatchCodec && j.output == OutputPath(j.input)
      && j.width == s.width && j.height == s.height
      && j.bitrate == s.bitrate && j.force == s.force
      && j.input in files
  {
  }

  /** When every name fits, each input is encoded exactly once, in order. */
  lemma {:induction false} AllFitEncodesEachInOrder(s: Settings, files: seq<Path>)
    requires forall k :: 0 <= k < |files| ==> NameFits(files[k])
    ensures |PlannedJobs(s, files)| == |files|
    ensures forall k :: 0 <= k < |files| ==> PlannedJobs(s, files)[k] == JobFor(s, files[k])
    decreases |files|
  {
    if |files| > 0 {
      AllFitEncodesEachInOrder(s, files[..|files| - 1]);
    }
  }

  /** When no name fits, no call is made. */
  lemma {:induction false} NoneFitNoJobs(s: Settings, files: seq<Path>)
    requires forall k :: 0 <= k < |files| ==> !NameFits(files[k])
    ensures PlannedJobs(s, files) == []
    decreases |files|
  {
    if |files| > 0 {
      NoneFitNoJobs(s, files[..|files| - 1]);
    }
  }

  /** The failure count of two consecutive runs of calls adds up. */
  lemma {:induction false} CountFailedAppend(a: seq<Job>, b: seq<Job>, encode: Encode)
    ensures CountFailed(a + b, encode) == CountFailed(a, encode) + CountFailed(b, encode)
    decreases |b|
  {
    if |b| == 0 {
      assert a + b == a;
    } else {
      var b' := b[..|b| - 1];
      assert (a + b)[..|a + b| - 1] == a + b';
      CountFailedAppend(a, b', encode);
    }
  }

  /** Failures are isolated per file: the failure count of a batch is the sum
      of the counts of any split of its file list. */
  lemma BatchFailuresAdd(s: Settings, a: seq<Path>, b: seq<Path>, encode: Encode)
    ensures CountFailed(PlannedJobs(s, a + b), encode)
         == CountFailed(PlannedJobs(s, a), encode) + CountFailed(PlannedJobs(s, b), encode)
  {
    PlannedJobsAppend(s, a, b);
    CountFailedAppend(PlannedJobs(s, a), PlannedJobs(s, b), encode);
  }

  /** A batch over an empty list makes no call and reports nothing to do. */
  lemma EmptyBatch(s: Settings, argv: seq<Path>, optind: nat)
    requires optind >= |argv|
    ensures PlannedJobs(s, Positional(argv, optind)) == []
    ensures Summarize(0, |Positional(argv, optind)|) == NothingToDo
  {
  }

  /** Two files, the encoder failing on the second: one failure out of two
      files is reported. */
  lemma TwoFileScenario(s: Settings, encode: Encode)
    requires !encode(JobFor(s, "a.rec")) && encode(JobFor(s, "b.rec"))
    ensures PlannedJobs(s, ["a.rec", "b.rec"]) == [JobFor(s, "a.rec"), JobFor(s, "b.rec")]
    ensures CountFailed(PlannedJobs(s, ["a.rec", "b.rec"]), encode) == 1
    ensures Summarize(CountFailed(PlannedJobs(s, ["a.rec", "b.rec"]), encode), 2) == SomeFailed(1, 2)
  {
  }

  /** A batch whose every name is too long encodes nothing, yet closes with
      the all-succeeded line, since the summary looks only at failures. */
  lemma AllSkippedReportsSuccess(s: Settings, files: seq<Path>, encode: Encode)
    requires |files| > 0
    requires forall k :: 0 <= k < |files| ==> !NameFits(files[k])
    ensures PlannedJobs(s, files) == []
    ensures Summarize(CountFailed(PlannedJobs(s, files), encode), |files|) == AllEncoded
  {
  }
}
