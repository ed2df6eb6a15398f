/** Single-file mode: one explicit input, one explicit output, one encoder call. */
module Single {
  import opened Config
  import opened Encoder
  import Batch

  /** What a single-file run returns and which encoder calls it made. */
  datatype InoutOutcome = InoutOutcome(status: int, trace: seq<Job>)

  /** `guacenc_inout_mode`: refuses an output name of `PathBufferSize` bytes or
      more; otherwise encodes once and returns 1 exactly when that failed. */
  function InoutMode(s: Settings, input: Path, output: Path, codec: string, encode: Encode): (r: InoutOutcome)
    ensures r.status == 0 || r.status == 1
    ensures |r.trace| <= 1
    ensures |output| >= PathBufferSize ==> r.status == 1 && r.trace == []
    ensures |output| < PathBufferSize ==>
      r.trace == [Job(input, output, codec, s.width, s.height, s.bitrate, s.force)]
    ensures r.status == 0 <==> |r.trace| == 1 && !encode(r.trace[0])
  {
    if |output| >= PathBufferSize then InoutOutcome(1, [])
    else
      var job := MakeJob(s, input, output, codec);
      if encode(job) then InoutOutcome(1, [job]) else InoutOutcome(0, [job])
  }

  /** Single-file mode given the name batch mode would synthesise makes the
      same call batch mode makes for that one file, and fails exactly when
      batch mode would skip it or count a failure. */
  lemma AgreesWithBatchOnOneFile(s: Settings, p: Path, encode: Encode)
    ensures InoutMode(s, p, Batch.OutputPath(p), Batch.BatchCodec, encode).trace
         == Batch.PlannedJobs(s, [p])
    ensures InoutMode(s, p, Batch.OutputPath(p), Batch.BatchCodec, encode).status == 1
        <==> !Batch.NameFits(p) || Batch.CountFailed(Batch.PlannedJobs(s, [p]), encode) == 1
  {
  }

  /** An output name of 4100 characters is refused without an encoder call. */
  lemma LongOutputRefused(s: Settings, input: Path, output: Path, codec: string, encode: Encode)
    requires |output| == 4100
    ensures InoutMode(s, input, output, codec, encode) == InoutOutcome(1, [])
  {
  }
}
