/** The command-line driver (`main`): folds the recognised options into a run
    configuration, then picks batch mode, an error exit, or single-file mode. */
module Cli {
  import opened Config
  import opened Encoder
  import Batch
  import Single

  datatype Option<T> = None | Some(value: T)

  /** One option as the tokeniser delivers it. The dimension and bitrate
      parsers are opaque: their payload is `None` when they reject the text. */
  datatype Opt =
    | Dimensions(size: Option<(int, int)>)   // -s WIDTHxHEIGHT
    | Bitrate(rate: Option<int>)             // -r BITRATE
    | ForceFlag                              // -f
    | InputFile(path: Path)                  // -i INPUT
    | OutputFile(path: Path)                 // -o OUTPUT
    | Unrecognised                           // any other option

  /** The configuration and the paths the options name. */
  datatype Parsed = Parsed(settings: Settings, input: Option<Path>, output: Option<Path>)

  /** An option that sends `main` to the usage text with status 1. */
  predicate Invalid(o: Opt) {
    (o.Dimensions? && o.size.None?) || (o.Bitrate? && o.rate.None?) || o.Unrecognised?
  }

  /** Applies the options left to right to `acc`; a later option overrides an
      earlier one, and the first invalid option stops parsing, so parsing
      succeeds exactly when no option is invalid. */
  function Apply(acc: Parsed, opts: seq<Opt>): (r: Option<Parsed>)
    ensures r.Some? ==> forall k :: 0 <= k < |opts| ==> !Invalid(opts[k])
    ensures (forall k :: 0 <= k < |opts| ==> !Invalid(opts[k])) ==> r.Some?
    decreases |opts|
  {
    if |opts| == 0 then Some(acc)
    else
      assert forall k :: 1 <= k < |opts| ==> opts[k] == opts[1..][k - 1];
      match opts[0]
      case Dimensions(None) => None
      case Dimensions(Some(wh)) =>
        Apply(acc.(settings := acc.settings.(width := wh.0, height := wh.1)), opts[1..])
      case Bitrate(None) => None
      case Bitrate(Some(rate)) => Apply(acc.(settings := acc.settings.(bitrate := rate)), opts[1..])
      case ForceFlag => Apply(acc.(settings := acc.settings.(force := true)), opts[1..])
      case InputFile(p) => Apply(acc.(input := Some(p)), opts[1..])
      case OutputFile(p) => Apply(acc.(output := Some(p)), opts[1..])
      case Unrecognised => None
  }

  /** The option loop of `main`, starting from the defaults. */
  function ParseOptions(opts: seq<Opt>): Option<Parsed> {
    Apply(Parsed(Defaults, None, None), opts)
  }

  /** Parsing `a ++ b` is parsing `a`, then parsing `b` from where `a` left off. */
  lemma {:induction false} ApplySplit(acc: Parsed, a: seq<Opt>, b: seq<Opt>)
    ensures Apply(acc, a + b) == (if Apply(acc, a).Some? then Apply(Apply(acc, a).value, b) else None)
    decreases |a|
  {
    if |a| == 0 {
      assert a + b == b;
    } else {
      assert (a + b)[0] == a[0] && (a + b)[1..] == a[1..] + b;
      match a[0]
      case Dimensions(Some(wh)) =>
        ApplySplit(acc.(settings := acc.settings.(width := wh.0, height := wh.1)), a[1..], b);
      case Bitrate(Some(rate)) => ApplySplit(acc.(settings := acc.settings.(bitrate := rate)), a[1..], b);
      case ForceFlag => ApplySplit(acc.(settings := acc.settings.(force := true)), a[1..], b);
      case InputFile(p) => ApplySplit(acc.(input := Some(p)), a[1..], b);
      case OutputFile(p) => ApplySplit(acc.(output := Some(p)), a[1..], b);
      case Dimensions(None) =>
      case Bitrate(None) =>
      case Unrecognised =>
    }
  }

  /** Options other than -s and -r leave dimensions and bitrate as they were,
      and options other than -i (-o) leave the input (output) as it was; an
      input (output, force) is set iff it was set before or an -i (-o, -f)
      option occurs. */
  lemma {:induction false} ApplyKeeps(acc: Parsed, opts: seq<Opt>)
    requires Apply(acc, opts).Some?
    ensures (forall k :: 0 <= k < |opts| ==> !opts[k].Dimensions?) ==>
      Apply(acc, opts).value.settings.width == acc.settings.width &&
      Apply(acc, opts).value.settings.height == acc.settings.height
    ensures (forall k :: 0 <= k < |opts| ==> !opts[k].Bitrate?) ==>
      Apply(acc, opts).value.settings.bitrate == acc.settings.bitrate
    ensures (forall k :: 0 <= k < |opts| ==> !opts[k].InputFile?) ==>
      Apply(acc, opts).value.input == acc.input
    ensures (forall k :: 0 <= k < |opts| ==> !opts[k].OutputFile?) ==>
      Apply(acc, opts).value.output == acc.output
    ensures Apply(acc, opts).value.input.Some? <==>
      acc.input.Some? || exists k :: 0 <= k < |opts| && opts[k].InputFile?
    ensures Apply(acc, opts).value.output.Some? <==>
      acc.output.Some? || exists k :: 0 <= k < |opts| && opts[k].OutputFile?
    ensures Apply(acc, opts).value.settings.force <==>
      acc.settings.force || exists k :: 0 <= k < |opts| && opts[k].ForceFlag?
    decreases |opts|
  {
    if |opts| > 0 {
      var rest := opts[1..];
      assert forall k :: 1 <= k < |opts| ==> opts[k] == rest[k - 1];
      match opts[0]
      case Dimensions(Some(wh)) =>
        ApplyKeeps(acc.(settings := acc.settings.(width := wh.0, height := wh.1)), rest);
      case Bitrate(Some(rate)) => ApplyKeeps(acc.(settings := acc.settings.(bitrate := rate)), rest);
      case ForceFlag => ApplyKeeps(acc.(settings := acc.settings.(force := true)), rest);
      case InputFile(p) => ApplyKeeps(acc.(input := Some(p)), rest);
      case OutputFile(p) => ApplyKeeps(acc.(output := Some(p)), rest);
    }
  }

  /** The last -s, -r, -i or -o option decides the value the configuration
      ends up with. */
  lemma LastOptionWins(acc: Parsed, pre: seq<Opt>, o: Opt, post: seq<Opt>)
    requires Apply(acc, pre + [o] + post).Some?
    ensures o.Dimensions? && (forall k :: 0 <= k < |post| ==> !post[k].Dimensions?) ==>
      o.size.Some? &&
      Apply(acc, pre + [o] + post).value.settings.width == o.size.value.0 &&
      Apply(acc, pre + [o] + post).value.settings.height == o.size.value.1
    ensures o.Bitrate? && (forall k :: 0 <= k < |post| ==> !post[k].Bitrate?) ==>
      o.rate.Some? && Apply(acc, pre + [o] + post).value.settings.bitrate == o.rate.value
    ensures o.InputFile? && (forall k :: 0 <= k < |post| ==> !post[k].InputFile?) ==>
      Apply(acc, pre + [o] + post).value.input == Some(o.path)
    ensures o.OutputFile? && (forall k :: 0 <= k < |post| ==> !post[k].OutputFile?) ==>
      Apply(acc, pre + [o] + post).value.output == Some(o.path)
  {
    ApplySplit(acc, pre + [o], post);
    ApplySplit(acc, pre, [o]);
    var mid := Apply(acc, pre + [o]).value;
    ApplyKeeps(mid, post);
    assert [o][1..] == [];
  }

  /** With no -s and no -r option, a successful parse yields 640x480 at
      2000000 bits per second. */
  lemma DefaultsWithoutOverrides(opts: seq<Opt>)
    requires forall k :: 0 <= k < |opts| ==> !opts[k].Dimensions? && !opts[k].Bitrate? && !opts[k].Unrecognised?
    ensures ParseOptions(opts).Some?
    ensures ParseOptions(opts).value.settings.width == 640
    ensures ParseOptions(opts).value.settings.height == 480
    ensures ParseOptions(opts).value.settings.bitrate == 2000000
  {
    ApplyKeeps(Parsed(Defaults, None, None), opts);
  }

  /** What the process exits with and which encoder calls it made. */
  datatype RunResult = RunResult(status: int, trace: seq<Job>)

  /** `main` after option parsing: an invalid option exits 1; neither -i nor
      -o runs batch mode over `argv[optind..]`; exactly one of them exits 1;
      both run single-file mode with the mpeg4 codec. */
  method RunGuacenc(opts: seq<Opt>, argv: seq<Path>, optind: nat, encode: Encode) returns (r: RunResult)
    ensures r.status == 0 || r.status == 1
    ensures forall j :: j in r.trace ==> IsAllowed(j.codec)
    ensures ParseOptions(opts).None? ==> r == RunResult(1, [])
    ensures ParseOptions(opts).Some? ==>
      var o := ParseOptions(opts).value;
      && (o.input.None? && o.output.None? ==>
            r.status == 0 && r.trace == Batch.PlannedJobs(o.settings, Batch.Positional(argv, optind)))
      && (o.input.None? && o.output.Some? ==> r == RunResult(1, []))
      && (o.input.Some? && o.output.None? ==> r == RunResult(1, []))
      && (o.input.Some? && o.output.Some? ==>
            var single := Single.InoutMode(o.settings, o.input.value, o.output.value, DefaultCodec, encode);
            r == RunResult(single.status, single.trace))
  {
    var parsed := ParseOptions(opts);
    if parsed.None? {
      return RunResult(1, []);
    }
    var o := parsed.value;
    if o.input.None? && o.output.None? {
      var b := Batch.BatchMode(o.settings, argv, optind, encode);
      Batch.BatchJobsShape(o.settings, Batch.Positional(argv, optind));
      return RunResult(b.status, b.trace);
    }
    if o.input.None? {
      return RunResult(1, []);
    }
    if o.output.None? {
      return RunResult(1, []);
    }
    var single := Single.InoutMode(o.settings, o.input.value, o.output.value, DefaultCodec, encode);
    return RunResult(single.status, single.trace);
  }
}
