# guacenc encoding orchestration, modelled in Dafny

This project models the orchestration layer of `guacenc`, the tool that turns
recorded Guacamole sessions into video files. It covers three parts:

- `main` folds its options into a run configuration (width, height, bitrate,
  force, input, output). It then picks one of four outcomes: batch mode, an
  exit with status 1 for a missing input, an exit with status 1 for a missing
  output, or single-file mode.
- `guacenc_batch_mode` walks the positional arguments in order. It names each
  output `path ++ ".m4v"` and skips a file whose name does not fit the
  4096-byte buffer. Every other file is encoded with `mpeg4`, failures are
  counted, and the function returns 0.
- `guacenc_inout_mode` refuses an output name of 4096 bytes or more.
  Otherwise it encodes once and returns 1 exactly when the encoder failed.

The frame encoder `guacenc_encode` is abstract. It is a parameter of type
`Job -> bool` that answers "did this call fail". Every orchestrator returns
its exit status together with the trace of encoder calls it made, in order.
Paths are `seq<char>`, one character per byte, so the length `snprintf`
reports for a batch output name is `|path| + 4`.

Modules: `Config` (constants and the codec allow-list of `guacenc.h`),
`Encoder` (the encoder call and its contract), `Batch`, `Single` and `Cli`
(the three functions of `guacenc.c`).

The model follows the code as written:

- The option string has no `c` option, so single-file mode always receives
  the `"mpeg4"` codec that `main` starts with.
- `allowed_codec` is declared but never called. It is modelled as a separate
  membership function.
- Both "no input" and "no output" exit with status 1 before any encoding.
- Batch mode returns 0 even when every file fails.

The model also shows one consequence of the code as written
(`Batch.AllSkippedReportsSuccess`). If every file in a batch is skipped
because its name is too long, nothing is encoded, yet the closing line is
still "All files encoded successfully.". The reason is that the summary looks
only at the failure count.

## Model

| member | source | states |
|---|---|---|
| Config.AllowedCodec | src/guacenc/guacenc.h:121-131 | the result is 0 or -1, and it is 0 exactly when the codec is one of the allow-list entries |
| Config.AllowListDistinct | src/guacenc/guacenc.h:53 | the allow-list has four entries and no two are equal |
| Config.DefaultCodecAllowed | src/guacenc/guacenc.h:53 | `mpeg4`, the codec both modes hard-code, is allowed; `theora` and `vp9` are refused |
| Batch.OutputPath | src/guacenc/guacenc.c:170-171 | the output name is 4 longer than the input, starts with the input path and ends with `.m4v` |
| Batch.OutputPathInjective | src/guacenc/guacenc.c:170-171 | two different inputs never get the same output name |
| Batch.PlannedJobs | src/guacenc/guacenc.c:164-190 | the reference trace of a batch: one call per file whose output name fits, in argument order, never more calls than files |
| Batch.Summarize | src/guacenc/guacenc.c:153-199 | no files gives "nothing to do"; otherwise the warning is chosen iff `failures != 0` and carries exactly that failure count and the total file count; else the all-succeeded line |
| Batch.CountFailed | src/guacenc/guacenc.c:181-186 | the failure count is at most the number of calls, and it is zero exactly when no call failed |
| Batch.BatchMode | src/guacenc/guacenc.c:143-203 | batch mode returns 0; its calls are the reference trace of `argv[optind..]`; `failures` counts the failed calls and is at most the number of calls, which is at most the number of files; "nothing to do" is logged iff there are no files; the warning is logged iff `failures != 0` and reports `failures` and the total number of files |
| Batch.PlannedJobsAppend | src/guacenc/guacenc.c:164-190 | files are processed independently and in order: the calls for `a ++ b` are the calls for `a` followed by those for `b` |
| Batch.SkippedFileInvisible | src/guacenc/guacenc.c:173-178 | a file whose name does not fit makes no call, and the files after it are processed as if it were absent |
| Batch.TraceMembership | src/guacenc/guacenc.c:164-182 | a call is made iff some input's output name fits and the call is the one built for that input (both directions) |
| Batch.BatchJobsShape | src/guacenc/guacenc.c:181-182 | every batch call uses `mpeg4`, the configured width, height, bitrate and force, and an input from the list with `.m4v` appended as output |
| Batch.AllFitEncodesEachInOrder | src/guacenc/guacenc.c:164-182 | when every name fits, there is exactly one call per file, the k-th for the k-th file |
| Batch.NoneFitNoJobs | src/guacenc/guacenc.c:173-178 | when no name fits, the encoder is never called |
| Batch.CountFailedAppend | src/guacenc/guacenc.c:181-186 | the failure count of two consecutive runs of calls is the sum of their counts |
| Batch.BatchFailuresAdd | src/guacenc/guacenc.c:181-189 | the failure count is additive over any split of the file list |
| Batch.EmptyBatch | src/guacenc/guacenc.c:149-156 | with `argc - optind <= 0` no call is made and "nothing to do" is the summary |
| Batch.TwoFileScenario | src/guacenc/guacenc.c:181-195 | for `a.rec` succeeding and `b.rec` failing there are two calls in that order, one failure, and the warning reports 1 of 2 files |
| Batch.AllSkippedReportsSuccess | src/guacenc/guacenc.c:193-199 | a non-empty batch whose every name is too long makes no call, yet logs the all-succeeded line |
| Single.InoutMode | src/guacenc/guacenc.c:205-233 | the status is 0 or 1; an output name of 4096 or more returns 1 with no call; otherwise exactly one call with the given arguments is made, and the status is 0 iff that call succeeded |
| Single.AgreesWithBatchOnOneFile | src/guacenc/guacenc.c:212-225 | single-file mode on `p` and `p ++ ".m4v"` makes the same call batch mode makes for `[p]`, and returns 1 iff batch mode would skip the file or count it as failed |
| Single.LongOutputRefused | src/guacenc/guacenc.c:212-217 | a 4100-character output name returns 1 without calling the encoder |
| Cli.Apply | src/guacenc/guacenc.c:47-82 | option parsing succeeds iff no option is an invalid dimension, an invalid bitrate or an unrecognised option (both directions) |
| Cli.ApplySplit | src/guacenc/guacenc.c:47-82 | the options are applied one after another: parsing `a ++ b` is parsing `b` from the state `a` leaves, and fails if `a` fails |
| Cli.ApplyKeeps | src/guacenc/guacenc.c:47-82 | without `-s` the dimensions stay as they were, without `-r` the bitrate does, without `-i` (`-o`) the input (output) does; input, output and force are set iff an `-i`, `-o` or `-f` option occurs |
| Cli.LastOptionWins | src/guacenc/guacenc.c:47-75 | the last `-s`, `-r`, `-i` or `-o` option decides the width and height, the bitrate, the input or the output |
| Cli.DefaultsWithoutOverrides | src/guacenc/guacenc.c:36-40 | with no `-s`, `-r` or unknown option, parsing succeeds with 640x480 at 2000000 bits per second |
| Cli.RunGuacenc | src/guacenc/guacenc.c:97-139 | invalid options exit 1 with no call; neither `-i` nor `-o` runs batch mode; only one of them exits 1 with no call; both run single-file mode with `mpeg4`; the exit status is 0 or 1 and every call uses an allowed codec |

## Left out

- `getopt` tokenising: the model starts from a sequence of recognised options. This includes argument permutation, how `optind` is computed, and the `f:` entry in the option string, which makes `-f` take an argument.
- `guacenc_parse_dimensions` and `guacenc_parse_int`: `parse.h` is not part of this model. Each parse result is opaque, either a value or a rejection carried in the option token.
- The internals of `guacenc_encode` (recording parsing, libav encoding, file locking): it is an abstract parameter.
- The encoder as a pure function: the model assumes the same call always gets the same result and that no call sees the files or locks an earlier call left behind. The real encoder writes files and checks locks, so a batch such as `x x.m4v` (whose second input is the first call's output) or a file listed twice may behave differently in each call. The traces and the call order are unaffected; the failure counts are stated for a deterministic encoder only.
- libav registration, log formatting, log levels and the usage text: these are I/O. The closing log line of a batch is kept as the `Summary` value.
- The implementations of `allowed_codec` and `error_codecs` are not part of this model. Only the documented 0/-1 contract is modelled, as exact membership in the allow-list.
- C `int` width: `failures` and `total_files` cannot overflow, because they are bounded by `argc`. Width, height and bitrate are whatever the opaque parsers produce, so they are unbounded integers here.
- A NUL byte inside a path cannot occur in `argv`, so `strlen` is modelled as the sequence length.
- `src/protocols/vnc/guac_handlers.c` (VNC message pumping, threads and freeing) is outside this core.
