/** The contract between the orchestrators and the frame encoder. The encoder
    itself (recording parsing, libav encoding, file locking) is abstract: it is
    any total function from a job to "did it fail". */
module Encoder {
  import opened Config

  type Path = seq<char>

  /** One fully resolved call of the encoder, in argument order. */
  datatype Job = Job(input: Path, output: Path, codec: string,
                     width: int, height: int, bitrate: int, force: bool)

  /** An encoder returns true when it reports failure (a nonzero status). */
  type Encode = Job -> bool

  /** The call made for `input` and `output` under the given settings. */
  function MakeJob(s: Settings, input: Path, output: Path, codec: string): Job {
    Job(input, output, codec, s.width, s.height, s.bitrate, s.force)
  }
}
