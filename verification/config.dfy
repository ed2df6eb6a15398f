/** Build-time constants of guacenc and the codec allow-list, with the
    documented contract of `allowed_codec`. */
module Config {

  /** Output width, in pixels, when no `-s` option is given. */
  const DefaultWidth: int := 640

  /** Output height, in pixels, when no `-s` option is given. */
  const DefaultHeight: int := 480

  /** Output bitrate, in bits per second, when no `-r` option is given. */
  const DefaultBitrate: int := 2000000

  /** Size of the output-name buffer; a name must be strictly shorter, leaving
      room for the terminating NUL. */
  const PathBufferSize: nat := 4096

  /** The codecs confirmed to work, in declaration order. */
  const AllowedCodecs: seq<string> := ["libx264", "libx265", "libvpx", "mpeg4"]

  /** The codec `main` hands to single-file mode: there is no option that
      changes it. */
  const DefaultCodec: string := "mpeg4"

  /** The resolved run configuration that both orchestrators receive. */
  datatype Settings = Settings(width: int, height: int, bitrate: int, force: bool)

  /** The configuration before any option is applied. */
  const Defaults: Settings := Settings(DefaultWidth, DefaultHeight, DefaultBitrate, false)

  /** Exact membership of a requested codec in the allow-list. */
  predicate IsAllowed(codec: string) {
    codec in AllowedCodecs
  }

  /** The `allowed_codec` contract: 0 for an allowed codec, -1 otherwise. */
  function AllowedCodec(codec: string): (r: int)
    ensures r == 0 || r == -1
    ensures r == 0 <==> exists k :: 0 <= k < |AllowedCodecs| && AllowedCodecs[k] == codec
  {
    if IsAllowed(codec) then 0 else -1
  }

  /** The allow-list has four entries, no two alike. */
  lemma AllowListDistinct()
    ensures |AllowedCodecs| == 4
    ensures forall i, j :: 0 <= i < j < |AllowedCodecs| ==> AllowedCodecs[i] != AllowedCodecs[j]
  {
  }

  /** The codec both orchestrators end up using is on the allow-list, and the
      codecs the list leaves out are refused. */
  lemma DefaultCodecAllowed()
    ensures IsAllowed(DefaultCodec)
    ensures AllowedCodec(DefaultCodec) == 0
    ensures AllowedCodec("theora") == -1 && AllowedCodec("vp9") == -1
  {
  }
}
