/** The foreign algorithms the core calls but does not implement: DEFLATE with
    the zlib (RFC 1950) and gzip (RFC 1952) wrappers, lz4-java's block
    compressor and safe decompressor, xxHash32, and the platform's decoding of
    a byte array into a `String`.  Each is a total function supplied by the
    caller, so every property proved below holds whatever these functions do,
    unless a lemma states what it assumes of them. */
module Codecs {
  import opened Bytes
  import opened Wrappers

  datatype Codecs = Codecs(
    /** `InflaterInputStream(bytes).readBytes()`; `None` where it throws. */
    inflate: seq<byte> -> Option<seq<byte>>,
    /** `GZIPInputStream(bytes).readBytes()`; `None` where it throws. */
    gunzip: seq<byte> -> Option<seq<byte>>,
    /** `DeflaterOutputStream` with the default level: the zlib encoding. */
    deflate: seq<byte> -> seq<byte>,
    /** `GZIPOutputStream`: the gzip encoding. */
    gzip: seq<byte> -> seq<byte>,
    /** The safe decompressor run on `block` into a destination of `n` bytes:
        the bytes it writes there, or `None` where it throws. */
    lz4Decompress: (seq<byte>, nat) -> Option<seq<byte>>,
    /** The fast compressor's output for `data`. */
    lz4Compress: seq<byte> -> seq<byte>,
    /** `XXHash32.hash(data, 0, data.size, seed)` as a signed `Int`. */
    xxh32: (seq<byte>, int32) -> int32,
    /** `String(bytes).length`: the UTF-16 length of the decoded name. */
    nameLength: seq<byte> -> nat
  )
}
