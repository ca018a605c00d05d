/** The `LZ4Block` frame format of `McaEntry.decodeLZ4Blocks` (McaEntry.kt) and
    its encoder side, the block header written by the test fixture builder.

    A frame is a sequence of blocks.  Each block is the 8-byte magic
    `LZ4Block`, a token byte whose high nibble selects stored (0x10) or
    LZ4-compressed (0x20) data, three little-endian 32-bit fields (compressed
    length, decompressed length, checksum), then the compressed bytes.  The
    checksum is xxHash32 of the decoded block with seed 0x9747b28c, masked to
    its low 28 bits. */
module Lz4Block {
  import opened Bytes
  import opened Wrappers
  import opened Codecs

  /** "LZ4Block" in ASCII. */
  const MAGIC: seq<byte> := [0x4C, 0x5A, 0x34, 0x42, 0x6C, 0x6F, 0x63, 0x6B]
  /** 8 (magic) + 1 (token) + 4 + 4 + 4. */
  const HEADER_LEN: nat := 21
  /** `0x9747b28c.toInt()`. */
  const SEED: int32 := 0x9747b28c - 0x1_0000_0000
  const METHOD_RAW: int := 0x10
  const METHOD_LZ4: int := 0x20

  datatype Lz4Error =
    | BadMagic            // "invalid LZ4 magic"
    | Truncated           // "LZ4 block truncated", or copyOfRange refusing a negative length
    | UnsupportedMethod   // "unsupported LZ4 method"
    | NegativeLength      // ByteArray(decompLen) with a negative length
    | DecompressFailed    // the LZ4 decompressor threw
    | ChecksumMismatch    // "LZ4 checksum mismatch"
    | Dangling            // "dangling LZ4 bytes"

  /** `xxh32(decoded, SEED) and 0x0FFFFFFF`. */
  function Checksum(c: Codecs, decoded: seq<byte>): (r: int)
    ensures 0 <= r < 0x1000_0000
  {
    c.xxh32(decoded, SEED) % 0x1000_0000
  }

  /** The destination array of `n` bytes after the decompressor wrote `w` into it. */
  function Fit(w: seq<byte>, n: nat): (r: seq<byte>)
    ensures |r| == n
    ensures forall k :: 0 <= k < n ==> r[k] == if k < |w| then w[k] else 0
  {
    if |w| >= n then w[..n] else w + Zeros(n - |w|)
  }

  /** `token and 0xF0`. */
  function MethodOf(token: byte): int
  {
    (token / 16) * 16
  }

  /** The decoded block for a method nibble, before the checksum is checked. */
  function DecodePayload(c: Codecs, nibble: int, block: seq<byte>, decompLen: int32): Result<seq<byte>, Lz4Error>
  {
    if nibble == METHOD_RAW then Ok(block)
    else if nibble == METHOD_LZ4 then
      if decompLen < 0 then Err(NegativeLength)
      else match c.lz4Decompress(block, decompLen)
        case None => Err(DecompressFailed)
        case Some(w) => Ok(Fit(w, decompLen))
    else Err(UnsupportedMethod)
  }

  /** The block at the front of `s`: its decoded bytes and how many bytes of
      `s` it occupies. */
  function DecodeBlock(c: Codecs, s: seq<byte>): (r: Result<(seq<byte>, nat), Lz4Error>)
    requires HEADER_LEN <= |s|
    ensures r.Ok? ==> HEADER_LEN <= r.value.1 <= |s|
  {
    if s[..8] != MAGIC then Err(BadMagic)
    else
      var nibble := MethodOf(s[8]);
      var compLen := Int32LE(s[9..13]);
      var decompLen := Int32LE(s[13..17]);
      var checksumLe := Int32LE(s[17..21]);
      if compLen < 0 || HEADER_LEN + compLen > |s| then Err(Truncated)
      else
        match DecodePayload(c, nibble, s[HEADER_LEN..HEADER_LEN + compLen], decompLen)
        case Err(e) => Err(e)
        case Ok(decoded) =>
          if Checksum(c, decoded) != checksumLe then Err(ChecksumMismatch)
          else Ok((decoded, HEADER_LEN + compLen))
  }

  /** A whole frame: the concatenation of its decoded blocks. */
  function DecodeFrame(c: Codecs, s: seq<byte>): Result<seq<byte>, Lz4Error>
    decreases |s|
  {
    if HEADER_LEN <= |s| then
      match DecodeBlock(c, s)
      case Err(e) => Err(e)
      case Ok((decoded, used)) =>
        match DecodeFrame(c, s[used..])
        case Err(e) => Err(e)
        case Ok(rest) => Ok(decoded + rest)
    else if s != [] then Err(Dangling)
    else Ok([])
  }

  /** `out.write(decoded)` in front of whatever the rest of the frame gives. */
  function Prepend(out: seq<byte>, r: Result<seq<byte>, Lz4Error>): Result<seq<byte>, Lz4Error>
  {
    match r
    case Err(e) => Err(e)
    case Ok(rest) => Ok(out + rest)
  }

  lemma PrependAssoc(a: seq<byte>, b: seq<byte>, r: Result<seq<byte>, Lz4Error>)
    ensures Prepend(a, Prepend(b, r)) == Prepend(a + b, r)
  {
    if r.Ok? {
      assert a + (b + r.value) == (a + b) + r.value;
    }
  }

  lemma PrependNothing(r: Result<seq<byte>, Lz4Error>)
    ensures Prepend([], r) == r
  {
    if r.Ok? {
      assert [] + r.value == r.value;
    }
  }

  /** A frame long enough for a header is its first block followed by the
      rest of the frame. */
  lemma FrameStep(c: Codecs, s: seq<byte>)
    requires HEADER_LEN <= |s|
    ensures DecodeBlock(c, s).Err? ==> DecodeFrame(c, s) == Err(DecodeBlock(c, s).error)
    ensures DecodeBlock(c, s).Ok? ==>
      DecodeFrame(c, s) == Prepend(DecodeBlock(c, s).value.0, DecodeFrame(c, s[DecodeBlock(c, s).value.1..]))
  {
  }

  /** The body of the `decodeLZ4Blocks` loop for the block starting at `i`:
      header checks, `copyOfRange`, the method switch and the checksum. */
  method ReadBlock(c: Codecs, inp: seq<byte>, i: nat) returns (r: Result<(seq<byte>, nat), Lz4Error>)
    requires i + HEADER_LEN <= |inp|
    ensures r == DecodeBlock(c, inp[i..])
  {
    ghost var s := inp[i..];
    assert s[..8] == inp[i..i + 8] && s[8] == inp[i + 8];
    assert s[9..13] == inp[i + 9..i + 13] && s[13..17] == inp[i + 13..i + 17];
    assert s[17..21] == inp[i + 17..i + 21];
    if inp[i..i + 8] != MAGIC {
      return Err(BadMagic);
    }
    var nibble := MethodOf(inp[i + 8]);
    var compLen := Int32LE(inp[i + 9..i + 13]);
    var decompLen := Int32LE(inp[i + 13..i + 17]);
    var checksumLe := Int32LE(inp[i + 17..i + 21]);
    var start := i + HEADER_LEN;
    if compLen < 0 || start + compLen > |inp| {
      return Err(Truncated);
    }
    var block := inp[start..start + compLen];
    assert s[HEADER_LEN..HEADER_LEN + compLen] == block;
    var decoded: seq<byte>;
    if nibble == METHOD_RAW {
      decoded := block;
    } else if nibble == METHOD_LZ4 {
      if decompLen < 0 {
        return Err(NegativeLength);
      }
      var w := c.lz4Decompress(block, decompLen);
      if w.None? {
        return Err(DecompressFailed);
      }
      decoded := Fit(w.value, decompLen);
    } else {
      return Err(UnsupportedMethod);
    }
    if Checksum(c, decoded) != checksumLe {
      return Err(ChecksumMismatch);
    }
    r := Ok((decoded, HEADER_LEN + compLen));
  }

  /** The loop invariant below: the output so far, followed by what the rest
      of the input decodes to, is what the whole input decodes to. */
  ghost predicate Decoded(c: Codecs, inp: seq<byte>, i: nat, out: seq<byte>)
    requires i <= |inp|
  {
    DecodeFrame(c, inp) == Prepend(out, DecodeFrame(c, inp[i..]))
  }

  /** A block decoded at `i` moves the invariant past that block: one turn
      of the loop below, stated on the updated variables `i2` and `out2`. */
  lemma LoopStep(c: Codecs, inp: seq<byte>, i: nat, out: seq<byte>, decoded: seq<byte>, used: nat, i2: nat, out2: seq<byte>)
    requires i + HEADER_LEN <= |inp|
    requires Decoded(c, inp, i, out)
    requires DecodeBlock(c, inp[i..]) == Ok((decoded, used))
    requires i2 == i + used && out2 == out + decoded
    ensures i2 <= |inp|
    ensures Decoded(c, inp, i2, out2)
  {
    FrameStep(c, inp[i..]);
    assert inp[i..][used..] == inp[i2..];
    PrependAssoc(out, decoded, DecodeFrame(c, inp[i2..]));
  }

  /** A failing block fails the whole frame. */
  lemma LoopFails(c: Codecs, inp: seq<byte>, i: nat, out: seq<byte>)
    requires i + HEADER_LEN <= |inp|
    requires Decoded(c, inp, i, out)
    requires DecodeBlock(c, inp[i..]).Err?
    ensures DecodeFrame(c, inp) == Err(DecodeBlock(c, inp[i..]).error)
  {
    FrameStep(c, inp[i..]);
  }

  /** `decodeLZ4Blocks`: the `while` loop over the blocks of `inp`, writing each
      decoded block to the output stream. */
  method DecodeLz4Blocks(c: Codecs, inp: seq<byte>) returns (r: Result<seq<byte>, Lz4Error>)
    ensures r == DecodeFrame(c, inp)
  {
    var i := 0;
    var out: seq<byte> := [];
    PrependNothing(DecodeFrame(c, inp));
    assert inp[0..] == inp;
    while i + HEADER_LEN <= |inp|
      invariant 0 <= i <= |inp|
      invariant Decoded(c, inp, i, out)
      decreases |inp| - i
    {
      var b := ReadBlock(c, inp, i);
      if b.Err? {
        LoopFails(c, inp, i, out);
        return Err(b.error);
      }
      var decoded, used := b.value.0, b.value.1;
      ghost var i0, out0 := i, out;
      out := out + decoded;
      i := i + used;
      LoopStep(c, inp, i0, out0, decoded, used, i, out);
    }
    if i != |inp| {
      return Err(Dangling);
    }
    assert inp[i..] == [];
    r := Ok(out);
    assert out + [] == out;
  }

  // ---------------------------------------------------------------------
  // The encoder side and the properties of the frame format.

  /** A block header as the fixture builder lays it out with a little-endian
      `ByteBuffer`: magic, token, compressed length, original length, checksum. */
  function BlockHeader(token: byte, compLen: int, decompLen: int, checksum: int): (r: seq<byte>)
    ensures |r| == HEADER_LEN
  {
    MAGIC + [token] + Int32ToLE(compLen) + Int32ToLE(decompLen) + Int32ToLE(checksum)
  }

  /** A whole block: header followed by the block bytes. */
  function Block(token: byte, payload: seq<byte>, decompLen: int, checksum: int): seq<byte>
  {
    BlockHeader(token, |payload|, decompLen, checksum) + payload
  }

  /** The fields of an encoded block read back exactly as they were written. */
  lemma BlockFields(token: byte, payload: seq<byte>, decompLen: int, checksum: int, rest: seq<byte>)
    requires |payload| < TWO_31
    ensures var s := Block(token, payload, decompLen, checksum) + rest;
      && s[..8] == MAGIC && s[8] == token
      && Int32LE(s[9..13]) == |payload|
      && Int32LE(s[13..17]) == ToInt32(decompLen)
      && Int32LE(s[17..21]) == ToInt32(checksum)
      && s[21..21 + |payload|] == payload
      && s[21 + |payload|..] == rest
  {
    var s := Block(token, payload, decompLen, checksum) + rest;
    assert s[9..13] == Int32ToLE(|payload|);
    assert s[13..17] == Int32ToLE(decompLen);
    assert s[17..21] == Int32ToLE(checksum);
    Int32LERoundTrip(|payload|);
    Int32LERoundTrip(decompLen);
    Int32LERoundTrip(checksum);
  }

  /** A block whose stored checksum matches its decoded bytes contributes
      exactly those bytes, followed by whatever the rest of the frame decodes to. */
  lemma BlockThenRest(c: Codecs, token: byte, payload: seq<byte>, decompLen: int, rest: seq<byte>, decoded: seq<byte>)
    requires |payload| < TWO_31
    requires DecodePayload(c, MethodOf(token), payload, ToInt32(decompLen)) == Ok(decoded)
    ensures DecodeFrame(c, Block(token, payload, decompLen, Checksum(c, decoded)) + rest)
         == Prepend(decoded, DecodeFrame(c, rest))
  {
    var s := Block(token, payload, decompLen, Checksum(c, decoded)) + rest;
    BlockFields(token, payload, decompLen, Checksum(c, decoded), rest);
    assert DecodeBlock(c, s) == Ok((decoded, HEADER_LEN + |payload|));
  }

  /** The stored token (0x10) passes its bytes through, whatever decompressed
      length the header declares. */
  lemma StoredBlockRoundTrip(c: Codecs, data: seq<byte>, decompLen: int)
    requires |data| < TWO_31
    ensures DecodeFrame(c, Block(0x10, data, decompLen, Checksum(c, data))) == Ok(data)
  {
    var b := Block(0x10, data, decompLen, Checksum(c, data));
    BlockThenRest(c, 0x10, data, decompLen, [], data);
    assert b + [] == b;
    assert data + [] == data;
  }

  /** The compressed token (0x20) decodes to the original bytes whenever the
      decompressor inverts the compressor. */
  lemma CompressedBlockRoundTrip(c: Codecs, data: seq<byte>)
    requires |data| < TWO_31 && |c.lz4Compress(data)| < TWO_31
    requires c.lz4Decompress(c.lz4Compress(data), |data|) == Some(data)
    ensures DecodeFrame(c, Block(0x20, c.lz4Compress(data), |data|, Checksum(c, data))) == Ok(data)
  {
    var b := Block(0x20, c.lz4Compress(data), |data|, Checksum(c, data));
    assert Fit(data, |data|) == data;
    BlockThenRest(c, 0x20, c.lz4Compress(data), |data|, [], data);
    assert b + [] == b;
    assert data + [] == data;
  }

  /** A block whose stored checksum differs from the hash of its decoded bytes
      makes the whole frame fail. */
  lemma CorruptChecksumFails(c: Codecs, token: byte, payload: seq<byte>, decompLen: int, stored: int, rest: seq<byte>, decoded: seq<byte>)
    requires |payload| < TWO_31 && 0 <= stored < TWO_31
    requires DecodePayload(c, MethodOf(token), payload, ToInt32(decompLen)) == Ok(decoded)
    requires stored != Checksum(c, decoded)
    ensures DecodeFrame(c, Block(token, payload, decompLen, stored) + rest) == Err(ChecksumMismatch)
  {
    BlockFields(token, payload, decompLen, stored, rest);
  }

  /** Any token whose high nibble is neither 1 nor 2 is refused. */
  lemma UnknownMethodFails(c: Codecs, token: byte, payload: seq<byte>, decompLen: int, checksum: int, rest: seq<byte>)
    requires |payload| < TWO_31
    requires MethodOf(token) != METHOD_RAW && MethodOf(token) != METHOD_LZ4
    ensures DecodeFrame(c, Block(token, payload, decompLen, checksum) + rest) == Err(UnsupportedMethod)
  {
    BlockFields(token, payload, decompLen, checksum, rest);
  }

  /** A block claiming more bytes than remain is refused. */
  lemma TruncatedBlockFails(c: Codecs, token: byte, compLen: int, decompLen: int, checksum: int, tail: seq<byte>)
    requires |tail| < compLen < TWO_31
    ensures DecodeFrame(c, BlockHeader(token, compLen, decompLen, checksum) + tail) == Err(Truncated)
  {
    var s := BlockHeader(token, compLen, decompLen, checksum) + tail;
    assert s[..8] == MAGIC;
    assert s[9..13] == Int32ToLE(compLen);
    Int32LERoundTrip(compLen);
  }

  /** Input holding a full header whose first eight bytes are not the magic is refused. */
  lemma BadMagicFails(c: Codecs, inp: seq<byte>)
    requires |inp| >= HEADER_LEN && inp[..8] != MAGIC
    ensures DecodeFrame(c, inp) == Err(BadMagic)
  {
  }

  /** Leftover bytes too short for another header are refused; an empty frame
      decodes to nothing. */
  lemma ShortInput(c: Codecs, inp: seq<byte>)
    requires |inp| < HEADER_LEN
    ensures DecodeFrame(c, inp) == if inp == [] then Ok([]) else Err(Dangling)
  {
  }

  /** A block that decodes at the front of `a` decodes the same way whatever
      follows it. */
  lemma BlockPrefix(c: Codecs, a: seq<byte>, b: seq<byte>)
    requires HEADER_LEN <= |a| && DecodeBlock(c, a).Ok?
    ensures DecodeBlock(c, a + b) == DecodeBlock(c, a)
  {
    var t := a + b;
    assert t[..8] == a[..8] && t[8] == a[8];
    assert t[9..13] == a[9..13] && t[13..17] == a[13..17] && t[17..21] == a[17..21];
    var compLen := Int32LE(a[9..13]);
    assert t[HEADER_LEN..HEADER_LEN + compLen] == a[HEADER_LEN..HEADER_LEN + compLen];
  }

  /** The first block of `a + b`, when it lies within `a`, is the first block
      of `a`, and the rest of `a + b` is the rest of `a` followed by `b`. */
  lemma ConcatStep(c: Codecs, a: seq<byte>, b: seq<byte>, d: seq<byte>, used: nat)
    requires HEADER_LEN <= |a| && DecodeBlock(c, a) == Ok((d, used))
    ensures used <= |a|
    ensures DecodeFrame(c, a + b) == Prepend(d, DecodeFrame(c, a[used..] + b))
  {
    var t := a + b;
    BlockPrefix(c, a, b);
    assert DecodeBlock(c, t) == Ok((d, used));
    FrameStep(c, t);
    assert t[used..] == a[used..] + b;
  }

  /** Decoding two well-formed frames laid end to end gives the two outputs in
      order: a frame is a concatenation of independent blocks. */
  lemma {:induction false} DecodeConcat(c: Codecs, a: seq<byte>, b: seq<byte>)
    requires DecodeFrame(c, a).Ok?
    ensures DecodeFrame(c, a + b) == Prepend(DecodeFrame(c, a).value, DecodeFrame(c, b))
    decreases |a|
  {
    if HEADER_LEN <= |a| {
      FrameStep(c, a);
      var d, used := DecodeBlock(c, a).value.0, DecodeBlock(c, a).value.1;
      ConcatStep(c, a, b, d, used);
      var rest := a[used..];
      DecodeConcat(c, rest, b);
      PrependAssoc(d, DecodeFrame(c, rest).value, DecodeFrame(c, b));
    } else {
      assert a == [];
      assert a + b == b;
      PrependNothing(DecodeFrame(c, b));
    }
  }
}
