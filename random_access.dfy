/** `MemoryAccess`, the seek/read cursor a region reader uses over an in-memory
    byte array (RandomAccess.kt).  The underlying bytes are a `const` sequence:
    the cursor never changes them. */
module RandomAccess {
  import opened Bytes
  import opened Wrappers

  class MemoryAccess {
    /** The buffer being read. */
    const data: seq<byte>
    /** The read cursor, a Kotlin `Int`. */
    var pos: int

    constructor (data: seq<byte>)
      ensures this.data == data && pos == 0
    {
      this.data := data;
      pos := 0;
    }

    /** Whether `System.arraycopy` may copy `n` bytes from the cursor. */
    predicate CanRead(n: int)
      reads this
    {
      0 <= n && 0 <= pos && pos + n <= |data|
    }

    /** `seek(p)`: the cursor becomes `p` truncated to an `Int`; nothing is read. */
    method Seek(p: int)
      modifies this
      ensures pos == ToInt32(p)
    {
      pos := ToInt32(p);
    }

    /** `readFully(buf)`: copies `data[pos .. pos + buf.size)` into `buf` and
        advances the cursor; an out-of-range read throws before anything moves. */
    method ReadFully(buf: array<byte>) returns (ok: bool)
      modifies this, buf
      ensures ok == old(CanRead(buf.Length))
      ensures ok ==> buf[..] == data[old(pos)..old(pos) + buf.Length] && pos == old(pos) + buf.Length
      ensures !ok ==> buf[..] == old(buf[..]) && pos == old(pos)
    {
      ok := CanRead(buf.Length);
      if ok {
        var p := pos;
        forall i | 0 <= i < buf.Length {
          buf[i] := data[p + i];
        }
        pos := pos + buf.Length;
      }
    }

    /** `readFully(buf, off, len)`: copies `data[pos .. pos + len)` into
        `buf[off .. off + len)` and advances the cursor by `len`; the rest of
        `buf` is unchanged.  Any out-of-range index throws before anything moves. */
    method ReadFullyInto(buf: array<byte>, off: int, len: int) returns (ok: bool)
      modifies this, buf
      ensures ok == (old(CanRead(len)) && 0 <= off && off + len <= buf.Length)
      ensures ok ==> pos == old(pos) + len
      ensures ok ==> buf[off..off + len] == data[old(pos)..old(pos) + len]
      ensures ok ==> buf[..off] == old(buf[..off]) && buf[off + len..] == old(buf[off + len..])
      ensures !ok ==> buf[..] == old(buf[..]) && pos == old(pos)
    {
      ok := CanRead(len) && 0 <= off && off + len <= buf.Length;
      if ok {
        var p := pos;
        forall i | off <= i < off + len {
          buf[i] := data[p + i - off];
        }
        pos := pos + len;
      }
    }
  }

  /** What `readFully` yields in one step, as a value: the `n` bytes at `p`,
      or nothing when they are not all inside `data`. */
  function Slice(data: seq<byte>, p: int, n: int): (r: Option<seq<byte>>)
    ensures r.Some? <==> 0 <= n && 0 <= p && p + n <= |data|
    ensures r.Some? ==> |r.value| == n && forall i :: 0 <= i < n ==> r.value[i] == data[p + i]
  {
    if 0 <= n && 0 <= p && p + n <= |data| then Some(data[p..p + n]) else None
  }
}
