# OrzMCBackup core, modelled in Dafny

OrzMCBackup trims Minecraft worlds. It reads every Anvil region file
(`r.<x>.<z>.mca`) of a dimension and asks retention patterns about each
chunk. A chunk some pattern keeps is copied to a new region file, together
with the same slot of the `entities` and `poi` files of the same name. Every
other chunk is counted as removed. This project models that core and proves
what it promises:

- **Region codec** (`Entry`, `Reader`, `Writer`, `RegionImage`, `RandomAccess`).
  - The reader parses the file name, decodes the two 4096-byte header tables and lists the occupied slots.
  - An entry parses one record: length, method byte, optional custom name and payload. It also gives the chunk's coordinates.
  - The file writer and the in-memory writer append records at sector boundaries and then write the tables.
  - `RegionImage` defines the file both writers produce as a function of the records written. It proves that the reader decodes that file back: every written slot, with its timestamp and record.
- **LZ4Block frames** (`Lz4Block`): the block decoder of `McaEntry.decodeLZ4Blocks` and the block header of the fixture encoder. Stored and compressed blocks round-trip; a bad magic, token, length or checksum fails.
- **Retention patterns** (`Patterns`): the `InhabitedTime` scan and threshold, and the pinned-coordinate list.
- **Forced chunks** (`Nbt`): the recursive-descent NBT reader of `data/chunks.dat`, and the extraction of the `Forced` pairs and the forced tickets.
- **The dimension loop** (`DimensionProcessor`): the keep/remove decision, the forwarding of sibling slots, the counters, the progress throttle and the finalized outputs.
- **`MemoryFS`** (`MemFS`) and the **in-memory IO factory** (`IOFactory`).
- **The report renderings** (`Report`): JSON, CSV and text, and the format choice of `ReportIO.write`. The JSON and CSV forms are proved to read back as the report written.
- **The test-fixture encoder** (`MemoryBuilder`): the region files it builds read back as the chunks it was given.

How the model is built:

- **Kotlin integers.** `Int` and `Long` are bounded subset types of `int`. Two's-complement wrap-around is written out (`ToInt32`, `ToInt64`, `Inc64`, `Sub64`) where the source can overflow:
  - the reader's `(v ushr 8) * 4096`;
  - the writers' `Int` offsets;
  - global coordinates;
  - the shared processed counter.
- **State.** Objects whose fields the source updates are classes:
  - `MemoryAccess`, `McaReader`, `McaWriter`, `MemoryMcaWriter`;
  - `MemoryFS`, the NBT `DataInput`, the fixture's buffers;
  - the shared counter.

  Each method is proved against a function of the inputs or of the old state.
- **Exceptions** become `Result` and `Option` values.
- **Foreign algorithms** are fields of a `Codecs` value that every operation needing them takes as a parameter, so the proofs hold whatever these functions do. They are:
  - inflate, gunzip, deflate and gzip;
  - lz4-java's compressor and decompressor;
  - xxHash32;
  - decoding bytes into a `String`.
- **The dimension loop** is stated once as functions over an abstract "judge", which gives every chunk its outcome (kept or not, pattern failures, its record, its sibling records). The loop lemmas hold for any judge. `Judged` is the judge the source uses, and `OutcomesAgree` ties the outcome-based definitions to direct ones over the region bytes.
  - The input dimension is its path, the listing of its `region` directory and the regular files of its `entities` and `poi` directories. Each of the three is optional, and `None` stands for a directory that does not exist.
  - The clock is a parameter giving the `k`-th reading of `System.currentTimeMillis`.
  - The two callbacks are the sequences of errors and events they receive.
  - The written files are a map from path to contents.

The code has these quirks; the model follows the code:

- For the custom method (127), `readHeader` already consumes the name length and the name. `dataBytes` then reads a second 2-byte length at the cursor, skips that many bytes, and sizes the payload by the first name. `Entry.DataBytesCustom` states this double read.
- A region file is valid when it has at least 8192 bytes. `DimensionProcessor.kt` calls `McaUtils.isValidMca` with one argument, and the model uses that length rule for it.
- `MemoryFS.list` compares path strings, not path components. Under the relative base `region`, the sibling `region2` is therefore listed as a child (`MemFS.ListSharesPrefix`).
- The `McaEntry` constructor's parameter type does not match what `McaReader` passes. The model uses the shared cursor the reader actually hands over.

## Model

| member | source | states |
|---|---|---|
| Bytes.Int32BERoundTrip | core/src/main/kotlin/com/jokerhub/orzmc/mca/McaWriter.kt:42-47 | a big-endian `putInt` read back with `getInt` gives the value truncated to 32 bits, so the header words the writer stores are the words the reader sees |
| Bytes.Int32LERoundTrip | core/src/main/kotlin/com/jokerhub/orzmc/mca/McaEntry.kt:122-124 | the little-endian encoding of a 32-bit value reads back as that value under `ByteOrder.LITTLE_ENDIAN` |
| Bytes.Int64BERoundTrip | core/src/main/kotlin/com/jokerhub/orzmc/world/NbtForceLoader.kt:109-112 | the 8-byte big-endian encoding of a `Long` reads back as that value |
| Bytes.Long64Wraps | core/src/main/kotlin/com/jokerhub/orzmc/world/DimensionProcessor.kt:90-93 | `incrementAndGet` and `now - lastEmit` on `Long`s are the 64-bit two's-complement truncations of the exact results |
| Bytes.ToInt32AddWrap | core/src/main/kotlin/com/jokerhub/orzmc/world/McaIOFactory.kt:57-64 | wrapping an intermediate `Int` sum does not change the wrapped total, so a running `Int` offset equals the wrapped exact total |
| Decimal.DigitChar | core/src/main/kotlin/com/jokerhub/orzmc/world/Report.kt:20-21 | the character written for a digit value is a decimal digit that reads back as that value |
| Decimal.ShowInt | core/src/main/kotlin/com/jokerhub/orzmc/world/Report.kt:20-21 | `toString()` of an integer is an optional minus sign followed by one or more decimal digits |
| Decimal.DigitsValueOfShow | core/src/main/kotlin/com/jokerhub/orzmc/world/Report.kt:20-21 | the digits written for a natural number read back as that number |
| Decimal.ParseShow | core/src/main/kotlin/com/jokerhub/orzmc/mca/McaReader.kt:19-20 | `toInt()` of the `toString()` of every `Int` gives the same `Int` back, so region coordinates in file names round-trip |
| RandomAccess.MemoryAccess.constructor | core/src/main/kotlin/com/jokerhub/orzmc/mca/RandomAccess.kt:25-26 | an in-memory accessor starts over the given bytes with the cursor at 0 |
| RandomAccess.MemoryAccess.Seek | core/src/main/kotlin/com/jokerhub/orzmc/mca/RandomAccess.kt:27-29 | the cursor becomes the `Long` position truncated to an `Int`, nothing else changes |
| RandomAccess.MemoryAccess.ReadFully | core/src/main/kotlin/com/jokerhub/orzmc/mca/RandomAccess.kt:31-34 | succeeds exactly when `buf.size` bytes lie inside the data from the cursor; then the buffer holds those bytes and the cursor moved past them; otherwise (the `arraycopy` exception) buffer and cursor are unchanged |
| RandomAccess.MemoryAccess.ReadFullyInto | core/src/main/kotlin/com/jokerhub/orzmc/mca/RandomAccess.kt:36-39 | succeeds exactly when the source range and the `off`/`len` window of the buffer are in bounds; then only `buf[off..off+len)` changes, to the data at the cursor, and the cursor advances by `len`; on failure nothing changes |
| RandomAccess.Slice | core/src/main/kotlin/com/jokerhub/orzmc/mca/RandomAccess.kt:31-34 | the value-level read: defined exactly when the `n` bytes at `p` are inside the data, and then it is those bytes in order |
| Entry.MethodByte | core/src/main/kotlin/com/jokerhub/orzmc/mca/McaEntry.kt:35-44 | the unsigned byte stored for a method reads back, as a signed Kotlin `Byte`, as exactly that method's code |
| Entry.CompressionCodes | core/src/main/kotlin/com/jokerhub/orzmc/mca/McaEntry.kt:35-46 | the `when` on the method byte maps a code to a method if and only if it is that method's code: nine codes, nine methods, every other byte refused |
| Entry.NameAt | core/src/main/kotlin/com/jokerhub/orzmc/mca/McaEntry.kt:49-54 | the custom-name field is readable exactly when its 2-byte unsigned big-endian length and that many bytes lie inside the data; then the name is those bytes and the cursor ends just after them |
| Entry.McaEntry.ReadHeader | core/src/main/kotlin/com/jokerhub/orzmc/mca/McaEntry.kt:29-57 | reading the header through the cursor after `seek(start)` succeeds exactly when the value-level header is defined, and then yields that header and leaves the cursor where it says; the failure is the same error |
| Entry.McaEntry.ReadName | core/src/main/kotlin/com/jokerhub/orzmc/mca/McaEntry.kt:49-54 | the cursor-level name read agrees with `NameAt` at the old cursor: same success, bytes, new cursor and error |
| Entry.McaEntry.SerializedBytes | core/src/main/kotlin/com/jokerhub/orzmc/mca/McaEntry.kt:59-66 | the record read through the cursor is the value-level `serializedBytes` of the file's data at the entry's start |
| Entry.McaEntry.DataBytes | core/src/main/kotlin/com/jokerhub/orzmc/mca/McaEntry.kt:68-85 | the cursor-level `dataBytes`, including the second read of the custom name field, is the value-level one |
| Entry.McaEntry.ReadPayload | core/src/main/kotlin/com/jokerhub/orzmc/mca/McaEntry.kt:81-83 | seek, allocate `dataLen` bytes and `readFully` give the bytes at `pos`, or the error of a negative size or a short read |
| Entry.McaEntry.AllDataUncompressed | core/src/main/kotlin/com/jokerhub/orzmc/mca/McaEntry.kt:87-96 | the cursor-level `allDataUncompressed` is the value-level one |
| Entry.McaEntry.IsExternal | core/src/main/kotlin/com/jokerhub/orzmc/mca/McaEntry.kt:98-101 | the cursor-level `isExternal` is the value-level one |
| Entry.Coordinates | core/src/main/kotlin/com/jokerhub/orzmc/mca/McaEntry.kt:22-26 | `xPos` and `zPos` are in 0..31 and the slot index is `zPos * 32 + xPos`; the global coordinates keep the local position in their low five bits even when the 32-bit product wraps, and divide back to the region coordinate when it does not |
| Entry.Axis | core/src/main/kotlin/com/jokerhub/orzmc/mca/McaEntry.kt:25-26 | one axis of `Coordinates`: `region * 32 + local`, wrapped to an `Int`, is `local` modulo 32 and is `region` after division when nothing wraps |
| Entry.SerializedLayout | core/src/main/kotlin/com/jokerhub/orzmc/mca/McaEntry.kt:59-66 | `serializedBytes` is exactly the `4 + L` bytes at the start of the record, led by the length prefix `L`; it fails only when the header cannot be read, `4 + L` is negative as an `Int`, or the record passes the end of the data |
| Entry.DataBytesPlain | core/src/main/kotlin/com/jokerhub/orzmc/mca/McaEntry.kt:68-85 | for every method but the custom one, `dataBytes` succeeds exactly when `L >= 1` and the record fits, and is the method and the `L - 1` bytes after the method byte |
| Entry.DataBytesCustom | core/src/main/kotlin/com/jokerhub/orzmc/mca/McaEntry.kt:48-85 | for a record whose method byte is 0x7F, in terms of its bytes: with `n1` the name length at `p+5` and `n2` the second length read at `q = p+7+n1`, `dataBytes` succeeds exactly when both fields and the payload fit and the size is non-negative; the payload is `size = L - 1 - (2 + length(data[p+7..q]))` bytes starting at `start + 7 + n2`, so the offset follows the second length and the size the first name |
| Entry.AllDataByMethod | core/src/main/kotlin/com/jokerhub/orzmc/mca/McaEntry.kt:87-96 | keyed on the stored method byte: a failing `dataBytes` fails it; 0x03 passes the payload through; 0x04 goes through the block decoder; 0x02 and 0x01 succeed exactly when inflate or gunzip does, with their output; 0x7F and 0x81..0x84 give an empty array; no other byte gets this far |
| Entry.ExternalCodes | core/src/main/kotlin/com/jokerhub/orzmc/mca/McaEntry.kt:98-101 | `isExternal` holds exactly for the method bytes 0x81 to 0x84 |
| Lz4Block.Checksum | core/src/main/kotlin/com/jokerhub/orzmc/mca/McaEntry.kt:106-112 | the stored checksum is the xxHash32 of the decoded bytes with seed `0x9747b28c`, masked to 28 bits |
| Lz4Block.Fit | core/src/main/kotlin/com/jokerhub/orzmc/mca/McaEntry.kt:131-133 | the destination array has `decompLen` bytes: what the decompressor wrote, then zeros |
| Lz4Block.DecodeBlock | core/src/main/kotlin/com/jokerhub/orzmc/mca/McaEntry.kt:118-140 | a decoded block occupies at least its 21-byte header and no more than the remaining input |
| Lz4Block.FrameStep | core/src/main/kotlin/com/jokerhub/orzmc/mca/McaEntry.kt:118-143 | a frame long enough for a header is its first block's bytes followed by the decoding of the rest, and fails with the first block's error |
| Lz4Block.ReadBlock | core/src/main/kotlin/com/jokerhub/orzmc/mca/McaEntry.kt:119-138 | one turn of the loop body (magic, token, little-endian lengths and checksum, truncation check, method switch, checksum check) is the value-level block decoder |
| Lz4Block.LoopStep | core/src/main/kotlin/com/jokerhub/orzmc/mca/McaEntry.kt:118-141 | appending a decoded block to the output and moving past it keeps "output so far, then the decoding of the rest, is the decoding of the whole input" |
| Lz4Block.LoopFails | core/src/main/kotlin/com/jokerhub/orzmc/mca/McaEntry.kt:118-141 | a block that fails in mid-loop makes the whole frame fail with its error |
| Lz4Block.DecodeLz4Blocks | core/src/main/kotlin/com/jokerhub/orzmc/mca/McaEntry.kt:114-144 | the `while` loop over the blocks returns exactly the frame decoding: the concatenated blocks, or the first error among bad magic, truncation, unsupported method, checksum mismatch and dangling bytes |
| Lz4Block.BlockHeader | core/src/test/kotlin/com/jokerhub/orzmc/util/McaMemoryBuilder.kt:53-62 | the fixture's little-endian header is 21 bytes long |
| Lz4Block.BlockFields | core/src/test/kotlin/com/jokerhub/orzmc/util/McaMemoryBuilder.kt:53-66 | magic, token, compressed length, original length and checksum read back from a built block exactly as the builder wrote them, followed by the payload and whatever comes after |
| Lz4Block.BlockThenRest | core/src/main/kotlin/com/jokerhub/orzmc/mca/McaEntry.kt:118-141 | a block whose stored checksum matches its decoded bytes contributes exactly those bytes, followed by the decoding of the rest of the frame |
| Lz4Block.StoredBlockRoundTrip | core/src/main/kotlin/com/jokerhub/orzmc/mca/McaEntry.kt:129 | a stored (0x10) block decodes to its bytes whatever decompressed length its header declares |
| Lz4Block.CompressedBlockRoundTrip | core/src/test/kotlin/com/jokerhub/orzmc/util/McaMemoryBuilder.kt:46-66 | the block the fixture builds (token 0x20) decodes to the original bytes whenever the decompressor inverts the compressor |
| Lz4Block.CorruptChecksumFails | core/src/main/kotlin/com/jokerhub/orzmc/mca/McaEntry.kt:137-138 | a stored checksum different from the hash of the decoded bytes makes the frame fail with a checksum mismatch |
| Lz4Block.UnknownMethodFails | core/src/main/kotlin/com/jokerhub/orzmc/mca/McaEntry.kt:128-136 | a token whose high nibble is neither 1 nor 2 is refused as an unsupported method |
| Lz4Block.TruncatedBlockFails | core/src/main/kotlin/com/jokerhub/orzmc/mca/McaEntry.kt:126 | a block that claims more bytes than remain is refused as truncated |
| Lz4Block.BadMagicFails | core/src/main/kotlin/com/jokerhub/orzmc/mca/McaEntry.kt:119 | a full header that does not start with `LZ4Block` is refused |
| Lz4Block.ShortInput | core/src/main/kotlin/com/jokerhub/orzmc/mca/McaEntry.kt:118-142 | input shorter than a header decodes to nothing when it is empty and is refused as dangling otherwise |
| Lz4Block.BlockPrefix | core/src/main/kotlin/com/jokerhub/orzmc/mca/McaEntry.kt:118-140 | a block decoded at the front of the input decodes the same whatever follows it |
| Lz4Block.ConcatStep | core/src/main/kotlin/com/jokerhub/orzmc/mca/McaEntry.kt:118-141 | the first block of `a + b`, when it lies within `a`, is the first block of `a`, and decoding continues on the rest of `a` followed by `b` |
| Lz4Block.DecodeConcat | core/src/main/kotlin/com/jokerhub/orzmc/mca/McaEntry.kt:114-144 | two well-formed frames laid end to end decode to the two outputs in order |
| Reader.Stem | core/src/main/kotlin/com/jokerhub/orzmc/mca/McaReader.kt:15 | a path with a stem ends in `.mca` followed only by what `$` allows (nothing, or one final line terminator), and the stem is everything before the `.mca` |
| Reader.TrailingDigits | core/src/main/kotlin/com/jokerhub/orzmc/mca/McaReader.kt:15 | the digit run counted at the end of a name is never longer than the name |
| Reader.TrailingDigitsRun | core/src/main/kotlin/com/jokerhub/orzmc/mca/McaReader.kt:15 | the counted run is all digits and is the longest such run: the character before it is not a digit |
| Reader.TrailingGroup | core/src/main/kotlin/com/jokerhub/orzmc/mca/McaReader.kt:15 | the group `(-?\d+)` found at the end of a string is a signed decimal numeral |
| Reader.TrailingDigitsAppend | core/src/main/kotlin/com/jokerhub/orzmc/mca/McaReader.kt:15 | digits appended after a non-digit are exactly the trailing run |
| Reader.TrailingGroupAppend | core/src/main/kotlin/com/jokerhub/orzmc/mca/McaReader.kt:15 | a signed numeral appended after a character that is neither digit nor `-` is exactly the trailing group |
| Reader.StemOfMca | core/src/main/kotlin/com/jokerhub/orzmc/mca/McaReader.kt:15 | a name ending in `.mca` has everything before it as its stem |
| Reader.ParseRegionFileName | core/src/main/kotlin/com/jokerhub/orzmc/mca/McaReader.kt:15-29 | every coordinate pair of `Int`s written as `r.X.Z.mca` and parsed back, after any directory prefix, gives that pair |
| Reader.StemOfRegionFileName | core/src/main/kotlin/com/jokerhub/orzmc/mca/McaReader.kt:15 | the stem of `prefix + r.X.Z.mca` is `prefix + r.X.Z` |
| Reader.ParseStemSplit | core/src/main/kotlin/com/jokerhub/orzmc/mca/McaReader.kt:15 | the second group is split off at its dot |
| Reader.ParseHeadSplit | core/src/main/kotlin/com/jokerhub/orzmc/mca/McaReader.kt:15 | once both groups are split off, parsing reduces to the two `toInt()` calls |
| Reader.ParsedStem | core/src/main/kotlin/com/jokerhub/orzmc/mca/McaReader.kt:15 | a stem the parser accepts is a head, a dot and a signed numeral |
| Reader.ParsedHead | core/src/main/kotlin/com/jokerhub/orzmc/mca/McaReader.kt:15 | a head the parser accepts is a prefix, `r.` and a signed numeral |
| Reader.ParsedShape | core/src/main/kotlin/com/jokerhub/orzmc/mca/McaReader.kt:15-29 | a name the parser accepts is `prefix r.A.B.mca` plus an allowed terminator, with `A` and `B` signed numerals whose `toInt()` values are the parsed coordinates |
| Reader.OffsetTable | core/src/main/kotlin/com/jokerhub/orzmc/mca/McaReader.kt:42-49 | the offset table has one entry per slot (1024) |
| Reader.SizeTable | core/src/main/kotlin/com/jokerhub/orzmc/mca/McaReader.kt:42-49 | the size table has one entry per slot (1024) |
| Reader.StampTable | core/src/main/kotlin/com/jokerhub/orzmc/mca/McaReader.kt:50-54 | the timestamp table has one entry per slot (1024) |
| Reader.HeaderOf | core/src/main/kotlin/com/jokerhub/orzmc/mca/McaReader.kt:34-58 | a buffer whose header can be read gives three full 1024-entry tables |
| Reader.EntryAt | core/src/main/kotlin/com/jokerhub/orzmc/mca/McaReader.kt:75-85 | the entry built for a slot carries that slot's index, the reader's file and the reader's region coordinates |
| Reader.EntriesAreOccupiedSlots | core/src/main/kotlin/com/jokerhub/orzmc/mca/McaReader.kt:64-88 | `entries()` lists a slot if and only if both its offset and size are non-zero, each with its own offset, size and timestamp, in strictly ascending slot order |
| Reader.GetAgreesWithEntries | core/src/main/kotlin/com/jokerhub/orzmc/mca/McaReader.kt:90-97 | `get(i)` on a slot index never fails once the tables are read; it is `null` exactly for an empty slot, and otherwise the element of `entries()` for slot `i` with its timestamp |
| Reader.McaReader.constructor | core/src/main/kotlin/com/jokerhub/orzmc/mca/McaReader.kt:9-12 | a new reader holds its file, path and region coordinates, with the tables not yet read |
| Reader.McaReader.ReadHeader | core/src/main/kotlin/com/jokerhub/orzmc/mca/McaReader.kt:34-58 | reading the header succeeds exactly when the file holds both 4096-byte tables, and fills all three caches from them; a failed read leaves the caches as they were |
| Reader.McaReader.DecodeLocations | core/src/main/kotlin/com/jokerhub/orzmc/mca/McaReader.kt:40-49 | the first loop produces the offset and size tables of the location bytes, `(v ushr 8) * 4096` and `(v and 0xFF) * 4096` per slot |
| Reader.McaReader.DecodeTimestamps | core/src/main/kotlin/com/jokerhub/orzmc/mca/McaReader.kt:50-54 | the second loop produces the big-endian timestamp of every slot |
| Reader.McaReader.Ensure | core/src/main/kotlin/com/jokerhub/orzmc/mca/McaReader.kt:60-62 | the header is read at most once: with the caches filled, the tables and the file cursor are left untouched |
| Reader.McaReader.Entries | core/src/main/kotlin/com/jokerhub/orzmc/mca/McaReader.kt:64-88 | `entries()` succeeds exactly when the header can be read and returns the entries of the occupied slots of the file's tables |
| Reader.McaReader.Get | core/src/main/kotlin/com/jokerhub/orzmc/mca/McaReader.kt:90-97 | `get(index)` fails with the header error, throws for an index outside 0..1023, and is otherwise the slot-level `get` of the file's tables |
| Reader.OpenFromBytes | core/src/main/kotlin/com/jokerhub/orzmc/mca/McaReader.kt:25-31 | a reader over the bytes is opened exactly when the file name matches the region pattern, positioned at the two parsed coordinates with no table read yet; otherwise the name error of the pattern or of `toInt()` |
| Writer.WriteAt | core/src/main/kotlin/com/jokerhub/orzmc/mca/McaWriter.kt:23-24 | `seek` then `write` replaces the bytes at the position, keeps those before and after it, and grows the file when the write runs past its end |
| Writer.WriteAtEnd | core/src/main/kotlin/com/jokerhub/orzmc/mca/McaWriter.kt:23-24 | writing at the end of the file appends |
| Writer.PutInt | core/src/main/kotlin/com/jokerhub/orzmc/mca/McaWriter.kt:42-47 | `putInt` stores the four big-endian bytes of the value at the buffer position and changes nothing else |
| Writer.EncodeLocations | core/src/main/kotlin/com/jokerhub/orzmc/mca/McaWriter.kt:36-43 | the first loop of `finalizeFile` produces the big-endian location word of every slot, in slot order |
| Writer.EncodeTimestamps | core/src/main/kotlin/com/jokerhub/orzmc/mca/McaWriter.kt:44-48 | the second loop produces the big-endian timestamp of every slot, in slot order |
| Writer.TablesStep | core/src/main/kotlin/com/jokerhub/orzmc/mca/McaWriter.kt:22-32 | one more write sets only its own slot: offset the data offset it started at, size the padded length, timestamp the entry's; the data area grows by the padded record |
| Writer.AppendedData | core/src/main/kotlin/com/jokerhub/orzmc/mca/McaWriter.kt:23-27 | bytes written after the reserved header extend the data area and leave the header alone |
| Writer.McaWriter.constructor | core/src/main/kotlin/com/jokerhub/orzmc/mca/McaWriter.kt:8-18 | a new writer's file is truncated to 8192 zero bytes, the data offset is 8192 and all three tables are zero |
| Writer.McaWriter.WriteEntry | core/src/main/kotlin/com/jokerhub/orzmc/mca/McaWriter.kt:20-33 | the record is written at the data offset, padded to a whole sector, and the slot takes offset, padded size and timestamp; an unreadable record leaves file and tables as they were; the header area is never touched |
| Writer.McaWriter.Record | core/src/main/kotlin/com/jokerhub/orzmc/mca/McaWriter.kt:22-32 | `writeEntry` once the record is read: the writes so far gain that record, the invariant is kept and the header area is untouched |
| Writer.McaWriter.Append | core/src/main/kotlin/com/jokerhub/orzmc/mca/McaWriter.kt:22-32 | the file gains the padded record, the data offset advances by its length, and only slot `idx` of the three tables changes |
| Writer.McaWriter.WritePadded | core/src/main/kotlin/com/jokerhub/orzmc/mca/McaWriter.kt:23-28 | the file gains the record and `(4096 - written % 4096) % 4096` zero bytes, and the data offset advances by the stored length |
| Writer.McaWriter.FinalizeFile | core/src/main/kotlin/com/jokerhub/orzmc/mca/McaWriter.kt:35-53 | after `finalizeFile` the file is the region image of the writes: location table, timestamp table, padded records |
| RegionImage.Pad | core/src/main/kotlin/com/jokerhub/orzmc/mca/McaWriter.kt:26 | the padding is under one sector and brings the record to a sector boundary |
| RegionImage.Padded | core/src/main/kotlin/com/jokerhub/orzmc/mca/McaWriter.kt:24-27 | a padded record starts with the record, is followed only by zeros and is a whole number of sectors, less than one sector longer |
| RegionImage.Body | core/src/main/kotlin/com/jokerhub/orzmc/mca/McaWriter.kt:24-28 | the data area of any sequence of writes is sector-aligned |
| RegionImage.EmptyTables | core/src/main/kotlin/com/jokerhub/orzmc/mca/McaWriter.kt:11-13 | the initial tables have 1024 entries each |
| RegionImage.TablesAfter | core/src/main/kotlin/com/jokerhub/orzmc/mca/McaWriter.kt:29-32 | the tables after any writes have 1024 entries each |
| RegionImage.LocWords | core/src/main/kotlin/com/jokerhub/orzmc/mca/McaWriter.kt:38-43 | one location word per slot |
| RegionImage.TableBytes | core/src/main/kotlin/com/jokerhub/orzmc/mca/McaWriter.kt:42-47 | four bytes per word |
| RegionImage.Image | core/src/main/kotlin/com/jokerhub/orzmc/mca/McaWriter.kt:35-53 | the finished file is 8192 header bytes followed by the data area |
| RegionImage.LastPut | core/src/main/kotlin/com/jokerhub/orzmc/mca/McaWriter.kt:29-32 | the last write to a slot: no write touches the slot when there is none, otherwise it writes the slot and no later write does |
| RegionImage.SlotAfter | core/src/main/kotlin/com/jokerhub/orzmc/mca/McaWriter.kt:29-32 | a slot no write touched is all zeros; otherwise it holds the offset, padded size and timestamp of the last write to it, so a rewritten slot keeps only its last record |
| RegionImage.StepSlot | core/src/main/kotlin/com/jokerhub/orzmc/mca/McaWriter.kt:29-32 | one write changes its own slot and no other |
| RegionImage.BodyPrefix | core/src/main/kotlin/com/jokerhub/orzmc/mca/McaWriter.kt:24-28 | the data area of the first `n` writes is a prefix of the data area of all of them |
| RegionImage.RecordInBody | core/src/main/kotlin/com/jokerhub/orzmc/mca/McaWriter.kt:22-28 | write `k`'s record sits in the data area at the length of the earlier writes' data |
| RegionImage.TableWord | core/src/main/kotlin/com/jokerhub/orzmc/mca/McaWriter.kt:42-47 | word `i` of a table is bytes `4i..4i+4`, big-endian |
| RegionImage.LocWordRoundTrip | core/src/main/kotlin/com/jokerhub/orzmc/mca/McaWriter.kt:39-41 | for a slot of at most 255 sectors at a non-negative sector offset, the reader's `(v ushr 8) * 4096` and `(v and 0xFF) * 4096` give back the writer's offset and size |
| RegionImage.LocWordValue | core/src/main/kotlin/com/jokerhub/orzmc/mca/McaWriter.kt:39-41 | for such a slot the location word is `offset / 4096 * 256 + size / 4096` with no truncation |
| RegionImage.StampRoundTrip | core/src/main/kotlin/com/jokerhub/orzmc/mca/McaWriter.kt:44-48 | the reader's timestamp table of the written timestamp bytes is the writer's timestamp array |
| RegionImage.LocRoundTrip | core/src/main/kotlin/com/jokerhub/orzmc/mca/McaWriter.kt:36-43 | the reader's offset and size tables of the written location bytes are the writer's arrays, when every slot fits |
| RegionImage.SlotsFit | core/src/main/kotlin/com/jokerhub/orzmc/mca/McaWriter.kt:29-32 | when no record needs more than 255 sectors and the image stays under the maximum array size, every slot fits a location word |
| RegionImage.ImageHeader | core/src/main/kotlin/com/jokerhub/orzmc/mca/McaReader.kt:34-58 | `readHeader` on a finished file gives back exactly the writer's three arrays |
| RegionImage.EmptyImage | core/src/main/kotlin/com/jokerhub/orzmc/mca/McaWriter.kt:15-53 | a writer with no writes leaves 8192 zero bytes: every slot empty |
| RegionImage.ZeroTable | core/src/main/kotlin/com/jokerhub/orzmc/mca/McaWriter.kt:42-47 | a table of zero words encodes to zero bytes |
| RegionImage.SerializedLocal | core/src/main/kotlin/com/jokerhub/orzmc/mca/McaWriter.kt:23-24 | a record that reads back whole from its own first byte still does after it is copied to an `Int` offset of a larger buffer |
| RegionImage.ImageSlot | core/src/main/kotlin/com/jokerhub/orzmc/mca/McaReader.kt:64-97 | reading a finished file: a slot is occupied exactly when it was written, and then it reads back the record, padded size and timestamp of the last write to it |
| RegionImage.RecordReadsBack | core/src/main/kotlin/com/jokerhub/orzmc/mca/McaWriter.kt:22-28 | write `k`'s record reads back from the offset it was written at |
| RegionImage.RecordInData | core/src/main/kotlin/com/jokerhub/orzmc/mca/McaWriter.kt:22-28 | the same for any buffer whose data area holds the record |
| RegionImage.ImageEntries | core/src/main/kotlin/com/jokerhub/orzmc/mca/McaReader.kt:64-88 | `entries()` on a finished file lists one entry per written slot, with the last timestamp written there, and each reads back the last record written there |
| RegionImage.ImageOfEntry | core/src/main/kotlin/com/jokerhub/orzmc/mca/McaReader.kt:64-88 | one entry of `entries()` on a finished file carries the last record and timestamp written to its slot |
| IOFactory.OffsetStep | core/src/main/kotlin/com/jokerhub/orzmc/world/McaIOFactory.kt:59-64 | the `Int` data offset after one more record is the wrapped end of the image so far |
| IOFactory.MemoryMcaWriter.constructor | core/src/main/kotlin/com/jokerhub/orzmc/world/McaIOFactory.kt:50-55 | a new in-memory writer has data offset 8192, zero tables and an empty stream |
| IOFactory.MemoryMcaWriter.WriteEntry | core/src/main/kotlin/com/jokerhub/orzmc/world/McaIOFactory.kt:57-69 | as for the file writer: the record goes to the stream padded to a sector, the slot takes offset, padded size and timestamp; an unreadable record leaves the writer unchanged |
| IOFactory.MemoryMcaWriter.Record | core/src/main/kotlin/com/jokerhub/orzmc/world/McaIOFactory.kt:59-68 | once the record is read, the writes gain exactly that record |
| IOFactory.MemoryMcaWriter.Append | core/src/main/kotlin/com/jokerhub/orzmc/world/McaIOFactory.kt:59-68 | the stream gains the padded record, the `Int` data offset advances with wrap-around, and only slot `idx` changes |
| IOFactory.MemoryMcaWriter.WritePadded | core/src/main/kotlin/com/jokerhub/orzmc/world/McaIOFactory.kt:60-64 | the stream gains the record and its zero padding; the stored size and new offset are `Int`s |
| IOFactory.MemoryMcaWriter.FinalizeFile | core/src/main/kotlin/com/jokerhub/orzmc/world/McaIOFactory.kt:71-88 | `finalizeFile` stores the region image of the writes at the writer's path, and no other file or directory changes |
| IOFactory.FileName | core/src/main/kotlin/com/jokerhub/orzmc/world/McaIOFactory.kt:95 | `path.fileName` contains no separator |
| IOFactory.LastSegment | core/src/main/kotlin/com/jokerhub/orzmc/world/McaIOFactory.kt:95 | the last segment is a suffix of the path with no `/`, preceded by a `/` when it is not the whole path |
| IOFactory.FileNameOfChild | core/src/main/kotlin/com/jokerhub/orzmc/world/McaIOFactory.kt:95 | the file name of `dir/name` is `name` |
| IOFactory.LastSegmentAfterSlash | core/src/main/kotlin/com/jokerhub/orzmc/world/McaIOFactory.kt:95 | what follows a final `/` is the last segment |
| IOFactory.OpenReader | core/src/main/kotlin/com/jokerhub/orzmc/world/McaIOFactory.kt:92-96 | refuses any file system but the in-memory one; otherwise opens a reader over the stored bytes (empty for a missing file) exactly when the file name parses, at the parsed coordinates |
| IOFactory.CreateWriter | core/src/main/kotlin/com/jokerhub/orzmc/world/McaIOFactory.kt:98-101 | refuses any file system but the in-memory one; otherwise a fresh empty writer on that file system and path |
| MemFS.TrimEndSlash | core/src/main/kotlin/com/jokerhub/orzmc/world/FileSystem.kt:112 | `trimEnd('/')` is a prefix of the path that does not end in `/`, and everything it drops is `/` |
| MemFS.SelectFrom | core/src/main/kotlin/com/jokerhub/orzmc/world/FileSystem.kt:117-130 | one `forEach` over a snapshot reports every selected path of the pool, and only those, each once |
| MemFS.MemoryFS.constructor | core/src/main/kotlin/com/jokerhub/orzmc/world/FileSystem.kt:97-102 | a new in-memory file system has no directories and no files |
| MemFS.MemoryFS.Read | core/src/main/kotlin/com/jokerhub/orzmc/world/FileSystem.kt:163 | `read` gives a file's bytes and `null` for any path that is not a file |
| MemFS.MemoryFS.List | core/src/main/kotlin/com/jokerhub/orzmc/world/FileSystem.kt:111-132 | `list` reports the directories, then the files, whose path starts with the trimmed base, differs from it, and has no `/` left after removing `base/`; each part without repetition |
| MemFS.MemoryFS.Walk | core/src/main/kotlin/com/jokerhub/orzmc/world/FileSystem.kt:134-142 | `walk` reports every directory, then every file, whose path starts with the trimmed base, the base itself included |
| MemFS.MemoryFS.CreateDirectories | core/src/main/kotlin/com/jokerhub/orzmc/world/FileSystem.kt:144-146 | adds exactly the path to the directories, not its parents; files unchanged |
| MemFS.MemoryFS.DeleteIfExists | core/src/main/kotlin/com/jokerhub/orzmc/world/FileSystem.kt:148-151 | the path leaves both the files and the directories; nothing else changes |
| MemFS.MemoryFS.Copy | core/src/main/kotlin/com/jokerhub/orzmc/world/FileSystem.kt:153-157 | a missing source, or an existing destination when replacing is not allowed, fails and changes nothing; otherwise the destination gets the source's bytes and nothing else changes |
| MemFS.MemoryFS.Write | core/src/main/kotlin/com/jokerhub/orzmc/world/FileSystem.kt:159-161 | afterwards `read(path)` gives the bytes; every other file and every directory is unchanged |
| MemFS.MemoryFS.DeleteTreeWithRetry | core/src/main/kotlin/com/jokerhub/orzmc/world/FileSystem.kt:164-177 | always reports success; exactly the directories and files whose path starts with the trimmed root are removed, the others keep their contents, and the root no longer exists |
| MemFS.MemoryFS.DeleteAll | core/src/main/kotlin/com/jokerhub/orzmc/world/FileSystem.kt:167-169 | `deleteIfExists` on each target removes exactly the targets and keeps every other file's contents |
| MemFS.ListSharesPrefix | core/src/main/kotlin/com/jokerhub/orzmc/world/FileSystem.kt:119-121 | `list` compares strings rather than path components: under the relative base `region` the sibling `region2` is reported as a child, while an absolute base, a direct child and a grandchild behave as expected |
| MemFS.ListedBelowIsChild | core/src/main/kotlin/com/jokerhub/orzmc/world/FileSystem.kt:119-121 | a listed path below `base/` is `base/` followed by one name without `/` |
| Patterns.FindFromNone | core/src/main/kotlin/com/jokerhub/orzmc/patterns/InhabitedTimePattern.kt:30-42 | the scan from position `i` finds nothing exactly when no position from `i` on holds the 16-byte `InhabitedTime` long-tag prefix with eight bytes after it |
| Patterns.FindFromFirst | core/src/main/kotlin/com/jokerhub/orzmc/patterns/InhabitedTimePattern.kt:30-42 | the scan from `i` returns the big-endian long after the first such position |
| Patterns.FindInhabitedNone | core/src/main/kotlin/com/jokerhub/orzmc/patterns/InhabitedTimePattern.kt:22-43 | `findInhabitedFast` gives `null` if and only if the prefix occurs nowhere with eight bytes after it |
| Patterns.FindInhabitedFirst | core/src/main/kotlin/com/jokerhub/orzmc/patterns/InhabitedTimePattern.kt:22-43 | `findInhabitedFast` gives the value after the first occurrence of the prefix |
| Patterns.FindInhabitedFast | core/src/main/kotlin/com/jokerhub/orzmc/patterns/InhabitedTimePattern.kt:22-43 | the `while` loop over the positions returns the value-level scan result |
| Patterns.PrefixAt | core/src/main/kotlin/com/jokerhub/orzmc/patterns/InhabitedTimePattern.kt:32-35 | the inner byte-by-byte loop reports a match exactly when the prefix occurs at `i` |
| Patterns.InhabitedDecision | core/src/main/kotlin/com/jokerhub/orzmc/patterns/InhabitedTimePattern.kt:12-18 | a chunk whose inhabited time is known is kept iff the time reaches the threshold; an external record, an empty decoding or a missing tag is kept iff unknown chunks are not removed |
| Patterns.InhabitedMonotonic | core/src/main/kotlin/com/jokerhub/orzmc/patterns/InhabitedTimePattern.kt:12-18 | raising the threshold never keeps a chunk a lower threshold removed, and never changes whether the call throws |
| Patterns.InhabitedMatches | core/src/main/kotlin/com/jokerhub/orzmc/patterns/InhabitedTimePattern.kt:12-18 | `matches` through the entry's cursor is the value-level decision on the region bytes at the record's offset |
| Patterns.AnyCoordMember | core/src/main/kotlin/com/jokerhub/orzmc/patterns/ListPattern.kt:9 | `coords.any { ... }` holds iff the pair is in the list |
| Patterns.ListMembership | core/src/main/kotlin/com/jokerhub/orzmc/patterns/ListPattern.kt:6-10 | a list pattern matches iff the entry's global chunk coordinates are in the list; an empty list never matches |
| Patterns.ListOrderFree | core/src/main/kotlin/com/jokerhub/orzmc/patterns/ListPattern.kt:6-10 | the order and repetition of the pinned pairs do not change the decision |
| Patterns.ListReadsCoordinates | core/src/main/kotlin/com/jokerhub/orzmc/patterns/ListPattern.kt:6-10 | only the coordinates are read: two entries of the same slot of the same region agree whatever their files hold |
| Patterns.Matches | core/src/main/kotlin/com/jokerhub/orzmc/patterns/ChunkPattern.kt:5-7 | `matches` dispatched on the pattern kind is the value-level decision for that pattern |
| Nbt.UtfAt | core/src/main/kotlin/com/jokerhub/orzmc/world/NbtForceLoader.kt:57-62 | a name read ends exactly `2 + length` bytes on and inside the input |
| Nbt.LengthAt | core/src/main/kotlin/com/jokerhub/orzmc/world/NbtForceLoader.kt:95-111 | an array size takes four bytes inside the input |
| Nbt.IntsAt | core/src/main/kotlin/com/jokerhub/orzmc/world/NbtForceLoader.kt:106 | `n` big-endian `Int`s take `4n` bytes inside the input |
| Nbt.LongsAt | core/src/main/kotlin/com/jokerhub/orzmc/world/NbtForceLoader.kt:112 | `n` big-endian `Long`s take `8n` bytes inside the input |
| Nbt.PayloadAt | core/src/main/kotlin/com/jokerhub/orzmc/world/NbtForceLoader.kt:86-117 | every payload that reads consumes at least one byte and stays inside the input |
| Nbt.ListAt | core/src/main/kotlin/com/jokerhub/orzmc/world/NbtForceLoader.kt:64-72 | a list that reads consumes at least its header and stays inside the input |
| Nbt.ItemsFrom | core/src/main/kotlin/com/jokerhub/orzmc/world/NbtForceLoader.kt:68-70 | reading the remaining items never moves backwards or past the input |
| Nbt.CompoundFrom | core/src/main/kotlin/com/jokerhub/orzmc/world/NbtForceLoader.kt:74-84 | a compound that reads consumes at least its end tag and stays inside the input |
| Nbt.ForcedPairs | core/src/main/kotlin/com/jokerhub/orzmc/world/NbtForceLoader.kt:35-41 | the `Forced` loop yields one pair per two longs; an odd last long is dropped |
| Nbt.TicketOf | core/src/main/kotlin/com/jokerhub/orzmc/world/NbtForceLoader.kt:44-51 | a ticket contributes at most one pair |
| Nbt.TicketPairsMembers | core/src/main/kotlin/com/jokerhub/orzmc/world/NbtForceLoader.kt:42-52 | a pair comes from the tickets iff some ticket is a compound of type `minecraft:forced` whose `chunk_pos` is two `Int`s equal to it |
| Nbt.DataInput.constructor | core/src/main/kotlin/com/jokerhub/orzmc/world/NbtForceLoader.kt:26-27 | a data stream over the gunzipped bytes starts at position 0 |
| Nbt.DataInput.ReadFully | core/src/main/kotlin/com/jokerhub/orzmc/world/NbtForceLoader.kt:60 | `readFully` of `n` bytes agrees with the value-level read: the bytes and the new position, or end of stream |
| Nbt.DataInput.ReadByte | core/src/main/kotlin/com/jokerhub/orzmc/world/NbtForceLoader.kt:77 | `readByte` gives the signed byte at the position and advances one, or fails at the end of the stream |
| Nbt.DataInput.ReadInt | core/src/main/kotlin/com/jokerhub/orzmc/world/NbtForceLoader.kt:66 | `readInt` gives the big-endian `Int` at the position and advances four, or fails at the end of the stream |
| Nbt.DataInput.ReadLong | core/src/main/kotlin/com/jokerhub/orzmc/world/NbtForceLoader.kt:91 | `readLong` gives the big-endian `Long` at the position and advances eight, or fails at the end of the stream |
| Nbt.ReadUtf | core/src/main/kotlin/com/jokerhub/orzmc/world/NbtForceLoader.kt:57-62 | `readUtf` through the stream agrees with the value-level name read |
| Nbt.ReadLength | core/src/main/kotlin/com/jokerhub/orzmc/world/NbtForceLoader.kt:95-96 | the array size and the allocation agree with the value-level read, a negative size failing |
| Nbt.ReadInts | core/src/main/kotlin/com/jokerhub/orzmc/world/NbtForceLoader.kt:103-108 | the loop filling an `IntArray` agrees with reading `len` `Int`s |
| Nbt.ReadLongs | core/src/main/kotlin/com/jokerhub/orzmc/world/NbtForceLoader.kt:109-114 | the loop filling a `LongArray` agrees with reading `len` `Long`s |
| Nbt.ReadPayload | core/src/main/kotlin/com/jokerhub/orzmc/world/NbtForceLoader.kt:86-117 | the `when` on the tag type agrees with the value-level payload, an unknown type failing |
| Nbt.ReadList | core/src/main/kotlin/com/jokerhub/orzmc/world/NbtForceLoader.kt:64-72 | `readList` agrees with the value-level list read |
| Nbt.ReadCompound | core/src/main/kotlin/com/jokerhub/orzmc/world/NbtForceLoader.kt:74-84 | `readCompound` agrees with the value-level compound read |
| Nbt.ReadEntry | core/src/main/kotlin/com/jokerhub/orzmc/world/NbtForceLoader.kt:77-81 | one turn of the loop fails as the compound does, stops at the end tag with the map so far, or consumes one entry and continues with it added |
| Nbt.CollectForced | core/src/main/kotlin/com/jokerhub/orzmc/world/NbtForceLoader.kt:35-41 | the `Forced` loop appends exactly the pairs of consecutive longs, each truncated to an `Int` |
| Nbt.CollectTickets | core/src/main/kotlin/com/jokerhub/orzmc/world/NbtForceLoader.kt:42-52 | the `tickets` loop appends exactly the tickets' pairs, in list order |
| Nbt.Parse | core/src/main/kotlin/com/jokerhub/orzmc/world/NbtForceLoader.kt:25-55 | `parse` on the gunzipped bytes is the value-level result: a root that is not a compound (or unreadable input) fails, a missing `data` gives no pairs, otherwise the `Forced` pairs then the ticket pairs |
| Nbt.CompoundStep | core/src/main/kotlin/com/jokerhub/orzmc/world/NbtForceLoader.kt:77-81 | an entry whose type, name and payload read adds its value to the map, and the compound goes on after it |
| Nbt.LastWins | core/src/main/kotlin/com/jokerhub/orzmc/world/NbtForceLoader.kt:81 | when a name occurs twice in a compound, the later value replaces the earlier |
| Nbt.UtfRead | core/src/main/kotlin/com/jokerhub/orzmc/world/NbtForceLoader.kt:57-62 | an encoded name reads back as itself |
| Nbt.LongsRead | core/src/main/kotlin/com/jokerhub/orzmc/world/NbtForceLoader.kt:112 | encoded longs read back as themselves |
| Nbt.StringRead | core/src/main/kotlin/com/jokerhub/orzmc/world/NbtForceLoader.kt:100 | an encoded string payload reads back as a string tag |
| Nbt.PosRead | core/src/main/kotlin/com/jokerhub/orzmc/world/NbtForceLoader.kt:103-108 | an encoded two-element int array reads back as that array |
| Nbt.TicketRead | core/src/main/kotlin/com/jokerhub/orzmc/world/NbtForceLoader.kt:102 | an encoded forced ticket compound reads back as its tag |
| Nbt.TicketsRead | core/src/main/kotlin/com/jokerhub/orzmc/world/NbtForceLoader.kt:68-70 | a run of encoded tickets reads back as their tags, after the items already read |
| Nbt.TicketTagsPairs | core/src/main/kotlin/com/jokerhub/orzmc/world/NbtForceLoader.kt:44-51 | the pairs of encoded forced tickets are the tickets themselves |
| Nbt.ForcedRead | core/src/main/kotlin/com/jokerhub/orzmc/world/NbtForceLoader.kt:109-114 | an encoded long array reads back as itself |
| Nbt.ListOfCompounds | core/src/main/kotlin/com/jokerhub/orzmc/world/NbtForceLoader.kt:64-72 | a list of compounds whose items read is a list tag of those items |
| Nbt.TicketListRead | core/src/main/kotlin/com/jokerhub/orzmc/world/NbtForceLoader.kt:64-72 | an encoded list of tickets reads back as the list of their tags |
| Nbt.ForcedEntryRead | core/src/main/kotlin/com/jokerhub/orzmc/world/NbtForceLoader.kt:77-81 | the encoded `Forced` entry adds its long array to the compound |
| Nbt.TicketsEntryRead | core/src/main/kotlin/com/jokerhub/orzmc/world/NbtForceLoader.kt:77-81 | the encoded `tickets` entry adds its list to the compound |
| Nbt.DataRead | core/src/main/kotlin/com/jokerhub/orzmc/world/NbtForceLoader.kt:74-84 | the encoded `data` compound reads back as the map of `Forced` and `tickets` |
| Nbt.CompoundPayload | core/src/main/kotlin/com/jokerhub/orzmc/world/NbtForceLoader.kt:102 | a compound payload is the compound read from its first entry |
| Nbt.RootOf | core/src/main/kotlin/com/jokerhub/orzmc/world/NbtForceLoader.kt:28-31 | an unnamed root compound whose only entry is `data` decodes to that map |
| Nbt.RootRead | core/src/main/kotlin/com/jokerhub/orzmc/world/NbtForceLoader.kt:28-31 | the encoded chunks file decodes to a root holding `data` |
| Nbt.ParseChunksFile | core/src/main/kotlin/com/jokerhub/orzmc/world/NbtForceLoader.kt:25-55 | from a file holding a `Forced` array and a list of forced tickets, the loader reads back the pairs of the array followed by the tickets |
| Report.EscOnePass | core/src/main/kotlin/com/jokerhub/orzmc/world/Report.kt:16 | the two `replace` passes of `esc` act as one pass over the characters: `\\` becomes `\\\\`, `"` becomes `\\"`, every other character is copied; the second pass never touches what the first one wrote |
| Report.ReadEscaped | core/src/main/kotlin/com/jokerhub/orzmc/world/Report.kt:16-27 | an escaped string followed by a quote reads back as the string: no escaped character can close the JSON literal early |
| Report.ReadEsc | core/src/main/kotlin/com/jokerhub/orzmc/world/Report.kt:16-27 | the same for `esc` itself |
| Report.ReadShown | core/src/main/kotlin/com/jokerhub/orzmc/world/Report.kt:20-36 | a number appended to the builder reads back as that number |
| Report.ToJson | core/src/main/kotlin/com/jokerhub/orzmc/world/Report.kt:18-31 | the builder loop produces the JSON text: both counts, then every error object in list order, separated by single commas |
| Report.JsonAppendStep | core/src/main/kotlin/com/jokerhub/orzmc/world/Report.kt:23-28 | one more error appended to the builder, with a comma before all but the first, extends the text of the errors so far |
| Report.JsonRoundTrip | core/src/main/kotlin/com/jokerhub/orzmc/world/Report.kt:18-31 | every report written by `toJson` reads back as itself: both counts, and every error in order with path, kind and message exact, whatever backslashes and quotes they hold |
| Report.ToCsv | core/src/main/kotlin/com/jokerhub/orzmc/world/Report.kt:33-47 | the builder produces the CSV text: the column line, the counts and the error count, the field-name line, then one line per error with every field quoted and its quotes doubled |
| Report.ReadCsvQuoted | core/src/main/kotlin/com/jokerhub/orzmc/world/Report.kt:39-44 | a quoted field with its quotes doubled reads back as the field when no quote follows its closing quote |
| Report.CsvRoundTrip | core/src/main/kotlin/com/jokerhub/orzmc/world/Report.kt:33-47 | every report written by `toCsv` reads back as itself, its error count agreeing with the error lines |
| Report.TrimEnd | core/src/main/kotlin/com/jokerhub/orzmc/world/Report.kt:60 | `trimEnd()` keeps the longest prefix that does not end in whitespace and cuts only whitespace |
| Report.ToText | core/src/main/kotlin/com/jokerhub/orzmc/world/Report.kt:49-61 | the builder produces the summary line, the error heading and error lines only when there are errors, and trims the trailing whitespace |
| Report.TextNoErrors | core/src/main/kotlin/com/jokerhub/orzmc/world/Report.kt:51-60 | without errors the text is the summary line alone, ending in `errors=0` |
| Report.TextWithErrors | core/src/main/kotlin/com/jokerhub/orzmc/world/Report.kt:49-61 | with errors the text is the summary, the heading and every error line, the last message cut of its trailing whitespace (when it holds anything else) and nothing after it |
| Report.TrimLast | core/src/main/kotlin/com/jokerhub/orzmc/world/Report.kt:60 | trimming a text that ends with a message and a line break cuts only that message's trailing whitespace |
| Report.LowerAsciiString | core/src/main/kotlin/com/jokerhub/orzmc/world/Report.kt:64 | lower-casing maps each character and keeps the length |
| Report.CsvSpellings | core/src/main/kotlin/com/jokerhub/orzmc/world/Report.kt:64-68 | CSV is chosen for exactly the eight upper/lower-case spellings of `csv`; any other format string, empty included, chooses JSON |
| Report.RenderedRoundTrip | core/src/main/kotlin/com/jokerhub/orzmc/world/Report.kt:63-68 | whatever the format string, the content `write` stores reads back as the report with the decoder of the chosen format |
| MemoryBuilder.InhabitedTag | core/src/test/kotlin/com/jokerhub/orzmc/util/McaMemoryBuilder.kt:17-29 | the tag is the 16-byte long-tag prefix of `InhabitedTime` followed by the eight value bytes |
| MemoryBuilder.InhabitedTagFound | core/src/test/kotlin/com/jokerhub/orzmc/util/McaMemoryBuilder.kt:17-29 | the pattern's scan of a built tag finds exactly the value it was built with |
| MemoryBuilder.Compress | core/src/test/kotlin/com/jokerhub/orzmc/util/McaMemoryBuilder.kt:31-69 | the method byte the builder writes for each kind is read by the region reader as that kind's method: RAW 3, ZLIB 2, GZIP 1, LZ4 4 |
| MemoryBuilder.RecordBytes | core/src/test/kotlin/com/jokerhub/orzmc/util/McaMemoryBuilder.kt:118-121 | a record is `putInt(1 + body.size)`, the method byte and the body: five bytes more than the body |
| MemoryBuilder.RegionBuffers.constructor | core/src/test/kotlin/com/jokerhub/orzmc/util/McaMemoryBuilder.kt:109-114 | the builder starts with zero header arrays, an empty data stream and `offsetBytes` 8192 |
| MemoryBuilder.RegionBuffers.WriteOne | core/src/test/kotlin/com/jokerhub/orzmc/util/McaMemoryBuilder.kt:115-133 | one chunk's step is accepted exactly when the value-level step is: the padded record goes on the stream and its slot's words into both header arrays; a refused step (bad slot position, oversized stream) leaves the writes unchanged |
| MemoryBuilder.RegionBuffers.Append | core/src/test/kotlin/com/jokerhub/orzmc/util/McaMemoryBuilder.kt:118-132 | an accepted step adds exactly that record, at its slot, with its timestamp |
| MemoryBuilder.AppendedState | core/src/test/kotlin/com/jokerhub/orzmc/util/McaMemoryBuilder.kt:118-132 | after one more accepted write, the header arrays, the stream and `offsetBytes` are those of the writes so far followed by that write |
| MemoryBuilder.RegionBuffers.WritePadded | core/src/test/kotlin/com/jokerhub/orzmc/util/McaMemoryBuilder.kt:118-132 | the stream gains the record and its zero padding; `offsetBytes` advances by the padded length |
| MemoryBuilder.RegionBuffers.PutWords | core/src/test/kotlin/com/jokerhub/orzmc/util/McaMemoryBuilder.kt:128-131 | the slot's location word and timestamp replace exactly that slot's four bytes in each header table |
| MemoryBuilder.RegionBuffers.Finish | core/src/test/kotlin/com/jokerhub/orzmc/util/McaMemoryBuilder.kt:134-140 | the result is the header arrays followed by the data: the region image of the writes |
| MemoryBuilder.TablesWords | core/src/test/kotlin/com/jokerhub/orzmc/util/McaMemoryBuilder.kt:125-132 | after one write the location and timestamp words differ from the old ones only at the slot written, and the data grows by the padded record |
| MemoryBuilder.Slot | core/src/test/kotlin/com/jokerhub/orzmc/util/McaMemoryBuilder.kt:128-131 | a `position(c.index * 4)` that `putInt` accepts is four times a slot index |
| MemoryBuilder.WordOf | core/src/test/kotlin/com/jokerhub/orzmc/util/McaMemoryBuilder.kt:125-127 | without wrap-around the builder's `(offSectors shl 8) or (sizeSectors and 0xFF)` is the writer's location word |
| MemoryBuilder.LocWordsStep | core/src/test/kotlin/com/jokerhub/orzmc/util/McaMemoryBuilder.kt:125-129 | a write to slot `i` changes only word `i` of the location words |
| MemoryBuilder.PutWord | core/src/test/kotlin/com/jokerhub/orzmc/util/McaMemoryBuilder.kt:128-131 | `position(4i)` then `putInt(v)` replaces word `i` of the header array and nothing else |
| MemoryBuilder.BuildMca | core/src/test/kotlin/com/jokerhub/orzmc/util/McaMemoryBuilder.kt:108-141 | the loop over the chunks produces the value-level build: one record per chunk in order, the two tables in front, or the error of the first refused chunk |
| MemoryBuilder.PutsStops | core/src/test/kotlin/com/jokerhub/orzmc/util/McaMemoryBuilder.kt:115-133 | a refused chunk fails the whole build with its error |
| MemoryBuilder.BuildSingleEntryMca | core/src/test/kotlin/com/jokerhub/orzmc/util/McaMemoryBuilder.kt:71-106 | `buildSingleEntryMca` is `buildMca` of the one chunk |
| MemoryBuilder.PutsShape | core/src/test/kotlin/com/jokerhub/orzmc/util/McaMemoryBuilder.kt:115-133 | a successful build writes one record per chunk, in chunk order, each at its slot with its clock reading, and the image stays within an `Int` |
| MemoryBuilder.RecordAt | core/src/test/kotlin/com/jokerhub/orzmc/util/McaMemoryBuilder.kt:31-121 | a record the builder frames is never external, and decodes back to its payload whenever the foreign codec inverts the compressor on it |
| MemoryBuilder.RecordPayload | core/src/test/kotlin/com/jokerhub/orzmc/util/McaMemoryBuilder.kt:118-121 | `dataBytes` of a framed record is its method and its body |
| MemoryBuilder.RecordHeader | core/src/test/kotlin/com/jokerhub/orzmc/util/McaMemoryBuilder.kt:118-121 | the header of a framed record is length `1 + body.size` and the method its byte names, and the record reads back whole from its first byte |
| MemoryBuilder.BuiltReadsBack | core/src/test/kotlin/com/jokerhub/orzmc/util/McaMemoryBuilder.kt:108-141 | a built file lists exactly the chunks' slots. Every listed entry is the last chunk written to its slot: same slot and timestamp, its inhabited time read back, and that time deciding `InhabitedTimePattern`. Conversely, every chunk's slot is listed. This holds given codecs that invert each other and records of at most 255 sectors |
| MemoryBuilder.EntryIsLastChunk | core/src/test/kotlin/com/jokerhub/orzmc/util/McaMemoryBuilder.kt:108-141 | one listed entry of a built file reads back as the last chunk given for its slot |
| MemoryBuilder.ChunkSlotListed | core/src/test/kotlin/com/jokerhub/orzmc/util/McaMemoryBuilder.kt:108-141 | the slot of each chunk given to the builder appears among the entries read back |
| MemoryBuilder.BuiltRecords | core/src/test/kotlin/com/jokerhub/orzmc/util/McaMemoryBuilder.kt:108-141 | the writes of a successful build fit a region file and each reads back whole |
| MemoryBuilder.EntryOfChunk | core/src/test/kotlin/com/jokerhub/orzmc/util/McaMemoryBuilder.kt:115-133 | an entry whose record is the chunk's record and whose slot and stamp are the chunk's reads back as the chunk |
| DimensionProcessor.Repeat | core/src/main/kotlin/com/jokerhub/orzmc/world/DimensionProcessor.kt:62-69 | the `Pattern` reports for `n` throwing pattern calls: exactly `n` copies of the same report |
| DimensionProcessor.EntriesAsChunks | core/src/main/kotlin/com/jokerhub/orzmc/world/DimensionProcessor.kt:57-61 | the entries the loop iterates stand one for one, in slot order, for the occupied chunks of the header, all read through the reader's own file |
| DimensionProcessor.KeepIffSomeMatch | core/src/main/kotlin/com/jokerhub/orzmc/world/DimensionProcessor.kt:62-69 | a chunk is kept if and only if some pattern answers `true` for it; a pattern that throws counts as no match |
| DimensionProcessor.KeepStopsAtMatch | core/src/main/kotlin/com/jokerhub/orzmc/world/DimensionProcessor.kt:62-69 | at most one failure per pattern is reported, and once a pattern matches the patterns after it change neither the decision nor the reports (the loop breaks) |
| DimensionProcessor.Keep | core/src/main/kotlin/com/jokerhub/orzmc/world/DimensionProcessor.kt:62-69 | the pattern loop on an entry keeps it exactly as the pattern decision says and appends one `Pattern` report per pattern call that threw |
| DimensionProcessor.KeptOrDropped | core/src/main/kotlin/com/jokerhub/orzmc/world/DimensionProcessor.kt:70-89 | every visited chunk is either kept or counted as removed: kept plus removed equals visited |
| DimensionProcessor.KeptChunks | core/src/main/kotlin/com/jokerhub/orzmc/world/DimensionProcessor.kt:62-70 | the chunks the patterns keep are a subsequence no longer than the listed chunks |
| DimensionProcessor.AdvanceWraps | core/src/main/kotlin/com/jokerhub/orzmc/world/DimensionProcessor.kt:90 | `n` successive `incrementAndGet` calls on a `Long` wrap exactly like one 64-bit addition of `n` |
| DimensionProcessor.EntryStepEffect | core/src/main/kotlin/com/jokerhub/orzmc/world/DimensionProcessor.kt:62-99 | one entry: the counter goes up by one, the removed count by one iff the chunk is not kept, the clock is read once in time mode, the region writer gets the chunk's record and each sibling writer its slot's record iff kept, events are only appended and in count mode are exactly the milestone at the new count |
| DimensionProcessor.ChunksRunEffect | core/src/main/kotlin/com/jokerhub/orzmc/world/DimensionProcessor.kt:61-100 | the whole entry loop: processed advances by the number of chunks, removed by the number not kept, the region writer receives the readable records of the kept chunks in order and each sibling writer what it forwards for the kept slots, outputs are untouched, events are only appended and in count mode are exactly the milestones passed |
| DimensionProcessor.LoopWritesKept | core/src/main/kotlin/com/jokerhub/orzmc/world/DimensionProcessor.kt:70-85 | the writers see only the kept chunks: each receives, in order, what the kept chunks give it, independent of the dropped ones |
| DimensionProcessor.ChunksRunEvents | core/src/main/kotlin/com/jokerhub/orzmc/world/DimensionProcessor.kt:90-99 | progress events are only ever appended, and with no time interval they are exactly one per multiple of `progressInterval` the counter passes |
| DimensionProcessor.OutcomesAgree | core/src/main/kotlin/com/jokerhub/orzmc/world/DimensionProcessor.kt:62-85 | for a region file's bytes the per-chunk outcomes give the reference definitions: the chunks kept by the patterns, their readable records, and the sibling records of their slots |
| DimensionProcessor.SiblingRecordsAtKeptSlots | core/src/main/kotlin/com/jokerhub/orzmc/world/DimensionProcessor.kt:72-85 | every record a sibling writer receives is the sibling file's record for the slot of some kept chunk |
| DimensionProcessor.NoMilestonesWithoutInterval | core/src/main/kotlin/com/jokerhub/orzmc/world/DimensionProcessor.kt:97-99 | with neither a time nor a positive count interval the entry loop emits no progress event |
| DimensionProcessor.SiblingFile | core/src/main/kotlin/com/jokerhub/orzmc/world/DimensionProcessor.kt:52-55 | a sibling reader is used exactly when the sibling file exists and passes `isValidMca`, and then reads that file's bytes |
| DimensionProcessor.CorruptRegionSkipped | core/src/main/kotlin/com/jokerhub/orzmc/world/DimensionProcessor.kt:41-45 | outside strict mode a corrupt `.mca` file yields `RegionStart` and one `MCA` report and nothing else: no chunk visited, no file written |
| DimensionProcessor.StrictCorruptRegion | core/src/main/kotlin/com/jokerhub/orzmc/world/DimensionProcessor.kt:42-60 | in strict mode a corrupt file is reported as `MCA` and still opened; its header fails, so an `Entries` report follows, the counts stay, and an empty region file is written |
| DimensionProcessor.FilePassEffect | core/src/main/kotlin/com/jokerhub/orzmc/world/DimensionProcessor.kt:51-103 | one region file's pass: processed advances by its chunks, removed by those not kept, the region output is the region image of the kept readable records in slot order and each present sibling's output the image of what it forwards for the kept slots |
| DimensionProcessor.FinishedOutputs | core/src/main/kotlin/com/jokerhub/orzmc/world/DimensionProcessor.kt:101-103 | finalizing writes the region file, and each sibling file that has a writer, as the region image of the records that writer received |
| DimensionProcessor.OpenedStepEffect | core/src/main/kotlin/com/jokerhub/orzmc/world/DimensionProcessor.kt:51-103 | an opened file: the counters advance by its listed chunks and the kept ones, and its region output is the image of the kept records, whether or not the header could be listed |
| DimensionProcessor.OutputsDistinct | core/src/main/kotlin/com/jokerhub/orzmc/world/DimensionProcessor.kt:52-55 | the region, entities and poi outputs of one region file are three different paths |
| DimensionProcessor.RegionStepEffect | core/src/main/kotlin/com/jokerhub/orzmc/world/DimensionProcessor.kt:40-104 | one listed file: processed advances by the chunks it visits, removed by those no pattern keeps, and either nothing is written or the region output is the image of the kept records; events are only appended |
| DimensionProcessor.FileStepEffect | core/src/main/kotlin/com/jokerhub/orzmc/world/DimensionProcessor.kt:41-104 | the same given the coordinates parsed from the file name: a name that does not parse visits nothing and writes nothing |
| DimensionProcessor.RegionsRunCounts | core/src/main/kotlin/com/jokerhub/orzmc/world/DimensionProcessor.kt:40-104 | over the region loop the counter advances by the visited chunks of all files and the removed count by the visited chunks no pattern keeps |
| DimensionProcessor.DimensionTotals | core/src/main/kotlin/com/jokerhub/orzmc/world/DimensionProcessor.kt:16-107 | without a `region` directory, `process` fails with `NoSuchFile` after only the start event, with nothing counted, reported or written. Otherwise it returns the shared counter advanced once per visited chunk and a removed count once per dropped chunk (both with `Long` wrap-around), and its events open with `DimensionStart` and close with `DimensionEnd` |
| DimensionProcessor.OutputsInCreatedDirs | core/src/main/kotlin/com/jokerhub/orzmc/world/DimensionProcessor.kt:29-55 | every file `process` writes is `sub/name` for a subdirectory `sub` it created first (`region`, and `entities` or `poi` only when the input has them), and no output lies under `entities/` or `poi/` when the input lacks that directory |
| DimensionProcessor.RegionsRunKeepsEvents | core/src/main/kotlin/com/jokerhub/orzmc/world/DimensionProcessor.kt:40-104 | the region loop never drops or reorders an event already emitted |
| DimensionProcessor.ProcessedCounter.constructor | core/src/main/kotlin/com/jokerhub/orzmc/world/DimensionProcessor.kt:25 | the shared counter starts at the value it is given |
| DimensionProcessor.ProcessedCounter.IncrementAndGet | core/src/main/kotlin/com/jokerhub/orzmc/world/DimensionProcessor.kt:90 | `incrementAndGet` adds one with `Long` wrap-around and returns the new value |
| DimensionProcessor.Throttle | core/src/main/kotlin/com/jokerhub/orzmc/world/DimensionProcessor.kt:90-99 | the counter increment and the progress rule: in time mode the clock is read and an event goes out once the wrapped difference reaches the interval, otherwise an event goes out at each multiple of the count interval |
| DimensionProcessor.ForwardSibling | core/src/main/kotlin/com/jokerhub/orzmc/world/DimensionProcessor.kt:72-85 | for one sibling: no sibling forwards nothing; a failing open or lookup is one read report; an empty slot forwards nothing; a record that cannot be read back is one write report; otherwise the slot's record is appended to the sibling writer |
| DimensionProcessor.ReadSibling | core/src/main/kotlin/com/jokerhub/orzmc/world/DimensionProcessor.kt:73-74 | opening the sibling's bytes and looking up the slot fails exactly when the sibling lookup is a read failure, and otherwise hands on the entry found |
| DimensionProcessor.ForwardKept | core/src/main/kotlin/com/jokerhub/orzmc/world/DimensionProcessor.kt:70-85 | a kept entry: the region writer gets its record, the sibling writers the slot's records, and the reports are those of the three copies, in that order |
| DimensionProcessor.WriteKept | core/src/main/kotlin/com/jokerhub/orzmc/world/DimensionProcessor.kt:71 | the kept entry's record goes to the region writer only, and a record that cannot be read is one `Write` report |
| DimensionProcessor.WriteRegion | core/src/main/kotlin/com/jokerhub/orzmc/world/DimensionProcessor.kt:71 | `cw.writeEntry` appends the entry's readable record and keeps the writer valid; an unreadable record is one `Write` report and no record |
| DimensionProcessor.ForwardSiblings | core/src/main/kotlin/com/jokerhub/orzmc/world/DimensionProcessor.kt:72-85 | both siblings of a kept slot, `entities` first, each receiving what its lookup forwards |
| DimensionProcessor.ProcessEntry | core/src/main/kotlin/com/jokerhub/orzmc/world/DimensionProcessor.kt:62-99 | the loop body on the real writers and counter equals the model's step (`Tick` of `Judgement`, and `WritesAfter`): the judgement on the run, the kept records on the writers, then the tick |
| DimensionProcessor.JudgeEntry | core/src/main/kotlin/com/jokerhub/orzmc/world/DimensionProcessor.kt:62-89 | the pattern loop, then the copy of a kept entry or one more removed chunk, as the judgement states |
| DimensionProcessor.ProcessEntries | core/src/main/kotlin/com/jokerhub/orzmc/world/DimensionProcessor.kt:61-100 | the entry loop over the listed entries produces exactly the model's pass (`ChunksRun`) over their chunks, on the run and on all three writers |
| DimensionProcessor.ProcessOpened | core/src/main/kotlin/com/jokerhub/orzmc/world/DimensionProcessor.kt:51-103 | an opened file: entries listed, writers created, the entry loop, the writers finalized, giving exactly the model's step for the file (`OpenedStep`) |
| DimensionProcessor.OpenWriters | core/src/main/kotlin/com/jokerhub/orzmc/world/DimensionProcessor.kt:51-55 | fresh, separate writers at `target/region/<name>`, and at `target/entities/<name>` and `target/poi/<name>` exactly when those siblings are usable |
| DimensionProcessor.SiblingWriter | core/src/main/kotlin/com/jokerhub/orzmc/world/DimensionProcessor.kt:54-55 | a sibling writer is created exactly when the sibling is present and starts empty at its path |
| DimensionProcessor.ListEntries | core/src/main/kotlin/com/jokerhub/orzmc/world/DimensionProcessor.kt:57-60 | the entries of an open file are the listed chunks; a header that cannot be read gives one `Entries` report and no entries |
| DimensionProcessor.FinishWriters | core/src/main/kotlin/com/jokerhub/orzmc/world/DimensionProcessor.kt:101-103 | finalizing the writers adds the region file and each present sibling file to the outputs, as the images of what each writer received |
| DimensionProcessor.ProcessRegion | core/src/main/kotlin/com/jokerhub/orzmc/world/DimensionProcessor.kt:40-104 | one listed file: ignored unless it ends in `.mca`; `RegionStart`; a corrupt file reported and skipped outside strict mode; a file that cannot be opened is one `MCA` report; otherwise the opened-file step |
| DimensionProcessor.Process | core/src/main/kotlin/com/jokerhub/orzmc/world/DimensionProcessor.kt:16-108 | `process` first creates the target, its `region`, and its `entities` and `poi` exactly when the input has them. Without a `region` directory it then fails with `NoSuchFile`, after the start event. Otherwise it returns, reports, emits and writes exactly what the model of the whole dimension (`ProcessOf`) gives, and leaves the shared counter at its processed value |

## Left out

- `RafAccess`, `McaReader.open`, and the file-backed `McaWriter`'s exceptions: the real disk is not modelled. This covers a failing `RandomAccessFile`, `setLength` or `write`. The file writer works on its contents as a byte sequence.
- `RealFileSystem`, `MemoryFS.createTempDirectory`, `MemoryFS.toRealPath` and the staging-root deletion inside `deleteTreeWithRetry`: they touch the real disk and the wall clock.
- `ReportIO.write`'s parent-directory creation and `Files.writeString`: file I/O. The format choice and the content written are modelled.
- Concurrency: the shared `AtomicLong` and the `ConcurrentHashMap`s of `MemoryFS` are seen from one thread. Interleavings with other dimensions being processed at the same time are not modelled.
- The iteration order of `MemoryFS`'s hash containers: `list` and `walk` are stated up to order within directories and within files.
- DimensionProcessor.Process: finalize failures are not modelled. The model's finalize cannot fail, so the `Finalize`, `FinalizeEntities` and `FinalizePoi` reports never occur. The per-region `removed` counter, which the source increments but never reads, is also left out.
- DimensionProcessor.Process: a null `onProgress` is not distinguished from one that accepts every event. The events are always recorded as a sequence, whether or not anyone receives them.
- The gzip layer of `data/chunks.dat`, and NBT float and double payloads: the reader starts from the gunzipped bytes, and floats and doubles are kept as their 4 or 8 raw bytes.
- The foreign algorithms: DEFLATE (RFC 1951) with the zlib (RFC 1950) and gzip (RFC 1952) wrappers, lz4-java's block compressor and decompressor, and xxHash32. They are parameters, not definitions.
- `Optimizer`, `McaUtils` beyond the 8192-byte validity rule, `countTotalChunks`, `ForceLoad`, `Cleaner`, `Compressor`, the report and progress sinks, and the CLI: these are directory orchestration, thread pools, archives and console I/O. Their configuration (`totalChunks`, intervals, strict mode) enters the loop as parameters.
