# mysql-binlog core in Dafny

A model of the decoding core of `userqq/mysql-binlog`, a PHP client that
registers with a MySQL or MariaDB server as a replica, asks for the binary
log from a file and offset, and turns the row-based replication stream into
typed events. The model covers:

- the byte cursor (`Buffer` and its read and write traits): little- and
  big-endian fixed-width integers of 1 to 8 bytes, signed and unsigned; the
  length-coded ("coded binary") integer; length-prefixed and
  NUL-terminated strings; BIT values; the packed DECIMAL, DATE, DATETIME2,
  TIMESTAMP2 and TIME2 encodings (`bits.dfy`, `bytes.dfy`, `buffer.dfy`,
  `decimal.dfy`, `temporal.dfy`);
- the protocol enums (column types, optional-metadata block types, event
  types, capability flags) with their value and name tables
  (`column_type.dfy`, `optional_metadata_type.dfy`, `event_type.dfy`,
  `capability.dfy`);
- table-map decoding: the per-column metadata of `readColumns` and the
  optional-metadata blocks of `readOptionalMetadata` that name the columns
  and give their signedness, charsets, enum and set values and primary key
  (`column_metadata.dfy`, `optional_metadata.dfy`);
- row-image decoding in `RowFactory::readRows`: the columns bitmap, the
  null bitmap, the per-type field readers and the before/after images of an
  update (`rows.dfy`);
- the event readers and the events iterator's state machine: the 19-byte
  header, FORMAT_DESCRIPTION, ROTATE, HEARTBEAT, TABLE_MAP, QUERY, XID and
  the rows events of versions 1 and 2, the table filter, the resume
  position and the position bookkeeping (`events.dfy`, `event_stream.dfy`);
- the connection's wire layer over an in-memory byte stream: packet
  framing with 0xFFFFFF-byte continuation chunks, reply classification,
  the framing of what is sent, the server handshake, the capability mask,
  the handshake response and the REGISTER_SLAVE and BINLOG_DUMP payloads,
  and the choice of binlog file and position (`connection.dfy`).

Pure decoders are functions from the bytes and an offset to an
`Outcome` (a value or the exception the PHP code would raise); the
`Buffer`, `RowFactory`, `EventsIterator` and `Connection` objects, which
the PHP code updates in place, are classes whose methods are proved to
read and change exactly what those functions describe. Round trips
(encode, then decode) are proved for the integer codecs, the coded
binary, the temporal formats, the event header, packet framing, the
handshake (with the plugin name read by the corrected `readUntill`; as
written it keeps its NUL), the handshake response, the intended
REGISTER_SLAVE payload (as written the password is sent twice) and
BINLOG_DUMP.

Behaviours of the code a reader might not expect:

- a rows event on a filtered-out table returns before its rows are read
  and leaves the position where it was (`EventStream.EmitRows`);
- QUERY and XID events are decoded and counted but never returned to the
  consumer (`EventStream.Advance`);
- checksums are only checked by `assert()`, which is treated as disabled,
  so no checksum is compared;
- `selectBinlogPosition` always starts the dump at offset 4, whatever
  position is configured; resuming further on is done by the events
  iterator skipping events (`Connection.SelectBinlogPosition`,
  `EventStream.ResumeSkips`);
- `payloadSize` is `eventSize + 1 - checksumSize`: the buffer still holds
  the OK byte before the event (`Events.HeaderAt`).

## Model

| member | source | states |
|---|---|---|
| Bits.And | src/Connection/Buffer.php:171 | `a & b` is a natural no larger than either operand |
| Bits.AndBit | src/Connection/Buffer.php:171 | a bit of `a & b` is set exactly when it is set in both operands |
| Bits.OrBit | src/Connection/Buffer/UIntLeReadTrait.php:27-28 | a bit of `a \| b` is set exactly when it is set in either operand |
| Bits.AndPow2 | src/Connection/Buffer.php:171 | `$x & (1 << $k)` is zero exactly when bit k of x is clear |
| Bytes.LE | src/Connection/Buffer/UIntLeReadTrait.php:25-33 | a little-endian k-byte value is below 256^k |
| Bytes.BE | src/Connection/Buffer/IntBeReadTrait.php:42-52 | a big-endian k-byte value is below 256^k |
| Bytes.SignedRange | src/Connection/Buffer/IntLeReadTrait.php:25-34 | the two's-complement reading of a k-byte value lies in [-2^(8k-1), 2^(8k-1)) and agrees with the unsigned value modulo 256^k |
| Bytes.LETopBit | src/Connection/Buffer/IntLeReadTrait.php:30 | the last byte's top bit is set exactly when the little-endian value reaches the sign threshold, so testing the byte is testing the sign |
| Bytes.BETopBit | src/Connection/Buffer/IntBeReadTrait.php:18 | the first byte's top bit is set exactly when the big-endian value reaches the sign threshold |
| Bytes.LELast | src/Connection/Buffer/UIntLeReadTrait.php:52-62 | a little-endian value is the value of its lower bytes plus the last byte shifted by 8 times its position |
| Bytes.BEFirst | src/Connection/Buffer/IntBeReadTrait.php:42-52 | a big-endian value is its first byte shifted over the rest plus the value of the rest |
| Bytes.LEBytesAt | src/Connection/Buffer/UIntLeWriteTrait.php:46-52 | byte i a little-endian writer emits is floor(x / 256^i) mod 256, what `chr($x >> 8*i)` gives |
| Bytes.LEBytesRoundTrip | src/Connection/Buffer/UIntLeWriteTrait.php:46-52 | reading back the n bytes written for x < 256^n gives x |
| Bytes.LEBytesModulo | src/Connection/Buffer/UIntLeWriteTrait.php:13-19 | the bytes written depend only on x modulo 256^n (`chr` keeps the low byte) |
| Bytes.LEBytesSmall | src/Connection/Buffer/UIntLeWriteTrait.php:24-41 | the one- to four-byte writes are the low byte, then x>>8, x>>16, x>>24 each reduced modulo 256 |
| Bytes.Substr | src/Connection/Buffer.php:114-129 | PHP `substr`: a slice starting at `start`, of the requested length when the data holds it, of the rest when no length is given, and never longer than asked |
| Bytes.SubstrCut | src/Connection/Buffer.php:114-129 | `substr` with a negative length -k: the bytes from `start` up to k bytes before the end, and nothing when that point lies before `start` |
| Bytes.PhpSubstr | src/Connection/Buffer.php:114-129 | `substr` for any integer length: Substr for a length of 0 or more, SubstrCut for a negative one |
| Bytes.NatToDecDigits | src/Connection/Buffer/UIntLeReadTrait.php:133-138 | the decimal text of a count is all digits, with no leading zero unless it is 0 |
| Bytes.DecRoundTrip | src/Connection/Buffer/UIntLeReadTrait.php:133-138 | the decimal text `gmp_strval` gives reads back as the same number |
| Bytes.IntToDecShape | src/Connection/Buffer/DecimalReadTrait.php:30 | `(string) $int` starts with '-' exactly for negatives and is digits otherwise |
| Bytes.ZeroPadShape | src/Connection/Buffer/DecimalReadTrait.php:34 | `%0Nd` keeps the digits at the end and fills the front with '0' |
| Bytes.PadIntSign | src/Connection/Buffer/DateTimeReadTrait.php:41 | a zero-padded integer starts with '-' exactly when it is negative |
| Bytes.PadNatDigits | src/Connection/Buffer/DateTimeReadTrait.php:41 | a zero-padded count is all digits, exactly w of them when its digits fit |
| Buffers.CodedRoundTrip | src/Connection/Buffer.php:34-60 | every value a length-encoded integer can carry, written in its shortest form, decodes back to itself, null (prefix 251) kept apart from 0 |
| Buffers.Find | src/Connection/Buffer.php:133 | `strpos` with a one-byte needle: the first occurrence at or after `from`, or none when there is none |
| Buffers.Rev | src/Connection/Buffer.php:178 | `strrev`: the same length, character i taken from the mirrored position |
| Buffers.LowBits | src/Connection/Buffer.php:170-176 | the inner loop of readBit yields one character per bit below `end` |
| Buffers.ByteBits | src/Connection/Buffer.php:155-176 | the bit loop builds exactly the low `end` bits of the byte, least significant first |
| Buffers.BitsTextStep | src/Connection/Buffer.php:154-179 | one more byte appends that byte's reversed bit text to the text of the bytes before it |
| Buffers.BitsText | src/Connection/Buffer.php:154-179 | the text readBit builds: each byte's low BitEnd bits, most significant first, in byte order |
| Buffers.BitsTextShape | src/Connection/Buffer.php:154-179 | the text holds only '0' and '1'; for a non-negative bit count it has BitEnd(0) characters for the first byte and 8 for each further byte |
| Buffers.Repeat | src/Connection/Buffer.php:198 | `str_repeat` yields n copies, so the length is \|s\| * n |
| Buffers.Until | src/Connection/Buffer.php:131-139 | readUntill as intended: the bytes from the offset up to the first needle, none of them the needle, and the offset just past the needle, or the buffer length when there is no needle |
| Buffers.UntillAsWritten | src/Connection/Buffer.php:131-139 | readUntill as written: `substr` from the offset with the needle's absolute position minus one as the length, and the offset just past the needle; a needle at index 0 or none at all takes the rest and moves to the length |
| Buffers.UntillTakesTerminator | src/Connection/Buffer.php:134 | from offset 3 in "ab\0cd\0" the code as written returns "cd\0", terminator included, where the intended read gives "cd" |
| Buffers.Buffer.constructor | src/Connection/Buffer.php:27-32 | a new buffer starts at offset 0; its length defaults to the byte count |
| Buffers.Buffer.ReadLE | src/Connection/Buffer/UIntLeReadTrait.php:25-33 | reading n bytes least significant first moves the offset by n and yields their little-endian value |
| Buffers.Buffer.ReadBE | src/Connection/Buffer/IntBeReadTrait.php:42-52 | reading n bytes most significant first moves the offset by n and yields their big-endian value |
| Buffers.Buffer.ReadUInt8 | src/Connection/Buffer/UIntLeReadTrait.php:14-20 | one byte, offset advanced by one |
| Buffers.Buffer.ReadUInt16 | src/Connection/Buffer/UIntLeReadTrait.php:25-33 | the little-endian value of the next 2 bytes, below 2^16; offset advanced by 2 |
| Buffers.Buffer.ReadUInt24 | src/Connection/Buffer/UIntLeReadTrait.php:38-47 | the little-endian value of the next 3 bytes, below 2^24; offset advanced by 3 |
| Buffers.Buffer.ReadUInt32 | src/Connection/Buffer/UIntLeReadTrait.php:52-62 | the little-endian value of the next 4 bytes, below 2^32; offset advanced by 4 |
| Buffers.Buffer.ReadUInt40 | src/Connection/Buffer/UIntLeReadTrait.php:67-78 | the little-endian value of the next 5 bytes, below 2^40; offset advanced by 5 |
| Buffers.Buffer.ReadUInt48 | src/Connection/Buffer/UIntLeReadTrait.php:83-95 | the little-endian value of the next 6 bytes, below 2^48; offset advanced by 6 |
| Buffers.Buffer.ReadUInt56 | src/Connection/Buffer/UIntLeReadTrait.php:100-113 | the little-endian value of the next 7 bytes, below 2^56; offset advanced by 7 |
| Buffers.Buffer.ReadUInt64 | src/Connection/Buffer/UIntLeReadTrait.php:119-141 | values below 2^63 come back as an integer; larger ones, negative in PHP's 64-bit int, as their unsigned decimal text; the offset ends 8 bytes on |
| Buffers.Buffer.ReadInt8 | src/Connection/Buffer/IntLeReadTrait.php:14-20 | the byte read as two's complement |
| Buffers.Buffer.ReadInt16 | src/Connection/Buffer/IntLeReadTrait.php:25-34 | the next 2 bytes, little-endian, read as two's complement |
| Buffers.Buffer.ReadInt24 | src/Connection/Buffer/IntLeReadTrait.php:39-49 | the next 3 bytes, little-endian, read as two's complement |
| Buffers.Buffer.ReadInt32 | src/Connection/Buffer/IntLeReadTrait.php:54-65 | the next 4 bytes, little-endian, read as two's complement |
| Buffers.Buffer.ReadInt64 | src/Connection/Buffer/IntLeReadTrait.php:70-87 | the next 8 bytes, little-endian, wrapped into PHP's signed 64-bit range |
| Buffers.Buffer.ReadInt16Be | src/Connection/Buffer/IntBeReadTrait.php:13-22 | the next 2 bytes, big-endian, read as two's complement, the sign taken from the first byte |
| Buffers.Buffer.ReadInt24Be | src/Connection/Buffer/IntBeReadTrait.php:27-37 | the next 3 bytes, big-endian, read as two's complement |
| Buffers.Buffer.ReadInt32Be | src/Connection/Buffer/IntBeReadTrait.php:42-52 | the next 4 bytes, big-endian, read as two's complement |
| Buffers.Buffer.ReadInt40Be | src/Connection/Buffer/IntBeReadTrait.php:57-69 | the next 5 bytes, big-endian, read as two's complement |
| Buffers.Buffer.ReadCodedBinary | src/Connection/Buffer.php:34-60 | the offset moves past the prefix and the bytes it announces, and the result is what those bytes denote: null for 251, the prefix itself below 251, a 2-, 3- or 8-byte count for 252-254, an exception for 255 |
| Buffers.Buffer.ReadUIntBySize | src/Connection/Buffer.php:62-89 | widths 1 to 7 read that many bytes little-endian; any other width raises without moving |
| Buffers.Buffer.ReadIntBeBySize | src/Connection/Buffer.php:91-112 | width 1 reads an unsigned byte, widths 2 to 5 read signed big-endian; any other width raises without moving |
| Buffers.Buffer.Read | src/Connection/Buffer.php:114-129 | `read(0)` is empty and does not move; `read(null)` takes the rest and moves to the length; `read(n)` for n > 0 is `substr` and moves by n even past the end; `read(n)` for n < 0 stops \|n\| bytes before the end of the data (nothing when that is before the offset) and moves the offset back by \|n\| |
| Buffers.Buffer.ReadUntill | src/Connection/Buffer.php:131-139 | readUntill as written: result and new offset as the code computes them |
| Buffers.Buffer.ReadUntil | src/Connection/Buffer.php:131-139 | the corrected readUntill: result and offset are those of Buffers.Until |
| Buffers.Buffer.ReadVariableLengthString | src/Connection/Buffer.php:141-144 | a coded length, then that many bytes; a null length takes the rest and moves to the length; an invalid prefix raises |
| Buffers.Buffer.ReadLengthString | src/Connection/Buffer.php:146-149 | a 1- to 7-byte little-endian length, then that many bytes; other widths raise without moving |
| Buffers.Buffer.ReadBit | src/Connection/Buffer.php:151-182 | reads `bytes` bytes and renders them as '0'/'1' text, the first byte with only `bits % 8` bits (all 8 when that is 0, all `bits` when there is one byte); the text is only '0' and '1' and, for bits >= 0, has BitEnd(0) + 8·(bytes-1) characters |
| Buffers.Buffer.Slice | src/Connection/Buffer.php:184-187 | a fresh buffer over the next n bytes with offset 0 and length n; this buffer moves past them |
| Buffers.Buffer.Skip | src/Connection/Buffer.php:189-194 | the offset moves on by n |
| Buffers.Buffer.Write | src/Connection/Buffer.php:196-202 | appends `repeat` copies of the value and grows the length by as many bytes |
| Buffers.Buffer.Append | src/Connection/Buffer.php:204-210 | appends the other buffer's bytes; the length becomes the byte count |
| Buffers.Buffer.Rewind | src/Connection/Buffer.php:212-217 | `rewind()` returns to 0; `rewind(k)` steps back k bytes |
| Buffers.Buffer.WriteUInt8 | src/Connection/Buffer/UIntLeWriteTrait.php:13-19 | appends the low byte of the value; the length grows by 1 |
| Buffers.Buffer.WriteUint16 | src/Connection/Buffer/UIntLeWriteTrait.php:24-30 | appends the 2 little-endian bytes of the value; the length grows by 2 |
| Buffers.Buffer.WriteUint24 | src/Connection/Buffer/UIntLeWriteTrait.php:35-41 | appends the 3 little-endian bytes of the value; the length grows by 3 |
| Buffers.Buffer.WriteUInt32 | src/Connection/Buffer/UIntLeWriteTrait.php:46-52 | appends the 4 little-endian bytes of the value; the length grows by 4 |
| Temporal.DateRoundTrip | src/Connection/Buffer/DateTimeReadTrait.php:45-52 | a date packed as year·2^9 + month·2^5 + day fits in 3 bytes, and the masks and shifts readDate applies give back that year, month and day |
| Temporal.DateTime2RoundTrip | src/Connection/Buffer/DateTimeReadTrait.php:54-73 | the five DATETIME2 bytes packed from an in-range date and time (year·13 + month in 17 bits, then day, hour, minute, second) decode to the same six fields |
| Temporal.Time2RoundTrip | src/Connection/Buffer/DateTimeReadTrait.php:75-87 | the three TIME2 bytes packed from an hour, minute and second decode to the same clock |
| Temporal.TimestampTimeOfDay | src/Connection/Buffer/DateTimeReadTrait.php:12-43 | a TIMESTAMP2 value's seconds, minutes and hours are its remainders by 60, 60 and 24, and its date is the civil date of its day count |
| Temporal.CivilEpoch | src/Connection/Buffer/DateTimeReadTrait.php:28-41 | day 0 of the day-count-to-calendar arithmetic is 1970-01-01 |
| Temporal.CivilVector | src/Connection/Buffer/DateTimeReadTrait.php:28-41 | day 19675 is 2023-11-14 |
| Temporal.FracText | src/Connection/Buffer/DateTimeReadTrait.php:42 | `'.%-03.3s'` always yields a dot and three characters |
| Temporal.ReadFraction | src/Connection/Buffer/DateTimeReadTrait.php:42 | no suffix and no bytes read when fsp is 0; otherwise (fsp+1)>>1 bytes read signed big-endian (one byte unsigned) and rendered as the suffix |
| Temporal.ReadDate | src/Connection/Buffer/DateTimeReadTrait.php:45-52 | 3 bytes read; 0 renders as 0000-00-00, anything else as the year, month and day bit fields |
| Temporal.ReadDateTime2 | src/Connection/Buffer/DateTimeReadTrait.php:54-73 | 5 bytes plus the fraction read; the text is the six packed fields followed by the fraction suffix |
| Temporal.ReadTime2 | src/Connection/Buffer/DateTimeReadTrait.php:75-87 | 3 bytes plus the fraction read; the text is the packed hour, minute and second followed by the fraction suffix |
| Temporal.ReadTimestamp2 | src/Connection/Buffer/DateTimeReadTrait.php:12-43 | 4 signed big-endian bytes plus the fraction read; the text is the UTC calendar date and time of those seconds (the zero date for 0) followed by the fraction suffix |
| Decimals.Dig2Bytes | src/Connection/Buffer/DecimalReadTrait.php:17 | a leg of x leftover digits takes at most 4 bytes, and none exactly when x is 0 |
| Decimals.DecimalSizePositive | src/Connection/Buffer/DecimalReadTrait.php:19-23 | a DECIMAL with positive precision occupies a positive number of bytes: the leading leg, 4 per full integer leg, 4 per full fraction leg, and the trailing leg |
| Decimals.DecimalBounds | src/Connection/Buffer/DecimalReadTrait.php:17-23 | every leg of a stored DECIMAL lies within the bytes the whole value takes |
| Decimals.FlipTop | src/Connection/Buffer/DecimalReadTrait.php:28 | flipping the top bit of the first byte changes whether it is set |
| Decimals.FullLegsStep | src/Connection/Buffer/DecimalReadTrait.php:33-35 | one more full leg appends its nine-digit text to the text of the legs before it |
| Decimals.DecimalTextOf | src/Connection/Buffer/DecimalReadTrait.php:25-47 | the sign, then the leading leg, the full legs and the fraction, assembled in that order, are the decimal's text |
| Decimals.DecimalText | src/Connection/Buffer/DecimalReadTrait.php:25-47 | the text of the leg reader: a '-' for a value stored negative, the leading leg, the full integer legs and, for a positive scale, '.' and the fraction legs |
| Decimals.IntToDecDotFree | src/Connection/Buffer/DecimalReadTrait.php:30 | the leading leg's text holds no '.' |
| Decimals.PadIntDotFree | src/Connection/Buffer/DecimalReadTrait.php:34 | a `%09d` or `%0Nd` leg holds no '.' |
| Decimals.FullLegsDotFree | src/Connection/Buffer/DecimalReadTrait.php:33-35 | the full legs' text holds no '.' |
| Decimals.IntegerPartDotFree | src/Connection/Buffer/DecimalReadTrait.php:26-35 | the sign, the leading leg and the full integer legs hold no '.' |
| Decimals.DotIffScale | src/Connection/Buffer/DecimalReadTrait.php:37-38 | the decimal's text contains a '.' exactly when the scale is positive |
| Decimals.ReadLeg | src/Connection/Buffer/DecimalReadTrait.php:30 | a leg of 1 to 4 bytes read through readIntBeBySize, the one-byte case unsigned as written or signed when corrected |
| Decimals.ReadLegText | src/Connection/Buffer/DecimalReadTrait.php:34 | a full leg: 4 signed big-endian bytes, unmasked and zero-padded to nine digits |
| Decimals.ReadFullLegs | src/Connection/Buffer/DecimalReadTrait.php:33-35 | the loop reads n full legs, 4 bytes each, and yields their concatenated texts |
| Decimals.ReadHead | src/Connection/Buffer/DecimalReadTrait.php:29-31 | the leading leg is read only when it has bytes, and unmasked |
| Decimals.ReadTail | src/Connection/Buffer/DecimalReadTrait.php:44-46 | the trailing fraction leg is read only when it has bytes, unmasked and zero-padded to its digit count |
| Decimals.ReadFractionLegs | src/Connection/Buffer/DecimalReadTrait.php:37-47 | the full fraction legs, then the trailing leg, consuming 4 bytes per full leg plus the trailing leg's bytes |
| Decimals.ReadDecimalBody | src/Connection/Buffer/DecimalReadTrait.php:29-47 | the legs after the sign flip: exactly DecimalSize bytes consumed, and the text is DecimalText of the flipped bytes |
| Decimals.ReadDecimalLegs | src/Connection/Buffer/DecimalReadTrait.php:25-47 | the sign is taken from the top bit, which is toggled in the buffer itself, then the legs are read; the only byte changed is the first |
| Decimals.ReadDecimalAsWritten | src/Connection/Buffer/DecimalReadTrait.php:11-50 | readDecimal as written, single-byte legs read unsigned |
| Decimals.ReadDecimal | src/Connection/Buffer/DecimalReadTrait.php:11-50 | the corrected readDecimal, every leg read signed so that `^ -1` undoes the complement |
| Decimals.LegRoundTrip | src/Connection/Buffer/DecimalReadTrait.php:30 | a leg holding x, or its complement for a negative value, unmasks back to x when read signed |
| Decimals.OneByteLegAsWritten | src/Connection/Buffer/DecimalReadTrait.php:30 | the complemented one-byte leg 210 of the digits 45 unmasks to -211 when read unsigned and to 45 when read signed |
| Decimals.DecimalVector | src/Connection/Buffer/DecimalReadTrait.php:11-50 | -123.45 stored as DECIMAL(10,2) assembles to "-123.-211" as written and to "-123.45" when corrected |
| Capabilities.Value | src/Connection/Capability.php:12-167 | every capability flag is a positive value of at most 0x80000000 |
| Capabilities.BitIndex | src/Connection/Capability.php:12-167 | every capability flag has a bit position below 32 |
| Capabilities.FromBitIndex | src/Connection/Capability.php:12-167 | exactly the positions 0 to 31 name a capability |
| Capabilities.SingleBit | src/Connection/Capability.php:12-167 | each flag's value is the single bit 2^position |
| Capabilities.FromBitIndexOf | src/Connection/Capability.php:12-167 | the position of a flag names that flag back |
| Capabilities.In | src/Connection/Capability.php:169-172 | `in`: the mask ANDed with the flag's value is nonzero (InBit states what that means) |
| Capabilities.ValuesDistinct | src/Connection/Capability.php:12-167 | no two flags share a value |
| Capabilities.InBit | src/Connection/Capability.php:169-172 | `in` holds exactly when the flag's bit is set in the mask |
| Capabilities.InEmpty | src/Connection/Capability.php:169-172 | no flag is in the empty mask |
| Capabilities.InAnd | src/Connection/Capability.php:169-172 | a flag is in `a & b` exactly when it is in both masks, so masking keeps exactly the shared flags |
| Capabilities.InOr | src/Connection/Capability.php:169-172 | a flag is in `a \| b` exactly when it is in either mask |
| Capabilities.InMonotone | src/Connection/Capability.php:169-172 | a flag in a sub-mask is in every mask that contains it |
| ColumnTypes.FromValue | src/Protocol/ColumnType.php:11-41 | `from` inverts the backing value: the 31 values are pairwise distinct |
| ColumnTypes.FromSound | src/Protocol/ColumnType.php:11-41 | `from` accepts only the backing values and returns the case that has it |
| ColumnTypes.CasesExact | src/Protocol/ColumnType.php:43-75 | the name table has exactly one entry per case, under its value |
| ColumnTypes.From | src/Protocol/ColumnType.php:11-41 | `from`: a value that is no case's raises ValueError |
| ColumnTypes.ToString | src/Protocol/ColumnType.php:90-93 | `toString` is the name `CASES` holds under the case's value |
| ColumnTypes.Search | src/Protocol/ColumnType.php:85 | `array_search` with strict comparison: the first key whose name is identical (SearchToString and, where present, SearchSound state what it finds) |
| ColumnTypes.TryFromString | src/Protocol/ColumnType.php:83-88 | `tryFromString`: null for a name not found; a failing `from` passes its ValueError on |
| ColumnTypes.FromString | src/Protocol/ColumnType.php:77-81 | `fromString`: the case `tryFromString` returns, InvalidArgumentException when it returns null |
| ColumnTypes.SearchSound | src/Protocol/ColumnType.php:83-88 | a name `array_search` finds is the name stored under the key it returns |
| ColumnTypes.TryFromStringSound | src/Protocol/ColumnType.php:83-88 | `tryFromString` never raises, and the case it returns has the name asked for |
| ColumnTypes.UnknownName | src/Protocol/ColumnType.php:77-88 | a name not in the table gives null from `tryFromString` and InvalidArgumentException from `fromString` |
| ColumnTypes.RoundTrip | src/Protocol/ColumnType.php:77-93 | `tryFromString` and `fromString` of a case's `toString` return that case |
| ColumnTypes.SearchToString | src/Protocol/ColumnType.php:85 | `array_search` finds every case's name under its value |
| OptionalMetadataTypes.FromValue | src/Protocol/OptionalMetadataType.php:11-21 | `from` inverts the backing value |
| OptionalMetadataTypes.FromSound | src/Protocol/OptionalMetadataType.php:11-21 | `from` accepts only the backing values and returns the case that has it |
| OptionalMetadataTypes.CasesExact | src/Protocol/OptionalMetadataType.php:23-35 | the name table has exactly one entry per case, under its value |
| OptionalMetadataTypes.From | src/Protocol/OptionalMetadataType.php:11-21 | `from`: a value that is no case's raises ValueError |
| OptionalMetadataTypes.ToString | src/Protocol/OptionalMetadataType.php:50-53 | `toString` is the name `CASES` holds under the case's value |
| OptionalMetadataTypes.Search | src/Protocol/OptionalMetadataType.php:45 | `array_search` with strict comparison: the first key whose name is identical (SearchToString and, where present, SearchSound state what it finds) |
| OptionalMetadataTypes.TryFromString | src/Protocol/OptionalMetadataType.php:43-48 | `tryFromString`: null for a name not found; a failing `from` passes its ValueError on |
| OptionalMetadataTypes.FromString | src/Protocol/OptionalMetadataType.php:37-41 | `fromString`: the case `tryFromString` returns, InvalidArgumentException when it returns null |
| OptionalMetadataTypes.SearchSound | src/Protocol/OptionalMetadataType.php:43-48 | a name `array_search` finds is the name stored under the key it returns |
| OptionalMetadataTypes.TryFromStringSound | src/Protocol/OptionalMetadataType.php:43-48 | `tryFromString` never raises, and the case it returns has the name asked for |
| OptionalMetadataTypes.UnknownName | src/Protocol/OptionalMetadataType.php:37-48 | an unknown name gives null from `tryFromString` and InvalidArgumentException from `fromString` |
| OptionalMetadataTypes.RoundTrip | src/Protocol/OptionalMetadataType.php:37-53 | `tryFromString` and `fromString` of a case's `toString` return that case |
| OptionalMetadataTypes.SearchToString | src/Protocol/OptionalMetadataType.php:45 | `array_search` finds every case's name under its value |
| OptionalMetadataTypes.ValuesOneToEleven | src/Protocol/OptionalMetadataType.php:11-21 | the block types are exactly the values 1 to 11 |
| EventTypes.FromValue | src/Protocol/Event/Type.php:9-55 | `from` inverts the backing value |
| EventTypes.FromSound | src/Protocol/Event/Type.php:9-55 | `from` accepts only the backing values and returns the case that has it |
| EventTypes.CasesExact | src/Protocol/Event/Type.php:57-105 | the name table has exactly one entry per case, under its value |
| EventTypes.From | src/Protocol/Event/Type.php:9-55 | `from`: a value that is no case's raises ValueError |
| EventTypes.ToString | src/Protocol/Event/Type.php:120-123 | `toString` is the name `CASES` holds under the case's value |
| EventTypes.Search | src/Protocol/Event/Type.php:115 | `array_search` with strict comparison: the first key whose name is identical (SearchToString and, where present, SearchSound state what it finds) |
| EventTypes.TryFromStringAsWritten | src/Protocol/Event/Type.php:113-118 | `tryFromString` as written never returns a case: it raises TypeError exactly for a name found under a key other than 0, and gives null otherwise |
| EventTypes.TryFromString | src/Protocol/Event/Type.php:113-118 | the intended `tryFromString`: null for a name not found, a case otherwise (RoundTrip) |
| EventTypes.FromString | src/Protocol/Event/Type.php:107-111 | `fromString`: the case `tryFromString` returns, InvalidArgumentException when it returns null |
| EventTypes.FromStringAsWritten | src/Protocol/Event/Type.php:107-111 | `fromString` over the as-written `tryFromString` never returns a case, and raises InvalidArgumentException for a name not found |
| EventTypes.UnknownName | src/Protocol/Event/Type.php:107-118 | a name `array_search` does not find gives null from `tryFromString` and InvalidArgumentException from `fromString`, both as intended and as written |
| EventTypes.FromStringAsWrittenThrows | src/Protocol/Event/Type.php:107-118 | as written, `fromString` of a known name raises InvalidArgumentException for UNKNOWN_EVENT and TypeError for every other case |
| EventTypes.RoundTrip | src/Protocol/Event/Type.php:107-123 | the intended `tryFromString` and `fromString` of a case's `toString` return that case |
| EventTypes.SearchToString | src/Protocol/Event/Type.php:115 | `array_search` finds every case's name under its value |
| EventTypes.TryFromStringAsWrittenThrows | src/Protocol/Event/Type.php:113-118 | as written, `tryFromString` of any known name except UNKNOWN_EVENT (key 0) raises TypeError, and gives null for UNKNOWN_EVENT |
| EventTypes.QueryEventName | src/Protocol/Event/Type.php:113-118 | "QUERY_EVENT" raises TypeError as written and gives QUERY_EVENT when corrected |
| ColumnMetadata.MetaWidth | src/Deserializer/ColumnMetadataFactory.php:29-80 | no column type carries more than two metadata bytes |
| ColumnMetadata.StringMetaRoundTrip | src/Deserializer/ColumnMetadataFactory.php:45-55 | a STRING or VAR_STRING maximum length below 1024 written in MySQL's two-byte form (the top two length bits complemented into the high nibble) decodes back to that length |
| ColumnMetadata.EnumSetMeta | src/Deserializer/ColumnMetadataFactory.php:47-51 | a STRING or VAR_STRING whose real type byte is ENUM or SET becomes an ENUM or SET column sized by the second byte |
| ColumnMetadata.BitMetaBytes | src/Deserializer/ColumnMetadataFactory.php:68-75 | a BIT column has bytes·8 + bits bits, and just enough whole bytes to hold them |
| ColumnMetadata.MetaEnd | src/Deserializer/ColumnMetadataFactory.php:28-81 | the metadata of the columns never ends before it starts |
| ColumnMetadata.ColumnsErrPersists | src/Deserializer/ColumnMetadataFactory.php:28-81 | once a column fails, reading more columns fails the same way |
| ColumnMetadata.ColumnsShape | src/Deserializer/ColumnMetadataFactory.php:28-81 | a successful read yields one metadata entry per column and ends where the columns' widths add up to |
| ColumnMetadata.ColumnAt | src/Deserializer/ColumnMetadataFactory.php:29-80 | entry i of a successful read is the metadata of column i's type, decoded from that column's own bytes |
| ColumnMetadata.ColumnsOk | src/Deserializer/ColumnMetadataFactory.php:28-81 | the read succeeds exactly when every type byte is a known column type and the metadata fits in the data |
| ColumnMetadata.ColumnsStep | src/Deserializer/ColumnMetadataFactory.php:29-80 | one more column appends its decoded metadata and moves past its bytes |
| ColumnMetadata.ColumnsStepErr | src/Deserializer/ColumnMetadataFactory.php:29 | an unknown type byte, or metadata past the end, fails the read at that column |
| ColumnMetadata.ReadColumnsSpecColumns | src/Deserializer/ColumnMetadataFactory.php:22-28 | the types are the next columnCount bytes, and the metadata starts after the coded length that follows them |
| ColumnMetadata.ReadMetas | src/Deserializer/ColumnMetadataFactory.php:28-81 | the loop returns the metadata entries of the spec and leaves the offset at their end, or raises the spec's exception |
| ColumnMetadata.ReadMeta | src/Deserializer/ColumnMetadataFactory.php:29-80 | one pass of the loop: the entry for column i is the one Columns gives at i+1, or the whole read fails with the spec's exception |
| ColumnMetadata.ReadColumns | src/Deserializer/ColumnMetadataFactory.php:22-84 | readColumns returns the metadata of the column types and leaves the offset past them, or raises as the spec does |
| OptionalMetadata.VarString | src/Connection/Buffer.php:141-144 | a length-prefixed string inside a block always moves the position forward |
| OptionalMetadata.Strings | src/Deserializer/ColumnMetadataFactory.php:134-136 | reading a group's values yields exactly the announced number of strings and never moves backwards |
| OptionalMetadata.StringsErrPersists | src/Deserializer/ColumnMetadataFactory.php:134-136 | once a value fails, reading more values fails the same way |
| OptionalMetadata.StringsNext | src/Deserializer/ColumnMetadataFactory.php:134-136 | one more value appends the next length-prefixed string, or fails as that string does |
| OptionalMetadata.ApplyBlock | src/Deserializer/ColumnMetadataFactory.php:99-149 | SET_STR_VALUE, GEOMETRY_TYPE and PRIMARY_KEY_WITH_PREFIX blocks raise UnexpectedValueException; a COLUMN_NAME block replaces the name list with the names it holds |
| OptionalMetadata.BlockAt | src/Deserializer/ColumnMetadataFactory.php:95-97 | a block that is read always moves the position forward |
| OptionalMetadata.Counted | src/Deserializer/ColumnMetadataFactory.php:158-161 | the counter of a column category never exceeds the number of columns before it |
| OptionalMetadata.IsSignedBit | src/Deserializer/ColumnMetadataFactory.php:176 | the k-th integer column is signed exactly when bit 7 - k mod 8 of byte k >> 3 of the signedness bitmap is clear |
| OptionalMetadata.CharsetOf | src/Deserializer/ColumnMetadataFactory.php:212-214 | a default charset wins; without one the column charset list must hold the column's entry, else OutOfBoundsException |
| OptionalMetadata.EnumValuesOf | src/Deserializer/ColumnMetadataFactory.php:243-244 | an enum column's values are its group in the ENUM_STR_VALUE block, and a group that was never stored raises |
| OptionalMetadata.DescribeColumn | src/Deserializer/ColumnMetadataFactory.php:162-252 | a described column keeps its index, its metadata and its name from the COLUMN_NAME list; an unsupported type raises UnexpectedValueException; a missing name raises OutOfBoundsException |
| OptionalMetadata.Describe | src/Deserializer/ColumnMetadataFactory.php:162-253 | a successful description has one column per metadata entry |
| OptionalMetadata.PrimaryKeyOf | src/Deserializer/ColumnMetadataFactory.php:258-260 | the primary key maps each stored index to its column (null past the end) and succeeds exactly when no index is null; a null index raises TypeError in the typed callback |
| OptionalMetadata.OptionalMetadataSpec | src/Deserializer/ColumnMetadataFactory.php:91-262 | a successful read describes every column it was given |
| OptionalMetadata.DescribeShape | src/Deserializer/ColumnMetadataFactory.php:162-253 | column i of a successful description is the description of index i alone |
| OptionalMetadata.DescribeErrPersists | src/Deserializer/ColumnMetadataFactory.php:162-253 | once a column fails, describing more columns fails the same way |
| OptionalMetadata.DescribeFirstError | src/Deserializer/ColumnMetadataFactory.php:162-253 | the description succeeds exactly when every column's does, and otherwise raises what the first failing column raises |
| OptionalMetadata.DescribedSignedness | src/Deserializer/ColumnMetadataFactory.php:164-179 | an integer column is described only when there is a signedness block, and it is signed exactly when its bit, counted among integer columns only, is clear |
| OptionalMetadata.DescribedCharset | src/Deserializer/ColumnMetadataFactory.php:205-232 | a BLOB becomes a blob column and VARCHAR or STRING a text column, with the default charset when there is one, else the entry of its own character-column counter |
| OptionalMetadata.DescribedEnum | src/Deserializer/ColumnMetadataFactory.php:234-247 | an ENUM column takes the enum-and-set default charset and the non-empty value group of its own enum counter |
| OptionalMetadata.KeysCons | src/Deserializer/ColumnMetadataFactory.php:142-144 | a primary-key block is its first coded index followed by the rest |
| OptionalMetadata.CodedAtEncoded | src/Connection/Buffer.php:34-60 | a coded integer written in the shortest form is read back, and its width is the width of what was written |
| OptionalMetadata.KeysRoundTrip | src/Deserializer/ColumnMetadataFactory.php:140-145 | a SIMPLE_PRIMARY_KEY block written as coded integers reads back as the same indexes |
| OptionalMetadata.StringRoundTrip | src/Connection/Buffer.php:141-144 | a length-prefixed string written with its coded length reads back as the same bytes, ending just after them |
| OptionalMetadata.VarStringOf | src/Connection/Buffer.php:141-144 | a coded length followed by that many bytes reads as those bytes |
| OptionalMetadata.NamesCons | src/Deserializer/ColumnMetadataFactory.php:125-127 | a COLUMN_NAME block is its first name followed by the rest |
| OptionalMetadata.NamesRoundTrip | src/Deserializer/ColumnMetadataFactory.php:123-128 | a COLUMN_NAME block written as length-prefixed names reads back as the same names |
| OptionalMetadata.ReadKeys | src/Deserializer/ColumnMetadataFactory.php:140-145 | the loop reads coded indexes until the slice is used up, as the spec says |
| OptionalMetadata.ReadCharsets | src/Deserializer/ColumnMetadataFactory.php:114-121 | the loop reads collation ids until the slice is used up; a null id raises OutOfBoundsException; every other id is accepted (`Collation::from` is not modelled) |
| OptionalMetadata.ReadString | src/Connection/Buffer.php:141-144 | one length-prefixed string read inside a block slice, as the spec says |
| OptionalMetadata.ReadNames | src/Deserializer/ColumnMetadataFactory.php:123-128 | the loop reads names until the slice is used up, as the spec says |
| OptionalMetadata.ReadStrings | src/Deserializer/ColumnMetadataFactory.php:134-136 | the inner loop reads the announced number of values, as the spec says |
| OptionalMetadata.ReadEnumGroups | src/Deserializer/ColumnMetadataFactory.php:130-138 | groups of values, each announced by a coded count, until the slice is used up |
| OptionalMetadata.ReadBlock | src/Deserializer/ColumnMetadataFactory.php:99-149 | one block applied to the metadata read so far, as ApplyBlock says for each block type |
| OptionalMetadata.ReadBlockAt | src/Deserializer/ColumnMetadataFactory.php:95-151 | the type byte, the coded length and the slice of that length: a null length raises LengthException, an unknown type ValueError; the offset ends past the slice |
| OptionalMetadata.BlockAtApplied | src/Deserializer/ColumnMetadataFactory.php:95-97 | a block with a known type and a non-null length is that type applied to the slice, ending where the slice ends |
| OptionalMetadata.ReadBlocks | src/Deserializer/ColumnMetadataFactory.php:93-152 | blocks are read while the offset is below the payload size, as the spec says |
| OptionalMetadata.DescribeNext | src/Deserializer/ColumnMetadataFactory.php:163-252 | one pass of the foreach: the column described as DescribeColumn says, with the integer, character and enum counters each advanced only for their own category |
| OptionalMetadata.DescribeColumns | src/Deserializer/ColumnMetadataFactory.php:158-253 | the foreach describes every column, or raises where Describe does |
| OptionalMetadata.ReadOptionalMetadata | src/Deserializer/ColumnMetadataFactory.php:91-262 | the described columns and the primary key as the spec says, RuntimeException without a COLUMN_NAME block, and the offset at or past the payload size |
| Rows.PopCount | src/Deserializer/RowFactory.php:27-29 | the count of set bits among the first n columns is at most n |
| Rows.FullBitmapCount | src/Deserializer/RowFactory.php:26-30 | with every column present the count is the column count and the null bitmap takes (n+7)/8 bytes |
| Rows.AllOnesBitmap | src/Deserializer/RowFactory.php:28 | a bitmap of 0xff bytes marks every column it covers present |
| Rows.AfterBitmapZeroIgnored | src/Deserializer/RowFactory.php:32 | the after-image bitmap "0" (0x30, columns 4 and 5 present) is falsy in PHP, so the code as written ignores it |
| Rows.AfterBitmapAsWritten | src/Deserializer/RowFactory.php:32 | `if ($columnsBitmapAfter)`: the after bitmap is used only when it is PHP-truthy, so null, "" and "0" count as none |
| Rows.NullBitmapLength | src/Deserializer/RowFactory.php:26-30 | the null bitmap has enough bytes for one bit per present column and fewer than 8 bits to spare |
| Rows.IntegerField | src/Deserializer/RowFactory.php:67-82 | an integer column reads its 1, 2, 3, 4 or 8 bytes exactly when they are there; signed values lie in the two's-complement range, unsigned ones below 256^w (an 8-byte value from 2^63 up comes back as text) |
| Rows.LengthString | src/Connection/Buffer.php:146-149 | widths outside 1..7 raise UnexpectedValueException; otherwise the value is the bytes a little-endian length announces and the position moves past them |
| Rows.TemporalField | src/Deserializer/RowFactory.php:105-115 | DATE, DATETIME2 and TIMESTAMP2 values come back as text and take at least 3 bytes |
| Rows.EnumField | src/Deserializer/RowFactory.php:117-120 | an ENUM value is the value at its 1-based index, or '' when the index names none; it takes `size` bytes |
| Rows.Field | src/Deserializer/RowFactory.php:66-125 | a field never moves the position backwards, and a column the table map does not have falls to the switch's default and raises UnexpectedValueException |
| Rows.TextPrefix | src/Deserializer/RowFactory.php:96-99 | a VARCHAR or STRING value has a 1-byte length when its maximum length is at most 255, else a 2-byte one |
| Rows.Names | src/Deserializer/RowFactory.php:58-64 | an image has one key per entry |
| Rows.PutFresh | src/Deserializer/RowFactory.php:58 | assigning a key the image does not have appends it |
| Rows.NamesAppend | src/Deserializer/RowFactory.php:58 | appending an entry appends its key |
| Rows.ImageStep | src/Deserializer/RowFactory.php:55-128 | one column: an absent column is null and takes no null bit; a present one takes one null bit and, when that bit is set, is null without reading anything |
| Rows.ImageWalk | src/Deserializer/RowFactory.php:54-129 | the column loop never moves the position backwards |
| Rows.ImageAt | src/Deserializer/RowFactory.php:51-129 | an image reads its null bitmap first, then its values |
| Rows.RowAt | src/Deserializer/RowFactory.php:43-137 | a row is a before/after pair exactly when there is an after bitmap, and never moves the position backwards |
| Rows.RowsFrom | src/Deserializer/RowFactory.php:41-139 | every row read is a before/after pair exactly when there is an after bitmap |
| Rows.RowsSpec | src/Deserializer/RowFactory.php:22-142 | every row readRows returns is a before/after pair exactly when there is an after bitmap |
| Rows.NullIndexCounts | src/Deserializer/RowFactory.php:26-30 | each present column takes one bit of the null bitmap, so the running null index ends at the bitmap's count and the bitmap read holds every bit consulted |
| Rows.FullImageAsWritten | src/Deserializer/RowFactory.php:57 | with every column present, testing the bit at the running null index (as written) reads the same bits as testing bit i |
| Rows.PresenceAsWrittenSkipsColumn | src/Deserializer/RowFactory.php:57 | with column 0 absent and column 1 present, the code as written judges column 1 by bit 0 and leaves its byte unread, where bit i reads its value |
| Rows.NullsReadNothing | src/Deserializer/RowFactory.php:57-64 | an image whose columns are all absent or null reads no value bytes |
| Rows.NullStep | src/Deserializer/RowFactory.php:57-64 | an absent or null column does not move the position |
| Rows.ColumnNames | src/Deserializer/RowFactory.php:55 | the names of the first n columns are n names |
| Rows.ImageNames | src/Deserializer/RowFactory.php:54-129 | with distinct column names, an image has exactly the columns' names as keys, in column order |
| Rows.NamesGrow | src/Deserializer/RowFactory.php:54-129 | one more column adds its name at the end of the image's keys |
| Rows.FreshName | src/Deserializer/RowFactory.php:55 | with distinct names, column n-1's name is not among the names before it |
| Rows.StepNames | src/Deserializer/RowFactory.php:58-64 | a column whose name is new appends that name to the image's keys |
| Rows.ColumnNameAt | src/Deserializer/RowFactory.php:55 | entry j of the column names is column j's name |
| Rows.ImageWalkErrPersists | src/Deserializer/RowFactory.php:54-129 | once a column fails, the rest of the image fails the same way |
| Rows.StepValue | src/Deserializer/RowFactory.php:58-64 | a column step assigns its column's name some value in the image |
| Rows.ImageWalkNext | src/Deserializer/RowFactory.php:54-129 | one more column extends the walk by that column's step |
| Rows.ImageDone | src/Deserializer/RowFactory.php:51-129 | an image whose columns all succeed yields the walked image and the offset after it |
| Rows.ImageFails | src/Deserializer/RowFactory.php:51-129 | an image fails as its column walk fails |
| Rows.ImageWalkFails | src/Deserializer/RowFactory.php:54-129 | a failing column fails the whole image |
| Rows.NullBitmapLengthOf | src/Deserializer/RowFactory.php:26-30 | the counting loop computes (number of present columns + 7) >> 3 |
| Rows.ReadIntegerField | src/Deserializer/RowFactory.php:67-82 | the integer branch reads as IntegerField says |
| Rows.ReadLengthField | src/Deserializer/RowFactory.php:96-103 | the length-prefixed branches read as LengthString says |
| Rows.ReadTemporalField | src/Deserializer/RowFactory.php:105-115 | the temporal branches read as TemporalField says |
| Rows.ReadEnumField | src/Deserializer/RowFactory.php:117-120 | the ENUM branch reads as EnumField says |
| Rows.ReadField | src/Deserializer/RowFactory.php:66-125 | the type switch reads as Field says |
| Rows.ReadSizedField | src/Deserializer/RowFactory.php:92-124 | the non-integer branches of the switch read as Field says |
| Rows.ReadBitField | src/Deserializer/RowFactory.php:92-94 | a BIT value consumes the metadata's byte count and is the bit text BitsText gives for those bytes |
| Rows.ReadTimedField | src/Deserializer/RowFactory.php:105-124 | the DATE, DATETIME2, TIMESTAMP2 and ENUM branches and the unexpected-type exception read as Field says |
| Rows.ReadColumn | src/Deserializer/RowFactory.php:55-128 | one pass of the column loop does what ImageStep says, with the field decoder |
| Rows.ReadImage | src/Deserializer/RowFactory.php:51-129 | the null bitmap and the column loop read as ImageAt says |
| Rows.WalkColumn | src/Deserializer/RowFactory.php:54-128 | one pass of the column loop: the image and null index are ImageWalk's at i+1, or the walk over all columns fails with the same error |
| Rows.ReadRow | src/Deserializer/RowFactory.php:43-137 | one row, before image and (when there is an after bitmap) after image, read as RowAt says |
| Rows.RowFactory.constructor | src/Deserializer/RowFactory.php:15 | a new factory knows no table maps |
| Rows.RowFactory.AddTableMap | src/Deserializer/RowFactory.php:17-20 | the table map is stored under its table id, replacing any earlier one, and every other entry is kept |
| Rows.RowFactory.DropTableMaps | src/EventsIterator.php:163-164 | every table map is forgotten |
| Rows.RowFactory.ReadRows | src/Deserializer/RowFactory.php:22-142 | the rows of the stored table map's columns, read from the offset up to the payload size, as RowsSpec says |
| Events.QualifiedName | src/EventsIterator.php:114 | the table filter's `schema.table` name is the schema, one dot and the table |
| Events.Filtered | src/EventsIterator.php:103-129 | `check`: with the include lists, a table whose schema or `schema.table` is not listed is filtered; with the exclude lists, one whose schema or `schema.table` is listed (NothingFilteredUnconfigured, DatabasesOnly, TablesOnly, ExcludesOnly) |
| Events.Resuming | src/EventsIterator.php:93-95 | a resume position is configured (both truthy), names the current file and lies ahead of the current offset |
| Events.ReportedPosition | src/EventsIterator.php:90-101 | getPosition reports the configured resume position exactly while the configured file is the current one and the configured offset lies ahead; otherwise the current position; never a different file or an earlier offset |
| Events.UIntAt | src/Connection/Buffer/UIntLeReadTrait.php:14-141 | an n-byte little-endian field read at an offset lies below 256^n |
| Events.HeaderAt | src/EventsIterator.php:276-290 | readEventHeader succeeds exactly when 19 bytes are there and the type byte names an event type; a type byte that names none raises ValueError as soon as it is there, before the length of the rest is looked at; it keeps the current position, uses a 4-byte checksum exactly when the stored FORMAT_DESCRIPTION has a nonzero checksum algorithm, sets payloadSize = eventSize + 1 - checksumSize and advances nextOffset by eventSize except for HEARTBEAT |
| Events.EncodedFields | src/EventsIterator.php:278-289 | each header field read from an encoded header is the value that was encoded |
| Events.HeaderRoundTrip | src/EventsIterator.php:276-290 | readEventHeader of an encoded header gives back its timestamp, type, server id, event size, short next position and flags |
| Events.LeadingNuls | src/EventsIterator.php:353 | the count of leading NUL bytes is exact: all of them are NUL and the next byte is not |
| Events.TrailingNuls | src/EventsIterator.php:353 | the count of trailing NUL bytes is exact |
| Events.TrimNul | src/EventsIterator.php:353 | `trim(..., "\x0")` leaves a text that is empty or starts and ends with a non-NUL byte, and is no longer than its input |
| Events.NulBytes | src/EventsIterator.php:353 | n NUL bytes |
| Events.LeadingNulsUnique | src/EventsIterator.php:353 | the leading NUL count is the only count with its defining property |
| Events.TrailingNulsUnique | src/EventsIterator.php:353 | the trailing NUL count is the only count with its defining property |
| Events.TrimNulPadded | src/EventsIterator.php:353 | trimming a NUL-padded server version gives back the version itself |
| Events.IntOfNumber | src/EventsIterator.php:321 | `(int) readUInt64()` is the value below 2^63 and PHP_INT_MAX above |
| Events.IntToDecNat | src/EventsIterator.php:330 | `(string) readUInt64()` is the decimal text of the unsigned value in both of readUInt64's result forms |
| Events.RotateAt | src/EventsIterator.php:317-324 | readRotateEvent succeeds exactly when the 8 position bytes are there; the position is the 64-bit value (capped by `(int)`); the file name is `read(payloadSize - offset)`: the rest of the payload when it fits in the data, and, when the payload ends before the name, the data up to that many bytes before its end |
| Events.XidAt | src/EventsIterator.php:326-332 | readXidEvent succeeds exactly when 8 bytes are there and gives the decimal text of the 64-bit transaction id |
| Events.QueryAt | src/EventsIterator.php:334-346 | readQueryEvent succeeds exactly when the 13 fixed bytes are there; the schema is read after skipping the status variables; the query is `read(payloadSize - offset)` after the schema: the rest of the payload when it fits in the data, the data cut that many bytes before its end when the payload ends earlier, nothing when the schema already ran past the data |
| Events.QueryAtOf | src/EventsIterator.php:334-346 | with the 13 fixed bytes there, the event holds the two 4-byte fields, the schema length, the error code, the status-variable length, the schema and the query at their places |
| Events.FormatDescriptionAt | src/EventsIterator.php:348-359 | readFormatDescriptionEvent reads the header length at body offset 56, then `read(n)` with n = eventSize - headerLength - 57 - 1 - 4 (for a negative n the data cut -n bytes before its end, and the offset moves back), then the checksum algorithm byte at offset + n, failing when that byte is outside the data; the server version is at most 50 bytes |
| Events.ReadColumnsCount | src/Deserializer/ColumnMetadataFactory.php:22-84 | readColumns returns one column type per counted column |
| Events.TableMapAt | src/EventsIterator.php:292-315 | readTableMapEvent reads the 6-byte table id, 2 flag bytes and the length-prefixed schema; it fails with a read past the end below 9 bytes, and returns one column per counted column |
| Events.TableMapNamed | src/EventsIterator.php:297 | the table name's length byte must be there |
| Events.TableMapNamedBody | src/EventsIterator.php:297-298 | after the table name one NUL byte is skipped before the column count |
| Events.TableMapBody | src/EventsIterator.php:298-314 | the table map keeps the header, id, flags, schema and table it was given and has one column per counted column |
| Events.TableMapCounted | src/EventsIterator.php:298 | a NULL (0xfb) column count is a type error and a short count passes its error on |
| Events.TableMapColumns | src/EventsIterator.php:300-314 | the column count read is the table map's column count and its column list has that length |
| Events.TableMapOf | src/EventsIterator.php:302-314 | the table map is built exactly when readOptionalMetadata succeeds, with its columns and primary key |
| Events.TableMapColumnsRead | src/EventsIterator.php:300-302 | the columns part of a table map is TableMapRead: the nullable bitmap of (count+7)>>3 bytes after readColumns, then readOptionalMetadata after the bitmap |
| Events.TableMapRead | src/EventsIterator.php:300-314 | the table map built from the nullable bitmap at the offset and the optional metadata after it |
| Events.RowsEventAt | src/EventsIterator.php:361-497 | a rows event whose table id was never mapped is a type error; the event is dropped (null) exactly when the mapped table is filtered out; otherwise it carries that table map, the flags read after the id, and rows of the kind its type names |
| Events.RowsFlagged | src/EventsIterator.php:375-378 | the flags are the two bytes after the table id |
| Events.RowsBody | src/EventsIterator.php:376-379 | a rows body is shaped by its event type, table id, table map and flags |
| Events.RowsOf | src/EventsIterator.php:377-380 | the same for a body once its column count is read |
| Events.RowsEventOf | src/EventsIterator.php:371-381 | the event is built exactly when readRows succeeds and carries its rows; an UPDATE event has an after-image bitmap and pair rows, the others neither |
| Events.RowsBodyCounted | src/EventsIterator.php:376 | the bitmaps follow the coded column count |
| Events.RowsOfParts | src/EventsIterator.php:377-379 | the columns bitmap and, for UPDATE, the after bitmap are (count+7)>>3 bytes each, and the rows start after them |
| Events.NothingFilteredUnconfigured | src/EventsIterator.php:103-107 | with no table or database list configured no table is filtered |
| Events.DatabasesOnly | src/EventsIterator.php:109-112 | with only a database list, a table is filtered exactly when its schema is not listed |
| Events.TablesOnly | src/EventsIterator.php:114-116 | with only a table list, a table is filtered exactly when its `schema.table` is not listed |
| Events.ExcludesOnly | src/EventsIterator.php:119-127 | with no include lists, a table is filtered exactly when its schema or its `schema.table` is on an exclude list |
| Events.ReadRotateEvent | src/EventsIterator.php:317-324 | reads from the buffer what RotateAt describes |
| Events.ReadRest | src/EventsIterator.php:322 | `read(n)` for any integer n: PhpSubstr of the data at the offset; the offset moves by n, or stays when that would take it below zero |
| Events.ReadXidEvent | src/EventsIterator.php:326-332 | reads from the buffer what XidAt describes |
| Events.ReadQueryEvent | src/EventsIterator.php:334-346 | reads from the buffer what QueryAt describes |
| Events.ReadQueryFixed | src/EventsIterator.php:338-342 | the 13 fixed bytes of a QUERY body: two 4-byte fields, the schema length byte, a 2-byte error code and the 2-byte status-variable length, each the value at its place |
| Events.ReadQueryTexts | src/EventsIterator.php:343-344 | the schema of the given length at the offset, then `read(payloadSize - offset)` from just after it |
| Events.ReadFormatDescriptionEvent | src/EventsIterator.php:348-359 | reads from the buffer what FormatDescriptionAt describes |
| Events.ReadName | src/EventsIterator.php:296-297 | reads a length byte and that many bytes, leaving the buffer just past them |
| Events.ReadTableMapEvent | src/EventsIterator.php:292-315 | reads from the buffer what TableMapAt describes |
| Events.ReadTableMapNamed | src/EventsIterator.php:297 | reads what TableMapNamed describes |
| Events.ReadTableMapBody | src/EventsIterator.php:298-314 | reads what TableMapBody describes |
| Events.ReadTableMapColumns | src/EventsIterator.php:300-314 | reads what TableMapColumns describes |
| Events.ReadTableMapDescribed | src/EventsIterator.php:301-314 | reads the nullable bitmap and the optional metadata as TableMapOf describes |
| Events.ReadRowsEvent | src/EventsIterator.php:361-497 | reads from the buffer what RowsEventAt describes, with the row factory holding the iterator's table maps |
| Events.ReadRowsFlagged | src/EventsIterator.php:375-380 | reads what RowsFlagged describes |
| Events.ReadRowsBody | src/EventsIterator.php:376-380 | reads what RowsBody describes |
| Events.ReadRowsOf | src/EventsIterator.php:377-380 | reads what RowsOf describes |
| Events.ReadRowsAfterBitmaps | src/EventsIterator.php:378-380 | with the bitmaps read, the event holds the rows RowsSpec describes for the rest of the payload |
| EventStream.Start | src/EventsIterator.php:49-71 | a new iterator has no FORMAT_DESCRIPTION and no table maps and starts at the configured file and offset |
| EventStream.ParseSpec | src/EventsIterator.php:132-134 | a header that cannot be read fails and changes nothing; otherwise nextOffset moves as the header says and the event is dispatched on its type |
| EventStream.Dispatch | src/EventsIterator.php:137-271 | before a FORMAT_DESCRIPTION any other event fails with UnexpectedValue and changes nothing; only ROTATE resets nextOffset; only FORMAT_DESCRIPTION replaces the stored one; only TABLE_MAP and ROTATE touch the table maps; an event returned is a rows event and moves the position to the header's next position |
| EventStream.StoreFormatDescription | src/EventsIterator.php:141-151 | a FORMAT_DESCRIPTION is stored and nothing is returned |
| EventStream.RotateStep | src/EventsIterator.php:158-168 | ROTATE (with the row factory's table maps dropped) clears the table maps and moves position and nextOffset to the rotated file and offset |
| EventStream.RotateAsWritten | src/EventsIterator.php:158-168 | as written, ROTATE calls a dropTableMaps the row factory does not have: the iterator's table maps are cleared and the call fails before the position moves |
| EventStream.Tracked | src/EventsIterator.php:193-270 | the events after the position check never touch nextOffset or the FORMAT_DESCRIPTION; only TABLE_MAP changes the table maps; a failure changes nothing; a success moves the position to the header's next position except for a filtered rows event |
| EventStream.StoreTableMap | src/EventsIterator.php:193-200 | a TABLE_MAP is stored under its table id and moves the position |
| EventStream.EmitRows | src/EventsIterator.php:212-230 | a filtered rows event returns null and keeps the position; a rows event returned moves it |
| EventStream.Advance | src/EventsIterator.php:231-256 | QUERY and XID bodies are read and only move the position |
| EventStream.FormatDescriptionFirst | src/EventsIterator.php:137-139 | the first event must be a FORMAT_DESCRIPTION |
| EventStream.FormatDescriptionPersists | src/EventsIterator.php:141-151 | once stored, a FORMAT_DESCRIPTION stays stored |
| EventStream.HeartbeatChangesNothing | src/EventsIterator.php:153-156 | a HEARTBEAT changes no state and returns null |
| EventStream.NextOffsetGrows | src/EventsIterator.php:285 | every event other than HEARTBEAT and ROTATE advances nextOffset by its event size |
| EventStream.PositionMismatchFails | src/EventsIterator.php:180-191 | a next position that disagrees with the header's 32-bit one fails with a RuntimeException and changes nothing |
| EventStream.PositionsAgreeModulo | src/EventsIterator.php:180-184 | the two positions agree exactly when the tracked one is the short one modulo 2^32 |
| EventStream.ResumeSkips | src/EventsIterator.php:202-210 | while resuming before the configured position every non-TABLE_MAP event is skipped and only moves the position |
| EventStream.RowsNeedTableMap | src/EventsIterator.php:361-364 | a rows event without a stored table map fails |
| EventStream.RowsUseStoredTableMap | src/EventsIterator.php:361-380 | a rows event uses the table map stored under its id; it is dropped, with no state change, exactly when that table is filtered out |
| EventStream.EventsIterator.constructor | src/EventsIterator.php:49-71 | the iterator starts in the Start state |
| EventStream.EventsIterator.GetPosition | src/EventsIterator.php:90-101 | returns ReportedPosition of the configuration and the current position |
| EventStream.EventsIterator.ReadEventHeader | src/EventsIterator.php:276-290 | reads what HeaderAt describes, consumes 19 bytes and advances nextOffset as the header says |
| EventStream.EventsIterator.Parse | src/EventsIterator.php:132-271 | returns the event and leaves the iterator in the state ParseSpec gives for the old state, with the row factory's table maps kept equal to the iterator's |
| EventStream.EventsIterator.DispatchEvent | src/EventsIterator.php:137-271 | does what Dispatch describes |
| EventStream.EventsIterator.DispatchTracked | src/EventsIterator.php:193-270 | does what Tracked describes |
| Connection.PacketFrom | src/Connection/Packet.php:7-14 | `Packet::tryFrom`: a byte names a reply type exactly when it is 0x00, 0x01, 0xfb, 0xfe or 0xff, and the type named has that value |
| Connection.PacketFromValue | src/Connection/Packet.php:7-14 | every reply type is recognised from its own value |
| Connection.NextSeqId | src/Connection/Connection.php:396 | a continuation chunk's sequence id is the successor of the previous one within the one-byte field |
| Connection.ChunksAt | src/Connection/Connection.php:390-402 | reading chunks never moves backwards, stays within the stream and only appends to the payload read so far |
| Connection.PacketAt | src/Connection/Connection.php:382-405 | readPacket fails with a read past the end when the 4 header bytes are missing, and a packet read lies within the stream after its header |
| Connection.ChunksAsWritten | src/Connection/Connection.php:390-402 | the chunk loop as written, with the sequence id incremented without wrapping, never moves backwards |
| Connection.ContinuationAfterWrap | src/Connection/Connection.php:393-398 | after a full chunk numbered 255, a continuation numbered 0 is rejected as out of order as written and accepted by the wrapping reader |
| Connection.ChunksAgreeBelowWrap | src/Connection/Connection.php:390-402 | while the sequence id cannot reach 255 the as-written and the wrapping readers agree |
| Connection.FrameOf | src/Connection/Connection.php:439-444 | a frame is 4 header bytes followed by the payload |
| Connection.FrameRoundTrip | src/Connection/Connection.php:382-405 | readPacket of a frame sendPacket builds, with anything before and after it, gives back the payload, consumes exactly the frame and takes its sequence id |
| Connection.FrameHeader | src/Connection/Connection.php:441-442 | the frame header holds the payload length in 3 little-endian bytes and the sequence id modulo 256 |
| Connection.FullFrameUnfinished | src/Connection/Connection.php:393-401 | a frame of exactly 0xFFFFFF bytes, on its own, reads as an unfinished packet: the reader waits for a continuation |
| Connection.SendAsWritten | src/Connection/Connection.php:433-445 | sendPacket as written refuses only payloads longer than 0xFFFFFF and frames the rest with the incremented sequence id |
| Connection.Classify | src/Connection/Connection.php:410-431 | read returns OK and EOF replies with the cursor after the type byte, any other non-ERR reply rewound only when unknown types are allowed, and raises the server error for ERR; an empty packet is a read past the end |
| Connection.ErrPacket | src/Connection/Connection.php:419 | an ERR packet is the type byte, a 2-byte code and the message |
| Connection.ErrPacketRaised | src/Connection/Connection.php:418-420 | an ERR packet raises its code and message |
| Connection.ReadAccepts | src/Connection/Connection.php:407-431 | a reply read is the payload of the packet read and is OK or EOF unless unknown types are allowed |
| Connection.ReadSpec | src/Connection/Connection.php:407-431 | `read`: the packet framed by readPacket, then classified (ReadAccepts) |
| Connection.InValue | src/Connection/Capability.php:169-172 | a capability is in another's flag value exactly when they are the same |
| Connection.BitIndexInjective | src/Connection/Capability.php:12-167 | distinct capabilities have distinct bits |
| Connection.FlagsOfExactly | src/Connection/Connection.php:347-353 | the OR of a list of capability flags holds exactly the listed capabilities |
| Connection.ClientFlagsExactly | src/Connection/Connection.php:347-353 | the client asks for exactly LONG_PASSWORD, LONG_FLAG, PROTOCOL_41, NO_SCHEMA, TRANSACTIONS and SECURE_CONNECTION |
| Connection.NegotiatedFlags | src/Connection/Connection.php:347-355 | the negotiated mask holds exactly those client capabilities that the server also offers |
| Connection.ClientFlagsBound | src/Connection/Connection.php:347-353 | the client flags fit in 16 bits |
| Connection.Negotiated | src/Connection/Connection.php:347-355 | the client flags ANDed with the server's: no larger than either mask (NegotiatedFlags gives its flags) |
| Connection.AuthResponse | src/Connection/Connection.php:357-364 | an empty password gives an empty auth response; otherwise the scramble (a parameter standing for the SHA-1 computation) |
| Connection.HandshakeHead | src/Connection/Connection.php:366-370 | the handshake response starts with the 4-byte capabilities, the 4-byte 0xFFFFFF maximum packet size, charset 33 and 23 NUL bytes |
| Connection.HandshakeResponse | src/Connection/Connection.php:366-373 | the response is 32 bytes of header, the user, a NUL, a length byte and the auth response |
| Connection.DecodeHandshakeParts | src/Connection/Connection.php:366-373 | a response assembled from its parts decodes to those parts |
| Connection.HandshakeResponseRoundTrip | src/Connection/Connection.php:366-373 | a handshake response decodes back to its capabilities, maximum packet size, charset, user and auth response |
| Connection.Prefixed | src/Connection/Connection.php:155-158 | a length-prefixed string is its length byte and the string |
| Connection.RegisterHead | src/Connection/Connection.php:151-154 | REGISTER_SLAVE starts with 0x15, the 4-byte slave id and the 9-byte host `localhost` |
| Connection.RegisterTail | src/Connection/Connection.php:160-162 | REGISTER_SLAVE ends with the 2-byte port and two 4-byte zeros (rank and master id) |
| Connection.RegisterSlavePayload | src/Connection/Connection.php:147-164 | the intended REGISTER_SLAVE payload: head, length-prefixed user, length-prefixed password, tail |
| Connection.RegisterSlaveAsWritten | src/Connection/Connection.php:150-162 | as written the payload is longer by one more copy of the password |
| Connection.StringEnd | src/Connection/Connection.php:155-158 | a length-prefixed string ends where its length byte says, when it fits |
| Connection.DecodeLayout | src/Connection/Connection.php:150-162 | a payload laid out as head, user, password and tail decodes to the registration it carries |
| Connection.RegisterSlaveRoundTrip | src/Connection/Connection.php:147-164 | the intended payload decodes back to the slave id, `localhost`, user, password, port and zero rank and master id |
| Connection.RegisterSlaveAsWrittenPort | src/Connection/Connection.php:157-160 | as written, a server reads the first two bytes of the second password copy as the port |
| Connection.BinlogDumpPayload | src/Connection/Connection.php:177-182 | BINLOG_DUMP is 0x12, the 4-byte position, 2 flag bytes, the 4-byte slave id and the file name |
| Connection.BinlogDumpRoundTrip | src/Connection/Connection.php:173-184 | the payload decodes back to the position, zero flags, slave id and file name |
| Connection.HandshakeAt | src/Connection/Connection.php:319-345 | the parsed handshake carries the protocol version byte and the NUL-terminated server version, which holds no NUL |
| Connection.HandshakeVersioned | src/Connection/Connection.php:325-327 | the connection id is the 4 bytes after the server version |
| Connection.HandshakeRest | src/Connection/Connection.php:329-333 | with more to read, the charset, the 2-byte status flags and the high 16 capability bits follow, and the capabilities combine low and high halves |
| Connection.HandshakeAuth | src/Connection/Connection.php:335-341 | without SECURE_CONNECTION nothing more is read; with it the second auth part (at most 247 bytes) is appended, and with PLUGIN_AUTH also the NUL-terminated plugin name, without its NUL (the corrected readUntill) |
| Connection.ParseHandshake | src/Connection/Connection.php:319-345 | reads from the buffer what HandshakeAt describes |
| Connection.ParseHandshakeRest | src/Connection/Connection.php:329-343 | reads what HandshakeRest describes |
| Connection.ParseHandshakeAuth | src/Connection/Connection.php:335-341 | reads what HandshakeAuth describes, the plugin name with the corrected readUntill |
| Connection.ParseSecureAuth | src/Connection/Connection.php:336-341 | with SECURE_CONNECTION set, the second part of the scramble is max(13, length - 8) bytes after a 10-byte skip, then the plugin name, as HandshakeAuth says |
| Connection.FixedPartAt | src/Connection/Connection.php:325-327 | an encoded fixed part gives back its connection id, first auth part and low capabilities |
| Connection.ExtraPartAt | src/Connection/Connection.php:330-333 | an encoded extra part gives back its charset, status flags and high capabilities |
| Connection.AuthPartAt | src/Connection/Connection.php:335-339 | an encoded auth part gives back its second auth part and plugin name |
| Connection.BodyAt | src/Connection/Connection.php:325-339 | the three parts of an encoded handshake body sit at offsets 0, 15 and 20 |
| Connection.HandshakeAuthOf | src/Connection/Connection.php:335-341 | with SECURE_CONNECTION and PLUGIN_AUTH the auth data is extended by the second part and the plugin name is read |
| Connection.PluginNameAsWritten | src/Connection/Connection.php:339 | in an encoded handshake, the plugin name read by readUntill as written comes back with its terminating NUL; the corrected read gives the name |
| Connection.HandshakeRestOf | src/Connection/Connection.php:329-343 | an encoded tail of the handshake parses to the server info it encodes |
| Connection.HandshakeVersionedOf | src/Connection/Connection.php:325-343 | an encoded body parses to the server info it encodes |
| Connection.HandshakeRoundTrip | src/Connection/Connection.php:319-345 | a handshake encoded from a server info parses back to that server info |
| Connection.First | src/Connection/Connection.php:107-108 | the first log name in the sort order is one of the names |
| Connection.FirstPrecedesAll | src/Connection/Connection.php:107-127 | under a total order the first name precedes every other |
| Connection.SelectBinlogFile | src/Connection/Connection.php:105-129 | a configured file is selected exactly when the server lists it; with none configured the selection succeeds exactly when the server lists any file; failures are UnexpectedValue |
| Connection.SelectedFileIsFirst | src/Connection/Connection.php:120-128 | with no configured file the first file in the natural order is selected |
| Connection.ProbePosition | src/Connection/Connection.php:133 | the position probed defaults to 4, the binlog magic's size |
| Connection.SelectBinlogPosition | src/Connection/Connection.php:131-145 | the selection fails with a RuntimeException exactly when the probe finds no event; otherwise the position is 4 whatever was configured |
| Connection.ExpectOk | src/Connection/Connection.php:164-168 | a command of 0xFFFFFF bytes or more is refused and nothing is sent; otherwise its frame is sent with the next sequence id, and success means the reply read was OK |
| Connection.NotOkFails | src/Connection/Connection.php:166-168 | a reply other than OK fails the command with a RuntimeException |
| Connection.CommandFrame | src/Connection/Connection.php:149-164 | a command sent after resetting the sequence id goes out numbered 0 and reads back as its payload |
| Connection.RegistrationDelivered | src/Connection/Connection.php:147-164 | the REGISTER_SLAVE frame sent reads back and decodes to the configured registration |
| Connection.DumpDelivered | src/Connection/Connection.php:173-184 | the BINLOG_DUMP frame sent reads back and decodes to the selected file and position |
| Connection.HandshakeAsksNegotiated | src/Connection/Connection.php:347-375 | the handshake response decodes to the configured user and asks for exactly the negotiated capabilities; an empty password sends an empty auth response |
| Connection.Connection.constructor | src/Connection/Connection.php:42-78 | a new connection has read and sent nothing, its sequence id is -1 and no handshake is known |
| Connection.Connection.ReadPacket | src/Connection/Connection.php:382-405 | reads what PacketAt describes, advancing the reader and the sequence id accordingly |
| Connection.Connection.ReadChunk | src/Connection/Connection.php:391-402 | one chunk: either the packet's outcome as PacketAt frames it, or the reader moved strictly forward with the rest of the packet still as ChunksAt describes |
| Connection.Connection.Read | src/Connection/Connection.php:407-431 | classifies the packet read as ReadSpec describes and hands back a buffer over its payload at the reply's cursor |
| Connection.Connection.SendPacket | src/Connection/Connection.php:433-445 | refuses a payload of 0xFFFFFF bytes or more with nothing sent; otherwise appends its frame with the incremented sequence id |
| Connection.Connection.Command | src/Connection/Connection.php:164-168 | sends and checks the reply as ExpectOk describes |
| Connection.Connection.HandleHandshake | src/Connection/Connection.php:319-380 | a handshake that does not parse fails with nothing sent; otherwise the server info is stored and the response with the negotiated capabilities is sent and must be answered OK |
| Connection.Connection.RegisterSlave | src/Connection/Connection.php:147-171 | resets the sequence id and sends the REGISTER_SLAVE payload, expecting OK |
| Connection.Connection.DumpBinlog | src/Connection/Connection.php:173-191 | resets the sequence id and sends the BINLOG_DUMP payload for the selected file and position, expecting OK |

## Left out

- Sockets, the buffered reader, cancellation and the event loop: the connection reads from a fixed byte sequence (`incoming`) and appends what it sends to `sent`.
- The SHA-1 password scramble: `Connection.AuthResponse` takes the 20 scrambled bytes as a parameter.
- `Connection::execute`, `query`, `validateServerConfiguration`, `close` and the SQL the constructor sends (collation, checksum and heartbeat settings): text-protocol result sets are not part of the replication decoding core. The results of `SHOW BINARY LOGS` and of the `SHOW BINLOG EVENTS` probe are parameters of `Connection.SelectBinlogFile` and `Connection.SelectBinlogPosition`.
- Connection.SelectBinlogFile: PHP's natural sort order (`SORT_NATURAL`) is a parameter; the model proves the result is first under any total order it is given.
- The generators `Connection::getIterator` and `EventsIterator::getIterator`: the model parses one packet per `Parse` call and does not model the loops or the yielding. The EOF test in `Connection::getIterator` compares element 1 of the destructured reply (the payload buffer, never the enum case) with `Packet::EOF`, so as written it never skips anything and an EOF packet is yielded like any other reply.
- The statistics collector and the logger: they only observe events.
- FLOAT and DOUBLE columns and `readFloat`/`readDouble`: floating point is not modelled; a FLOAT or DOUBLE field is returned as its 4 or 8 raw bytes (`Rows.Field`).
- Decimals.ReadDecimal: returns the assembled digit text; the final `sprintf("%.{$scale}F", ...)` conversion through a float is not applied.
- PHP `assert()` calls are treated as disabled (their production setting): the optional-metadata check that the whole block was consumed, the checksum comparison and the buffer-empty checks after an event are not enforced; `readDecimal`'s asserts on precision and scale become preconditions.
- Buffers.Buffer: fixed-width reads require the bytes to be there (PHP would read past the end of the string with warnings and garbage); every decoder that calls them checks the length first and returns `ReadPastEnd` instead.
- Rows.RowsFrom: a row that consumes no bytes ends the row loop with an error where the PHP loop would run forever.
- Rows.RowFactory.ReadRows: requires the table id to be mapped; its only caller looks the table map up first and fails with a TypeError when it is missing (`Events.RowsEventAt`).
- 64-bit PHP integers: values are unbounded; where the PHP code changes representation (a `readUInt64` of 2^63 or more becomes a decimal string, `(int)` of such a string is PHP_INT_MAX) the model states it explicitly (`Events.IntOfNumber`).
- The JSON serialisation of events; the enums' `jsonSerialize` is their `toString`, which the name tables model.
- `src/ParseTask.php` (a worker-process copy of the row readers), `src/Config.php` (environment and command-line parsing) and `src/StatisticsCollector.php` are not part of this model.
- The event header is the 10-field record `EventsIterator::readEventHeader` builds, with both `nextPositionShort` and `nextPosition`; `src/Protocol/Event/Header.php` declares only 9 fields.
- The assert in `readInt64` (src/Connection/Buffer/IntLeReadTrait.php:84) looks at the wrong byte window; with assertions disabled it has no effect and is not modelled.
- Buffers.Buffer.Read: the offset is a natural number, so a `read(n)` that would move it below zero is excluded by the precondition; `Events.ReadRest`, the only place a negative length can arise (the last read of a ROTATE or QUERY body), keeps the offset where it was in that case, and the buffer is not read again afterwards.
- Events.FormatDescriptionAt: when `read(n)` with a negative n leaves the offset below zero, the checksum byte is reported as `ReadPastEnd`; PHP would read it through a negative string offset, counted from the end of the data.
- OptionalMetadata.ApplyBlock: `Collation::from` is not applied to the DEFAULT_CHARSET, COLUMN_CHARSET, ENUM_AND_SET_DEFAULT_CHARSET and ENUM_AND_SET_COLUMN_CHARSET ids, so an id that names no collation is stored instead of raising ValueError; `src/Protocol/Collation.php` is not part of this model.
- OptionalMetadata.ReadCharsets: for the same reason every collation id read is accepted; only a null id raises.
- OptionalMetadata.Charsets: for the same reason every collation id read is accepted; only a null id raises.
- Connection.HandshakeAuth: the plugin name is read with the corrected `Buffers.Until`, which stops before the NUL; the code as written returns it with the NUL appended (`Connection.PluginNameAsWritten`).
- Connection.ParseHandshakeAuth: reads the plugin name with `Buffers.Buffer.ReadUntil`, the corrected reader, for the same reason.
- Connection.HandshakeAuthOf: the plugin name it states is the one the corrected reader gives; as written it carries a trailing NUL.
- Connection.HandshakeRestOf: the plugin name it states is the one the corrected reader gives; as written it carries a trailing NUL.
- Connection.HandshakeVersionedOf: the plugin name it states is the one the corrected reader gives; as written it carries a trailing NUL.
- Connection.HandshakeRoundTrip: the round trip holds for the corrected plugin-name reader; as written the name comes back with a trailing NUL.
- Connection.HandshakeAt: the server info it gives carries the plugin name read by the corrected `Buffers.Until`; as written (`readUntill`) the name keeps its trailing NUL (`Connection.PluginNameAsWritten`).
- Connection.HandshakeVersioned: the server info it gives carries the plugin name read by the corrected `Buffers.Until`; as written (`readUntill`) the name keeps its trailing NUL (`Connection.PluginNameAsWritten`).
- Connection.HandshakeRest: the server info it gives carries the plugin name read by the corrected `Buffers.Until`; as written (`readUntill`) the name keeps its trailing NUL (`Connection.PluginNameAsWritten`).
- Connection.ParseHandshake: reads the plugin name with `Buffers.Buffer.ReadUntil`, the corrected reader; as written the name keeps its trailing NUL.
- Connection.ParseHandshakeRest: reads the plugin name with `Buffers.Buffer.ReadUntil`, the corrected reader; as written the name keeps its trailing NUL.
- Connection.ParseSecureAuth: reads the plugin name with `Buffers.Buffer.ReadUntil`, the corrected reader; as written the name keeps its trailing NUL.
- Connection.Connection.HandleHandshake: stores the server info with the plugin name of the corrected reader; as written the stored `authPluginName` keeps its trailing NUL.
- Decimals.ReadDecimalAsWritten: models the leg arithmetic as written and returns the assembled text ("-123.-211" for -123.45); the final `sprintf("%.{$scale}F", ...)` through a float, which turns that text into -123.00, is not applied.
- Connection.NextSeqId: the continuation ids are compared modulo 256 (`Connection.NextSeqId`), the corrected half of the finding on Connection.php:393-398; as written `++$this->seqId` never wraps, so a multi-chunk packet whose ids cross 255 fails with OutOfOrder (`Connection.ChunksAsWritten`, `Connection.ContinuationAfterWrap`). The two agree whenever the ids stay below 256 (`Connection.ChunksAgreeBelowWrap`).
- Connection.ChunksAt: the continuation ids are compared modulo 256 (`Connection.NextSeqId`), the corrected half of the finding on Connection.php:393-398; as written `++$this->seqId` never wraps, so a multi-chunk packet whose ids cross 255 fails with OutOfOrder (`Connection.ChunksAsWritten`, `Connection.ContinuationAfterWrap`). The two agree whenever the ids stay below 256 (`Connection.ChunksAgreeBelowWrap`).
- Connection.PacketAt: the continuation ids are compared modulo 256 (`Connection.NextSeqId`), the corrected half of the finding on Connection.php:393-398; as written `++$this->seqId` never wraps, so a multi-chunk packet whose ids cross 255 fails with OutOfOrder (`Connection.ChunksAsWritten`, `Connection.ContinuationAfterWrap`). The two agree whenever the ids stay below 256 (`Connection.ChunksAgreeBelowWrap`).
- Connection.ReadSpec: the continuation ids are compared modulo 256 (`Connection.NextSeqId`), the corrected half of the finding on Connection.php:393-398; as written `++$this->seqId` never wraps, so a multi-chunk packet whose ids cross 255 fails with OutOfOrder (`Connection.ChunksAsWritten`, `Connection.ContinuationAfterWrap`). The two agree whenever the ids stay below 256 (`Connection.ChunksAgreeBelowWrap`).
- Connection.Connection.ReadPacket: the continuation ids are compared modulo 256 (`Connection.NextSeqId`), the corrected half of the finding on Connection.php:393-398; as written `++$this->seqId` never wraps, so a multi-chunk packet whose ids cross 255 fails with OutOfOrder (`Connection.ChunksAsWritten`, `Connection.ContinuationAfterWrap`). The two agree whenever the ids stay below 256 (`Connection.ChunksAgreeBelowWrap`).
- Connection.Connection.ReadChunk: the continuation ids are compared modulo 256 (`Connection.NextSeqId`), the corrected half of the finding on Connection.php:393-398; as written `++$this->seqId` never wraps, so a multi-chunk packet whose ids cross 255 fails with OutOfOrder (`Connection.ChunksAsWritten`, `Connection.ContinuationAfterWrap`). The two agree whenever the ids stay below 256 (`Connection.ChunksAgreeBelowWrap`).
- Connection.Connection.Read: the continuation ids are compared modulo 256 (`Connection.NextSeqId`), the corrected half of the finding on Connection.php:393-398; as written `++$this->seqId` never wraps, so a multi-chunk packet whose ids cross 255 fails with OutOfOrder (`Connection.ChunksAsWritten`, `Connection.ContinuationAfterWrap`). The two agree whenever the ids stay below 256 (`Connection.ChunksAgreeBelowWrap`).
- Connection.ExpectOk: a payload of exactly 0xFFFFFF bytes is refused with PacketTooLarge, the corrected half of the finding on Connection.php:435-444; as written only a longer payload is refused, and an exactly full one is sent as one frame with no empty follow-up, so the receiver waits for a continuation (`Connection.SendAsWritten`, `Connection.FullFrameUnfinished`).
- Connection.Connection.SendPacket: a payload of exactly 0xFFFFFF bytes is refused with PacketTooLarge, the corrected half of the finding on Connection.php:435-444; as written only a longer payload is refused, and an exactly full one is sent as one frame with no empty follow-up, so the receiver waits for a continuation (`Connection.SendAsWritten`, `Connection.FullFrameUnfinished`).
- Connection.Connection.Command: a payload of exactly 0xFFFFFF bytes is refused with PacketTooLarge, the corrected half of the finding on Connection.php:435-444; as written only a longer payload is refused, and an exactly full one is sent as one frame with no empty follow-up, so the receiver waits for a continuation (`Connection.SendAsWritten`, `Connection.FullFrameUnfinished`).
- Connection.Connection.RegisterSlave: sends what ExpectOk gives for the intended payload; the payload is the intended one with the password written once (`Connection.RegisterSlavePayload`), the corrected half of the finding on Connection.php:157-160; as written the password follows its length byte twice (`Connection.RegisterSlaveAsWritten`), and a server reads the second copy's first two bytes as the port (`Connection.RegisterSlaveAsWrittenPort`). The two payloads are equal only for an empty password.
- Connection.RegistrationDelivered: is proved for the payload `Connection.Connection.RegisterSlave` sends; the payload is the intended one with the password written once (`Connection.RegisterSlavePayload`), the corrected half of the finding on Connection.php:157-160; as written the password follows its length byte twice (`Connection.RegisterSlaveAsWritten`), and a server reads the second copy's first two bytes as the port (`Connection.RegisterSlaveAsWrittenPort`). The two payloads are equal only for an empty password.
- EventStream.ParseSpec: the ROTATE branch takes the intended step (`EventStream.RotateStep`: both table-map caches dropped, position and nextOffset moved to the new file), the corrected half of the finding on EventsIterator.php:163-166; as written the iterator clears its own table maps and then calls `dropTableMaps()`, which `RowFactory` does not define, so every ROTATE after the FORMAT_DESCRIPTION raises Error with the position unchanged (`EventStream.RotateAsWritten`).
- EventStream.Dispatch: the ROTATE branch takes the intended step (`EventStream.RotateStep`: both table-map caches dropped, position and nextOffset moved to the new file), the corrected half of the finding on EventsIterator.php:163-166; as written the iterator clears its own table maps and then calls `dropTableMaps()`, which `RowFactory` does not define, so every ROTATE after the FORMAT_DESCRIPTION raises Error with the position unchanged (`EventStream.RotateAsWritten`).
- EventStream.EventsIterator.Parse: the ROTATE branch takes the intended step (`EventStream.RotateStep`: both table-map caches dropped, position and nextOffset moved to the new file), the corrected half of the finding on EventsIterator.php:163-166; as written the iterator clears its own table maps and then calls `dropTableMaps()`, which `RowFactory` does not define, so every ROTATE after the FORMAT_DESCRIPTION raises Error with the position unchanged (`EventStream.RotateAsWritten`).
- EventStream.EventsIterator.DispatchEvent: the ROTATE branch takes the intended step (`EventStream.RotateStep`: both table-map caches dropped, position and nextOffset moved to the new file), the corrected half of the finding on EventsIterator.php:163-166; as written the iterator clears its own table maps and then calls `dropTableMaps()`, which `RowFactory` does not define, so every ROTATE after the FORMAT_DESCRIPTION raises Error with the position unchanged (`EventStream.RotateAsWritten`).
- Rows.RowFactory.DropTableMaps: `RowFactory` defines no such method; the model gives it the evident meaning (forget every table map) so that the intended ROTATE step can call it; as written the call raises Error (`EventStream.RotateAsWritten`).
- Rows.ImageAt: the rows are decoded with the corrected tests, the corrected halves of the findings on RowFactory.php:57 and RowFactory.php:32-46: a column is present when bit i of the columns bitmap is set, and a given after bitmap always makes UPDATE rows before/after pairs. As written presence is read from the bit at the running null index, and an after bitmap equal to the one-byte string "0" is falsy, so such an UPDATE is read as single images (`Rows.PresenceAsWrittenSkipsColumn`, `Rows.AfterBitmapZeroIgnored`). Both differences need a partial row image; the connection refuses a server without binlog_row_image=FULL (src/Connection/Connection.php:96-98), and with every column present the two presence tests agree (`Rows.FullImageAsWritten`).
- Rows.RowAt: the rows are decoded with the corrected tests, the corrected halves of the findings on RowFactory.php:57 and RowFactory.php:32-46: a column is present when bit i of the columns bitmap is set, and a given after bitmap always makes UPDATE rows before/after pairs. As written presence is read from the bit at the running null index, and an after bitmap equal to the one-byte string "0" is falsy, so such an UPDATE is read as single images (`Rows.PresenceAsWrittenSkipsColumn`, `Rows.AfterBitmapZeroIgnored`). Both differences need a partial row image; the connection refuses a server without binlog_row_image=FULL (src/Connection/Connection.php:96-98), and with every column present the two presence tests agree (`Rows.FullImageAsWritten`).
- Rows.RowsFrom: the rows are decoded with the corrected tests, the corrected halves of the findings on RowFactory.php:57 and RowFactory.php:32-46: a column is present when bit i of the columns bitmap is set, and a given after bitmap always makes UPDATE rows before/after pairs. As written presence is read from the bit at the running null index, and an after bitmap equal to the one-byte string "0" is falsy, so such an UPDATE is read as single images (`Rows.PresenceAsWrittenSkipsColumn`, `Rows.AfterBitmapZeroIgnored`). Both differences need a partial row image; the connection refuses a server without binlog_row_image=FULL (src/Connection/Connection.php:96-98), and with every column present the two presence tests agree (`Rows.FullImageAsWritten`).
- Rows.RowsSpec: the rows are decoded with the corrected tests, the corrected halves of the findings on RowFactory.php:57 and RowFactory.php:32-46: a column is present when bit i of the columns bitmap is set, and a given after bitmap always makes UPDATE rows before/after pairs. As written presence is read from the bit at the running null index, and an after bitmap equal to the one-byte string "0" is falsy, so such an UPDATE is read as single images (`Rows.PresenceAsWrittenSkipsColumn`, `Rows.AfterBitmapZeroIgnored`). Both differences need a partial row image; the connection refuses a server without binlog_row_image=FULL (src/Connection/Connection.php:96-98), and with every column present the two presence tests agree (`Rows.FullImageAsWritten`).
- Rows.ReadImage: the rows are decoded with the corrected tests, the corrected halves of the findings on RowFactory.php:57 and RowFactory.php:32-46: a column is present when bit i of the columns bitmap is set, and a given after bitmap always makes UPDATE rows before/after pairs. As written presence is read from the bit at the running null index, and an after bitmap equal to the one-byte string "0" is falsy, so such an UPDATE is read as single images (`Rows.PresenceAsWrittenSkipsColumn`, `Rows.AfterBitmapZeroIgnored`). Both differences need a partial row image; the connection refuses a server without binlog_row_image=FULL (src/Connection/Connection.php:96-98), and with every column present the two presence tests agree (`Rows.FullImageAsWritten`).
- Rows.ReadRow: the rows are decoded with the corrected tests, the corrected halves of the findings on RowFactory.php:57 and RowFactory.php:32-46: a column is present when bit i of the columns bitmap is set, and a given after bitmap always makes UPDATE rows before/after pairs. As written presence is read from the bit at the running null index, and an after bitmap equal to the one-byte string "0" is falsy, so such an UPDATE is read as single images (`Rows.PresenceAsWrittenSkipsColumn`, `Rows.AfterBitmapZeroIgnored`). Both differences need a partial row image; the connection refuses a server without binlog_row_image=FULL (src/Connection/Connection.php:96-98), and with every column present the two presence tests agree (`Rows.FullImageAsWritten`).
- Rows.RowFactory.ReadRows: the rows are decoded with the corrected tests, the corrected halves of the findings on RowFactory.php:57 and RowFactory.php:32-46: a column is present when bit i of the columns bitmap is set, and a given after bitmap always makes UPDATE rows before/after pairs. As written presence is read from the bit at the running null index, and an after bitmap equal to the one-byte string "0" is falsy, so such an UPDATE is read as single images (`Rows.PresenceAsWrittenSkipsColumn`, `Rows.AfterBitmapZeroIgnored`). Both differences need a partial row image; the connection refuses a server without binlog_row_image=FULL (src/Connection/Connection.php:96-98), and with every column present the two presence tests agree (`Rows.FullImageAsWritten`).
- Events.RowsEventAt: the rows are decoded with the corrected tests, the corrected halves of the findings on RowFactory.php:57 and RowFactory.php:32-46: a column is present when bit i of the columns bitmap is set, and a given after bitmap always makes UPDATE rows before/after pairs. As written presence is read from the bit at the running null index, and an after bitmap equal to the one-byte string "0" is falsy, so such an UPDATE is read as single images (`Rows.PresenceAsWrittenSkipsColumn`, `Rows.AfterBitmapZeroIgnored`). Both differences need a partial row image; the connection refuses a server without binlog_row_image=FULL (src/Connection/Connection.php:96-98), and with every column present the two presence tests agree (`Rows.FullImageAsWritten`).
- Events.RowsFlagged: the rows are decoded with the corrected tests, the corrected halves of the findings on RowFactory.php:57 and RowFactory.php:32-46: a column is present when bit i of the columns bitmap is set, and a given after bitmap always makes UPDATE rows before/after pairs. As written presence is read from the bit at the running null index, and an after bitmap equal to the one-byte string "0" is falsy, so such an UPDATE is read as single images (`Rows.PresenceAsWrittenSkipsColumn`, `Rows.AfterBitmapZeroIgnored`). Both differences need a partial row image; the connection refuses a server without binlog_row_image=FULL (src/Connection/Connection.php:96-98), and with every column present the two presence tests agree (`Rows.FullImageAsWritten`).
- Events.RowsBody: the rows are decoded with the corrected tests, the corrected halves of the findings on RowFactory.php:57 and RowFactory.php:32-46: a column is present when bit i of the columns bitmap is set, and a given after bitmap always makes UPDATE rows before/after pairs. As written presence is read from the bit at the running null index, and an after bitmap equal to the one-byte string "0" is falsy, so such an UPDATE is read as single images (`Rows.PresenceAsWrittenSkipsColumn`, `Rows.AfterBitmapZeroIgnored`). Both differences need a partial row image; the connection refuses a server without binlog_row_image=FULL (src/Connection/Connection.php:96-98), and with every column present the two presence tests agree (`Rows.FullImageAsWritten`).
- Events.RowsOf: the rows are decoded with the corrected tests, the corrected halves of the findings on RowFactory.php:57 and RowFactory.php:32-46: a column is present when bit i of the columns bitmap is set, and a given after bitmap always makes UPDATE rows before/after pairs. As written presence is read from the bit at the running null index, and an after bitmap equal to the one-byte string "0" is falsy, so such an UPDATE is read as single images (`Rows.PresenceAsWrittenSkipsColumn`, `Rows.AfterBitmapZeroIgnored`). Both differences need a partial row image; the connection refuses a server without binlog_row_image=FULL (src/Connection/Connection.php:96-98), and with every column present the two presence tests agree (`Rows.FullImageAsWritten`).
- Events.RowsEventOf: the rows are decoded with the corrected tests, the corrected halves of the findings on RowFactory.php:57 and RowFactory.php:32-46: a column is present when bit i of the columns bitmap is set, and a given after bitmap always makes UPDATE rows before/after pairs. As written presence is read from the bit at the running null index, and an after bitmap equal to the one-byte string "0" is falsy, so such an UPDATE is read as single images (`Rows.PresenceAsWrittenSkipsColumn`, `Rows.AfterBitmapZeroIgnored`). Both differences need a partial row image; the connection refuses a server without binlog_row_image=FULL (src/Connection/Connection.php:96-98), and with every column present the two presence tests agree (`Rows.FullImageAsWritten`).
- Events.ReadRowsEvent: the rows are decoded with the corrected tests, the corrected halves of the findings on RowFactory.php:57 and RowFactory.php:32-46: a column is present when bit i of the columns bitmap is set, and a given after bitmap always makes UPDATE rows before/after pairs. As written presence is read from the bit at the running null index, and an after bitmap equal to the one-byte string "0" is falsy, so such an UPDATE is read as single images (`Rows.PresenceAsWrittenSkipsColumn`, `Rows.AfterBitmapZeroIgnored`). Both differences need a partial row image; the connection refuses a server without binlog_row_image=FULL (src/Connection/Connection.php:96-98), and with every column present the two presence tests agree (`Rows.FullImageAsWritten`).
- Events.ReadRowsFlagged: the rows are decoded with the corrected tests, the corrected halves of the findings on RowFactory.php:57 and RowFactory.php:32-46: a column is present when bit i of the columns bitmap is set, and a given after bitmap always makes UPDATE rows before/after pairs. As written presence is read from the bit at the running null index, and an after bitmap equal to the one-byte string "0" is falsy, so such an UPDATE is read as single images (`Rows.PresenceAsWrittenSkipsColumn`, `Rows.AfterBitmapZeroIgnored`). Both differences need a partial row image; the connection refuses a server without binlog_row_image=FULL (src/Connection/Connection.php:96-98), and with every column present the two presence tests agree (`Rows.FullImageAsWritten`).
- Events.ReadRowsBody: the rows are decoded with the corrected tests, the corrected halves of the findings on RowFactory.php:57 and RowFactory.php:32-46: a column is present when bit i of the columns bitmap is set, and a given after bitmap always makes UPDATE rows before/after pairs. As written presence is read from the bit at the running null index, and an after bitmap equal to the one-byte string "0" is falsy, so such an UPDATE is read as single images (`Rows.PresenceAsWrittenSkipsColumn`, `Rows.AfterBitmapZeroIgnored`). Both differences need a partial row image; the connection refuses a server without binlog_row_image=FULL (src/Connection/Connection.php:96-98), and with every column present the two presence tests agree (`Rows.FullImageAsWritten`).
- Events.ReadRowsOf: the rows are decoded with the corrected tests, the corrected halves of the findings on RowFactory.php:57 and RowFactory.php:32-46: a column is present when bit i of the columns bitmap is set, and a given after bitmap always makes UPDATE rows before/after pairs. As written presence is read from the bit at the running null index, and an after bitmap equal to the one-byte string "0" is falsy, so such an UPDATE is read as single images (`Rows.PresenceAsWrittenSkipsColumn`, `Rows.AfterBitmapZeroIgnored`). Both differences need a partial row image; the connection refuses a server without binlog_row_image=FULL (src/Connection/Connection.php:96-98), and with every column present the two presence tests agree (`Rows.FullImageAsWritten`).
- Events.ReadRowsAfterBitmaps: the rows are decoded with the corrected tests, the corrected halves of the findings on RowFactory.php:57 and RowFactory.php:32-46: a column is present when bit i of the columns bitmap is set, and a given after bitmap always makes UPDATE rows before/after pairs. As written presence is read from the bit at the running null index, and an after bitmap equal to the one-byte string "0" is falsy, so such an UPDATE is read as single images (`Rows.PresenceAsWrittenSkipsColumn`, `Rows.AfterBitmapZeroIgnored`). Both differences need a partial row image; the connection refuses a server without binlog_row_image=FULL (src/Connection/Connection.php:96-98), and with every column present the two presence tests agree (`Rows.FullImageAsWritten`).
- Compressed and GTID event bodies: the PHP code skips USER_VAR, STOP, PREVIOUS_GTIDS and ANONYMOUS_GTID events and fails on any other event type, as the model does.

## Findings

| source | as written | input that shows it | evidently intended | confidence | as-written member | corrected member |
|---|---|---|---|---|---|---|
| src/Protocol/Event/Type.php:113-118 | `$found = array_search(...) ? static::from($found) : null` assigns the whole conditional, so `from` receives an unset `$found`: every known name but the one under key 0 throws a TypeError | `Type::tryFromString('QUERY_EVENT')` | the case with that name, or null (as `ColumnType` and `OptionalMetadataType` do with parentheses) | high, not executed | EventTypes.TryFromStringAsWrittenThrows | EventTypes.RoundTrip |
| src/Connection/Buffer/DecimalReadTrait.php:29-46 | one-byte legs are read with `readIntBeBySize(1)`, which is unsigned, then XORed with the mask -1 of a negative value | -123.45 as DECIMAL(10,2), stored 7F FF FF 84 D2, assembles as "-123.-211" (which `%.2F` then turns into -123.00) | one-byte legs read signed like the wider ones, giving "-123.45" | high, not executed | Decimals.DecimalVector | Decimals.ReadDecimal |
| src/Connection/Buffer.php:131-139 | `substr($data, $offset, $position - 1)` uses the needle's absolute position as a length, which is right only from offset 1; a needle at index 0 counts as not found | "ab\0cd\0" read from offset 3 gives "cd\0"; in the handshake the plugin name comes back with its NUL | the bytes from the offset up to the needle; the handshake model reads the plugin name with the corrected reader | high, not executed | Buffers.UntillTakesTerminator | Buffers.Until |
| src/Connection/Connection.php:393-398 | the continuation header's sequence id is compared with `++$this->seqId`, which is never reduced modulo 256; the count starts from the id of the packet's first header, so any multi-chunk packet whose ids cross 255 is rejected | a packet whose first chunk is numbered 255 and is full: its continuation carries 0 and is rejected as out of order | ids wrap in the one-byte field | medium, not executed | Connection.ContinuationAfterWrap | Connection.Connection.ReadPacket |
| src/EventsIterator.php:163-166 | ROTATE calls `$this->rowFactory->dropTableMaps()`, which `RowFactory` does not define: an Error after the iterator's table maps are cleared and before the position moves | any ROTATE event after the FORMAT_DESCRIPTION | both table-map caches dropped and the position moved to the new file | high, not executed | EventStream.RotateAsWritten | EventStream.RotateStep |
| src/Deserializer/RowFactory.php:57 | a column's presence is read from the bit at the running null index rather than at the column's own index | columns bitmap 0x02 (column 0 absent, column 1 present) leaves column 1 unread | bit i of the columns bitmap decides whether column i is present | high, not executed | Rows.PresenceAsWrittenSkipsColumn | Rows.NullIndexCounts |
| src/Deserializer/RowFactory.php:32-46 | the after-image bitmap is judged by PHP truthiness, and the one-byte string "0" is falsy | an UPDATE of columns 4 and 5 of a table of up to 8 columns has after bitmap "0" (0x30) and is read as a single image | an after bitmap that is given is used | high, not executed | Rows.AfterBitmapZeroIgnored | Rows.RowsSpec |
| src/Connection/Connection.php:157-160 | the password is written twice after its length byte | a password "ab": the server reads the second copy's bytes as the port | the password once, then the port | high, not executed | Connection.RegisterSlaveAsWrittenPort | Connection.RegisterSlaveRoundTrip |
| src/Connection/Connection.php:435-444 | only payloads longer than 0xFFFFFF are refused, so one of exactly 0xFFFFFF bytes is sent without the empty packet that must follow it | a 0xFFFFFF-byte payload: the receiver waits for a continuation | refuse payloads of 0xFFFFFF bytes or more, which the code cannot split | medium, not executed | Connection.FullFrameUnfinished | Connection.Connection.SendPacket |
