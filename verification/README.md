# CAN-to-SocketCAN high-level analyzer, modelled in Dafny

The analyzer is a Saleae Logic high-level analyzer. The CAN bus decoder hands
`Hla.decode` one field event at a time: identifier, control, data, CRC and
acknowledgement fields. `decode` keeps one frame accumulator, made of
`can_id`, `can_len`, `can_data` and `can_crc`. On every acknowledgement field
it packs the accumulated identifier and data with `build_can_frame` into the
16-byte Linux SocketCAN `struct can_frame` record and sends that record to a
CAN socket.

The model has four modules:

- `Wrappers` (`wrappers.dfy`): `Option` and `Result`.
- `SocketCan` (`socketcan.dfy`):
  - `BuildCanFrame`, which is `build_can_frame` over `seq<bv8>`;
  - the pieces of the `struct` format "=IB3x8s" (`Le32`, `Ljust`, `PackFixed`);
  - `ParseCanFrame`, a reference reader of the record as the kernel lays it out;
  - the round-trip lemmas between the encoder and the reader.
- `Analyzer` (`analyzer.dfy`):
  - the field-event datatype and the analyzer state;
  - `Classify`, the substring dispatch on the frame type, proved equal to "the first field name that occurs in the type";
  - `EventOf` and `Decode`, which cover the missing-key paths;
  - `Step`, one call of `decode` on a field event;
  - the flag arithmetic of the identifier branch.
- `Trace` (`trace.dfy`):
  - `Run`, which applies `decode` to a sequence of calls;
  - a description of the accumulator that does not replay anything: the last identifier, length and CRC seen, and the data since the last identifier. It is written with index ranges over the input sequence;
  - the proof that replaying equals the description (`RunMatchesExpected`);
  - the per-frame guarantees that follow from it.

The analyzer's environment is passed in as data:

- Each call carries a `Socket` value: no socket, or a bound socket whose `send` succeeds or raises `OSError`.
- Each call returns an `Emission`: nothing, a record the socket took, a record whose `send` failed, or an exception that escapes `decode`.

Two exceptions can escape `decode`:

- `struct.error` is raised for 256 or more accumulated data bytes, because the `B` field takes only 0..255.
- `KeyError` is raised when the frame's data lacks the key its branch reads.

Both are modelled, and neither changes the count of sent packets.

Three behaviours of the code are modelled as written:

- The length byte of the record is `len(data)`. It is neither `can_len` nor clamped to 8. For 9 to 255 accumulated data bytes, byte 4 carries the full length while the data field holds only the first 8 bytes (`SocketCan.LongPayloadTruncated`). The docstring's `struct can_frame` comment gives `can_dlc` as 0 .. 8 (HighLevelAnalyzer.py:20), but line 24 writes `len(data)`; the model follows the code.
- An acknowledgement does not reset the accumulator. A second acknowledgement resends the same record (`Analyzer.RepeatedAckResends`). Data that arrives without a new identifier is appended to the previous frame's data (`Trace.AckWithoutIdentifierUsesLeftover`).
- An identifier frame without its 'identifier' key has already emptied `can_data` when `KeyError` is raised.

## Model

| member | source | states |
|---|---|---|
| SocketCan.Le32 | HighLevelAnalyzer.py:26 | the "=I" field is four bytes that read back, little-endian, as the identifier |
| SocketCan.Le32OfReadLe32 | HighLevelAnalyzer.py:26 | every four bytes are the "=I" encoding of the integer they are read as, so the identifier field is a bijection |
| SocketCan.Ljust | HighLevelAnalyzer.py:25 | `ljust(8, b'\x00')` keeps the payload as a prefix, pads with zeros up to 8 and never shortens |
| SocketCan.PackFixed | HighLevelAnalyzer.py:26 | the "8s" field is exactly 8 bytes: a longer argument is cut to its first 8 bytes, a shorter one is zero-padded |
| SocketCan.DataBytes | HighLevelAnalyzer.py:25-26 | the data field is the payload followed by zeros, or the first 8 bytes of a longer payload |
| SocketCan.BuildCanFrame | HighLevelAnalyzer.py:24-26 | packing succeeds exactly for payloads under 256 bytes, and the result is 16 bytes: little-endian can_id, byte 4 = len(data), zero bytes 5-7, payload then zeros, or the first 8 bytes of a long payload |
| SocketCan.ParseCanFrame | HighLevelAnalyzer.py:11-23 | a record is read as a struct can_frame exactly when it is 16 bytes with zero padding, and its data field is 8 bytes |
| SocketCan.ParseBuild | HighLevelAnalyzer.py:24-26 | reading back any packed record gives the identifier, len(data) and the payload cut or padded to 8 bytes |
| SocketCan.ShortPayloadRoundTrip | HighLevelAnalyzer.py:24-26 | a payload of at most 8 bytes comes back whole with its true length, followed by zeros |
| SocketCan.LongPayloadTruncated | HighLevelAnalyzer.py:24-26 | a payload of 9 to 255 bytes comes back as its first 8 bytes, while byte 4 holds the full length, not 8 |
| SocketCan.BuildParse | HighLevelAnalyzer.py:24-26 | every well-formed record with length byte at most 8 and zero unused data bytes is what build_can_frame produces from its fields |
| SocketCan.ShortPayloadInjective | HighLevelAnalyzer.py:24-26 | distinct identifier/short-payload pairs give distinct records |
| Analyzer.ContainsIsOccurs | HighLevelAnalyzer.py:73 | the substring search decides exactly Python's `p in s` for strings |
| Analyzer.Classify | HighLevelAnalyzer.py:73-88 | the branch taken is the first of identifier, control, data, crc, ack whose field name occurs in the frame type, else none |
| Analyzer.FlaggedId | HighLevelAnalyzer.py:75-80 | the stored identifier keeps the 30 low bits, has bit 31 set iff extended or already set, and bit 30 set iff remote or already set |
| Analyzer.UnflaggedIdentifierKept | HighLevelAnalyzer.py:75-80 | with neither flag key the identifier is stored unchanged |
| Analyzer.FlagBitsOfCanIdentifier | HighLevelAnalyzer.py:75-80 | for an identifier with both flag bits clear, bit 31 is set exactly when extended, bit 30 exactly when remote, and the low bits are the identifier |
| Analyzer.OnAck | HighLevelAnalyzer.py:88-101 | an acknowledgement never touches the accumulator; it sends build_can_frame(can_id, can_data), counts a packet exactly when a bound socket's send succeeds, catches a failing send's OSError (SendFailed with the record, nothing counted), does nothing without a socket, and lets struct.error escape for 256+ bytes |
| Analyzer.Step | HighLevelAnalyzer.py:73-101 | identifier empties the data and stores the flagged id; control changes only can_len; data appends; crc changes only can_crc; other types change nothing; only acknowledgements emit or count |
| Analyzer.AckIgnoresLengthAndCrc | HighLevelAnalyzer.py:91 | what an acknowledgement sends depends only on can_id and can_data, and its length byte is the accumulated data length, not can_len |
| Analyzer.RepeatedAckResends | HighLevelAnalyzer.py:88-101 | two acknowledgements in a row with a working socket send the same record twice and count two packets |
| Analyzer.EventOf | HighLevelAnalyzer.py:73-87 | a frame stands for the event of the branch its type selects, carrying the values of that branch's keys, and for none when such a key is missing |
| Analyzer.Decode | HighLevelAnalyzer.py:64-101 | decode on a frame is the step of its event; a missing key raises KeyError, after the identifier branch has emptied the data, and leaves everything else unchanged |
| Analyzer.OtherTypeIgnored | HighLevelAnalyzer.py:73-101 | a frame whose type names none of the five fields changes nothing and emits nothing |
| Analyzer.IdentifierTypeWins | HighLevelAnalyzer.py:73-80 | a type naming the identifier field is handled as an identifier whatever else it names |
| Trace.PacketNumberCountsSent | HighLevelAnalyzer.py:92 | after any run, packet_number has grown by exactly the number of records the socket took |
| Trace.RunAppend | HighLevelAnalyzer.py:64-101 | decoding two stretches of events is decoding the second from the state the first left |
| Trace.EmissionAt | HighLevelAnalyzer.py:64-101 | what a call emits is determined by the state the earlier calls left |
| Trace.LastOfIsLast | HighLevelAnalyzer.py:73-87 | no event after the last event of a kind has that kind |
| Trace.PayloadsSplit | HighLevelAnalyzer.py:84-85 | the data of a stretch of events is the data of its halves concatenated |
| Trace.LastNext | HighLevelAnalyzer.py:75-87 | one more event changes the last identifier, length and CRC only when it is of that kind |
| Trace.DataSinceNext | HighLevelAnalyzer.py:74-85 | one more event empties the data since the last identifier if it is an identifier, else appends its payload |
| Trace.ExpectedNext | HighLevelAnalyzer.py:73-87 | one step of decode moves the described accumulator forward by exactly one event |
| Trace.RunMatchesExpected | HighLevelAnalyzer.py:73-87 | after any events and socket outcomes, can_id is the last identifier (flagged), can_len the last length, can_crc the last CRC, and can_data the data since the last identifier, or the old data plus all data if there was none |
| Trace.AckSendsExpectedFrame | HighLevelAnalyzer.py:88-101 | an acknowledgement sends exactly when the socket works and the described data is under 256 bytes, records a caught send failure exactly when the socket's send fails and the data is under 256 bytes, and in both cases carries the record of the described identifier and data |
| Trace.LastIdentifierIsFirst | HighLevelAnalyzer.py:73-80 | an identifier followed only by other events is the last identifier |
| Trace.FramePayloads | HighLevelAnalyzer.py:84-85 | the identifier and acknowledgement of a frame add no data |
| Trace.FrameExpected | HighLevelAnalyzer.py:74-85 | before its acknowledgement a frame has stored its own flagged identifier and exactly its data events' payloads in order, whatever came before |
| Trace.CompleteFrameIsSent | HighLevelAnalyzer.py:73-92 | identifier, then other events, then an acknowledgement with a working socket, sends build_can_frame of the flagged identifier and the concatenated data, from any prior state |
| Trace.AckWithoutIdentifierUsesLeftover | HighLevelAnalyzer.py:88-92 | without an identifier, an acknowledgement sends the leftover data of the previous frame followed by the new data |
| Trace.FirstAckWithoutIdentifier | HighLevelAnalyzer.py:34-40 | from the class defaults, an acknowledgement before any identifier sends can_id 0 with the data seen so far, and the stored CRC is 0 unless a CRC event came |
| Trace.ExamplePayloads | HighLevelAnalyzer.py:84-85 | the example's data events contribute AA BB CC |
| Trace.ExampleRecord | HighLevelAnalyzer.py:24-26 | identifier 0x123 with data AA BB CC packs to 23 01 00 00 03 00 00 00 AA BB CC 00 00 00 00 00 |
| Trace.ExampleFrameRecord | HighLevelAnalyzer.py:73-92 | the example frame's acknowledgement sends that record from any prior state |

## Left out

- Socket creation and binding in `__init__` (HighLevelAnalyzer.py:42-61): this is operating-system I/O. Whether a socket exists and whether each `send` succeeds are inputs (`Socket`).
- The `print` and `hexlify` diagnostics (lines 48, 51, 57, 93-98, 100): they are output only and change no state.
- The Saleae framework classes (`HighLevelAnalyzer`, `AnalyzerFrame`, `StringSetting`): a frame is a type string plus a record of the dictionary entries `decode` reads (`Frame`, `FrameData`).
- `can_extended` (line 39): `decode` never reads or writes it.
- The native byte order of the "=" struct format: the model fixes it to little-endian.
- What the kernel does with a record whose length byte exceeds 8: the kernel is not part of this model.
- Values of other Python types in the frame's data (a non-integer identifier, non-bytes data): each key is modelled with the type the CAN decoder delivers.
- SocketCan.BuildCanFrame: the identifier is 32 bits. A Python integer outside 0..2^32-1 makes the `I` field raise `struct.error`, and that error path is not modelled.
- Analyzer.FlaggedId: the identifier is 32 bits. Python's OR on a wider integer would keep the higher bits, which are not modelled.
