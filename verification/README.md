# AppleArchiver in Dafny

A model of the core of `AppleArchiver`, a small Swift library that encrypts and
decrypts directories, single files and in-memory data with Apple's AppleArchive
framework. What is modelled is the logic the library itself contributes:

- **The scoped resource guard** (`Closables` and `withClosables`): an ordered
  stack of acquired stream stages. `new` pushes the item a factory yields, or
  raises the guard's configured error when the factory yields nothing. `close`
  closes every held item newest first and swallows each item's close error.
  `withClosables` runs a body, cleans up exactly once, and then returns the
  body's value or re-raises the body's own error. In the model the guard is a
  value (`Closables.Guard`). Closing is recorded as a trace of `Release(item,
  threw)` events, and a whole scope yields a `Scope(trace, result)`.
- **The single-blob envelope** (`ArchiveFormat`): the three-field header
  `encryptData` writes (`PAT` = "data", `TYP` = the regular-file entry type,
  `DAT` = blob of the payload's size). Also the check `decryptData` applies to
  the header it reads: a `DAT` field must exist, be a blob and declare a
  positive size.
- **The six public operations** (`AppleArchiver`): `encryptDirectory`,
  `decryptDirectory`, `encryptFile`, `decryptFile`, `encryptData` and
  `decryptData`. Each is modelled as its closure body run under
  `WithClosables`. Each body checks the key length (256 bits) first. An
  encrypting operation then makes its encryption context and opens its stages
  in a fixed order. A decrypting operation opens its source file first, reads
  the encryption context from it, sets the key, and then opens its remaining
  stages in a fixed order. The last step is the work itself.

Every call into the archive framework is an oracle: a field of a `Framework`
value. The oracles are:

- `opens(stage)`: whether a stream factory yields a stream.
- `closeThrows(stage)`: whether that stream's `close()` throws.
- `setKey`: whether setting the key on a context throws.
- `parsesContext`: whether an encryption context can be read from the source.
- `archive`, `extract`, `transfer`, `writeHeader`, `writeBlob`, `readHeader` and
  `readBlob`: the outcomes of the archiving, transfer and header/blob calls.

The model proves the following:

- Release is LIFO and exactly once.
- Close errors are swallowed.
- The surfaced value or error is the body's own.
- Every operation rejects a key that is not 256 bits before opening anything.
- Every operation releases a prefix of its acquisition order, newest first.
- A stage that cannot be opened surfaces `ioError`; an unopenable source file
  releases nothing.
- A key setting that throws surfaces its own error, holding nothing when
  encrypting and only the source file when decrypting.
- With every stage open, the result is the outcome of the operation's final
  framework step.
- An unreadable encryption context leaves only the source file to release.
- A non-empty payload's envelope passes `decryptData`'s check and returns a
  buffer of the declared size.
- An empty payload is written, but its envelope is rejected on read.

The stage a stream plays is named by its role: `SourceFile`, `DestinationFile`,
`Encryption`, `Decryption`, `Encode`, `Decode` and `Extract`.
`encryptDirectory`'s output file is the `DestinationFile`, and
`decryptDirectory`'s input file is the `SourceFile`.

Lookup of a header field by key (`ArchiveHeader.field(forKey:)`) belongs to the
framework, and its semantics are not visible. The model assumes it returns the
first field with that key (`ArchiveFormat.FindField`).

`encryptData` returns nothing in Swift; it writes the header and then the
payload to the encode stream. The model's `EncryptData` returns that written
`Envelope(header, payload)` so that the read side can be stated against it.

Facts about the code that shape the model:

- The key-length check raises `invalidValue` inside each operation's guarded
  body, before anything else (AppleArchiver.swift:16-18 and the same check in
  the other five operations).
- A factory that yields nothing raises the guard's error, which is `ioError` in
  every operation (Closables.swift:15-17). The stages already held are released
  only when the scope ends (Closables.swift:42).
- There are six entry points: directory, file and data, each encrypted and
  decrypted.

## Model

| member | source | states |
|---|---|---|
| Closables.New | Sources/AppleArchiver/Closables.swift:14-20 | A factory that yields an item pushes it as the new last item, keeps the earlier items unchanged, and returns that item. A factory that yields nothing raises the guard's configured error, and the items are unchanged. |
| Closables.AcquireAll | Sources/AppleArchiver/Closables.swift:14-20 | Successive `new` calls hold exactly the items yielded before the first factory that yields nothing. They succeed exactly when no factory yields nothing. Otherwise they raise the configured error. |
| Closables.CloseItems | Sources/AppleArchiver/Closables.swift:22-26 | Closing releases the held items in exactly reverse order. Each release records whether that item's `close()` threw, and the next item is closed all the same. |
| Closables.Close | Sources/AppleArchiver/Closables.swift:22-26 | The guard's `close` produces one release per held item, newest first: release `i` is item `n-1-i`. It has no failure outcome. |
| Closables.CloseReleasesEachItemOnce | Sources/AppleArchiver/Closables.swift:22-26 | The released items are a permutation of the held items, so each acquisition is released exactly once. |
| Closables.CloseFailuresAreSwallowed | Sources/AppleArchiver/Closables.swift:22-49 | Whether item `close()` calls throw changes neither which items are released nor in what order. It also never changes the value or error the scope surfaces. |
| Closables.WithClosables | Sources/AppleArchiver/Closables.swift:35-49 | The body runs on a fresh guard. Cleanup then releases what the body left held, in reverse, once. The scope surfaces exactly the body's value or the body's own error. |
| Closables.AcquisitionScopeReleasesHeldPrefix | Sources/AppleArchiver/Closables.swift:14-49 | A scope that acquires a run of items releases the items acquired before the first failing factory, newest first. It fails exactly when some factory yields nothing, and then with the configured error. |
| Closables.TwoAcquiredThenFactoryFails | Sources/AppleArchiver/Closables.swift:14-49 | A and B are acquired, then C's factory yields nothing: the trace is exactly [B, A] and the error is the configured one. |
| ArchiveFormat.FieldIndex | Sources/AppleArchiver/AppleArchiver.swift:257 | Returns the position of the first field with the key. It returns none exactly when no field has that key. |
| ArchiveFormat.FindField | Sources/AppleArchiver/AppleArchiver.swift:257 | Field lookup returns a field of the header carrying the key. It returns nothing exactly when no field carries that key. |
| ArchiveFormat.EnvelopeHeader | Sources/AppleArchiver/AppleArchiver.swift:210-214 | The data envelope header has exactly three fields in order: `PAT` string "data", `TYP` uint regular-file code, `DAT` blob whose size is the payload size. |
| ArchiveFormat.ValidateEnvelope | Sources/AppleArchiver/AppleArchiver.swift:256-269 | Fails with `invalidValue` when no header was read or no field is keyed `DAT`. For the first `DAT` field, it accepts with that size exactly when the field is a blob of positive size; otherwise it fails with `invalidValue`. |
| ArchiveFormat.EnvelopeRoundTrip | Sources/AppleArchiver/AppleArchiver.swift:210-269 | The header built for `n` bytes validates with size `n` when `n > 0`. For `n = 0` it is rejected with `invalidValue`. |
| AppleArchiver.EncryptDirectoryBody | Sources/AppleArchiver/AppleArchiver.swift:16-45 | The closure of `encryptDirectory` leaves held a prefix of file, encryption, encode, and all three when it succeeds. Once the key is set, it holds exactly the stages opened before the first unopenable one, and that stage surfaces the guard error. A throwing key setting leaves the guard untouched. |
| AppleArchiver.EncryptDirectory | Sources/AppleArchiver/AppleArchiver.swift:14-47 | A key that is not 256 bits gives `invalidValue` with nothing released. The release trace is a prefix of file → encryption → encode, reversed. Once the key is accepted, exactly the stages opened before the first unopenable one are released, and that stage surfaces `ioError`. On success the trace is encode, encryption, file. Close failures are recorded. If setting the key throws, that error surfaces and nothing is released. With the key set and every stage open, the result is the outcome of the final framework step. |
| AppleArchiver.DecryptDirectoryBody | Sources/AppleArchiver/AppleArchiver.swift:52-88 | The closure of `decryptDirectory` leaves held a prefix of source file, decryption, decode, extract, and all four when it succeeds. An unopenable source file leaves the guard untouched and surfaces the guard error, whatever the context and key would do. Once the context is read and the key set, it holds exactly the stages opened before the first unopenable one, and that stage surfaces the guard error. A throwing key setting after the context is read leaves only the source file held. |
| AppleArchiver.DecryptDirectory | Sources/AppleArchiver/AppleArchiver.swift:50-90 | The key check comes first and releases nothing. Releases are a reversed prefix of source → decryption → decode → extract. An unopenable source file gives `ioError` with nothing released, whatever the context and key would do. Once the context is read and the key set, exactly the stages opened before the first unopenable one are released, and that stage surfaces `ioError`. On success all four are released and the entry count is the transfer's. If setting the key throws after the context is read, that error surfaces and only the source file is released. With the key set and every stage open, the result is the outcome of the final framework steps. |
| AppleArchiver.EncryptFileBody | Sources/AppleArchiver/AppleArchiver.swift:95-131 | The closure of `encryptFile` leaves held a prefix of source file, destination file, encryption, and all three when it succeeds. Once the key is set, it holds exactly the stages opened before the first unopenable one, and that stage surfaces the guard error. A throwing key setting leaves the guard untouched. |
| AppleArchiver.EncryptFile | Sources/AppleArchiver/AppleArchiver.swift:93-133 | The key check comes first and releases nothing. Releases are a reversed prefix of source → destination → encryption. Once the key is accepted, exactly the stages opened before the first unopenable one are released, and that stage surfaces `ioError`. On success all three are released and the byte count is the transfer's. If setting the key throws, that error surfaces and nothing is released. With the key set and every stage open, the result is the outcome of the final framework step. |
| AppleArchiver.DecryptFileBody | Sources/AppleArchiver/AppleArchiver.swift:138-178 | The closure of `decryptFile` leaves held a prefix of source file, decryption, destination file, and all three when it succeeds. An unopenable source file leaves the guard untouched and surfaces the guard error, whatever the context and key would do. Once the context is read and the key set, it holds exactly the stages opened before the first unopenable one, and that stage surfaces the guard error. A throwing key setting after the context is read leaves only the source file held. |
| AppleArchiver.DecryptFile | Sources/AppleArchiver/AppleArchiver.swift:136-180 | The key check comes first and releases nothing. Releases are a reversed prefix of source → decryption → destination, so success releases destination, decryption, source. An unopenable source file gives `ioError` with nothing released, whatever the context and key would do. Once the context is read and the key set, exactly the stages opened before the first unopenable one are released, and that stage surfaces `ioError`. The byte count is the transfer's. If setting the key throws after the context is read, that error surfaces and only the source file is released. With the key set and every stage open, the result is the outcome of the final framework steps. |
| AppleArchiver.EncryptDataBody | Sources/AppleArchiver/AppleArchiver.swift:184-220 | The closure of `encryptData` leaves held a prefix of file, encryption, encode, and all three when it succeeds. Once the key is set, it holds exactly the stages opened before the first unopenable one, and that stage surfaces the guard error. A throwing key setting leaves the guard untouched. |
| AppleArchiver.EncryptData | Sources/AppleArchiver/AppleArchiver.swift:182-222 | The key check comes first and releases nothing. Releases are a reversed prefix of file → encryption → encode. Once the key is accepted, exactly the stages opened before the first unopenable one are released, and that stage surfaces `ioError`. On success the envelope written is the three-field header for `data.count` followed by the data itself. If setting the key throws, that error surfaces and nothing is released. With the key set and every stage open, the result is the outcome of the final framework step. |
| AppleArchiver.DecryptDataBody | Sources/AppleArchiver/AppleArchiver.swift:226-277 | The closure of `decryptData` leaves held a prefix of source file, decryption, decode, and all three when it succeeds. An unopenable source file leaves the guard untouched and surfaces the guard error, whatever the context and key would do. Once the context is read and the key set, it holds exactly the stages opened before the first unopenable one, and that stage surfaces the guard error. A throwing key setting after the context is read leaves only the source file held. |
| AppleArchiver.DecryptData | Sources/AppleArchiver/AppleArchiver.swift:224-279 | The key check comes first and releases nothing. Releases are a reversed prefix of source → decryption → decode. An unopenable source file gives `ioError` with nothing released, whatever the context and key would do. Once the context is read and the key set, exactly the stages opened before the first unopenable one are released, and that stage surfaces `ioError`. On success a header was read, it passes the envelope check, the returned buffer's length is the declared `DAT` size, and the buffer holds the bytes `readBlob` delivered, zero-padded to that size. If setting the key throws after the context is read, that error surfaces and only the source file is released. With the key set and every stage open, the result is the outcome of the final framework steps. |
| AppleArchiver.UnreadableContextReleasesSourceOnly | Sources/AppleArchiver/AppleArchiver.swift:224-241 | An encryption context that cannot be read from the source makes `decryptData`, `decryptDirectory` (lines 56-67) and `decryptFile` (lines 142-153) fail with `ioError`. Exactly the source file is released. |
| AppleArchiver.EncryptDataWritesEveryPayload | Sources/AppleArchiver/AppleArchiver.swift:182-221 | When the framework accepts every step, `encryptData` writes the envelope of any payload, including the empty one. It releases encode, encryption, file. |
| AppleArchiver.DecryptDataRejectsInvalidEnvelope | Sources/AppleArchiver/AppleArchiver.swift:256-269 | A header that was read but fails the envelope check gives `invalidValue`, with decode, decryption, source released. |
| AppleArchiver.DataEnvelopeRoundTrip | Sources/AppleArchiver/AppleArchiver.swift:210-277 | Suppose the decoder delivers the envelope header `encryptData` builds for the payload, and the payload itself. Then a non-empty payload is returned unchanged, and an empty payload is rejected with `invalidValue`. |
| AppleArchiver.EncryptThenDecryptData | Sources/AppleArchiver/AppleArchiver.swift:182-277 | Take an `encryptData` call that succeeded, and a decoder that delivers exactly the header and payload that call wrote. Then `decryptData` returns a non-empty payload unchanged and rejects an empty one with `invalidValue`. |

## Left out

- Cryptography and compression: the HKDF/AES-CTR/HMAC profile, LZFSE, and how a context is made or read. These belong to the framework. Context reading is the `parsesContext` oracle, and setting the key is the `setKey` oracle; one oracle stands for both places where a key is set, since each operation uses only one of them.
- Decrypting what was encrypted to give back the original bytes, and wrong-key authentication failure. Both depend on the cipher, so only the envelope round trip is stated.
- File I/O and open options: create/truncate, read-only or write-only, and the `0o644` permissions. They are operating-system effects with no logic of the library's own.
- Bulk transfer and archiving (`ArchiveStream.process`, `ArchiveByteStream.process`, `writeDirectoryContents`): each is an oracle outcome, and nothing is claimed about the counts returned. The `TYP,PAT,DAT` key set passed to `writeDirectoryContents` only configures the framework, so it is not modelled.
- Paths and keys themselves: an operation sees only the key's bit count, and paths are not represented.
- Field kinds the envelope never uses (time stamps, hashes) are a single `OtherField`. The blob field's offset is not modelled.
- The guard's `close` can also be called from inside a body. No operation does so, so bodies here only acquire.
- AppleArchiver.DecryptData: converting the declared `UInt64` size to `Int` traps when the size is 2^63 or more, and very large buffers cannot be allocated. The model allocates a buffer of any declared size. The buffer's contents are the bytes the `readBlob` oracle delivers, with zeros after them.
- Integer widths: header sizes and numbers are unbounded naturals rather than `UInt64`. `UInt64(data.count)` in `encryptData` cannot overflow, so nothing is lost there.
