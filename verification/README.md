# What this project models

A creator's file is hashed and sealed in the browser, uploaded in resumable chunks, registered with the Trace
service, labelled by queued jobs and a jury of models, and submitted to data requests. This project models the parts
of that path that keep state or do exact arithmetic, and proves what they promise for every input, every run and
every pattern of faults. Run `dafny verify dfyconfig.toml` in this directory to check it.

**Streaming SHA-256.** `Sha256Spec` is FIPS 180-4 (sections 4.1.2, 4.2.2, 5.1.1, 5.2.1, 5.3.3 and 6.2.2) on words as
plain numbers; `Sha256Constants` derives its constants from the primes. `Int32` is JavaScript's mixed signed and unsigned 32-bit arithmetic, with bitwise operators defined bit by
bit. `Sha256Stream.Sha256Stream` is the hasher with its three arrays and its counters; however a message is cut into
pieces, its digest is that of the standard.

**Resumable encrypted upload.** `Encrypt` cuts and seals a file with an abstract AES-GCM. `MediaStore.Disk` says what
truncating, writing and reading do to one asset's bytes in either layout, one byte file or one object per chunk, and
`Stores` proves that the two store classes do exactly that. `CiphertextStore` is the server, whose every request may
be cut short by a `Fault`: lost, crashed before or inside the truncation, crashed inside the write or after it but
before the offset is recorded (`WriteCut`, with any number of bytes stored), or answered in vain. `EncryptedUploader`
runs the client against that server over any number of interrupted sessions, with local storage cleared before any
of them; what each session and each run makes of the server is a function of the faults, and the results are about
that function.

**Trace client and Trace service.** `Canonical` is the canonical JSON that every hash commits to, on UTF-16 code
units (`JsText`). `TraceLedger` is what the service amounts to: two tables in which the first writer wins.
`TraceService.MockTrace` is the simulator, with its record map, synthetic keys and adoption of early updates; it is
proved to show exactly the ledger. `TraceClient` is the retry loop over an adversarial transport, the two calls built
on it, and a caller that feeds each root and count into its next update (`CallerOf`, a function of the calls and
their transports).

**Parsers.** `TraceFormat` chooses the parser of an agent trace, `TraceParse` matches tool calls and results,
`Manifest` is the CSV manifest, `PerceptualHash` the 64-bit image hashes.

**State machines over tables.** `EventLog` and `Requests` are the asset event log and the submissions to data
requests; `LabelJobs` is the labeling queue under any interleaving, with `PreferencePair` for the identity of a
pair; `Jury` is the preference jury.

## What is assumed

- AES-GCM: the tag is 16 bytes and opening undoes sealing (`Encrypt.Lawful`). A random IV base belongs to one key
  (`EncryptedUploader.KeyOk`). Every session uploads the same file, as the content hash that selects the asset says.
- SHA-256 over canonical texts is injective only where a lemma says so (`Canonical.Injective`). A data id keeps
  30 of the 64 digits of its hash; over the source records in use it is taken not to collide. One provider is in
  use, whose name has no colon and is not `data_id`.
- A document is hashed as the caller holds it. In the source the service hashes what `JSON.stringify` and
  `JSON.parse` make of it, which is the same canonical text unless it holds a bigint, which cannot be sent, or
  undefined inside an array, which arrives as null.
- Part keys hold 16 hexadecimal digits, and offsets stay below 2^64. A listing shows each key under its prefix once,
  cut into pages in any way.
- A batch sent by the client holds one item, as the client builds it. Answers of its own that a gateway gives are
  failures other than 409 and 400.
- Each SQL statement or transaction, and each enqueue, is one atomic step. Generated ids are new. The row a
  withdrawal deletes is one its WHERE clause selects.
- Outside canonical JSON, strings are sequences of Unicode characters, without lone surrogates.
- Jurors are functions of what they are shown and of the attempt number. Confidence and agreement are real numbers:
  floating-point rounding is not modelled.

## What the proofs found

- An upload that was begun but whose first chunk never arrived cannot be taken up under another key: the client's
  check looks at the key only past offset 0, and `beginUpload` answers 409 for good (`AbandonedBeginIsStuck`).
  A session succeeds exactly when its status request is answered and the upload is complete already, or is not begun
  under another key and every remaining PUT goes through (`SessionProgress`).
- `writeCiphertextChunk` of the file store creates the file anew whenever it does not open for update, whatever the
  reason. Over all runs the committed bytes are kept exactly when that never happens to a file that has some
  (`BytesAreKeptIff`, with `OneByteIsLost` as such a run); afterwards no request is ever accepted
  (`EmptiedIsStuck`). The client's sessions, and the results named before these, are about runs without that event.
- A bigint prints like its decimal string, so the two are the same canonical document (`Canonical.Same`).
- A file named `__proto__` disappears from a manifest, because it is assigned as a property of a plain object
  (`FilesForHas`); a label of that name likewise (`AsObjectHas`).
- The role of a trace message is looked up in a plain object too: the roles `constructor` and `__proto__`, in any
  case, are accepted and the message carries an inherited property as its role (`Role.Inherited`). It counts as no
  turn and no call attaches to it. Any other unknown role is refused (`FromOpenClaw`, `FromCodex`).
- A sequence number out of range in a batch of updates is answered with 400 after the earlier items of the batch
  have been recorded (`UpdatesBatch`).
- A metadata update whose answer is lost leaves one entry beyond the caller's count (`LostReplyLeavesEntry` is such a
  run). After any calls the entry is there exactly when a call since the last success reached the service
  (`CallsChain`), and the next call then succeeds exactly when it is answered and repeats the document of the first
  call that did (`NextCallSucceedsIff`).
- The comment of `aggregateVotes` promises the first winner encountered on a tie. The winner therefore depends on
  the order of the votes exactly when it does not have strictly the most; an accepted verdict never does.

## Model

| member | source | states |
|---|---|---|
| Int32.CombineIsBitwise | src/lib/upload/sha256-stream.ts:82-97 | each bit of AND, OR and XOR on two numbers is the gate applied to their bits at that place |
| Int32.SignDoesNotMatter | src/lib/upload/sha256-stream.ts:85-97 | a signed intermediate of XOR, AND, OR and NOT stands for the word the unsigned operation gives |
| Sha256Spec.ZeroCountIsLeast | src/lib/upload/sha256-stream.ts:64 | the padding is the smallest that brings the length to 56 modulo 64, the 55/56-byte boundary included |
| Sha256Constants.FirstPrimes | src/lib/upload/sha256-stream.ts:12-21 | the primes behind the constants: 2, then always the next prime, none left out, 64 of them |
| Sha256Constants.ConstantsAreCubeRoots | src/lib/upload/sha256-stream.ts:12-21 | every round constant is the first 32 bits of the fractional part of the cube root of its prime, as section 4.2.2 of FIPS 180-4 defines it |
| Sha256Constants.InitialValueIsSquareRoots | src/lib/upload/sha256-stream.ts:24-26 | the initial hash value, likewise from the square roots of the first eight primes (section 5.3.3) |
| Sha256Constants.RootsDetermine | src/lib/upload/sha256-stream.ts:12-26 | no other constants meet those definitions |
| Sha256Stream.JsRotrIsRotr | src/lib/upload/sha256-stream.ts:119-121 | two shifts and a signed OR are the circular right shift, for every word and count |
| Sha256Stream.JsLoadIsBigEndian | src/lib/upload/sha256-stream.ts:82 | the signed OR of four shifted bytes is their big-endian word |
| Sha256Stream.JsSigmas | src/lib/upload/sha256-stream.ts:85-95 | the six shift-and-XOR expressions are the sigma functions of section 4.1.2 of FIPS 180-4 |
| Sha256Stream.JsRound | src/lib/upload/sha256-stream.ts:92-105 | sums over signed intermediates, cut once to 32 bits, are the round of section 6.2.2 |
| Sha256Stream.LengthHalves | src/lib/upload/sha256-stream.ts:69-70 | the two 32-bit halves are the 64-bit big-endian length |
| Sha256Stream.PaddedEnd | src/lib/upload/sha256-stream.ts:63-70 | the last one or two blocks complete the message to the padding of section 5.1.1 |
| Sha256Stream.Sha256Stream.constructor | src/lib/upload/sha256-stream.ts:23-31 | a new hasher has absorbed nothing, from the initial hash value of the standard |
| Sha256Stream.Sha256Stream.FillWords | src/lib/upload/sha256-stream.ts:79-88 | whatever an earlier block left in the word array, it ends as the message schedule |
| Sha256Stream.Sha256Stream.RunRounds | src/lib/upload/sha256-stream.ts:90-106 | the eight rotating locals end as the working variables after 64 rounds |
| Sha256Stream.Sha256Stream.Compress | src/lib/upload/sha256-stream.ts:78-116 | for every state and block, and any leftover words, in place: the hash computation of section 6.2.2 |
| Sha256Stream.Sha256Stream.Update | src/lib/upload/sha256-stream.ts:33-56 | absorbs a piece of any length, empty included: whole blocks compressed, the rest buffered; refused once finished |
| Sha256Stream.Sha256Stream.LastBlocks | src/lib/upload/sha256-stream.ts:63-70 | the absorbed blocks and the padding array are the padded message |
| Sha256Stream.Sha256Stream.Digest | src/lib/upload/sha256-stream.ts:59-76 | the FIPS 180-4 digest of everything absorbed, in hexadecimal, given only once |
| Sha256Stream.HashStreamed | src/lib/upload/sha256-stream.ts:140-150 | hashing a stream gives the digest of the whole, however the stream is cut |
| Encrypt.JsByteOfIs | src/lib/upload/encrypt.ts:30-33 | shift and mask give the big-endian bytes of the 32-bit counter |
| Encrypt.FillIv | src/lib/upload/encrypt.ts:24-35 | the IV is the eight base bytes followed by the counter |
| Encrypt.IvIsBaseAndCounter | src/lib/upload/encrypt.ts:24-35 | printed in hexadecimal the first eight bytes are the base; the last four are the chunk index modulo 2^32, big-endian |
| Encrypt.IvsAreDistinct | src/lib/upload/encrypt.ts:24-35 | two IVs are equal exactly when the bases are and the indexes agree modulo 2^32 |
| Encrypt.SealedLength | src/lib/upload/encrypt.ts:83-89 | while chunks remain, n sealed chunks take n full sealed sizes; all of them take `ciphertextSize`, for size 0 and exact multiples too |
| Encrypt.CounterNeverWraps | src/lib/upload/register-asset.ts:32 | a file within the registration cap has at most 2^17 chunks, far below the counter's 2^32 |
| Encrypt.SealedFileOpens | src/lib/upload/encrypt.ts:55-81 | all sealed chunks joined open, chunk by chunk, to the file |
| MediaStore.TruncateHeals | src/lib/upload/ciphertext-store.ts:128-132 | truncating at the recorded offset keeps the committed chunks even when cut short, and done completely leaves nothing else |
| MediaStore.WriteAppends | src/lib/storage/media-store.ts:50-61 | after that, a write appends the chunk to the committed ones, and cut short leaves them as they were, in both layouts |
| MediaStore.WriteTouchesOnly | src/lib/storage/media-store.ts:55-57 | in the file layout the chunk lands at its offset, every other byte stays, and a gap is refused |
| MediaStore.ExactReads | src/lib/storage/media-store.ts:69-77 | in both layouts the committed chunks, and nothing after them, read back as their bytes |
| MediaStore.ReadIff | src/lib/storage/media-store.ts:130-150 | a read succeeds exactly when the parts lie end to end from 0 to the expected length (or the file has that length); a gap, an overlap or a wrong total is an error |
| Stores.FsMediaStore.TruncateCiphertext | src/lib/storage/media-store.ts:63-67 | the file is cut at the offset, other assets untouched |
| Stores.FsMediaStore.WriteCiphertextChunk | src/lib/storage/media-store.ts:50-61 | the file layout's write, partial writes included; a gap is refused, but the file then exists; a file that does not open for update is emptied first |
| Stores.FsMediaStore.ReadCiphertext | src/lib/storage/media-store.ts:69-77 | exactly the expected number of bytes, or an error |
| Stores.PartKeyParses | src/lib/storage/media-store.ts:97-99 | a part key is matched by the listing pattern and read back as its offset |
| Stores.PartKeyInjective | src/lib/storage/media-store.ts:97-99 | part keys are equal exactly when asset and offset are |
| Stores.PrefixesAreDisjoint | src/lib/storage/media-store.ts:171 | no key is listed under two assets' prefixes |
| Stores.PartMediaStore.ListParts | src/lib/storage/media-store.ts:167-179 | following the cursor through any pages loses no part, invents none, and returns them in numeric order |
| Stores.PartMediaStore.TruncateCiphertext | src/lib/storage/media-store.ts:125-128 | exactly the parts at or after the offset go, save those a crash spares; nothing else in the bucket changes |
| Stores.PartMediaStore.WriteCiphertextChunk | src/lib/storage/media-store.ts:114-123 | a put replaces its own part and no other |
| Stores.PartMediaStore.ReadCiphertext | src/lib/storage/media-store.ts:130-150 | reads the parts as one text, or fails on a gap, an overrun or a wrong total |
| CiphertextStore.CiphertextStore.BeginUpload | src/lib/upload/ciphertext-store.ts:67-100 | the shape is declared once; repeating it is harmless, another shape is refused |
| CiphertextStore.CiphertextStore.AppendChunk | src/lib/upload/ciphertext-store.ts:102-150 | new row, stored bytes and reply, for each refusal and each fault |
| CiphertextStore.CiphertextStore.HandlePut | src/app/api/assets/[id]/ciphertext/route.ts:34-66 | one PUT: size checks, the declaration at offset 0, then the chunk |
| CiphertextStore.AppendKeeps | src/lib/upload/ciphertext-store.ts:112-149 | a chunk changes the committed bytes only by being appended whole, exactly when it is not refused and no fault comes before the offset is recorded |
| CiphertextStore.CommittedIff | src/lib/upload/ciphertext-store.ts:109-149 | a chunk is accepted exactly when nothing interferes, it is of an allowed size, stands at the recorded offset, stays within the declared total, and carries the IV base of the upload, which is begun or begins with it and is not complete |
| CiphertextStore.RefusedWith | src/lib/upload/ciphertext-store.ts:72-126 | which refusal each unfit request gets: 413, 400 or 409 |
| CiphertextStore.OneIvBase | src/lib/upload/ciphertext-store.ts:115-119 | over every run, every committed chunk came under the one IV base that is recorded |
| CiphertextStore.PutKeeps | src/app/api/assets/[id]/ciphertext/route.ts:34-66 | under any request and fault the stored bytes below the offset stay the accepted chunks |
| CiphertextStore.CompleteIsFinal | src/lib/upload/ciphertext-store.ts:113 | once complete, no request changes anything |
| CiphertextStore.EmptyingKeepsIff | src/lib/storage/media-store.ts:53-57 | a write that empties the file keeps the committed bytes exactly when none were committed |
| CiphertextStore.EmptiedIsStuck | src/lib/upload/ciphertext-store.ts:132-140 | a file emptied under committed bytes stays as it is: no request under any fault is accepted or changes anything |
| CiphertextStore.BytesAreKeptIff | src/lib/storage/media-store.ts:53-57 | over every run of requests, faults and files that do not open, the committed bytes are kept exactly when no such write hits a file that has some |
| CiphertextStore.OneByteIsLost | src/lib/storage/media-store.ts:53-57 | the run that shows it: one byte committed, the next write finds the file unopenable, the byte is gone and the row still counts it |
| CiphertextStore.RunKeeps | src/lib/upload/ciphertext-store.ts:128-149 | the same over every run of requests and faults from an empty asset |
| CiphertextStore.CompleteReads | src/lib/upload/ciphertext-store.ts:142-149 | a complete upload reads back whole: the accepted chunks in order |
| CiphertextStore.LayoutsAgree | src/lib/storage/media-store.ts:11-16 | after the same requests and faults both layouts have the same row, and read back the same bytes once complete |
| EncryptedUploader.OffsetMeansChunks | src/lib/upload/encrypted-uploader.ts:70-75 | every incomplete offset the protocol reaches is a whole number of sealed chunks, so the alignment check passes |
| EncryptedUploader.ClientPut | src/lib/upload/encrypted-uploader.ts:77-106 | a PUT is accepted exactly when nothing interferes and the upload is this key's; otherwise the committed chunks stay |
| EncryptedUploader.EncryptedUploader.KeyForAsset | src/lib/upload/encrypted-uploader.ts:31-37 | a stored key is kept; a new one is stored |
| EncryptedUploader.EncryptedUploader.EncryptChunk | src/lib/upload/encrypt.ts:55-67 | the one place that calls AES-GCM: seals a chunk of the file under its own IV and records the call |
| EncryptedUploader.EncryptedUploader.UploadEncrypted | src/lib/upload/encrypted-uploader.ts:46-108 | terminates, never misaligned, leaves the server as the faults of this session determine, seals exactly one chunk for each PUT it makes, and succeeds exactly under the upload's own key when every remaining PUT goes through |
| EncryptedUploader.SendsProgress | src/lib/upload/encrypted-uploader.ts:77-107 | k PUTs that go through commit k more chunks, and one whose reply is lost commits one; the loop is done exactly when that is all of them |
| EncryptedUploader.SessionProgress | src/lib/upload/encrypted-uploader.ts:54-107 | the outcome, the committed chunks and the seals made of every session, whatever its faults and its key |
| EncryptedUploader.AbandonedBeginIsStuck | src/lib/upload/encrypted-uploader.ts:61-68 | an upload begun and then abandoned at offset 0 refuses every other key for good |
| EncryptedUploader.NoIvIsReused | src/lib/upload/encrypt.ts:7-11 | over every run of retries and resumes of a registrable file, two seals made with one IV have the same key and the same plaintext |
| EncryptedUploader.CompleteOpens | src/lib/upload/encrypted-uploader.ts:77-107 | a complete upload reads back and opens to the original file |
| EncryptedUploader.CompletionIff | src/lib/upload/encrypted-uploader.ts:46-108 | after any sessions the upload is complete exactly when one of them, under the upload's key, met no fault until everything left was committed |
| EncryptedUploader.UndisturbedSessionCompletes | src/lib/upload/encrypted-uploader.ts:1-8 | while local storage is not cleared, one session in which nothing goes wrong completes the upload after any earlier ones, and later ones change nothing |
| EncryptedUploader.Sessions | src/lib/upload/encrypted-uploader.ts:46-108 | running the sessions gives the server, the stored key, the outcomes and the seals of that run; whenever complete, the ciphertext opens to the file |
| JsText.QuoteReads | src/lib/crypto/canonical.ts:20 | a reader of JSON strings gets every string back from its quotation, lone surrogates included |
| JsText.EscapeIsShortest | src/lib/crypto/canonical.ts:14-20 | of all well-formed UTF-16 texts that a JSON reader takes for a string, the one written is a shortest, and with lower-case escapes the only one that short: short escapes where there are any, nothing escaped without need |
| JsText.EscapeIsWellFormed | src/lib/crypto/canonical.ts:14-20 | what is written is such a text itself, lone surrogates escaped |
| JsText.LessIsLexicographic | src/lib/crypto/canonical.ts:19 | keys are compared by the first UTF-16 unit in which they differ, ascending, a prefix first |
| Canonical.Tokens | src/lib/crypto/canonical.ts:12-20 | the tokens and punctuation are those of JSON |
| Canonical.CanonPrintsNorm | src/lib/crypto/canonical.ts:11-21 | the canonical text is the plain printing of the document with undefined fields dropped and keys in order |
| Canonical.CanonReadsBack | src/lib/crypto/canonical.ts:11-21 | a JSON reader gets that document back from the canonical text, nothing left over |
| Canonical.SameIsSameNorm | src/lib/crypto/canonical.ts:17-19 | two values are the same logical document, key order aside at any depth, exactly when they normalize alike |
| Canonical.CanonIdentifies | src/lib/crypto/canonical.ts:4-8 | two values have one canonical text exactly when they are the same logical document |
| TraceLedger.Redelivery | src/lib/trace/mock.ts:92-112 | delivering an operation again changes nothing and is answered as a duplicate |
| TraceLedger.AcceptedStays | src/lib/trace/mock.ts:157-167 | nothing once accepted is ever overwritten |
| TraceLedger.ArrivalOrderIsIrrelevantIff | src/lib/trace/mock.ts:92-167 | every arrival order of the same messages, repeats included, ends in the same tables exactly when no source record and no sequence number in range is given two contents |
| TraceLedger.RootsIdentify | src/lib/trace/schema.ts:140-142 | metadata roots are equal exactly for the same logical document |
| TraceLedger.DuplicateMeansSame | src/lib/trace/mock.ts:150-167 | a taken sequence number answers duplicate exactly when previous root and document are the same, and conflict otherwise |
| TraceLedger.DuplicateRegistration | src/lib/trace/mock.ts:89-112 | a second registration of a source record is a duplicate exactly when its document is the same, and a conflict otherwise |
| TraceService.KeysDiffer | src/lib/trace/mock.ts:87-98 | a record's own key is never the synthetic key of an early update |
| TraceService.DataIdsAreUnique | src/lib/trace/mock.ts:126-128 | no two records share a data id, so the index by data id is well defined |
| TraceService.RegistrationShows | src/lib/trace/mock.ts:94-106 | registering, with adoption of an early update's history, gives exactly the records of the longer ledger |
| TraceService.UpdateShows | src/lib/trace/mock.ts:140-161 | an update does too, whether its record is registered, early or unknown |
| TraceService.SameRecordsSameLedger | src/lib/trace/mock.ts:35-39 | the records determine the ledger: different ledgers never show the same records |
| TraceService.RecordsIgnoreArrivalIff | src/lib/trace/mock.ts:92-167 | every arrival order of the same messages, repeats included, ends in the same records exactly when no source record and no sequence number in range is given two contents |
| TraceService.MockTrace.RegisterItem | src/lib/trace/mock.ts:86-112 | one registration: records, answer and ledger stay in step |
| TraceService.MockTrace.RecordsBatch | src/lib/trace/mock.ts:81-122 | a batch is its items in order; 409 exactly when one conflicts |
| TraceService.MockTrace.UpdateItem | src/lib/trace/mock.ts:132-168 | one update, found through the index or the synthetic key |
| TraceService.MockTrace.UpdatesBatch | src/lib/trace/mock.ts:124-177 | answers 400 exactly when an item is out of range, and then the items before the first such one are recorded with their answers; otherwise a batch is its items in order |
| TraceClient.Request | src/lib/trace/client.ts:213-268 | under every pattern of lost requests, lost replies and retryable statuses the service is as before or as after one clean delivery, and says which |
| TraceClient.Arrivals | src/lib/trace/mock.ts:81-177 | messages arriving one by one end in the records that the order determines |
| TraceClient.RegisterData | src/lib/trace/client.ts:120-151 | success returns the data id and root of the clean delivery; it happens exactly when an answer comes back and the delivery does not conflict |
| TraceClient.UpdateMetadata | src/lib/trace/client.ts:158-198 | the same for updates; past the cap nothing is sent, and the service's range check never fires |
| TraceClient.ChainSurvives | src/lib/trace/client.ts:153-157 | an update that is not a conflict extends the chain by one entry whose previous root is the last root |
| TraceClient.UpdateAll | src/lib/trace/client.ts:158-198 | the root, the count and the service's state after any calls are those the calls and their transports determine |
| TraceClient.CallsChain | src/lib/trace/client.ts:153-157 | the service holds the caller's entries 1..n, n at most 100, each chained to the root before it, none overwritten; one more exactly when a call since the last success reached it |
| TraceClient.NextCallSucceedsIff | src/lib/trace/client.ts:189-197 | a call succeeds exactly when it is answered and says what the first call left in doubt said, if one was |
| TraceClient.LostReplyLeavesEntry | src/lib/trace/client.ts:224-267 | after a lost reply the caller counts no update and the service holds one; only the same document succeeds next |
| TraceFormat.AssertSingleFormat | src/lib/traces/parse.ts:193-202 | names the first record of a foreign format, or there is none |
| TraceFormat.DetectionIsByMarks | src/lib/traces/parse.ts:221-226 | detection is decided by which formats are marked in the file, not by where |
| TraceFormat.ChooseParser | src/lib/traces/parse.ts:461-468 | a whole Hermes document goes to Hermes; of other files, a tool's parser runs exactly when records are marked as that tool's and as no other's |
| TraceParse.ResultsFollowTheStack | src/lib/traces/parse.ts:412-422 | in every run, each result resolves the call a stack of open calls has on top; none is lost or reordered |
| TraceParse.CountsFollowBalance | src/lib/traces/parse.ts:412-422 | unresolved calls follow a counter that stops at zero; failed ones are the error results that met an open call |
| TraceParse.AttachedFlat | src/lib/traces/parse.ts:403-410 | attaching a call to the nested lists appends it to the flat list |
| TraceParse.MarkedFlat | src/lib/traces/parse.ts:412-422 | marking in the nested lists resolves the latest open call of the flat list |
| TraceParse.TraceBuilder.AttachToolCall | src/lib/traces/parse.ts:403-410 | the call goes to the last assistant message, or to a new empty one |
| TraceParse.TraceBuilder.MarkLastToolCall | src/lib/traces/parse.ts:412-422 | the two backward loops mark the latest call without a result, or nothing |
| TraceParse.Finalize | src/lib/traces/parse.ts:437-450 | refuses an empty or oversized trace; the counts are those of the messages |
| TraceParse.FromEvents | src/lib/traces/parse.ts:287-316 | the event loop of both formats: every line in order, one chronological call list, the last outcome |
| TraceParse.NormalizeRole | src/lib/traces/parse.ts:62-84 | which words, in any case, name which role |
| TraceParse.OutcomeOf | src/lib/traces/parse.ts:424-435 | which values and words are a success, which a failure |
| TraceParse.ToolName | src/lib/traces/parse.ts:103-108 | a usable name is text that is not blank and at most 128 UTF-16 units long once trimmed |
| TraceParse.FromOpenClaw | src/lib/traces/parse.ts:283-317 | on the record fields: accepted exactly when every message has a known role, every call a usable name, and the messages are within bounds; then lines and roles in order, results with a truthy error or a status other than "ok" as failures of the call on top of the stack, and the outcome of the last closing record |
| TraceParse.FromCodex | src/lib/traces/parse.ts:323-360 | the same for Codex payloads: a failure is an object output whose `success` is false, and a closing record without a status is a success |
| TraceParse.TraceStructure | src/lib/traces/redact.ts:154-173 | failed calls are exactly the error results that met an open call; the names are those of the first calls, up to the cap |
| TraceParse.KeptNamesAreDetermined | src/lib/traces/redact.ts:155-159 | the calls determine which 64 names are kept |
| JsStrings.TrimTrims | src/lib/upload/manifest.ts:88 | trimming leaves no outer white space, and changes exactly the strings that have some |
| JsStrings.LowerIsLower | src/lib/upload/manifest.ts:91 | each ASCII capital becomes its small letter, and doing it twice changes nothing more |
| Manifest.SplitCsvRow | src/lib/upload/manifest.ts:110-132 | the quoting loop, proved against a recursive scanner |
| Manifest.RowReadsBack | src/lib/upload/manifest.ts:110-132 | a row printed as in section 2 of RFC 4180 splits into its cells, exactly when they carry no outer white space |
| Manifest.ParseLabelPairs | src/lib/upload/manifest.ts:73-83 | labels from a list, or an error at the first part without a name |
| Manifest.LabelErrorIff | src/lib/upload/manifest.ts:75-79 | a label list is refused exactly when a part that is not blank has no equals sign or nothing before it, and the error names the first such part |
| Manifest.LabelsReadBack | src/lib/upload/manifest.ts:73-83 | a printed list of safe labels is read back as those labels |
| Manifest.ParseCsvManifest | src/lib/upload/manifest.ts:85-107 | the whole file, with its two errors and its skipped rows |
| Manifest.FieldIsLast | src/lib/upload/manifest.ts:99-101 | a column is read when the header names it, from its last place there, and a missing cell reads as empty |
| Manifest.ManifestReadsBack | src/lib/upload/manifest.ts:85-132 | a printed manifest, cells quoted wherever needed and either line ending, parses to its files |
| Manifest.FilesForHas | src/lib/upload/manifest.ts:95-105 | a file of the manifest is there exactly when it is not named `__proto__`, with the entry of the last row of its name |
| Manifest.AsObjectHas | src/lib/upload/manifest.ts:74-82 | a label is there exactly when it is not named `__proto__`, with its last value |
| Hexadecimal.DigitsInOrder | src/lib/upload/sha256-stream.ts:75 | the sixteen digits are 0 to 9 and a to f, in order and in lower case |
| PerceptualHash.BitsToHex | src/lib/labels/perceptual-hash.ts:13-23 | the shift loop writes each four bits as their digit |
| PerceptualHash.HammingDistance64 | src/lib/labels/perceptual-hash.ts:77-88 | refuses anything but two hashes; otherwise their distance |
| PerceptualHash.DistanceCountsBits | src/lib/labels/perceptual-hash.ts:77-88 | the distance of two packed hashes is the number of bits in which they differ |
| PerceptualHash.HashIsPacked | src/lib/labels/perceptual-hash.ts:11 | every 16-digit hash is the packing of 64 bits |
| PerceptualHash.DistanceIsMetric | src/lib/labels/perceptual-hash.ts:76-88 | zero only on equal hashes, symmetric, at most 64, and no shorter by a detour |
| PerceptualHash.ThresholdBalances | src/lib/labels/perceptual-hash.ts:70-73 | the first bit is clear and at most 31 are set; exactly 31 if and only if the two middle sorted values differ |
| EventLog.MaxIsCount | src/lib/pipeline/pg-store.ts:410 | the highest number of an asset is the number of its events |
| EventLog.AppendKeepsNumbering | src/lib/pipeline/pg-store.ts:404-424 | appending keeps every asset's events numbered 1, 2, 3, ... |
| Requests.KeysAreDistinct | src/lib/requests/service.ts:404 | the three kinds of idempotency key never meet, and each names one submission |
| Requests.SubmitKeeps | src/lib/requests/service.ts:347-408 | a refused submission changes nothing; an accepted one adds one row and one event, never swallowed |
| Requests.WithdrawKeeps | src/lib/requests/service.ts:410-437 | a withdrawal removes one row and logs it |
| Requests.ReviewKeeps | src/lib/requests/service.ts:255-284 | a decision touches one pending row and logs it |
| Requests.SubmittedIff | src/lib/requests/service.ts:347-408 | a submission is taken exactly when the request is open and not past its deadline, identity is verified where asked for, the asset is the creator's and listed under the request's terms, and it is not submitted already |
| Requests.ChangesAreAllowed | src/lib/requests/service.ts:255-437 | whatever changed a submission: it appears by a submission that was allowed, goes by a withdrawal of its asset's owner while pending, and changes by a review of the request's owner while pending |
| Requests.ClosingIsTheOwners | src/lib/requests/service.ts:287-299 | only its owner closes a request, and nothing reopens it |
| Requests.ClosedGainsNothing | src/lib/requests/service.ts:360-366 | in no run does a closed request gain a submission |
| Requests.RequestService.AppendEvent | src/lib/pipeline/pg-store.ts:404-432 | next number under the highest, or nothing when the key is held |
| Requests.RequestService.SubmitAsset | src/lib/requests/service.ts:347-408 | the checks in their order, the insert, the event |
| Requests.RequestService.WithdrawSubmission | src/lib/requests/service.ts:410-437 | withdraws a pending submission of the owner exactly when there is one |
| Requests.RequestService.Review | src/lib/requests/service.ts:255-284 | only the request's owner, only a pending submission |
| Requests.RequestService.CloseRequest | src/lib/requests/service.ts:287-299 | closes an open request of the owner; submissions and events stay |
| Requests.RunKeeps | src/lib/requests/service.ts:347-437 | every run keeps log, numbering, uniqueness and keys in step |
| Requests.DecisionsAreFinal | src/lib/requests/service.ts:249-254 | a decided submission never changes again |
| Requests.LogAndTableAgree | src/lib/requests/service.ts:347-437 | after every run the log replays to exactly the submission table, each asset is numbered 1..n, and each request and asset pair has at most one live submission |
| LabelJobs.EnqueueKeeps | src/lib/labels/registry.ts:78-105 | at most one unfinished row per asset and type |
| LabelJobs.EnqueuePairKeeps | src/lib/labels/preference.ts:366-395 | at most one unfinished row per asset and pair |
| LabelJobs.ConfiguredIsQueued | src/lib/labels/registry.ts:85-103 | once the labeler is configured, enqueueing leaves an unfinished row and none parked, and touches no other asset or type |
| LabelJobs.ConfiguredPairIsQueued | src/lib/labels/preference.ts:373-393 | the same for a pair |
| LabelJobs.UnconfiguredIsParked | src/lib/labels/registry.ts:85-96 | without a labeler, enqueueing at most adds one parked row |
| PreferencePair.FingerprintIff | src/lib/labels/preference.ts:351-355 | two pairs have one fingerprint exactly when prompt and candidates are the same, in either order |
| LabelJobs.SamePairOneRow | src/lib/labels/preference.ts:366-395 | enqueueing two new pairs leaves one row exactly when they are the same pair, exchanged or not, configured or not |
| LabelJobs.ClaimKeeps | src/lib/labels/registry.ts:121-132 | the claimed row was never claimed before |
| LabelJobs.PersistKeeps | src/lib/labels/preference.ts:314-318 | a run records its pair without meeting an earlier one |
| LabelJobs.RunKeeps | src/lib/labels/registry.ts:78-157 | in every interleaving each row is claimed at most once, unfinished work is not doubled, and each job records at most one pair |
| LabelJobs.LabelQueue.EnqueueJob | src/lib/labels/registry.ts:78-105 | inserts, promotes or reuses |
| LabelJobs.LabelQueue.EnqueuePreferenceJob | src/lib/labels/preference.ts:366-395 | the same per pair |
| LabelJobs.LabelQueue.OldestQueued | src/lib/labels/registry.ts:123-129 | the oldest queued row of the type for the asset, or none is queued |
| LabelJobs.LabelQueue.RunJob | src/lib/labels/registry.ts:114-157 | claims the oldest queued row and finishes exactly that one |
| Jury.AskJuror | src/lib/labels/preference.ts:148-231 | the verdict names the candidate that the first well-formed of four replies says; the juror is dropped exactly when none is well formed |
| Jury.AggregateVotes | src/lib/labels/preference.ts:257-277 | the counting map, walked in insertion order, gives the plurality winner, an exact tie going to the first voted for |
| Jury.PluralityLeads | src/lib/labels/preference.ts:253-268 | the winner leads every candidate and is the only one that does |
| Jury.AcceptedMeans | src/lib/labels/preference.ts:269-275 | accepted exactly when a candidate other than a tie has three quarters of the votes, and then it has strictly the most |
| Jury.VoteConfidence | src/lib/labels/preference.ts:239-246 | a vote's confidence is the mean of the two replies behind it, between 0 and 1 |
| Jury.ConfidenceIsMean | src/lib/labels/preference.ts:270 | the panel's confidence is the mean of its votes: within any bounds that hold for all of them |
| Jury.VerdictIgnoresOrder | src/lib/labels/preference.ts:257-277 | agreement and acceptance never depend on the order of the votes, nor does an accepted winner, nor the confidence as a real number (a sum of doubles may differ in its last bits) |
| Jury.WinnerIgnoresOrderIff | src/lib/labels/preference.ts:253-268 | the winner is the same in every order exactly when it has strictly the most votes |
| Jury.RunJury | src/lib/labels/preference.ts:280-298 | recusal, voting and counting; no vote comes from the family that wrote the candidates |
| Jury.ChosenIsPreferred | src/lib/labels/preference.ts:160-168 | on the raw replies: a pair is recorded exactly when jurors that cast three quarters of the votes say "a" where one text is shown first and "b" where it is shown second; that text is the chosen one and the other the rejected one |
| Jury.CandidateOrderIsIrrelevant | src/lib/labels/preference.ts:234-334 | exchanging the candidates gives the same errors, the same votes with the names exchanged, and the same chosen and rejected texts |

## Left out

- CiphertextStore.CiphertextStore.AppendChunk: keeps the stored bytes as a `Disk` value rather than calling a store class; `Stores` proves that the classes do to it what the value does. Two chunks of one asset in flight at once are not modelled, because the code takes no lock.
- Stores.PartMediaStore.ListParts: the Vercel Blob and Cloudflare R2 classes are one class here, since they differ only in the SDK called; a part deleted between listing and reading is not modelled.
- CiphertextStore.CiphertextStore.HandlePut: the status checks on the acting creator and the header syntax are not modelled; the declared length is taken to be that of the body, and an unknown asset (404) is not modelled.
- EncryptedUploader.CompletionIff: the client's sessions are without the event that a file does not open for update, under which `CiphertextStore.BytesAreKeptIff` says what is kept.
- EncryptedUploader.EncryptedUploader.UploadEncrypted: key generation, progress callbacks and a corrupt localStorage entry are not modelled.
- Sha256Stream.Sha256Stream.Digest: promised up to 2^53 bytes, where JavaScript's byte count stays exact; the whole-buffer path through the platform digest is not modelled.
- Canonical.CanonReadsBack: NaN, infinities, negative zero and Date objects are outside the JSON domain; a finite number is the literal that JSON.stringify gives it.
- TraceClient.Request: backoff times, logging and batch ids are not modelled, nor is `assertNoPii`.
- TraceFormat.ChooseParser: starts from JSONL records with their markers read and from whether the whole text is one Hermes document; JSON parsing is not modelled.
- TraceParse.FromOpenClaw: starts from records whose text content has been extracted; the model id is not modelled, and lower-casing covers ASCII letters.
- TraceParse.TraceStructure: the sorted list of names is a set, and the fields copied from the trace are left out.
- Manifest.ParseCsvManifest: JSON manifests are not modelled, and a header cell is lower-cased over ASCII letters.
- PerceptualHash.ThresholdBalances: starts from the 63 coefficients as real numbers; the cosine sums are floating point.
- LabelJobs.LabelQueue.RunJob: a run is one call here; `LabelJobs.Next` is the same in separate steps, interleaved. A run that dies midway leaves its row running, as in the code.
- Jury.RunJury: the reason text of a vote is not modelled, nor are validation of the job spec, the model's reply format beyond winner and confidence, and waiting between attempts.
- The Hermes and Claude Code parsers, the text redaction and preview windowing of traces, the average and difference hashes, and format names by file extension: their content is regular expressions, floating point or easy members.
- The registry of job types as a mutable map, listing queries, request creation checks and catalog filters: easy members only.
- The stage handlers of the pipeline, chain and wallet code, and foreign SDKs: not part of this model.
