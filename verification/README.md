# Synergos, verified

A Dafny model of the parts of Synergos that must survive crashes, interleavings and hostile chunking, with proofs
of what they promise. `dafny verify dfyconfig.toml` checks all of it.

The model has six parts.

1. **Custody journal** (`Json`, `JsonText`, `JsonLaws`, `Canonical`, `JournalRow`, `JournalBounds`, `JournalChain`,
   `JournalHistory`, `JournalRuns`, `Journal`). An append-only file of hash-chained rows. A crash leaves any prefix of a
   row on disk. Recovery re-verifies every row, in reads of any size. SHA-256 is a function parameter and never assumed to
   be injective: two files with one head are equal exactly when no two rows at one place hash different bytes, read off
   those rows, to one digest.
2. **Custody store** (`LockTable`, `CustodyStore`, `CustodyInvariant`, `CustodyRuns`, `CustodyLaws`,
   `CustodySessions`, `CustodyAdmission`, `CustodyService`, `CustodyStream`). Requests are tasks; every file operation
   is one step, so any two requests interleave between any two file operations. Cancellation, detached link workers,
   crashes and restarts are steps too. The laws say what no run can do, and which admissions, uploads, downloads and
   reclaims can still succeed from a given state. The locks the tasks use are justified by `LockTable`, the
   weak-reference table they come from.
3. **Version numbers** (`Paths`, `Versions`, `VersionLaws`, `VersionEffects`, `VersionManager`). Calls on one project of one node, with
   saves that fail or are cut off with the process, restarts, and a manifest that is rolled back from outside.
4. **Patterns and the working-tree scan** (`Glob`, `Worktree`).
5. **Wire formats** (`CustodySignature`, `Frames`, `IpcPairing`).
6. **Registry and node distance** (`Registry`, `XorDistance`).

Conventions. In the JSON, journal and custody modules a `string` is a byte string, one `char` per byte; in `Paths`,
`Versions`, `Glob` and `Worktree` it is a sequence of Unicode scalar values, and `Paths.Utf8` gives the bytes. Clocks,
identifiers and the operating system's choices (short reads, failing saves, directory order) are parameters or free
choices. Error kinds are collapsed to "refused".

Where the code does less than its comments say, the model follows the code and states the exact condition:

- `CustodyAdmission.GrantedIffAdmissible`: an admission whose object identifier spells `operation:` and its own operation
  identifier waits for its own lock and is never granted (`CustodyAdmission.SelfBlockedAdmission`).
- `CustodyService.UploadedIff`: beside the free names, the bytes of a name already taken can still be confirmed once,
  by a request that has linked them and not yet answered.
- `VersionLaws.ReportHoldsIff`: a version reported as unchanged after a reload that could not save the high-water file
  may be issued again (`VersionLaws.ReportCanOutrun`).
- `VersionLaws.NativeAgrees` and `Paths.ValidatorsAgree`: the two languages differ on U+0080 to U+009F and nowhere else.
- `Frames.WrittenReadBack`: the length is narrowed to 32 bits before it is checked (`Frames.NarrowedAccepts`).
- `IpcPairing.PairedIff`: a refused command leaves its waiter in the queue and shifts all later responses
  (`IpcPairing.RefusedShifts`).
- `Registry.MutateGoodIff`: a node mutation is not checked for the identifier it leaves behind
  (`Registry.MutateCanClash`).

## Model

| member | source | states |
|---|---|---|
| Json.NormalDecidesEquivalence | synergos-custody/native/canonical.cpp:34-62 | sorting keys at every level gives equal results exactly for duplicate-free values that are equal up to object key order |
| JsonText.ParsePrinted | synergos-custody/native/canonical.cpp:13-62 | decoding the printed text of any printable value gives that value back |
| JsonLaws.EmitClean | synergos-net/native/trust/jcs.cpp:69-116 | printed text never contains a raw newline or another control character |
| JsonLaws.DocumentShrinks | synergos-net/native/trust/jcs.cpp:120-128 | the canonical text of a document is never longer than the document it was read from |
| Canonical.FormRoundTrip | synergos-custody/native/canonical.cpp:34-62 | decoding a canonical form gives the value with its keys in order, for both key orders |
| Canonical.FormUnambiguous | synergos-custody/native/canonical.cpp:13-62 | two accepted values print to the same canonical text if and only if they are equal up to key order |
| Canonical.CanonicalizeIdempotent | fuzz/targets/trust.jcs.cpp:11-21 | whatever canonicalisation accepts, it accepts its own output and returns it unchanged, limits included |
| Canonical.SpellingsAgree | synergos-net/native/trust/jcs.cpp:69-128 | once one spelling of a value is accepted, another spelling gets the same canonical text if and only if it means the same value |
| CustodySignature.SerdeEscapes | synergos-custody/native/canonical.cpp:13-26 | the in-place loop lower-cases exactly the digits of Unicode escapes, skipping every other escape |
| CustodySignature.LoweredScalar | synergos-custody/native/canonical.cpp:27-33 | rewriting the C writer's scalar text gives the canonical printing of that scalar |
| CustodySignature.Scalar | synergos-custody/native/canonical.cpp:27-33 | succeeds on exactly the scalars the form accepts and returns their canonical text |
| CustodySignature.NeighboursDecide | synergos-custody/native/canonical.cpp:41-44 | after sorting, comparing neighbours finds a duplicate key if and only if there is one anywhere |
| CustodySignature.Append | synergos-custody/native/canonical.cpp:34-62 | succeeds on exactly the accepted values and appends exactly their canonical form |
| CustodySignature.AppendArray | synergos-custody/native/canonical.cpp:51-60 | the array loop appends the canonical form of the whole array or refuses it |
| CustodySignature.AppendObject | synergos-custody/native/canonical.cpp:36-50 | the object branch sorts, refuses duplicates and appends the canonical form of the whole object |
| CustodySignature.AppendMember | synergos-custody/native/canonical.cpp:46-48 | a key and its value are appended in canonical form, or the value is refused |
| CustodySignature.CapabilityMessageIsCanonical | synergos-custody/native/canonical.cpp:82-86 | the hand-written message equals the canonical form of the capability's object |
| CustodySignature.CapabilityMessageInjective | synergos-custody/src/signature.rs:52-54 | equal messages come only from equal method, key, expiry and name |
| JournalRow.RawOfHex | synergos-custody/native/journal_row.cpp:52-67 | decoding the hexadecimal form of a digest gives the digest |
| JournalRow.HexOfRaw | synergos-custody/native/journal_row.cpp:52-67 | encoding a decoded hash gives the hash text back |
| JournalBounds.EventBound | synergos-custody/native/journal_row.cpp:77-116 | every event the schema accepts prints, after worst-case escaping, below half the row limit and three levels deep |
| JournalChain.EventSpellings | synergos-custody/native/journal_row.cpp:77-116 | once one spelling of an event is accepted, another within the limit is accepted to the same text if and only if it means the same event |
| JournalChain.RowLength | synergos-custody/native/journal_row.hpp:14-15 | a row around any accepted event stays below the row limit |
| JournalChain.RowShape | synergos-custody/native/journal_row.cpp:117-129 | the concatenated core and row texts are canonical printings of the row's object, so building a row never fails on size or form |
| JournalChain.WrittenRowVerifies | synergos-custody/native/journal_row.cpp:137-145 | every row an append can write is short, newline-free, numbered one up, and passes verification to the head it announces |
| JournalChain.AcceptedRow | synergos-custody/native/journal_row.cpp:137-145 | a row that verifies is the row of one valid event over the previous head and of no other, and carries the next number and the digest of the bytes that can be read off it |
| JournalHistory.ScanOfLines | synergos-custody/native/journal.cpp:27-39 | scanning a file made of rows is verifying the rows in sequence and going on with what follows; an unfinished last row is refused |
| JournalHistory.ScannedLines | synergos-custody/native/journal.cpp:27-39 | a file that scans consists of complete rows that verify in sequence |
| JournalHistory.RowNumbers | synergos-custody/native/journal_row.cpp:117-145 | every row k of an accepted file carries sequence number k, and the head carries the number of rows |
| JournalHistory.SameHashSameRow | synergos-custody/native/journal_row.cpp:52-67 | two accepted rows with one head are the same row over the same previous head if and only if they do not hash different bytes to one digest |
| JournalHistory.SameHeadSameRows | synergos-custody/native/journal_row.cpp:117-145 | two chains with one head have equally many rows and are equal, or the last row in which they differ hashes different bytes to one digest |
| JournalHistory.HeadDeterminesHistory | synergos-custody/native/journal_row.cpp:52-67 | two accepted files of a stream with the same head are byte for byte equal if and only if no row k of the one and row k of the other hash different bytes to one digest |
| JournalRuns.NextKeeps | synergos-custody/native/journal.cpp:20-73 | every append, failure, crash after any number of bytes and reopening keeps the disk as verified rows plus a piece of one row |
| JournalRuns.RecoveryIsExact | synergos-custody/native/journal.cpp:20-40 | in every reachable state recovery succeeds if and only if the disk ends at a row boundary, and returns the head of all rows, including every acknowledged one |
| JournalRuns.AcksGrow | synergos-custody/native/journal.cpp:55-73 | acknowledged heads are never taken back along a run |
| JournalRuns.TornStaysRefused | synergos-custody/native/journal.cpp:41-43 | after a torn write no later step changes the disk or yields a healthy owner |
| JournalRuns.AppendIff | synergos-custody/native/journal.cpp:55-66 | a healthy owner in any run can build a row if and only if the event is valid and a number is left, and writes it if and only if it fits the spool |
| Journal.JournalFile.Read | synergos-custody/native/journal_file.cpp:88-106 | a read gives some bytes at the offset, at most the limit; an error, or no bytes before the end, counts as a failure |
| Journal.JournalFile.Write | synergos-custody/native/journal_file.cpp:114-125 | one write appends some beginning of the piece; an error, or no bytes at all, counts as a failure |
| Journal.JournalFile.AppendAndFlush | synergos-custody/native/journal_file.cpp:107-132 | succeeds exactly when no write or flush failed, and then the whole row is appended; otherwise some beginning of it is |
| Journal.Feed | synergos-custody/native/journal.cpp:31-37 | one chunk changes how much is read but not what the whole file scans to |
| Journal.Recover | synergos-custody/native/journal.cpp:20-40 | reports an I/O error exactly when a read failed; otherwise, for every split into short reads, a head is returned exactly when the whole file is recoverable to it |
| Journal.Owner.constructor | synergos-custody/native/journal.cpp:45-48 | taking over a recovered file is the reopening step of the run model |
| Journal.Owner.CurrentHead | synergos-custody/native/journal.cpp:50-54 | refuses exactly when poisoned, and otherwise gives what recovery would find on disk |
| Journal.Owner.Append | synergos-custody/native/journal.cpp:55-73 | succeeds exactly when the row may be written and no write or flush fails, and is then the append step of the run model; poisons exactly when one fails; any other refusal changes nothing |
| LockTable.NextKeeps | synergos-custody/src/store.rs:58-75 | pruning, reuse, creation, grant and drop keep every live mutex of a key the one the table points to |
| LockTable.MutualExclusion | synergos-custody/src/store.rs:58-75 | in every run two guards of one key never coexist |
| LockTable.RefinesPlainLocks | synergos-custody/src/store.rs:58-75 | seen by its users every step takes a free key, lets one go, or changes no holder |
| LockTable.GrantIffFree | synergos-custody/src/store.rs:72-74 | a waiter can be granted if and only if nobody holds its key |
| LockTable.RequestAlways | synergos-custody/src/store.rs:58-71 | a lock can always be asked for under any key, and the ticket given is for that key |
| LockTable.TableBounded | synergos-custody/src/store.rs:62-64 | with at most n locks wanted or held at a time the table never exceeds the larger of 1024 and n by more than one |
| CustodyRuns.NextKeeps | synergos-custody/src/store.rs:94-222 | every step of every task, worker, crash and restart keeps the store's invariant |
| CustodyInvariant.FrameKeeps | synergos-custody/src/store.rs:94-129 | a step of one task leaves true everything the other tasks and workers rely on |
| CustodyInvariant.LinkDoneKeeps | synergos-custody/src/durable_file.rs:35-53 | a detached worker that links late still only publishes what its lock holder may publish |
| CustodyInvariant.DropPartKeeps | synergos-custody/src/durable_file.rs:8-18 | removing the partial file before the lock is released leaves no worker able to publish it |
| CustodyLaws.StoredIsAdmitted | synergos-custody/src/store.rs:171-209 | in every reachable state stored bytes have the length and digest of the admission under their name, which has an equal operation record |
| CustodyLaws.PublishedIsImmutable | synergos-custody/src/durable_file.rs:35-53 | operation and admission records never change, and an object's bytes stay the same until it is marked as reclaimed |
| CustodyLaws.ReclaimIsFinal | synergos-custody/src/store.rs:210-222 | after the mark no bytes appear under the name and no upload, confirmation, download or receipt for it is given, in any continuation |
| CustodyLaws.AnswersStayTrue | synergos-custody/src/handlers.rs:89-183 | what any reply told its client (granted, stored, served, certified, reclaimed) holds in every later state |
| CustodyLaws.ReadersAgree | synergos-custody/src/handlers.rs:243-271 | all downloads and receipts of one object, at any time, carry the same bytes |
| CustodyLaws.AdvanceReplies | synergos-custody/src/handlers.rs:105-172 | a step of a task gives at most one reply, true when given, about an object not marked, and changes no published file |
| CustodyAdmission.AdmissibleGranted | synergos-custody/src/store.rs:94-129 | from any state in which nothing published stands against it, a restart and one undisturbed request grant the admission, whatever was interrupted before |
| CustodyAdmission.GrantedIffAdmissible | synergos-custody/src/store.rs:94-129 | from any reachable state some continuation grants an admission if and only if its operation and object are unused or its own, the object is not reclaimed, and its two lock names differ |
| CustodyAdmission.SelfBlockedAdmission | synergos-custody/src/store.rs:95-98 | an admission whose object identifier spells its operation's lock name is never granted |
| CustodySessions.Restart | synergos-custody/src/store.rs:40-57 | from any state a crash, the reaping of partial files and a start give an idle store with the same published files |
| CustodySessions.PutSession | synergos-custody/src/store.rs:171-209 | on an idle store a body that matches its admission is stored and confirmed by one request however it is cut into pieces, and nothing else that is published changes |
| CustodySessions.ReadSession | synergos-custody/src/handlers.rs:210-271 | on an idle store a stored, unmarked object is served and certified with exactly its bytes |
| CustodySessions.ReclaimSession | synergos-custody/src/store.rs:210-222 | on an idle store any object is marked, its bytes are removed and the client is told, whatever an earlier attempt left behind, and nothing else that is published changes |
| CustodyService.UploadedIff | synergos-custody/src/store.rs:171-209 | from any reachable state some continuation confirms an upload of a name with given bytes stored if and only if the name has no mark, no bytes, and is or can be bound to an admission they match; or they are stored already and a request is about to say so |
| CustodyService.AdmittedUploadIff | synergos-custody/src/store.rs:171-209 | for an admitted name that no request is about to confirm, that condition is: no mark, no bytes, and the body has the admitted length and digest |
| CustodyService.RunTells | synergos-custody/src/store.rs:176-183 | while an object stays stored and no request is about to confirm it, no run confirms an upload of it |
| CustodyService.ReadIff | synergos-custody/src/handlers.rs:210-271 | from any reachable state some continuation serves, or certifies, given bytes for a name if and only if it is not marked and these bytes are stored there or can still be |
| CustodyService.ReclaimAlways | synergos-custody/src/store.rs:210-222 | from any state some continuation reclaims a given object and says so, with the mark in place, the bytes gone and every other published file as it was |
| CustodyStream.ReceiveBody | synergos-custody/src/store.rs:184-203 | the receiving loop keeps an upload exactly when all pieces arrive and the whole has the admitted length and digest |
| CustodyStream.VerifyFile | synergos-custody/src/store.rs:143-170 | re-reading in pieces of any size accepts exactly the files that match their admission |
| Paths.SafeRelToLocal | synergos-core/src/manifest.rs:295-316 | the segment loop accepts exactly the safe paths and returns their pieces |
| Paths.IsSafeRelativePath | synergos-core/native/relative_path.cpp:4-22 | the native index scan accepts exactly the byte strings whose pieces are plain and whose bytes are allowed |
| Paths.ValidatorsAgree | synergos-core/native/relative_path.cpp:4-22 | a text is safe if and only if its UTF-8 bytes pass the native check and it holds nothing from U+0080 to U+009F |
| Paths.IpcAgrees | synergos-ipc/src/command.rs:230-282 | the IPC check accepts exactly the safe paths that are not blank and take at most 1024 bytes |
| Paths.SafeStaysInside | synergos-core/src/manifest.rs:290-316 | a safe path resolves strictly below the root, outside the metadata directory, and to a place no other safe path resolves to |
| Versions.NoteKeeps | synergos-core/src/project.rs:616-640 | noting versions, whether saved, refused or cut off, leaves memory and file covering all that was recorded |
| Versions.NextKeeps | synergos-core/src/project.rs:417-640 | every call, fault, rollback and restart keeps recorded versions covered on disk and in memory |
| VersionLaws.IssuedAbove | synergos-core/src/manifest.rs:193-227 | a newly issued version is above everything recorded for its path and below the top of the range |
| VersionLaws.NeverReused | synergos-core/src/project.rs:417-553 | over every history each issued version is above every version an earlier completed call recorded for that path |
| VersionLaws.IssuedIncrease | synergos-core/src/project.rs:417-459 | the versions issued for one path strictly increase |
| VersionLaws.ExhaustedChangesNothing | synergos-core/src/version_state.rs:90-108 | at the top of the range, on any node and whatever reads and saves do, the call fails, both files stay, and memory is at most filled from them |
| VersionLaws.NativeAgrees | synergos-core/native/manifest_versions.cpp:10-28 | both implementations give the same version and files if and only if the path has no U+0080 to U+009F character, or the native check refuses it, or the range is exhausted |
| VersionLaws.ReportHoldsIff | synergos-core/src/project.rs:450-458 | a version about to be reported as unchanged is protected from being issued again if and only if the high-water mark the call finds has reached the manifest entry it finds |
| VersionLaws.ReportCanOutrun | synergos-core/src/project.rs:509-522 | a reload whose note cannot be saved makes such an unprotected report reachable |
| VersionEffects.ReceiveEffect | synergos-core/src/project.rs:463-505 | whatever reads and saves do, a received version is written to memory and file if and only if it is unknown here, newer than the entry found, or forced; every other entry stays; the marks rise to it either way; a failed call leaves the manifest, or only its file ahead of memory |
| VersionEffects.ReceiveKeepsNewest | synergos-core/src/project.rs:480-492 | without force the entry left has the larger of the version found and the one received |
| VersionEffects.ReceiveSucceedsIff | synergos-core/src/project.rs:463-505 | without faults a usable project accepts a received version if and only if the path is safe and the version within the range |
| VersionEffects.BumpEffect | synergos-core/src/project.rs:417-459 | a new version comes with exactly its own entry in memory and file and its mark raised; an unchanged one changes nothing; a failure leaves the manifest, or only its file ahead with a version already marked on disk |
| VersionEffects.BumpSucceedsIff | synergos-core/src/project.rs:417-459 | without faults new content on a usable project gets the next number above entry and mark if and only if the path is safe and a number is left |
| VersionEffects.ReplaceEffect | synergos-core/src/project.rs:525-553 | success means memory and file hold the given manifest and every mark covers it, and without faults happens if and only if the manifest is valid |
| VersionEffects.ReloadEffect | synergos-core/src/project.rs:509-522 | success gives the manifest of the file, held in memory and covered by marks; the file never changes; without faults it happens if and only if the file is valid |
| VersionEffects.ConfirmEffect | synergos-core/src/project.rs:569-582 | success raises exactly the one mark and touches no manifest; without faults it happens if and only if the path is safe and the version within the range |
| VersionEffects.OpenEffect | synergos-core/src/project.rs:677-749 | an opened project holds the manifest found and marks that cover it, in memory as on disk; without faults it happens if and only if the project is closed and both files are valid |
| VersionManager.NoteAll | synergos-core/src/version_state.rs:85-104 | noting entries one by one in any order gives the pointwise maximum, or refuses if any entry is bad |
| VersionManager.BumpAtLeast | synergos-core/src/manifest.rs:193-227 | same content keeps its version; new content gets one above entry and floor, saturating |
| VersionLaws.HistoryInv | synergos-core/src/project.rs:677-763 | a node that starts with a valid high-water file keeps everything recorded covered, whatever is called on it and whatever fails |
| Versions.LoadKeeps | synergos-core/src/project.rs:387-406 | filling memory from the files, or failing to, keeps recorded versions covered and memory valid |
| VersionManager.ProjectManager.NoteVersionsUnlocked | synergos-core/src/project.rs:616-640 | the copy, save and keep sequence is the note step of the history model, for every fate of the save |
| VersionManager.ProjectManager.BumpFileVersion | synergos-core/src/project.rs:417-459 | the call is the bump step of the history model, with the high-water file saved before the manifest |
| Versions.SaveKeeps | synergos-core/src/manifest.rs:162-176 | replacing the manifest, or ending with it replaced or not, keeps recorded versions covered |
| VersionManager.ProjectManager.RecordReceivedFile | synergos-core/src/project.rs:463-505 | the call is the receive step of the history model, whose effect is VersionEffects.ReceiveEffect |
| VersionManager.ProjectManager.ReloadManifest | synergos-core/src/project.rs:509-522 | the call is the reload step of the history model, memory manifest kept even when noting fails |
| VersionManager.ProjectManager.ReplaceManifest | synergos-core/src/project.rs:525-553 | the call is the replace step of the history model, whose effect is VersionEffects.ReplaceEffect |
| VersionManager.ProjectManager.NoteConfirmedVersion | synergos-core/src/project.rs:569-582 | the call is the confirm step of the history model, whose effect is VersionEffects.ConfirmEffect |
| VersionManager.ProjectManager.OpenProject | synergos-core/src/project.rs:691-745 | the call is the open step of the history model: versions found in the manifest are noted before memory is filled |
| VersionManager.ManifestVersions.Bump | synergos-core/native/manifest_versions.cpp:10-28 | the native call gives what the native definition says and leaves its files alone when it refuses |
| Glob.Tokenize | synergos-net/src/config.rs:188-215 | the index loop yields the pattern's tokens, a slash after a double star absorbed |
| Glob.SingleRow | synergos-net/src/config.rs:221-232 | the row for a literal or a question mark says which prefixes the tokens so far match |
| Glob.RunRow | synergos-net/src/config.rs:233-246 | the row for a star or double star says which prefixes the tokens so far match |
| Glob.CharacterMeans | synergos-net/src/config.rs:188-215 | a leading literal takes that character and a leading question mark one character that is not a slash; the empty pattern takes only the empty path |
| Glob.StarMeans | synergos-net/src/config.rs:188-215 | a leading star takes any run without a slash |
| Glob.DoubleStarMeans | synergos-net/src/config.rs:188-215 | a leading double star takes any run, together with the slash that follows it |
| Glob.LiteralMeans | synergos-net/src/config.rs:188-215 | a pattern without stars and question marks matches exactly itself |
| Glob.GlobMatch | synergos-net/src/config.rs:179-250 | true if and only if the pattern means the path: it can be cut into one piece per token, each fitting its token |
| Worktree.IsIgnored | synergos-core/src/worktree_status.rs:68-77 | true if and only if the first piece is always ignored or some pattern matches the path or one of its directories |
| Worktree.IgnoredInherited | synergos-core/src/worktree_status.rs:65-77 | everything below an ignored path is ignored |
| Worktree.NormalizeRel | synergos-core/src/manifest.rs:282-288 | normalising changes no relative path made of ordinary names |
| Worktree.ReadDirectory | synergos-core/src/worktree_status.rs:98-115 | one directory yields exactly its files and directories that are not ignored, without repetition |
| Worktree.ScanWorktree | synergos-core/src/worktree_status.rs:94-119 | the pruned walk ends and returns, sorted and without repetition, exactly the regular files whose full path is not ignored |
| Frames.LengthHeader | synergos-ipc/native/frame.cpp:8-14 | the four header bytes of a length decode to that length |
| Frames.ParseFrame | synergos-ipc/native/frame.cpp:16-44 | a frame followed by anything decodes to its payload and leaves the rest |
| Frames.FrameDecoder.Consume | synergos-ipc/native/frame.cpp:16-44 | for any chunk the decoder takes bytes up to the end of the frame and no further, none when the frame is finished, and fails exactly on an announced length over 1 MiB |
| Frames.FrameDecoder.Take | synergos-ipc/native/frame.cpp:46-55 | gives the payload of exactly the bytes held and starts over empty |
| Frames.LocalChannel.Feed | synergos-ipc/native/local_channel.cpp:29-42 | what the decoder leaves is kept, so no byte is lost when the buffer is overwritten |
| Frames.LocalChannel.Receive | synergos-ipc/native/local_channel.cpp:25-48 | returns the first frame of the undelivered bytes however they are cut, and what stays undelivered is exactly the rest |
| Frames.LocalChannel.Send | synergos-ipc/native/local_channel.cpp:13-23 | writes a whole frame, or nothing when too large, or a beginning on a connection it then closes |
| Frames.ReceiveAll | synergos-ipc/native/local_channel.cpp:25-48 | for every list of payloads and every cutting of their frames, the channel gives back those payloads in order |
| Frames.WrittenReadBack | synergos-ipc/src/transport.rs:98-115 | an accepted message reads back as itself if and only if its true length is at most 1 MiB |
| Frames.NarrowedAccepts | synergos-ipc/src/transport.rs:103-110 | a payload of 2 to the 32 bytes is accepted and announced as empty |
| Frames.ReadMessage | synergos-ipc/src/transport.rs:121-159 | from short reads of any size the reader returns the same first message as the native decoder |
| IpcPairing.NextKeeps | synergos-ipc/src/client.rs:114-187 | every interleaving of sends, server steps, events and reader steps keeps answers and waiters in call order |
| IpcPairing.NoOrphans | synergos-ipc/src/client.rs:165-175 | in every run the k-th response finds the k-th waiter and answers the k-th written command |
| IpcPairing.EveryCommandServed | synergos-core/src/ipc_server.rs:477-569 | from any state of any run some continuation answers every command written so far and hands the k-th answer to the k-th waiter |
| IpcPairing.PairedIff | synergos-ipc/src/client.rs:124-131 | the k-th response reaches the call it answers if and only if no call up to the k-th failed to go out |
| IpcPairing.PairedWhenWritten | synergos-core/src/ipc_server.rs:477-569 | where every queued command is written, every response reaches the call it answers |
| IpcPairing.RefusedShifts | synergos-ipc/src/transport.rs:105-110 | a refused command makes the next call's answer go to the failed one |
| Registry.AllowedIff | synergos-control/src/store/json_store.rs:90-274 | an operation is accepted if and only if the records found allow it: a new or existing identifier, no owner evicted, the owner a member of the organisation, a node found in scope |
| Registry.ProposedEffect | synergos-control/src/store/json_store.rs:90-274 | an accepted operation adds, replaces or removes the one record it names and leaves every other as and where it was |
| Registry.OrgReadBack | synergos-control/src/store/json_store.rs:131-140 | after an accepted organisation operation reading its identifier gives the organisation written, and every other read gives what it gave |
| Registry.NodeReadBack | synergos-control/src/store/json_store.rs:251-260 | after an accepted node operation on a good registry the node written is read back, the one replaced or removed is not found, and every other read gives what it gave |
| Registry.CallEffect | synergos-control/src/store/json_store.rs:44-103 | a call that is allowed and saved leaves memory and file equal with that effect; any other call changes neither |
| Registry.ProposedGoodIff | synergos-control/src/store/json_store.rs:90-274 | an accepted operation keeps identifiers unique and every owner a member of an existing organisation if and only if it does not take another node's identifier |
| Registry.MutateGoodIff | synergos-control/src/store/json_store.rs:202-238 | an accepted in-place change keeps the registry good if and only if no other node has the new identifier |
| Registry.MutateCanClash | synergos-control/src/store/json_store.rs:213-224 | a change that takes another node's identifier is accepted and breaks uniqueness |
| Registry.MemoryIsFile | synergos-control/src/store/json_store.rs:29-103 | memory and file agree after any calls, refused and unsaved ones included |
| Registry.AlwaysGoodIff | synergos-control/src/store/json_store.rs:44-129 | from a good file, over any calls with any failed saves, the registry is good after every call if and only if no saved mutation takes another node's identifier |
| Registry.JsonStore.InsertOrg | synergos-control/src/store/json_store.rs:90-103 | succeeds exactly when no organisation has the identifier and the save works; then memory and file have it appended, otherwise neither changes |
| Registry.JsonStore.UpdateOrg | synergos-control/src/store/json_store.rs:105-129 | succeeds exactly when the organisation exists, every owner of its nodes stays a member and the save works; then it is replaced in place, otherwise nothing changes |
| Registry.JsonStore.InsertNode | synergos-control/src/store/json_store.rs:144-172 | succeeds exactly when the owner is a member of the organisation, no node has the identifier and the save works; then the node is appended, otherwise nothing changes |
| Registry.JsonStore.TryMutateNode | synergos-control/src/store/json_store.rs:202-238 | succeeds exactly when the node is found in scope, the change goes through, its new owner is a member and the save works; then it is replaced in place, otherwise nothing changes |
| Registry.JsonStore.RemoveNode | synergos-control/src/store/json_store.rs:262-274 | succeeds exactly when the node is in that organisation and the save works; then it is gone and the rest stays in order, otherwise nothing changes |
| XorDistance.XorBytes | synergos-net/src/types.rs:48-54 | the loop fills the array with the byte-wise exclusive or |
| XorDistance.BitsXor | synergos-net/src/types.rs:48-54 | the bits of the byte-wise result are the exclusive or of the identifiers' bits |
| XorDistance.LeadingZeros | synergos-net/src/types.rs:57-69 | the result is the exact length of the bit prefix the two identifiers share |
| XorDistance.SharedUltrametric | synergos-net/src/types.rs:57-69 | the shared prefix of the outer two of three identifiers is at least the shorter of the other two |
| XorDistance.ValueBounds | synergos-net/src/types.rs:57-69 | a distance with n leading zero bits lies between the two neighbouring powers of two |
| XorDistance.CloserIsSmaller | synergos-net/src/types.rs:47-69 | a longer shared prefix means a strictly smaller distance |
| XorDistance.TriangleInequality | synergos-net/src/types.rs:47-54 | distances are symmetric, zero only between equal identifiers, and obey the triangle inequality |

## Left out

- CustodyStore and its laws are a state machine over file operations on values, because requests interleave between any two of them; the two byte loops are modelled as methods in CustodyStream.
- Power loss: a published file, a saved manifest and a flushed row are taken to be on disk; only process crashes are modelled.
- A partial file whose removal fails, and which a detached link worker could then still publish, is not modelled.
- The bytes of a download that was opened before a reclaim keep streaming; a download is the moment its file is opened.
- Expiry, capability signatures, headers and timeouts of custody requests appear only as cancellations at any point.
- UTF-8 validity of JSON input, floating-point numbers and nesting limits of the JSON reader itself are not modelled.
- Checkpoint signing, event relay aborts, half-written IPC commands and the reader's clean-up after a broken connection.
- Closing a project while a call of it is in progress: closing and reopening happen between calls.
- A call dropped while its file is being replaced: the replacement may still land after a later call's, and put an older high-water file back.
- The native high-water state and the native receive operation repeat the modelled Rust ones and would add easy members.
- The comparison of the scan with the manifest (modified, untracked, missing) is one pass over the scan's result.
- Symbolic links, canonical paths and file permissions.
- Registry listings, and calls dropped between saving the file and swapping memory.
- Exchange, gossip, DHT tables, catalog, history, relay, GUI, command line and configuration.
