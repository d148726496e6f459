# Download engine and digest utilities: a verified model

This project is a Dafny model of the core of an Android download manager. It covers two parts.

- **The download engine** (`DownloadEngine.java`). It keeps three pieces of state: the downloads that have a worker (`activeDownloads`), the downloads with a parameter change in flight (`duringChange`), and a first-in-first-out queue of downloads waiting for a free slot. On top of that state it decides:
  - whether a download may start (the cap on active downloads);
  - how bulk pause and stop treat downloads that are being changed;
  - what happens when a worker completes or fails;
  - how a sparse parameter patch is applied to the stored record;
  - what the post-download pipeline does: verify the checksum, then move the file, then extract the archive;
  - when the environment (metered network, roaming, battery) forces every download to stop.
- **The digest utilities** (`DigestUtils.java`). They recognise MD5 and SHA-256 checksum text, feed a stream to a message digest in chunks of at most 1024 bytes, and print a digest as lower-case hex.

Files:

- `wrappers.dfy`: `Option` (a Java reference that may be null) and `Result` (a call that returns or throws).
- `digest_utils.dfy` (module `DigestUtils`):
  - the checksum shapes, and the hex printer with its inverse and round trip;
  - the stream and message digest objects as classes, and the chunked feeding loop;
  - the null-on-error hash wrappers.
- `download_data.dfy` (module `DownloadData`): the stored record, the sparse patch, the status codes and the preferences the engine reads.
- `engine_decisions.dfy` (module `EngineDecisions`): the decisions the engine takes on one record at a time.
  - checksum verification and the parameter patch;
  - the post-download pipeline, specified by the function `PostDownload` and implemented by the method `OnBeforeFinished`;
  - the retry dispatch and the stop policy.
- `engine.dfy` (module `Engine`): the class `DownloadEngine`, with its maps, its queue and its stored records.
  - The engine's asynchronous continuations are methods that the environment calls. These are: a worker completing or failing, and a record read from the repository.
  - Two more environment moves stand for what the worker itself does: `WorkerStarted` marks its worker running, and `WorkerUpdatedInfo` stores the status the worker wrote to the repository. The engine only reads that stored status later, when the worker completes.
  - A repository read that fails is an input flag of the continuation that would have received the record (`statusReadFailed`, `infoReadFailed`, `readFailed`). The section "Left out" says what each continuation does with it.
  - What the engine hands to collaborators is appended to logs: `scheduler` for scheduler requests, `applying` for patches waiting for their record, and `events` for listener and notifier calls.

The class invariant `DownloadEngine.Valid` holds before and after every operation. It says three things:

- The number of active downloads never exceeds `maxActiveDownloads`, which is at least 1.
- The queue is first in, first out. The ghost logs `pushed` and `released` satisfy `pushed == released + queue`.
- Every stored record sits under its own id.

Quirks of the source that the model keeps:

- The cap test is an equality (`AtCap`). The cap therefore holds only while the preference is fixed, and the model reads it from a constant.
- The cap is checked before the "already running" test. At the cap, even a download that already has a worker is queued again.
- `doRunDownload` replaces a worker that exists but has not started running.
- In the stop policy, the metered verdict overwrites the roaming verdict. The plain battery control is ignored when the custom one is on.
- A patch whose checksum is the empty string re-derives the status as success. An empty checksum always verifies.

## Model

| member | source | states |
|---|---|---|
| DigestUtils.MatchesHexRun | app/src/main/java/com/roy/downloader/core/utils/DigestUtils.java:18-19 | a whole-string match of `[A-Fa-f0-9]{n}` holds iff the text has exactly n characters, each a hex digit of either case |
| DigestUtils.IsMd5Hash | app/src/main/java/com/roy/downloader/core/utils/DigestUtils.java:88-90 | holds iff the text is exactly 32 hex digits of either case |
| DigestUtils.IsSha256Hash | app/src/main/java/com/roy/downloader/core/utils/DigestUtils.java:92-94 | holds iff the text is exactly 64 hex digits of either case |
| DigestUtils.ChecksumShapesDisjoint | app/src/main/java/com/roy/downloader/core/utils/DigestUtils.java:18-19 | no text has both shapes, so choosing the algorithm by shape is unambiguous |
| DigestUtils.Unsigned | app/src/main/java/com/roy/downloader/core/utils/DigestUtils.java:80 | `0xff & b` is below 256 and agrees with the signed byte modulo 256 |
| DigestUtils.Signed | app/src/main/java/com/roy/downloader/core/utils/DigestUtils.java:80 | every value below 256 is `0xff & b` of some byte (the inverse of Unsigned) |
| DigestUtils.HexDigit | app/src/main/java/com/roy/downloader/core/utils/DigestUtils.java:82 | the digit for a value below 16 is a lower-case hex digit that reads back as that value |
| DigestUtils.ToHexString | app/src/main/java/com/roy/downloader/core/utils/DigestUtils.java:82 | Integer.toHexString of an unsigned byte has one digit below 0x10 and two otherwise, all lower case, and the digits read back as the value |
| DigestUtils.ByteToHex | app/src/main/java/com/roy/downloader/core/utils/DigestUtils.java:80-82 | with the padding '0', every byte prints as exactly two lower-case digits that read back as the unsigned byte |
| DigestUtils.HexStringAt | app/src/main/java/com/roy/downloader/core/utils/DigestUtils.java:77-86 | the printed digest has 2·n characters, and byte i sits at characters 2i and 2i+1 |
| DigestUtils.HexStringLowerCase | app/src/main/java/com/roy/downloader/core/utils/DigestUtils.java:77-86 | every character of the printed digest is a lower-case hex digit |
| DigestUtils.HexStringShapes | app/src/main/java/com/roy/downloader/core/utils/DigestUtils.java:77-94 | a 16-byte digest prints as an MD5-shaped checksum and a 32-byte digest as a SHA-256-shaped one |
| DigestUtils.HexRoundTrip | app/src/main/java/com/roy/downloader/core/utils/DigestUtils.java:79-83 | reading the printed digest back two digits at a time gives every byte back |
| DigestUtils.DigestToString | app/src/main/java/com/roy/downloader/core/utils/DigestUtils.java:77-86 | the StringBuilder loop produces exactly the printed digest (padding '0' plus toHexString per byte) |
| DigestUtils.InputStream.Read | app/src/main/java/com/roy/downloader/core/utils/DigestUtils.java:69 | a read gives -1 at the end of the stream, otherwise 1..len of the next bytes into the buffer; only a file stream may throw |
| DigestUtils.MessageDigest.Update | app/src/main/java/com/roy/downloader/core/utils/DigestUtils.java:72 | update feeds exactly buffer[off..off+len] after what was fed before |
| DigestUtils.MessageDigest.Digest | app/src/main/java/com/roy/downloader/core/utils/DigestUtils.java:64 | digest is the algorithm applied to everything fed, and resets the input |
| DigestUtils.UpdateDigest | app/src/main/java/com/roy/downloader/core/utils/DigestUtils.java:67-75 | the rest of the stream is fed in order, each chunk 1..1024 bytes; without an IOException the loop stops exactly at the end of the stream |
| DigestUtils.MakeHash | app/src/main/java/com/roy/downloader/core/utils/DigestUtils.java:54-65 | the result is null or the hex digest of the rest of the stream; it is null only when the stream can throw |
| DigestUtils.MakeHashOfFile | app/src/main/java/com/roy/downloader/core/utils/DigestUtils.java:22-36 | a file-stream hash is the hex digest of the stream, or null on an IOException from reading or from closing |
| DigestUtils.MakeHashOfBytes | app/src/main/java/com/roy/downloader/core/utils/DigestUtils.java:38-52 | a byte-array hash is always the hex digest of the bytes |
| EngineDecisions.CalcHashSumOutcomes | app/src/main/java/com/roy/downloader/core/model/DownloadEngine.java:265-276 | no URI or a read the hash utility gives up on yields null; a descriptor that cannot be opened throws IOException; otherwise the hash is lower-case hex that reads back as the file's digest |
| EngineDecisions.DoVerifyChecksum | app/src/main/java/com/roy/downloader/core/model/DownloadEngine.java:244-276 | an empty checksum verifies; a checksum of neither shape throws; otherwise the result is true iff the file can be read and its digest (MD5 for 32 digits, SHA-256 for 64) equals the checksum ignoring case |
| EngineDecisions.ShapeOfPrintedDigest | app/src/main/java/com/roy/downloader/core/model/DownloadEngine.java:250-262 | text equal, ignoring case, to a printed digest has twice the digest's length and only hex digits |
| EngineDecisions.VerifyAcceptsOwnDigest | app/src/main/java/com/roy/downloader/core/model/DownloadEngine.java:244-263 | a checksum equal, ignoring case, to the file's own MD5 or SHA-256 digest always verifies, because its shape selects that very algorithm |
| EngineDecisions.VerifyChecksum | app/src/main/java/com/roy/downloader/core/model/DownloadEngine.java:233-242 | the record's status becomes success (no message) or checksum-error (with its message), and the result is true iff the status is success; an unknown shape throws |
| EngineDecisions.CheckMoveAfterDownload | app/src/main/java/com/roy/downloader/core/model/DownloadEngine.java:535-551 | without a requested move the record is unchanged; a successful move points dirPath at the target; each of the two move failures throws its own exception |
| EngineDecisions.CheckUncompressArchive | app/src/main/java/com/roy/downloader/core/model/DownloadEngine.java:553-583 | extraction is attempted only when asked for, on Android O and later, for a possible archive with a URI; a success deletes the archive; the two failures throw their own exceptions |
| EngineDecisions.OnBeforeFinished | app/src/main/java/com/roy/downloader/core/model/DownloadEngine.java:522-533 | the copy-verify-move-extract steps produce exactly the pipeline outcome and file operations of PostDownload |
| EngineDecisions.PostDownloadFrame | app/src/main/java/com/roy/downloader/core/model/DownloadEngine.java:522-551 | the pipeline changes only status, message and directory; without a checksum it leaves the status alone; the directory changes only through a successful move to the target |
| EngineDecisions.PostDownloadChecksum | app/src/main/java/com/roy/downloader/core/model/DownloadEngine.java:522-533 | the file is hashed iff a checksum of known shape is present; an unknown shape aborts before anything is done |
| EngineDecisions.PostDownloadVerdict | app/src/main/java/com/roy/downloader/core/model/DownloadEngine.java:522-533 | a mismatch is recorded as checksum-error and ends the pipeline after hashing alone, with no move or extraction; a match is recorded as success |
| EngineDecisions.PostDownloadMoveAfterChecksum | app/src/main/java/com/roy/downloader/core/model/DownloadEngine.java:528-551 | a move happens only after a passed checksum, only when one is requested, and only to the requested directory |
| EngineDecisions.PostDownloadMoves | app/src/main/java/com/roy/downloader/core/model/DownloadEngine.java:528-551 | conversely, a passed checksum and a requested move do move the file to the requested directory, and after a successful move a successful pipeline leaves the record in that directory |
| EngineDecisions.PostDownloadMoveFailure | app/src/main/java/com/roy/downloader/core/model/DownloadEngine.java:528-551 | after a passed checksum a failed move throws its own exception and no extraction follows |
| EngineDecisions.PostDownloadExtractOrder | app/src/main/java/com/roy/downloader/core/model/DownloadEngine.java:528-583 | an extraction follows a passed checksum and a successful requested move, uses the final directory, fails iff the result is an exception, and a successful one is followed by deleting the archive |
| EngineDecisions.PostDownloadExtracts | app/src/main/java/com/roy/downloader/core/model/DownloadEngine.java:528-583 | conversely, a wanted extraction of an archive with a URI, after a passed checksum and a successful requested move, is attempted in the final directory |
| EngineDecisions.PatchedFields | app/src/main/java/com/roy/downloader/core/model/DownloadEngine.java:391-437 | the patched record (Patched): each present patch field overwrites the record and each absent one keeps it; id, MIME type and extraction flag never change; a new checksum makes the status success or checksum-error by the verification verdict |
| EngineDecisions.CopyPresentFields | app/src/main/java/com/roy/downloader/core/model/DownloadEngine.java:392-412 | url, description, metered flag, retry flag and checksum are copied when present; the changed flag is true iff any of them was present |
| EngineDecisions.ApplyVerdict | app/src/main/java/com/roy/downloader/core/model/DownloadEngine.java:418-426 | without a new checksum the record is unchanged; a checksum of unknown shape throws; otherwise the status becomes success or checksum-error by the verification verdict |
| EngineDecisions.MoveRenamed | app/src/main/java/com/roy/downloader/core/model/DownloadEngine.java:427-436 | a new name or directory first moves the file, and a failed move throws its own exception; only after a move does the record take the new name and directory; with neither the record is unchanged |
| EngineDecisions.DoApplyParams | app/src/main/java/com/roy/downloader/core/model/DownloadEngine.java:391-443 | an unknown checksum shape or a failed move throws; otherwise the record becomes Patched, the result is true iff the patch has a URL, and the record is written back iff any field was present |
| EngineDecisions.HandleStatusCode | app/src/main/java/com/roy/downloader/core/model/DownloadEngine.java:475-490 | a download is rerun iff it waits to retry or for the network; 401 and 407 lead to nothing |
| EngineDecisions.CheckStopDownloads | app/src/main/java/com/roy/downloader/core/model/DownloadEngine.java:657-680 | stop iff metered under unmetered-only, or (without unmetered-only) roaming while roaming is watched, or not charging under only-charging, or below the custom threshold under custom control, or low battery under plain control without custom control |
| Engine.DownloadEngine.constructor | app/src/main/java/com/roy/downloader/core/model/DownloadEngine.java:62-65 | the engine starts with no worker, no pending change and an empty queue; maxActiveDownloads is at least 1 |
| Engine.DownloadEngine.AtCap | app/src/main/java/com/roy/downloader/core/model/DownloadEngine.java:585-587 | under the invariant the equality test holds exactly when the number of workers has reached the cap |
| Engine.DownloadEngine.DoRunDownload | app/src/main/java/com/roy/downloader/core/model/DownloadEngine.java:282-307 | nothing happens while a change is pending; at the cap the id goes to the back of the queue and the workers are unchanged; a running worker is never replaced; otherwise a fresh worker is added; the cap is kept |
| Engine.DownloadEngine.ScheduleWaitingDownload | app/src/main/java/com/roy/downloader/core/model/DownloadEngine.java:589-598 | nothing happens at the cap or on an empty queue; otherwise the head of the queue is removed and run, and it is the earliest pushed id not yet released |
| Engine.DownloadEngine.PauseAllDownloads | app/src/main/java/com/roy/downloader/core/model/DownloadEngine.java:170-179 | exactly the workers without a pending change are asked to pause; the maps' keys, the queue and the records are unchanged |
| Engine.DownloadEngine.StopDownloads | app/src/main/java/com/roy/downloader/core/model/DownloadEngine.java:189-197 | exactly the workers without a pending change are asked to stop; the maps' keys, the queue and the records are unchanged |
| Engine.DownloadEngine.RescheduleDownloads | app/src/main/java/com/roy/downloader/core/model/DownloadEngine.java:122-127 | when the stop policy says so, the workers are stopped as by StopDownloads; otherwise every non-paused download is asked to run |
| Engine.DownloadEngine.ReleaseWorker | app/src/main/java/com/roy/downloader/core/model/DownloadEngine.java:461-463 | a waiting-to-retry or waiting-for-network download is rerun unless its record could not be read; the worker is dropped; below the cap the queue head is released and run after that rerun; nothing else changes |
| Engine.DownloadEngine.OnDownloadCompleted | app/src/main/java/com/roy/downloader/core/model/DownloadEngine.java:460-473 | the worker is dropped; a waiting-to-retry or waiting-for-network download is rerun, unless its record could not be read; the queue head is let in when below the cap; completion is reported only without a pending change and with no worker left; a pending change is applied with a rerun afterwards |
| Engine.DownloadEngine.HandleDownloadError | app/src/main/java/com/roy/downloader/core/model/DownloadEngine.java:492-509 | a failed worker is completed like any other, with the same effect on workers, queue, scheduler requests and pending changes (CompletedFrom); a move or extraction failure is also reported with the stored file name, unless the record could not be read |
| Engine.DownloadEngine.NotifyFailure | app/src/main/java/com/roy/downloader/core/model/DownloadEngine.java:497-508 | exactly the four move and extraction failures of a stored download produce one notification, carrying its file name |
| Engine.DownloadEngine.DoChangeParams | app/src/main/java/com/roy/downloader/core/model/DownloadEngine.java:342-355 | a change is ignored while one is pending for the id; otherwise it is recorded and announced, and then a running worker is asked to stop or the patch is applied at once |
| Engine.DownloadEngine.ApplyParamsRead | app/src/main/java/com/roy/downloader/core/model/DownloadEngine.java:358-377 | the outcome of applying the patch (ApplyReport) is written back and announced; the pending marker is removed in every case; a rerun is requested iff asked for or the URL changed |
| Engine.DownloadEngine.RecordReport | app/src/main/java/com/roy/downloader/core/model/DownloadEngine.java:364-377 | a written record replaces the stored one; the pending marker is removed; the outcome is announced; a rerun is requested iff asked for or the URL changed; the invariant is kept |
| Engine.DownloadEngine.ApplyParamsReadFailed | app/src/main/java/com/roy/downloader/core/model/DownloadEngine.java:378-386 | when the record cannot be read, the pending marker is removed, the change is announced as failed without a name, and completion is reported when no worker is left |
| Engine.ApplyToRecord | app/src/main/java/com/roy/downloader/core/model/DownloadEngine.java:360-376 | running doApplyParams on the record read gives the report ApplyReport describes, and a written record keeps its id |
| Engine.ApplyReportWrites | app/src/main/java/com/roy/downloader/core/model/DownloadEngine.java:364-376 | a record is written iff it exists, the patch applies and the patch holds anything; the change fails iff the record is missing or the patch throws; a written record has the patch's url, name and directory |
| Engine.DownloadEngine.PauseResumeDownload | app/src/main/java/com/roy/downloader/core/model/DownloadEngine.java:129-150 | a paused or stopped download is run; any other one has its worker asked to pause unless a change is pending; a failed read reports completion when no worker is left |
| Engine.DownloadEngine.ResumeIfError | app/src/main/java/com/roy/downloader/core/model/DownloadEngine.java:152-168 | a download whose status is an error is run again; a failed read reports completion when no worker is left |
| Engine.DownloadEngine.DoDeleteDownload | app/src/main/java/com/roy/downloader/core/model/DownloadEngine.java:313-325 | nothing happens while a change is pending; otherwise the scheduler forgets the download, the record is deleted, and its worker is asked to stop or, with no worker at all, completion is reported |

## Left out

- User interface: the three settings and list screens are not part of this model. The one fact taken from them is that `maxActiveDownloads` is at least 1 (app/src/main/java/com/roy/downloader/ui/settings/sections/FragmentLimitationsSettings.java:41). It is a requirement of the constructor.
- Threads and Rx scheduling: `synchronized`, the singleton and the subscribe/observe hops are left out. Every continuation is a method run to the end before the next one starts.
- The `handleStatusCode` order: the source reads the record asynchronously. The model reads it at the start of `OnDownloadCompleted`, so its `Run` request is logged before the queue's.
- Android dispatch: `changeParams` (an Intent to the service) and `deleteDownloads` (a WorkManager job) are not modelled.
- Receivers and settings changes: registering and unregistering the connection and power receivers is not modelled, and neither is `handleSettingsChanged` (app/src/main/java/com/roy/downloader/core/model/DownloadEngine.java:600-621). That method matches the changed preference key against resource strings and switches a receiver. For the unmetered-only, roaming, only-when-charging and battery-control keys it then reschedules the pending downloads (a scheduler job outside this model) and calls `rescheduleDownloads`, which is modelled as `RescheduleDownloads`. Switching the power receiver also calls `rescheduleDownloads` by itself when custom battery control is on (line 637), so the custom-battery-control key reschedules through that path. Because `pref` is a constant here, a settings change has no state to act on.
- Changing preferences while the engine runs: `pref` is a constant. With the `==` cap test, lowering the cap below the current number of workers would let the engine start more of them.
- Listeners: adding and removing them is not modelled. A notification is one entry in `events`, whatever the number of listeners.
- Collaborators: DownloadThreadImpl, DownloadScheduler, DownloadQueue, the repository and the notifier are not part of this model.
  - A worker is the record `Worker(running, pauseRequested, stopRequested)`.
  - The scheduler's `run` is a `Run(id)` request in the `scheduler` log. The environment is expected to answer it with `DoRunDownload(id)`.
  - The queue is a sequence, with no deduplication.
  - The repository is the map `storage`.
- A missing record versus a failed read: a repository read that fails calls `ApplyParamsReadFailed`, `PauseResumeDownload(id, true)` or `ResumeIfError(id, true)`, or sets `statusReadFailed` / `infoReadFailed` of `OnDownloadCompleted` and `HandleDownloadError`. In those two the failure is only logged, so the rerun or the notification is skipped. A read that returns no record follows the source's null branch (`ApplyReport(None, ...)`), or the null filter, which does nothing.
- A null worker in `activeDownloads` is not modelled; the engine never stores one.
- File deletion when a download is deleted: `withFile` only reaches the repository, so `DoDeleteDownload` takes the record alone.
- MD5 and SHA-256 internals (RFC 1321, section 3; FIPS 180-4, section 6.2): a digest algorithm is a function value. The only property assumed of it is the digest length, 16 or 32 bytes (`ValidHashers`).
- `MessageDigest.getInstance` failing: MD5 and SHA-256 exist on every Java platform, so this path is not modelled.
- File system and platform:
  - Moving, extracting and hashing enter as the outcomes they will produce (`FileProbe`, `MoveResult`, `ExtractResult`).
  - The SDK level and the MIME categories enter as `Platform`.
  - A failure to close the archive's descriptor is not distinguished from an extraction I/O failure.
  - A failed archive delete is only logged, so it does not appear.
- EqualsIgnoreCase: case folding covers ASCII letters only. The digests compared are hex text, where this matches `String.equalsIgnoreCase`; other characters of a checksum are compared exactly.
- StatusCode: StatusCode.java is not part of this model. The classification is assumed: paused and stopped count as stopped-or-paused; checksum, HTTP and unknown errors count as errors.
