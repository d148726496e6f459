/**
 * The decisions the download engine takes on one record at a time:
 * checksum verification, the sparse parameter patch, the post-download
 * pipeline (verify, then move, then extract), the retry dispatch on the
 * final status and the global stop policy. None of these touches the
 * engine's maps; the file system and the environment enter as the
 * outcomes they will produce.
 */
module EngineDecisions {
  import opened Wrappers
  import opened DigestUtils
  import opened DownloadData

  /** The two digest algorithms the engine can select. */
  datatype Hashers = Hashers(md5: Hasher, sha256: Hasher)

  /** MD5 digests are 16 bytes and SHA-256 digests 32 bytes long. */
  ghost predicate ValidHashers(h: Hashers) {
    ProducesLength(h.md5, 16) && ProducesLength(h.sha256, 32)
  }

  /** What hashing the download's file runs into. */
  datatype FileProbe =
    | NoUri                        // the file system has no URI for (dirPath, fileName)
    | OpenFailure                  // opening the descriptor throws IOException
    | ReadFailure                  // the hash utility swallows an IOException and returns null
    | Contents(data: seq<JByte>)   // the file's bytes, read to the end

  datatype IOException = IOException

  /** IllegalArgumentException("Unknown checksum type"). */
  datatype ChecksumTypeError = UnknownChecksumType

  /**
   * calcHashSum: the hex digest of the file with the chosen algorithm;
   * null when there is no URI or the hash utility gives up; an IOException
   * when the file cannot be opened.
   */
  function CalcHashSum(file: FileProbe, algorithm: Hasher): Result<Option<string>, IOException>
  {
    match file
    case NoUri => Ok(None)
    case OpenFailure => Err(IOException)
    case ReadFailure => Ok(None)
    case Contents(data) => Ok(Some(HashHex(algorithm, data)))
  }

  /**
   * What calcHashSum's outcomes mean: only a descriptor that cannot be
   * opened throws, null stands for no URI or a read the hash utility gave
   * up on, and a hash is lower-case hex that reads back as the file's
   * digest.
   */
  lemma CalcHashSumOutcomes(file: FileProbe, algorithm: Hasher)
    ensures var r := CalcHashSum(file, algorithm);
      && (r.Err? <==> file.OpenFailure?)
      && (r == Ok(None) <==> file.NoUri? || file.ReadFailure?)
      && (r.Ok? && r.value.Some? ==>
            && file.Contents?
            && DecodeHex(r.value.value) == algorithm(file.data)
            && forall k :: 0 <= k < |r.value.value| ==> IsLowerHexDigit(r.value.value[k]))
  {
    if file.Contents? {
      HexRoundTrip(algorithm(file.data));
      HexStringLowerCase(algorithm(file.data));
    }
  }

  /** Character.toLowerCase restricted to ASCII letters. */
  function ToLowerAscii(c: char): char {
    if 'A' <= c <= 'Z' then (c as int + 32) as char else c
  }

  /** String.equalsIgnoreCase on ASCII text. */
  predicate EqualsIgnoreCase(a: string, b: string) {
    |a| == |b| && forall i :: 0 <= i < |a| ==> ToLowerAscii(a[i]) == ToLowerAscii(b[i])
  }

  /** The algorithm a checksum's shape selects: MD5 is tried first. */
  function SelectedAlgorithm(checksum: string, h: Hashers): Hasher
    requires IsMd5Hash(checksum) || IsSha256Hash(checksum)
  {
    if IsMd5Hash(checksum) then h.md5 else h.sha256
  }

  /**
   * doVerifyChecksum: no checksum verifies trivially; otherwise the shape
   * selects MD5 or SHA-256 (any other shape throws), an IOException gives
   * false, and else the computed hash must equal the checksum ignoring case.
   */
  function DoVerifyChecksum(checksum: Option<string>, file: FileProbe, h: Hashers): (r: Result<bool, ChecksumTypeError>)
    ensures IsEmpty(checksum) ==> r == Ok(true)
    ensures r.Err? <==> !IsEmpty(checksum) && !IsMd5Hash(checksum.value) && !IsSha256Hash(checksum.value)
    ensures !IsEmpty(checksum) && r.Ok? ==>
      (r.value <==> file.Contents? &&
                    EqualsIgnoreCase(HashHex(SelectedAlgorithm(checksum.value, h), file.data), checksum.value))
  {
    if IsEmpty(checksum) then Ok(true)
    else
      var cs := checksum.value;
      var computed: Result<Result<Option<string>, IOException>, ChecksumTypeError> :=
        if IsMd5Hash(cs) then Ok(CalcHashSum(file, h.md5))
        else if IsSha256Hash(cs) then Ok(CalcHashSum(file, h.sha256))
        else Err(UnknownChecksumType);
      match computed
      case Err(e) => Err(e)
      case Ok(Err(_)) => Ok(false)
      case Ok(Ok(hash)) => Ok(hash.Some? && EqualsIgnoreCase(hash.value, cs))
  }

  lemma LowerCaseOfHexDigit(c: char, d: char)
    requires IsLowerHexDigit(d) && ToLowerAscii(c) == d
    ensures IsHexDigit(c)
  {
  }

  /** Text equal, ignoring case, to a printed digest is that many hex digits long. */
  lemma ShapeOfPrintedDigest(digest: seq<JByte>, checksum: string)
    requires EqualsIgnoreCase(HexString(digest), checksum)
    ensures |checksum| == 2 * |digest|
    ensures forall i :: 0 <= i < |checksum| ==> IsHexDigit(checksum[i])
  {
    var hex := HexString(digest);
    HexStringLength(digest);
    HexStringLowerCase(digest);
    forall i | 0 <= i < |checksum|
      ensures IsHexDigit(checksum[i])
    {
      assert ToLowerAscii(hex[i]) == hex[i];
      LowerCaseOfHexDigit(checksum[i], hex[i]);
    }
  }

  /**
   * A checksum that equals, ignoring case, the printed MD5 or SHA-256
   * digest of the file verifies: its shape selects that very algorithm.
   */
  lemma VerifyAcceptsOwnDigest(data: seq<JByte>, checksum: string, h: Hashers, sha256: bool)
    requires ValidHashers(h)
    requires EqualsIgnoreCase(HashHex(if sha256 then h.sha256 else h.md5, data), checksum)
    ensures DoVerifyChecksum(Some(checksum), Contents(data), h) == Ok(true)
  {
    if sha256 {
      assert |h.sha256(data)| == 32;
      ShapeOfPrintedDigest(h.sha256(data), checksum);
      assert !IsMd5Hash(checksum) && IsSha256Hash(checksum);
    } else {
      assert |h.md5(data)| == 16;
      ShapeOfPrintedDigest(h.md5(data), checksum);
      assert IsMd5Hash(checksum);
    }
  }

  /** The status a verification verdict leaves in the record. */
  function WithVerdict(info: DownloadInfo, ok: bool): DownloadInfo {
    if ok then info.(statusCode := Success, statusMsg := NoMsg)
    else info.(statusCode := ChecksumError, statusMsg := VerifyChecksumError)
  }

  /**
   * verifyChecksum: sets the status to success or checksum-error from
   * doVerifyChecksum and reports whether it is success.
   */
  method VerifyChecksum(info: DownloadInfo, file: FileProbe, h: Hashers)
    returns (r: Result<DownloadInfo, ChecksumTypeError>, ok: bool)
    ensures r.Err? <==> DoVerifyChecksum(info.checksum, file, h).Err?
    ensures r.Ok? ==> ok == DoVerifyChecksum(info.checksum, file, h).value
    ensures r.Ok? ==> r.value == WithVerdict(info, ok)
    ensures r.Ok? ==> (ok <==> r.value.statusCode == Success)
  {
    var v := DoVerifyChecksum(info.checksum, file, h);
    if v.Err? {
      return Err(v.error), false;
    }
    var newInfo := info;
    if v.value {
      newInfo := newInfo.(statusCode := Success, statusMsg := NoMsg);
    } else {
      newInfo := newInfo.(statusCode := ChecksumError, statusMsg := VerifyChecksumError);
    }
    ok := newInfo.statusCode == Success;
    r := Ok(newInfo);
  }

  // ---------------------------------------------------------------------
  // The post-download pipeline
  // ---------------------------------------------------------------------

  datatype MoveResult = Moved | MoveIoFailure | MoveTargetExists
  datatype ExtractResult = Extracted | UnknownArchiveFormat | ExtractIoFailure

  /** The outcomes the file system will give the pipeline's steps. */
  datatype PostFs = PostFs(file: FileProbe, move: MoveResult, archiveUri: bool, extract: ExtractResult)

  /** The build level and the MIME types MimeTypeUtils files under "archive". */
  datatype Platform = Platform(sdkAtLeastO: bool, archiveMimeTypes: set<string>)

  /** The file-system steps the pipeline attempted, in order. */
  datatype FsOp = HashFile | MoveFile(dstDir: string) | Uncompress(dir: string) | DeleteArchive(dir: string)

  /** The exceptions that leave the pipeline. */
  datatype PipelineError =
    | InvalidChecksum               // IllegalArgumentException from an unknown checksum shape
    | MoveError
    | MoveAlreadyExistsError
    | UncompressArchiveError
    | UncompressArchiveFormatError

  const OCTET_STREAM: string := "application/octet-stream"

  /** moveAfterDownload is on and its target directory parses. */
  predicate MoveRequested(pref: Settings) {
    pref.moveAfterDownload && pref.moveAfterDownloadIn.Some?
  }

  /**
   * checkMoveAfterDownload: when requested, moves the file under its own
   * name and only then points dirPath at the target; the two move failures
   * are thrown as distinct exceptions.
   */
  method CheckMoveAfterDownload(info: DownloadInfo, pref: Settings, move: MoveResult)
    returns (r: Result<DownloadInfo, PipelineError>)
    ensures !MoveRequested(pref) ==> r == Ok(info)
    ensures MoveRequested(pref) && move.Moved? ==> r == Ok(info.(dirPath := pref.moveAfterDownloadIn.value))
    ensures MoveRequested(pref) && move.MoveIoFailure? ==> r == Err(MoveError)
    ensures MoveRequested(pref) && move.MoveTargetExists? ==> r == Err(MoveAlreadyExistsError)
  {
    if !pref.moveAfterDownload {
      return Ok(info);
    }
    if pref.moveAfterDownloadIn.None? {
      return Ok(info);
    }
    var movePath := pref.moveAfterDownloadIn.value;
    match move
    case MoveIoFailure => return Err(MoveError);
    case MoveTargetExists => return Err(MoveAlreadyExistsError);
    case Moved =>
    var newInfo := info.(dirPath := movePath);
    return Ok(newInfo);
  }

  /** The record asks for extraction and its MIME type may be an archive. */
  predicate WantsUncompress(info: DownloadInfo, platform: Platform) {
    info.uncompressArchive && platform.sdkAtLeastO &&
    (info.mimeType in platform.archiveMimeTypes || info.mimeType == OCTET_STREAM)
  }

  /**
   * checkUncompressArchive: extracts into the record's directory when
   * asked for and the MIME type may be an archive; after a successful
   * extraction the archive is deleted, and a failed delete is only logged.
   */
  method CheckUncompressArchive(info: DownloadInfo, platform: Platform, archiveUri: bool, extract: ExtractResult)
    returns (err: Option<PipelineError>, ops: seq<FsOp>)
    ensures !(WantsUncompress(info, platform) && archiveUri) ==> err == None && ops == []
    ensures WantsUncompress(info, platform) && archiveUri ==>
      && |ops| > 0 && ops[0] == Uncompress(info.dirPath)
      && (extract.Extracted? ==> err == None && ops == [Uncompress(info.dirPath), DeleteArchive(info.dirPath)])
      && (extract.UnknownArchiveFormat? ==> err == Some(UncompressArchiveFormatError) && ops == [Uncompress(info.dirPath)])
      && (extract.ExtractIoFailure? ==> err == Some(UncompressArchiveError) && ops == [Uncompress(info.dirPath)])
  {
    if !info.uncompressArchive || !platform.sdkAtLeastO {
      return None, [];
    }
    var isPossiblyArchive := info.mimeType in platform.archiveMimeTypes || info.mimeType == OCTET_STREAM;
    if !isPossiblyArchive {
      return None, [];
    }
    if !archiveUri {
      return None, [];
    }
    ops := [Uncompress(info.dirPath)];
    match extract
    case UnknownArchiveFormat => err := Some(UncompressArchiveFormatError);
    case ExtractIoFailure => err := Some(UncompressArchiveError);
    case Extracted =>
      ops := ops + [DeleteArchive(info.dirPath)];
      err := None;
  }

  /** The record's checksum, if any, verifies. */
  predicate ChecksumPasses(info: DownloadInfo, file: FileProbe, h: Hashers) {
    DoVerifyChecksum(info.checksum, file, h) == Ok(true)
  }

  /** What the post-download pipeline ends in, and the file operations it performed, in order. */
  datatype PipelineRun = PipelineRun(result: Result<DownloadInfo, PipelineError>, ops: seq<FsOp>)

  /**
   * The post-download pipeline as a value: verify the checksum (if any),
   * and only when that passes move and then extract; the first failing
   * stage ends the pipeline.
   */
  function PostDownload(info: DownloadInfo, pref: Settings, platform: Platform, fs: PostFs, h: Hashers): PipelineRun {
    var v := DoVerifyChecksum(info.checksum, fs.file, h);
    if v.Err? then PipelineRun(Err(InvalidChecksum), [])
    else
      var hashed := if IsEmpty(info.checksum) then [] else [HashFile];
      var checked := if IsEmpty(info.checksum) then info else WithVerdict(info, v.value);
      if !v.value then PipelineRun(Ok(checked), hashed)
      else
        var moveOps := if MoveRequested(pref) then [MoveFile(pref.moveAfterDownloadIn.value)] else [];
        if MoveRequested(pref) && !fs.move.Moved? then
          PipelineRun(Err(if fs.move.MoveTargetExists? then MoveAlreadyExistsError else MoveError), hashed + moveOps)
        else
          var moved := if MoveRequested(pref) then checked.(dirPath := pref.moveAfterDownloadIn.value) else checked;
          var dir := moved.dirPath;
          if !(WantsUncompress(moved, platform) && fs.archiveUri) then PipelineRun(Ok(moved), hashed + moveOps)
          else match fs.extract
            case Extracted => PipelineRun(Ok(moved), hashed + moveOps + [Uncompress(dir), DeleteArchive(dir)])
            case UnknownArchiveFormat => PipelineRun(Err(UncompressArchiveFormatError), hashed + moveOps + [Uncompress(dir)])
            case ExtractIoFailure => PipelineRun(Err(UncompressArchiveError), hashed + moveOps + [Uncompress(dir)])
  }

  /**
   * onBeforeFinished: on a copy of the record, verify the checksum (if
   * any); only when that passes, move and then extract.
   */
  method OnBeforeFinished(info: DownloadInfo, pref: Settings, platform: Platform, fs: PostFs, h: Hashers)
    returns (r: Result<DownloadInfo, PipelineError>, ops: seq<FsOp>)
    ensures PipelineRun(r, ops) == PostDownload(info, pref, platform, fs, h)
  {
    var newInfo := info;
    var verified := true;
    ops := [];
    if !IsEmpty(info.checksum) {
      var v;
      v, verified := VerifyChecksum(newInfo, fs.file, h);
      if v.Err? {
        return Err(InvalidChecksum), [];
      }
      ops := [HashFile];
      newInfo := v.value;
    }
    if verified {
      var moved := CheckMoveAfterDownload(newInfo, pref, fs.move);
      if MoveRequested(pref) {
        ops := ops + [MoveFile(pref.moveAfterDownloadIn.value)];
      }
      if moved.Err? {
        return Err(moved.error), ops;
      }
      newInfo := moved.value;
      var err, uops := CheckUncompressArchive(newInfo, platform, fs.archiveUri, fs.extract);
      ops := ops + uops;
      if err.Some? {
        return Err(err.value), ops;
      }
    }
    return Ok(newInfo), ops;
  }

  /** The pipeline changes only the status, its message and the directory; with no checksum, not the status. */
  lemma PostDownloadFrame(info: DownloadInfo, pref: Settings, platform: Platform, fs: PostFs, h: Hashers)
    ensures var run := PostDownload(info, pref, platform, fs, h);
      run.result.Ok? ==>
        && run.result.value == info.(statusCode := run.result.value.statusCode,
                                     statusMsg := run.result.value.statusMsg,
                                     dirPath := run.result.value.dirPath)
        && (IsEmpty(info.checksum) ==>
              run.result.value.statusCode == info.statusCode && run.result.value.statusMsg == info.statusMsg)
        && (run.result.value.dirPath != info.dirPath ==>
              MoveRequested(pref) && fs.move.Moved? && run.result.value.dirPath == pref.moveAfterDownloadIn.value)
  {
  }

  /**
   * The checksum stage: the file is hashed exactly when a checksum of a
   * known shape is present; an unknown shape aborts before anything is
   * done.
   */
  lemma PostDownloadChecksum(info: DownloadInfo, pref: Settings, platform: Platform, fs: PostFs, h: Hashers)
    ensures var run := PostDownload(info, pref, platform, fs, h);
      && (HashFile in run.ops <==> !IsEmpty(info.checksum) && DoVerifyChecksum(info.checksum, fs.file, h).Ok?)
      && (DoVerifyChecksum(info.checksum, fs.file, h).Err? ==> run == PipelineRun(Err(InvalidChecksum), []))
  {
  }

  /** The verdict is recorded: a mismatch ends the pipeline after hashing alone, a match is success. */
  lemma PostDownloadVerdict(info: DownloadInfo, pref: Settings, platform: Platform, fs: PostFs, h: Hashers)
    ensures var run := PostDownload(info, pref, platform, fs, h);
      && (DoVerifyChecksum(info.checksum, fs.file, h) == Ok(false) ==>
            run == PipelineRun(Ok(WithVerdict(info, false)), [HashFile]))
      && (!IsEmpty(info.checksum) && ChecksumPasses(info, fs.file, h) && run.result.Ok? ==>
            run.result.value.statusCode == Success && run.result.value.statusMsg == NoMsg)
  {
  }

  /** The file is moved only after the checksum passed, and only to the requested directory. */
  lemma PostDownloadMoveAfterChecksum(info: DownloadInfo, pref: Settings, platform: Platform, fs: PostFs, h: Hashers)
    ensures var run := PostDownload(info, pref, platform, fs, h);
      forall k :: 0 <= k < |run.ops| && run.ops[k].MoveFile? ==>
        ChecksumPasses(info, fs.file, h) && MoveRequested(pref) && run.ops[k].dstDir == pref.moveAfterDownloadIn.value
  {
  }

  /**
   * Conversely, a passed checksum and a requested move do move the file to
   * the requested directory, and a successful move leaves the record there.
   */
  lemma PostDownloadMoves(info: DownloadInfo, pref: Settings, platform: Platform, fs: PostFs, h: Hashers)
    requires ChecksumPasses(info, fs.file, h) && MoveRequested(pref)
    ensures var run := PostDownload(info, pref, platform, fs, h);
      && MoveFile(pref.moveAfterDownloadIn.value) in run.ops
      && (fs.move.Moved? && run.result.Ok? ==> run.result.value.dirPath == pref.moveAfterDownloadIn.value)
  {
  }

  /** A failed move ends the pipeline with its own exception, before any extraction. */
  lemma PostDownloadMoveFailure(info: DownloadInfo, pref: Settings, platform: Platform, fs: PostFs, h: Hashers)
    ensures var run := PostDownload(info, pref, platform, fs, h);
      ChecksumPasses(info, fs.file, h) && MoveRequested(pref) && !fs.move.Moved? ==>
        && run.result == Err(if fs.move.MoveTargetExists? then MoveAlreadyExistsError else MoveError)
        && forall k :: 0 <= k < |run.ops| ==> !run.ops[k].Uncompress?
  {
  }

  /**
   * An extraction follows a passed checksum and a successful move (if one
   * was requested), goes into the final directory, and a successful one
   * is followed by deleting the archive.
   */
  lemma PostDownloadExtractOrder(info: DownloadInfo, pref: Settings, platform: Platform, fs: PostFs, h: Hashers)
    ensures var run := PostDownload(info, pref, platform, fs, h);
      forall k :: 0 <= k < |run.ops| && run.ops[k].Uncompress? ==>
        && ChecksumPasses(info, fs.file, h)
        && (MoveRequested(pref) ==> fs.move.Moved?)
        && (fs.extract.Extracted? <==> run.result.Ok?)
        && (run.result.Ok? ==>
              run.ops[k].dir == run.result.value.dirPath && k + 1 < |run.ops| &&
              run.ops[k + 1] == DeleteArchive(run.ops[k].dir))
  {
  }

  /**
   * Conversely, an extraction that is wanted, after a passed checksum and
   * any requested move succeeding, is attempted in the final directory.
   */
  lemma PostDownloadExtracts(info: DownloadInfo, pref: Settings, platform: Platform, fs: PostFs, h: Hashers)
    requires ChecksumPasses(info, fs.file, h) && (MoveRequested(pref) ==> fs.move.Moved?)
    requires WantsUncompress(info, platform) && fs.archiveUri
    ensures Uncompress(if MoveRequested(pref) then pref.moveAfterDownloadIn.value else info.dirPath)
      in PostDownload(info, pref, platform, fs, h).ops
  {
  }

  // ---------------------------------------------------------------------
  // The parameter patch
  // ---------------------------------------------------------------------

  /** The exceptions doApplyParams (or the missing record before it) ends in. */
  datatype ApplyError = InfoMissing | BadChecksumType | MoveFailed | MoveTargetExistsFailed

  /** doApplyParams's result: the updated record, whether the URL changed, whether it was stored. */
  datatype ApplyOutcome =
    | Applied(info: DownloadInfo, urlChanged: bool, written: bool)
    | Threw(error: ApplyError)

  /** At least one field of the patch is present. */
  predicate ChangesAnything(p: ChangeableParams) {
    p.url.Some? || p.description.Some? || p.unmeteredConnectionsOnly.Some? || p.retry.Some? ||
    p.checksum.Some? || p.fileName.Some? || p.dirPath.Some?
  }

  /** The exception, if any, that applying the patch ends in. */
  function ApplyFailure(p: ChangeableParams, file: FileProbe, move: MoveResult, h: Hashers): Option<ApplyError> {
    if p.checksum.Some? && DoVerifyChecksum(p.checksum, file, h).Err? then Some(BadChecksumType)
    else if (p.fileName.Some? || p.dirPath.Some?) && !move.Moved? then
      Some(if move.MoveTargetExists? then MoveTargetExistsFailed else MoveFailed)
    else None
  }

  /**
   * The record after a patch that applies cleanly: the present fields
   * copied in, and with a new checksum the status re-derived from verifying
   * the file against it.
   */
  function Patched(info: DownloadInfo, p: ChangeableParams, file: FileProbe, h: Hashers): DownloadInfo
    requires p.checksum.Some? ==> DoVerifyChecksum(p.checksum, file, h).Ok?
  {
    var fields := PatchFields(info, p);
    if p.checksum.Some? then WithVerdict(fields, DoVerifyChecksum(p.checksum, file, h).value) else fields
  }

  /**
   * Patched field by field: a present field overwrites, an absent one keeps
   * the stored value, id, MIME type and extraction flag never change, and a
   * new checksum makes the status success or checksum-error by the verdict.
   */
  lemma PatchedFields(info: DownloadInfo, p: ChangeableParams, file: FileProbe, h: Hashers)
    requires p.checksum.Some? ==> DoVerifyChecksum(p.checksum, file, h).Ok?
    ensures var r := Patched(info, p, file, h);
      && r.id == info.id && r.mimeType == info.mimeType && r.uncompressArchive == info.uncompressArchive
      && r.url == (if p.url.Some? then p.url.value else info.url)
      && r.description == (if p.description.Some? then p.description.value else info.description)
      && r.unmeteredConnectionsOnly ==
           (if p.unmeteredConnectionsOnly.Some? then p.unmeteredConnectionsOnly.value else info.unmeteredConnectionsOnly)
      && r.retry == (if p.retry.Some? then p.retry.value else info.retry)
      && r.checksum == (if p.checksum.Some? then p.checksum else info.checksum)
      && r.fileName == (if p.fileName.Some? then p.fileName.value else info.fileName)
      && r.dirPath == (if p.dirPath.Some? then p.dirPath.value else info.dirPath)
      && (p.checksum.None? ==> r.statusCode == info.statusCode && r.statusMsg == info.statusMsg)
      && (p.checksum.Some? ==>
            && (r.statusCode == Success <==> DoVerifyChecksum(p.checksum, file, h).value)
            && (r.statusCode == Success || r.statusCode == ChecksumError))
  {
  }

  /** Every present field of the patch overwrites the record's field. */
  function PatchFields(info: DownloadInfo, p: ChangeableParams): DownloadInfo {
    info.(
      url := if p.url.Some? then p.url.value else info.url,
      description := if p.description.Some? then p.description.value else info.description,
      unmeteredConnectionsOnly := if p.unmeteredConnectionsOnly.Some? then p.unmeteredConnectionsOnly.value else info.unmeteredConnectionsOnly,
      retry := if p.retry.Some? then p.retry.value else info.retry,
      checksum := if p.checksum.Some? then p.checksum else info.checksum,
      fileName := if p.fileName.Some? then p.fileName.value else info.fileName,
      dirPath := if p.dirPath.Some? then p.dirPath.value else info.dirPath)
  }

  /** Patched in the order doApplyParams works: plain fields, then the verdict, then name and directory. */
  lemma PatchedInSourceOrder(info: DownloadInfo, p: ChangeableParams, file: FileProbe, h: Hashers)
    requires p.checksum.Some? ==> DoVerifyChecksum(p.checksum, file, h).Ok?
    ensures
      var plain := PatchFields(info, p).(fileName := info.fileName, dirPath := info.dirPath);
      var verdict := if p.checksum.Some? then WithVerdict(plain, DoVerifyChecksum(p.checksum, file, h).value) else plain;
      Patched(info, p, file, h) ==
        verdict.(fileName := if p.fileName.Some? then p.fileName.value else info.fileName,
                 dirPath := if p.dirPath.Some? then p.dirPath.value else info.dirPath)
  {
  }

  /**
   * The first half of doApplyParams: copies the url, description, metered
   * flag, retry flag and checksum when present, and notes whether any was.
   */
  method CopyPresentFields(info: DownloadInfo, params: ChangeableParams) returns (newInfo: DownloadInfo, changed: bool)
    ensures newInfo == PatchFields(info, params).(fileName := info.fileName, dirPath := info.dirPath)
    ensures changed <==> ChangesAnything(params.(fileName := None, dirPath := None))
  {
    changed := false;
    var url, description, unmetered, retry, checksum :=
      info.url, info.description, info.unmeteredConnectionsOnly, info.retry, info.checksum;
    if params.url.Some? {
      changed := true;
      url := params.url.value;
    }
    if params.description.Some? {
      changed := true;
      description := params.description.value;
    }
    if params.unmeteredConnectionsOnly.Some? {
      changed := true;
      unmetered := params.unmeteredConnectionsOnly.value;
    }
    if params.retry.Some? {
      changed := true;
      retry := params.retry.value;
    }
    if params.checksum.Some? {
      changed := true;
      checksum := params.checksum;
    }
    newInfo := info.(url := url, description := description, unmeteredConnectionsOnly := unmetered,
                     retry := retry, checksum := checksum);
  }

  /**
   * The checksum step of doApplyParams: a new checksum (already copied into
   * the record) re-derives the status from verifying the file against it,
   * and a checksum of unknown shape throws.
   */
  method ApplyVerdict(info: DownloadInfo, file: FileProbe, h: Hashers, checksumChanged: bool)
    returns (r: Result<DownloadInfo, ApplyError>)
    ensures !checksumChanged ==> r == Ok(info)
    ensures checksumChanged && DoVerifyChecksum(info.checksum, file, h).Err? ==> r == Err(BadChecksumType)
    ensures checksumChanged && DoVerifyChecksum(info.checksum, file, h).Ok? ==>
      r == Ok(WithVerdict(info, DoVerifyChecksum(info.checksum, file, h).value))
  {
    if checksumChanged {
      var v := DoVerifyChecksum(info.checksum, file, h);
      if v.Err? {
        return Err(BadChecksumType);
      }
      return Ok(WithVerdict(info, v.value));
    }
    return Ok(info);
  }

  /**
   * The last step of doApplyParams: a new name or directory moves the file
   * first (either failure is thrown), and the record takes the new name
   * and directory only after the move.
   */
  method MoveRenamed(info: DownloadInfo, p: ChangeableParams, move: MoveResult) returns (r: Result<DownloadInfo, ApplyError>)
    ensures (p.fileName.Some? || p.dirPath.Some?) && !move.Moved? ==>
      r == Err(if move.MoveTargetExists? then MoveTargetExistsFailed else MoveFailed)
    ensures !((p.fileName.Some? || p.dirPath.Some?) && !move.Moved?) ==>
      r == Ok(info.(fileName := if p.fileName.Some? then p.fileName.value else info.fileName,
                    dirPath := if p.dirPath.Some? then p.dirPath.value else info.dirPath))
  {
    var newInfo := info;
    if p.fileName.Some? || p.dirPath.Some? {
      match move
      case MoveIoFailure => return Err(MoveFailed);
      case MoveTargetExists => return Err(MoveTargetExistsFailed);
      case Moved =>
      if p.fileName.Some? {
        newInfo := newInfo.(fileName := p.fileName.value);
      }
      if p.dirPath.Some? {
        newInfo := newInfo.(dirPath := p.dirPath.value);
      }
    }
    return Ok(newInfo);
  }

  /**
   * doApplyParams: copies every present field of the patch into the record
   * in turn, re-derives the status when a checksum is given (verifying the
   * file where it still lies), moves the file when the name or directory
   * changes (updating them only after the move), stores the record when
   * anything was present and reports whether the URL changed.
   */
  method DoApplyParams(info: DownloadInfo, params: ChangeableParams, file: FileProbe, move: MoveResult, h: Hashers)
    returns (r: ApplyOutcome)
    ensures ApplyFailure(params, file, move, h).Some? ==> r == Threw(ApplyFailure(params, file, move, h).value)
    ensures ApplyFailure(params, file, move, h).None? ==>
      && r.Applied?
      && r.info == Patched(info, params, file, h)
      && (r.urlChanged <==> params.url.Some?)
      && (r.written <==> ChangesAnything(params))
  {
    var newInfo, changed := CopyPresentFields(info, params);
    var nameChanged := params.fileName.Some?;
    var dirChanged := params.dirPath.Some?;
    var urlChanged := params.url.Some?;
    var checksumChanged := params.checksum.Some?;
    var verified := ApplyVerdict(newInfo, file, h, checksumChanged);
    if verified.Err? {
      return Threw(verified.error);
    }
    if nameChanged || dirChanged {
      changed := true;
    }
    var moved := MoveRenamed(verified.value, params, move);
    if moved.Err? {
      return Threw(moved.error);
    }
    PatchedInSourceOrder(info, params, file, h);
    return Applied(moved.value, urlChanged, changed);
  }

  // ---------------------------------------------------------------------
  // Retry dispatch and the stop policy
  // ---------------------------------------------------------------------

  /**
   * handleStatusCode: a download that ended waiting to retry or waiting for
   * the network is run again; 401 and 407 are left for an authorization
   * step the application does not have, like every other status.
   */
  function HandleStatusCode(s: StatusCode): (rerun: bool)
    ensures rerun <==> s.WaitingToRetry? || s.WaitingForNetwork?
    ensures s == HttpError(HTTP_UNAUTHORIZED) || s == HttpError(HTTP_PROXY_AUTH) ==> !rerun
  {
    match s
    case WaitingToRetry => true
    case WaitingForNetwork => true
    case _ => false
  }

  /** The environment probes the stop policy consults. */
  datatype EnvironmentReadings = EnvironmentReadings(
    roaming: bool,
    metered: bool,
    charging: bool,
    batteryBelowCustomThreshold: bool,
    batteryLow: bool)

  /**
   * checkStopDownloads, built as the source builds it: the roaming verdict
   * is overwritten by the metered verdict when unmetered-only is on, the
   * charging and battery verdicts are or-ed in, and the plain battery
   * control is consulted only without the custom one.
   */
  function CheckStopDownloads(pref: Settings, env: EnvironmentReadings): (stop: bool)
    ensures stop <==>
      || (pref.unmeteredConnectionsOnly && env.metered)
      || (!pref.unmeteredConnectionsOnly && pref.enableRoaming && env.roaming)
      || (pref.onlyCharging && !env.charging)
      || (pref.customBatteryControl && env.batteryBelowCustomThreshold)
      || (!pref.customBatteryControl && pref.batteryControl && env.batteryLow)
  {
    var stop0 := false;
    var stop1 := if pref.enableRoaming then env.roaming else stop0;
    var stop2 := if pref.unmeteredConnectionsOnly then env.metered else stop1;
    var stop3 := if pref.onlyCharging then stop2 || !env.charging else stop2;
    if pref.customBatteryControl then stop3 || env.batteryBelowCustomThreshold
    else if pref.batteryControl then stop3 || env.batteryLow
    else stop3
  }
}
