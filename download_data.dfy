/**
 * The records the download engine works on: the stored download, the
 * sparse parameter patch, the status codes and the preferences it reads.
 */
module DownloadData {
  import opened Wrappers

  /** A java.util.UUID: two 64-bit halves. */
  datatype Uuid = Uuid(mostSigBits: int, leastSigBits: int)

  /**
   * The lifecycle status of a download. Codes that come from an HTTP
   * response are kept as `HttpError(code)`; 401 and 407 are the two the
   * engine singles out.
   */
  datatype StatusCode =
    | Pending
    | Running
    | Paused
    | Stopped
    | WaitingToRetry
    | WaitingForNetwork
    | Success
    | ChecksumError
    | HttpError(code: int)
    | UnknownError

  const HTTP_UNAUTHORIZED: int := 401
  const HTTP_PROXY_AUTH: int := 407

  predicate IsStatusStoppedOrPaused(s: StatusCode) {
    s.Paused? || s.Stopped?
  }

  predicate IsStatusError(s: StatusCode) {
    s.ChecksumError? || s.HttpError? || s.UnknownError?
  }

  /** The nullable status message; the one the engine writes is a string resource. */
  datatype StatusMsg = NoMsg | VerifyChecksumError | Text(text: string)

  /** The stored record of one download. */
  datatype DownloadInfo = DownloadInfo(
    id: Uuid,
    url: string,
    description: string,
    dirPath: string,
    fileName: string,
    mimeType: string,
    statusCode: StatusCode,
    statusMsg: StatusMsg,
    checksum: Option<string>,
    unmeteredConnectionsOnly: bool,
    retry: bool,
    uncompressArchive: bool)

  /** A sparse patch of a download: `None` is "no change" for that field. */
  datatype ChangeableParams = ChangeableParams(
    url: Option<string>,
    fileName: Option<string>,
    description: Option<string>,
    dirPath: Option<string>,
    unmeteredConnectionsOnly: Option<bool>,
    retry: Option<bool>,
    checksum: Option<string>)

  /** The preferences the engine reads. */
  datatype Settings = Settings(
    maxActiveDownloads: int,
    moveAfterDownload: bool,
    moveAfterDownloadIn: Option<string>,
    batteryControl: bool,
    customBatteryControl: bool,
    customBatteryControlValue: int,
    onlyCharging: bool,
    unmeteredConnectionsOnly: bool,
    enableRoaming: bool)

  /** TextUtils.isEmpty: null or the empty string. */
  predicate IsEmpty(s: Option<string>) {
    s.None? || s.value == ""
  }
}
