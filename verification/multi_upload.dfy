/** The batch upload tool (`MultiUploadFilesTool`): parameter validation,
    one upload attempt per file with failures kept to their own entry, and
    the summary `_invoke` builds from the per-file results.
 */
module BatchUpload {
  import opened Results
  import opened Text
  import opened Clock
  import opened Credentials
  import opened ObjectKeys
  import opened UploadNaming
  import opened OssUrls

  /** The tool parameters; `files` is empty when absent. */
  datatype BatchParams = BatchParams(
    files: seq<FileEntry>, directory: Option<string>,
    directoryMode: Option<string>, filenameMode: Option<string>,
    signed: bool, signedExpiry: Option<int>)

  /** A store call: `put_object(key, bytes)` or `put_object_from_file(key, path)`. */
  datatype StoreRequest = PutBytes(key: string, content: seq<byte>) | PutFile(key: string, path: string)

  /** What the tool observes outside its parameters: the `utils` helpers
      `get_file_type` and `get_file_extension`, the two `datetime.now()`
      readings taken for the `i`-th file (timestamp, then key date), the
      store call and `sign_url(GET, key, expires)`. */
  datatype BatchEnv = BatchEnv(
    fileType: FileEntry -> string, fileExtension: FileEntry -> string,
    stampClock: nat -> Moment, keyClock: nat -> Moment,
    store: StoreRequest -> Outcome, sign: (string, int) -> Result<string>)

  /** One entry of the result list. */
  datatype ItemResult =
    | Uploaded(fileUrl: string, filename: string, objectKey: string, fileType: string, sizeBytes: nat, sourceName: string)
    | Failed(error: string, fileIndex: nat, filename: string)

  const MaxFiles: nat := 10
  const BatchFailed: string := "Failed to upload files: "

  /** The checks `_upload_files` makes before it touches any file; on
      success, the directory with surrounding whitespace removed. */
  function ValidateBatch(p: BatchParams): Result<string> {
    if |p.files| == 0 then Err("Missing required parameter: files")
    else if !Truthy(p.directory) then Err("Missing required parameter: directory")
    else if |p.files| > MaxFiles then Err("Maximum number of files allowed is 10")
    else
      var d := Strip(p.directory.value);
      if StartsWith(d, " ") || StartsWith(d, "/") || StartsWith(d, "\\") then
        Err("Directory cannot start with space, / or \\ ")
      else Ok(d)
  }

  /** The size the tool records: the blob's length, what is left to read
      from the stream's position, the size of an existing path, or 0. */
  function SizeOf(s: FileSource): nat {
    match s
    case DifyFile(blob) => |blob|
    case Readable(content, position) => if position <= |content| then |content| - position else 0
    case PathRef(_, onDisk, size) => if onDisk then size else 0
    case Unsupported(_) => 0
  }

  /** The store call for a file, or the error raised for an unsupported object. */
  function StoreRequestFor(s: FileSource, key: string): Result<StoreRequest> {
    match s
    case DifyFile(blob) => Ok(PutBytes(key, blob))
    case Readable(content, _) => Ok(PutBytes(key, content))
    case PathRef(path, _, _) => Ok(PutFile(key, path))
    case Unsupported(t) => Err("Unsupported file type: " + t + ". Expected file-like object or path.")
  }

  function ItemLabel(i: nat): string {
    "file_" + Decimal(i + 1)
  }

  /** The parameters every file of a batch shares, with their defaults
      applied. */
  datatype ItemOptions = ItemOptions(directoryMode: string, filenameMode: string, signed: bool, expiry: int)

  function OptionsOf(p: BatchParams): ItemOptions {
    ItemOptions(p.directoryMode.GetOr("no_subdirectory"), p.filenameMode.GetOr("filename"),
                p.signed, p.signedExpiry.GetOr(3600))
  }

  /** The attempt for file `e` at position `i` of `count`: name, key, store,
      URL. A store failure is reported with the file's one-based position; a
      signing failure is reported as raised. The URL is always `https`,
      because the credentials the tool passes on have no `use_https` entry. */
  function UploadItem(e: FileEntry, i: nat, count: nat, o: ItemOptions, d: string, a: Account, env: BatchEnv): (r: ItemResult)
    ensures r.Failed? ==> r.fileIndex == i && r.filename == ItemLabel(i)
    ensures r.Uploaded? ==> r.filename == BatchFilename(e, i, count, o.filenameMode, env.stampClock(i), env.fileExtension)
    ensures r.Uploaded? ==> r.objectKey == GenerateObjectKey(d, o.directoryMode, r.filename, env.keyClock(i))
    ensures r.Uploaded? ==> StoreRequestFor(e.source, r.objectKey).Ok? && env.store(StoreRequestFor(e.source, r.objectKey).value) == Pass
    ensures r.Uploaded? && !o.signed ==> r.fileUrl == FileUrl(true, a.bucket, a.endpoint, r.objectKey)
    ensures r.Uploaded? && o.signed ==> env.sign(r.objectKey, o.expiry) == Ok(r.fileUrl)
    ensures r.Uploaded? ==> r.sizeBytes == SizeOf(e.source) && r.sourceName == HintOf(e, i, count).sourceName
  {
    var name := BatchFilename(e, i, count, o.filenameMode, env.stampClock(i), env.fileExtension);
    var key := GenerateObjectKey(d, o.directoryMode, name, env.keyClock(i));
    var stored := match StoreRequestFor(e.source, key)
      case Err(m) => Fail(m)
      case Ok(req) => env.store(req);
    match stored
    case Fail(m) => Failed("Failed to upload file " + Decimal(i + 1) + ": " + m, i, ItemLabel(i))
    case Pass =>
      var source := HintOf(e, i, count).sourceName;
      if !o.signed then
        Uploaded(FileUrl(true, a.bucket, a.endpoint, key), name, key, env.fileType(e), SizeOf(e.source), source)
      else
        match env.sign(key, o.expiry)
        case Err(m) => Failed(m, i, ItemLabel(i))
        case Ok(url) => Uploaded(url, name, key, env.fileType(e), SizeOf(e.source), source)
  }

  /** An object of an unsupported kind never reaches the store: it fails
      with its type text under its one-based position, whatever the store
      would do. */
  lemma UnsupportedNeverStored(e: FileEntry, i: nat, count: nat, o: ItemOptions, d: string, a: Account,
                               env: BatchEnv, env2: BatchEnv)
    requires e.source.Unsupported?
    requires env2 == env.(store := env2.store)
    ensures UploadItem(e, i, count, o, d, a, env) == UploadItem(e, i, count, o, d, a, env2)
    ensures UploadItem(e, i, count, o, d, a, env)
         == Failed("Failed to upload file " + Decimal(i + 1) + ": "
                   + ("Unsupported file type: " + e.source.typeText + ". Expected file-like object or path."),
                   i, ItemLabel(i))
  {
  }

  /** A store failure is reported with the file's one-based position and the
      store's own message, and nothing is signed. */
  lemma StoreFailureReported(e: FileEntry, i: nat, count: nat, o: ItemOptions, d: string, a: Account, env: BatchEnv,
                             key: string, m: string)
    requires key == GenerateObjectKey(d, o.directoryMode, BatchFilename(e, i, count, o.filenameMode, env.stampClock(i), env.fileExtension), env.keyClock(i))
    requires StoreRequestFor(e.source, key).Ok? && env.store(StoreRequestFor(e.source, key).value) == Fail(m)
    ensures UploadItem(e, i, count, o, d, a, env) == Failed("Failed to upload file " + Decimal(i + 1) + ": " + m, i, ItemLabel(i))
  {
  }

  /** A file the store accepts is reported as uploaded, under its generated
      name and key, with the static `https` URL or the URL signing returned;
      only a signing failure turns it into an error under its position. */
  lemma StoreSuccessReported(e: FileEntry, i: nat, count: nat, o: ItemOptions, d: string, a: Account, env: BatchEnv,
                             name: string, key: string)
    requires name == BatchFilename(e, i, count, o.filenameMode, env.stampClock(i), env.fileExtension)
    requires key == GenerateObjectKey(d, o.directoryMode, name, env.keyClock(i))
    requires StoreRequestFor(e.source, key).Ok? && env.store(StoreRequestFor(e.source, key).value) == Pass
    ensures !o.signed ==>
              (UploadItem(e, i, count, o, d, a, env)
               == Uploaded(FileUrl(true, a.bucket, a.endpoint, key), name, key, env.fileType(e), SizeOf(e.source),
                           HintOf(e, i, count).sourceName))
    ensures o.signed && env.sign(key, o.expiry).Ok? ==>
              (UploadItem(e, i, count, o, d, a, env)
               == Uploaded(env.sign(key, o.expiry).value, name, key, env.fileType(e), SizeOf(e.source),
                           HintOf(e, i, count).sourceName))
    ensures o.signed && env.sign(key, o.expiry).Err? ==>
              (UploadItem(e, i, count, o, d, a, env) == Failed(env.sign(key, o.expiry).message, i, ItemLabel(i)))
  {
  }

  /** One attempt per file, in input order. */
  function UploadAll(files: seq<FileEntry>, o: ItemOptions, d: string, a: Account, env: BatchEnv): (rs: seq<ItemResult>)
    ensures |rs| == |files|
    ensures forall k :: 0 <= k < |files| ==> rs[k] == UploadItem(files[k], k, |files|, o, d, a, env)
  {
    seq(|files|, k requires 0 <= k < |files| => UploadItem(files[k], k, |files|, o, d, a, env))
  }

  /** `_upload_files`: validation, the authentication-field check, then one
      attempt per file. Errors are prefixed with `Failed to upload files: `. */
  function UploadFiles(p: BatchParams, c: Creds, env: BatchEnv): Result<seq<ItemResult>> {
    match ValidateBatch(p)
    case Err(m) => Err(BatchFailed + m)
    case Ok(d) =>
      var i := FirstMissing(c, ToolOrder);
      if i < |ToolOrder| then Err(BatchFailed + "Missing required authentication parameter: " + Name(ToolOrder[i]))
      else
        match CheckTool(c)
        case Ok(a) => Ok(UploadAll(p.files, OptionsOf(p), d, a, env))
        case Err(_) => assert false; Err("")
  }

  // ---------------------------------------------------------------------------
  // The summary `_invoke` builds

  /** One element of `files` in the JSON reply (the size in MB, a rounded
      float, is not modelled). */
  datatype FileInfo =
    | SuccessInfo(filename: string, fileType: string, fileUrl: string, sizeBytes: nat)
    | ErrorInfo(filename: string, error: string)

  function InfoOf(r: ItemResult): FileInfo {
    match r
    case Uploaded(url, name, _, fileType, size, _) => SuccessInfo(name, fileType, url, size)
    case Failed(error, _, name) => ErrorInfo(name, error)
  }

  function FilesInfo(rs: seq<ItemResult>): seq<FileInfo> {
    if rs == [] then [] else [InfoOf(rs[0])] + FilesInfo(rs[1..])
  }

  function CountSuccess(rs: seq<ItemResult>): nat {
    if rs == [] then 0 else (if rs[0].Uploaded? then 1 else 0) + CountSuccess(rs[1..])
  }

  function CountErrors(rs: seq<ItemResult>): nat {
    if rs == [] then 0 else (if rs[0].Failed? then 1 else 0) + CountErrors(rs[1..])
  }

  datatype BatchReport = BatchReport(successCount: nat, errorCount: nat, files: seq<FileInfo>)

  /** `_invoke`: the credential check, `_upload_files`, and the counts and
      file list of the JSON reply. Every failure is prefixed once more. */
  function RunBatch(c: Creds, p: BatchParams, env: BatchEnv): Result<BatchReport> {
    match CheckTool(c)
    case Err(m) => Err(BatchFailed + m)
    case Ok(_) =>
      match UploadFiles(p, c, env)
      case Err(m) => Err(BatchFailed + m)
      case Ok(rs) => Ok(BatchReport(CountSuccess(rs), CountErrors(rs), FilesInfo(rs)))
  }

  // ---------------------------------------------------------------------------
  // Properties

  /** Every result is a success or an error, so the two counts add up. */
  lemma {:induction false} CountsAddUp(rs: seq<ItemResult>)
    ensures CountSuccess(rs) + CountErrors(rs) == |rs|
  {
    if rs != [] {
      CountsAddUp(rs[1..]);
    }
  }

  /** The file list has one entry per result, in the same order, with the
      same status and filename. */
  lemma {:induction false} FilesInfoMatches(rs: seq<ItemResult>)
    ensures |FilesInfo(rs)| == |rs|
    ensures forall k :: 0 <= k < |rs| ==> (FilesInfo(rs)[k].SuccessInfo? <==> rs[k].Uploaded?)
    ensures forall k :: 0 <= k < |rs| ==> FilesInfo(rs)[k].filename == rs[k].filename
  {
    if rs != [] {
      var tail := rs[1..];
      FilesInfoMatches(tail);
      assert FilesInfo(rs) == [InfoOf(rs[0])] + FilesInfo(tail);
      forall k | 1 <= k < |rs|
        ensures FilesInfo(rs)[k] == FilesInfo(tail)[k - 1] && rs[k] == tail[k - 1]
      {
      }
    }
  }

  /** A failed validation stops the tool before any file is named, stored or
      signed: the environment does not matter, and the message carries the
      prefix twice. */
  lemma ValidationStopsEarly(c: Creds, p: BatchParams, env: BatchEnv, env2: BatchEnv)
    requires CheckTool(c).Ok? && ValidateBatch(p).Err?
    ensures RunBatch(c, p, env) == RunBatch(c, p, env2)
    ensures RunBatch(c, p, env) == Err(BatchFailed + BatchFailed + ValidateBatch(p).message)
  {
  }

  /** The validation order: no files, then no directory, then too many files. */
  lemma ValidationOrder(p: BatchParams)
    ensures |p.files| == 0 ==> ValidateBatch(p) == Err("Missing required parameter: files")
    ensures |p.files| > 0 && !Truthy(p.directory) ==> ValidateBatch(p) == Err("Missing required parameter: directory")
    ensures |p.files| > MaxFiles && Truthy(p.directory) ==> ValidateBatch(p) == Err("Maximum number of files allowed is 10")
  {
  }

  /** `strip()` leaves no whitespace in front, so the leading-space test can
      never fire. */
  lemma StrippedNeverStartsWithSpace(s: string)
    ensures !StartsWith(Strip(s), " ")
  {
    var r := Strip(s);
    if r != [] {
      assert !IsSpace(r[0]);
      NotStartsWithChar(r, ' ');
    }
  }

  /** For one to ten files and a truthy directory, the directory is rejected
      exactly when, stripped of whitespace, it starts with `/` or `\`; a
      directory of nothing but whitespace passes as the empty directory. */
  lemma DirectoryRule(p: BatchParams)
    requires 0 < |p.files| <= MaxFiles && Truthy(p.directory)
    ensures ValidateBatch(p).Err? <==> StartsWith(Strip(p.directory.value), "/") || StartsWith(Strip(p.directory.value), "\\")
    ensures ValidateBatch(p).Ok? ==> ValidateBatch(p).value == Strip(p.directory.value)
  {
    StrippedNeverStartsWithSpace(p.directory.value);
  }

  /** Once `_invoke`'s credential check has passed, the authentication-field
      check inside `_upload_files` finds nothing missing. */
  lemma AuthCheckUnreachable(c: Creds, p: BatchParams, env: BatchEnv)
    requires CheckTool(c).Ok? && ValidateBatch(p).Ok?
    ensures UploadFiles(p, c, env) == Ok(UploadAll(p.files, OptionsOf(p), ValidateBatch(p).value, CheckTool(c).value, env))
  {
    var i := FirstMissing(c, ToolOrder);
    assert i == |ToolOrder| by {
      assert forall k :: 0 <= k < |ToolOrder| ==> Present(c, ToolOrder[k]);
    }
  }

  /** After validation there is exactly one result per file, in input order:
      a failure at position `k` is labelled `file_<k+1>` with index `k`, and
      a success carries the key built from its own filename and clock
      reading. */
  lemma ResultsPerFile(c: Creds, p: BatchParams, env: BatchEnv)
    requires UploadFiles(p, c, env).Ok?
    ensures var rs := UploadFiles(p, c, env).value;
            && |rs| == |p.files|
            && (forall k :: 0 <= k < |rs| && rs[k].Failed? ==> rs[k].fileIndex == k && rs[k].filename == ItemLabel(k))
            && (forall k :: 0 <= k < |rs| && rs[k].Uploaded? ==>
                 rs[k].objectKey == GenerateObjectKey(Strip(p.directory.value), p.directoryMode.GetOr("no_subdirectory"),
                                                      rs[k].filename, env.keyClock(k)))
  {
    DirectoryRule(p);
    AuthCheckUnreachable(c, p, env);
  }

  /** The store accepts file `e` at position `i` of `count` under the key
      generated for it. */
  predicate StoreAccepts(e: FileEntry, i: nat, count: nat, o: ItemOptions, d: string, env: BatchEnv) {
    var key := GenerateObjectKey(d, o.directoryMode, BatchFilename(e, i, count, o.filenameMode, env.stampClock(i), env.fileExtension), env.keyClock(i));
    StoreRequestFor(e.source, key).Ok? && env.store(StoreRequestFor(e.source, key).value) == Pass
  }

  /** Among the attempts of an unsigned batch, every file the store accepts
      is reported as uploaded, whatever happened to the other files. */
  lemma AcceptedItemUploaded(files: seq<FileEntry>, o: ItemOptions, d: string, a: Account, env: BatchEnv, k: nat)
    requires k < |files| && !o.signed && StoreAccepts(files[k], k, |files|, o, d, env)
    ensures UploadAll(files, o, d, a, env)[k].Uploaded?
  {
    var e := files[k];
    var name := BatchFilename(e, k, |files|, o.filenameMode, env.stampClock(k), env.fileExtension);
    StoreSuccessReported(e, k, |files|, o, d, a, env, name, GenerateObjectKey(d, o.directoryMode, name, env.keyClock(k)));
  }

  /** The same for the tool's validated batch. */
  lemma AcceptedFileUploaded(c: Creds, p: BatchParams, env: BatchEnv, k: nat)
    requires CheckTool(c).Ok? && ValidateBatch(p).Ok? && k < |p.files| && !p.signed
    requires StoreAccepts(p.files[k], k, |p.files|, OptionsOf(p), ValidateBatch(p).value, env)
    ensures UploadFiles(p, c, env).Ok? && k < |UploadFiles(p, c, env).value|
    ensures UploadFiles(p, c, env).value[k].Uploaded?
  {
    AuthCheckUnreachable(c, p, env);
    AcceptedItemUploaded(p.files, OptionsOf(p), ValidateBatch(p).value, CheckTool(c).value, env, k);
  }

  /** A failure stays with its own file: the result for position `k` depends
      only on that file and the batch size, not on the other files. */
  lemma FailureIsolation(p: BatchParams, q: BatchParams, d: string, a: Account, env: BatchEnv, k: nat)
    requires |p.files| == |q.files| && k < |p.files| && p.files[k] == q.files[k]
    requires q == p.(files := q.files)
    ensures UploadAll(p.files, OptionsOf(p), d, a, env)[k] == UploadAll(q.files, OptionsOf(q), d, a, env)[k]
  {
    assert OptionsOf(p) == OptionsOf(q);
  }

  /** The reply's counts add up to the number of files, and its file list
      has one entry per file. */
  lemma ReportAccountsForEveryFile(c: Creds, p: BatchParams, env: BatchEnv)
    requires RunBatch(c, p, env).Ok?
    ensures var r := RunBatch(c, p, env).value;
            && r.successCount + r.errorCount == |p.files|
            && |r.files| == |p.files|
            && 0 < |p.files| <= MaxFiles
  {
    var rs := UploadFiles(p, c, env).value;
    CountsAddUp(rs);
    FilesInfoMatches(rs);
  }
}
