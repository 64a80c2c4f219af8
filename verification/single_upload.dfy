/** The single-file upload tool (`UploadFileTool`): required parameters,
    the filename rules, the object key, the store call and the URL it
    reports, with the error messages each step raises.
 */
module SingleUpload {
  import opened Results
  import opened Text
  import opened Clock
  import opened Credentials
  import opened ObjectKeys
  import opened UploadNaming
  import opened OssUrls

  /** The tool parameters; an absent key is `None`. */
  datatype UploadParams = UploadParams(
    file: Option<string>, directory: Option<string>, directoryMode: Option<string>,
    filename: Option<string>, filenameMode: Option<string>)

  /** What the tool observes outside the parameters: `os.path.exists`,
      `int(time.time())`, the `datetime.now()` the key is built from, and
      `put_object_from_file(key, path)`. */
  datatype UploadEnv = UploadEnv(
    pathExists: string -> bool, seconds: nat, today: Moment,
    putFile: (string, string) -> Outcome)

  /** The success payload: `file_url`, `filename` and `object_key`. */
  datatype Receipt = Receipt(fileUrl: string, filename: string, objectKey: string)

  const UploadFailed: string := "Failed to upload file: "

  /** `_upload_file`; every error it raises is caught by its own handler and
      re-raised with the `Failed to upload file: ` prefix. */
  function UploadFileBody(p: UploadParams, account: Account, useHttps: Option<bool>, env: UploadEnv): Result<Receipt> {
    if !Truthy(p.file) then Err(UploadFailed + "Missing required parameter: file")
    else if !Truthy(p.directory) then Err(UploadFailed + "Missing required parameter: directory")
    else if !env.pathExists(p.file.value) then Err(UploadFailed + "File not found: " + p.file.value)
    else
      var name := SingleFilename(p.file.value, p.filename, p.filenameMode.GetOr("filename"), env.seconds);
      var key := GenerateObjectKey(p.directory.value, p.directoryMode.GetOr("no_subdirectory"), name, env.today);
      match env.putFile(key, p.file.value)
      case Fail(m) => Err(UploadFailed + m)
      case Pass => Ok(Receipt(FileUrl(useHttps.GetOr(true), account.bucket, account.endpoint, key), name, key))
  }

  /** `_invoke`: the credential check, then `_upload_file`; whatever either
      raises is prefixed once more. */
  function InvokeUpload(c: Creds, p: UploadParams, env: UploadEnv): (r: Result<Receipt>)
    ensures r.Err? ==> StartsWith(r.message, UploadFailed)
  {
    match CheckTool(c)
    case Err(m) =>
      assert (UploadFailed + m)[..|UploadFailed|] == UploadFailed;
      Err(UploadFailed + m)
    case Ok(a) =>
      match UploadFileBody(p, a, c.useHttps, env)
      case Err(m) =>
        assert (UploadFailed + m)[..|UploadFailed|] == UploadFailed;
        Err(UploadFailed + m)
      case Ok(receipt) => Ok(receipt)
  }

  /** A missing `file` or `directory` is reported, doubly prefixed, before
      the file system, the clock or OSS are consulted. */
  lemma MissingParameterRejected(c: Creds, p: UploadParams, env: UploadEnv, env2: UploadEnv)
    requires CheckTool(c).Ok?
    requires !Truthy(p.file) || !Truthy(p.directory)
    ensures InvokeUpload(c, p, env) == InvokeUpload(c, p, env2)
    ensures !Truthy(p.file) ==> InvokeUpload(c, p, env) == Err(UploadFailed + UploadFailed + "Missing required parameter: file")
    ensures Truthy(p.file) ==> InvokeUpload(c, p, env) == Err(UploadFailed + UploadFailed + "Missing required parameter: directory")
  {
  }

  /** A path that does not exist is reported before anything is stored. */
  lemma MissingFileRejected(c: Creds, p: UploadParams, env: UploadEnv)
    requires CheckTool(c).Ok? && Truthy(p.file) && Truthy(p.directory)
    requires !env.pathExists(p.file.value)
    ensures InvokeUpload(c, p, env) == Err(UploadFailed + UploadFailed + "File not found: " + p.file.value)
  {
  }

  /** A store failure reaches the caller, doubly prefixed, with the store's
      own message. */
  lemma StoreFailureReported(c: Creds, p: UploadParams, env: UploadEnv, m: string)
    requires CheckTool(c).Ok? && Truthy(p.file) && Truthy(p.directory) && env.pathExists(p.file.value)
    requires var name := SingleFilename(p.file.value, p.filename, p.filenameMode.GetOr("filename"), env.seconds);
             env.putFile(GenerateObjectKey(p.directory.value, p.directoryMode.GetOr("no_subdirectory"), name, env.today), p.file.value) == Fail(m)
    ensures InvokeUpload(c, p, env) == Err(UploadFailed + (UploadFailed + m))
  {
  }

  /** A successful upload stores under the generated key, names the file by
      the single-file rules, and reports `https` unless `use_https` is false. */
  lemma ReceiptShape(c: Creds, p: UploadParams, env: UploadEnv)
    requires InvokeUpload(c, p, env).Ok?
    ensures Truthy(p.file) && Truthy(p.directory) && env.pathExists(p.file.value)
    ensures var r := InvokeUpload(c, p, env).value;
            && r.filename == SingleFilename(p.file.value, p.filename, p.filenameMode.GetOr("filename"), env.seconds)
            && r.objectKey == GenerateObjectKey(p.directory.value, p.directoryMode.GetOr("no_subdirectory"), r.filename, env.today)
            && '\\' !in r.objectKey
            && env.putFile(r.objectKey, p.file.value) == Pass
            && r.fileUrl == FileUrl(c.useHttps != Some(false), c.bucket.value, c.endpoint.value, r.objectKey)
  {
  }

  /** The reported URL leads back to the bucket, endpoint and key: read by the
      download tools' `_parse_oss_url`, the `urlparse` record of the URL gives
      what was stored, when bucket and endpoint are plain hosts, the bucket
      has no `.`, and the key is plain text with no `%` and no leading `/`. */
  lemma ReceiptUrlParsesBack(c: Creds, p: UploadParams, env: UploadEnv)
    requires InvokeUpload(c, p, env).Ok?
    requires '.' !in c.bucket.value && PlainHost(c.bucket.value) && PlainHost(c.endpoint.value)
    requires PlainKeyText(InvokeUpload(c, p, env).value.objectKey)
    requires '%' !in InvokeUpload(c, p, env).value.objectKey
    requires !StartsWith(InvokeUpload(c, p, env).value.objectKey, "/")
    ensures var r := InvokeUpload(c, p, env).value;
            var parts := StandardParts(c.useHttps != Some(false), c.bucket.value, c.endpoint.value, "/" + r.objectKey);
            && Render(parts) == r.fileUrl
            && ParseOssUrl(parts) == OssLocation(Some(c.bucket.value), Some(c.endpoint.value), r.objectKey)
  {
    var r := InvokeUpload(c, p, env).value;
    ReceiptShape(c, p, env);
    var key := r.objectKey;
    assert key == [] || key[0] != '/' by {
      if key != [] { NotStartsWithCharConverse(key, '/'); }
    }
    FileUrlRoundTrip(c.useHttps != Some(false), c.bucket.value, c.endpoint.value, key);
  }

  lemma NotStartsWithCharConverse(s: string, ch: char)
    requires s != [] && !StartsWith(s, [ch])
    ensures s[0] != ch
  {
    assert s[..1] == [s[0]];
  }
}
