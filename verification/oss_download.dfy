/** The single-object download tool (`GetFileByUrlTool`) and the retrieval
    step it shares with the batch download tool: from a URL to the bucket,
    endpoint URL and key the OSS client is asked for, and from the client's
    answer to a named, typed download.
 */
module OssDownload {
  import opened Results
  import opened Text
  import opened PosixPath
  import opened Credentials
  import opened OssUrls
  import opened Downloads

  /** What `get_object` returned: the bytes `read()` gave and the
      `Content-Type` header, if any. */
  datatype ObjectReply = ObjectReply(content: seq<byte>, contentType: Option<string>)

  /** The object the tool asks for: the client's endpoint URL, the bucket
      name and the key. */
  datatype Request = Request(endpointUrl: string, bucketName: string, key: string)

  /** The OSS client: `Bucket(auth, endpointUrl, bucketName).get_object(key)`
      then `read()`, or the text of whatever either raised. */
  type Fetcher = (string, string, string) -> Result<ObjectReply>

  const RetrieveFailed: string := "Failed to retrieve file: "
  const DownloadFailed: string := "Failed to download file: "

  /** The request made for a URL that `urlparse` split into `u`, with the
      configured account as fallback. */
  function RequestFor(u: UrlParts, a: Account): (q: Request)
    ensures HasScheme(q.endpointUrl)
    ensures q.key == ParseOssUrl(u).key
    ensures q.bucketName == ChooseBucket(ParseOssUrl(u).bucket, a.bucket)
    ensures q.endpointUrl == ChooseEndpoint(ParseOssUrl(u).endpoint, a.endpoint)
  {
    var loc := ParseOssUrl(u);
    Request(ChooseEndpoint(loc.endpoint, a.endpoint), ChooseBucket(loc.bucket, a.bucket), loc.key)
  }

  /** The part of `_get_file_by_url` after its emptiness check: ask the client
      and name the file after the last component of the key. A failure is
      the client's own message; the caller wraps it. */
  function FetchObject(url: string, a: Account, parse: string -> UrlParts, get: Fetcher): (r: Result<Download>)
    ensures var q := RequestFor(parse(url), a);
            && (r.Err? <==> get(q.endpointUrl, q.bucketName, q.key).Err?)
            && (r.Ok? ==> r.value.filename == Basename(q.key)
                          && r.value.content == get(q.endpointUrl, q.bucketName, q.key).value.content
                          && r.value.size == |r.value.content|)
  {
    var q := RequestFor(parse(url), a);
    match get(q.endpointUrl, q.bucketName, q.key)
    case Err(m) => Err(m)
    case Ok(o) => Ok(Download(o.content, Basename(q.key), o.contentType.GetOr(DefaultContentType), |o.content|))
  }

  /** `_get_file_by_url` of the single tool: `file_url` is the optional tool
      parameter; every error is raised inside the `try` and re-raised with
      the `Failed to retrieve file: ` prefix. */
  function RetrieveSingle(fileUrl: Option<string>, a: Account, parse: string -> UrlParts, get: Fetcher): Result<Download> {
    if !Truthy(fileUrl) then Err(RetrieveFailed + "Missing required parameter: file_url")
    else
      match FetchObject(fileUrl.value, a, parse, get)
      case Err(m) => Err(RetrieveFailed + m)
      case Ok(d) => Ok(d)
  }

  /** The extension the single tool reports when the filename has none: one
      of three image types, or nothing. */
  function ImageExtension(contentType: string): (r: string)
    ensures r != [] <==> contentType in {"image/png", "image/jpeg", "image/gif"}
    ensures r != [] ==> IsImage(contentType) && |r| == 4 && r[0] == '.'
  {
    if contentType == "image/png" then
      assert contentType[..6] == ImagePrefix;
      ".png"
    else if contentType == "image/jpeg" then
      assert contentType[..6] == ImagePrefix;
      ".jpg"
    else if contentType == "image/gif" then
      assert contentType[..6] == ImagePrefix;
      ".gif"
    else ""
  }

  /** `_invoke`: the credential check, the retrieval, then the blob and its
      metadata. Every failure is reported as `Failed to download file: `
      followed by the raised message (the success text with the size in MB is
      not modelled). */
  function InvokeSingle(c: Creds, fileUrl: Option<string>, parse: string -> UrlParts, get: Fetcher): (r: Result<(Download, FileMetadata)>)
    ensures r.Err? ==> StartsWith(r.message, DownloadFailed)
    ensures r.Ok? ==> r.value.1 == MetadataOf(r.value.0, ResolveExtension(r.value.0.filename, ImageExtension(r.value.0.contentType)))
  {
    match CheckTool(c)
    case Err(m) =>
      assert (DownloadFailed + m)[..|DownloadFailed|] == DownloadFailed;
      Err(DownloadFailed + m)
    case Ok(a) =>
      match RetrieveSingle(fileUrl, a, parse, get)
      case Err(m) =>
        assert (DownloadFailed + m)[..|DownloadFailed|] == DownloadFailed;
        Err(DownloadFailed + m)
      case Ok(d) =>
        Ok((d, MetadataOf(d, ResolveExtension(d.filename, ImageExtension(d.contentType)))))
  }

  // ---------------------------------------------------------------------------
  // Properties

  /** A missing URL is reported, with both prefixes, before the client is
      consulted. */
  lemma MissingUrlRejected(c: Creds, fileUrl: Option<string>, parse: string -> UrlParts, parse2: string -> UrlParts,
                            get: Fetcher, get2: Fetcher)
    requires CheckTool(c).Ok? && !Truthy(fileUrl)
    ensures InvokeSingle(c, fileUrl, parse, get) == InvokeSingle(c, fileUrl, parse2, get2)
    ensures InvokeSingle(c, fileUrl, parse, get) == Err(DownloadFailed + RetrieveFailed + "Missing required parameter: file_url")
  {
  }

  /** A client failure reaches the user with both prefixes and its own text. */
  lemma ClientFailureReported(c: Creds, url: string, parse: string -> UrlParts, get: Fetcher)
    requires CheckTool(c).Ok? && url != []
    requires var q := RequestFor(parse(url), CheckTool(c).value);
             get(q.endpointUrl, q.bucketName, q.key).Err?
    ensures var q := RequestFor(parse(url), CheckTool(c).value);
            InvokeSingle(c, Some(url), parse, get) == Err(DownloadFailed + RetrieveFailed + get(q.endpointUrl, q.bucketName, q.key).message)
  {
    var a := CheckTool(c).value;
    var q := RequestFor(parse(url), a);
    var m := get(q.endpointUrl, q.bucketName, q.key).message;
    assert RetrieveSingle(Some(url), a, parse, get) == Err(RetrieveFailed + m);
    InvokeAfterCheck(c, Some(url), parse, get);
    assert DownloadFailed + (RetrieveFailed + m) == DownloadFailed + RetrieveFailed + m;
  }

  /** Past a successful credential check, the tool's answer is the retrieval's,
      with the download prefix on a failure. */
  lemma InvokeAfterCheck(c: Creds, fileUrl: Option<string>, parse: string -> UrlParts, get: Fetcher)
    requires CheckTool(c).Ok?
    ensures var t := RetrieveSingle(fileUrl, CheckTool(c).value, parse, get);
            && (t.Err? ==> InvokeSingle(c, fileUrl, parse, get) == Err(DownloadFailed + t.message))
            && (t.Ok? ==> InvokeSingle(c, fileUrl, parse, get).Ok? && InvokeSingle(c, fileUrl, parse, get).value.0 == t.value)
  {
  }

  /** A download's name is the last path component of the key and its type
      the header's, or `application/octet-stream` without one. */
  lemma DownloadShape(c: Creds, url: string, parse: string -> UrlParts, get: Fetcher)
    requires InvokeSingle(c, Some(url), parse, get).Ok?
    ensures var q := RequestFor(parse(url), CheckTool(c).value);
            var o := get(q.endpointUrl, q.bucketName, q.key);
            var d := InvokeSingle(c, Some(url), parse, get).value.0;
            && o.Ok?
            && d == Download(o.value.content, Basename(q.key), o.value.contentType.GetOr(DefaultContentType), |o.value.content|)
            && '/' !in d.filename
  {
    assert CheckTool(c).Ok?;
    InvokeAfterCheck(c, Some(url), parse, get);
    assert FetchObject(url, CheckTool(c).value, parse, get).Ok?;
  }

  /** A filename without an extension gets one only for PNG, JPEG and GIF. */
  lemma ImageFallbackOnly(filename: string, contentType: string)
    requires Splitext(filename).1 == []
    ensures ResolveExtension(filename, ImageExtension(contentType)) != [] <==> contentType in {"image/png", "image/jpeg", "image/gif"}
  {
  }

  /** The URL an upload reports leads the download to the same bucket and key,
      at the endpoint it names (given `http://` when it has no scheme), for
      plain hosts with no `.` in the bucket and a plain key with no `%` and
      no leading `/`. */
  lemma UploadedUrlRequest(useHttps: bool, bucket: string, endpoint: string, key: string, a: Account)
    requires bucket != [] && '.' !in bucket && PlainHost(bucket) && PlainHost(endpoint)
    requires PlainKeyText(key) && '%' !in key && (key == [] || key[0] != '/')
    ensures RequestFor(StandardParts(useHttps, bucket, endpoint, "/" + key), a)
         == Request(EnsureScheme(if endpoint != [] then endpoint else a.endpoint), bucket, key)
  {
    FileUrlRoundTrip(useHttps, bucket, endpoint, key);
  }

  /** A URL whose host has no `.` (a custom domain) falls back to the
      configured bucket and endpoint. */
  lemma CustomDomainUsesAccount(u: UrlParts, a: Account)
    requires u.hostname.None? || '.' !in u.hostname.value
    ensures RequestFor(u, a) == Request(EnsureScheme(a.endpoint), a.bucket, ParseOssUrl(u).key)
  {
  }
}
