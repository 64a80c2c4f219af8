/** The public download tool (`GetPublicFileByUrlTool`): a plain HTTP GET of
    any URL with a scheme and a network location, the media type of the
    response, and the filename taken from the URL path, the
    `Content-Disposition` header, or made up from the content type.
 */
module PublicFetch {
  import opened Results
  import opened Text
  import opened PosixPath
  import opened Percent
  import opened OssUrls
  import opened Downloads

  /** The parts of a response the tool reads: the body (after
      `raise_for_status` let it through) and two optional headers. */
  datatype HttpResponse = HttpResponse(content: seq<byte>, contentType: Option<string>, disposition: Option<string>)

  /** `requests.get(url, headers=..., timeout=30)` followed by
      `raise_for_status()`: a response, or the text of the `RequestException`
      either raised. */
  type HttpGet = string -> Result<HttpResponse>

  const PublicFailed: string := "Failed to download public file: "
  const UnexpectedError: string := "Unexpected error while retrieving file: "
  const RequestFailed: string := "Failed to retrieve file from URL: "
  const FallbackName: string := "downloaded_file"

  // ---------------------------------------------------------------------------
  // The media type

  /** A `Content-Type` containing `;` is cut to the stripped text before the
      first `;`; any other value is kept as it is. */
  function MediaType(contentType: string): (r: string)
    ensures ';' !in r
    ensures ';' !in contentType ==> r == contentType
    ensures ';' in contentType ==> r == Strip(contentType[..FirstIndex(contentType, ';')])
  {
    if ';' in contentType then
      var first := contentType[..FirstIndex(contentType, ';')];
      var r := Strip(first);
      assert forall i :: 0 <= i < |r| ==> r[i] == first[LeadingSpace(first) + i];
      r
    else contentType
  }

  /** Cutting a media type again changes nothing. */
  lemma MediaTypeIdempotent(contentType: string)
    ensures MediaType(MediaType(contentType)) == MediaType(contentType)
  {
  }

  /** The parameters after `;` never reach the reported type. */
  lemma MediaTypeIgnoresParameters(t: string, params: string)
    requires ';' !in t
    ensures MediaType(t + ";" + params) == Strip(t)
  {
    var s := t + ";" + params;
    assert s[|t|] == ';';
    assert s[..|t|] == t;
    assert FirstIndex(s, ';') == |t|;
  }

  // ---------------------------------------------------------------------------
  // The `Content-Disposition` search

  /** The characters of the captured group `[^"';\s]+`. */
  predicate IsNameChar(c: char) {
    c != '"' && c != '\'' && c != ';' && !IsSpace(c)
  }

  /** The length of the longest run of name characters from `i`. */
  function NameRun(s: string, i: nat): (n: nat)
    requires i <= |s|
    ensures i + n <= |s|
    ensures forall j :: i <= j < i + n ==> IsNameChar(s[j])
    ensures i + n == |s| || !IsNameChar(s[i + n])
    decreases |s| - i
  {
    if i < |s| && IsNameChar(s[i]) then 1 + NameRun(s, i + 1) else 0
  }

  const Keyword: string := "filename"

  /** Where the group starts when `filename[*]?=["']?` matches at `p`: after
      `filename`, an optional `*`, `=`, and an optional quote. */
  function GroupStart(s: string, p: nat): (g: Option<nat>)
    requires p <= |s|
    ensures g.Some? ==> p + 9 <= g.value <= |s| && s[p..p + 8] == Keyword
  {
    if p + 8 <= |s| && s[p..p + 8] == Keyword then
      var q := if p + 8 < |s| && s[p + 8] == '*' then p + 9 else p + 8;
      if q < |s| && s[q] == '=' then
        var v := q + 1;
        Some(if v < |s| && (s[v] == '"' || s[v] == '\'') then v + 1 else v)
      else None
    else None
  }

  /** The group `filename[*]?=["']?([^"';\s]+)` captures when it matches at
      `p`, or `None`. The optional quote is given back when no name character
      follows it, but a quote is not a name character, so that never helps. */
  function MatchAt(s: string, p: nat): (m: Option<string>)
    requires p <= |s|
    ensures m.Some? ==> m.value != [] && forall j :: 0 <= j < |m.value| ==> IsNameChar(m.value[j])
  {
    match GroupStart(s, p)
    case None => None
    case Some(g) =>
      var n := NameRun(s, g);
      if n > 0 then Some(s[g..g + n]) else None
  }

  /** `re.search`: the leftmost position from `p` on where the pattern
      matches. */
  function SearchFrom(s: string, p: nat): (r: Option<nat>)
    requires p <= |s|
    ensures r.Some? ==> p <= r.value <= |s| && MatchAt(s, r.value).Some?
    ensures r.Some? ==> forall j :: p <= j < r.value ==> MatchAt(s, j).None?
    ensures r.None? ==> forall j :: p <= j <= |s| ==> MatchAt(s, j).None?
    decreases |s| - p
  {
    if MatchAt(s, p).Some? then Some(p)
    else if p == |s| then None
    else SearchFrom(s, p + 1)
  }

  /** The filename the header gives, or the empty string: the search only
      runs when the header contains `filename=` literally. */
  function DispositionName(d: string): (r: string)
    ensures forall j :: 0 <= j < |r| ==> IsNameChar(r[j])
    ensures r != [] ==> ContainsSub(d, "filename=")
  {
    if ContainsSub(d, "filename=") then
      match SearchFrom(d, 0)
      case None => ""
      case Some(p) => MatchAt(d, p).value
    else ""
  }

  /** A header opening with `filename=` and a name, quoted or not, gives that
      name. */
  lemma NamedParameter(quote: string, name: string, rest: string)
    requires quote in {"", "\"", "'"}
    requires name != [] && forall j :: 0 <= j < |name| ==> IsNameChar(name[j])
    requires rest == [] || !IsNameChar(rest[0])
    ensures MatchAt("filename=" + quote + name + rest, 0) == Some(name)
  {
    var s := "filename=" + quote + name + rest;
    var g := 9 + |quote|;
    assert s[..8] == Keyword;
    assert s[8] == '=';
    assert GroupStart(s, 0) == Some(g);
    assert s[g..g + |name|] == name;
    NameRunExact(s, g, |name|);
  }

  /** The run from `i` is exactly `n` long when `n` name characters follow
      `i` and then none. */
  lemma {:induction false} NameRunExact(s: string, i: nat, n: nat)
    requires i + n <= |s|
    requires forall j :: i <= j < i + n ==> IsNameChar(s[j])
    requires i + n == |s| || !IsNameChar(s[i + n])
    ensures NameRun(s, i) == n
    decreases n
  {
    if n > 0 {
      NameRunExact(s, i + 1, n - 1);
    }
  }

  /** The extended form `filename*=UTF-8''name` yields the charset label: the
      name characters stop at the first `'`. */
  lemma ExtendedFormGivesCharset(name: string)
    ensures MatchAt("filename*=UTF-8''" + name, 0) == Some("UTF-8")
  {
    var s := "filename*=UTF-8''" + name;
    assert s[..8] == Keyword;
    assert GroupStart(s, 0) == Some(10);
    assert s[10..15] == "UTF-8";
    NameRunExact(s, 10, 5);
  }

  /** So a header that opens with the extended form and also carries a plain
      `filename=` names the file after the charset label. */
  lemma ExtendedFormFirstWins(name: string)
    requires ContainsSub("filename*=UTF-8''" + name, "filename=")
    ensures DispositionName("filename*=UTF-8''" + name) == "UTF-8"
  {
    ExtendedFormGivesCharset(name);
  }

  // ---------------------------------------------------------------------------
  // The filename and the tool

  /** The filename: the last component of the decoded URL path; failing that
      the header's name; failing that `downloaded_file` followed by the
      extension of the content type. */
  function PublicFilename(path: string, disposition: Option<string>, contentType: string, extFromCt: string -> string): (r: string)
    ensures r != []
    ensures Basename(Unquote(path)) != [] ==> r == Basename(Unquote(path))
    ensures Basename(Unquote(path)) == [] && DispositionName(disposition.GetOr("")) != [] ==> r == DispositionName(disposition.GetOr(""))
    ensures Basename(Unquote(path)) == [] && DispositionName(disposition.GetOr("")) == [] ==> r == FallbackName + extFromCt(contentType)
  {
    var fromPath := Basename(Unquote(path));
    if fromPath != [] then fromPath
    else
      var fromHeader := DispositionName(disposition.GetOr(""));
      if fromHeader != [] then fromHeader else FallbackName + extFromCt(contentType)
  }

  /** `_get_public_file_by_url`. The emptiness and format checks raise inside
      the `try` and are caught by its catch-all handler; a request failure is
      caught by the `RequestException` handler. */
  function FetchPublic(url: string, parse: string -> UrlParts, get: HttpGet, extFromCt: string -> string): (r: Result<Download>)
    ensures r.Ok? <==> url != [] && parse(url).scheme != [] && parse(url).netloc != [] && get(url).Ok?
    ensures r.Ok? ==> r.value.content == get(url).value.content && r.value.size == |r.value.content|
    ensures r.Ok? ==> r.value.contentType == MediaType(get(url).value.contentType.GetOr(DefaultContentType))
    ensures r.Ok? ==> r.value.filename == PublicFilename(parse(url).path, get(url).value.disposition, r.value.contentType, extFromCt)
    ensures r.Ok? ==> ';' !in r.value.contentType && r.value.filename != []
  {
    if url == [] then Err(UnexpectedError + "File URL cannot be empty")
    else
      var u := parse(url);
      if u.scheme == [] || u.netloc == [] then Err(UnexpectedError + "Invalid URL format")
      else
        match get(url)
        case Err(m) => Err(RequestFailed + m)
        case Ok(resp) =>
          var ct := MediaType(resp.contentType.GetOr(DefaultContentType));
          var name := PublicFilename(u.path, resp.disposition, ct, extFromCt);
          Ok(Download(resp.content, name, ct, |resp.content|))
  }

  /** `_invoke`: the parameter check, the retrieval, then the blob and its
      metadata; every failure is reported as `Failed to download public
      file: ` and the raised message (the success text with the size in MB is
      not modelled). */
  function InvokePublic(fileUrl: Option<string>, parse: string -> UrlParts, get: HttpGet, extFromCt: string -> string): (r: Result<(Download, FileMetadata)>)
    ensures r.Err? ==> StartsWith(r.message, PublicFailed)
    ensures r.Ok? ==> r.value.1 == MetadataOf(r.value.0, ResolveExtension(r.value.0.filename, extFromCt(r.value.0.contentType)))
  {
    if !Truthy(fileUrl) then
      Err(PublicFailed + "Missing required parameter: file_url")
    else
      match FetchPublic(fileUrl.value, parse, get, extFromCt)
      case Err(m) =>
        assert (PublicFailed + m)[..|PublicFailed|] == PublicFailed;
        Err(PublicFailed + m)
      case Ok(d) => Ok((d, MetadataOf(d, ResolveExtension(d.filename, extFromCt(d.contentType)))))
  }

  // ---------------------------------------------------------------------------
  // Properties

  /** A URL without a scheme or without a network location is rejected before
      any request is sent. */
  lemma MalformedUrlNotRequested(url: string, parse: string -> UrlParts, get: HttpGet, get2: HttpGet, extFromCt: string -> string)
    requires url != [] && (parse(url).scheme == [] || parse(url).netloc == [])
    ensures InvokePublic(Some(url), parse, get, extFromCt) == InvokePublic(Some(url), parse, get2, extFromCt)
    ensures InvokePublic(Some(url), parse, get, extFromCt) == Err(PublicFailed + UnexpectedError + "Invalid URL format")
  {
  }

  /** `_invoke` rejects an empty URL itself, so the retrieval's own emptiness
      check never fires: a missing URL gets the single prefix. */
  lemma MissingUrlSinglePrefix(fileUrl: Option<string>, parse: string -> UrlParts, get: HttpGet, extFromCt: string -> string)
    ensures !Truthy(fileUrl) ==> InvokePublic(fileUrl, parse, get, extFromCt) == Err(PublicFailed + "Missing required parameter: file_url")
    ensures Truthy(fileUrl) ==> FetchPublic(fileUrl.value, parse, get, extFromCt) != Err(UnexpectedError + "File URL cannot be empty")
  {
    if Truthy(fileUrl) {
      var url := fileUrl.value;
      var r := FetchPublic(url, parse, get, extFromCt);
      var empty := UnexpectedError + "File URL cannot be empty";
      if parse(url).scheme == [] || parse(url).netloc == [] {
        assert |r.message| != |empty|;
      } else if get(url).Err? {
        assert r.message[0] != empty[0];
      }
    }
  }

  /** A request failure is reported with the request prefix and its text. */
  lemma RequestFailureReported(url: string, parse: string -> UrlParts, get: HttpGet, extFromCt: string -> string)
    requires url != [] && parse(url).scheme != [] && parse(url).netloc != [] && get(url).Err?
    ensures InvokePublic(Some(url), parse, get, extFromCt) == Err(PublicFailed + RequestFailed + get(url).message)
  {
  }

  /** The reported type is the response's `Content-Type` cut at its first
      `;`, and `application/octet-stream` when the response has none. */
  lemma ReportedContentType(url: string, parse: string -> UrlParts, get: HttpGet, extFromCt: string -> string)
    requires url != [] && parse(url).scheme != [] && parse(url).netloc != [] && get(url).Ok?
    ensures InvokePublic(Some(url), parse, get, extFromCt).Ok?
    ensures get(url).value.contentType.None? ==>
              InvokePublic(Some(url), parse, get, extFromCt).value.0.contentType == DefaultContentType
    ensures get(url).value.contentType.Some? ==>
              InvokePublic(Some(url), parse, get, extFromCt).value.0.contentType == MediaType(get(url).value.contentType.value)
  {
    assert ';' !in DefaultContentType;
  }

  /** A path ending in a name decides the filename: the headers are not
      consulted. */
  lemma PathNameWins(path: string, d1: Option<string>, d2: Option<string>, ct: string, extFromCt: string -> string)
    requires Basename(Unquote(path)) != []
    ensures PublicFilename(path, d1, ct, extFromCt) == PublicFilename(path, d2, ct, extFromCt)
  {
  }

  /** A header without the literal text `filename=` is ignored, even when it
      carries the extended `filename*=` form. */
  lemma DispositionNeedsLiteralKeyword(path: string, d: string, ct: string, extFromCt: string -> string)
    requires Basename(Unquote(path)) == [] && !ContainsSub(d, "filename=")
    ensures PublicFilename(path, Some(d), ct, extFromCt) == FallbackName + extFromCt(ct)
  {
  }
}
