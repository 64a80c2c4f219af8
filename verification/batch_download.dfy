/** The batch download tool (`GetFilesByUrlsTool`): the `;`-separated URL
    list, one retrieval per URL with failures kept to their own message, and
    the success count and total size of the closing summary.
 */
module BatchDownload {
  import opened Results
  import opened Text
  import opened Credentials
  import opened OssUrls
  import opened Downloads
  import opened OssDownload

  const BatchDownloadFailed: string := "Batch download failed: "

  // ---------------------------------------------------------------------------
  // The URL list

  /** A URL as the list yields it: non-empty, without `;`, and with no
      whitespace at either end. */
  predicate CleanUrl(u: string) {
    u != [] && ';' !in u && !IsSpace(u[0]) && !IsSpace(u[|u| - 1])
  }

  /** The URLs of `[url.strip() for url in s.split(';') if url.strip()]`. */
  function SplitUrlList(s: string): (urls: seq<string>)
    ensures forall k :: 0 <= k < |urls| ==> CleanUrl(urls[k])
  {
    var parts := SplitOn(s, ';');
    KeepStrippedClean(parts);
    KeepStripped(parts)
  }

  /** The non-empty stripped parts, in order. */
  function KeepStripped(parts: seq<string>): seq<string> {
    if parts == [] then []
    else
      var u := Strip(parts[0]);
      if u == [] then KeepStripped(parts[1..]) else [u] + KeepStripped(parts[1..])
  }

  /** The parts of a split on `;` all give clean URLs. */
  lemma {:induction false} KeepStrippedClean(parts: seq<string>)
    requires forall k :: 0 <= k < |parts| ==> ';' !in parts[k]
    ensures forall k :: 0 <= k < |KeepStripped(parts)| ==> CleanUrl(KeepStripped(parts)[k])
  {
    if parts != [] {
      var tail := parts[1..];
      assert forall k :: 0 <= k < |tail| ==> tail[k] == parts[k + 1];
      KeepStrippedClean(tail);
      var rest := KeepStripped(tail);
      var u := Strip(parts[0]);
      if u != [] {
        var urls := [u] + rest;
        forall k | 0 <= k < |urls|
          ensures CleanUrl(urls[k])
        {
          if k == 0 {
            StripClean(parts[0]);
          } else {
            assert urls[k] == rest[k - 1];
          }
        }
      }
    }
  }

  /** Stripping a piece without `;` gives a clean URL unless it is empty. */
  lemma StripClean(p: string)
    requires ';' !in p && Strip(p) != []
    ensures CleanUrl(Strip(p))
  {
    var u := Strip(p);
    assert forall i :: 0 <= i < |u| ==> u[i] == p[LeadingSpace(p) + i];
  }

  /** A clean URL is its own stripped form. */
  lemma CleanUrlStripped(u: string)
    requires CleanUrl(u)
    ensures Strip(u) == u
  {
    assert LeadingSpace(u) == 0;
    assert TrailingSpace(u) == 0;
  }

  /** `s.split(';')` of a string with `;` after a first piece without one. */
  lemma SplitAfterFirst(a: string, b: string)
    requires ';' !in a
    ensures SplitOn(a + ";" + b, ';') == [a] + SplitOn(b, ';')
  {
    var s := a + ";" + b;
    assert s[|a|] == ';';
    assert s[..|a|] == a;
    var i := FirstIndex(s, ';');
    assert i == |a|;
    assert s[i + 1..] == b;
  }

  /** The list of one piece is its stripped self, if that is not empty. */
  lemma KeepStrippedOne(a: string)
    ensures KeepStripped([a]) == if Strip(a) == [] then [] else [Strip(a)]
  {
    assert [a][1..] == [];
  }

  /** A piece without `;` gives its stripped self, if that is not empty. */
  lemma SplitUrlListSingle(a: string)
    requires ';' !in a
    ensures SplitUrlList(a) == if Strip(a) == [] then [] else [Strip(a)]
  {
    assert SplitOn(a, ';') == [a] by {
      assert a[..FirstIndex(a, ';')] == a;
    }
    KeepStrippedOne(a);
  }

  /** Keeping the stripped parts distributes over a first part. */
  lemma KeepStrippedCons(a: string, parts: seq<string>)
    ensures KeepStripped([a] + parts) == KeepStripped([a]) + KeepStripped(parts)
  {
    assert ([a] + parts)[1..] == parts;
    KeepStrippedOne(a);
  }

  /** Splitting distributes over a `;` that follows a first piece. */
  lemma SplitUrlListConcat(a: string, b: string)
    requires ';' !in a
    ensures SplitUrlList(a + ";" + b) == SplitUrlList(a) + SplitUrlList(b)
  {
    var parts := SplitOn(b, ';');
    assert SplitOn(a + ";" + b, ';') == [a] + parts by {
      SplitAfterFirst(a, b);
    }
    assert SplitOn(a, ';') == [a] by {
      assert a[..FirstIndex(a, ';')] == a;
    }
    KeepStrippedCons(a, parts);
  }

  /** A clean URL in front of a `;` adds itself in front of the list. */
  lemma SplitUrlListCons(u: string, rest: string)
    requires CleanUrl(u)
    ensures SplitUrlList(u + ";" + rest) == [u] + SplitUrlList(rest)
  {
    CleanUrlStripped(u);
    SplitUrlListSingle(u);
    SplitUrlListConcat(u, rest);
  }

  /** Joining clean URLs with `;` and splitting the result gives them back. */
  lemma {:induction false} SplitJoinRoundTrip(urls: seq<string>)
    requires forall k :: 0 <= k < |urls| ==> CleanUrl(urls[k])
    ensures SplitUrlList(JoinWith(urls, ';')) == urls
  {
    if urls == [] {
      NoTextNoUrls();
    } else if |urls| == 1 {
      assert JoinWith(urls, ';') == urls[0];
      SingleCleanUrl(urls[0]);
    } else {
      var u, tail := urls[0], urls[1..];
      var joined := JoinWith(tail, ';');
      assert SplitUrlList(joined) == tail by {
        assert forall k :: 0 <= k < |tail| ==> tail[k] == urls[k + 1];
        SplitJoinRoundTrip(tail);
      }
      assert JoinWith(urls, ';') == u + ";" + joined;
      assert SplitUrlList(u + ";" + joined) == [u] + SplitUrlList(joined) by {
        SplitUrlListCons(u, joined);
      }
      HeadTail(urls);
    }
  }

  lemma NoTextNoUrls()
    ensures SplitUrlList("") == []
  {
    assert SplitOn("", ';') == [""];
  }

  /** A clean URL on its own is the whole list. */
  lemma SingleCleanUrl(u: string)
    requires CleanUrl(u)
    ensures SplitUrlList(u) == [u]
  {
    CleanUrlStripped(u);
    SplitUrlListSingle(u);
  }

  lemma HeadTail(s: seq<string>)
    requires s != []
    ensures s == [s[0]] + s[1..]
  {
  }

  // ---------------------------------------------------------------------------
  // One URL

  /** `_get_file_by_url` of the batch tool: every error is raised inside the
      `try` and re-raised with the `Failed to retrieve file: ` prefix. */
  function RetrieveOne(url: string, a: Account, parse: string -> UrlParts, get: Fetcher): Result<Download> {
    if url == [] then Err(RetrieveFailed + "File URL cannot be empty")
    else
      match FetchObject(url, a, parse, get)
      case Err(m) => Err(RetrieveFailed + m)
      case Ok(d) => Ok(d)
  }

  /** What the loop yields for one URL: the blob and its metadata, or a text
      message naming the URL. */
  datatype UrlOutcome =
    | Fetched(url: string, download: Download, metadata: FileMetadata)
    | Missed(url: string, text: string)

  /** The loop body for one URL; `extFromCt` is the helper
      `get_extension_from_content_type`. */
  function OutcomeOf(url: string, a: Account, parse: string -> UrlParts, get: Fetcher, extFromCt: string -> string): (o: UrlOutcome)
    ensures o.url == url
    ensures o.Fetched? <==> RetrieveOne(url, a, parse, get).Ok?
    ensures o.Missed? ==> o.text == "Failed to download file from " + url + ": " + RetrieveOne(url, a, parse, get).message
  {
    match RetrieveOne(url, a, parse, get)
    case Err(m) => Missed(url, "Failed to download file from " + url + ": " + m)
    case Ok(d) => Fetched(url, d, MetadataOf(d, ResolveExtension(d.filename, extFromCt(d.contentType))))
  }

  /** One outcome per URL, in order. */
  function DownloadAll(urls: seq<string>, a: Account, parse: string -> UrlParts, get: Fetcher, extFromCt: string -> string): (os: seq<UrlOutcome>)
    ensures |os| == |urls|
    ensures forall k :: 0 <= k < |urls| ==> os[k] == OutcomeOf(urls[k], a, parse, get, extFromCt)
  {
    seq(|urls|, k requires 0 <= k < |urls| => OutcomeOf(urls[k], a, parse, get, extFromCt))
  }

  // ---------------------------------------------------------------------------
  // The summary

  /** `len(downloaded_files)` after the outcomes `os`. */
  function SuccessCount(os: seq<UrlOutcome>): nat {
    if os == [] then 0 else SuccessCount(os[..|os| - 1]) + (if os[|os| - 1].Fetched? then 1 else 0)
  }

  /** `total_size` after the outcomes `os`: the sizes of the retrieved files. */
  function TotalSize(os: seq<UrlOutcome>): nat {
    if os == [] then 0 else TotalSize(os[..|os| - 1]) + (if os[|os| - 1].Fetched? then os[|os| - 1].download.size else 0)
  }

  /** What `_invoke` reports: the message per URL, then the counts of the
      summary (whose size in MB is not modelled). */
  datatype BatchSummary = BatchSummary(outcomes: seq<UrlOutcome>, successCount: nat, totalSize: nat)

  /** The two running tallies of the download loop: one more success and the
      file's size for every retrieved file, nothing for a failed one. */
  method Tally(os: seq<UrlOutcome>) returns (successCount: nat, totalSize: nat)
    ensures successCount == SuccessCount(os) && totalSize == TotalSize(os)
  {
    successCount, totalSize := 0, 0;
    var i := 0;
    while i < |os|
      invariant 0 <= i <= |os|
      invariant successCount == SuccessCount(os[..i]) && totalSize == TotalSize(os[..i])
    {
      assert os[..i + 1][..i] == os[..i];
      if os[i].Fetched? {
        successCount := successCount + 1;
        totalSize := totalSize + os[i].download.size;
      }
      i := i + 1;
    }
    assert os[..|os|] == os;
  }

  /** `_invoke`: the credential check, the URL list, then the loop. Errors
      before the loop end the tool with the `Batch download failed: ` prefix. */
  function InvokeBatch(c: Creds, fileUrls: Option<string>, parse: string -> UrlParts, get: Fetcher, extFromCt: string -> string): (r: Result<BatchSummary>)
    ensures r.Err? ==> StartsWith(r.message, BatchDownloadFailed)
    ensures r.Ok? <==> CheckTool(c).Ok? && Truthy(fileUrls) && SplitUrlList(fileUrls.value) != []
    ensures r.Ok? ==> r.value.outcomes == DownloadAll(SplitUrlList(fileUrls.value), CheckTool(c).value, parse, get, extFromCt)
    ensures r.Ok? ==> r.value.successCount == SuccessCount(r.value.outcomes) && r.value.totalSize == TotalSize(r.value.outcomes)
  {
    match CheckTool(c)
    case Err(m) =>
      assert (BatchDownloadFailed + m)[..|BatchDownloadFailed|] == BatchDownloadFailed;
      Err(BatchDownloadFailed + m)
    case Ok(a) =>
      if !Truthy(fileUrls) then Err(BatchDownloadFailed + "Missing required parameter: file_urls")
      else
        var urls := SplitUrlList(fileUrls.value);
        if urls == [] then Err(BatchDownloadFailed + "No valid URLs provided")
        else
          var os := DownloadAll(urls, a, parse, get, extFromCt);
          Ok(BatchSummary(os, SuccessCount(os), TotalSize(os)))
  }

  // ---------------------------------------------------------------------------
  // Properties

  /** The success count is the number of retrieved files, never more than the
      number of URLs, and every other URL got a failure message. */
  lemma {:induction false} SuccessCountBounded(os: seq<UrlOutcome>)
    ensures SuccessCount(os) <= |os|
    ensures SuccessCount(os) == |os| <==> forall k :: 0 <= k < |os| ==> os[k].Fetched?
  {
    if os != [] {
      var init := os[..|os| - 1];
      SuccessCountBounded(init);
      assert forall k :: 0 <= k < |init| ==> init[k] == os[k];
    }
  }

  /** The total size is the sum of the sizes of the retrieved files: it is 0
      when nothing was retrieved. */
  lemma {:induction false} NothingFetchedNoSize(os: seq<UrlOutcome>)
    requires forall k :: 0 <= k < |os| ==> os[k].Missed?
    ensures TotalSize(os) == 0 && SuccessCount(os) == 0
  {
    if os != [] {
      var init := os[..|os| - 1];
      assert forall k :: 0 <= k < |init| ==> init[k] == os[k];
      NothingFetchedNoSize(init);
    }
  }

  /** Every outcome is a success exactly when its retrieval succeeded. */
  lemma AllFetched(urls: seq<string>, a: Account, parse: string -> UrlParts, get: Fetcher, extFromCt: string -> string)
    ensures (forall k :: 0 <= k < |urls| ==> DownloadAll(urls, a, parse, get, extFromCt)[k].Fetched?)
            <==> forall k :: 0 <= k < |urls| ==> RetrieveOne(urls[k], a, parse, get).Ok?
    ensures (forall k :: 0 <= k < |urls| ==> RetrieveOne(urls[k], a, parse, get).Err?)
            ==> forall k :: 0 <= k < |urls| ==> DownloadAll(urls, a, parse, get, extFromCt)[k].Missed?
  {
    var os := DownloadAll(urls, a, parse, get, extFromCt);
    forall k | 0 <= k < |urls|
      ensures os[k].Fetched? <==> RetrieveOne(urls[k], a, parse, get).Ok?
    {
      assert os[k] == OutcomeOf(urls[k], a, parse, get, extFromCt);
    }
  }

  /** The tool's summary counts the URLs it retrieved: never more than the
      URLs listed, all of them exactly when every retrieval succeeded, and no
      files and no bytes when every retrieval failed. */
  lemma SummaryCountsRetrievals(c: Creds, s: string, parse: string -> UrlParts, get: Fetcher, extFromCt: string -> string)
    requires CheckTool(c).Ok? && SplitUrlList(s) != []
    ensures InvokeBatch(c, Some(s), parse, get, extFromCt).Ok?
    ensures InvokeBatch(c, Some(s), parse, get, extFromCt).value.successCount <= |SplitUrlList(s)|
    ensures InvokeBatch(c, Some(s), parse, get, extFromCt).value.successCount == |SplitUrlList(s)|
            <==> forall k :: 0 <= k < |SplitUrlList(s)| ==> RetrieveOne(SplitUrlList(s)[k], CheckTool(c).value, parse, get).Ok?
    ensures (forall k :: 0 <= k < |SplitUrlList(s)| ==> RetrieveOne(SplitUrlList(s)[k], CheckTool(c).value, parse, get).Err?)
            ==> InvokeBatch(c, Some(s), parse, get, extFromCt).value.successCount == 0
                && InvokeBatch(c, Some(s), parse, get, extFromCt).value.totalSize == 0
  {
    var urls := SplitUrlList(s);
    var a := CheckTool(c).value;
    var os := DownloadAll(urls, a, parse, get, extFromCt);
    assert s != [] by {
      NoTextNoUrls();
    }
    assert InvokeBatch(c, Some(s), parse, get, extFromCt) == Ok(BatchSummary(os, SuccessCount(os), TotalSize(os)));
    SuccessCountBounded(os);
    AllFetched(urls, a, parse, get, extFromCt);
    if forall k :: 0 <= k < |urls| ==> RetrieveOne(urls[k], a, parse, get).Err? {
      NothingFetchedNoSize(os);
    }
  }

  /** Every URL the list yields is non-empty, so the emptiness check inside the
      loop never fires: a URL fails only when the client fails. */
  lemma EmptyCheckUnreachable(s: string, a: Account, parse: string -> UrlParts, get: Fetcher, extFromCt: string -> string, k: nat)
    requires k < |SplitUrlList(s)|
    ensures var url := SplitUrlList(s)[k];
            var q := RequestFor(parse(url), a);
            OutcomeOf(url, a, parse, get, extFromCt).Missed? <==> get(q.endpointUrl, q.bucketName, q.key).Err?
  {
  }

  /** The list is checked before any URL is fetched: an empty or blank list
      is reported the same whatever the client would do. */
  lemma BlankListRejected(c: Creds, s: string, parse: string -> UrlParts, get: Fetcher, get2: Fetcher, extFromCt: string -> string)
    requires CheckTool(c).Ok? && s != [] && SplitUrlList(s) == []
    ensures InvokeBatch(c, Some(s), parse, get, extFromCt) == InvokeBatch(c, Some(s), parse, get2, extFromCt)
    ensures InvokeBatch(c, Some(s), parse, get, extFromCt) == Err(BatchDownloadFailed + "No valid URLs provided")
  {
  }

  /** A piece of whitespace only strips to nothing. */
  lemma StripBlank(s: string)
    requires forall i :: 0 <= i < |s| ==> IsSpace(s[i])
    ensures Strip(s) == []
  {
  }

  /** A piece of whitespace only yields no URL. */
  lemma BlankPiece(s: string)
    requires ';' !in s && forall i :: 0 <= i < |s| ==> IsSpace(s[i])
    ensures SplitUrlList(s) == []
  {
    StripBlank(s);
    SplitUrlListSingle(s);
  }

  /** A list is empty when the pieces on both sides of its first `;` are. */
  lemma EmptyAroundSeparator(s: string, i: nat)
    requires i < |s| && s[i] == ';' && ';' !in s[..i]
    requires SplitUrlList(s[..i]) == [] && SplitUrlList(s[i + 1..]) == []
    ensures SplitUrlList(s) == []
  {
    AroundIndex(s, i);
    SplitUrlListConcat(s[..i], s[i + 1..]);
  }

  lemma AroundIndex(s: string, i: nat)
    requires i < |s| && s[i] == ';'
    ensures s == s[..i] + ";" + s[i + 1..]
  {
  }

  /** A URL list of blanks and separators only is rejected. */
  lemma {:induction false} BlanksGiveNoUrls(s: string)
    requires forall i :: 0 <= i < |s| ==> s[i] == ';' || IsSpace(s[i])
    ensures SplitUrlList(s) == []
    decreases |s|
  {
    var i := FirstIndex(s, ';');
    if i == |s| {
      assert ';' !in s by { assert s[..i] == s; }
      BlankPiece(s);
    } else {
      assert SplitUrlList(s[..i]) == [] by { BlanksGiveNoUrls(s[..i]); }
      assert SplitUrlList(s[i + 1..]) == [] by { BlanksGiveNoUrls(s[i + 1..]); }
      EmptyAroundSeparator(s, i);
    }
  }
}
