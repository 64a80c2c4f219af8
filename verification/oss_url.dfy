/** The two halves of an OSS object URL: the upload tools print
    `<protocol>://<bucket>.<endpoint>/<key>`, and the download tools'
    `_parse_oss_url` reads bucket, endpoint and key back out of a URL that
    `urlparse` has already split. The download tools then choose the bucket
    and endpoint to talk to and give the endpoint a scheme.
 */
module OssUrls {
  import opened Results
  import opened Text
  import opened Percent

  /** The fields of `urlparse(url)` the plugin reads. `hostname` is `None`
      when the URL has no network location. */
  datatype UrlParts = UrlParts(scheme: string, netloc: string, hostname: Option<string>, path: string)

  /** `(bucket, endpoint, object_key)` as `_parse_oss_url` returns it. */
  datatype OssLocation = OssLocation(bucket: Option<string>, endpoint: Option<string>, key: string)

  /** The URL the upload tools report for a stored object. */
  function FileUrl(useHttps: bool, bucket: string, endpoint: string, key: string): string {
    (if useHttps then "https" else "http") + "://" + bucket + "." + endpoint + "/" + key
  }

  /** `_parse_oss_url`: the key is the percent-decoded path without its
      leading slashes; a hostname containing `.` is split at its first `.`
      into bucket and endpoint, and any other hostname gives neither. */
  function ParseOssUrl(u: UrlParts): (r: OssLocation)
    ensures r.key == Unquote(LStripBy(u.path, '/'))
    ensures r.bucket.Some? <==> Truthy(u.hostname) && '.' in u.hostname.value
    ensures r.bucket.None? <==> r.endpoint.None?
    ensures r.bucket.Some? ==> r.bucket.value + "." + r.endpoint.value == u.hostname.value
    ensures r.bucket.Some? ==> '.' !in r.bucket.value
  {
    var key := Unquote(LStripBy(u.path, '/'));
    if Truthy(u.hostname) && '.' in u.hostname.value then
      var (b, e) := SplitHost(u.hostname.value);
      OssLocation(Some(b), Some(e), key)
    else
      OssLocation(None, None, key)
  }

  /** `h.split('.', 1)` for a hostname that contains `.`. */
  function SplitHost(h: string): (r: (string, string))
    requires '.' in h
    ensures r.0 + "." + r.1 == h && '.' !in r.0
  {
    var i := FirstIndex(h, '.');
    assert h == h[..i] + "." + h[i + 1..];
    (h[..i], h[i + 1..])
  }

  /** The first `.` of `bucket.endpoint` is the one after the bucket when the
      bucket has none. */
  lemma SplitStandardHost(bucket: string, endpoint: string)
    requires '.' !in bucket
    ensures SplitHost(bucket + "." + endpoint) == (bucket, endpoint)
  {
    var h := bucket + "." + endpoint;
    assert h[|bucket|] == '.';
    assert h[..|bucket|] == bucket;
    var i := FirstIndex(h, '.');
    assert i == |bucket|;
    assert h[..i] == bucket && h[i + 1..] == endpoint;
  }

  /** A path without `%` is the key as it stands, minus its leading slashes. */
  lemma PlainPathKey(u: UrlParts)
    requires '%' !in u.path
    ensures ParseOssUrl(u).key == LStripBy(u.path, '/')
    ensures ParseOssUrl(u).key == [] || ParseOssUrl(u).key[0] != '/'
  {
    var l := LStripBy(u.path, '/');
    assert '%' !in l by {
      assert forall k :: 0 <= k < |l| ==> l[k] == u.path[|u.path| - |l| + k];
    }
  }

  /** The bucket the download tools use: the URL's bucket when it is truthy
      and differs from the configured one, the configured one otherwise. */
  function ChooseBucket(urlBucket: Option<string>, configured: string): (b: string)
    ensures Truthy(urlBucket) ==> b == urlBucket.value
    ensures !Truthy(urlBucket) ==> b == configured
  {
    if Truthy(urlBucket) && urlBucket.value != configured then urlBucket.value else configured
  }

  /** The endpoint URL handed to the client: the URL's endpoint when truthy,
      else the configured one, with `http://` put in front unless it already
      names `http://` or `https://`. */
  function ChooseEndpoint(urlEndpoint: Option<string>, configured: string): string {
    EnsureScheme(if Truthy(urlEndpoint) then urlEndpoint.value else configured)
  }

  predicate HasScheme(e: string) {
    StartsWith(e, "http://") || StartsWith(e, "https://")
  }

  function EnsureScheme(e: string): (r: string)
    ensures HasScheme(r)
    ensures HasScheme(e) ==> r == e
    ensures !HasScheme(e) ==> r == "http://" + e
  {
    if HasScheme(e) then e
    else
      assert ("http://" + e)[..7] == "http://";
      "http://" + e
  }

  /** Giving an endpoint a scheme twice is giving it once. */
  lemma EnsureSchemeIdempotent(e: string)
    ensures EnsureScheme(EnsureScheme(e)) == EnsureScheme(e)
  {
  }

  // ---------------------------------------------------------------------------
  // What `urlparse` makes of the URL an upload reports

  /** Characters `urlsplit` deletes wherever they occur before it splits. */
  predicate IsDeletedInUrl(c: char) {
    c == '\t' || c == '\n' || c == '\r'
  }

  function DropDeleted(s: string): (r: string)
    ensures forall k :: 0 <= k < |r| ==> !IsDeletedInUrl(r[k])
  {
    if s == [] then [] else (if IsDeletedInUrl(s[0]) then [] else [s[0]]) + DropDeleted(s[1..])
  }

  lemma {:induction false} DropDeletedConcat(a: string, b: string)
    ensures DropDeleted(a + b) == DropDeleted(a) + DropDeleted(b)
    decreases |a|
  {
    if a == [] {
      assert a + b == b;
    } else {
      assert (a + b)[0] == a[0] && (a + b)[1..] == a[1..] + b;
      DropDeletedConcat(a[1..], b);
    }
  }

  lemma {:induction false} DropDeletedKeeps(s: string)
    requires forall k :: 0 <= k < |s| ==> !IsDeletedInUrl(s[k])
    ensures DropDeleted(s) == s
    decreases |s|
  {
    if s != [] {
      DropDeletedKeeps(s[1..]);
    }
  }

  /** `_splitparams`: a `;` in the last segment of the path starts the
      parameters, which are not part of `path`. */
  function DropParams(p: string): (r: string)
    ensures |r| <= |p| && r == p[..|r|]
    ensures ';' !in p ==> r == p
  {
    var slash := LastIndex(p, '/');
    var start := if slash < 0 then 0 else slash;
    var tail := p[start..];
    var j := FirstIndex(tail, ';');
    assert ';' !in p ==> ';' !in tail by {
      assert forall k :: 0 <= k < |tail| ==> tail[k] == p[start + k];
    }
    p[..start + j]
  }

  /** The `path` of `urlparse` for the text that follows the network
      location: the deleted characters go, then the fragment (from the first
      `#`) and the query (from the first `?`) are cut off, and so are the
      parameters. */
  function UrlPath(rest: string): (p: string)
    ensures '#' !in p && '?' !in p
  {
    var t := DropDeleted(rest);
    var beforeFragment := t[..FirstIndex(t, '#')];
    var beforeQuery := beforeFragment[..FirstIndex(beforeFragment, '?')];
    var p := DropParams(beforeQuery);
    assert '#' !in beforeQuery by {
      assert forall k :: 0 <= k < |beforeQuery| ==> beforeQuery[k] == beforeFragment[k];
    }
    assert forall k :: 0 <= k < |p| ==> p[k] == beforeQuery[k];
    p
  }

  /** A host `urlparse` reports unchanged as both `netloc` and `hostname`:
      ASCII without capital letters (which `hostname` lowers) and without the
      characters that end the network location (`/ ? #`), introduce
      credentials or a port (`@ :`), delimit an IPv6 literal (`[ ]`) or are
      deleted. */
  predicate PlainHost(h: string) {
    forall k :: 0 <= k < |h| ==> h[k] as int < 128 && !IsUpper(h[k]) && h[k] !in "/?#@:[]\t\n\r"
  }

  /** A key `urlparse` leaves whole in the path: no fragment, query or
      parameter delimiter and no deleted character. */
  predicate PlainKeyText(key: string) {
    forall k :: 0 <= k < |key| ==> key[k] !in "?#;\t\n\r"
  }

  /** The record `urlparse` makes of `<scheme>://<bucket>.<endpoint><rest>`
      for plain hosts and a `rest` that is empty or starts with `/`. */
  function StandardParts(useHttps: bool, bucket: string, endpoint: string, rest: string): (u: UrlParts)
    requires PlainHost(bucket) && PlainHost(endpoint)
    requires rest == [] || rest[0] == '/'
    ensures u.hostname == Some(bucket + "." + endpoint) && u.path == UrlPath(rest)
  {
    var host := bucket + "." + endpoint;
    UrlParts(if useHttps then "https" else "http", host, Some(host), UrlPath(rest))
  }

  function Render(u: UrlParts): string {
    u.scheme + "://" + u.netloc + u.path
  }

  /** A plain path reaches `path` unchanged. */
  lemma PlainPathKept(rest: string)
    requires PlainKeyText(rest)
    ensures UrlPath(rest) == rest
  {
    DropDeletedKeeps(rest);
    assert '#' !in rest && '?' !in rest by {
      assert forall k :: 0 <= k < |rest| ==> rest[k] !in "?#;\t\n\r";
    }
    assert rest[..FirstIndex(rest, '#')] == rest;
    assert rest[..FirstIndex(rest, '?')] == rest;
  }

  lemma SlashPlain(key: string)
    requires PlainKeyText(key)
    ensures PlainKeyText("/" + key)
  {
    assert forall k :: 1 <= k < |"/" + key| ==> ("/" + key)[k] == key[k - 1];
  }

  lemma StripOneSlash(q: string)
    requires q == [] || q[0] != '/'
    ensures LStripBy("/" + q, '/') == q
  {
    assert ("/" + q)[1..] == q;
  }

  /** For plain hosts and a plain key, the record renders to the URL the
      upload reports. */
  lemma RenderStandard(useHttps: bool, bucket: string, endpoint: string, key: string)
    requires PlainHost(bucket) && PlainHost(endpoint) && PlainKeyText(key)
    ensures Render(StandardParts(useHttps, bucket, endpoint, "/" + key)) == FileUrl(useHttps, bucket, endpoint, key)
  {
    SlashPlain(key);
    PlainPathKept("/" + key);
    var p := (if useHttps then "https" else "http") + "://";
    assert p + (bucket + "." + endpoint) + ("/" + key) == p + bucket + "." + endpoint + "/" + key;
  }

  lemma StandardHostSplit(bucket: string, endpoint: string)
    requires bucket != [] && '.' !in bucket
    ensures Truthy(Some(bucket + "." + endpoint)) && '.' in bucket + "." + endpoint
    ensures SplitHost(bucket + "." + endpoint) == (bucket, endpoint)
  {
    SplitStandardHost(bucket, endpoint);
    assert (bucket + "." + endpoint)[|bucket|] == '.';
  }

  /** The record of a URL whose host is `bucket.endpoint` and whose path
      decodes to `key` reads back as those three. */
  lemma ParseStandard(useHttps: bool, bucket: string, endpoint: string, rest: string, key: string)
    requires bucket != [] && '.' !in bucket && PlainHost(bucket) && PlainHost(endpoint)
    requires rest == [] || rest[0] == '/'
    requires Unquote(LStripBy(UrlPath(rest), '/')) == key
    ensures ParseOssUrl(StandardParts(useHttps, bucket, endpoint, rest)) == OssLocation(Some(bucket), Some(endpoint), key)
  {
    StandardHostSplit(bucket, endpoint);
  }

  /** Reading back the URL an upload reports recovers bucket, endpoint and
      key, for plain hosts with no `.` in the bucket and a plain key that has
      no `%` and does not start with `/`. */
  lemma FileUrlRoundTrip(useHttps: bool, bucket: string, endpoint: string, key: string)
    requires bucket != [] && '.' !in bucket && PlainHost(bucket) && PlainHost(endpoint)
    requires PlainKeyText(key) && '%' !in key && (key == [] || key[0] != '/')
    ensures Render(StandardParts(useHttps, bucket, endpoint, "/" + key)) == FileUrl(useHttps, bucket, endpoint, key)
    ensures ParseOssUrl(StandardParts(useHttps, bucket, endpoint, "/" + key)) == OssLocation(Some(bucket), Some(endpoint), key)
  {
    RenderStandard(useHttps, bucket, endpoint, key);
    assert Unquote(LStripBy(UrlPath("/" + key), '/')) == key by {
      SlashPlain(key);
      PlainPathKept("/" + key);
      StripOneSlash(key);
    }
    ParseStandard(useHttps, bucket, endpoint, "/" + key, key);
  }

  lemma DeletedAfterPlain(pre: string, c: char, tail: string)
    requires forall k :: 0 <= k < |pre| ==> !IsDeletedInUrl(pre[k])
    requires !IsDeletedInUrl(c)
    ensures DropDeleted(pre + ([c] + tail)) == pre + ([c] + DropDeleted(tail))
  {
    DropDeletedKeeps(pre);
    var ct := [c] + tail;
    DropDeletedConcat(pre, ct);
    assert ct[0] == c && ct[1..] == tail;
  }

  /** Cutting at the first `#` and then at the first `?` leaves what comes
      before a `#` or `?` that follows a text without either. */
  lemma CutQueryFragment(pre: string, c: char, y: string)
    requires '#' !in pre && '?' !in pre && (c == '#' || c == '?')
    ensures var t := pre + ([c] + y);
            var beforeFragment := t[..FirstIndex(t, '#')];
            beforeFragment[..FirstIndex(beforeFragment, '?')] == pre
  {
    var t := pre + ([c] + y);
    FirstIndexAfter(pre, [c] + y, '#');
    var f := FirstIndex(t, '#');
    if c == '#' {
      assert t[..f] == pre;
      assert pre[..FirstIndex(pre, '?')] == pre;
    } else {
      QueryBeforeFragment(pre, y);
    }
  }

  lemma QueryBeforeFragment(pre: string, y: string)
    requires '#' !in pre && '?' !in pre
    ensures var t := pre + (['?'] + y);
            var beforeFragment := t[..FirstIndex(t, '#')];
            beforeFragment[..FirstIndex(beforeFragment, '?')] == pre
  {
    var t := pre + (['?'] + y);
    assert t == (pre + ['?']) + y;
    FirstIndexAfter(pre + ['?'], y, '#');
    var f := FirstIndex(t, '#');
    var middle := t[|pre| + 1..f];
    assert t[..f] == pre + (['?'] + middle);
    FirstIndexAfter(pre, ['?'] + middle, '?');
  }

  /** `urlparse` ends the path of `/<head><c><tail>` before `c` when `c` is
      `#` or `?` and `head` is plain. */
  lemma CutPath(head: string, c: char, tail: string)
    requires PlainKeyText(head) && (c == '#' || c == '?')
    ensures UrlPath("/" + head + [c] + tail) == "/" + head
  {
    var pre := "/" + head;
    SlashPlain(head);
    assert '#' !in pre && '?' !in pre && ';' !in pre && forall k :: 0 <= k < |pre| ==> !IsDeletedInUrl(pre[k]) by {
      assert forall k :: 0 <= k < |pre| ==> pre[k] !in "?#;\t\n\r";
    }
    assert "/" + head + [c] + tail == pre + ([c] + tail);
    DeletedAfterPlain(pre, c, tail);
    CutQueryFragment(pre, c, DropDeleted(tail));
  }

  /** The upload puts the key into its URL as it stands, so a `#` or `?` in
      the key starts the fragment or the query: the download reads back only
      the part of the key before it. */
  lemma QueryOrFragmentCutsKey(useHttps: bool, bucket: string, endpoint: string, head: string, c: char, tail: string)
    requires bucket != [] && '.' !in bucket && PlainHost(bucket) && PlainHost(endpoint)
    requires PlainKeyText(head) && '%' !in head && (head == [] || head[0] != '/')
    requires c == '#' || c == '?'
    ensures ParseOssUrl(StandardParts(useHttps, bucket, endpoint, "/" + head + [c] + tail))
         == OssLocation(Some(bucket), Some(endpoint), head)
  {
    assert Unquote(LStripBy(UrlPath("/" + head + [c] + tail), '/')) == head by {
      CutPath(head, c, tail);
      StripOneSlash(head);
    }
    ParseStandard(useHttps, bucket, endpoint, "/" + head + [c] + tail, head);
  }

  lemma ExampleNamesPlain()
    ensures PlainHost("docs") && PlainHost("example.com") && PlainKeyText("a")
  {
  }

  /** So a file stored as `a#1.pdf` is looked for as `a`. */
  lemma FragmentKeyExample()
    ensures ParseOssUrl(StandardParts(true, "docs", "example.com", "/a#1.pdf")).key == "a"
  {
    ExampleNamesPlain();
    assert "/a#1.pdf" == "/" + "a" + ['#'] + "1.pdf";
    QueryOrFragmentCutsKey(true, "docs", "example.com", "a", '#', "1.pdf");
  }

  /** The same with a percent-encoded key: any ASCII key not starting with
      `/` survives `quote` on the way out and `unquote` on the way in. */
  lemma QuotedKeyRoundTrip(useHttps: bool, bucket: string, endpoint: string, key: string)
    requires bucket != [] && '.' !in bucket && PlainHost(bucket) && PlainHost(endpoint)
    requires IsAscii(key) && (key == [] || key[0] != '/')
    ensures ParseOssUrl(StandardParts(useHttps, bucket, endpoint, "/" + Quote(key))) == OssLocation(Some(bucket), Some(endpoint), key)
  {
    QuotedPathDecodes(key);
    ParseStandard(useHttps, bucket, endpoint, "/" + Quote(key), key);
  }

  lemma QuotedPathDecodes(key: string)
    requires IsAscii(key) && (key == [] || key[0] != '/')
    ensures Unquote(LStripBy(UrlPath("/" + Quote(key)), '/')) == key
  {
    var q := Quote(key);
    assert q == [] || q[0] != '/' by {
      if key != [] {
        assert q == QuoteChar(key[0]) + Quote(key[1..]);
      }
    }
    QuotePlain(key);
    SlashPlain(q);
    PlainPathKept("/" + q);
    StripOneSlash(q);
    UnquoteQuote(key);
  }

  /** `quote` never writes a delimiter `urlparse` would act on. */
  lemma QuotePlain(key: string)
    requires IsAscii(key)
    ensures PlainKeyText(Quote(key))
  {
    QuoteAlphabet(key);
    var q := Quote(key);
    forall k | 0 <= k < |q|
      ensures q[k] !in "?#;\t\n\r"
    {
      QuotedCharPlain(q[k]);
    }
  }

  lemma QuotedCharPlain(ch: char)
    requires IsUnescaped(ch) || ch == '%' || IsHex(ch)
    ensures ch !in "?#;\t\n\r"
  {
  }
}
