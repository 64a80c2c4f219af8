# Aliyun OSS plugin: a Dafny model of its tools

This project models the five tools and the credential provider of the Dify
plugin for Alibaba Cloud Object Storage Service (OSS). For each tool it
proves what the tool does with its parameters and credentials:

- **Upload one file** (`UploadFileTool`). Checks the required parameters and
  the local path. Names the file by the caller's filename, a seconds
  timestamp or both. Builds the object key from the directory and the
  directory mode, stores the file and reports `<protocol>://<bucket>.<endpoint>/<key>`.
- **Upload up to ten files** (`MultiUploadFilesTool`). Validates the batch,
  names every file from its `name`/`filename` hints, its content type and an
  optional millisecond timestamp, and stores each file on its own. One
  failure never ends the batch. Reports a static or signed URL per file and
  counts successes and errors.
- **Download one object** (`GetFileByUrlTool`). Reads bucket, endpoint and
  key back out of an OSS URL, falls back to the configured account, fetches
  the object and reports it as a blob with metadata.
- **Download several objects** (`GetFilesByUrlsTool`). Splits a
  `;`-separated list, fetches each URL on its own and tallies the successes
  and the total size.
- **Download a public file** (`GetPublicFileByUrlTool`). A plain HTTP GET.
  The filename comes from the URL path, the `Content-Disposition` header or
  the content type.
- **The provider's credential check.** Checks required fields and the
  leading-character rules, probes the bucket, and maps OSS status codes to
  messages.

The modules follow the program:

| module | file | what it covers |
|---|---|---|
| `Results` | `results.dfy` | `Option`, `Result`, `Outcome`, bytes; Python truthiness of an optional string |
| `Text` | `text.dfy` | the `str` operations the plugin uses: `strip`, `lstrip`/`rstrip` of one character, `startswith`, `split`, `replace`, `lower`, `str(int)`, zero-padded digits |
| `PosixPath` | `posix_path.dfy` | `os.path.join`, `basename`, `splitext` |
| `Percent` | `percent.dfy` | `urllib.parse.unquote`, and `quote` as its partner |
| `Clock` | `clock.dfy` | injected `datetime.now()` readings and the date and timestamp texts printed from them |
| `ObjectKeys` | `object_key.dfy` | `_generate_object_key` |
| `Credentials` | `credentials.dfy` | the tools' and the provider's `_validate_credentials` |
| `UploadNaming` | `upload_naming.dfy` | how both upload tools name the stored file |
| `BatchUpload` | `multi_upload.dfy` | the batch upload tool |
| `SingleUpload` | `single_upload.dfy` | the single upload tool |
| `OssUrls` | `oss_url.dfy` | the upload URL and `_parse_oss_url` |
| `Downloads` | `downloads.dfy` | the download record, the reported extension, the blob metadata |
| `OssDownload` | `oss_download.dfy` | the single download tool and the retrieval it shares with the batch tool |
| `BatchDownload` | `batch_download.dfy` | the batch download tool |
| `PublicFetch` | `public_fetch.dfy` | the public download tool |

A tool's answer is a `Result`. `Err` carries the exact text the tool raises
or prints; `Ok` carries the data of the messages it yields. Everything
outside the plugin is a parameter:

- the OSS client;
- the HTTP client;
- the file system;
- the clock;
- `urlparse`;
- the `utils` helpers.

### Behaviour of the code that the model keeps

- **Doubled error prefixes.** Both upload tools wrap an error from their
  worker in the same prefix their `_invoke` adds again. A missing directory
  is reported as `Failed to upload files: Failed to upload files: Missing
  required parameter: directory` (`BatchUpload.ValidationStopsEarly`,
  `SingleUpload.MissingParameterRejected`).
- **The batch upload URL is always `https`.** The credentials dictionary
  the batch tool builds has no `use_https` entry, so the lookup always
  returns its default (`BatchUpload.UploadItem`). The single upload tool
  reads `use_https` from `_get_credentials()`.
- **Unreachable checks.** The authentication-field check inside
  `_upload_files` cannot fire after `_invoke`'s check
  (`BatchUpload.AuthCheckUnreachable`). The emptiness checks inside the
  batch download helper and the public fetch cannot fire either, because
  their callers have already rejected an empty URL
  (`BatchDownload.EmptyCheckUnreachable`, `PublicFetch.MissingUrlSinglePrefix`).
  The single download tool is different: its `_invoke` passes the parameters
  on unchecked, so the helper's own check is the one that rejects a missing
  URL (`OssDownload.MissingUrlRejected`).
- **A directory of only whitespace is accepted.** The batch tool strips the
  directory before its leading-space test, so that test never fires, and a
  blank directory passes as the empty one (`BatchUpload.DirectoryRule`).
- **An absolute filename discards the directory.** `os.path.join` lets it
  replace the directory (`ObjectKeys.AbsoluteFilenameDropsDirectory`).
- **`_parse_oss_url` splits any hostname that contains a `.` at its first
  `.`.** So `cdn.example.com` gives bucket `cdn` and endpoint
  `example.com`. Only a hostname without a dot falls back to the configured
  account (`OssDownload.CustomDomainUsesAccount`). A custom domain with a
  dot is therefore read as a bucket and an endpoint; the model keeps that.
- **A key with `#` or `?` does not come back.** The upload tools put the
  key into the URL they report without percent-encoding it. `urlparse` then
  reads `#` as the start of the fragment and `?` as the start of the query.
  So the download tools ask for the key only up to that character: a file
  stored as `a#1.pdf` is looked for as `a` (`OssUrls.QueryOrFragmentCutsKey`,
  `OssUrls.FragmentKeyExample`). A `;` in the key's last segment is cut off
  the same way, as the start of the parameters. The model keeps this
  behaviour.
- **The public `Content-Disposition` search is literal.** It runs only when
  the header contains the text `filename=` (`PublicFetch.DispositionNeedsLiteralKeyword`).
- **The extended form yields the charset label.** For `filename*=UTF-8''x`
  the regular expression captures `UTF-8` (`PublicFetch.ExtendedFormGivesCharset`).
- **Field errors get the unknown-error prefix.** The provider raises its
  field and leading-character errors inside its `try`, and the catch-all
  handler wraps them again (`Credentials.LocalFailureIgnoresProbe`).
- **The seconds timestamp can collide.** The single upload tool stamps
  filenames with `int(time.time())`, so two uploads of the same filename in
  the same second get the same name, and the model keeps that. The batch
  tool's millisecond stamp
  separates any two readings that differ by a millisecond or more
  (`Clock.MillisStampInjective`).

## Model

| member | source | states |
|---|---|---|
| `Credentials.FirstMissing` | tools/multi_upload_files.py:97-102 | the position of the first field, in checking order, whose value is absent or empty; every field before it is present |
| `Credentials.CheckTool` | tools/get_file_by_url.py:66-71 | a tool's credential check passes exactly when endpoint, bucket, access key id and secret are all non-empty, and then yields those four values |
| `Credentials.CheckToolNamesFirstMissing` | tools/upload_file.py:27-32 | a failed tool check names the first missing field in the order endpoint, bucket, access_key_id, access_key_secret |
| `Credentials.LocalCheck` | provider/aliyun_oss.py:15-29 | the provider's local checks pass exactly when the four fields are present and neither a non-empty directory nor a non-empty filename starts with a space, `/` or `\` |
| `Credentials.ValidateProvider` | provider/aliyun_oss.py:12-58 | the provider accepts the credentials exactly when the local checks pass and listing one object succeeds |
| `Credentials.LocalFailureIgnoresProbe` | provider/aliyun_oss.py:14-58 | a local failure is decided before OSS is contacted and is reported with the unknown-error prefix |
| `Credentials.MissingFieldReported` | provider/aliyun_oss.py:15-58 | a missing field is reported as `<field> 不能为空`, the first one in the order access_key_id, access_key_secret, endpoint, bucket, wrapped in the unknown-error prefix |
| `Credentials.DirectoryRuleReported` | provider/aliyun_oss.py:21-24 | a directory starting with a space, `/` or `\` is rejected before the filename rule and the probe |
| `Credentials.FilenameRuleReported` | provider/aliyun_oss.py:26-29 | with an acceptable directory, a filename starting with a space, `/` or `\` is rejected before the probe |
| `Credentials.EmptyOptionalValuesAccepted` | provider/aliyun_oss.py:20-40 | an absent or empty directory and filename never trip the rules: only the fields and the probe decide |
| `Credentials.StatusMessagesDistinct` | provider/aliyun_oss.py:42-56 | statuses 403, 404 and 401 and every other status each get a message of a different kind |
| `Credentials.UnknownPrefixMarksLocalOrOther` | provider/aliyun_oss.py:42-58 | a failure carries the unknown-error prefix exactly when a local check failed or the probe raised something other than an OSS error |
| `Text.Strip` | tools/multi_upload_files.py:126 | `str.strip()`: the result is a slice of the input with no whitespace at either end, and everything cut off is whitespace |
| `Text.LStripBy` | tools/get_file_by_url.py:138 | `lstrip('/')`: a suffix of the input that does not start with `/`, with only `/` removed before it |
| `Text.RStripBy` | tools/multi_upload_files.py:282 | `rstrip('/')`: a prefix of the input that does not end with `/`, with only `/` removed after it |
| `Text.StripByIdempotent` | tools/upload_file.py:95 | `strip('/')` applied twice is `strip('/')` once |
| `Text.ReplaceChar` | tools/multi_upload_files.py:302 | `replace('\\', '/')`: the same length, with exactly the matching characters changed |
| `Text.Lower` | tools/multi_upload_files.py:208 | `lower()` on ASCII letters: the same length, each upper-case letter lowered and other characters kept |
| `Text.SplitOn` | tools/get_files_by_urls.py:27 | `split(';')`: at least one piece, no piece contains the separator, and joining the pieces gives the input back |
| `Text.Decimal` | tools/multi_upload_files.py:176-178 | `str(n)`: non-empty digits without a leading zero unless `n` is 0 |
| `Text.DecimalParses` | tools/multi_upload_files.py:178 | reading `str(n)` back gives `n` |
| `Text.DecimalInjective` | tools/multi_upload_files.py:176-178 | different numbers give different decimal texts |
| `Text.IntText` | provider/aliyun_oss.py:56 | `str(i)` of a status code: non-empty, with a leading `-` exactly for a negative code |
| `Text.FixedDigits` | tools/multi_upload_files.py:291 | `f"{n:02d}"`-style zero padding: exactly `w` digits |
| `Text.FixedDigitsParses` | tools/upload_file.py:104 | reading `w` padded digits back gives the number modulo 10^w |
| `Text.FixedDigitsInjective` | tools/multi_upload_files.py:291 | different numbers below 10^w give different padded texts |
| `PosixPath.Join` | tools/multi_upload_files.py:299 | `os.path.join`: the result ends with the second part; it starts with the first part unless the second is absolute, in which case it is the second part |
| `PosixPath.Basename` | tools/get_file_by_url.py:116 | `os.path.basename`: the suffix after the last `/`, containing no `/` |
| `PosixPath.Splitext` | tools/multi_upload_files.py:187 | `os.path.splitext`: root and extension concatenate to the input; the extension is empty or one `.` followed by neither `/` nor `.`; the root's last component is not all dots |
| `PosixPath.SplitextNoExtension` | tools/upload_file.py:58 | when no extension is found, every `.` in the last component has only dots before it |
| `Percent.Unquote` | tools/get_file_by_url.py:138 | `unquote`: never longer than the input, and the identity on text without `%` |
| `Percent.UnquoteQuote` | tools/get_files_by_urls.py:151 | `unquote` recovers any ASCII key from its percent-encoded form |
| `Percent.QuoteAlphabet` | tools/get_files_by_urls.py:151 | `quote` writes only unescaped characters, `%` and hexadecimal digits |
| `Clock.YearText` | tools/upload_file.py:104 | `str(now.year)` is four digits |
| `Clock.Pad2` | tools/upload_file.py:104 | `f"{n:02d}"` of a month, day, hour, minute or second is two digits |
| `Clock.CompactDate` | tools/multi_upload_files.py:295 | `strftime('%Y%m%d')` is eight digits |
| `Clock.MillisStamp` | tools/multi_upload_files.py:213 | `strftime('%Y%m%d%H%M%S%f')[:-3]` is seventeen digits |
| `Clock.DropDigits` | tools/multi_upload_files.py:213 | dropping the last `b` digits one at a time is the quotient by `10^b`, so cutting three microsecond digits gives whole milliseconds |
| `Clock.MillisStampFields` | tools/multi_upload_files.py:213 | cutting three of the six microsecond digits leaves the milliseconds |
| `Clock.MillisStampInjective` | tools/multi_upload_files.py:211-214 | two readings print the same stamp only when they agree on every field down to the millisecond |
| `ObjectKeys.ParseDirectoryMode` | tools/multi_upload_files.py:288-297 | only the exact names `yyyy_mm_dd_hierarchy` and `yyyy_mm_dd_combined` select a date mode; anything else means no sub-directory |
| `ObjectKeys.GenerateObjectKey` | tools/multi_upload_files.py:279-302 | an object key never contains `\` |
| `ObjectKeys.BasePathLayout` | tools/upload_file.py:97-108 | the base path is the directory, followed for a date mode by `/` and the date sub-directories |
| `ObjectKeys.KeyLayout` | tools/upload_file.py:92-115 | for a relative filename the key is `directory/`, the date sub-directories and the filename, with `\` made `/` |
| `ObjectKeys.PlainKeyLayout` | tools/multi_upload_files.py:279-302 | for a directory without `\` and a filename without `/` or `\`, the key is exactly `d/f`, `d/YYYY/MM/DD/f` or `d/YYYYMMDD/f` |
| `ObjectKeys.KeyIsRelative` | tools/multi_upload_files.py:282-302 | a non-empty stripped directory and a relative filename give a key that does not start with `/` |
| `ObjectKeys.AbsoluteFilenameDropsDirectory` | tools/multi_upload_files.py:299-302 | an absolute filename replaces the directory and the date sub-directories |
| `ObjectKeys.OuterSlashesIgnored` | tools/upload_file.py:95 | slashes around the directory are stripped, not rejected |
| `ObjectKeys.DateDirHasNoBackslash` | tools/multi_upload_files.py:288-297 | the date sub-directories contain no `\` |
| `ObjectKeys.FlatKeyExample` | tools/multi_upload_files.py:279-302 | `docs` with `no_subdirectory` and `a.txt` gives `docs/a.txt` |
| `ObjectKeys.HierarchyKeyExample` | tools/multi_upload_files.py:279-302 | `/docs/` with `yyyy_mm_dd_hierarchy` on 2025-09-10 and `a.txt` gives `docs/2025/09/10/a.txt` |
| `ObjectKeys.CombinedKeyExample` | tools/upload_file.py:92-115 | `docs` with `yyyy_mm_dd_combined` on 2025-09-10 and `a.txt` gives `docs/20250910/a.txt` |
| `UploadNaming.FromHint` | tools/multi_upload_files.py:184-190 | a hint replaces the default base and extension only when `splitext` finds an extension, and then base and extension make up the hint |
| `UploadNaming.NormalizeExtension` | tools/multi_upload_files.py:205-208 | the extension is empty exactly when the input is; otherwise it starts with `.`; it has no upper-case letter |
| `UploadNaming.NormalizeExtensionIdempotent` | tools/multi_upload_files.py:205-208 | normalising twice is normalising once |
| `UploadNaming.NormalizeKeepsCanonical` | tools/multi_upload_files.py:205-208 | a lower-case extension that already starts with `.` passes through unchanged |
| `UploadNaming.DefaultsWithoutHints` | tools/multi_upload_files.py:172-180 | without hints or content type a file is named `upload.dat`, or `upload_<i+1>.dat` in a batch of several, with source name `unknown` |
| `UploadNaming.NameWithoutExtensionKeepsDefaults` | tools/multi_upload_files.py:184-190 | a `name` without an extension leaves both defaults in place and `filename` is not consulted |
| `UploadNaming.NameBeatsFilename` | tools/multi_upload_files.py:184-199 | a truthy `name` decides the hint whatever `filename` holds |
| `UploadNaming.ContentTypeOverridesHints` | tools/multi_upload_files.py:201-203 | a truthy content type replaces any extension the hints gave |
| `UploadNaming.DefaultBasesDistinct` | tools/multi_upload_files.py:176-178 | the default bases in a batch of several files are pairwise different |
| `UploadNaming.BatchFilenameShape` | tools/multi_upload_files.py:210-217 | a batch filename is base plus extension, or base, `_`, seventeen digits and extension in timestamp mode; removing the stamp gives the plain name |
| `UploadNaming.GeneratedSingleFilename` | tools/upload_file.py:54-59 | without a filename, the name is the seconds timestamp followed by the local path's extension |
| `UploadNaming.TimestampSuffixRemovable` | tools/upload_file.py:62-66 | in timestamp mode `_<seconds>` is inserted before the extension, and removing it gives the original filename |
| `UploadNaming.ExplicitFilenameUnchanged` | tools/upload_file.py:60-66 | in any other mode the caller's filename is used as given |
| `BatchUpload.UploadItem` | tools/multi_upload_files.py:143-273 | a failure is labelled with the file's position; a success was named by the batch rules, keyed by the generated key and accepted by the store, records the file's size and source name, and reports the `https` URL of bucket, endpoint and key when unsigned or what `sign_url` returned when signed (the converse is `BatchUpload.StoreSuccessReported`) |
| `BatchUpload.UnsupportedNeverStored` | tools/multi_upload_files.py:239-247 | an object that is neither a Dify file, a stream nor a path is never handed to the store and fails with its type text under its one-based position |
| `BatchUpload.StoreFailureReported` | tools/multi_upload_files.py:222-247 | a store failure is reported as `Failed to upload file <i+1>: ` and the store's message |
| `BatchUpload.StoreSuccessReported` | tools/multi_upload_files.py:248-263 | a file the store accepted is a success under its generated name and key, with the `https` URL when unsigned or the signed URL; a failing `sign_url` makes it an error under its position |
| `BatchUpload.AcceptedItemUploaded` | tools/multi_upload_files.py:222-273 | in an unsigned batch, every file the store accepts is reported as a success, whatever happened to the other files |
| `BatchUpload.AcceptedFileUploaded` | tools/multi_upload_files.py:222-273 | the same for the tool once its credential check and validation have passed |
| `BatchUpload.UploadAll` | tools/multi_upload_files.py:141-273 | exactly one result per file, in input order, each the attempt for that file alone |
| `BatchUpload.CountsAddUp` | tools/multi_upload_files.py:34-35 | the success count and the error count add up to the number of results |
| `BatchUpload.FilesInfoMatches` | tools/multi_upload_files.py:38-59 | the reply's file list has one entry per result, in order, with the same status and filename |
| `BatchUpload.ValidationStopsEarly` | tools/multi_upload_files.py:113-129 | a failed validation stops the tool before any file is touched, with the error prefix twice |
| `BatchUpload.ValidationOrder` | tools/multi_upload_files.py:114-123 | validation reports no files, then no directory, then more than ten files |
| `BatchUpload.StrippedNeverStartsWithSpace` | tools/multi_upload_files.py:126-128 | a stripped directory never starts with a space |
| `BatchUpload.DirectoryRule` | tools/multi_upload_files.py:125-129 | the directory is rejected exactly when, stripped, it starts with `/` or `\`; otherwise the stripped directory is used |
| `BatchUpload.AuthCheckUnreachable` | tools/multi_upload_files.py:131-135 | after `_invoke`'s credential check, `_upload_files` always reaches the upload loop |
| `BatchUpload.ResultsPerFile` | tools/multi_upload_files.py:143-273 | one result per file; a failure at position `k` is `file_<k+1>` with index `k`; a success's key is built from the stripped directory, its filename and its clock reading |
| `BatchUpload.FailureIsolation` | tools/multi_upload_files.py:266-273 | the result for a file depends only on that file and the batch size, never on the other files |
| `BatchUpload.ReportAccountsForEveryFile` | tools/multi_upload_files.py:17-59 | a successful reply accounts for every file of a batch of one to ten |
| `SingleUpload.InvokeUpload` | tools/upload_file.py:12-25 | every failure is reported with the `Failed to upload file: ` prefix |
| `SingleUpload.MissingParameterRejected` | tools/upload_file.py:44-48 | a missing file or directory is reported, prefixed twice, before the file system, the clock or OSS is consulted |
| `SingleUpload.MissingFileRejected` | tools/upload_file.py:50-51 | a path that does not exist is reported before anything is stored |
| `SingleUpload.StoreFailureReported` | tools/upload_file.py:75-90 | a store failure reaches the caller with the upload prefix twice and the store's own message |
| `SingleUpload.ReceiptShape` | tools/upload_file.py:34-90 | a success stores the file under the generated key, names it by the single-file rules, and reports `https` unless `use_https` is false |
| `SingleUpload.ReceiptUrlParsesBack` | tools/upload_file.py:79-80 | the reported URL, split by `urlparse` and read by `_parse_oss_url`, gives back the bucket, endpoint and key that were stored, when bucket and endpoint are plain hosts (`OssUrls.PlainHost`), the bucket has no `.`, and the key has no `? # ;`, tab or line break, no `%` and no leading `/` |
| `OssUrls.ParseOssUrl` | tools/get_file_by_url.py:129-150 | the key is the unquoted path without leading slashes; a bucket and an endpoint are found together, exactly for a hostname containing `.`, and they are its parts before and after the first `.` |
| `OssUrls.SplitHost` | tools/get_files_by_urls.py:154-159 | `split('.', 1)`: the two parts around the first `.` |
| `OssUrls.SplitStandardHost` | tools/get_file_by_url.py:141-146 | splitting `bucket.endpoint` for a bucket without `.` gives bucket and endpoint back |
| `OssUrls.PlainPathKey` | tools/get_files_by_urls.py:151 | a path without `%` gives the key as written, minus leading slashes |
| `OssUrls.ChooseBucket` | tools/get_file_by_url.py:93-96 | the URL's bucket when it is truthy, the configured bucket otherwise |
| `OssUrls.EnsureScheme` | tools/get_file_by_url.py:99-101 | the endpoint URL has a scheme; one that had one is unchanged, any other gets `http://` in front |
| `OssUrls.EnsureSchemeIdempotent` | tools/get_files_by_urls.py:112-114 | adding the scheme twice is adding it once |
| `OssUrls.DropParams` | tools/get_file_by_url.py:135 | the path that `urlparse` reports is a prefix of its input, and it is all of it when there is no `;` |
| `OssUrls.UrlPath` | tools/get_file_by_url.py:135-138 | the path `urlparse` reports never holds `#` or `?` |
| `OssUrls.PlainPathKept` | tools/get_file_by_url.py:135-138 | a path without `? # ;`, tab or line break reaches `path` unchanged |
| `OssUrls.QueryOrFragmentCutsKey` | tools/get_file_by_url.py:135-138 | a key holding `#` or `?` is read back only up to that character |
| `OssUrls.FragmentKeyExample` | tools/get_file_by_url.py:135-138 | `a#1.pdf` is read back as `a` |
| `OssUrls.RenderStandard` | tools/multi_upload_files.py:250-252 | for plain hosts and a key without `? # ;`, the `urlparse` record of an upload's URL puts it back together as that URL |
| `OssUrls.FileUrlRoundTrip` | tools/get_file_by_url.py:129-150 | parsing an upload's URL recovers its bucket, endpoint and key, for plain hosts, a bucket without `.`, and a key without `? # ;`, tab, line break or `%` that does not start with `/` |
| `OssUrls.QuotedKeyRoundTrip` | tools/get_files_by_urls.py:142-163 | for plain hosts and a bucket without `.`, any percent-encoded ASCII key not starting with `/` comes back whole |
| `Downloads.ResolveExtension` | tools/get_files_by_urls.py:43-46 | the reported extension is the filename's own when `splitext` finds one, the fallback otherwise |
| `Downloads.MetadataOf` | tools/get_file_by_url.py:38-50 | metadata copies name, type, size and extension; the image flags are set exactly for `image/` types |
| `Downloads.OwnExtensionWins` | tools/get_public_file_by_url.py:25-28 | a filename's own extension does not depend on the content type |
| `OssDownload.RequestFor` | tools/get_file_by_url.py:89-106 | the client is asked for the parsed key, at the chosen bucket and the chosen endpoint with a scheme |
| `OssDownload.FetchObject` | tools/get_file_by_url.py:89-124 | the retrieval fails exactly when the client fails; a download is named after the key's last component and sized by its content |
| `OssDownload.ImageExtension` | tools/get_file_by_url.py:26-35 | a fallback extension exists exactly for PNG, JPEG and GIF, and is four characters starting with `.` |
| `OssDownload.InvokeSingle` | tools/get_file_by_url.py:16-64 | a failure carries the download prefix; a success carries the metadata with the resolved extension |
| `OssDownload.MissingUrlRejected` | tools/get_file_by_url.py:76-79 | a missing URL is reported with both prefixes before the client is consulted |
| `OssDownload.ClientFailureReported` | tools/get_file_by_url.py:105-127 | a client failure reaches the user with both prefixes and its own text |
| `OssDownload.InvokeAfterCheck` | tools/get_file_by_url.py:17-22 | past the credential check, the tool's answer is the retrieval's, with the download prefix on a failure |
| `OssDownload.DownloadShape` | tools/get_file_by_url.py:106-124 | a download is the object's bytes, the key's last component, the header's type or `application/octet-stream`, and the byte count |
| `OssDownload.ImageFallbackOnly` | tools/get_file_by_url.py:25-35 | a filename without an extension gets one exactly for PNG, JPEG and GIF |
| `OssDownload.UploadedUrlRequest` | tools/get_file_by_url.py:89-106 | the URL an upload reports leads the download to the same bucket and key at the named endpoint, for plain hosts, a bucket without `.`, and a key without `? # ;`, tab, line break or `%` that does not start with `/` |
| `OssDownload.CustomDomainUsesAccount` | tools/get_file_by_url.py:93-101 | a hostname without `.` falls back to the configured bucket and endpoint |
| `BatchDownload.SplitUrlList` | tools/get_files_by_urls.py:27 | every URL of the list is non-empty, has no `;` and no whitespace at either end |
| `BatchDownload.KeepStrippedClean` | tools/get_files_by_urls.py:27 | the stripped non-empty pieces of a `;` split are clean URLs |
| `BatchDownload.CleanUrlStripped` | tools/get_files_by_urls.py:27 | a clean URL is its own stripped form |
| `BatchDownload.SplitUrlListConcat` | tools/get_files_by_urls.py:27 | the list of `a;b` is the list of `a` followed by the list of `b` |
| `BatchDownload.SplitJoinRoundTrip` | tools/get_files_by_urls.py:27 | joining clean URLs with `;` and reading the list gives them back |
| `BatchDownload.OutcomeOf` | tools/get_files_by_urls.py:37-71 | a URL is fetched exactly when its retrieval succeeds; otherwise its message names the URL and carries the failure text |
| `BatchDownload.DownloadAll` | tools/get_files_by_urls.py:36-71 | one outcome per URL, in order, each depending on that URL alone |
| `BatchDownload.Tally` | tools/get_files_by_urls.py:33-40 | the running counters end as the number of fetched files and the sum of their sizes |
| `BatchDownload.InvokeBatch` | tools/get_files_by_urls.py:15-80 | the tool succeeds exactly when the credentials pass and the list holds a URL; its outcomes are those of every listed URL in order, the success count counts the retrieved files and the total size sums their sizes; a failure carries the batch prefix |
| `BatchDownload.AllFetched` | tools/get_files_by_urls.py:33-62 | every URL's outcome is a success exactly when its retrieval succeeded |
| `BatchDownload.SummaryCountsRetrievals` | tools/get_files_by_urls.py:33-78 | the reported success count is at most the number of URLs, equals it exactly when every retrieval succeeded, and is 0 with a total size of 0 when every retrieval failed |
| `BatchDownload.SuccessCountBounded` | tools/get_files_by_urls.py:74-77 | the success count never exceeds the number of URLs, and equals it exactly when every URL was fetched |
| `BatchDownload.NothingFetchedNoSize` | tools/get_files_by_urls.py:74-77 | when no URL was fetched, the count and the total size are 0 |
| `BatchDownload.EmptyCheckUnreachable` | tools/get_files_by_urls.py:89-92 | a listed URL fails exactly when the client fails: the emptiness check never fires |
| `BatchDownload.BlankListRejected` | tools/get_files_by_urls.py:27-30 | a list with no URL is rejected before anything is fetched |
| `BatchDownload.StripBlank` | tools/get_files_by_urls.py:27 | a piece of only whitespace strips to nothing |
| `BatchDownload.BlanksGiveNoUrls` | tools/get_files_by_urls.py:27-30 | a list of blanks and separators only yields no URL |
| `PublicFetch.MediaType` | tools/get_public_file_by_url.py:85-89 | the reported type has no `;`; a header with a `;` is cut to the stripped text before it, any other is kept |
| `PublicFetch.MediaTypeIdempotent` | tools/get_public_file_by_url.py:88-89 | cutting a media type again changes nothing |
| `PublicFetch.MediaTypeIgnoresParameters` | tools/get_public_file_by_url.py:88-89 | the parameters after `;` never reach the reported type |
| `PublicFetch.NameRun` | tools/get_public_file_by_url.py:98 | the longest run of `[^"';\s]` characters from a position |
| `PublicFetch.GroupStart` | tools/get_public_file_by_url.py:98 | where the capture begins when `filename[*]?=["']?` matches at a position |
| `PublicFetch.MatchAt` | tools/get_public_file_by_url.py:98-100 | a capture is non-empty and made only of name characters |
| `PublicFetch.SearchFrom` | tools/get_public_file_by_url.py:98 | `re.search` finds the leftmost position where the pattern matches, and no match exists when it finds none |
| `PublicFetch.DispositionName` | tools/get_public_file_by_url.py:95-100 | the header's name is made of name characters and exists only when the header contains `filename=` |
| `PublicFetch.NamedParameter` | tools/get_public_file_by_url.py:98 | `filename=` with an optional quote and a name captures exactly that name |
| `PublicFetch.NameRunExact` | tools/get_public_file_by_url.py:98 | the run is exactly as long as the name characters that follow |
| `PublicFetch.ExtendedFormGivesCharset` | tools/get_public_file_by_url.py:98 | `filename*=UTF-8''name` captures `UTF-8` |
| `PublicFetch.ExtendedFormFirstWins` | tools/get_public_file_by_url.py:95-100 | a header opening with the extended form names the file `UTF-8` |
| `PublicFetch.PublicFilename` | tools/get_public_file_by_url.py:91-107 | the filename is never empty: the decoded path's last component, else the header's name, else `downloaded_file` plus the type's extension |
| `PublicFetch.FetchPublic` | tools/get_public_file_by_url.py:59-121 | succeeds exactly for a non-empty URL with scheme and network location and a successful request; it carries the body and its size, the media type of the `Content-Type` header with `application/octet-stream` as default, and the name chosen from the path, the `Content-Disposition` header or the type |
| `PublicFetch.ReportedContentType` | tools/get_public_file_by_url.py:83-88 | the tool reports `application/octet-stream` for a response without `Content-Type`, and the header cut at its first `;` otherwise |
| `PublicFetch.InvokePublic` | tools/get_public_file_by_url.py:13-57 | a failure carries the public prefix; a success carries the metadata with the resolved extension |
| `PublicFetch.MalformedUrlNotRequested` | tools/get_public_file_by_url.py:65-67 | a URL without scheme or network location is rejected before any request |
| `PublicFetch.MissingUrlSinglePrefix` | tools/get_public_file_by_url.py:18-19 | a missing URL gets the public prefix once, and the retrieval's emptiness message never appears |
| `PublicFetch.RequestFailureReported` | tools/get_public_file_by_url.py:116-118 | a request failure is reported with the request prefix and its own text |
| `PublicFetch.PathNameWins` | tools/get_public_file_by_url.py:92-95 | a path ending in a name decides the filename whatever the headers say |
| `PublicFetch.DispositionNeedsLiteralKeyword` | tools/get_public_file_by_url.py:95-107 | a header without the text `filename=` is ignored, even with the extended form |

## Left out

- Network and SDK calls are parameters that answer with a value or an error message: `oss2.Bucket` with `put_object`, `put_object_from_file`, `sign_url`, `get_object` and `list_objects`, and `requests.get` with `raise_for_status`. Authentication, request headers and the 30-second timeout are not modelled.
- `urllib.parse.urlparse` is not modelled for arbitrary text. A URL enters the tools as the record of the fields they read: scheme, netloc, hostname and path. For the URL an upload reports, `OssUrls.StandardParts` builds that record: the path part follows `urlparse` (deleted characters, fragment, query, parameters), and the host part is modelled only for plain hosts (`OssUrls.PlainHost`). A plain host is ASCII without capitals and has none of `/ ? # @ : [ ]`.
- `Percent.Unquote` decodes each `%XX` to the character with that code. This is `unquote` for escapes below 0x80; multi-byte UTF-8 sequences are not decoded as UTF-8.
- `Text.Lower` lower-cases only the ASCII letters; Python's `lower()` also maps other scripts.
- The `utils` helpers (`get_file_type`, `get_file_extension`, `get_extension_from_content_type`) are not part of this model. They appear as function parameters; a helper that raises is not modelled.
- Clocks are values: each `datetime.now()` reading and `int(time.time())` is passed in. The batch tool reads the clock separately for the stamp and for the key date, and the model keeps the two readings apart.
- The file system is a parameter: `os.path.exists` and `os.path.getsize`. A readable stream is modelled as its whole content and the position it stands at; the tool reads the rest for the size and uploads from position 0. A stream that has `read` but no `seek` or `tell` is not modelled.
- Success texts and sizes in MB (floating point, `:.2f`) are not modelled. The counts, byte sizes and per-URL failure texts are.
- Generators are results. A tool that yields messages is modelled by what those messages carry: a `Result` for one file, or a list of per-URL outcomes for the batch download. Whether a text or an exception reaches the caller is not distinguished; the text is the same.
- `_get_credentials`, which the single upload tool calls, is not defined in `tools/upload_file.py` and is not part of this model. It is taken to return the runtime credentials, including the optional `use_https` entry.
- `BatchUpload.UploadItem`: the URL is stated only for an unsigned upload. A signed URL is whatever `sign_url` returns, so the contract states nothing about its text.
- `OssUrls.FileUrlRoundTrip`: the round trip is stated for plain hosts, a bucket without `.` and a key without `? # ;`, tab, line break or `%`. Any other bucket is split at its own first `.`. `urlparse` lower-cases the hostname and reads a `:` as a port. A `#`, `?` or `;` in the key ends the path (`OssUrls.QueryOrFragmentCutsKey`), and a `%` is decoded on the way back, so no round trip holds there.
