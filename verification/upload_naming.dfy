/** How the two upload tools name what they store. The batch tool builds a
    name from a default base, the hints an uploaded file object carries
    (`name`, then `filename`), the extension its content type implies and,
    on request, a millisecond timestamp; the single-file tool keeps the
    caller's filename, suffixes it with a seconds timestamp, or makes one up
    from the timestamp and the extension of the local path.
 */
module UploadNaming {
  import opened Results
  import opened Text
  import opened PosixPath
  import opened Clock

  /** The kinds of object the batch tool accepts in `files`: a Dify `File`
      (with its bytes), a readable stream (with its whole content and the position it stands at), a
      local path (whether it exists, and its size), or anything else (with
      the text `str(type(file))` prints). */
  datatype FileSource =
    | DifyFile(blob: seq<byte>)
    | Readable(content: seq<byte>, position: nat)
    | PathRef(path: string, onDisk: bool, size: nat)
    | Unsupported(typeText: string)

  /** One element of `files`: its source and the optional `name`, `filename`
      and `content_type` attributes the naming rules look at. */
  datatype FileEntry = FileEntry(source: FileSource, name: Option<string>, filename: Option<string>, contentType: Option<string>)

  /** The base name, the raw extension, and the original name reported as
      `SourceFileName`, before the content type and normalisation. */
  datatype Hint = Hint(base: string, ext: string, sourceName: string)

  /** `upload`, or `upload_<n>` with the one-based position when the batch
      holds more than one file. */
  function DefaultBase(i: nat, count: nat): string {
    if count > 1 then "upload_" + Decimal(i + 1) else "upload"
  }

  const DefaultExtension: string := ".dat"

  /** A hint only replaces the defaults when `splitext` finds an extension in it. */
  function FromHint(original: string, fallback: string): (h: Hint)
    ensures h.sourceName == original
    ensures Splitext(original).1 != [] ==> h.base + h.ext == original
    ensures Splitext(original).1 == [] ==> h.base == fallback && h.ext == DefaultExtension
  {
    var (root, ext) := Splitext(original);
    if ext != [] then Hint(root, ext, original) else Hint(fallback, DefaultExtension, original)
  }

  /** The base and extension the `name`/`filename` hints give: `name` wins
      when it is truthy, `filename` is only looked at otherwise. */
  function HintOf(e: FileEntry, i: nat, count: nat): Hint {
    var fallback := DefaultBase(i, count);
    if Truthy(e.name) then FromHint(e.name.value, fallback)
    else if Truthy(e.filename) then FromHint(e.filename.value, fallback)
    else Hint(fallback, DefaultExtension, "unknown")
  }

  /** A `.` is added in front of a non-empty extension that lacks one, and the
      result is lower-cased. */
  function NormalizeExtension(x: string): (r: string)
    ensures r == [] <==> x == []
    ensures r != [] ==> r[0] == '.'
    ensures forall k :: 0 <= k < |r| ==> !IsUpper(r[k])
  {
    Lower(if x != [] && !StartsWith(x, ".") then "." + x else x)
  }

  /** The extension the batch tool ends up with: a truthy content type
      replaces whatever the hints gave with `get_file_extension(file)`. */
  function BatchExtension(e: FileEntry, i: nat, count: nat, fileExtension: FileEntry -> string): string {
    NormalizeExtension(if Truthy(e.contentType) then fileExtension(e) else HintOf(e, i, count).ext)
  }

  /** The stored filename of the `i`-th of `count` files; `stamp` is the
      reading of `datetime.now()` taken for it. */
  function BatchFilename(e: FileEntry, i: nat, count: nat, filenameMode: string, stamp: Moment,
                         fileExtension: FileEntry -> string): (name: string)
  {
    var base := HintOf(e, i, count).base;
    var ext := BatchExtension(e, i, count, fileExtension);
    if filenameMode == "filename_timestamp" then base + "_" + MillisStamp(stamp) + ext
    else base + ext
  }

  // ---------------------------------------------------------------------------
  // Properties of the batch rules

  lemma LowerIdentity(s: string)
    requires forall k :: 0 <= k < |s| ==> !IsUpper(s[k])
    ensures Lower(s) == s
  {
  }

  /** Normalising twice is normalising once. */
  lemma NormalizeExtensionIdempotent(x: string)
    ensures NormalizeExtension(NormalizeExtension(x)) == NormalizeExtension(x)
  {
    var r := NormalizeExtension(x);
    if r != [] {
      assert StartsWith(r, ".") by { assert r[..1] == ['.']; }
    }
    LowerIdentity(r);
  }

  /** An extension that already starts with `.` and has no upper-case letter
      passes through unchanged. */
  lemma NormalizeKeepsCanonical(x: string)
    requires x == [] || StartsWith(x, ".")
    requires forall k :: 0 <= k < |x| ==> !IsUpper(x[k])
    ensures NormalizeExtension(x) == x
  {
    LowerIdentity(x);
  }

  /** Without hints or content type a file is `upload.dat`, or
      `upload_<i+1>.dat` in a batch of several. */
  lemma DefaultsWithoutHints(e: FileEntry, i: nat, count: nat, stamp: Moment, fileExtension: FileEntry -> string)
    requires !Truthy(e.name) && !Truthy(e.filename) && !Truthy(e.contentType)
    ensures BatchFilename(e, i, count, "filename", stamp, fileExtension) == DefaultBase(i, count) + ".dat"
    ensures HintOf(e, i, count).sourceName == "unknown"
  {
    NormalizeKeepsCanonical(".dat");
  }

  /** A `name` without an extension leaves both defaults in place (and
      `filename` is not consulted). */
  lemma NameWithoutExtensionKeepsDefaults(e: FileEntry, i: nat, count: nat)
    requires Truthy(e.name) && Splitext(e.name.value).1 == []
    ensures HintOf(e, i, count) == Hint(DefaultBase(i, count), ".dat", e.name.value)
  {
  }

  /** A truthy `name` decides the hint: `filename` makes no difference. */
  lemma NameBeatsFilename(e: FileEntry, other: Option<string>, i: nat, count: nat)
    requires Truthy(e.name)
    ensures HintOf(e, i, count) == HintOf(e.(filename := other), i, count)
    ensures HintOf(e, i, count).sourceName == e.name.value
  {
  }

  /** A truthy content type overrides any extension the hints carried. */
  lemma ContentTypeOverridesHints(e: FileEntry, n: Option<string>, f: Option<string>, i: nat, count: nat,
                                  fileExtension: FileEntry -> string)
    requires Truthy(e.contentType)
    ensures BatchExtension(e, i, count, fileExtension) == NormalizeExtension(fileExtension(e))
    ensures BatchExtension(e.(name := n, filename := f), i, count, fileExtension)
         == NormalizeExtension(fileExtension(e.(name := n, filename := f)))
  {
  }

  /** The default bases of a batch of several files are pairwise different. */
  lemma DefaultBasesDistinct(i: nat, j: nat, count: nat)
    requires count > 1 && i != j
    ensures DefaultBase(i, count) != DefaultBase(j, count)
  {
    if DefaultBase(i, count) == DefaultBase(j, count) {
      var p := "upload_";
      assert Decimal(i + 1) == (p + Decimal(i + 1))[|p|..];
      assert Decimal(j + 1) == (p + Decimal(j + 1))[|p|..];
      DecimalInjective(i + 1, j + 1);
      assert false;
    }
  }

  /** The shape of a batch filename: the hint's base, then in timestamp mode
      `_` and seventeen digits, then an extension that is empty or starts
      with `.`; cutting out the stamp leaves the plain name. */
  lemma BatchFilenameShape(e: FileEntry, i: nat, count: nat, stamp: Moment, fileExtension: FileEntry -> string)
    ensures var base := HintOf(e, i, count).base;
            var ext := BatchExtension(e, i, count, fileExtension);
            var stamped := BatchFilename(e, i, count, "filename_timestamp", stamp, fileExtension);
            && BatchFilename(e, i, count, "filename", stamp, fileExtension) == base + ext
            && stamped == base + "_" + MillisStamp(stamp) + ext
            && |stamped| == |base| + 18 + |ext|
            && stamped[..|base|] + stamped[|base| + 18..] == base + ext
            && (ext == [] || ext[0] == '.')
  {
    var base := HintOf(e, i, count).base;
    var ext := BatchExtension(e, i, count, fileExtension);
    var stamped := base + "_" + MillisStamp(stamp) + ext;
    assert stamped[..|base|] == base;
    assert stamped[|base| + 18..] == ext;
  }

  // ---------------------------------------------------------------------------
  // The single-file rules

  /** The filename `_upload_file` stores under; `seconds` is
      `int(time.time())`. */
  function SingleFilename(filePath: string, filename: Option<string>, filenameMode: string, seconds: nat): string {
    if !Truthy(filename) then Decimal(seconds) + Splitext(filePath).1
    else if filenameMode == "filename_timestamp" then
      var (root, ext) := Splitext(filename.value);
      root + "_" + Decimal(seconds) + ext
    else filename.value
  }

  /** With no filename, the name is the decimal timestamp followed by the
      extension of the local path (`.` and what follows, or nothing). */
  lemma GeneratedSingleFilename(filePath: string, filename: Option<string>, mode: string, seconds: nat)
    requires !Truthy(filename)
    ensures var name := SingleFilename(filePath, filename, mode, seconds);
            var ext := Splitext(filePath).1;
            && name == Decimal(seconds) + ext
            && filePath[|filePath| - |ext|..] == ext
            && (ext == [] || (ext[0] == '.' && '/' !in ext))
  {
    var (root, ext) := Splitext(filePath);
    assert filePath == root + ext;
  }

  /** In timestamp mode the name is the original with `_<seconds>` inserted
      before its extension: removing that insertion gives the original back. */
  lemma TimestampSuffixRemovable(filePath: string, filename: string, seconds: nat)
    requires filename != []
    ensures var name := SingleFilename(filePath, Some(filename), "filename_timestamp", seconds);
            var root := Splitext(filename).0;
            var t := |Decimal(seconds)| + 1;
            && |name| == |filename| + t
            && name[..|root|] == root
            && name[|root|..|root| + t] == "_" + Decimal(seconds)
            && name[..|root|] + name[|root| + t..] == filename
  {
    var (root, ext) := Splitext(filename);
    var mid := "_" + Decimal(seconds);
    var name := root + mid + ext;
    assert name == root + "_" + Decimal(seconds) + ext;
    assert name[..|root|] == root;
    assert name[|root|..|root| + |mid|] == mid;
    assert name[|root| + |mid|..] == ext;
  }

  /** In any other mode an explicit filename is used as given. */
  lemma ExplicitFilenameUnchanged(filePath: string, filename: string, mode: string, seconds: nat)
    requires filename != [] && mode != "filename_timestamp"
    ensures SingleFilename(filePath, Some(filename), mode, seconds) == filename
  {
  }
}
