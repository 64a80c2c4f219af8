/** The object-key builder `_generate_object_key`, which both upload tools
    define identically: strip `/` from the ends of the directory, add the
    date sub-directories the mode asks for, join the filename with
    `os.path.join`, and turn every `\` into `/`.
 */
module ObjectKeys {
  import opened Text
  import opened PosixPath
  import opened Clock

  datatype DirectoryMode = NoSubdirectory | DateHierarchy | DateCombined

  /** The `directory_mode` parameter: the two date modes are recognised by
      their exact names, and any other value behaves as `no_subdirectory`. */
  function ParseDirectoryMode(s: string): (m: DirectoryMode)
    ensures m == DateHierarchy <==> s == "yyyy_mm_dd_hierarchy"
    ensures m == DateCombined <==> s == "yyyy_mm_dd_combined"
  {
    if s == "yyyy_mm_dd_hierarchy" then DateHierarchy
    else if s == "yyyy_mm_dd_combined" then DateCombined
    else NoSubdirectory
  }

  /** `_generate_object_key(directory, directory_mode, filename)`, with the
      reading of `datetime.now()` passed in as `today`. */
  function GenerateObjectKey(directory: string, mode: string, filename: string, today: Moment): (key: string)
    ensures '\\' !in key
  {
    var d := StripBy(directory, '/');
    ReplaceChar(Join(BasePath(d, ParseDirectoryMode(mode), today), filename), '\\', '/')
  }

  /** The directory with the date sub-directories of the mode joined on. */
  function BasePath(d: string, mode: DirectoryMode, today: Moment): string {
    match mode
    case DateHierarchy => Join(Join(Join(d, YearText(today)), Pad2(today.month)), Pad2(today.day))
    case DateCombined => Join(d, CompactDate(today))
    case NoSubdirectory => d
  }

  // ---------------------------------------------------------------------------
  // The layout of a key, stated without `os.path.join`

  /** The directory part of a key: nothing for an empty directory, otherwise
      the directory followed by one `/`. */
  function DirPrefix(d: string): string {
    if d == [] then "" else d + "/"
  }

  /** The date sub-directories a mode adds, each followed by `/`. */
  function DateDir(mode: DirectoryMode, today: Moment): string {
    match mode
    case NoSubdirectory => ""
    case DateHierarchy => YearText(today) + "/" + Pad2(today.month) + "/" + Pad2(today.day) + "/"
    case DateCombined => CompactDate(today) + "/"
  }

  lemma JoinRelative(a: string, b: string)
    requires !StartsWith(b, "/") && (a == [] || a[|a| - 1] != '/')
    ensures Join(a, b) == DirPrefix(a) + b
  {
  }

  lemma Regroup(p: string, y: string, m: string, dd: string)
    ensures p + y + "/" + m + "/" + dd + "/" == p + (y + "/" + m + "/" + dd + "/")
  {
  }

  lemma DigitsHaveNoSlash(s: string)
    requires AllDigits(s) && s != []
    ensures !StartsWith(s, "/") && s[|s| - 1] != '/'
  {
    assert IsDigit(s[0]) && IsDigit(s[|s| - 1]);
  }

  /** Joining the date text onto the directory gives the directory prefix and
      the date sub-directories, without their final `/`. */
  lemma BasePathLayout(d: string, mode: DirectoryMode, today: Moment)
    requires d == [] || d[|d| - 1] != '/'
    ensures mode == NoSubdirectory ==> BasePath(d, mode, today) == d
    ensures mode != NoSubdirectory ==> BasePath(d, mode, today) + "/" == DirPrefix(d) + DateDir(mode, today)
  {
    match mode
    case NoSubdirectory =>
    case DateHierarchy =>
      var y, m, dd := YearText(today), Pad2(today.month), Pad2(today.day);
      DigitsHaveNoSlash(y);
      DigitsHaveNoSlash(m);
      DigitsHaveNoSlash(dd);
      JoinRelative(d, y);
      var a := DirPrefix(d) + y;
      assert a[|a| - 1] == y[3];
      JoinRelative(a, m);
      assert DirPrefix(a) == a + "/";
      var b := a + "/" + m;
      assert b[|b| - 1] == m[1];
      JoinRelative(b, dd);
      assert DirPrefix(b) == b + "/";
      Regroup(DirPrefix(d), y, m, dd);
    case DateCombined =>
      var c := CompactDate(today);
      DigitsHaveNoSlash(c);
      JoinRelative(d, c);
      assert BasePath(d, mode, today) == DirPrefix(d) + c;
      assert DateDir(mode, today) == c + "/";
  }

  /** The date sub-directories end in a digit and `/`. */
  lemma DateDirEnd(m: DirectoryMode, today: Moment)
    requires m != NoSubdirectory
    ensures var dt := DateDir(m, today); |dt| >= 2 && dt[|dt| - 2] != '/'
  {
    var dt := DateDir(m, today);
    var t := if m == DateHierarchy then Pad2(today.day) else CompactDate(today);
    DigitsHaveNoSlash(t);
    assert dt[|dt| - 2] == t[|t| - 1];
  }

  lemma JoinedLayout(d: string, m: DirectoryMode, today: Moment, filename: string)
    requires d == [] || d[|d| - 1] != '/'
    requires !StartsWith(filename, "/")
    ensures Join(BasePath(d, m, today), filename) == DirPrefix(d) + DateDir(m, today) + filename
  {
    if m == NoSubdirectory {
      BasePathLayout(d, m, today);
      JoinRelative(d, filename);
    } else {
      var base := BasePath(d, m, today);
      var dt := DateDir(m, today);
      assert base + "/" == DirPrefix(d) + dt by {
        BasePathLayout(d, m, today);
      }
      assert base != [] && base[|base| - 1] != '/' by {
        DateDirEnd(m, today);
        SlashAppended(base, DirPrefix(d), dt);
      }
      JoinRelative(base, filename);
      assert DirPrefix(base) == base + "/";
    }
  }

  lemma SlashAppended(x: string, p: string, t: string)
    requires x + "/" == p + t && |t| >= 2 && t[|t| - 2] != '/'
    ensures x != [] && x[|x| - 1] != '/'
  {
    assert (x + "/")[|x| - 1] == (p + t)[|x| - 1];
  }

  /** A key is `directory/`, then the date sub-directories, then the filename,
      with every `\` made a `/`, as long as the filename is not absolute. */
  lemma KeyLayout(directory: string, mode: string, filename: string, today: Moment)
    requires !StartsWith(filename, "/")
    ensures GenerateObjectKey(directory, mode, filename, today)
         == ReplaceChar(DirPrefix(StripBy(directory, '/')) + DateDir(ParseDirectoryMode(mode), today) + filename, '\\', '/')
  {
    var d := StripBy(directory, '/');
    assert d == [] || d[|d| - 1] != '/';
    JoinedLayout(d, ParseDirectoryMode(mode), today, filename);
  }

  lemma DigitsHaveNoBackslash(s: string)
    requires AllDigits(s)
    ensures '\\' !in s
  {
    forall i | 0 <= i < |s| ensures s[i] != '\\' {
      assert IsDigit(s[i]);
    }
  }

  lemma DateDirHasNoBackslash(m: DirectoryMode, today: Moment)
    ensures '\\' !in DateDir(m, today)
  {
    DigitsHaveNoBackslash(YearText(today));
    DigitsHaveNoBackslash(Pad2(today.month));
    DigitsHaveNoBackslash(Pad2(today.day));
    DigitsHaveNoBackslash(CompactDate(today));
  }

  /** With a directory free of `\` and a plain filename (no `/`, no `\`), the
      key is exactly `d/f`, `d/YYYY/MM/DD/f` or `d/YYYYMMDD/f`, where `d` is
      the directory with its outer slashes removed. */
  lemma PlainKeyLayout(directory: string, mode: string, filename: string, today: Moment)
    requires '\\' !in directory && '/' !in filename && '\\' !in filename
    ensures GenerateObjectKey(directory, mode, filename, today)
         == DirPrefix(StripBy(directory, '/')) + DateDir(ParseDirectoryMode(mode), today) + filename
  {
    var d := StripBy(directory, '/');
    var dt := DateDir(ParseDirectoryMode(mode), today);
    var whole := DirPrefix(d) + dt + filename;
    assert GenerateObjectKey(directory, mode, filename, today) == ReplaceChar(whole, '\\', '/') by {
      assert filename == [] || filename[0] != '/';
      NotStartsWithChar(filename, '/');
      KeyLayout(directory, mode, filename, today);
    }
    assert '\\' !in d by {
      var l := LStripBy(directory, '/');
      assert forall i :: 0 <= i < |d| ==> d[i] == directory[|directory| - |l| + i];
    }
    assert '\\' !in dt by {
      DateDirHasNoBackslash(ParseDirectoryMode(mode), today);
    }
    assert '\\' !in whole;
    ReplaceCharAbsent(whole, '\\', '/');
  }

  /** A key does not start with `/` when the stripped directory is non-empty
      and does not start with `\`, unless the filename itself is absolute. */
  lemma KeyIsRelative(directory: string, mode: string, filename: string, today: Moment)
    requires StripBy(directory, '/') != [] && StripBy(directory, '/')[0] != '\\'
    requires !StartsWith(filename, "/")
    ensures GenerateObjectKey(directory, mode, filename, today) != []
    ensures GenerateObjectKey(directory, mode, filename, today)[0] != '/'
  {
    KeyLayout(directory, mode, filename, today);
    var d := StripBy(directory, '/');
    var whole := DirPrefix(d) + DateDir(ParseDirectoryMode(mode), today) + filename;
    assert whole[0] == d[0];
  }

  /** `os.path.join` lets an absolute filename replace everything before it:
      the directory and the date sub-directories are then dropped. */
  lemma AbsoluteFilenameDropsDirectory(directory: string, mode: string, filename: string, today: Moment)
    requires StartsWith(filename, "/")
    ensures GenerateObjectKey(directory, mode, filename, today) == ReplaceChar(filename, '\\', '/')
  {
  }

  /** Slashes around the directory are stripped, not rejected: `/docs/` and
      `docs` give the same key. */
  lemma OuterSlashesIgnored(directory: string, mode: string, filename: string, today: Moment)
    ensures GenerateObjectKey(directory, mode, filename, today)
         == GenerateObjectKey(StripBy(directory, '/'), mode, filename, today)
  {
    StripByIdempotent(directory, '/');
  }

  lemma ExampleDate(today: Moment)
    requires today.year == 2025 && today.month == 9 && today.day == 10
    ensures YearText(today) == "2025" && Pad2(today.month) == "09" && Pad2(today.day) == "10"
  {
    assert Decimal(2) == "2" && Decimal(20) == "20" && Decimal(202) == "202";
    assert FixedDigits(0, 1) == "0" && FixedDigits(1, 1) == "1";
  }

  lemma ExampleDateDirs(today: Moment)
    requires today.year == 2025 && today.month == 9 && today.day == 10
    ensures DateDir(DateHierarchy, today) == "2025/09/10/"
    ensures DateDir(DateCombined, today) == "20250910/"
  {
    ExampleDate(today);
  }

  lemma DocsStripped(directory: string)
    requires directory == "docs" || directory == "/docs/"
    ensures StripBy(directory, '/') == "docs"
  {
    assert "/docs/"[1..] == "docs/" && "docs/"[..4] == "docs";
    assert LStripBy("/docs/", '/') == "docs/";
    assert RStripBy("docs/", '/') == "docs";
    assert LStripBy("docs", '/') == "docs";
    assert RStripBy("docs", '/') == "docs";
  }

  lemma HierarchyKeyText()
    ensures "docs/" + "2025/09/10/" + "a.txt" == "docs/2025/09/10/a.txt"
  {
  }

  lemma CombinedKeyText()
    ensures "docs/" + "20250910/" + "a.txt" == "docs/20250910/a.txt"
  {
  }

  /** `no_subdirectory` with directory `docs` and file `a.txt` gives `docs/a.txt`. */
  lemma FlatKeyExample(directory: string, mode: string, filename: string, today: Moment)
    requires directory == "docs" && mode == "no_subdirectory" && filename == "a.txt"
    ensures GenerateObjectKey(directory, mode, filename, today) == "docs/a.txt"
  {
    ExampleNamesPlain();
    DocsStripped(directory);
    DocsPrefix();
    PlainKeyLayout(directory, mode, filename, today);
    assert DateDir(ParseDirectoryMode(mode), today) == "";
    FlatKeyText();
  }

  lemma FlatKeyText()
    ensures "docs/" + "" + "a.txt" == "docs/a.txt"
  {
  }

  /** `yyyy_mm_dd_hierarchy` on 2025-09-10 with directory `/docs/` and file
      `a.txt` gives `docs/2025/09/10/a.txt`. */
  lemma HierarchyKeyExample(directory: string, mode: string, filename: string, today: Moment)
    requires directory == "/docs/" && mode == "yyyy_mm_dd_hierarchy" && filename == "a.txt"
    requires today.year == 2025 && today.month == 9 && today.day == 10
    ensures GenerateObjectKey(directory, mode, filename, today) == "docs/2025/09/10/a.txt"
  {
    ExampleNamesPlain();
    DocsStripped(directory);
    DocsPrefix();
    ExampleDateDirs(today);
    PlainKeyLayout(directory, mode, filename, today);
    HierarchyKeyText();
  }

  lemma ExampleNamesPlain()
    ensures '\\' !in "/docs/" && '\\' !in "docs"
    ensures '/' !in "a.txt" && '\\' !in "a.txt"
  {
  }

  lemma DocsPrefix()
    ensures DirPrefix("docs") == "docs/"
  {
  }

  /** `yyyy_mm_dd_combined` on 2025-09-10 with directory `docs` and file
      `a.txt` gives `docs/20250910/a.txt`. */
  lemma CombinedKeyExample(directory: string, mode: string, filename: string, today: Moment)
    requires directory == "docs" && mode == "yyyy_mm_dd_combined" && filename == "a.txt"
    requires today.year == 2025 && today.month == 9 && today.day == 10
    ensures GenerateObjectKey(directory, mode, filename, today) == "docs/20250910/a.txt"
  {
    ExampleNamesPlain();
    DocsStripped(directory);
    DocsPrefix();
    ExampleDateDirs(today);
    PlainKeyLayout(directory, mode, filename, today);
    CombinedKeyText();
  }
}
