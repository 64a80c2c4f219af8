/** The three `posixpath` functions the plugin calls: `join`, `splitext` and
    `basename`, over `/`-separated paths.
 */
module PosixPath {
  import opened Text

  /** `os.path.join(a, b)`: `b` replaces `a` when it is absolute; otherwise a
      `/` is inserted unless `a` is empty or already ends with one. */
  function Join(a: string, b: string): (r: string)
    ensures |r| >= |b| && r[|r| - |b|..] == b
    ensures !StartsWith(b, "/") ==> StartsWith(r, a)
    ensures StartsWith(b, "/") ==> r == b
  {
    if StartsWith(b, "/") then b
    else if a == [] || a[|a| - 1] == '/' then a + b
    else a + "/" + b
  }

  /** `os.path.basename(p)`: everything after the last `/`. */
  function Basename(p: string): (r: string)
    ensures '/' !in r
    ensures |r| <= |p| && r == p[|p| - |r|..]
    ensures |r| < |p| ==> p[|p| - |r| - 1] == '/'
  {
    p[LastIndex(p, '/') + 1..]
  }

  predicate AllDots(s: string) {
    s == [] || (s[0] == '.' && AllDots(s[1..]))
  }

  /** `os.path.splitext(p)`: the extension starts at the last `.` of the last
      path component, provided that component has a character other than `.`
      before it (so `.bashrc` has no extension). */
  function Splitext(p: string): (r: (string, string))
    ensures r.0 + r.1 == p
    ensures r.1 == [] || (r.1[0] == '.' && '/' !in r.1 && '.' !in r.1[1..])
    ensures r.1 != [] ==> !AllDots(Basename(r.0))
  {
    var sepIndex := LastIndex(p, '/');
    var dotIndex := LastIndex(p, '.');
    if dotIndex > sepIndex && !AllDots(p[sepIndex + 1..dotIndex]) then
      assert p[..dotIndex] + p[dotIndex..] == p;
      assert !AllDots(Basename(p[..dotIndex])) by {
        BasenameOfPrefix(p, dotIndex);
      }
      assert '/' !in p[dotIndex..] by {
        NoCharAfterLast(p, '/', dotIndex);
      }
      assert '.' !in p[dotIndex..][1..] by {
        NoCharAfterLast(p, '.', dotIndex + 1);
        DropOneMore(p, dotIndex);
      }
      (p[..dotIndex], p[dotIndex..])
    else
      (p, "")
  }

  lemma BasenameOfPrefix(p: string, j: nat)
    requires LastIndex(p, '/') < j <= |p|
    ensures Basename(p[..j]) == p[LastIndex(p, '/') + 1..j]
  {
    LastIndexOfPrefix(p, '/', j);
  }

  lemma DropOneMore(p: string, j: nat)
    requires j < |p|
    ensures p[j..][1..] == p[j + 1..]
  {
  }

  lemma LastIndexOfPrefix(p: string, c: char, j: nat)
    requires LastIndex(p, c) < j <= |p|
    ensures LastIndex(p[..j], c) == LastIndex(p, c)
  {
    var i := LastIndex(p, c);
    var k := LastIndex(p[..j], c);
    assert 0 <= i ==> p[..j][i] == c;
    assert 0 <= k ==> p[k] == c;
  }

  lemma NoCharAfterLast(p: string, c: char, j: nat)
    requires LastIndex(p, c) < j <= |p|
    ensures c !in p[j..]
  {
    assert forall k :: 0 <= k < |p| - j ==> p[j..][k] == p[j + k];
  }

  /** When `splitext` finds no extension, every `.` of the last component is
      preceded only by dots: there was nothing it could have split off. */
  lemma SplitextNoExtension(p: string)
    requires Splitext(p).1 == []
    ensures forall k :: 0 <= k < |Basename(p)| && Basename(p)[k] == '.' ==> AllDots(Basename(p)[..k])
  {
    var sepIndex := LastIndex(p, '/');
    var dotIndex := LastIndex(p, '.');
    assert dotIndex > sepIndex ==> AllDots(p[sepIndex + 1..dotIndex]);
    forall k | 0 <= k < |Basename(p)| && Basename(p)[k] == '.'
      ensures AllDots(Basename(p)[..k])
    {
      DotInLastComponent(p, k);
    }
  }

  lemma DotInLastComponent(p: string, k: nat)
    requires LastIndex(p, '.') > LastIndex(p, '/') ==> AllDots(p[LastIndex(p, '/') + 1..LastIndex(p, '.')])
    requires k < |Basename(p)| && Basename(p)[k] == '.'
    ensures AllDots(Basename(p)[..k])
  {
    var sepIndex := LastIndex(p, '/');
    var dotIndex := LastIndex(p, '.');
    var b := Basename(p);
    assert b == p[sepIndex + 1..];
    var j := sepIndex + 1 + k;
    assert p[j] == '.';
    assert sepIndex < j <= dotIndex;
    var stem := p[sepIndex + 1..dotIndex];
    DotsPrefix(stem, k);
    assert b[..k] == stem[..k];
  }

  lemma {:induction false} DotsPrefix(s: string, k: nat)
    requires AllDots(s) && k <= |s|
    ensures AllDots(s[..k])
  {
    if k > 0 {
      DotsPrefix(s[1..], k - 1);
      assert s[..k][1..] == s[1..][..k - 1];
    }
  }
}
