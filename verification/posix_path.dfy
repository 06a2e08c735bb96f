/** POSIX path text operations as Python's `posixpath` module performs them:
    `dirname`, `basename` and `join`. Paths are plain strings; nothing here
    looks at a file system. */
module PosixPath {
  import opened Text

  predicate IsAbsolute(p: string)
  {
    p != [] && p[0] == '/'
  }

  predicate AllSlashes(s: string)
  {
    forall k :: 0 <= k < |s| ==> s[k] == '/'
  }

  /** `s.rstrip('/')`. */
  function RStripSlashes(s: string): (r: string)
    ensures |r| <= |s| && r == s[..|r|]
    ensures AllSlashes(s[|r|..])
    ensures r == [] || r[|r| - 1] != '/'
  {
    if s == [] || s[|s| - 1] != '/' then s
    else
      var t := RStripSlashes(s[..|s| - 1]);
      assert s[|t|..] == s[..|s| - 1][|t|..] + [s[|s| - 1]];
      t
  }

  /** `posixpath.basename`: everything after the last slash. */
  function BaseName(p: string): (r: string)
    ensures '/' !in r
    ensures |r| <= |p| && r == p[|p| - |r|..]
    ensures |r| < |p| ==> p[|p| - |r| - 1] == '/'
  {
    p[RFindChar(p, '/') + 1..]
  }

  /** `posixpath.dirname`: everything up to the last slash, with trailing
      slashes removed unless it consists of slashes only. */
  function DirName(p: string): (r: string)
    ensures |r| <= |p| && r == p[..|r|]
    ensures r == [] <==> '/' !in p
  {
    var i := RFindChar(p, '/') + 1;
    var head := p[..i];
    if head != [] && !AllSlashes(head) then
      RStripSlashes(head)
    else
      assert i > 0 ==> p[i - 1] == '/' && head[i - 1] == '/';
      head
  }

  /** `posixpath.join(a, b)`: an absolute `b` replaces `a`; otherwise `b` is
      appended, with one slash between unless `a` is empty or already ends
      with a slash. */
  function Join(a: string, b: string): (r: string)
  {
    if IsAbsolute(b) then b
    else if a == [] || a[|a| - 1] == '/' then a + b
    else a + "/" + b
  }

  /** The directory is the text before the base name, which starts at `n`,
      with the slashes that end it removed, unless it is made of slashes only:
      then it is kept whole. */
  lemma DirNameValue(p: string)
    ensures var r, n := DirName(p), |p| - |BaseName(p)|;
      |r| <= n && AllSlashes(p[|r|..n]) &&
      (AllSlashes(r) ==> |r| == n) &&
      (r != [] && !AllSlashes(r) ==> r[|r| - 1] != '/')
  {
    var i := RFindChar(p, '/') + 1;
    var head := p[..i];
    if head != [] && !AllSlashes(head) {
      var r := RStripSlashes(head);
      assert head[|r|..] == p[|r|..i];
    }
  }

  /** The last component of a join is the joined name, when that name has no slash. */
  lemma BaseNameJoin(a: string, b: string)
    requires '/' !in b
    ensures BaseName(Join(a, b)) == b
  {
    if a == [] || a[|a| - 1] == '/' {
      BaseNameAfterSlash(a, b);
    } else {
      BaseNameAfterSlash(a + "/", b);
      assert a + "/" + b == (a + "/") + b;
    }
  }

  lemma BaseNameAfterSlash(x: string, b: string)
    requires '/' !in b
    requires x == [] || x[|x| - 1] == '/'
    ensures BaseName(x + b) == b
  {
    var s := x + b;
    assert s[|x|..] == b;
  }

  /** The directory of a joined path is the directory it was joined to, when
      that directory does not end in a slash (or is made of slashes only) and
      the joined name has no slash. */
  lemma DirNameJoin(a: string, b: string)
    requires '/' !in b
    requires a != [] && (a[|a| - 1] != '/' || AllSlashes(a))
    ensures DirName(Join(a, b)) == a
  {
    var j := Join(a, b);
    var i := RFindChar(j, '/') + 1;
    if a[|a| - 1] == '/' {
      assert j == a + b;
      assert j[|a| - 1] == '/';
      assert j[|a|..] == b;
      assert i == |a|;
      assert j[..i] == a;
    } else {
      assert j == a + "/" + b;
      assert j[|a|] == '/';
      assert j[|a| + 1..] == b;
      assert i == |a| + 1;
      assert j[..i] == a + "/";
      assert !AllSlashes(j[..i]) by {
        assert j[..i][|a| - 1] == a[|a| - 1];
      }
    }
  }

  /** Joining onto an absolute path gives an absolute path. */
  lemma JoinKeepsAbsolute(a: string, b: string)
    requires IsAbsolute(a)
    ensures IsAbsolute(Join(a, b))
  {
  }

  /** Joining a directory with a path that is already absolute gives back that path. */
  lemma JoinAbsoluteSecond(a: string, b: string)
    requires IsAbsolute(b)
    ensures Join(a, b) == b
  {
  }

  /** A relative name joined onto a directory that neither is empty nor ends
      in a slash is the directory, a slash and the name. */
  lemma JoinWithSeparator(a: string, b: string)
    requires a != [] && a[|a| - 1] != '/'
    requires !IsAbsolute(b)
    ensures Join(a, b) == a + "/" + b
  {
  }
}
