/** String operations of the build script, with Python 2 `str` semantics.

    Strings are sequences of characters. `find`, `rfind`, slicing with
    negative or out-of-range bounds, `strip`, `startswith`, `readlines`,
    `sep.join`, `split(sep)` and `replace` are written out here because the
    path, version and relinking logic is built from them. */
module Text {

  predicate StartsWith(s: string, prefix: string)
  {
    |prefix| <= |s| && s[..|prefix|] == prefix
  }

  /** `sub` occurs in `s` starting at index `i`. */
  predicate OccursAt(s: string, sub: string, i: int)
  {
    0 <= i && i + |sub| <= |s| && s[i..i + |sub|] == sub
  }

  /** `s.find(c)` for a single character: the lowest index holding `c`, or -1. */
  function FindChar(s: string, c: char): (r: int)
    ensures -1 <= r < |s|
    ensures r >= 0 ==> s[r] == c
    ensures forall j :: 0 <= j < |s| && (r == -1 || j < r) ==> s[j] != c
    decreases |s|
  {
    if |s| == 0 then -1
    else if s[0] == c then 0
    else
      var k := FindChar(s[1..], c);
      if k == -1 then -1 else k + 1
  }

  /** `s.rfind(c)` for a single character: the highest index holding `c`, or -1. */
  function RFindChar(s: string, c: char): (r: int)
    ensures -1 <= r < |s|
    ensures r >= 0 ==> s[r] == c
    ensures forall j :: r < j < |s| ==> s[j] != c
    decreases |s|
  {
    if |s| == 0 then -1
    else if s[|s| - 1] == c then |s| - 1
    else RFindChar(s[..|s| - 1], c)
  }

  /** The highest start index `j <= i` at which `sub` occurs, or -1. */
  function RFindBelow(s: string, sub: string, i: int): (r: int)
    ensures -1 <= r && (r >= 0 ==> r <= i)
    ensures r >= 0 ==> OccursAt(s, sub, r)
    ensures forall j {:trigger OccursAt(s, sub, j)} :: r < j <= i ==> !OccursAt(s, sub, j)
    decreases i + 1
  {
    if i < 0 then -1
    else if OccursAt(s, sub, i) then i
    else RFindBelow(s, sub, i - 1)
  }

  /** `s.rfind(sub)`: the highest index at which `sub` occurs, or -1. */
  function RFind(s: string, sub: string): (r: int)
    ensures -1 <= r && (r >= 0 ==> OccursAt(s, sub, r))
    ensures forall j {:trigger OccursAt(s, sub, j)} :: r < j ==> !OccursAt(s, sub, j)
  {
    RFindBelow(s, sub, |s| - |sub|)
  }

  /** A slice bound as Python normalises it: negative counts from the end,
      then the result is clamped into `0..n`. */
  function SliceBound(i: int, n: nat): (r: nat)
    ensures r <= n
    ensures 0 <= i <= n ==> r == i
    ensures i < 0 && 0 <= i + n ==> r == i + n
  {
    if i < 0 then (if i + n < 0 then 0 else i + n)
    else if i > n then n
    else i
  }

  /** `s[i:j]` with Python's slicing rules. */
  function Slice(s: string, i: int, j: int): (r: string)
    ensures 0 <= i <= j <= |s| ==> r == s[i..j]
    ensures |r| <= |s|
  {
    var a := SliceBound(i, |s|);
    var b := SliceBound(j, |s|);
    if a < b then s[a..b] else []
  }

  /** `rfind` gives -1 for a text the substring does not occur in. */
  lemma RFindAbsent(s: string, sub: string)
    requires forall j {:trigger OccursAt(s, sub, j)} :: !OccursAt(s, sub, j)
    ensures RFind(s, sub) == -1
  {
  }

  /** A slice ending at -1 stops one before the end. */
  lemma SliceToLast(s: string, i: int)
    requires 0 <= i <= |s| - 1
    ensures Slice(s, i, -1) == s[i..|s| - 1]
  {
    assert SliceBound(-1, |s|) == |s| - 1;
  }

  /** The characters `str.strip()` removes when given no argument. */
  predicate IsSpace(c: char)
  {
    c == ' ' || c == '\t' || c == '\n' || c == '\r' || c == '\U{000B}' || c == '\U{000C}'
  }

  predicate AllSpace(s: string)
  {
    forall k :: 0 <= k < |s| ==> IsSpace(s[k])
  }

  /** `s.strip()`: leading and trailing whitespace removed, one character
      at a time from the front, then from the back. */
  function Strip(s: string): (r: string)
    ensures |r| <= |s|
    ensures r == [] <==> AllSpace(s)
    ensures r != [] ==> !IsSpace(r[0]) && !IsSpace(r[|r| - 1])
    decreases |s|
  {
    if s == [] then []
    else if IsSpace(s[0]) then
      assert forall k :: 0 < k < |s| ==> s[1..][k - 1] == s[k];
      Strip(s[1..])
    else if IsSpace(s[|s| - 1]) then
      assert s[..|s| - 1][0] == s[0];
      Strip(s[..|s| - 1])
    else s
  }

  /** `s[i..j]` lies between a whitespace prefix and a whitespace suffix. */
  predicate Between(s: string, i: int, j: int)
  {
    0 <= i <= j <= |s| && AllSpace(s[..i]) && AllSpace(s[j..])
  }

  /** What `strip()` keeps is the piece of `s` between a whitespace prefix
      and a whitespace suffix; with the ends of the result not being
      whitespace, this fixes the result. */
  lemma {:induction false} StripPiece(s: string)
    ensures exists i, j :: Between(s, i, j) && Strip(s) == s[i..j]
    decreases |s|
  {
    if s == [] {
      assert Between(s, 0, 0) && s[0..0] == s;
    } else if IsSpace(s[0]) {
      var t := s[1..];
      StripPiece(t);
      var i, j :| Between(t, i, j) && Strip(t) == t[i..j];
      BetweenFront(s, i, j);
    } else if IsSpace(s[|s| - 1]) {
      var t := s[..|s| - 1];
      StripPiece(t);
      var i, j :| Between(t, i, j) && Strip(t) == t[i..j];
      BetweenBack(s, i, j);
    } else {
      assert Between(s, 0, |s|) && s[0..|s|] == s;
    }
  }

  /** A whitespace character in front widens the prefix by one. */
  lemma BetweenFront(s: string, i: int, j: int)
    requires s != [] && IsSpace(s[0]) && Between(s[1..], i, j)
    ensures Between(s, i + 1, j + 1) && s[1..][i..j] == s[i + 1..j + 1]
  {
    var t := s[1..];
    assert s[j + 1..] == t[j..];
    forall k | 0 <= k < i + 1 ensures IsSpace(s[k]) {
      if k > 0 {
        assert s[k] == t[..i][k - 1];
      }
    }
  }

  /** A whitespace character at the back widens the suffix by one. */
  lemma BetweenBack(s: string, i: int, j: int)
    requires s != [] && IsSpace(s[|s| - 1]) && Between(s[..|s| - 1], i, j)
    ensures Between(s, i, j) && s[..|s| - 1][i..j] == s[i..j]
  {
    var t := s[..|s| - 1];
    assert s[..i] == t[..i];
    forall k | j <= k < |s| ensures IsSpace(s[k]) {
      if k < |t| {
        assert s[k] == t[j..][k - j];
      }
    }
  }

  /** A text that has no whitespace at either end is its own `strip()`. */
  lemma StripTrimmed(s: string)
    requires s == [] || (!IsSpace(s[0]) && !IsSpace(s[|s| - 1]))
    ensures Strip(s) == s
  {
  }

  function Concat(ls: seq<string>): (r: string)
  {
    if ls == [] then [] else ls[0] + Concat(ls[1..])
  }

  /** `text.splitlines(True)` as `file.readlines()` produces it: each piece
      runs up to and including the next newline; the text after the last
      newline, if any, is the final piece. Defined one character at a time:
      a character joins the line that follows it unless it is a newline. */
  function SplitLines(t: string): seq<string>
    decreases |t|
  {
    if t == [] then []
    else
      var rest := SplitLines(t[1..]);
      if t[0] == '\n' || rest == [] then [[t[0]]] + rest
      else [[t[0]] + rest[0]] + rest[1..]
  }

  /** The lines put back together are the text. */
  lemma {:induction false} SplitLinesConcat(t: string)
    ensures Concat(SplitLines(t)) == t
    decreases |t|
  {
    if t != [] {
      var rest := SplitLines(t[1..]);
      SplitLinesConcat(t[1..]);
      var ls := SplitLines(t);
      assert t == [t[0]] + t[1..];
      if t[0] == '\n' || rest == [] {
        assert ls[1..] == rest;
      } else {
        assert ls[1..] == rest[1..];
        assert Concat(rest) == rest[0] + Concat(rest[1..]);
      }
    }
  }

  /** Every line is non-empty. */
  lemma {:induction false} SplitLinesNonEmpty(t: string, k: nat)
    requires k < |SplitLines(t)|
    ensures SplitLines(t)[k] != []
    decreases |t|
  {
    var rest := SplitLines(t[1..]);
    if k > 0 {
      if t[0] == '\n' || rest == [] {
        SplitLinesNonEmpty(t[1..], k - 1);
      } else {
        SplitLinesNonEmpty(t[1..], k);
      }
    }
  }

  /** Every line but the last ends in a newline. */
  lemma {:induction false} SplitLinesEnds(t: string, k: nat)
    requires k + 1 < |SplitLines(t)|
    ensures SplitLines(t)[k] != [] && SplitLines(t)[k][|SplitLines(t)[k]| - 1] == '\n'
    decreases |t|
  {
    var rest := SplitLines(t[1..]);
    if t[0] == '\n' || rest == [] {
      if k > 0 {
        SplitLinesEnds(t[1..], k - 1);
      }
    } else if k == 0 {
      SplitLinesEnds(t[1..], 0);
      assert SplitLines(t)[0] == [t[0]] + rest[0];
    } else {
      SplitLinesEnds(t[1..], k);
    }
  }

  /** No line holds a newline before its last character. */
  lemma {:induction false} SplitLinesInner(t: string, k: nat, j: nat)
    requires k < |SplitLines(t)| && j + 1 < |SplitLines(t)[k]|
    ensures SplitLines(t)[k][j] != '\n'
    decreases |t|
  {
    var rest := SplitLines(t[1..]);
    if t[0] == '\n' || rest == [] {
      if k > 0 {
        SplitLinesInner(t[1..], k - 1, j);
      }
    } else if k == 0 {
      var line := [t[0]] + rest[0];
      assert SplitLines(t)[0] == line;
      if j > 0 {
        assert line[j] == rest[0][j - 1];
        SplitLinesInner(t[1..], 0, j - 1);
      }
    } else {
      SplitLinesInner(t[1..], k, j);
    }
  }

  /** A non-empty text without a newline is a single line. */
  lemma {:induction false} SplitLinesSingle(b: string)
    requires b != [] && '\n' !in b
    ensures SplitLines(b) == [b]
    decreases |b|
  {
    if |b| > 1 {
      assert b[0] in b;
      assert forall c :: c in b[1..] ==> c in b;
      SplitLinesSingle(b[1..]);
      assert [b[0]] + b[1..] == b;
    } else {
      assert b[1..] == [] && [b[0]] == b;
    }
  }

  /** Appending a text without a newline to a text that is empty or ends in
      a newline adds exactly one line, the appended text. */
  lemma {:induction false} SplitLinesAppendLast(a: string, b: string)
    requires a == [] || a[|a| - 1] == '\n'
    requires b != [] && '\n' !in b
    ensures SplitLines(a + b) == SplitLines(a) + [b]
    decreases |a|
  {
    if a == [] {
      assert a + b == b;
      SplitLinesSingle(b);
    } else {
      var t := a + b;
      assert t[0] == a[0] && t[1..] == a[1..] + b;
      if |a| == 1 {
        assert a[1..] == [];
        SplitLinesSingle(b);
        assert SplitLines(a) == [[a[0]]];
      } else {
        SplitLinesAppendLast(a[1..], b);
        var s := SplitLines(a[1..]);
        assert s != [];
        var rest := s + [b];
        assert SplitLines(t[1..]) == rest;
        if a[0] != '\n' {
          assert rest[0] == s[0] && rest[1..] == s[1..] + [b];
        }
      }
    }
  }

  /** `sep.join(ds)` for a one-character separator. */
  function JoinWith(sep: char, ds: seq<string>): (r: string)
  {
    if ds == [] then []
    else if |ds| == 1 then ds[0]
    else ds[0] + [sep] + JoinWith(sep, ds[1..])
  }

  /** `s.split(sep)` for a one-character separator, one character at a time:
      a separator starts a new piece, any other character joins the piece
      that follows it. The result is never empty. */
  function Split(s: string, sep: char): (r: seq<string>)
    ensures |r| >= 1
    decreases |s|
  {
    if s == [] then [[]]
    else
      var rest := Split(s[1..], sep);
      if s[0] == sep then [[]] + rest else [[s[0]] + rest[0]] + rest[1..]
  }

  /** No piece of a split holds the separator. */
  lemma {:induction false} SplitPiece(s: string, sep: char, k: nat)
    requires k < |Split(s, sep)|
    ensures sep !in Split(s, sep)[k]
    decreases |s|
  {
    if s != [] {
      var rest := Split(s[1..], sep);
      if s[0] == sep {
        if k > 0 {
          SplitPiece(s[1..], sep, k - 1);
        }
      } else if k == 0 {
        SplitPiece(s[1..], sep, 0);
        assert Split(s, sep)[0] == [s[0]] + rest[0];
      } else {
        SplitPiece(s[1..], sep, k);
      }
    }
  }

  predicate NoneContains(ds: seq<string>, c: char)
  {
    forall k :: 0 <= k < |ds| ==> c !in ds[k]
  }

  /** A text without the separator splits into itself alone. */
  lemma {:induction false} SplitPlain(x: string, sep: char)
    requires sep !in x
    ensures Split(x, sep) == [x]
    decreases |x|
  {
    if x != [] {
      assert x[0] in x;
      assert forall c :: c in x[1..] ==> c in x;
      SplitPlain(x[1..], sep);
      assert [x[0]] + x[1..] == x;
    }
  }

  /** The first piece ends at the first separator. */
  lemma {:induction false} SplitAfter(x: string, y: string, sep: char)
    requires sep !in x
    ensures Split(x + [sep] + y, sep) == [x] + Split(y, sep)
    decreases |x|
  {
    var s := x + [sep] + y;
    if x == [] {
      assert s[0] == sep && s[1..] == y;
    } else {
      assert x[0] in x;
      assert forall c :: c in x[1..] ==> c in x;
      assert s[0] == x[0] && s[1..] == x[1..] + [sep] + y;
      SplitAfter(x[1..], y, sep);
      assert [x[0]] + x[1..] == x;
    }
  }

  /** Splitting a joined list recovers it, provided no piece holds the separator. */
  lemma {:induction false} SplitJoinWith(ds: seq<string>, sep: char)
    requires ds != [] && NoneContains(ds, sep)
    ensures Split(JoinWith(sep, ds), sep) == ds
    decreases |ds|
  {
    if |ds| == 1 {
      SplitPlain(ds[0], sep);
    } else {
      SplitAfter(ds[0], JoinWith(sep, ds[1..]), sep);
      SplitJoinWith(ds[1..], sep);
      assert [ds[0]] + ds[1..] == ds;
    }
  }

  /** Putting a character in front of the first piece puts it in front of
      the joined text. */
  lemma JoinWithFirst(sep: char, c: char, r: seq<string>)
    requires r != []
    ensures JoinWith(sep, [[c] + r[0]] + r[1..]) == [c] + JoinWith(sep, r)
  {
    var ds := [[c] + r[0]] + r[1..];
    assert ds[0] == [c] + r[0] && ds[1..] == r[1..];
  }

  /** Joining the pieces of a split gives back the text. */
  lemma {:induction false} JoinWithSplit(s: string, sep: char)
    ensures JoinWith(sep, Split(s, sep)) == s
    decreases |s|
  {
    if s != [] {
      var rest := Split(s[1..], sep);
      JoinWithSplit(s[1..], sep);
      assert s == [s[0]] + s[1..];
      if s[0] == sep {
        var ds := [[]] + rest;
        assert ds[0] == [] && ds[1..] == rest;
      } else {
        JoinWithFirst(sep, s[0], rest);
      }
    }
  }

  /** `s.replace(pat, rep)`: every non-overlapping occurrence of `pat`, found
      from left to right, is replaced by `rep`. */
  function ReplaceAll(s: string, pat: string, rep: string): (r: string)
    requires pat != []
    decreases |s|
  {
    if |s| < |pat| then s
    else if s[..|pat|] == pat then rep + ReplaceAll(s[|pat|..], pat, rep)
    else [s[0]] + ReplaceAll(s[1..], pat, rep)
  }

  ghost predicate Absent(s: string, sub: string)
  {
    forall i {:trigger OccursAt(s, sub, i)} :: !OccursAt(s, sub, i)
  }

  /** A text with no occurrence of `pat` is left as it is. */
  lemma {:induction false} ReplaceAbsent(s: string, pat: string, rep: string)
    requires pat != [] && Absent(s, pat)
    ensures ReplaceAll(s, pat, rep) == s
    decreases |s|
  {
    if |s| >= |pat| {
      assert !OccursAt(s, pat, 0);
      forall i ensures !OccursAt(s[1..], pat, i) {
        if OccursAt(s[1..], pat, i) {
          assert s[1..][i..i + |pat|] == s[i + 1..i + 1 + |pat|];
          assert OccursAt(s, pat, i + 1);
        }
      }
      ReplaceAbsent(s[1..], pat, rep);
      assert s == [s[0]] + s[1..];
    }
  }

  /** Replacement keeps a prefix in which no occurrence of `pat` starts and
      carries on with what follows it. */
  lemma {:induction false} ReplaceKeeps(a: string, b: string, pat: string, rep: string)
    requires pat != []
    requires forall i {:trigger OccursAt(a + b, pat, i)} :: 0 <= i < |a| ==> !OccursAt(a + b, pat, i)
    ensures ReplaceAll(a + b, pat, rep) == a + ReplaceAll(b, pat, rep)
    decreases |a|
  {
    if a == [] {
      assert a + b == b;
    } else if |a + b| < |pat| {
      assert ReplaceAll(b, pat, rep) == b;
    } else {
      var s := a + b;
      var x := ReplaceAll(b, pat, rep);
      assert ReplaceAll(s, pat, rep) == [a[0]] + ReplaceAll(a[1..] + b, pat, rep) by {
        assert !OccursAt(s, pat, 0);
        ReplaceMiss(s, pat, rep);
        assert s[1..] == a[1..] + b;
      }
      assert ReplaceAll(a[1..] + b, pat, rep) == a[1..] + x by {
        NoOccurrenceShift(a, b, pat);
        ReplaceKeeps(a[1..], b, pat, rep);
      }
      assert [a[0]] + (a[1..] + x) == a + x;
    }
  }

  /** Dropping the first character of the prefix keeps the rest of it free
      of occurrences. */
  lemma NoOccurrenceShift(a: string, b: string, pat: string)
    requires a != []
    requires forall i {:trigger OccursAt(a + b, pat, i)} :: 0 <= i < |a| ==> !OccursAt(a + b, pat, i)
    ensures forall i {:trigger OccursAt(a[1..] + b, pat, i)} :: 0 <= i < |a| - 1 ==> !OccursAt(a[1..] + b, pat, i)
  {
    var s := a + b;
    assert s[1..] == a[1..] + b;
    forall i | 0 <= i < |a| - 1 ensures !OccursAt(a[1..] + b, pat, i) {
      assert !OccursAt(s, pat, i + 1);
      OccursShift(s, pat, i);
    }
  }

  /** Replacement reaches the first occurrence of `pat` untouched and puts
      `rep` in its place; scanning then resumes after it. */
  lemma ReplaceFirst(a: string, b: string, pat: string, rep: string)
    requires pat != []
    requires forall i {:trigger OccursAt(a + pat + b, pat, i)} :: 0 <= i < |a| ==> !OccursAt(a + pat + b, pat, i)
    ensures ReplaceAll(a + pat + b, pat, rep) == a + rep + ReplaceAll(b, pat, rep)
  {
    assert a + pat + b == a + (pat + b);
    ReplaceKeeps(a, pat + b, pat, rep);
    ReplaceHit(b, pat, rep);
  }

  /** An occurrence at the start is replaced, and scanning resumes after it. */
  lemma ReplaceHit(b: string, pat: string, rep: string)
    requires pat != []
    ensures ReplaceAll(pat + b, pat, rep) == rep + ReplaceAll(b, pat, rep)
  {
    var s := pat + b;
    assert s[..|pat|] == pat && s[|pat|..] == b;
  }

  /** Where `pat` does not start, the first character is kept and scanning
      moves on by one. */
  lemma ReplaceMiss(s: string, pat: string, rep: string)
    requires pat != [] && |s| >= |pat| && !OccursAt(s, pat, 0)
    ensures ReplaceAll(s, pat, rep) == [s[0]] + ReplaceAll(s[1..], pat, rep)
  {
    assert s[..|pat|] == s[0..|pat|];
  }

  /** An occurrence one character into `s` is an occurrence in `s[1..]`. */
  lemma OccursShift(s: string, sub: string, i: nat)
    requires s != []
    ensures OccursAt(s[1..], sub, i) <==> OccursAt(s, sub, i + 1)
  {
    if i + |sub| <= |s[1..]| {
      assert s[1..][i..i + |sub|] == s[i + 1..i + 1 + |sub|];
    }
  }
}
