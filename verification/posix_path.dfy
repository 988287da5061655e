/** `os.path.splitext` on POSIX paths: the extension is the text from the last dot of the
    final path component, provided something other than a dot precedes that dot within the
    component (so `.bashrc` and `..jpg` have no extension). */
module PosixPath {

  /** `s.rfind(c)`: index of the last `c` in `s`, or -1 when there is none. */
  function RFind(s: string, c: char): (r: int)
    ensures -1 <= r < |s|
    ensures r >= 0 ==> s[r] == c
    ensures forall k :: r < k < |s| ==> s[k] != c
    decreases |s|
  {
    if |s| == 0 then -1
    else if s[|s| - 1] == c then |s| - 1
    else RFind(s[..|s| - 1], c)
  }

  /** The last `c` is at `i` when `s[i]` is `c` and no `c` follows it. */
  lemma RFindAt(s: string, c: char, i: int)
    requires 0 <= i < |s| && s[i] == c
    requires forall k :: i < k < |s| ==> s[k] != c
    ensures RFind(s, c) == i
  {
  }

  datatype Split = Split(root: string, ext: string)

  /** The final component holds a character other than `.` strictly between the last
      separator `sep` and the dot at `dot`. */
  predicate NamedBeforeDot(p: string, sep: int, dot: int)
    requires -1 <= sep && dot <= |p|
  {
    exists k :: sep < k < dot && p[k] != '.'
  }

  /** `os.path.splitext(p)` as a pair (root, ext). */
  function SplitExt(p: string): Split {
    var sep := RFind(p, '/');
    var dot := RFind(p, '.');
    if dot > sep && NamedBeforeDot(p, sep, dot) then Split(p[..dot], p[dot..])
    else Split(p, "")
  }

  /** The scan CPython performs: find both indices, then skip the leading dots of the final
      component; a non-dot before the last dot makes the split. */
  method SplitExtScan(p: string) returns (root: string, ext: string)
    ensures Split(root, ext) == SplitExt(p)
  {
    var sepIndex := RFind(p, '/');
    var dotIndex := RFind(p, '.');
    if dotIndex > sepIndex {
      var filenameIndex := sepIndex + 1;
      while filenameIndex < dotIndex
        invariant sepIndex + 1 <= filenameIndex <= dotIndex
        invariant forall k :: sepIndex < k < filenameIndex ==> p[k] == '.'
      {
        if p[filenameIndex] != '.' {
          return p[..dotIndex], p[dotIndex..];
        }
        filenameIndex := filenameIndex + 1;
      }
    }
    return p, "";
  }

  /** What any extension looks like: root and extension rebuild the path, and a non-empty
      extension is one dot followed by text without dots or separators. */
  lemma ExtShape(p: string)
    ensures SplitExt(p).root + SplitExt(p).ext == p
    ensures var e := SplitExt(p).ext;
      e == [] || (e[0] == '.' && forall k :: 0 < k < |e| ==> e[k] != '.' && e[k] != '/')
  {
    var sep := RFind(p, '/');
    var dot := RFind(p, '.');
    if dot > sep && NamedBeforeDot(p, sep, dot) {
      assert p[..dot] + p[dot..] == p;
      var e := p[dot..];
      forall k | 0 < k < |e|
        ensures e[k] != '.' && e[k] != '/'
      {
        assert e[k] == p[dot + k];
      }
    }
  }

  /** The last `c` of `a + b` is the last one in `b` when `b` has one, and else the last in `a`. */
  lemma {:induction false} RFindAppend(a: string, b: string, c: char)
    ensures RFind(a + b, c) == (if RFind(b, c) >= 0 then |a| + RFind(b, c) else RFind(a, c))
    decreases |b|
  {
    if |b| == 0 {
      assert a + b == a;
    } else if b[|b| - 1] == c {
      assert (a + b)[|a + b| - 1] == c;
    } else {
      assert (a + b)[..|a + b| - 1] == a + b[..|b| - 1];
      RFindAppend(a, b[..|b| - 1], c);
    }
  }

  /** Appending an extension-shaped suffix to a name whose final component holds a non-dot
      character yields a path whose extension is exactly that suffix. */
  lemma AppendedExtension(q: string, e: string)
    requires |e| > 0 && e[0] == '.'
    requires forall k :: 0 < k < |e| ==> e[k] != '.' && e[k] != '/'
    requires exists k :: RFind(q, '/') < k < |q| && q[k] != '.'
    ensures SplitExt(q + e) == Split(q, e)
  {
    var p := q + e;
    RFindAppend(q, e, '/');
    RFindAppend(q, e, '.');
    assert RFind(e, '/') == -1;
    assert RFind(e, '.') == 0;
    var sep := RFind(p, '/');
    var dot := RFind(p, '.');
    assert sep == RFind(q, '/') && dot == |q|;
    var k :| sep < k < |q| && q[k] != '.';
    assert p[k] == q[k];
    assert NamedBeforeDot(p, sep, dot);
    assert p[..dot] == q && p[dot..] == e;
  }

  /** Examples: an ordinary name, a dot-file, a doubled extension, a dot only in a
      directory, and a name made of dots before the extension. */
  lemma SplitExtExamples()
    ensures SplitExt("selfie.jpg") == Split("selfie", ".jpg")
    ensures SplitExt("photo.tar.gz") == Split("photo.tar", ".gz")
    ensures SplitExt(".bashrc") == Split(".bashrc", "")
    ensures SplitExt("..jpg") == Split("..jpg", "")
    ensures SplitExt("dir.d/selfie") == Split("dir.d/selfie", "")
  {
    var s := "selfie.jpg";
    RFindAt(s, '.', 6);
    assert RFind(s, '/') == -1;
    assert NamedBeforeDot(s, -1, 6) by { assert s[0] != '.'; }
    var t := "photo.tar.gz";
    RFindAt(t, '.', 9);
    assert NamedBeforeDot(t, -1, 9) by { assert t[0] != '.'; }
    var u := "dir.d/selfie";
    RFindAt(u, '/', 5);
    RFindAt(u, '.', 3);
  }
}
