/** POSIX path-string helpers the folder scanner relies on: `str.rfind`,
    `os.path.splitext`, `os.path.join`, `os.path.dirname`, `os.path.basename`
    and ASCII lower-casing. Paths are plain strings with `/` as separator. */
module Paths {

  const Sep: char := '/'
  const Dot: char := '.'

  /** Index of the last occurrence of `c` in `s`, or -1 when there is none. */
  function RFind(s: string, c: char): (r: int)
    ensures -1 <= r < |s|
    ensures r >= 0 ==> s[r] == c
    ensures forall j :: r < j < |s| ==> s[j] != c
    decreases |s|
  {
    if |s| == 0 then -1
    else if s[|s| - 1] == c then |s| - 1
    else RFind(s[..|s| - 1], c)
  }

  /** rfind over a concatenation looks in the right part first. */
  lemma {:induction false} RFindAppend(a: string, b: string, c: char)
    ensures RFind(a + b, c) == if RFind(b, c) >= 0 then |a| + RFind(b, c) else RFind(a, c)
    decreases |b|
  {
    if |b| == 0 {
      assert a + b == a;
    } else if b[|b| - 1] == c {
    } else {
      assert (a + b)[..|a + b| - 1] == a + b[..|b| - 1];
      RFindAppend(a, b[..|b| - 1], c);
    }
  }

  /** True when some character of `s[lo..hi]` is not a dot. */
  predicate HasNonDot(s: string, lo: int, hi: int)
    requires 0 <= lo && hi <= |s|
  {
    exists k :: lo <= k < hi && s[k] != Dot
  }

  /** `os.path.splitext`: the extension runs from the last dot of the last
      path component to the end, unless every character of the component
      before that dot is itself a dot (so ".bashrc" has no extension). */
  function SplitExt(p: string): (r: (string, string))
    ensures r.0 + r.1 == p
    ensures r.1 == [] || (r.1[0] == Dot && Sep !in r.1 && Dot !in r.1[1..])
  {
    var sepIndex := RFind(p, Sep);
    var dotIndex := RFind(p, Dot);
    if dotIndex > sepIndex && HasNonDot(p, sepIndex + 1, dotIndex) then
      (p[..dotIndex], p[dotIndex..])
    else
      (p, [])
  }

  /** Declarative reading of `SplitExt`: a path has an extension exactly when
      its last component contains a dot preceded by some non-dot character. */
  predicate HasExtension(p: string)
  {
    exists i, k :: 0 <= k < i < |p| && p[i] == Dot && p[k] != Dot && NoSepFrom(p, k)
  }

  predicate NoSepFrom(p: string, k: int)
    requires 0 <= k <= |p|
  {
    forall j :: k <= j < |p| ==> p[j] != Sep
  }

  lemma SplitExtCharacterization(p: string)
    ensures SplitExt(p).1 != [] <==> HasExtension(p)
  {
    var sepIndex := RFind(p, Sep);
    var dotIndex := RFind(p, Dot);
    if SplitExt(p).1 != [] {
      var k :| sepIndex + 1 <= k < dotIndex && p[k] != Dot;
      assert NoSepFrom(p, k);
      assert 0 <= k < dotIndex < |p| && p[dotIndex] == Dot;
    }
    if HasExtension(p) {
      var i, k :| 0 <= k < i < |p| && p[i] == Dot && p[k] != Dot && NoSepFrom(p, k);
      assert sepIndex < k;
      assert i <= dotIndex;
      assert HasNonDot(p, sepIndex + 1, dotIndex);
    }
  }

  /** Directories never change the extension: it is decided by the file
      name alone, so classifying the joined path and the bare name agree. */
  lemma ExtensionOfJoinedPath(dir: string, name: string)
    requires Sep !in name
    ensures SplitExt(dir + [Sep] + name).1 == SplitExt(name).1
  {
    var p := dir + [Sep] + name;
    assert p == (dir + [Sep]) + name;
    RFindAppend(dir + [Sep], name, Sep);
    RFindAppend(dir + [Sep], name, Dot);
    RFindAppend(dir, [Sep], Dot);
    assert RFind(name, Sep) == -1;
    assert RFind(p, Sep) == |dir|;
    var d := RFind(name, Dot);
    if d >= 0 {
      assert RFind(p, Dot) == |dir| + 1 + d;
      assert HasNonDot(p, |dir| + 1, |dir| + 1 + d) <==> HasNonDot(name, 0, d) by {
        if HasNonDot(name, 0, d) {
          var k :| 0 <= k < d && name[k] != Dot;
          assert p[|dir| + 1 + k] == name[k];
        }
        if HasNonDot(p, |dir| + 1, |dir| + 1 + d) {
          var k :| |dir| + 1 <= k < |dir| + 1 + d && p[k] != Dot;
          assert name[k - |dir| - 1] == p[k];
        }
      }
      assert p[|dir| + 1 + d..] == name[d..];
    } else {
      assert RFind(p, Dot) < |dir| + 1;
    }
  }

  /** `os.path.join(a, b)` for two path parts. */
  function Join(a: string, b: string): (r: string)
    ensures Sep !in b && b != [] && a != [] && a[|a| - 1] != Sep ==> r == a + [Sep] + b
    ensures a == [] ==> r == b
  {
    if |b| > 0 && b[0] == Sep then b
    else if a == [] || a[|a| - 1] == Sep then a + b
    else a + [Sep] + b
  }

  /** `os.path.basename`: everything after the last separator. */
  function Basename(p: string): (r: string)
    ensures Sep !in r
    ensures |r| <= |p| && r == p[|p| - |r|..]
  {
    var i := RFind(p, Sep) + 1;
    assert forall j :: 0 <= j < |p[i..]| ==> p[i..][j] == p[i + j];
    p[i..]
  }

  /** `str.rstrip('/')`. */
  function RStripSep(s: string): (r: string)
    ensures r == [] || r[|r| - 1] != Sep
    ensures |r| <= |s| && r == s[..|r|]
    ensures forall j :: |r| <= j < |s| ==> s[j] == Sep
  {
    if s == [] || s[|s| - 1] != Sep then s else RStripSep(s[..|s| - 1])
  }

  predicate AllSep(s: string)
  {
    forall j :: 0 <= j < |s| ==> s[j] == Sep
  }

  /** `os.path.dirname`: everything before the last separator, with trailing
      separators removed unless the head consists of separators only. */
  function Dirname(p: string): (r: string)
    ensures |r| <= |p| && r == p[..|r|]
  {
    var i := RFind(p, Sep) + 1;
    var head := p[..i];
    if head != [] && !AllSep(head) then RStripSep(head) else head
  }

  /** A directory path relative to the scanned root, as `os.path.relpath`
      produces it: empty for the root, otherwise no trailing separator. */
  predicate IsRelDir(d: string)
  {
    d == [] || d[|d| - 1] != Sep
  }

  /** A bare file name as a directory listing returns it. */
  predicate IsFileName(n: string)
  {
    n != [] && Sep !in n
  }

  /** dirname and basename undo a join of a directory and a file name. */
  lemma JoinSplitRoundTrip(dir: string, name: string)
    requires IsRelDir(dir) && IsFileName(name)
    ensures Dirname(Join(dir, name)) == dir
    ensures Basename(Join(dir, name)) == name
  {
    var p := Join(dir, name);
    if dir == [] {
      assert p == name;
      assert RFind(p, Sep) == -1;
    } else {
      assert p == (dir + [Sep]) + name;
      RFindAppend(dir + [Sep], name, Sep);
      assert RFind(name, Sep) == -1;
      assert RFind(p, Sep) == |dir|;
      var head := p[..|dir| + 1];
      assert head == dir + [Sep];
      assert !AllSep(head) by {
        assert head[|dir| - 1] == dir[|dir| - 1];
      }
      assert RStripSep(head) == dir;
      assert p[|dir| + 1..] == name;
    }
  }

  /** Python's `str.lower` restricted to ASCII letters. */
  function LowerChar(c: char): char
  {
    if 'A' <= c <= 'Z' then (c as int + 32) as char else c
  }

  function Lower(s: string): (r: string)
    ensures |r| == |s|
    ensures forall j :: 0 <= j < |s| ==> r[j] == LowerChar(s[j])
  {
    seq(|s|, j requires 0 <= j < |s| => LowerChar(s[j]))
  }

  /** Lower-casing only touches letters, so it never creates or removes a
      separator or a dot. */
  lemma LowerCharKeepsMarks(x: char, c: char)
    requires c == Sep || c == Dot
    ensures LowerChar(x) == c <==> x == c
  {
  }

  lemma LowerPrefix(s: string, n: nat)
    requires n <= |s|
    ensures Lower(s)[..n] == Lower(s[..n])
    ensures Lower(s)[n..] == Lower(s[n..])
  {
  }

  /** rfind of a separator or a dot sees the same index in the lower-cased
      string. */
  lemma {:induction false} RFindLower(s: string, c: char)
    requires c == Sep || c == Dot
    ensures RFind(Lower(s), c) == RFind(s, c)
    decreases |s|
  {
    if |s| > 0 {
      LowerCharKeepsMarks(s[|s| - 1], c);
      if s[|s| - 1] != c {
        LowerPrefix(s, |s| - 1);
        RFindLower(s[..|s| - 1], c);
      }
    }
  }

  /** Lower-casing does not move the extension: the lower-cased path's
      extension is the lower-cased extension. */
  lemma SplitExtLower(p: string)
    ensures SplitExt(Lower(p)).1 == Lower(SplitExt(p).1)
  {
    var q := Lower(p);
    RFindLower(p, Sep);
    RFindLower(p, Dot);
    var sepIndex := RFind(p, Sep);
    var dotIndex := RFind(p, Dot);
    if dotIndex > sepIndex {
      assert HasNonDot(q, sepIndex + 1, dotIndex) <==> HasNonDot(p, sepIndex + 1, dotIndex) by {
        if HasNonDot(p, sepIndex + 1, dotIndex) {
          var k :| sepIndex + 1 <= k < dotIndex && p[k] != Dot;
          LowerCharKeepsMarks(p[k], Dot);
        }
        if HasNonDot(q, sepIndex + 1, dotIndex) {
          var k :| sepIndex + 1 <= k < dotIndex && q[k] != Dot;
          LowerCharKeepsMarks(p[k], Dot);
        }
      }
      LowerPrefix(p, dotIndex);
    }
  }

  /** Lower-casing twice is lower-casing once. */
  lemma LowerIdempotent(s: string)
    ensures Lower(Lower(s)) == Lower(s)
  {
  }

  /** `".." in s`: two consecutive dots somewhere in the string. */
  predicate HasDotDot(s: string)
  {
    exists i :: 0 <= i < |s| - 1 && s[i] == Dot && s[i + 1] == Dot
  }
}
