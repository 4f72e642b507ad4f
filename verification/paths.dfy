/**
  POSIX path helpers as CPython's `posixpath` computes them: `split`,
  `dirname`, `basename` and `join`. Paths are plain strings; nothing here
  touches a filesystem or normalises `.`, `..` or repeated slashes.
 */
module Paths {
  import opened Base
  import opened Text

  predicate AllSlashes(s: string) {
    forall i :: 0 <= i < |s| ==> s[i] == '/'
  }

  /** `s.rstrip('/')`. */
  function RStripSlashes(s: string): (r: string)
    ensures StartsWith(s, r)
    ensures AllSlashes(s[|r|..])
    ensures r == "" || r[|r| - 1] != '/'
    decreases |s|
  {
    if |s| > 0 && s[|s| - 1] == '/' then
      var r := RStripSlashes(s[..|s| - 1]);
      assert s[..|s| - 1][|r|..] + ['/'] == s[|r|..];
      r
    else s
  }

  /** `posixpath.split(p)`: the head (trailing slashes removed unless it is all slashes) and the last component. */
  function PathSplit(p: string): (r: (string, string))
    ensures '/' !in r.1
    ensures EndsWith(p, r.1)
    ensures StartsWith(p, r.0)
    ensures |r.0| + |r.1| <= |p|
    ensures r.1 == p <==> '/' !in p
  {
    var i := match LastIndexOf(p, '/') case None => 0 case Some(k) => k + 1;
    var head := p[..i];
    var tail := p[i..];
    assert StartsWith(p, head);
    if head != "" && !AllSlashes(head) then
      var h := RStripSlashes(head);
      assert head[|head| - 1] == '/';
      assert |h| == |head| ==> h == head;
      assert head[0..] == head;
      (h, tail)
    else (head, tail)
  }

  function Dirname(p: string): string {
    PathSplit(p).0
  }

  function Basename(p: string): string {
    PathSplit(p).1
  }

  /** `posixpath.join(a, b)`: an absolute `b` replaces `a`; otherwise one slash separates them unless `a` is empty or already ends in one. */
  function PathJoin(a: string, b: string): (r: string)
    ensures EndsWith(r, b)
    ensures !StartsWith(b, "/") ==> StartsWith(r, a)
    ensures StartsWith(b, "/") ==> r == b
  {
    if StartsWith(b, "/") then b
    else if a == "" || EndsWith(a, "/") then a + b
    else a + "/" + b
  }

  /** Splitting a joined path gives back the directory and the name, when both are plain. */
  lemma PathSplitJoin(a: string, b: string)
    requires a != "" && a[|a| - 1] != '/'
    requires b != "" && '/' !in b
    ensures PathSplit(PathJoin(a, b)) == (a, b)
  {
    var p := PathJoin(a, b);
    assert p == a + "/" + b by {
      assert b[0] != '/';
      assert !EndsWith(a, "/");
    }
    SplitAtSlash(p, a, b);
  }

  /** A path that is a directory not ending in a slash, one slash, and a plain name splits into those two. */
  lemma SplitAtSlash(p: string, a: string, b: string)
    requires a != "" && a[|a| - 1] != '/' && '/' !in b
    requires p == a + "/" + b
    ensures PathSplit(p) == (a, b)
  {
    assert LastIndexOf(p, '/') == Some(|a|) by {
      assert p[|a|] == '/';
      assert p[|a| + 1..] == b;
    }
    var head := p[..|a| + 1];
    assert head == a + "/";
    assert !AllSlashes(head) by { assert head[|a| - 1] != '/'; }
    assert RStripSlashes(head) == a by {
      assert head[..|head| - 1] == a;
    }
    assert p[|a| + 1..] == b;
  }

}
