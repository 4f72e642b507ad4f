/**
  The local filesystem as `_PutLocal` sees it: a set of directories and a
  set of hard links (target path to source path). A path is looked up the
  way the kernel resolves it, up to trailing slashes: `d/` names `d`, and a
  path of slashes only names the root. `os.mkdir`, `os.link` and
  `os.makedirs` are modelled with the failures they raise: the target
  already exists, or its parent directory is missing.
 */
module LocalFs {
  import opened Base
  import opened Text
  import opened Paths
  import opened Pipeline

  datatype Fs = Fs(dirs: set<string>, links: map<string, string>)

  /** The spelling `p` is stored under: trailing slashes dropped, except that slashes alone stay the root `/`. */
  function Canonical(p: string): (r: string)
    ensures StartsWith(p, r)
    ensures r == "" <==> p == ""
    ensures r == "/" || r == "" || r[|r| - 1] != '/'
    ensures p != "" && p[|p| - 1] != '/' ==> r == p
  {
    var s := RStripSlashes(p);
    if s == "" && p != "" then
      assert p[0] == '/' by { assert AllSlashes(p[|s|..]); }
      "/"
    else s
  }

  predicate Exists(fs: Fs, p: string) {
    Canonical(p) in fs.dirs || Canonical(p) in fs.links
  }

  predicate IsDir(fs: Fs, p: string) {
    Canonical(p) in fs.dirs
  }

  /**
    The directory that would contain `p` exists (a relative name lives in
    the working directory); the empty path has no such directory.
   */
  predicate ParentIsDir(fs: Fs, p: string) {
    var c := Canonical(p);
    c != "" && (Dirname(c) == "" || IsDir(fs, Dirname(c)))
  }

  /** One more trailing slash names the same path. */
  lemma CanonicalTrailingSlash(p: string)
    requires p != ""
    ensures Canonical(p + "/") == Canonical(p)
  {
    assert (p + "/")[..|p|] == p;
  }

  /** `os.mkdir` of `d/` does what `os.mkdir` of `d` does, only naming the path as given. */
  lemma MkdirTrailingSlash(fs: Fs, p: string)
    requires p != ""
    ensures Mkdir(fs, p + "/").state == Mkdir(fs, p).state
    ensures Mkdir(fs, p + "/").fault.None? <==> Mkdir(fs, p).fault.None?
    ensures Exists(fs, p) ==> Mkdir(fs, p + "/").fault == Some(OsError(AlreadyExists, p + "/"))
  {
    CanonicalTrailingSlash(p);
  }

  /** `fs'` keeps everything `fs` had. */
  predicate Grows(fs: Fs, fs': Fs) {
    && fs.dirs <= fs'.dirs
    && fs.links.Keys <= fs'.links.Keys
    && forall k :: k in fs.links ==> fs'.links[k] == fs.links[k]
  }

  lemma GrowsTransitive(a: Fs, b: Fs, c: Fs)
    requires Grows(a, b) && Grows(b, c)
    ensures Grows(a, c)
  {
  }

  /** `os.mkdir(p)`. */
  function Mkdir(fs: Fs, p: string): (r: Run<Fs>)
    ensures r.fault.None? <==> !Exists(fs, p) && ParentIsDir(fs, p)
    ensures Exists(fs, p) ==> r.fault == Some(OsError(AlreadyExists, p))
    ensures r.fault.Some? ==> r.state == fs
    ensures r.fault.None? ==> r.state.dirs == fs.dirs + {Canonical(p)} && r.state.links == fs.links
  {
    if Exists(fs, p) then Run(fs, Some(OsError(AlreadyExists, p)))
    else if !ParentIsDir(fs, p) then Run(fs, Some(OsError(NoParentDirectory, p)))
    else Run(Fs(fs.dirs + {Canonical(p)}, fs.links), None)
  }

  /**
    `os.link(src, dst)`: the source's bytes are not modelled, only the new
    name and what it points at. A new name with a trailing slash asks for a
    directory that does not exist, and the kernel refuses it with ENOENT.
   */
  function Link(fs: Fs, src: string, dst: string): (r: Run<Fs>)
    ensures r.fault.None? <==> !Exists(fs, dst) && ParentIsDir(fs, dst) && !EndsWith(dst, "/")
    ensures Exists(fs, dst) ==> r.fault == Some(OsError(AlreadyExists, dst))
    ensures r.fault.Some? ==> r.state == fs
    ensures r.fault.None? ==> Canonical(dst) == dst
    ensures r.fault.None? ==> r.state.links == fs.links[dst := src] && r.state.dirs == fs.dirs
  {
    if Exists(fs, dst) then Run(fs, Some(OsError(AlreadyExists, dst)))
    else if !ParentIsDir(fs, dst) || EndsWith(dst, "/") then Run(fs, Some(OsError(NoParentDirectory, dst)))
    else Run(Fs(fs.dirs, fs.links[dst := src]), None)
  }

  /** The `(head, tail)` pair `os.makedirs` works with: a trailing slash is split off once more. */
  function MakedirsSplit(p: string): (r: (string, string))
    ensures StartsWith(p, r.0)
    ensures r.1 != "" ==> |r.0| < |p|
    ensures r.1 == Basename(p) || Basename(p) == ""
  {
    var (head, tail) := PathSplit(p);
    if tail == "" then
      var r := PathSplit(head);
      assert StartsWith(p, r.0) by {
        assert p[..|r.0|] == head[..|r.0|];
      }
      r
    else (head, tail)
  }

  /**
    `os.makedirs(p)` as CPython 2.7 writes it: create the missing head
    first (an "already exists" error from that inner call is swallowed),
    stop if the last component is `.`, then `os.mkdir(p)`.
   */
  function Makedirs(fs: Fs, p: string): (r: Run<Fs>)
    ensures Grows(fs, r.state) && r.state.links == fs.links
    ensures AddsPrefixesOf(fs, r.state, p)
    ensures r.fault.Some? ==> r.fault.value.OsError?
    ensures Exists(fs, p) && MakedirsSplit(p).1 != "." ==> r.fault.Some?
    ensures r.fault.None? && MakedirsSplit(p).1 != "." ==> IsDir(r.state, p)
    decreases |p|
  {
    var (head, tail) := MakedirsSplit(p);
    if head != "" && tail != "" && !Exists(fs, head) then
      var inner := Makedirs(fs, head);
      PrefixesWiden(fs, inner.state, head, p);
      if inner.fault.Some? && inner.fault.value.errno != AlreadyExists then inner
      else if tail == "." then Run(inner.state, None)
      else
        MkdirAddsPrefixes(inner.state, p);
        PrefixesCompose(fs, inner.state, Mkdir(inner.state, p).state, p);
        Mkdir(inner.state, p)
    else
      MkdirAddsPrefixes(fs, p);
      Mkdir(fs, p)
  }

  /** Every directory `fs'` has and `fs` lacks is a prefix of `p`. */
  predicate AddsPrefixesOf(fs: Fs, fs': Fs, p: string) {
    forall q :: q in fs'.dirs && q !in fs.dirs ==> StartsWith(p, q)
  }

  lemma MkdirAddsPrefixes(fs: Fs, p: string)
    ensures AddsPrefixesOf(fs, Mkdir(fs, p).state, p)
  {
  }

  lemma PrefixesWiden(fs: Fs, fs': Fs, head: string, p: string)
    requires AddsPrefixesOf(fs, fs', head) && StartsWith(p, head)
    ensures AddsPrefixesOf(fs, fs', p)
  {
    PrefixOfPrefix(p, head);
  }

  lemma PrefixesCompose(a: Fs, b: Fs, c: Fs, p: string)
    requires a.dirs <= b.dirs
    requires AddsPrefixesOf(a, b, p) && AddsPrefixesOf(b, c, p)
    ensures AddsPrefixesOf(a, c, p)
  {
  }

  /** When the head `os.makedirs` splits off already exists, it is a plain `os.mkdir`. */
  lemma MakedirsUnderExisting(fs: Fs, p: string)
    requires Exists(fs, MakedirsSplit(p).0)
    ensures Makedirs(fs, p) == Mkdir(fs, p)
  {
  }

  lemma PrefixOfPrefix(p: string, head: string)
    requires StartsWith(p, head)
    ensures forall q :: StartsWith(head, q) ==> StartsWith(p, q)
  {
    forall q | StartsWith(head, q) ensures StartsWith(p, q) {
      assert p[..|q|] == head[..|q|];
    }
  }
}
