/**
  `_PutLocal` of `van/static/cdn.py`: publishes entries into a local
  directory laid out as `target_dir/project_name/version/rpath`, hard
  linking files and creating directories.
 */
module LocalSink {
  import opened Base
  import opened Text
  import opened Paths
  import opened Pipeline
  import opened LocalFs

  /**
    `_PutLocal(target, **kw)`: the constructor takes no keyword arguments,
    insists on a `file:///` URL and keeps everything after `file://` as the
    target directory.
   */
  function NewPutLocal(target: string, kw: map<string, string>): (r: Result<string, Fault>)
    ensures r.Ok? <==> kw == map[] && StartsWith(target, "file:///")
    ensures r.Ok? ==> "file://" + r.value == target && StartsWith(r.value, "/")
    ensures kw != map[] ==> r == Err(UnexpectedKeywords(kw.Keys))
  {
    if kw != map[] then Err(UnexpectedKeywords(kw.Keys))
    else if !StartsWith(target, "file:///") then Err(NotFileUrl(target))
    else
      assert target == target[..7] + target[7..];
      Ok(target[7..])
  }

  /** Every `file:///` URL names the absolute directory that follows `file://`. */
  lemma NewPutLocalOfPath(dir: string)
    requires StartsWith(dir, "/")
    ensures NewPutLocal("file://" + dir, map[]) == Ok(dir)
  {
    var t := "file://" + dir;
    assert t[..8] == "file:///";
    assert t[7..] == dir;
  }

  function ProjectDir(targetDir: string, d: Dist): string {
    PathJoin(targetDir, d.projectName)
  }

  function VersionDir(targetDir: string, d: Dist): string {
    PathJoin(ProjectDir(targetDir, d), d.version)
  }

  /** `os.path.join(target_dir, project_name, version, rpath)`; on POSIX `rpath.replace('/', os.sep)` is `rpath`. */
  function TargetPath(targetDir: string, e: Entry): string {
    PathJoin(VersionDir(targetDir, e.dist), e.rpath)
  }

  /** A path component that `os.path.join` glues on with exactly one slash. */
  predicate Component(s: string) {
    s != "" && s[0] != '/' && s[|s| - 1] != '/'
  }

  /** With plain components, an entry lands at `target_dir/project_name/version/rpath`. */
  lemma TargetLayout(targetDir: string, e: Entry)
    requires Component(targetDir) || (StartsWith(targetDir, "/") && targetDir[|targetDir| - 1] != '/')
    requires Component(e.dist.projectName) && Component(e.dist.version)
    requires e.rpath == "" || e.rpath[0] != '/'
    ensures TargetPath(targetDir, e) == targetDir + "/" + e.dist.projectName + "/" + e.dist.version + "/" + e.rpath
  {
    var pn := e.dist.projectName;
    var ver := e.dist.version;
    assert !StartsWith(pn, "/") && !EndsWith(targetDir, "/");
    var pd := targetDir + "/" + pn;
    assert ProjectDir(targetDir, e.dist) == pd;
    assert !StartsWith(ver, "/") && !EndsWith(pd, "/") && pd != "";
    var vd := pd + "/" + ver;
    assert VersionDir(targetDir, e.dist) == vd;
    assert !StartsWith(e.rpath, "/") && !EndsWith(vd, "/") && vd != "";
  }

  /** The state of one `put` call: the filesystem and `proj_dirs`, the package names already given their directories. */
  datatype LocalState = LocalState(fs: Fs, seen: set<string>)

  /**
    The `proj_dirs` check of `_PutLocal.put`: the first entry of a package
    name makes its project directory and then its version directory.
   */
  function Prepare(targetDir: string, st: LocalState, e: Entry): (r: Run<LocalState>)
    ensures Grows(st.fs, r.state.fs) && r.state.fs.links == st.fs.links
    ensures r.fault.Some? ==> r.fault.value.OsError?
    ensures e.pname in st.seen ==> r == Run(st, None)
    ensures e.pname !in st.seen && Exists(st.fs, ProjectDir(targetDir, e.dist)) ==>
      r == Run(st, Some(OsError(AlreadyExists, ProjectDir(targetDir, e.dist))))
    ensures r.fault.None? ==> r.state.seen == st.seen + {e.pname}
    ensures r.fault.Some? ==> r.state.seen == st.seen
    ensures r.fault.None? && e.pname !in st.seen ==>
      IsDir(r.state.fs, ProjectDir(targetDir, e.dist)) && IsDir(r.state.fs, VersionDir(targetDir, e.dist))
  {
    if e.pname in st.seen then Run(st, None)
    else
      var made := Mkdir(st.fs, ProjectDir(targetDir, e.dist));
      if made.fault.Some? then Run(st, made.fault)
      else
        var made' := Mkdir(made.state, VersionDir(targetDir, e.dist));
        if made'.fault.Some? then Run(LocalState(made'.state, st.seen), made'.fault)
        else Run(LocalState(made'.state, st.seen + {e.pname}), None)
  }

  /** `os.link` of a `'file'` entry to its target, `os.makedirs` of the target of anything else. */
  function Place(targetDir: string, fs: Fs, e: Entry): (r: Run<Fs>)
    ensures Grows(fs, r.state)
    ensures r.fault.Some? ==> r.fault.value.OsError?
    ensures e.kind == File && Exists(fs, TargetPath(targetDir, e)) ==> r.fault.Some?
    ensures r.fault.None? && e.kind == File ==> r.state.links == fs.links[TargetPath(targetDir, e) := e.fsPath]
    ensures e.kind == Dir ==> r.state.links == fs.links
    ensures r.fault.None? && e.kind == Dir && MakedirsSplit(TargetPath(targetDir, e)).1 != "." ==>
      IsDir(r.state, TargetPath(targetDir, e))
  {
    if e.kind == File then Link(fs, e.fsPath, TargetPath(targetDir, e)) else Makedirs(fs, TargetPath(targetDir, e))
  }

  /**
    The directory entry of a package root (the spec `pkg:`, whose `rpath` is
    empty) targets `version/` itself: `Prepare` has just made the version
    directory, so `os.makedirs` raises EEXIST.
   */
  lemma PackageRootEntryFails(targetDir: string, st: LocalState, e: Entry)
    requires StartsWith(targetDir, "/") && targetDir[|targetDir| - 1] != '/'
    requires Component(e.dist.projectName)
    requires e.dist.version != "" && e.dist.version != "." && '/' !in e.dist.version
    requires e.kind == Dir && e.rpath == "" && e.pname !in st.seen
    requires Prepare(targetDir, st, e).fault.None?
    ensures Step(targetDir, st, e).fault == Some(OsError(AlreadyExists, VersionDir(targetDir, e.dist) + "/"))
  {
    var pd := ProjectDir(targetDir, e.dist);
    var vd := VersionDir(targetDir, e.dist);
    var fs := Prepare(targetDir, st, e).state.fs;
    VersionTarget(targetDir, e);
    VersionTargetSplit(pd, e.dist.version, vd);
    MakedirsUnderExisting(fs, vd + "/");
    MkdirTrailingSlash(fs, vd);
    assert Place(targetDir, fs, e) == Mkdir(fs, vd + "/");
  }

  /** With plain components, the target of an empty `rpath` is the version directory with a slash. */
  lemma VersionTarget(targetDir: string, e: Entry)
    requires StartsWith(targetDir, "/") && targetDir[|targetDir| - 1] != '/'
    requires Component(e.dist.projectName)
    requires e.dist.version != "" && '/' !in e.dist.version
    requires e.rpath == ""
    ensures var pd := ProjectDir(targetDir, e.dist);
      && pd != "" && pd[|pd| - 1] != '/'
      && VersionDir(targetDir, e.dist) == pd + "/" + e.dist.version
      && TargetPath(targetDir, e) == VersionDir(targetDir, e.dist) + "/"
  {
    var pd := ProjectDir(targetDir, e.dist);
    var vd := VersionDir(targetDir, e.dist);
    assert pd == targetDir + "/" + e.dist.projectName by {
      assert !StartsWith(e.dist.projectName, "/") && !EndsWith(targetDir, "/");
    }
    assert vd == pd + "/" + e.dist.version by {
      assert e.dist.version[0] != '/';
      assert !StartsWith(e.dist.version, "/") && !EndsWith(pd, "/");
    }
  }

  /** `os.makedirs` splits `project/version/` into the project directory and the version. */
  lemma VersionTargetSplit(pd: string, version: string, vd: string)
    requires pd != "" && pd[|pd| - 1] != '/'
    requires version != "" && '/' !in version
    requires vd == pd + "/" + version
    ensures MakedirsSplit(vd + "/") == (pd, version)
  {
    var p := vd + "/";
    assert LastIndexOf(p, '/') == Some(|vd|) by {
      assert p[|vd|] == '/';
    }
    assert PathSplit(p).1 == "" by {
      assert p[|vd| + 1..] == "";
    }
    assert PathSplit(p).0 == vd by {
      assert p[..|vd| + 1] == vd + "/";
      assert !AllSlashes(vd + "/") by { assert (vd + "/")[|vd| - 1] != '/'; }
      assert (vd + "/")[..|vd|] == vd;
    }
    SplitAtSlash(vd, pd, version);
  }

  /** One iteration of `_PutLocal.put`: `Prepare`, then `Place`. */
  function Step(targetDir: string, st: LocalState, e: Entry): (r: Run<LocalState>)
    ensures Grows(st.fs, r.state.fs)
    ensures r.fault.Some? ==> r.fault.value.OsError?
    ensures e.pname !in st.seen && Exists(st.fs, ProjectDir(targetDir, e.dist)) ==>
      r == Run(st, Some(OsError(AlreadyExists, ProjectDir(targetDir, e.dist))))
    ensures r.fault.None? ==> e.pname in r.state.seen && st.seen <= r.state.seen
    ensures r.state.seen <= st.seen + {e.pname}
    ensures r.fault.None? && e.kind == File ==>
      r.state.fs.links == st.fs.links[TargetPath(targetDir, e) := e.fsPath]
    ensures e.kind == Dir ==> r.state.fs.links == st.fs.links
    ensures r.fault.None? && e.kind == Dir && MakedirsSplit(TargetPath(targetDir, e)).1 != "." ==>
      IsDir(r.state.fs, TargetPath(targetDir, e))
    ensures r.fault.None? && e.pname !in st.seen ==>
      IsDir(r.state.fs, ProjectDir(targetDir, e.dist)) && IsDir(r.state.fs, VersionDir(targetDir, e.dist))
  {
    var prepared := Prepare(targetDir, st, e);
    if prepared.fault.Some? then prepared
    else
      var placed := Place(targetDir, prepared.state.fs, e);
      GrowsTransitive(st.fs, prepared.state.fs, placed.state);
      Run(LocalState(placed.state, prepared.state.seen), placed.fault)
  }
}
