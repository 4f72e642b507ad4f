/**
  The two putters of `van/static/cdn.py` behind one interface: the scheme
  dispatch in `export`, and `put` as a consumer of an entry stream that
  stops at the first exception, its own or the stream's.
 */
module Putters {
  import opened Base
  import opened Text
  import opened Paths
  import opened Pipeline
  import opened LocalFs
  import LocalSink
  import S3Sink

  datatype Putter =
    | LocalPutter(targetDir: string)
    | S3Putter(bucket: string, targetPath: string)

  /** `target.split(':')[0]`: everything before the first colon. */
  function SchemeOf(target: string): (r: string)
    ensures ':' !in r && StartsWith(target, r)
    ensures r == target || target[|r|] == ':'
  {
    match IndexOf(target, ':')
    case None => target
    case Some(i) => target[..i]
  }

  /** `{'file': _PutLocal, 's3': _PutS3}[schema](target, **kw)`. */
  function MakePutter(target: string, kw: map<string, string>): (r: Result<Putter, Fault>)
    ensures SchemeOf(target) != "file" && SchemeOf(target) != "s3" ==> r == Err(UnknownScheme(SchemeOf(target)))
    ensures r.Ok? && r.value.LocalPutter? ==> SchemeOf(target) == "file" && kw == map[] && "file://" + r.value.targetDir == target
    ensures r.Ok? && r.value.S3Putter? ==> SchemeOf(target) == "s3" && kw.Keys <= S3Sink.AwsKeywords
    ensures SchemeOf(target) == "file" && kw != map[] ==> r == Err(UnexpectedKeywords(kw.Keys))
  {
    var scheme := SchemeOf(target);
    if scheme == "file" then
      var dir :- LocalSink.NewPutLocal(target, kw);
      Ok(LocalPutter(dir))
    else if scheme == "s3" then
      var t :- S3Sink.NewPutS3(target, kw);
      Ok(S3Putter(t.bucket, t.targetPath))
    else Err(UnknownScheme(scheme))
  }

  /** A `file://` URL of an absolute directory selects the local putter for that directory. */
  lemma MakePutterFile(dir: string)
    requires StartsWith(dir, "/")
    ensures MakePutter("file://" + dir, map[]) == Ok(LocalPutter(dir))
  {
    var t := "file://" + dir;
    assert t[4] == ':' && ':' !in t[..4];
    assert SchemeOf(t) == "file";
    LocalSink.NewPutLocalOfPath(dir);
  }

  /** An `s3://bucket/path` URL selects the S3 putter for that bucket and path. */
  lemma MakePutterS3(bucket: string, path: string, kw: map<string, string>)
    requires '/' !in bucket && '?' !in bucket && '#' !in bucket && '[' !in bucket && ']' !in bucket
    requires path == "" || path[0] == '/'
    requires '?' !in path && '#' !in path
    requires kw.Keys <= S3Sink.AwsKeywords
    ensures MakePutter("s3://" + bucket + path, kw) == Ok(S3Putter(bucket, path))
  {
    var t := "s3://" + bucket + path;
    assert t[2] == ':' && ':' !in t[..2];
    assert SchemeOf(t) == "s3";
    S3Sink.NewPutS3OfParts(bucket, path, kw);
  }

  /** The `file:` target the dispatch test names selects the local putter. */
  lemma MakePutterFileExample()
    ensures MakePutter("file:///tmp/whatever", map[]) == Ok(LocalPutter("/tmp/whatever"))
  {
    assert "file:///tmp/whatever" == "file://" + "/tmp/whatever";
    MakePutterFile("/tmp/whatever");
  }

  /** The `s3:` target the dispatch test names selects the S3 putter. */
  lemma MakePutterS3Example()
    ensures MakePutter("s3://bucket/whatever", map[]) == Ok(S3Putter("bucket", "/whatever"))
  {
    var b, w := "bucket", "/whatever";
    assert '/' !in b && '?' !in b && '#' !in b && '[' !in b && ']' !in b;
    assert "s3://bucket/whatever" == "s3://" + b + w;
    MakePutterS3(b, w, map[]);
  }

  /**
    Everything a putter can touch: the local filesystem, the `proj_dirs`
    of the running `put` call, and the log of S3 uploads.
   */
  datatype Sink = Sink(fs: Fs, seen: set<string>, uploads: seq<S3Sink.Upload>)

  /** One iteration of the putter's `put` loop. */
  function Step(p: Putter, st: Sink, e: Entry): (r: Run<Sink>)
    ensures Grows(st.fs, r.state.fs)
    ensures p.S3Putter? ==> r == Run(st.(uploads := S3Sink.Step(p.targetPath, st.uploads, e)), None)
    ensures p.LocalPutter? ==> r.state.uploads == st.uploads && r.state.seen <= st.seen + {e.pname}
    ensures p.LocalPutter? && e.pname !in st.seen && Exists(st.fs, LocalSink.ProjectDir(p.targetDir, e.dist)) ==>
      r == Run(st, Some(OsError(AlreadyExists, LocalSink.ProjectDir(p.targetDir, e.dist))))
    ensures p.LocalPutter? && r.fault.None? && e.pname !in st.seen ==>
      IsDir(r.state.fs, LocalSink.ProjectDir(p.targetDir, e.dist)) && IsDir(r.state.fs, LocalSink.VersionDir(p.targetDir, e.dist))
    ensures p.LocalPutter? && r.fault.None? && e.kind == File ==>
      r.state.fs.links == st.fs.links[LocalSink.TargetPath(p.targetDir, e) := e.fsPath]
    ensures p.LocalPutter? && e.kind == Dir ==> r.state.fs.links == st.fs.links
  {
    match p
    case LocalPutter(dir) =>
      var r := LocalSink.Step(dir, LocalSink.LocalState(st.fs, st.seen), e);
      Run(Sink(r.state.fs, r.state.seen, st.uploads), r.fault)
    case S3Putter(_, path) =>
      Run(st.(uploads := S3Sink.Step(path, st.uploads, e)), None)
  }

  /**
    `putter.put(files)`: pull entries one at a time and apply `Step` until
    the stream ends or raises, or a step raises.
   */
  function Put(p: Putter, st: Sink, s: Stream<Entry>): (r: Drain<Sink>)
    ensures r.consumed <= |s.items|
    ensures r.fault.None? ==> r.consumed == |s.items| && s.fault.None?
    ensures r.fault.Some? && r.consumed < |s.items| ==> p.LocalPutter?
    ensures Grows(st.fs, r.state.fs)
    ensures p.LocalPutter? ==> r.state.uploads == st.uploads
    decreases |s.items|
  {
    if s.items == [] then Drain(st, 0, s.fault)
    else
      var step := Step(p, st, s.items[0]);
      if step.fault.Some? then Drain(step.state, 1, step.fault)
      else
        var rest := Put(p, step.state, Stream(s.items[1..], s.fault));
        GrowsTransitive(st.fs, step.state.fs, rest.state.fs);
        Drain(rest.state, 1 + rest.consumed, rest.fault)
  }

  /** What a put call starts from: an empty `proj_dirs`. */
  function Fresh(fs: Fs, uploads: seq<S3Sink.Upload>): Sink {
    Sink(fs, {}, uploads)
  }

  /**
    The S3 putter never raises of its own: it pulls the whole stream, leaves
    the filesystem alone and logs one upload per non-directory entry, in order.
   */
  lemma {:induction false} PutS3Log(bucket: string, path: string, st: Sink, s: Stream<Entry>)
    ensures Put(S3Putter(bucket, path), st, s)
         == Drain(st.(uploads := st.uploads + S3Sink.UploadsOf(path, S3Sink.NonDirs(s.items))), |s.items|, s.fault)
    decreases |s.items|
  {
    var p := S3Putter(bucket, path);
    if s.items == [] {
      assert S3Sink.NonDirs(s.items) == [];
      assert st.uploads + [] == st.uploads;
    } else {
      var e := s.items[0];
      var st' := st.(uploads := S3Sink.Step(path, st.uploads, e));
      var tail := Stream(s.items[1..], s.fault);
      PutS3Log(bucket, path, st', tail);
      var rest := Put(p, st', tail);
      assert Put(p, st, s) == Drain(rest.state, 1 + rest.consumed, rest.fault);
      NonDirsUploadsCons(path, st.uploads, s.items);
    }
  }

  /** Logging the head's upload, then those of the rest, logs those of the whole batch. */
  lemma NonDirsUploadsCons(path: string, log: seq<S3Sink.Upload>, items: seq<Entry>)
    requires items != []
    ensures S3Sink.Step(path, log, items[0]) + S3Sink.UploadsOf(path, S3Sink.NonDirs(items[1..]))
         == log + S3Sink.UploadsOf(path, S3Sink.NonDirs(items))
  {
    var e := items[0];
    var rest := S3Sink.NonDirs(items[1..]);
    var later := S3Sink.UploadsOf(path, rest);
    if e.kind == Dir {
      assert S3Sink.NonDirs(items) == rest;
      assert S3Sink.Step(path, log, e) == log;
    } else {
      assert S3Sink.NonDirs(items) == [e] + rest;
      UploadsOfCons(path, e, rest);
      assert S3Sink.Step(path, log, e) == log + [S3Sink.UploadOf(path, e)];
      ConcatAssoc(log, [S3Sink.UploadOf(path, e)], later);
    }
  }

  lemma UploadsOfCons(path: string, e: Entry, es: seq<Entry>)
    ensures S3Sink.UploadsOf(path, [e] + es) == [S3Sink.UploadOf(path, e)] + S3Sink.UploadsOf(path, es)
  {
    var l := S3Sink.UploadsOf(path, [e] + es);
    var r := [S3Sink.UploadOf(path, e)] + S3Sink.UploadsOf(path, es);
    assert |l| == |r|;
    forall i | 0 <= i < |l|
      ensures l[i] == r[i]
    {
      if i > 0 {
        assert ([e] + es)[i] == es[i - 1];
      }
    }
  }

  /** Every package name already in `proj_dirs` has its project and version directories. */
  ghost predicate Prepared(dir: string, st: Sink, items: seq<Entry>) {
    forall e :: e in items && e.pname in st.seen ==>
      IsDir(st.fs, LocalSink.ProjectDir(dir, e.dist)) && IsDir(st.fs, LocalSink.VersionDir(dir, e.dist))
  }

  /** All entries of one package name carry the same distribution, as `get_distribution` guarantees. */
  ghost predicate ConsistentDists(items: seq<Entry>) {
    forall i, j :: 0 <= i < |items| && 0 <= j < |items| && items[i].pname == items[j].pname ==> items[i].dist == items[j].dist
  }

  /** The link targets of the file entries of `items`. */
  function FileTargets(dir: string, items: seq<Entry>): (r: set<string>)
    ensures forall e :: e in items && e.kind == File ==> LocalSink.TargetPath(dir, e) in r
  {
    if items == [] then {}
    else (if items[0].kind == File then {LocalSink.TargetPath(dir, items[0])} else {}) + FileTargets(dir, items[1..])
  }

  /** Every target in `FileTargets` is the target of some file entry. */
  lemma {:induction false} FileTargetsExact(dir: string, items: seq<Entry>, t: string)
    requires t in FileTargets(dir, items)
    ensures exists e :: e in items && e.kind == File && LocalSink.TargetPath(dir, e) == t
  {
    if items[0].kind != File || t != LocalSink.TargetPath(dir, items[0]) {
      FileTargetsExact(dir, items[1..], t);
      var e :| e in items[1..] && e.kind == File && LocalSink.TargetPath(dir, e) == t;
      assert e in items;
    }
  }

  lemma ConsistentTail(items: seq<Entry>)
    requires items != [] && ConsistentDists(items)
    ensures ConsistentDists(items[1..])
  {
    var tail := items[1..];
    forall i, j | 0 <= i < |tail| && 0 <= j < |tail| && tail[i].pname == tail[j].pname
      ensures tail[i].dist == tail[j].dist
    {
      assert tail[i] == items[i + 1] && tail[j] == items[j + 1];
    }
  }

  /** A successful local step on the head entry keeps the rest of the batch prepared. */
  lemma PreparedAfterStep(dir: string, st: Sink, items: seq<Entry>)
    requires items != [] && ConsistentDists(items) && Prepared(dir, st, items)
    requires Step(LocalPutter(dir), st, items[0]).fault.None?
    ensures Prepared(dir, Step(LocalPutter(dir), st, items[0]).state, items[1..])
    ensures var st' := Step(LocalPutter(dir), st, items[0]).state;
      IsDir(st'.fs, LocalSink.ProjectDir(dir, items[0].dist)) && IsDir(st'.fs, LocalSink.VersionDir(dir, items[0].dist))
  {
    var st' := Step(LocalPutter(dir), st, items[0]).state;
    StepPreparesHead(dir, st, items);
    PreparedTail(dir, st, items);
    HeadDistShared(items);
    PreparedAfter(dir, st, st', items[0], items[1..]);
  }

  lemma StepPreparesHead(dir: string, st: Sink, items: seq<Entry>)
    requires items != [] && Prepared(dir, st, items)
    requires Step(LocalPutter(dir), st, items[0]).fault.None?
    ensures var e := items[0];
      var st' := Step(LocalPutter(dir), st, e).state;
      && st.fs.dirs <= st'.fs.dirs && st'.seen <= st.seen + {e.pname}
      && IsDir(st'.fs, LocalSink.ProjectDir(dir, e.dist)) && IsDir(st'.fs, LocalSink.VersionDir(dir, e.dist))
  {
    assert items[0] in items;
  }

  lemma PreparedTail(dir: string, st: Sink, items: seq<Entry>)
    requires items != [] && Prepared(dir, st, items)
    ensures Prepared(dir, st, items[1..])
  {
    assert items == [items[0]] + items[1..];
  }

  lemma HeadDistShared(items: seq<Entry>)
    requires items != [] && ConsistentDists(items)
    ensures forall x :: x in items[1..] && x.pname == items[0].pname ==> x.dist == items[0].dist
  {
    forall x | x in items[1..] && x.pname == items[0].pname
      ensures x.dist == items[0].dist
    {
      assert items == [items[0]] + items[1..];
      var j :| 0 <= j < |items| && items[j] == x;
      assert items[0].pname == items[j].pname;
    }
  }

  /** The same, from the facts about the step that it needs. */
  lemma PreparedAfter(dir: string, st: Sink, st': Sink, e: Entry, rest: seq<Entry>)
    requires forall x :: x in rest && x.pname == e.pname ==> x.dist == e.dist
    requires Prepared(dir, st, rest)
    requires st.fs.dirs <= st'.fs.dirs && st'.seen <= st.seen + {e.pname}
    requires IsDir(st'.fs, LocalSink.ProjectDir(dir, e.dist)) && IsDir(st'.fs, LocalSink.VersionDir(dir, e.dist))
    ensures Prepared(dir, st', rest)
  {
    forall x | x in rest && x.pname in st'.seen
      ensures IsDir(st'.fs, LocalSink.ProjectDir(dir, x.dist)) && IsDir(st'.fs, LocalSink.VersionDir(dir, x.dist))
    {
      if x.pname !in st.seen {
        assert x.pname == e.pname;
      }
    }
  }

  /** The outcome of a successful local put, as `PutLocalPlaces` states it. */
  ghost predicate Placed(dir: string, st: Sink, items: seq<Entry>, st': Sink) {
    && st'.fs.links.Keys == st.fs.links.Keys + FileTargets(dir, items)
    && (forall e :: e in items && e.kind == File ==> st'.fs.links[LocalSink.TargetPath(dir, e)] == e.fsPath)
    && (forall e :: e in items ==>
          IsDir(st'.fs, LocalSink.ProjectDir(dir, e.dist)) && IsDir(st'.fs, LocalSink.VersionDir(dir, e.dist)))
  }

  /** Linking the head's target, then the rest's, links the batch's targets. */
  lemma LinkKeysCons(dir: string, items: seq<Entry>, before: map<string, string>, mid: map<string, string>, after: map<string, string>)
    requires items != []
    requires items[0].kind == File ==> mid.Keys == before.Keys + {LocalSink.TargetPath(dir, items[0])}
    requires items[0].kind != File ==> mid.Keys == before.Keys
    requires after.Keys == mid.Keys + FileTargets(dir, items[1..])
    ensures after.Keys == before.Keys + FileTargets(dir, items)
  {
  }

  /** A successful step followed by a successful rest places the whole batch. */
  lemma PlacedCons(dir: string, st: Sink, items: seq<Entry>, mid: Sink, st': Sink)
    requires items != []
    requires items[0].kind == File ==> mid.fs.links == st.fs.links[LocalSink.TargetPath(dir, items[0]) := items[0].fsPath]
    requires items[0].kind != File ==> mid.fs.links == st.fs.links
    requires IsDir(mid.fs, LocalSink.ProjectDir(dir, items[0].dist)) && IsDir(mid.fs, LocalSink.VersionDir(dir, items[0].dist))
    requires Grows(mid.fs, st'.fs)
    requires Placed(dir, mid, items[1..], st')
    ensures Placed(dir, st, items, st')
  {
    LinkKeysCons(dir, items, st.fs.links, mid.fs.links, st'.fs.links);
    DirsCons(dir, items, mid.fs, st'.fs);
    LinksCons(dir, items, mid.fs.links, st'.fs.links);
  }

  /** The head's directories survive the rest of the put, and the rest's are already there. */
  lemma DirsCons(dir: string, items: seq<Entry>, mid: Fs, fs: Fs)
    requires items != []
    requires IsDir(mid, LocalSink.ProjectDir(dir, items[0].dist)) && IsDir(mid, LocalSink.VersionDir(dir, items[0].dist))
    requires mid.dirs <= fs.dirs
    requires forall e :: e in items[1..] ==> IsDir(fs, LocalSink.ProjectDir(dir, e.dist)) && IsDir(fs, LocalSink.VersionDir(dir, e.dist))
    ensures forall e :: e in items ==> IsDir(fs, LocalSink.ProjectDir(dir, e.dist)) && IsDir(fs, LocalSink.VersionDir(dir, e.dist))
  {
    forall x | x in items
      ensures IsDir(fs, LocalSink.ProjectDir(dir, x.dist)) && IsDir(fs, LocalSink.VersionDir(dir, x.dist))
    {
      if x != items[0] {
        assert x in items[1..];
      }
    }
  }

  /** The head's link survives the rest of the put, and the rest's links are already there. */
  lemma LinksCons(dir: string, items: seq<Entry>, mid: map<string, string>, links: map<string, string>)
    requires items != []
    requires items[0].kind == File ==> LocalSink.TargetPath(dir, items[0]) in mid && mid[LocalSink.TargetPath(dir, items[0])] == items[0].fsPath
    requires forall k :: k in mid ==> k in links && links[k] == mid[k]
    requires FileTargets(dir, items) <= links.Keys
    requires forall e :: e in items[1..] && e.kind == File ==> LocalSink.TargetPath(dir, e) in links && links[LocalSink.TargetPath(dir, e)] == e.fsPath
    ensures forall e :: e in items && e.kind == File ==> links[LocalSink.TargetPath(dir, e)] == e.fsPath
  {
    forall x | x in items && x.kind == File
      ensures links[LocalSink.TargetPath(dir, x)] == x.fsPath
    {
      if x != items[0] {
        assert x in items[1..];
      }
    }
  }

  /**
    A local put that succeeds leaves every file entry linked at its target
    (pointing at the entry's file), adds no other link, and leaves the
    project and version directories of every entry in place.
   */
  lemma {:induction false} PutLocalPlaces(dir: string, st: Sink, s: Stream<Entry>)
    requires ConsistentDists(s.items) && Prepared(dir, st, s.items)
    ensures var r := Put(LocalPutter(dir), st, s);
      r.fault.None? ==> Placed(dir, st, s.items, r.state)
    decreases |s.items|
  {
    var p := LocalPutter(dir);
    var r := Put(p, st, s);
    if s.items == [] {
    } else if r.fault.None? {
      var step := Step(p, st, s.items[0]);
      var tail := Stream(s.items[1..], s.fault);
      ConsistentTail(s.items);
      PreparedAfterStep(dir, st, s.items);
      PutLocalPlaces(dir, step.state, tail);
      var rest := Put(p, step.state, tail);
      assert r.state == rest.state;
      PlacedCons(dir, st, s.items, step.state, rest.state);
    }
  }

  /**
    `put` is not repeatable: once a put of a non-empty batch has succeeded,
    putting it again stops on the first entry, because the project
    directory already exists.
   */
  lemma PutLocalTwiceFails(dir: string, fs: Fs, items: seq<Entry>, up: seq<S3Sink.Upload>, fault: Option<Fault>)
    requires items != [] && ConsistentDists(items)
    requires Put(LocalPutter(dir), Fresh(fs, up), Stream(items, None)).fault.None?
    ensures var again := Put(LocalPutter(dir), Fresh(Put(LocalPutter(dir), Fresh(fs, up), Stream(items, None)).state.fs, up), Stream(items, fault));
      again.fault == Some(OsError(AlreadyExists, LocalSink.ProjectDir(dir, items[0].dist))) && again.consumed == 1
  {
    var first := Put(LocalPutter(dir), Fresh(fs, up), Stream(items, None));
    PutLocalPlaces(dir, Fresh(fs, up), Stream(items, None));
    assert items[0] in items;
  }

  /** The local and S3 putters lay a batch out the same way under a target of plain components. */
  lemma SameLayout(dir: string, e: Entry)
    requires StartsWith(dir, "/") && dir[|dir| - 1] != '/'
    requires LocalSink.Component(e.dist.projectName) && LocalSink.Component(e.dist.version)
    requires e.rpath == "" || e.rpath[0] != '/'
    ensures LocalSink.TargetPath(dir, e) == S3Sink.Key(dir, e)
  {
    LocalSink.TargetLayout(dir, e);
  }
}
