/**
  `export(resources, target, yui_compressor, **kw)` of `van/static/cdn.py`:
  walk the resources, pick a putter by the target's scheme, optionally run
  every entry through the compressor, hand the entries to the putter, and
  dispose of the compressor's workspace whatever happened.

  The walk, the compressor and the putter are generators chained lazily:
  the putter pulls an entry, which pulls one from the compressor, which
  pulls one from the walk. `Pump` is that interleaving; `PumpIsPutAfterCompress`
  shows it agrees with running the stages one after the other.
 */
module Export {
  import opened Base
  import opened Pipeline
  import opened LocalFs
  import opened Walker
  import opened Putters
  import opened Compressor
  import S3Sink

  /** `tempfile.mkdtemp()` and `shutil.rmtree()` of the compressor's workspace. */
  datatype WorkspaceEvent = Created(path: string) | Removed(path: string)

  /** Everything `export` can change: the local filesystem, the S3 upload log, the tool runs and the workspace events. */
  datatype World = World(fs: Fs, uploads: seq<S3Sink.Upload>, commands: seq<Command>, workspaces: seq<WorkspaceEvent>)

  /**
    What `export` reads from outside: the installed packages, the
    `resource_filename` mapping, and the directory `mkdtemp` will return.
   */
  datatype Env = Env(packages: map<string, Package>, resolve: Resolver, tmpdir: string)

  /** The interleaved run of compressor and putter: what the sink holds, the compressor's state, the tool runs, and the exception that ended it. */
  datatype Pumped = Pumped(sink: Sink, comp: YuiCompressor, commands: seq<Command>, fault: Option<Fault>)

  /** `putter.put(comp.compress(files))`, one entry at a time. */
  function Pump(p: Putter, st: Sink, c: YuiCompressor, s: Stream<Entry>): (r: Pumped)
    ensures Grows(st.fs, r.sink.fs)
    ensures r.comp.workspace == c.workspace
    decreases |s.items|
  {
    if s.items == [] then Pumped(st, c, [], s.fault)
    else
      match CompressOne(c, s.items[0])
      case Err(f) => Pumped(st, c, [], Some(f))
      case Ok(k) =>
        var ran := if k.command.Some? then [k.command.value] else [];
        var step := Step(p, st, k.entry);
        if step.fault.Some? then Pumped(step.state, k.comp, ran, step.fault)
        else
          var rest := Pump(p, step.state, k.comp, Stream(s.items[1..], s.fault));
          GrowsTransitive(st.fs, step.state.fs, rest.sink.fs);
          Pumped(rest.sink, rest.comp, ran + rest.commands, rest.fault)
  }

  /** Compressing a prefix longer than one entry: the head, then the rest of the prefix. */
  lemma CompressPrefixCons(c: YuiCompressor, items: seq<Entry>, m: nat)
    requires m < |items| && c.workspace.Some?
    ensures var k := CompressOne(c, items[0]).value;
      var ran := if k.command.Some? then [k.command.value] else [];
      Compress(c, Stream(items[..m + 1], None)).commands == ran + Compress(k.comp, Stream(items[1..][..m], None)).commands
  {
    assert items[..m + 1][1..] == items[1..][..m];
  }

  /**
    The interleaved run leaves the sink exactly as putting the fully
    compressed stream would, ends with the same exception, and has run the
    tool for exactly the entries the putter pulled.
   */
  ghost predicate PumpAgrees(p: Putter, st: Sink, c: YuiCompressor, s: Stream<Entry>) {
    var staged := Put(p, st, Compress(c, s).out);
    var fused := Pump(p, st, c, s);
    && fused.sink == staged.state && fused.fault == staged.fault
    && staged.consumed <= |s.items|
    && fused.commands == Compress(c, Stream(s.items[..staged.consumed], None)).commands
  }

  lemma {:induction false} PumpIsPutAfterCompress(p: Putter, st: Sink, c: YuiCompressor, s: Stream<Entry>)
    requires c.workspace.Some?
    ensures var staged := Put(p, st, Compress(c, s).out);
      var fused := Pump(p, st, c, s);
      && fused.sink == staged.state && fused.fault == staged.fault
      && staged.consumed <= |s.items|
      && fused.commands == Compress(c, Stream(s.items[..staged.consumed], None)).commands
    decreases |s.items|
  {
    if s.items == [] {
      assert s.items[..0] == [];
    } else {
      var k := CompressOne(c, s.items[0]).value;
      var step := Step(p, st, k.entry);
      if step.fault.Some? {
        PumpStops(p, st, c, s);
      } else {
        PumpIsPutAfterCompress(p, step.state, k.comp, Stream(s.items[1..], s.fault));
        PumpGoesOn(p, st, c, s);
      }
      assert PumpAgrees(p, st, c, s);
    }
  }

  /** The putter refuses the first compressed entry: both runs stop there, after one tool run at most. */
  lemma PumpStops(p: Putter, st: Sink, c: YuiCompressor, s: Stream<Entry>)
    requires c.workspace.Some? && s.items != []
    requires Step(p, st, CompressOne(c, s.items[0]).value.entry).fault.Some?
    ensures PumpAgrees(p, st, c, s)
  {
    var k := CompressOne(c, s.items[0]).value;
    var step := Step(p, st, k.entry);
    CompressCons(c, s);
    assert Put(p, st, Compress(c, s).out) == Drain(step.state, 1, step.fault);
    CompressPrefixCons(c, s.items, 0);
    assert s.items[1..][..0] == [];
  }

  /** The putter takes the first compressed entry: agreement on the tail gives agreement on the whole. */
  lemma PumpGoesOn(p: Putter, st: Sink, c: YuiCompressor, s: Stream<Entry>)
    requires c.workspace.Some? && s.items != []
    requires var k := CompressOne(c, s.items[0]).value;
      var step := Step(p, st, k.entry);
      step.fault.None? && PumpAgrees(p, step.state, k.comp, Stream(s.items[1..], s.fault))
    ensures PumpAgrees(p, st, c, s)
  {
    var k := CompressOne(c, s.items[0]).value;
    var step := Step(p, st, k.entry);
    var tail := Stream(s.items[1..], s.fault);
    var rest := Put(p, step.state, Compress(k.comp, tail).out);
    PutCompressedCons(p, st, c, s);
    PumpCons(p, st, c, s);
    CompressPrefixCons(c, s.items, rest.consumed);
  }

  /** Putting a compressed stream whose head the putter takes: one entry, then the compressed tail. */
  lemma PutCompressedCons(p: Putter, st: Sink, c: YuiCompressor, s: Stream<Entry>)
    requires c.workspace.Some? && s.items != []
    requires Step(p, st, CompressOne(c, s.items[0]).value.entry).fault.None?
    ensures var k := CompressOne(c, s.items[0]).value;
      var rest := Put(p, Step(p, st, k.entry).state, Compress(k.comp, Stream(s.items[1..], s.fault)).out);
      Put(p, st, Compress(c, s).out) == Drain(rest.state, 1 + rest.consumed, rest.fault)
  {
    CompressCons(c, s);
  }

  /** The interleaved run when the putter takes the head: the head's tool run, then the run on the tail. */
  lemma PumpCons(p: Putter, st: Sink, c: YuiCompressor, s: Stream<Entry>)
    requires c.workspace.Some? && s.items != []
    requires Step(p, st, CompressOne(c, s.items[0]).value.entry).fault.None?
    ensures var k := CompressOne(c, s.items[0]).value;
      var ran := if k.command.Some? then [k.command.value] else [];
      var rest := Pump(p, Step(p, st, k.entry).state, k.comp, Stream(s.items[1..], s.fault));
      Pump(p, st, c, s) == Pumped(rest.sink, rest.comp, ran + rest.commands, rest.fault)
  {
  }

  /** The world after a putter's run. */
  function Published(w: World, st: Sink): World {
    w.(fs := st.fs, uploads := st.uploads)
  }

  /** One `Removed` event per workspace `dispose` removed. */
  function Removals(paths: seq<string>): (r: seq<WorkspaceEvent>)
    ensures |r| == |paths|
    ensures forall i :: 0 <= i < |paths| ==> r[i] == Removed(paths[i])
  {
    if paths == [] then [] else [Removed(paths[0])] + Removals(paths[1..])
  }

  /**
    `export`: a bad target raises before anything happens; without the
    compressor the putter gets the walk itself; with it, the workspace is
    made, the entries are compressed on their way to the putter, and the
    workspace is removed in `finally`.
   */
  function Export(w: World, env: Env, specs: seq<string>, target: string, useCompressor: bool, kw: map<string, string>): (r: Run<World>)
    ensures MakePutter(target, kw).Err? ==> r == Run(w, Some(MakePutter(target, kw).error))
    ensures MakePutter(target, kw).Ok? && !useCompressor ==>
      var d := Put(MakePutter(target, kw).value, Fresh(w.fs, w.uploads), WalkResources(env.packages, env.resolve, specs));
      r == Run(Published(w, d.state), d.fault)
    ensures MakePutter(target, kw).Ok? && useCompressor ==>
      r.state.workspaces == w.workspaces + [Created(env.tmpdir), Removed(env.tmpdir)]
  {
    var files := WalkResources(env.packages, env.resolve, specs);
    match MakePutter(target, kw)
    case Err(f) => Run(w, Some(f))
    case Ok(p) =>
      var st := Fresh(w.fs, w.uploads);
      if !useCompressor then
        var d := Put(p, st, files);
        Run(Published(w, d.state), d.fault)
      else
        var pumped := Pump(p, st, NewCompressor(env.tmpdir), files);
        var removed := Removals(Dispose(pumped.comp).1);
        Run(World(pumped.sink.fs, pumped.sink.uploads, w.commands + pumped.commands, w.workspaces + [Created(env.tmpdir)] + removed), pumped.fault)
  }

  /** `export` never takes anything away from the filesystem, and a local target leaves the upload log alone. */
  lemma ExportOnlyAdds(w: World, env: Env, specs: seq<string>, target: string, useCompressor: bool, kw: map<string, string>)
    ensures Grows(w.fs, Export(w, env, specs, target, useCompressor, kw).state.fs)
    ensures MakePutter(target, kw).Ok? && MakePutter(target, kw).value.LocalPutter? ==>
      Export(w, env, specs, target, useCompressor, kw).state.uploads == w.uploads
  {
    if MakePutter(target, kw).Ok? && useCompressor {
      var p := MakePutter(target, kw).value;
      var files := WalkResources(env.packages, env.resolve, specs);
      if p.LocalPutter? {
        PumpLocalKeepsUploads(p, Fresh(w.fs, w.uploads), NewCompressor(env.tmpdir), files);
      }
    }
  }

  lemma {:induction false} PumpLocalKeepsUploads(p: Putter, st: Sink, c: YuiCompressor, s: Stream<Entry>)
    requires p.LocalPutter?
    ensures Pump(p, st, c, s).sink.uploads == st.uploads
    decreases |s.items|
  {
    if s.items != [] {
      match CompressOne(c, s.items[0])
      case Err(_) =>
      case Ok(k) =>
        var step := Step(p, st, k.entry);
        if step.fault.None? {
          PumpLocalKeepsUploads(p, step.state, k.comp, Stream(s.items[1..], s.fault));
        }
    }
  }

  /**
    With the compressor on, `export` publishes what putting the compressed
    walk publishes, and runs the tool for exactly the entries the putter pulled.
   */
  lemma ExportCompressed(w: World, env: Env, specs: seq<string>, target: string, kw: map<string, string>)
    requires MakePutter(target, kw).Ok?
    ensures var files := WalkResources(env.packages, env.resolve, specs);
      var staged := Put(MakePutter(target, kw).value, Fresh(w.fs, w.uploads), Compress(NewCompressor(env.tmpdir), files).out);
      var r := Export(w, env, specs, target, true, kw);
      && r.state.fs == staged.state.fs && r.state.uploads == staged.state.uploads && r.fault == staged.fault
      && r.state.commands == w.commands + Compress(NewCompressor(env.tmpdir), Stream(files.items[..staged.consumed], None)).commands
  {
    var files := WalkResources(env.packages, env.resolve, specs);
    PumpIsPutAfterCompress(MakePutter(target, kw).value, Fresh(w.fs, w.uploads), NewCompressor(env.tmpdir), files);
  }

  /**
    To S3 with the compressor on, the walk is uploaded in full: one upload
    per non-directory entry, keyed by its resource path and carrying the
    compressed file, and `export` ends with the walk's own exception, if any.
   */
  lemma ExportS3Compressed(w: World, env: Env, specs: seq<string>, target: string, kw: map<string, string>)
    requires MakePutter(target, kw).Ok? && MakePutter(target, kw).value.S3Putter?
    ensures var files := WalkResources(env.packages, env.resolve, specs);
      var r := Export(w, env, specs, target, true, kw);
      && r.state.uploads == w.uploads + S3Sink.UploadsOf(MakePutter(target, kw).value.targetPath,
                                                          S3Sink.NonDirs(Compress(NewCompressor(env.tmpdir), files).out.items))
      && r.state.fs == w.fs && r.fault == files.fault
  {
    var p := MakePutter(target, kw).value;
    var files := WalkResources(env.packages, env.resolve, specs);
    ExportCompressed(w, env, specs, target, kw);
    PutS3Log(p.bucket, p.targetPath, Fresh(w.fs, w.uploads), Compress(NewCompressor(env.tmpdir), files).out);
  }

  /**
    `export` as written: `_YUICompressor.compress` is declared without
    `self`, so `comp.compress(r_files)` raises TypeError as soon as it is
    called. The workspace has been made by then and `finally` removes it;
    the putter is never run.
   */
  function ExportAsWritten(w: World, env: Env, specs: seq<string>, target: string, useCompressor: bool, kw: map<string, string>): (r: Run<World>)
    ensures !useCompressor ==> r == Export(w, env, specs, target, useCompressor, kw)
  {
    match MakePutter(target, kw)
    case Err(f) => Run(w, Some(f))
    case Ok(p) =>
      if !useCompressor then Export(w, env, specs, target, useCompressor, kw)
      else Run(w.(workspaces := w.workspaces + [Created(env.tmpdir), Removed(env.tmpdir)]), Some(CompressArity))
  }

  /**
    As written, asking for compression to a valid target never publishes
    anything, while the corrected `export` uploads every file of the walk
    to an S3 target.
   */
  lemma ExportAsWrittenPublishesNothing(w: World, env: Env, specs: seq<string>, target: string, kw: map<string, string>)
    requires MakePutter(target, kw).Ok?
    ensures var r := ExportAsWritten(w, env, specs, target, true, kw);
      r.fault == Some(CompressArity) && r.state.fs == w.fs && r.state.uploads == w.uploads && r.state.commands == w.commands
    ensures MakePutter(target, kw).value.S3Putter? ==>
      var files := WalkResources(env.packages, env.resolve, specs);
      |Export(w, env, specs, target, true, kw).state.uploads| == |w.uploads| + |S3Sink.NonDirs(Compress(NewCompressor(env.tmpdir), files).out.items)|
  {
    if MakePutter(target, kw).value.S3Putter? {
      ExportS3Compressed(w, env, specs, target, kw);
    }
  }
}
