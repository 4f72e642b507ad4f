/**
  `_YUICompressor` of `van/static/cdn.py`, with the behaviour its tests
  describe: `.js` and `.css` resources are rewritten to numbered files in
  a temporary workspace by one `yui-compressor` run each; everything else
  passes through. The tool run is recorded as its argument list.
 */
module Compressor {
  import opened Base
  import opened Text
  import opened Paths
  import opened Pipeline

  /** The compressor's state: its workspace (`None` once disposed) and how many files it has compressed. */
  datatype YuiCompressor = YuiCompressor(workspace: Option<string>, counter: nat)

  /** `_YUICompressor()`, given the directory `tempfile.mkdtemp()` made. */
  function NewCompressor(tmpdir: string): YuiCompressor {
    YuiCompressor(Some(tmpdir), 0)
  }

  /** The `--type` of the tool run, chosen by the resource path alone; `None` means the entry passes through. */
  function ToolType(rpath: string): Option<string> {
    if EndsWith(rpath, ".js") then Some("js")
    else if EndsWith(rpath, ".css") then Some("css")
    else None
  }

  predicate Compressible(e: Entry) {
    ToolType(e.rpath).Some?
  }

  /** An argument list handed to `subprocess.check_call`. */
  type Command = seq<string>

  function ToolCommand(toolType: string, target: string, source: string): Command {
    ["yui-compressor", "--type", toolType, "-o", target, source]
  }

  /** `str(n) + '-' + os.path.basename(fs_path)`: the name of the `n`-th compressed file. */
  function OutputName(n: nat, fsPath: string): string {
    NatToString(n) + "-" + Basename(fsPath)
  }

  /** What compressing one entry yields: the new state, the entry handed on, and the tool run, if any. */
  datatype Rewrite = Rewrite(comp: YuiCompressor, entry: Entry, command: Option<Command>)

  /** One entry through the compressor. */
  function CompressOne(c: YuiCompressor, e: Entry): (r: Result<Rewrite, Fault>)
    ensures !Compressible(e) ==> r == Ok(Rewrite(c, e, None))
    ensures Compressible(e) && c.workspace.None? ==> r == Err(WorkspaceDisposed)
    ensures c.workspace.Some? ==> r.Ok?
    ensures r.Ok? ==> r.value.comp.workspace == c.workspace
    ensures r.Ok? ==> r.value.entry == e.(fsPath := r.value.entry.fsPath)
    ensures r.Ok? && Compressible(e) ==>
      && r.value.comp.counter == c.counter + 1
      && r.value.entry.fsPath == PathJoin(c.workspace.value, OutputName(c.counter + 1, e.fsPath))
      && r.value.command == Some(ToolCommand(ToolType(e.rpath).value, r.value.entry.fsPath, e.fsPath))
  {
    match ToolType(e.rpath)
    case None => Ok(Rewrite(c, e, None))
    case Some(toolType) =>
      match c.workspace
      case None => Err(WorkspaceDisposed)
      case Some(tmpdir) =>
        var n := c.counter + 1;
        var target := PathJoin(tmpdir, OutputName(n, e.fsPath));
        Ok(Rewrite(YuiCompressor(c.workspace, n), e.(fsPath := target), Some(ToolCommand(toolType, target, e.fsPath))))
  }

  /** A run of the compressor over a stream: its final state, the stream it hands on, and the tool runs in order. */
  datatype Compression = Compression(comp: YuiCompressor, out: Stream<Entry>, commands: seq<Command>)

  /** `compress(files)` run to exhaustion. */
  function Compress(c: YuiCompressor, s: Stream<Entry>): (r: Compression)
    ensures |r.out.items| <= |s.items|
    ensures r.out.fault.None? ==> |r.out.items| == |s.items| && s.fault.None?
    ensures c.workspace.Some? ==> |r.out.items| == |s.items| && r.out.fault == s.fault
    ensures r.comp.workspace == c.workspace
    ensures r.comp.counter == c.counter + |r.commands|
    ensures forall i :: 0 <= i < |r.out.items| ==> r.out.items[i] == s.items[i].(fsPath := r.out.items[i].fsPath)
    decreases |s.items|
  {
    if s.items == [] then Compression(c, s, [])
    else
      match CompressOne(c, s.items[0])
      case Err(f) => Compression(c, Stream([], Some(f)), [])
      case Ok(k) =>
        var rest := Compress(k.comp, Stream(s.items[1..], s.fault));
        var ran := if k.command.Some? then [k.command.value] else [];
        Compression(rest.comp, Stream([k.entry] + rest.out.items, rest.out.fault), ran + rest.commands)
  }

  /** How many entries of `es` the compressor rewrites. */
  function CountCompressible(es: seq<Entry>): nat {
    if es == [] then 0 else (if Compressible(es[0]) then 1 else 0) + CountCompressible(es[1..])
  }

  lemma {:induction false} CountCompressibleAppend(a: seq<Entry>, b: seq<Entry>)
    ensures CountCompressible(a + b) == CountCompressible(a) + CountCompressible(b)
  {
    if a != [] {
      assert (a + b)[1..] == a[1..] + b;
      CountCompressibleAppend(a[1..], b);
    } else {
      assert a + b == b;
    }
  }

  /**
    The reference for entry `i` of the compressed stream: unchanged when
    it is not compressible, otherwise moved to `<workspace>/<n>-<basename>`,
    `n` being its rank among the compressible entries, counted on from `counter`.
   */
  function Expected(tmpdir: string, counter: nat, es: seq<Entry>, i: nat): Entry
    requires i < |es|
  {
    Relocated(tmpdir, counter + CountCompressible(es[..i + 1]), es[i])
  }

  /** Where `e` goes as the `n`-th file compressed into `tmpdir`: a compressible entry moves to `<tmpdir>/<n>-<basename>`, any other stays. */
  function Relocated(tmpdir: string, n: nat, e: Entry): Entry {
    if Compressible(e) then e.(fsPath := PathJoin(tmpdir, OutputName(n, e.fsPath))) else e
  }

  lemma RankShift(es: seq<Entry>, i: nat)
    requires 0 < i < |es|
    ensures CountCompressible(es[..i + 1]) == (if Compressible(es[0]) then 1 else 0) + CountCompressible(es[1..][..i])
  {
    assert es[..i + 1][1..] == es[1..][..i];
  }

  lemma RankHead(es: seq<Entry>)
    requires es != []
    ensures CountCompressible(es[..1]) == (if Compressible(es[0]) then 1 else 0)
  {
    assert es[..1][1..] == [];
  }

  /** Past the head, the reference for the tail counts on from where the head left the counter. */
  lemma ExpectedShift(tmpdir: string, counter: nat, es: seq<Entry>, i: nat)
    requires 0 < i < |es|
    ensures Expected(tmpdir, counter + (if Compressible(es[0]) then 1 else 0), es[1..], i - 1) == Expected(tmpdir, counter, es, i)
  {
    RankShift(es, i);
    assert es[1..][i - 1] == es[i];
  }

  /** A live compressor places one entry as the next file of its workspace. */
  lemma OneRewrite(tmpdir: string, counter: nat, e: Entry)
    ensures CompressOne(YuiCompressor(Some(tmpdir), counter), e).value.entry == Relocated(tmpdir, counter + 1, e)
  {
    if Compressible(e) {
      CompressibleRelocated(tmpdir, counter, e);
    }
  }

  /** A compressible entry moves to the workspace file named by the next counter value. */
  lemma CompressibleRelocated(tmpdir: string, counter: nat, e: Entry)
    requires Compressible(e)
    ensures CompressOne(YuiCompressor(Some(tmpdir), counter), e).value.entry == e.(fsPath := PathJoin(tmpdir, OutputName(counter + 1, e.fsPath)))
  {
    var r := CompressOne(YuiCompressor(Some(tmpdir), counter), e).value;
    assert r.entry == e.(fsPath := r.entry.fsPath);
  }

  /** The reference for the head of a batch places it as the next file. */
  lemma ExpectedAtHead(tmpdir: string, counter: nat, es: seq<Entry>)
    requires es != []
    ensures Expected(tmpdir, counter, es, 0) == Relocated(tmpdir, counter + 1, es[0])
  {
    RankHead(es);
  }

  /** The head of a compressed stream and its tail. */
  lemma CompressCons(c: YuiCompressor, s: Stream<Entry>)
    requires s.items != [] && c.workspace.Some?
    ensures var k := CompressOne(c, s.items[0]).value;
      var rest := Compress(k.comp, Stream(s.items[1..], s.fault));
      var whole := Compress(c, s);
      && whole.out.items != [] && whole.out.items[0] == k.entry
      && Stream(whole.out.items[1..], whole.out.fault) == rest.out
  {
  }

  /** The reference rewrite of a whole batch, entry by entry, the counter moving on past each compressible one. */
  function Rewritten(tmpdir: string, counter: nat, es: seq<Entry>): (r: seq<Entry>)
    ensures |r| == |es|
    decreases |es|
  {
    if es == [] then []
    else
      var next := counter + (if Compressible(es[0]) then 1 else 0);
      [Relocated(tmpdir, counter + 1, es[0])] + Rewritten(tmpdir, next, es[1..])
  }

  /** The output of a live compressor is the head's rewrite followed by the tail's output. */
  lemma CompressOutCons(c: YuiCompressor, s: Stream<Entry>)
    requires s.items != [] && c.workspace.Some?
    ensures var k := CompressOne(c, s.items[0]).value;
      Compress(c, s).out.items == [k.entry] + Compress(k.comp, Stream(s.items[1..], s.fault)).out.items
  {
  }

  /** With a live workspace, the compressor hands on exactly the reference rewrite of its input. */
  lemma {:induction false} CompressIsRewritten(tmpdir: string, counter: nat, s: Stream<Entry>)
    ensures Compress(YuiCompressor(Some(tmpdir), counter), s).out.items == Rewritten(tmpdir, counter, s.items)
    decreases |s.items|
  {
    if s.items != [] {
      var c := YuiCompressor(Some(tmpdir), counter);
      var next := counter + (if Compressible(s.items[0]) then 1 else 0);
      var tail := Stream(s.items[1..], s.fault);
      var k := CompressOne(c, s.items[0]).value;
      assert k.comp == YuiCompressor(Some(tmpdir), next);
      assert Compress(c, s).out.items == [k.entry] + Compress(k.comp, tail).out.items by {
        CompressOutCons(c, s);
      }
      assert Compress(k.comp, tail).out.items == Rewritten(tmpdir, next, s.items[1..]) by {
        CompressIsRewritten(tmpdir, next, tail);
      }
      assert k.entry == Rewritten(tmpdir, counter, s.items)[0] by {
        OneRewrite(tmpdir, counter, s.items[0]);
      }
      RewrittenCons(tmpdir, counter, s.items);
    }
  }

  /** Entry `i` of the batch rewrite is the reference rewrite of entry `i`. */
  lemma {:induction false} RewrittenAt(tmpdir: string, counter: nat, es: seq<Entry>)
    ensures forall i :: 0 <= i < |es| ==> Rewritten(tmpdir, counter, es)[i] == Expected(tmpdir, counter, es, i)
    decreases |es|
  {
    if es != [] {
      var next := counter + (if Compressible(es[0]) then 1 else 0);
      var whole := Rewritten(tmpdir, counter, es);
      var rest := Rewritten(tmpdir, next, es[1..]);
      RewrittenAt(tmpdir, next, es[1..]);
      RewrittenCons(tmpdir, counter, es);
      forall i | 0 < i < |es|
        ensures whole[i] == Expected(tmpdir, counter, es, i)
      {
        assert whole[i] == rest[i - 1];
        ExpectedShift(tmpdir, counter, es, i);
      }
    }
  }

  /** The batch rewrite starts with the head's reference rewrite and goes on with the tail's, counted on from the head. */
  lemma RewrittenCons(tmpdir: string, counter: nat, es: seq<Entry>)
    requires es != []
    ensures var next := counter + (if Compressible(es[0]) then 1 else 0);
      && Rewritten(tmpdir, counter, es)[0] == Expected(tmpdir, counter, es, 0)
      && Rewritten(tmpdir, counter, es)[1..] == Rewritten(tmpdir, next, es[1..])
  {
    ExpectedAtHead(tmpdir, counter, es);
  }

  /** With a live workspace, every entry of the output is the reference rewrite of the input entry at that place. */
  lemma CompressNaming(tmpdir: string, counter: nat, s: Stream<Entry>)
    ensures var r := Compress(YuiCompressor(Some(tmpdir), counter), s);
      forall i :: 0 <= i < |s.items| ==> r.out.items[i] == Expected(tmpdir, counter, s.items, i)
  {
    CompressIsRewritten(tmpdir, counter, s);
    RewrittenAt(tmpdir, counter, s.items);
  }

  /** Entries the compressor leaves alone come out untouched, and a stream of such entries runs no tool. */
  lemma {:induction false} CompressPassThrough(c: YuiCompressor, s: Stream<Entry>)
    requires forall i :: 0 <= i < |s.items| ==> !Compressible(s.items[i])
    ensures Compress(c, s) == Compression(c, s, [])
    decreases |s.items|
  {
    if s.items != [] {
      var tail := Stream(s.items[1..], s.fault);
      CompressPassThrough(c, tail);
      assert [s.items[0]] + tail.items == s.items;
    }
  }

  /** Each compressible entry runs the tool once, and nothing else does. */
  lemma {:induction false} CompressCommandCount(c: YuiCompressor, s: Stream<Entry>)
    requires c.workspace.Some?
    ensures |Compress(c, s).commands| == CountCompressible(s.items)
    decreases |s.items|
  {
    if s.items != [] {
      var k := CompressOne(c, s.items[0]).value;
      CompressCommandCount(k.comp, Stream(s.items[1..], s.fault));
    }
  }

  /** Different counter values give different output names. */
  lemma OutputNameInjective(m: nat, a: string, n: nat, b: string)
    requires OutputName(m, a) == OutputName(n, b)
    ensures m == n
  {
    assert '-' !in NatToString(m) && '-' !in NatToString(n);
    SplitOnceJoin(NatToString(m), Basename(a), '-');
    SplitOnceJoin(NatToString(n), Basename(b), '-');
    NatToStringInjective(m, n);
  }

  /** Joining one directory with two relative names gives the same path only for the same name. */
  lemma PathJoinInjective(dir: string, x: string, y: string)
    requires !StartsWith(x, "/") && !StartsWith(y, "/")
    requires PathJoin(dir, x) == PathJoin(dir, y)
    ensures x == y
  {
    var p := PathJoin(dir, x);
    var pre := if dir == "" || EndsWith(dir, "/") then dir else dir + "/";
    assert p == pre + x && p == pre + y;
    assert x == p[|pre|..] && y == p[|pre|..];
  }

  lemma NamePrefixIsNotSlash(n: nat, fsPath: string)
    ensures !StartsWith(OutputName(n, fsPath), "/")
  {
    var d := NatToString(n);
    var b := Basename(fsPath);
    assert OutputName(n, fsPath) == d + "-" + b;
    assert (d + "-" + b)[0] == d[0];
    assert IsDigit(d[0]);
  }

  /** A later compressible entry has a higher rank. */
  lemma RankIncreases(es: seq<Entry>, i: nat, j: nat)
    requires i < j < |es| && Compressible(es[j])
    ensures CountCompressible(es[..j + 1]) > CountCompressible(es[..i + 1])
  {
    var mid := es[i + 1..j];
    assert es[..j + 1] == es[..i + 1] + (mid + [es[j]]);
    CountCompressibleAppend(es[..i + 1], mid + [es[j]]);
    CountCompressibleAppend(mid, [es[j]]);
    assert CountCompressible([es[j]]) == 1 + CountCompressible([es[j]][1..]);
  }

  /** Different counter values put compressed files at different workspace paths. */
  lemma WorkspacePathsDiffer(tmpdir: string, m: nat, a: string, n: nat, b: string)
    requires m != n
    ensures PathJoin(tmpdir, OutputName(m, a)) != PathJoin(tmpdir, OutputName(n, b))
  {
    NamePrefixIsNotSlash(m, a);
    NamePrefixIsNotSlash(n, b);
    if PathJoin(tmpdir, OutputName(m, a)) == PathJoin(tmpdir, OutputName(n, b)) {
      PathJoinInjective(tmpdir, OutputName(m, a), OutputName(n, b));
      OutputNameInjective(m, a, n, b);
    }
  }

  lemma ExpectedPath(tmpdir: string, counter: nat, es: seq<Entry>, i: nat)
    requires i < |es| && Compressible(es[i])
    ensures Expected(tmpdir, counter, es, i).fsPath == PathJoin(tmpdir, OutputName(counter + CountCompressible(es[..i + 1]), es[i].fsPath))
  {
    var n := counter + CountCompressible(es[..i + 1]);
    assert Expected(tmpdir, counter, es, i) == Relocated(tmpdir, n, es[i]);
    RelocatedPath(tmpdir, n, es[i]);
  }

  lemma RelocatedPath(tmpdir: string, n: nat, e: Entry)
    requires Compressible(e)
    ensures Relocated(tmpdir, n, e).fsPath == PathJoin(tmpdir, OutputName(n, e.fsPath))
  {
  }

  /** Two compressible entries, the earlier first: their reference paths carry increasing counter values. */
  lemma RankedPaths(tmpdir: string, counter: nat, es: seq<Entry>, i: nat, j: nat) returns (m: nat, n: nat)
    requires i < j < |es| && Compressible(es[i]) && Compressible(es[j])
    ensures m < n
    ensures Expected(tmpdir, counter, es, i).fsPath == PathJoin(tmpdir, OutputName(m, es[i].fsPath))
    ensures Expected(tmpdir, counter, es, j).fsPath == PathJoin(tmpdir, OutputName(n, es[j].fsPath))
  {
    m := counter + CountCompressible(es[..i + 1]);
    n := counter + CountCompressible(es[..j + 1]);
    RankIncreases(es, i, j);
    ExpectedPath(tmpdir, counter, es, i);
    ExpectedPath(tmpdir, counter, es, j);
  }

  /** The reference never sends two compressible entries to one path. */
  lemma ExpectedDistinct(tmpdir: string, counter: nat, es: seq<Entry>, i: nat, j: nat)
    requires i < j < |es|
    requires Compressible(es[i]) && Compressible(es[j])
    ensures Expected(tmpdir, counter, es, i).fsPath != Expected(tmpdir, counter, es, j).fsPath
  {
    var m, n := RankedPaths(tmpdir, counter, es, i, j);
    WorkspacePathsDiffer(tmpdir, m, es[i].fsPath, n, es[j].fsPath);
  }

  /** Two different compressible entries of one run never land on the same workspace file. */
  lemma CompressedDistinct(tmpdir: string, counter: nat, s: Stream<Entry>, i: nat, j: nat)
    requires i < j < |s.items|
    requires Compressible(s.items[i]) && Compressible(s.items[j])
    ensures var out := Compress(YuiCompressor(Some(tmpdir), counter), s).out.items;
      out[i].fsPath != out[j].fsPath
  {
    CompressNaming(tmpdir, counter, s);
    ExpectedDistinct(tmpdir, counter, s.items, i, j);
  }

  /**
    `dispose()`: remove the workspace if there still is one. The result is
    the new state and the workspaces `shutil.rmtree` removed.
   */
  function Dispose(c: YuiCompressor): (r: (YuiCompressor, seq<string>))
    ensures r.0.workspace.None? && r.0.counter == c.counter
    ensures c.workspace.None? ==> r == (c, [])
    ensures c.workspace.Some? ==> r.1 == [c.workspace.value]
  {
    match c.workspace
    case None => (c, [])
    case Some(tmpdir) => (c.(workspace := None), [tmpdir])
  }

  /** A second `dispose` removes nothing and changes nothing. */
  lemma DisposeIdempotent(c: YuiCompressor)
    ensures Dispose(Dispose(c).0) == (Dispose(c).0, [])
  {
  }

  /** A disposed compressor refuses the first compressible entry it sees. */
  lemma CompressAfterDispose(c: YuiCompressor, s: Stream<Entry>)
    requires s.items != [] && Compressible(s.items[0])
    ensures Compress(Dispose(c).0, s).out == Stream([], Some(WorkspaceDisposed))
  {
  }
}
