# van.static: resource export and YUI module scraping, in Dafny

This project models the core of `van.static`. It has two parts.

The first is the export pipeline of `van/static/cdn.py`:

- `_walk_resources` walks package resource directories (`"pkg:path"` specs) into a lazy stream of `(rpath, fs_path, pname, dist, type)` entries.
- `export` picks a putter from the target URL's scheme (`file` or `s3`).
- The optional `_YUICompressor` rewrites `.js` and `.css` entries to minified copies in a temporary workspace.
- The putter publishes the entries:
  - `_PutLocal` makes project/version directories, hard-links the files and makes the directories under `target_dir/project/version/rpath`.
  - `_PutS3` uploads every non-directory entry to `target_path/project/version/rpath` with fixed headers and policy.

The second is `van/static/yui.py`. `find_modules` lists the `.js` files of a resource directory. It reads each module's dependencies from the `requires: [...]` list on the file's last non-blank line. The resulting tables are memoised per resource.

Python generators are modelled as a `Stream` value. A stream holds the entries produced before the generator stops, plus the exception that stopped it, if any. A consumer reports how many entries it pulled. `export` chains the stages lazily, so the putter pulls one entry at a time through the compressor. `Export.Pump` is that interleaving, and `Export.PumpIsPutAfterCompress` proves it equals running the stages one after the other.

The outside world becomes data:

- The package resource index is a `Walker.Tree`.
- `resource_filename` is an uninterpreted function.
- The local filesystem is a set of directories plus a map of hard links. A path is looked up as the kernel resolves it, up to trailing slashes: `d/` names `d`, and a path of slashes only is the root. `os.mkdir`, `os.link` and `os.makedirs` follow CPython 2.7 on top of that lookup.
- S3 is an append-only log of `S3Sink.Upload` records.
- Tool runs are recorded as argument lists.
- The YUI package listings and file contents are maps.
- `_MODULE_CACHE` is passed in and returned.

This `cdn.py` has no stamps, no gzip variants on S3, no copy fallback when hard-linking fails, and no local sink that tolerates an earlier run's output. The model follows the code as it stands:

- `_PutLocal.put` fails with `EEXIST` when a project directory already exists. `Putters.PutLocalTwiceFails` proves that putting the same entries a second time fails. This holds even though `test_put_twice` expects the second put to succeed.
- The compressor chooses entries by the `rpath` suffix alone, whatever their type, following `cdn.py:168-172`.

Modules: `Base` (Option and Result), `Text` (string helpers from Python's `str`), `Paths` (`os.path`), `Pipeline` (entries, faults, streams), `Walker`, `LocalFs`, `LocalSink`, `S3Sink`, `Putters`, `Compressor`, `Export`, `YuiModules`.

## Model

| member | source | states |
|---|---|---|
| Walker.Walk | van/static/cdn.py:77 | The walk of a directory begins with `(root, 'dir')` |
| Walker.WalkAt | van/static/cdn.py:77-86 | The node at index path `ix` is listed, with its spelled path and type, at its pre-order number `Pos(t, ix)`: the folder first, then member `k`'s subtree after the subtrees of members `0..k-1` |
| Walker.WalkOrder | van/static/cdn.py:77-86 | Of two nodes, the one earlier in pre-order (an ancestor, or reached through an earlier member in listing order) is listed at an earlier place: each subdirectory is fully expanded before its next sibling |
| Walker.PosBefore | van/static/cdn.py:79-86 | Pre-order numbers are strictly increasing along the order `Before` of index paths |
| Walker.WalkSize | van/static/cdn.py:77-86 | The walk has exactly one entry per node of the resource tree |
| Walker.WalkExact | van/static/cdn.py:77-86 | An entry is in the walk if and only if it is `root/m1/.../mk` for some node reached by the member names `m1..mk`, with that node's kind |
| Walker.WalkParentsFirst | van/static/cdn.py:77-83 | Pre-order: every entry after the first comes after the entry of the directory that contains it |
| Walker.WalkDirectory | van/static/cdn.py:77-78 | `(path, 'dir')` is yielded before the listing is read; the walk finishes without error iff the path names a directory, and otherwise stops with that single entry |
| Walker.LookupDot | van/static/cdn.py:78 | A resource path `.` names the package folder itself, as the joined filesystem path does |
| Walker.LookupUpAgain | van/static/cdn.py:78 | `name/../rest` under a sub-folder `name` names what `rest` names |
| Walker.WalkDirectoryDot | van/static/cdn.py:77-86 | The spec `pkg:.` walks the whole package folder |
| Walker.ToEntries | van/static/cdn.py:94-96 | Each walked path becomes one 5-tuple carrying the package, its distribution and `resource_filename(pname, rpath)` |
| Walker.WalkSpec | van/static/cdn.py:89-96 | A spec without `:` raises before yielding anything; every entry yielded is well resolved against its package |
| Walker.WalkSpecSplitsAtFirstColon | van/static/cdn.py:90-93 | The package is the text before the first `:` and the path is everything after it; an unknown package raises before any entry |
| Walker.WalkResources | van/static/cdn.py:88-96 | Every entry is well resolved; a run that finishes without error had a `:` in every spec |
| Walker.WalkResourcesAppend | van/static/cdn.py:88-96 | The walk of `a + b` is the walk of `a` followed by the walk of `b`: specs are concatenated, nothing merged |
| Walker.DuplicateSpecsRepeat | van/static/cdn.py:88-96 | A spec listed twice yields its entries twice (duplicates are kept) |
| LocalFs.Mkdir | van/static/cdn.py:111-112 | `os.mkdir` succeeds iff the path, trailing slashes ignored, is new and its parent is a directory; an existing path fails with EEXIST and changes nothing; success adds exactly that directory |
| LocalFs.MkdirTrailingSlash | van/static/cdn.py:111-117 | `os.mkdir` of `d/` succeeds, fails and changes the filesystem exactly as `os.mkdir` of `d` does; an existing `d` gives EEXIST |
| LocalFs.Link | van/static/cdn.py:119-121 | `os.link` succeeds iff the target is new, has no trailing slash and its parent is a directory; success records exactly that link and adds no directory |
| LocalFs.Makedirs | van/static/cdn.py:117 | `os.makedirs` only adds directories that are prefixes of the path; an existing leaf, with or without a trailing slash, fails; on success the path is a directory |
| LocalSink.NewPutLocal | van/static/cdn.py:100-102 | Construction succeeds iff no keyword arguments are passed and the target starts with `file:///`; the target directory is the URL with `file://` cut off |
| LocalSink.NewPutLocalOfPath | van/static/cdn.py:100-102 | `file://` followed by an absolute path yields that path |
| LocalSink.TargetLayout | van/static/cdn.py:108-109 | For plain components, an entry lands at `target_dir/project/version/rpath` |
| LocalSink.Prepare | van/static/cdn.py:110-113 | A package's project and version directories are made only at its first entry; an existing project directory fails with EEXIST; the package is marked seen only on success |
| LocalSink.Place | van/static/cdn.py:114-117 | A file entry is hard-linked from its filesystem path to its target; a directory entry goes through `makedirs` and links nothing |
| LocalSink.Step | van/static/cdn.py:107-117 | One entry of `_PutLocal.put`: only adds to the filesystem, marks only this package as seen, and links files to their targets |
| LocalSink.PackageRootEntryFails | van/static/cdn.py:108-117 | The directory entry of a package root (spec `pkg:`, empty `rpath`) targets `version/`, which the first-entry `mkdir` has just made, so `os.makedirs` raises EEXIST |
| S3Sink.SplitScheme | van/static/cdn.py:129 | `urlsplit`'s scheme is the lower-cased text before the first `:`, or empty with the whole URL left as the rest |
| S3Sink.SplitSchemePortRule | van/static/cdn.py:129 | For a name of scheme characters other than `http`, `name:rest` takes the scheme iff `rest` is empty or not all digits, and then the scheme is the lower-cased name and the rest follows the colon |
| S3Sink.UrlSplit | van/static/cdn.py:129 | The netloc has no `/`, `?` or `#` and balanced brackets; the path has no `?` or `#`; the only failure is an invalid netloc |
| S3Sink.NewPutS3 | van/static/cdn.py:125-134 | Unknown keywords fail with the unexpected names; otherwise it succeeds iff `urlparse` succeeds with scheme `s3`, a `urlparse` error is passed on, and on success the bucket is the netloc and the key prefix is the path |
| S3Sink.NewPutS3OfParts | van/static/cdn.py:129-134 | `s3://bucket/path` yields that bucket and `/path` |
| S3Sink.NewPutS3Bare | van/static/cdn.py:129-134 | The bare target `s3:` passes the scheme assertion and yields an empty bucket and an empty key prefix |
| S3Sink.UploadOf | van/static/cdn.py:141-149 | The key is `target_path/project/version/rpath` and the file is the entry's filesystem path; the upload has cache control for 32140800 seconds, is public-read and uses reduced redundancy |
| S3Sink.Step | van/static/cdn.py:137-149 | A `dir` entry is skipped; any other entry appends exactly its upload |
| S3Sink.NonDirs | van/static/cdn.py:137-139 | Keeps only non-directory entries, and every one of them |
| S3Sink.NonDirsOne | van/static/cdn.py:138-139 | One entry is kept exactly when it is not a directory |
| S3Sink.NonDirsAppend | van/static/cdn.py:137-139 | Filtering distributes over concatenation, so the kept entries keep their order and multiplicity |
| S3Sink.KeyInjective | van/static/cdn.py:141 | Within one distribution, two entries share a key iff they share a resource path |
| Paths.PathJoin | van/static/cdn.py:109 | `os.path.join`: the result ends with the second part, begins with the first unless the second is absolute, and is the second when it is absolute |
| Paths.PathSplitJoin | van/static/cdn.py:117 | `os.path.split` undoes a join of a directory and a plain name |
| Putters.SchemeOf | van/static/cdn.py:58 | `target.split(':')[0]`: a `:`-free prefix of the target that is the whole target or is followed by `:` |
| Putters.MakePutter | van/static/cdn.py:58-62 | Scheme `file` yields a local putter, `s3` an S3 putter, anything else fails with that scheme; a local putter rejects every keyword argument |
| Putters.MakePutterFile | van/static/cdn.py:58-62 | `file://` plus an absolute path yields the local putter of that path |
| Putters.MakePutterS3 | van/static/cdn.py:58-62 | `s3://bucket/path` with AWS keywords only yields the S3 putter of that bucket and path |
| Putters.Step | van/static/cdn.py:107-149 | One entry through either putter: S3 appends to the log and never fails, local keeps the log and adds to the filesystem |
| Putters.Put | van/static/cdn.py:105-149 | A put that ends without error pulled every entry from a stream that ended without error; only the local putter stops early; the filesystem only grows |
| Putters.PutS3Log | van/static/cdn.py:136-149 | The S3 putter pulls the whole stream and appends one upload per non-directory entry, in order, ending with the stream's own exception |
| Putters.PutLocalPlaces | van/static/cdn.py:105-121 | A successful local put links every file entry from its filesystem path to its target, adds exactly those link targets, and leaves every project and version directory in place |
| Putters.PutLocalTwiceFails | van/static/cdn.py:106-113 | Putting the same entries a second time fails at the first entry, with EEXIST on its project directory |
| Putters.SameLayout | van/static/cdn.py:141 | For an absolute target directory and plain components, the local target path equals the S3 key |
| Compressor.CompressOne | van/static/cdn.py:166-179 | A `.js` or `.css` path (in that order of checks) bumps the counter and is rewritten to `workspace/<n>-<basename>` with one tool run `yui-compressor --type T -o target source`; anything else passes untouched; only the filesystem path changes; a disposed workspace fails |
| Compressor.Compress | van/static/cdn.py:166-179 | With a live workspace, one output per input, in order, with the input's exception; the counter advances once per tool run |
| Compressor.CompressNaming | van/static/cdn.py:174-179 | The i-th output is the input with, for compressible entries, the path `workspace/<c+k>-<basename>`, where k counts the compressible entries up to i |
| Compressor.CompressIsRewritten | van/static/cdn.py:166-179 | With a live workspace, the compressor's output equals the reference `Rewritten`: each compressible entry, in order, takes the next counter value |
| Compressor.OneRewrite | van/static/cdn.py:168-179 | A live compressor sends a compressible entry to `workspace/<counter+1>-<basename>` and leaves any other entry as it is |
| Compressor.ExpectedDistinct | van/static/cdn.py:174-175 | In the reference, two different compressible entries never get the same workspace path |
| Compressor.CompressPassThrough | van/static/cdn.py:168-173 | A stream with nothing to compress comes out unchanged and runs no tool |
| Compressor.CompressCommandCount | van/static/cdn.py:174-178 | The tool runs once per compressible entry |
| Compressor.CompressedDistinct | van/static/cdn.py:174-175 | Two compressed entries never share an output file |
| Compressor.Dispose | van/static/cdn.py:157-161 | Dispose removes the live workspace once and forgets it; a disposed compressor removes nothing |
| Compressor.DisposeIdempotent | van/static/cdn.py:157-161 | Disposing twice removes nothing the second time |
| Compressor.CompressAfterDispose | van/static/cdn.py:157-161 | After dispose, compressing a compressible entry fails before yielding anything |
| Export.Pump | van/static/cdn.py:63-67 | The interleaved compressor and putter run only adds to the filesystem and keeps the workspace |
| Export.PumpIsPutAfterCompress | van/static/cdn.py:64-67 | The lazy chain leaves the same sink and exception as putting the fully compressed stream, and runs the tool exactly for the entries the putter pulled |
| Export.Export | van/static/cdn.py:54-70 | A bad target fails before anything happens; without compression the putter gets the raw walk; with compression the workspace is created and then removed exactly once |
| Export.ExportOnlyAdds | van/static/cdn.py:54-70 | `export` never removes anything from the filesystem; a local target leaves the upload log alone |
| Export.ExportCompressed | van/static/cdn.py:64-70 | With compression, `export` publishes what putting the compressed walk publishes, and records the tool runs of the entries pulled |
| Export.ExportS3Compressed | van/static/cdn.py:64-67 | To S3 with compression, every non-directory entry of the compressed walk is uploaded and the walk's exception is the result |
| Export.ExportAsWritten | van/static/cdn.py:63-70 | As written: without compression, the same as the corrected `export` |
| Export.ExportAsWrittenPublishesNothing | van/static/cdn.py:63-70 | As written, compression to a valid target fails with TypeError and publishes nothing; the corrected version uploads every non-directory entry to S3 |
| YuiModules.Clean | van/static/yui.py:17 | Removes every space and quote and keeps every other character |
| YuiModules.ExtractRequires | van/static/yui.py:7-17 | No `requires: [` gives `None`; the only failure is a missing `]`; every name is free of commas, spaces and quotes |
| YuiModules.MarkerFirstAfter | van/static/yui.py:10 | `split('requires: [', 1)` of a line whose first marker follows `pre` gives `pre` and the text after that marker |
| YuiModules.BracketFreeNoMarker | van/static/yui.py:10 | A text without `[` holds no start of the marker |
| YuiModules.ExtractRequiresOf | van/static/yui.py:10-17 | For a line `pre + "requires: [" + inner + "]" + post` whose first marker is the one shown: a one-character `inner` gives `None`; otherwise the cleaned `inner` split on commas, with one more item than `inner` has commas |
| YuiModules.ExtractRequiresUnclosed | van/static/yui.py:14 | A first marker with no `]` after it raises |
| YuiModules.ExtractRequiresEmptyList | van/static/yui.py:15-17 | `requires: []` gives one empty name |
| YuiModules.ExtractRequiresJoin | van/static/yui.py:10-17 | A list written as `a,b,...` of plain names after the line's first marker reads back as those names |
| YuiModules.ExtractRequiresQuoted | van/static/tests/test_yui.py:5-9 | A list written as `'a', 'b', ...` (the form in the test) after the line's first marker reads back as those names |
| YuiModules.SplitLines | van/static/yui.py:36 | `splitlines()`: no line holds a line break; an empty text has no lines |
| YuiModules.SplitLinesJoin | van/static/yui.py:36 | Lines joined by `\n`, the last one not empty, split back into the same lines |
| YuiModules.LastNonBlank | van/static/yui.py:37-40 | The reversed scan stops at the last non-blank line, with every later line blank; `None` iff all lines are blank |
| YuiModules.ModuleName | van/static/yui.py:29 | The module name is the file name minus `.js` and is not empty |
| YuiModules.ModuleNames | van/static/yui.py:26-29 | A name is a module iff some listed file is not hidden, ends in `.js` and is that name plus `.js` |
| YuiModules.FileRequires | van/static/yui.py:38-48 | The requires of a file's last non-blank line. `None` raises with `fail_onerror` and otherwise warns with that line. A file with no non-blank line keeps the previous file's value, or fails when there is none |
| YuiModules.ScanStep | van/static/yui.py:27-49 | A non-module file changes nothing; a module file is recorded under its name with path equal to its file name and the requires of its last non-blank line |
| YuiModules.ScanFiles | van/static/yui.py:26-49 | The table's keys are exactly the module names of the listing; names are well formed; with `fail_onerror` no module lacks its requires and nothing is warned |
| YuiModules.ScanFilesRecords | van/static/yui.py:26-49 | With distinct listed names, each module file's entry has its file name as path and the requires of its last non-blank line |
| YuiModules.ScanResource | van/static/yui.py:25-49 | A resource without `:` fails; a successful table is well formed |
| YuiModules.FindModules | van/static/yui.py:19-51 | Without `reload` a cached table is returned unchanged; a computed table is the scan's and is stored under the resource; success always leaves the returned table in the cache |
| YuiModules.FindModulesComputed | van/static/yui.py:24-51 | A computed table is well formed and cached; with `fail_onerror` it has every requires and no warnings; without it the missing-requires error never occurs |
| YuiModules.FindModulesTwice | van/static/yui.py:20-23 | A second call without `reload` returns the same table from the cache, warns nothing and leaves the cache as it was |
| YuiModules.FindModulesReload | van/static/yui.py:20-25 | With `reload`, the table and warnings do not depend on the cache |
| YuiModules.FindModulesTable | van/static/yui.py:24-49 | For `pname:path` with distinct listed names: a module exists exactly for each listed non-hidden `.js` file, under its name without `.js`, with the requires of its file's last non-blank line |

## Left out

- Logging, `export_cmd` (option parsing) and `find_group` (it needs a web request) are not modelled.
- `_YUICompressor.__del__` is not modelled: garbage-collection timing has no counterpart here. Only the explicit `dispose` in `export`'s `finally` is modelled.
- The boto connection, `get_bucket` and the credentials are not modelled. A bucket is its name, and an upload always succeeds.
- `subprocess.check_call` is not modelled beyond its argument list: the tool always succeeds, so a failing minifier is not modelled.
- `tempfile.mkdtemp` is a parameter (`Env.tmpdir`), and `resource_filename` is an uninterpreted function.
- File contents are strings rather than bytes. Copying bytes is not modelled: a hard link is a map entry.
- `rpath.replace('/', os.sep)` is the identity: only POSIX separators are modelled.
- The `warnings` module's filtering is not modelled: each warning is recorded once per occurrence.
- `resource_listdir` and `resource_stream` failures are single faults (`MissingListing`, `MissingFile`). The Python exception types are not distinguished.
- The tests call `extract`, `_get_putter` and `config_static`, which this `cdn.py` does not define. Only their dispatch and layout cases are modelled, through `MakePutter`.
- Walker.WalkDirectory: a missing path and a plain-file path both stop with `NotADirectory` after the first entry. The different `pkg_resources` exception types are not distinguished. Empty and `.` segments stay put and `..` goes back up, but a `..` at the package root would leave the package for the directory that holds it; that directory is not modelled, so the path names nothing and the walk stops with `NotADirectory`. Symbolic links inside a package are not followed.
- Compressor.CompressOne: models the behaviour the tests at `van/static/tests/test_cdn.py:303-327` describe, not the method as written. As written, the method has no `self`, unpacks four fields, and names undefined `tmpdir`, `subprocess` and `in_filename`. It also has no `continue` after yielding an entry it leaves alone, so it would go on to compress that entry too. The tests expect such an entry once and unchanged, with no tool run. See Findings.
- LocalFs.Mkdir: path lookup drops trailing slashes only. Repeated inner slashes (`a//b`), `.`, `..` and symbolic links are not resolved, so `a//b` and `a/b` are different paths here.
- LocalFs.Makedirs: the `curdir` return of CPython's `os.makedirs` (a path ending in `.`) is stated without the final directory fact.
- Putters.PutLocalTwiceFails: `test_put_twice` expects a second put to succeed. The code fails instead, so idempotence of the local put is not claimed.

## Findings

| source | as written | input that shows it | evidently intended | confidence | as-written member | corrected member |
|---|---|---|---|---|---|---|
| van/static/cdn.py:166-179 | `_YUICompressor.compress` is declared as `def compress(files)` without `self`, so `comp.compress(r_files)` in `export` raises TypeError before any entry is put; the workspace is made and removed, and nothing is published | `export(['pkg:dir'], 's3://bucket/path', yui_compressor=True)` where `pkg:dir` holds one file `a.js` | the compressed walk is handed to the putter: each `.js`/`.css` file is uploaded from `<tmpdir>/<n>-<basename>` and everything else passes through (the tests at van/static/tests/test_cdn.py:303-327) | high (not executed) | Export.ExportAsWrittenPublishesNothing | Export.ExportS3Compressed |
