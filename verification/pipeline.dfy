/**
  The records that flow through the publishing pipeline of `van/static/cdn.py`
  and the exceptions its stages can raise.
 */
module Pipeline {
  import opened Base

  /** The `type` member of a resource tuple: `'dir'` or `'file'`. */
  datatype Kind = Dir | File

  /** What `get_distribution(pname)` contributes: the project name and version used in target paths. */
  datatype Dist = Dist(projectName: string, version: string)

  /** The 5-tuple `(rpath, fs_rpath, pname, dist, type)` yielded by the walk and consumed by a putter. */
  datatype Entry = Entry(rpath: string, fsPath: string, pname: string, dist: Dist, kind: Kind)

  /** `errno` of an `OSError` raised by `os.mkdir`, `os.makedirs` or `os.link`. */
  datatype Errno =
    | AlreadyExists        // EEXIST
    | NoParentDirectory    // ENOENT or ENOTDIR: the containing directory is missing

  /** The exceptions the modelled code raises. */
  datatype Fault =
    | MalformedSpec(spec: string)                // `res.split(':', 1)` yields one item: ValueError on unpacking
    | UnknownDistribution(pname: string)         // `get_distribution` fails
    | NotADirectory(pname: string, path: string) // `resource_listdir` on a path that is not a directory
    | UnknownScheme(scheme: string)              // KeyError in the scheme dispatch of `export`
    | UnexpectedKeywords(names: set<string>)     // TypeError: a putter constructor does not take these keywords
    | NotFileUrl(target: string)                 // AssertionError in `_PutLocal.__init__`
    | NotS3Url(target: string)                   // AssertionError in `_PutS3.__init__`
    | InvalidNetloc(netloc: string)              // ValueError("Invalid IPv6 URL") from `urlparse`
    | OsError(errno: Errno, path: string)        // OSError from the filesystem
    | WorkspaceDisposed                          // compressing after `dispose` joins onto None: AttributeError from `None.endswith`
    | CompressArity                              // TypeError: `compress` as written takes no `self`

  /**
    A generator run to its end: the items it yielded, then the exception
    raised when the next item was pulled, if any.
   */
  datatype Stream<T> = Stream(items: seq<T>, fault: Option<Fault>)

  /** The state an effectful step leaves behind, and the exception it raised, if any. */
  datatype Run<S> = Run(state: S, fault: Option<Fault>)

  /** A consumer run over a stream: its final state, how many items it pulled, and the exception that ended it. */
  datatype Drain<S> = Drain(state: S, consumed: nat, fault: Option<Fault>)
}
