/**
  The producer stage of `van/static/cdn.py`: `_walk_resource_directory`
  enumerates a package resource directory depth first, and
  `_walk_resources` turns a list of `"pkg:path"` specs into resource
  entries. The package resource index (`resource_listdir`,
  `resource_isdir`) is a tree whose folders list their members in the
  order the index reports them.
 */
module Walker {
  import opened Base
  import opened Text
  import opened Pipeline

  /** A package resource: a plain file, or a directory with its listing. */
  datatype Tree = Leaf | Folder(members: seq<Member>)
  datatype Member = Member(name: string, node: Tree)

  /** `resource_isdir` as an entry type. */
  function KindOf(t: Tree): Kind {
    if t.Folder? then Dir else File
  }

  /**
    `_walk_resource_directory(pname, root)` for a directory: the directory
    itself, then each member in listing order, a subdirectory fully
    expanded before its next sibling.
   */
  function Walk(root: string, t: Tree): (r: seq<(string, Kind)>)
    requires t.Folder?
    ensures |r| >= 1 && r[0] == (root, Dir)
    decreases t, 2
  {
    [(root, Dir)] + WalkMembers(root, t, 0)
  }

  /** The entries contributed by members `i..` of folder `t`, listed under `dir`. */
  function WalkMembers(dir: string, t: Tree, i: nat): seq<(string, Kind)>
    requires t.Folder? && i <= |t.members|
    decreases t, 1, |t.members| - i
  {
    if i == |t.members| then [] else Block(dir, t, i) + WalkMembers(dir, t, i + 1)
  }

  /** The entries contributed by member `i` of folder `t`: its own walk, or one file entry. */
  function Block(dir: string, t: Tree, i: nat): seq<(string, Kind)>
    requires t.Folder? && i < |t.members|
    decreases t, 0
  {
    var m := t.members[i];
    var p := dir + "/" + m.name;
    if m.node.Folder? then Walk(p, m.node) else [(p, File)]
  }

  // ---------------------------------------------------------------------
  // One entry per node
  // ---------------------------------------------------------------------

  /** The number of nodes of a tree. */
  function Size(t: Tree): nat
    decreases t, 1
  {
    if t.Leaf? then 1 else 1 + MembersSize(t, 0)
  }

  function MembersSize(t: Tree, i: nat): nat
    requires t.Folder? && i <= |t.members|
    decreases t, 0, |t.members| - i
  {
    if i == |t.members| then 0 else Size(t.members[i].node) + MembersSize(t, i + 1)
  }

  /** The walk emits exactly one entry per node of the directory tree. */
  lemma {:induction false} WalkSize(root: string, t: Tree)
    requires t.Folder?
    ensures |Walk(root, t)| == Size(t)
    decreases t, 2
  {
    WalkMembersSize(root, t, 0);
  }

  lemma {:induction false} WalkMembersSize(dir: string, t: Tree, i: nat)
    requires t.Folder? && i <= |t.members|
    ensures |WalkMembers(dir, t, i)| == MembersSize(t, i)
    decreases t, 1, |t.members| - i
  {
    if i < |t.members| {
      var m := t.members[i];
      if m.node.Folder? {
        WalkSize(dir + "/" + m.name, m.node);
      }
      WalkMembersSize(dir, t, i + 1);
    }
  }

  // ---------------------------------------------------------------------
  // The walk lists exactly the nodes, each under its joined member names
  // ---------------------------------------------------------------------

  /** The node reached by following member indices `ix` from `t`. */
  function At(t: Tree, ix: seq<nat>): Option<Tree>
    decreases |ix|
  {
    if ix == [] then Some(t)
    else if t.Folder? && ix[0] < |t.members| then At(t.members[ix[0]].node, ix[1..])
    else None
  }

  /** The resource path of the node at `ix`: `root` followed by `'/' + name` for each member passed. */
  function Spell(root: string, t: Tree, ix: seq<nat>): string
    requires At(t, ix).Some?
    decreases |ix|
  {
    if ix == [] then root
    else
      var m := t.members[ix[0]];
      Spell(root + "/" + m.name, m.node, ix[1..])
  }

  /** Entry `e` is the one the walk owes the node at index path `ix`. */
  ghost predicate Denotes(root: string, t: Tree, ix: seq<nat>, e: (string, Kind)) {
    At(t, ix).Some? && e == (Spell(root, t, ix), KindOf(At(t, ix).value))
  }

  lemma {:induction false} BlockInMembers(dir: string, t: Tree, i: nat, k: nat)
    requires t.Folder? && i <= k < |t.members|
    ensures forall e :: e in Block(dir, t, k) ==> e in WalkMembers(dir, t, i)
    decreases k - i
  {
    if i < k {
      BlockInMembers(dir, t, i + 1, k);
    }
  }

  lemma {:induction false} MembersSound(dir: string, t: Tree, i: nat, e: (string, Kind))
    requires t.Folder? && i <= |t.members|
    requires e in WalkMembers(dir, t, i)
    ensures exists k :: i <= k < |t.members| && e in Block(dir, t, k)
    decreases |t.members| - i
  {
    if e !in Block(dir, t, i) {
      MembersSound(dir, t, i + 1, e);
    }
  }

  /** Every node of the tree is listed, under its spelled path and with its type. */
  lemma {:induction false} WalkComplete(root: string, t: Tree, ix: seq<nat>)
    requires t.Folder? && At(t, ix).Some?
    ensures (Spell(root, t, ix), KindOf(At(t, ix).value)) in Walk(root, t)
    decreases |ix|
  {
    if ix != [] {
      var k := ix[0];
      var m := t.members[k];
      var p := root + "/" + m.name;
      BlockInMembers(root, t, 0, k);
      if ix[1..] != [] {
        WalkComplete(p, m.node, ix[1..]);
      }
    }
  }

  /** Every listed entry is the entry of some node. */
  lemma {:induction false} WalkSound(root: string, t: Tree, e: (string, Kind))
    requires t.Folder? && e in Walk(root, t)
    ensures exists ix :: Denotes(root, t, ix, e)
    decreases t
  {
    if e == (root, Dir) {
      assert Denotes(root, t, [], e);
    } else {
      MembersSound(root, t, 0, e);
      var k :| 0 <= k < |t.members| && e in Block(root, t, k);
      var m := t.members[k];
      var p := root + "/" + m.name;
      if m.node.Folder? {
        WalkSound(p, m.node, e);
        var ix :| Denotes(p, m.node, ix, e);
        assert ([k] + ix)[1..] == ix;
        assert Denotes(root, t, [k] + ix, e);
      } else {
        assert [k][1..] == [];
        assert Denotes(root, t, [k], e);
      }
    }
  }

  /** The walk lists exactly the entries owed to the nodes of the tree. */
  lemma WalkExact(root: string, t: Tree, e: (string, Kind))
    requires t.Folder?
    ensures e in Walk(root, t) <==> exists ix :: Denotes(root, t, ix, e)
  {
    if e in Walk(root, t) {
      WalkSound(root, t, e);
    }
    if exists ix :: Denotes(root, t, ix, e) {
      var ix :| Denotes(root, t, ix, e);
      WalkComplete(root, t, ix);
    }
  }

  // ---------------------------------------------------------------------
  // The walk is the pre-order listing of the nodes
  // ---------------------------------------------------------------------

  /** `ix` comes before `iy` in pre-order: it is a proper prefix, or it turns to an earlier member where they part. */
  predicate Before(ix: seq<nat>, iy: seq<nat>)
    decreases |ix|
  {
    iy != [] && (ix == [] || ix[0] < iy[0] || (ix[0] == iy[0] && Before(ix[1..], iy[1..])))
  }

  /**
    The pre-order number of the node at `ix`: the folder itself is 0, and
    member `k`'s subtree starts after the folder and the subtrees of the
    members listed before it.
   */
  function Pos(t: Tree, ix: seq<nat>): nat
    requires At(t, ix).Some?
    decreases |ix|
  {
    if ix == [] then 0
    else
      MembersSizeMono(t, 0, ix[0]);
      1 + (MembersSize(t, 0) - MembersSize(t, ix[0])) + Pos(t.members[ix[0]].node, ix[1..])
  }

  lemma {:induction false} MembersSizeMono(t: Tree, i: nat, k: nat)
    requires t.Folder? && i <= k <= |t.members|
    ensures MembersSize(t, k) <= MembersSize(t, i)
    decreases k - i
  {
    if i < k {
      MembersSizeMono(t, i + 1, k);
    }
  }

  /** Every pre-order number lies inside the tree. */
  lemma {:induction false} PosBound(t: Tree, ix: seq<nat>)
    requires At(t, ix).Some?
    ensures Pos(t, ix) < Size(t)
    decreases |ix|
  {
    if ix != [] {
      var k := ix[0];
      PosBound(t.members[k].node, ix[1..]);
      MembersSizeMono(t, 0, k + 1);
    }
  }

  /** Nodes earlier in pre-order get smaller numbers. */
  lemma {:induction false} PosBefore(t: Tree, ix: seq<nat>, iy: seq<nat>)
    requires At(t, ix).Some? && At(t, iy).Some? && Before(ix, iy)
    ensures Pos(t, ix) < Pos(t, iy)
    decreases |ix|
  {
    if ix == [] {
      MembersSizeMono(t, 0, iy[0]);
    } else {
      var i, j := ix[0], iy[0];
      if i < j {
        PosBound(t.members[i].node, ix[1..]);
        MembersSizeMono(t, i + 1, j);
        assert MembersSize(t, i) == Size(t.members[i].node) + MembersSize(t, i + 1);
      } else {
        assert i == j && Before(ix[1..], iy[1..]);
        PosBefore(t.members[i].node, ix[1..], iy[1..]);
      }
    }
  }

  /** A member's block has one entry per node of the member. */
  lemma BlockSize(dir: string, t: Tree, k: nat)
    requires t.Folder? && k < |t.members|
    ensures |Block(dir, t, k)| == Size(t.members[k].node)
  {
    var m := t.members[k];
    if m.node.Folder? {
      WalkSize(dir + "/" + m.name, m.node);
    }
  }

  /** Entry `q` of member `k`'s block sits at its offset in the listing of members `i..`. */
  lemma {:induction false} MembersAt(dir: string, t: Tree, i: nat, k: nat, q: nat)
    requires t.Folder? && i <= k < |t.members| && q < |Block(dir, t, k)|
    ensures MembersSizeOrdered(t, i, k)
    ensures (MembersSize(t, i) - MembersSize(t, k)) + q < |WalkMembers(dir, t, i)|
    ensures WalkMembers(dir, t, i)[(MembersSize(t, i) - MembersSize(t, k)) + q] == Block(dir, t, k)[q]
    decreases k - i
  {
    var m := t.members[i];
    if m.node.Folder? {
      WalkSize(dir + "/" + m.name, m.node);
    }
    WalkMembersSize(dir, t, i + 1);
    if i < k {
      MembersAt(dir, t, i + 1, k, q);
    }
  }

  ghost predicate MembersSizeOrdered(t: Tree, i: nat, k: nat)
    requires t.Folder? && i <= k <= |t.members|
  {
    MembersSize(t, k) <= MembersSize(t, i)
  }

  /** The walk holds the entry of the node at `ix` at that node's pre-order number. */
  lemma {:induction false} WalkAt(root: string, t: Tree, ix: seq<nat>)
    requires t.Folder? && At(t, ix).Some?
    ensures Pos(t, ix) < |Walk(root, t)|
    ensures Walk(root, t)[Pos(t, ix)] == (Spell(root, t, ix), KindOf(At(t, ix).value))
    decreases |ix|
  {
    if ix != [] {
      var k := ix[0];
      var m := t.members[k];
      var p := root + "/" + m.name;
      var q := Pos(m.node, ix[1..]);
      PosBound(m.node, ix[1..]);
      BlockSize(root, t, k);
      MembersAt(root, t, 0, k, q);
      if m.node.Folder? {
        WalkAt(p, m.node, ix[1..]);
      }
    }
  }

  /**
    The walk lists the nodes in pre-order: of two nodes, the one earlier in
    pre-order is listed at an earlier place.
   */
  lemma WalkOrder(root: string, t: Tree, ix: seq<nat>, iy: seq<nat>)
    requires t.Folder? && At(t, ix).Some? && At(t, iy).Some? && Before(ix, iy)
    ensures Pos(t, ix) < Pos(t, iy) < |Walk(root, t)|
    ensures Walk(root, t)[Pos(t, ix)] == (Spell(root, t, ix), KindOf(At(t, ix).value))
    ensures Walk(root, t)[Pos(t, iy)] == (Spell(root, t, iy), KindOf(At(t, iy).value))
  {
    PosBefore(t, ix, iy);
    WalkAt(root, t, ix);
    WalkAt(root, t, iy);
  }

  // ---------------------------------------------------------------------
  // Directories are announced before their contents
  // ---------------------------------------------------------------------

  /** `p` names a direct member of directory `d`. */
  predicate IsChild(d: string, p: string) {
    StartsWith(p, d + "/") && '/' !in p[|d| + 1..]
  }

  /** Member names, as `resource_listdir` reports them, never contain a slash. */
  predicate PlainNames(t: Tree)
    decreases t
  {
    t.Leaf? || forall i :: 0 <= i < |t.members| ==> '/' !in t.members[i].name && PlainNames(t.members[i].node)
  }

  /** Every entry but the first has its containing directory listed earlier. */
  ghost predicate ParentsFirst(es: seq<(string, Kind)>) {
    forall k :: 1 <= k < |es| ==> HasParent(es, k)
  }

  /** Entry `k` is a member of a directory listed before it. */
  ghost predicate HasParent(es: seq<(string, Kind)>, k: nat)
    requires k < |es|
  {
    exists j :: 0 <= j < k && es[j].1 == Dir && IsChild(es[j].0, es[k].0)
  }

  /** Every entry is a member of `dir` or has its containing directory listed earlier. */
  ghost predicate Anchored(dir: string, es: seq<(string, Kind)>) {
    forall k :: 0 <= k < |es| ==> IsChild(dir, es[k].0) || HasParent(es, k)
  }

  lemma ChildOfJoin(d: string, name: string)
    requires '/' !in name
    ensures IsChild(d, d + "/" + name)
  {
    var p := d + "/" + name;
    assert p[..|d| + 1] == d + "/";
    assert p[|d| + 1..] == name;
  }

  /** An entry's parent stays its parent when more entries are appended. */
  lemma ParentBeforeAppend(a: seq<(string, Kind)>, b: seq<(string, Kind)>, k: nat)
    requires k < |a| && HasParent(a, k)
    ensures HasParent(a + b, k)
  {
    var j :| 0 <= j < k && a[j].1 == Dir && IsChild(a[j].0, a[k].0);
    assert (a + b)[j] == a[j] && (a + b)[k] == a[k];
  }

  /** An entry's parent stays its parent when entries are prepended. */
  lemma ParentAfterPrepend(a: seq<(string, Kind)>, b: seq<(string, Kind)>, k: nat)
    requires k < |b| && HasParent(b, k)
    ensures HasParent(a + b, |a| + k)
  {
    var j :| 0 <= j < k && b[j].1 == Dir && IsChild(b[j].0, b[k].0);
    assert (a + b)[|a| + j] == b[j] && (a + b)[|a| + k] == b[k];
  }

  lemma {:induction false} AnchoredConcat(dir: string, a: seq<(string, Kind)>, b: seq<(string, Kind)>)
    requires Anchored(dir, a) && Anchored(dir, b)
    ensures Anchored(dir, a + b)
  {
    forall k | 0 <= k < |a + b|
      ensures IsChild(dir, (a + b)[k].0) || HasParent(a + b, k)
    {
      if k < |a| {
        AnchoredInLeft(dir, a, b, k);
      } else {
        AnchoredInRight(dir, a, b, k - |a|);
      }
    }
  }

  lemma AnchoredInLeft(dir: string, a: seq<(string, Kind)>, b: seq<(string, Kind)>, k: nat)
    requires k < |a| && (IsChild(dir, a[k].0) || HasParent(a, k))
    ensures IsChild(dir, (a + b)[k].0) || HasParent(a + b, k)
  {
    assert (a + b)[k] == a[k];
    if HasParent(a, k) {
      ParentBeforeAppend(a, b, k);
    }
  }

  lemma AnchoredInRight(dir: string, a: seq<(string, Kind)>, b: seq<(string, Kind)>, k: nat)
    requires k < |b| && (IsChild(dir, b[k].0) || HasParent(b, k))
    ensures IsChild(dir, (a + b)[|a| + k].0) || HasParent(a + b, |a| + k)
  {
    assert (a + b)[|a| + k] == b[k];
    if HasParent(b, k) {
      ParentAfterPrepend(a, b, k);
    }
  }

  lemma {:induction false} BlockAnchored(dir: string, t: Tree, i: nat)
    requires t.Folder? && i < |t.members| && PlainNames(t)
    ensures Anchored(dir, Block(dir, t, i))
    decreases t, 0
  {
    var m := t.members[i];
    var p := dir + "/" + m.name;
    ChildOfJoin(dir, m.name);
    if m.node.Folder? {
      WalkParentsFirst(p, m.node);
    }
  }

  lemma {:induction false} MembersAnchored(dir: string, t: Tree, i: nat)
    requires t.Folder? && i <= |t.members| && PlainNames(t)
    ensures Anchored(dir, WalkMembers(dir, t, i))
    decreases t, 1, |t.members| - i
  {
    if i < |t.members| {
      BlockAnchored(dir, t, i);
      MembersAnchored(dir, t, i + 1);
      AnchoredConcat(dir, Block(dir, t, i), WalkMembers(dir, t, i + 1));
    }
  }

  /** A directory entry always precedes the entries of its members. */
  lemma {:induction false} WalkParentsFirst(root: string, t: Tree)
    requires t.Folder? && PlainNames(t)
    ensures ParentsFirst(Walk(root, t))
    decreases t, 2
  {
    MembersAnchored(root, t, 0);
    RootFirst(root, WalkMembers(root, t, 0), Walk(root, t));
  }

  /** Entries anchored under `root`, preceded by `root` itself, list every directory before its members. */
  lemma {:induction false} RootFirst(root: string, ms: seq<(string, Kind)>, w: seq<(string, Kind)>)
    requires Anchored(root, ms) && w == [(root, Dir)] + ms
    ensures ParentsFirst(w)
  {
    forall k | 1 <= k < |w|
      ensures HasParent(w, k)
    {
      RootParent(root, ms, w, k);
    }
  }

  /** Under `root`, every anchored entry has a parent listed before it. */
  lemma RootParent(root: string, ms: seq<(string, Kind)>, w: seq<(string, Kind)>, k: nat)
    requires Anchored(root, ms) && w == [(root, Dir)] + ms && 1 <= k < |w|
    ensures HasParent(w, k)
  {
    assert w[k] == ms[k - 1];
    if HasParent(ms, k - 1) {
      ParentAfterPrepend([(root, Dir)], ms, k - 1);
    } else {
      assert IsChild(root, ms[k - 1].0);
      assert w[0] == (root, Dir);
    }
  }

  // ---------------------------------------------------------------------
  // From resource specs to entries
  // ---------------------------------------------------------------------

  /** An installed package: its distribution metadata and its resource tree. */
  datatype Package = Package(dist: Dist, root: Tree)

  /** `resource_filename(pname, rpath)`: where the resource lives on disk (left uninterpreted). */
  type Resolver = (string, string) -> string

  /** The first member of a listing with the given name. */
  function ChildNamed(ms: seq<Member>, name: string): Option<Tree> {
    if ms == [] then None
    else if ms[0].name == name then Some(ms[0].node)
    else ChildNamed(ms[1..], name)
  }

  /**
    The node a slash-separated resource path names, as the kernel resolves
    the joined filesystem path: empty and `.` segments stay put, `..` goes
    back to the enclosing folder. `up` holds the folders passed through,
    innermost last; a `..` at the package root leaves the package and
    names nothing here.
   */
  function Descend(t: Tree, up: seq<Tree>, segs: seq<string>): Option<Tree>
    decreases |segs|
  {
    if segs == [] then Some(t)
    else if segs[0] == "" || segs[0] == "." then Descend(t, up, segs[1..])
    else if t.Leaf? then None
    else if segs[0] == ".." then
      if up == [] then None else Descend(up[|up| - 1], up[..|up| - 1], segs[1..])
    else
      match ChildNamed(t.members, segs[0])
      case None => None
      case Some(n) => Descend(n, up + [t], segs[1..])
  }

  function Lookup(t: Tree, path: string): Option<Tree> {
    Descend(t, [], Split(path, '/'))
  }

  /** `pkg:.` names the package folder itself. */
  lemma LookupDot(t: Tree)
    ensures Lookup(t, ".") == Some(t)
  {
    assert '/' !in ".";
    var segs := Split(".", '/');
    assert segs == ["."];
    assert segs[1..] == [];
  }

  /** A `..` after a sub-folder's name comes back to the folder it was looked up in. */
  lemma LookupUpAgain(t: Tree, name: string, rest: string)
    requires t.Folder? && '/' !in name && name != "" && name != "." && name != ".."
    requires ChildNamed(t.members, name).Some? && ChildNamed(t.members, name).value.Folder?
    ensures Lookup(t, name + "/../" + rest) == Lookup(t, rest)
  {
    var segs := Split(rest, '/');
    SplitDotDot(name, rest);
    DescendUpAgain(t, ChildNamed(t.members, name).value, name, segs);
  }

  lemma SplitDotDot(name: string, rest: string)
    requires '/' !in name
    ensures Split(name + "/../" + rest, '/') == [name, ".."] + Split(rest, '/')
  {
    DotDotSpelling(name, rest);
    assert '/' !in "..";
    SplitTwo(name, "..", rest);
  }

  lemma DotDotSpelling(name: string, rest: string)
    ensures name + "/../" + rest == name + ['/'] + (".." + ['/'] + rest)
  {
    assert "/../" == ['/'] + ".." + ['/'];
  }

  /** Two separator-free pieces in front of `rest` split off as the first two pieces. */
  lemma SplitTwo(a: string, b: string, rest: string)
    requires '/' !in a && '/' !in b
    ensures Split(a + ['/'] + (b + ['/'] + rest), '/') == [a, b] + Split(rest, '/')
  {
    var tail := b + ['/'] + rest;
    SplitCons(b, rest, '/');
    SplitCons(a, tail, '/');
    assert [a] + ([b] + Split(rest, '/')) == [a, b] + Split(rest, '/');
  }

  lemma DescendUpAgain(t: Tree, n: Tree, name: string, segs: seq<string>)
    requires t.Folder? && n.Folder? && ChildNamed(t.members, name) == Some(n)
    requires name != "" && name != "." && name != ".."
    ensures Descend(t, [], [name, ".."] + segs) == Descend(t, [], segs)
  {
    var all := [name, ".."] + segs;
    assert all[0] == name && all[1..] == [".."] + segs;
    assert Descend(t, [], all) == Descend(n, [t], [".."] + segs);
    assert ([".."] + segs)[1..] == segs;
    assert [t][..0] == [];
  }

  /** `_walk_resource_directory(pname, '.')` walks the whole package folder. */
  lemma WalkDirectoryDot(pkg: Package, pname: string)
    requires pkg.root.Folder?
    ensures WalkDirectory(pkg, pname, ".") == Stream(Walk(".", pkg.root), None)
  {
    LookupDot(pkg.root);
  }

  /**
    `_walk_resource_directory(pname, path)` run to its end: the walk when
    `path` is a directory; otherwise the first `(path, 'dir')` is still
    yielded and then `resource_listdir` raises.
   */
  function WalkDirectory(pkg: Package, pname: string, path: string): (r: Stream<(string, Kind)>)
    ensures |r.items| >= 1 && r.items[0] == (path, Dir)
    ensures r.fault.None? <==> Lookup(pkg.root, path).Some? && Lookup(pkg.root, path).value.Folder?
    ensures r.fault.Some? ==> r.items == [(path, Dir)] && r.fault == Some(NotADirectory(pname, path))
  {
    match Lookup(pkg.root, path)
    case Some(Folder(ms)) => Stream(Walk(path, Folder(ms)), None)
    case _ => Stream([(path, Dir)], Some(NotADirectory(pname, path)))
  }

  /** The 5-tuples `_walk_resources` yields for the walked paths of one package. */
  function ToEntries(pname: string, dist: Dist, resolve: Resolver, ws: seq<(string, Kind)>): (r: seq<Entry>)
    ensures |r| == |ws|
    ensures forall i :: 0 <= i < |r| ==>
      r[i] == Entry(ws[i].0, resolve(pname, ws[i].0), pname, dist, ws[i].1)
  {
    seq(|ws|, i requires 0 <= i < |ws| => Entry(ws[i].0, resolve(pname, ws[i].0), pname, dist, ws[i].1))
  }

  /** An entry as `_walk_resources` builds it: the package's distribution and the resolved filesystem path. */
  ghost predicate WellResolved(pkgs: map<string, Package>, resolve: Resolver, e: Entry) {
    e.pname in pkgs && e.dist == pkgs[e.pname].dist && e.fsPath == resolve(e.pname, e.rpath)
  }

  /** The entries `_walk_resources` yields for one spec, and the exception that stops it, if any. */
  function WalkSpec(pkgs: map<string, Package>, resolve: Resolver, spec: string): (r: Stream<Entry>)
    ensures forall e :: e in r.items ==> WellResolved(pkgs, resolve, e)
    ensures ':' !in spec ==> r == Stream([], Some(MalformedSpec(spec)))
  {
    match SplitOnce(spec, ':')
    case None => Stream([], Some(MalformedSpec(spec)))
    case Some((pname, path)) =>
      if pname !in pkgs then Stream([], Some(UnknownDistribution(pname)))
      else
        var w := WalkDirectory(pkgs[pname], pname, path);
        Stream(ToEntries(pname, pkgs[pname].dist, resolve, w.items), w.fault)
  }

  /** A spec names its package before the first colon; everything after it, colons included, is the path. */
  lemma WalkSpecSplitsAtFirstColon(pkgs: map<string, Package>, resolve: Resolver, pname: string, path: string)
    requires ':' !in pname
    ensures pname !in pkgs ==> WalkSpec(pkgs, resolve, pname + ":" + path) == Stream([], Some(UnknownDistribution(pname)))
    ensures pname in pkgs ==>
      var w := WalkDirectory(pkgs[pname], pname, path);
      WalkSpec(pkgs, resolve, pname + ":" + path) == Stream(ToEntries(pname, pkgs[pname].dist, resolve, w.items), w.fault)
  {
    SplitOnceJoin(pname, path, ':');
    assert pname + ":" + path == pname + [':'] + path;
  }

  /**
    `_walk_resources(resources)` run to its end: the walks of the specs in
    order, stopping at the first exception.
   */
  function WalkResources(pkgs: map<string, Package>, resolve: Resolver, specs: seq<string>): (r: Stream<Entry>)
    ensures forall e :: e in r.items ==> WellResolved(pkgs, resolve, e)
    ensures r.fault.None? ==> forall s :: s in specs ==> ':' in s
    decreases |specs|
  {
    if specs == [] then Stream([], None)
    else
      var head := WalkSpec(pkgs, resolve, specs[0]);
      if head.fault.Some? then head
      else
        var rest := WalkResources(pkgs, resolve, specs[1..]);
        assert forall s :: s in specs ==> s == specs[0] || s in specs[1..];
        Stream(head.items + rest.items, rest.fault)
  }

  /** A non-empty spec list whose first spec walks without an exception. */
  lemma WalkResourcesUnfold(pkgs: map<string, Package>, resolve: Resolver, specs: seq<string>)
    requires specs != [] && WalkSpec(pkgs, resolve, specs[0]).fault.None?
    ensures WalkResources(pkgs, resolve, specs) ==
      Stream(WalkSpec(pkgs, resolve, specs[0]).items + WalkResources(pkgs, resolve, specs[1..]).items,
             WalkResources(pkgs, resolve, specs[1..]).fault)
  {
  }

  /** Splitting off the head of `a` commutes with appending `b`. */
  lemma HeadTail<T>(a: seq<T>, b: seq<T>)
    requires a != []
    ensures a == [a[0]] + a[1..] && a + b == [a[0]] + (a[1..] + b)
  {
    ConcatAssoc([a[0]], a[1..], b);
  }

  /** Regrouping a head walk followed by the walks of two spec lists. */
  lemma StreamsAppend(hd: seq<Entry>, ra: Stream<Entry>, rb: Stream<Entry>, wa: Stream<Entry>, rab: Stream<Entry>, wab: Stream<Entry>)
    requires wa == Stream(hd + ra.items, ra.fault)
    requires rab == Stream(ra.items + rb.items, rb.fault)
    requires wab == Stream(hd + rab.items, rab.fault)
    ensures wab == Stream(wa.items + rb.items, rb.fault)
  {
    ConcatAssoc(hd, ra.items, rb.items);
  }

  /** The walk of `[first] + rest`, when `first` walks without an exception. */
  lemma WalkResourcesCons(pkgs: map<string, Package>, resolve: Resolver, specs: seq<string>, first: string, rest: seq<string>)
    requires specs == [first] + rest && WalkSpec(pkgs, resolve, first).fault.None?
    ensures WalkResources(pkgs, resolve, specs) ==
      Stream(WalkSpec(pkgs, resolve, first).items + WalkResources(pkgs, resolve, rest).items,
             WalkResources(pkgs, resolve, rest).fault)
  {
    assert specs[0] == first && specs[1..] == rest;
    WalkResourcesUnfold(pkgs, resolve, specs);
  }

  /**
    The walk of a spec list is the concatenation of the walks of its parts:
    nothing is merged or removed across specs.
   */
  lemma {:induction false} WalkResourcesAppend(pkgs: map<string, Package>, resolve: Resolver, a: seq<string>, b: seq<string>)
    requires WalkResources(pkgs, resolve, a).fault.None?
    ensures WalkResources(pkgs, resolve, a + b) ==
      Stream(WalkResources(pkgs, resolve, a).items + WalkResources(pkgs, resolve, b).items,
             WalkResources(pkgs, resolve, b).fault)
    decreases |a|
  {
    if a == [] {
      assert a + b == b;
    } else {
      HeadTail(a, b);
      WalkResourcesCons(pkgs, resolve, a, a[0], a[1..]);
      WalkResourcesAppend(pkgs, resolve, a[1..], b);
      WalkResourcesCons(pkgs, resolve, a + b, a[0], a[1..] + b);
      StreamsAppend(WalkSpec(pkgs, resolve, a[0]).items, WalkResources(pkgs, resolve, a[1..]), WalkResources(pkgs, resolve, b),
        WalkResources(pkgs, resolve, a), WalkResources(pkgs, resolve, a[1..] + b), WalkResources(pkgs, resolve, a + b));
    }
  }

  /** Declaring the same spec twice yields its entries twice. */
  lemma DuplicateSpecsRepeat(pkgs: map<string, Package>, resolve: Resolver, spec: string)
    requires WalkSpec(pkgs, resolve, spec).fault.None?
    ensures WalkResources(pkgs, resolve, [spec, spec]).items ==
      WalkSpec(pkgs, resolve, spec).items + WalkSpec(pkgs, resolve, spec).items
  {
    assert [spec, spec] == [spec] + [spec];
    assert WalkResources(pkgs, resolve, [spec]) == WalkSpec(pkgs, resolve, spec) by {
      assert [spec][1..] == [];
      assert WalkSpec(pkgs, resolve, spec).items + [] == WalkSpec(pkgs, resolve, spec).items;
    }
    WalkResourcesAppend(pkgs, resolve, [spec], [spec]);
  }
}
