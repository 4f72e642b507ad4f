/**
  `van/static/yui.py`: the YUI3 module table of a resource directory. Each
  `.js` file is a module; its dependencies are read off the `requires: [...]`
  list on the last non-blank line of the file. Tables are memoised per
  resource. The package listing and the file contents are given as data.
 */
module YuiModules {
  import opened Base
  import opened Text

  /** The exceptions the scraper raises. */
  datatype YuiFault =
    | NoClosingBracket(line: string)                         // `l.split(']', 1)` yields one item: ValueError on unpacking
    | NoRequires(pname: string, filepath: string, line: string)  // `fail_onerror` and no usable `requires`
    | RequiresUnbound(pname: string, filepath: string)       // no non-blank line in any file so far: UnboundLocalError
    | MalformedResource(resource: string)                    // `resource.split(':', 1)` yields one item
    | MissingListing(pname: string, path: string)            // `resource_listdir` fails
    | MissingFile(pname: string, filepath: string)           // `resource_stream` fails

  const Marker: string := "requires: ["

  /** `l.replace(' ', '').replace("'", '').replace('"', '')`. */
  function Clean(s: string): (r: string)
    ensures ' ' !in r && '\'' !in r && '"' !in r
    ensures forall x :: x in r <==> x in s && x != ' ' && x != '\'' && x != '"'
  {
    Remove(Remove(Remove(s, ' '), '\''), '"')
  }

  /**
    `_extract_requires(line)`: `None` when the line has no `requires: [`;
    otherwise the text up to the next `]` (which must exist), `None` when
    that text is exactly one character, else that text cleaned of spaces
    and quotes and split on commas.
   */
  function ExtractRequires(line: string): (r: Result<Option<seq<string>>, YuiFault>)
    ensures (forall j: nat :: !OccursAt(line, Marker, j)) ==> r == Ok(None)
    ensures r.Err? ==> r.error == NoClosingBracket(line)
    ensures r.Ok? && r.value.Some? ==> forall i :: 0 <= i < |r.value.value| ==>
      ',' !in r.value.value[i] && ' ' !in r.value.value[i] && '\'' !in r.value.value[i] && '"' !in r.value.value[i]
  {
    match SplitOnceStr(line, Marker)
    case None => Ok(None)
    case Some((_, after)) =>
      match SplitOnce(after, ']')
      case None => Err(NoClosingBracket(line))
      case Some((inner, _)) =>
        if |inner| == 1 then Ok(None)
        else
          var names := Split(Clean(inner), ',');
          assert forall i :: 0 <= i < |names| ==> forall x :: x in names[i] ==> x in Clean(inner) by {
            JoinSplitMembers(Clean(inner), ',');
          }
          Ok(Some(names))
  }

  lemma JoinSplitMembers(s: string, c: char)
    ensures forall i :: 0 <= i < |Split(s, c)| ==> forall x :: x in Split(s, c)[i] ==> x in s
  {
    var xs := Split(s, c);
    JoinSplit(s, c);
    forall i | 0 <= i < |xs|
      ensures forall x :: x in xs[i] ==> x in s
    {
      JoinMember(xs, c, i);
    }
  }

  lemma {:induction false} JoinMember(xs: seq<string>, c: char, i: nat)
    requires |xs| >= 1 && i < |xs|
    ensures forall x :: x in xs[i] ==> x in Join(xs, c)
    decreases |xs|
  {
    if |xs| > 1 {
      assert Join(xs, c) == xs[0] + [c] + Join(xs[1..], c);
      if i > 0 {
        JoinMember(xs[1..], c, i - 1);
        assert xs[1..][i - 1] == xs[i];
      }
    }
  }

  /** No `requires: [` starts inside `pre`: the marker that follows `pre` is the first one. */
  predicate NoMarkerBefore(pre: string) {
    forall j: nat :: j < |pre| ==> !OccursAt(pre + Marker, Marker, j)
  }

  /** A text without `[` holds no start of the marker, whose only `[` is its last character. */
  lemma BracketFreeNoMarker(pre: string)
    requires '[' !in pre
    ensures NoMarkerBefore(pre)
  {
    var s := pre + Marker;
    assert forall k :: 0 <= k < 10 ==> Marker[k] != '[';
    forall j: nat | j < |pre|
      ensures !OccursAt(s, Marker, j)
    {
      if j + 10 < |pre| {
        assert s[j + 10] == pre[j + 10];
      } else {
        assert s[j + 10] == Marker[j + 10 - |pre|];
      }
      assert s[j + 10] != Marker[10];
    }
  }

  /** A line whose first marker follows `pre` is cut right after that marker. */
  lemma MarkerFirstAfter(pre: string, rest: string)
    requires NoMarkerBefore(pre)
    ensures SplitOnceStr(pre + Marker + rest, Marker) == Some((pre, rest))
  {
    var s := pre + Marker + rest;
    forall j: nat | j < |pre|
      ensures !OccursAt(s, Marker, j)
    {
      assert !OccursAt(pre + Marker, Marker, j);
      assert s[..|pre| + |Marker|] == pre + Marker;
      assert j + |Marker| <= |pre| + |Marker|;
      assert s[j..j + |Marker|] == (pre + Marker)[j..j + |Marker|];
    }
    SplitOnceStrAt(pre, Marker, rest);
  }

  /**
    What `_extract_requires` makes of a line `pre + "requires: [" + inner + "]" + post`
    whose first `requires: [` is the one shown: the cleaned `inner` split on
    commas, one more item than `inner` has commas, or `None` for a
    one-character `inner`.
   */
  lemma ExtractRequiresOf(pre: string, inner: string, post: string)
    requires NoMarkerBefore(pre) && ']' !in inner
    ensures var r := ExtractRequires(pre + Marker + inner + "]" + post);
      && (|inner| == 1 ==> r == Ok(None))
      && (|inner| != 1 ==> r == Ok(Some(Split(Clean(inner), ','))) && |r.value.value| == Count(inner, ',') + 1)
  {
    var rest := inner + "]" + post;
    assert pre + Marker + inner + "]" + post == pre + Marker + rest;
    MarkerFirstAfter(pre, rest);
    SplitOnceJoin(inner, post, ']');
    assert inner + "]" + post == inner + [']'] + post;
    SplitCount(Clean(inner), ',');
    RemoveKeepsCount(inner, ' ', ',');
    RemoveKeepsCount(Remove(inner, ' '), '\'', ',');
    RemoveKeepsCount(Remove(Remove(inner, ' '), '\''), '"', ',');
  }

  /** A marker with no `]` after it is an error. */
  lemma ExtractRequiresUnclosed(pre: string, rest: string)
    requires NoMarkerBefore(pre) && ']' !in rest
    ensures ExtractRequires(pre + Marker + rest) == Err(NoClosingBracket(pre + Marker + rest))
  {
    MarkerFirstAfter(pre, rest);
  }

  /** An empty list gives one empty name. */
  lemma ExtractRequiresEmptyList()
    ensures ExtractRequires("requires: []") == Ok(Some([""]))
  {
    assert "requires: []" == "" + Marker + "" + "]" + "";
    ExtractRequiresOf("", "", "");
    assert Clean("") == "";
  }

  /** Names free of quotes, spaces, commas and `]`. */
  predicate PlainName(n: string) {
    ' ' !in n && '\'' !in n && '"' !in n && ',' !in n && ']' !in n
  }

  /** A list written as `requires: [a,b,...]` reads back as that list (unless the list text is one character). */
  lemma ExtractRequiresJoin(pre: string, names: seq<string>, post: string)
    requires NoMarkerBefore(pre) && |names| >= 1
    requires forall i :: 0 <= i < |names| ==> PlainName(names[i])
    requires |Join(names, ',')| != 1
    ensures ExtractRequires(pre + Marker + Join(names, ',') + "]" + post) == Ok(Some(names))
  {
    var inner := Join(names, ',');
    JoinChars(names, ',');
    ExtractRequiresOf(pre, inner, post);
    RemoveAbsent(inner, ' ');
    RemoveAbsent(inner, '\'');
    RemoveAbsent(inner, '"');
    SplitJoin(names, ',');
  }

  /** Every character of a join is the separator or a character of one of the pieces. */
  lemma {:induction false} JoinChars(xs: seq<string>, c: char)
    requires |xs| >= 1
    ensures forall x :: x in Join(xs, c) ==> x == c || exists i :: 0 <= i < |xs| && x in xs[i]
    decreases |xs|
  {
    if |xs| > 1 {
      JoinChars(xs[1..], c);
      forall x | x in Join(xs, c)
        ensures x == c || exists i :: 0 <= i < |xs| && x in xs[i]
      {
        assert Join(xs, c) == xs[0] + [c] + Join(xs[1..], c);
        if x in xs[0] {
        } else if x != c {
          var i :| 0 <= i < |xs[1..]| && x in xs[1..][i];
          assert xs[1..][i] == xs[i + 1];
        }
      }
    }
  }

  /** A list as YUI writes it: `'a', 'b', 'c'`. */
  function QuotedList(names: seq<string>): (r: string)
    requires |names| >= 1
    ensures |r| >= 2
    decreases |names|
  {
    if |names| == 1 then "'" + names[0] + "'"
    else "'" + names[0] + "', " + QuotedList(names[1..])
  }

  lemma CleanAppend(a: string, b: string)
    ensures Clean(a + b) == Clean(a) + Clean(b)
  {
    RemoveAppend(a, b, ' ');
    RemoveAppend(Remove(a, ' '), Remove(b, ' '), '\'');
    RemoveAppend(Remove(Remove(a, ' '), '\''), Remove(Remove(b, ' '), '\''), '"');
  }

  lemma CleanPlain(n: string)
    requires PlainName(n)
    ensures Clean(n) == n
  {
    RemoveAbsent(n, ' ');
    RemoveAbsent(n, '\'');
    RemoveAbsent(n, '"');
  }

  lemma CleanQuote()
    ensures Clean("'") == ""
  {
    assert Remove("'", ' ') == "'";
    assert Remove("'", '\'') == "";
  }

  lemma CleanSeparator()
    ensures Clean("', ") == ","
  {
    assert Remove("', ", ' ') == "',";
    assert Remove("',", '\'') == ",";
    assert Remove(",", '"') == ",";
  }

  /** Cleaning a quoted list leaves the names joined by bare commas. */
  lemma {:induction false} CleanQuotedList(names: seq<string>)
    requires |names| >= 1
    requires forall i :: 0 <= i < |names| ==> PlainName(names[i])
    ensures Clean(QuotedList(names)) == Join(names, ',')
    ensures ']' !in QuotedList(names)
    decreases |names|
  {
    var q: string := "'";
    var head := q + names[0];
    assert Clean(head) == names[0] by {
      CleanQuote();
      CleanPlain(names[0]);
      CleanAppend(q, names[0]);
    }
    if |names| == 1 {
      assert QuotedList(names) == head + q;
      assert Clean(head + q) == names[0] by {
        CleanQuote();
        CleanAppend(head, q);
      }
    } else {
      var sep: string := "', ";
      var tail := QuotedList(names[1..]);
      assert QuotedList(names) == head + sep + tail;
      assert Clean(tail) == Join(names[1..], ',') && ']' !in tail by {
        CleanQuotedList(names[1..]);
      }
      assert Clean(head + sep + tail) == names[0] + "," + Clean(tail) by {
        CleanSeparator();
        CleanAppend(head, sep);
        CleanAppend(head + sep, tail);
      }
    }
  }


  /**
    A line carrying `requires: ['a', 'b', ...]` (the form of the test of
    `_extract_requires`) reads back as the list of names.
   */
  lemma ExtractRequiresQuoted(pre: string, names: seq<string>, post: string)
    requires NoMarkerBefore(pre) && |names| >= 1
    requires forall i :: 0 <= i < |names| ==> PlainName(names[i])
    ensures ExtractRequires(pre + Marker + QuotedList(names) + "]" + post) == Ok(Some(names))
  {
    CleanQuotedList(names);
    ExtractRequiresOf(pre, QuotedList(names), post);
    SplitJoin(names, ',');
  }

  // ---------------------------------------------------------------------
  // Lines of a file
  // ---------------------------------------------------------------------

  predicate IsBreak(ch: char) {
    ch == '\n' || ch == '\r'
  }

  /** The first index at or after `k` holding a line break, or the length of `s`. */
  function BreakAt(s: string, k: nat): (d: nat)
    requires k <= |s|
    ensures k <= d <= |s|
    ensures forall j :: k <= j < d ==> !IsBreak(s[j])
    ensures d < |s| ==> IsBreak(s[d])
    decreases |s| - k
  {
    if k == |s| || IsBreak(s[k]) then k else BreakAt(s, k + 1)
  }

  /**
    `str.splitlines()` of Python 2 on a byte string: lines end at `\n`, `\r`
    or `\r\n`, the terminators are dropped, and a final terminator does not
    start an empty line.
   */
  function SplitLines(s: string): (r: seq<string>)
    ensures s == [] <==> r == []
    ensures forall i :: 0 <= i < |r| ==> '\n' !in r[i] && '\r' !in r[i]
    decreases |s|
  {
    if s == [] then []
    else
      var i := BreakAt(s, 0);
      if i == |s| then [s]
      else
        var next := if s[i] == '\r' && i + 1 < |s| && s[i + 1] == '\n' then i + 2 else i + 1;
        [s[..i]] + SplitLines(s[next..])
  }

  /** Lines joined by `\n`, the last one not empty, split back into themselves. */
  lemma {:induction false} SplitLinesJoin(lines: seq<string>)
    requires |lines| >= 1 && lines[|lines| - 1] != ""
    requires forall i :: 0 <= i < |lines| ==> '\n' !in lines[i] && '\r' !in lines[i]
    ensures SplitLines(Join(lines, '\n')) == lines
    decreases |lines|
  {
    var s := Join(lines, '\n');
    var head := lines[0];
    if |lines| == 1 {
      assert forall j :: 0 <= j < |s| ==> !IsBreak(s[j]) by {
        assert forall j :: 0 <= j < |head| ==> head[j] in head;
      }
      assert BreakAt(s, 0) == |s|;
    } else {
      var tail := Join(lines[1..], '\n');
      assert s == head + ['\n'] + tail;
      assert s[|head|] == '\n';
      assert BreakAt(s, 0) == |head| by {
        assert forall j :: 0 <= j < |head| ==> s[j] == head[j] && head[j] in head;
      }
      assert s[..|head|] == head;
      assert s[|head| + 1..] == tail;
      assert SplitLines(tail) == lines[1..] by {
        SplitLinesJoin(lines[1..]);
      }
      assert [head] + lines[1..] == lines;
    }
  }

  /** `str.isspace` characters of Python 2: what `strip()` removes. */
  predicate IsSpace(ch: char) {
    ch == ' ' || ch == '\t' || ch == '\n' || ch == '\r' || ch == 11 as char || ch == 12 as char
  }

  /** `not l.strip()`. */
  predicate Blank(l: string) {
    forall i :: 0 <= i < |l| ==> IsSpace(l[i])
  }

  /** The line the loop over the reversed lines stops at: the last non-blank one. */
  function LastNonBlank(lines: seq<string>): (r: Option<string>)
    ensures r.None? <==> forall i :: 0 <= i < |lines| ==> Blank(lines[i])
    ensures r.Some? ==> exists i :: 0 <= i < |lines| && lines[i] == r.value && !Blank(lines[i])
                          && forall j :: i < j < |lines| ==> Blank(lines[j])
    decreases |lines|
  {
    if lines == [] then None
    else if !Blank(lines[|lines| - 1]) then Some(lines[|lines| - 1])
    else
      var r := LastNonBlank(lines[..|lines| - 1]);
      assert forall i :: 0 <= i < |lines| - 1 ==> lines[..|lines| - 1][i] == lines[i];
      r
  }

  // ---------------------------------------------------------------------
  // The module table
  // ---------------------------------------------------------------------

  /** A file the scraper looks at: not hidden and ending in `.js`. */
  predicate IsModuleFile(f: string) {
    !StartsWith(f, ".") && EndsWith(f, ".js")
  }

  /** `filename[:-3]`. */
  function ModuleName(f: string): (m: string)
    requires IsModuleFile(f)
    ensures f == m + ".js" && m != ""
  {
    assert f != ".js";
    assert f == f[..|f| - 3] + f[|f| - 3..];
    f[..|f| - 3]
  }

  lemma ModuleNameInjective(f: string, g: string)
    requires IsModuleFile(f) && IsModuleFile(g)
    ensures ModuleName(f) == ModuleName(g) <==> f == g
  {
  }

  /** The names of the modules among `names`. */
  function ModuleNames(names: seq<string>): (r: set<string>)
    ensures forall m :: m in r <==> exists i :: 0 <= i < |names| && IsModuleFile(names[i]) && m + ".js" == names[i]
    decreases |names|
  {
    if names == [] then {}
    else
      var rest := ModuleNames(names[1..]);
      assert forall i :: 1 <= i < |names| ==> names[i] == names[1..][i - 1];
      if IsModuleFile(names[0]) then {ModuleName(names[0])} + rest else rest
  }

  /** The entry `modules[module] = dict(path=filename, requires=requires)`. */
  datatype ModuleInfo = ModuleInfo(path: string, requirements: Option<seq<string>>)

  /** Every module is recorded under its file name without `.js`. */
  predicate WellNamed(modules: map<string, ModuleInfo>) {
    forall m :: m in modules ==> modules[m].path == m + ".js" && IsModuleFile(m + ".js")
  }

  /**
    The local `requires` outlives each iteration: a file without a non-blank
    line inherits the previous module's value, and the first such file
    finds it unbound.
   */
  datatype Carried = Unbound | Bound(requirements: Option<seq<string>>)

  /** `warnings.warn("could not find requires in pname:filepath, last line was: line")`. */
  datatype Warning = CouldNotFindRequires(pname: string, filepath: string, line: string)

  datatype FileOutcome = FileOutcome(requirements: Option<seq<string>>, warning: Option<Warning>)

  /** The requires of one module file, from its last non-blank line. */
  function FileRequires(pname: string, filepath: string, text: string, carried: Carried, failOnError: bool): (r: Result<FileOutcome, YuiFault>)
    ensures LastNonBlank(SplitLines(text)).None? ==>
      r == (if carried.Bound? then Ok(FileOutcome(carried.requirements, None)) else Err(RequiresUnbound(pname, filepath)))
    ensures LastNonBlank(SplitLines(text)).Some? ==>
      var l := LastNonBlank(SplitLines(text)).value;
      && (r.Ok? ==> ExtractRequires(l) == Ok(r.value.requirements))
      && (r.Ok? ==> (r.value.warning.Some? <==> r.value.requirements.None?))
      && (r.Ok? && r.value.warning.Some? ==> r.value.warning.value == CouldNotFindRequires(pname, filepath, l) && !failOnError)
      && (r.Err? ==> r.error == NoClosingBracket(l) || (r.error == NoRequires(pname, filepath, l) && failOnError && ExtractRequires(l) == Ok(None)))
      && (ExtractRequires(l).Ok? && (ExtractRequires(l).value.Some? || !failOnError) ==> r.Ok?)
  {
    match LastNonBlank(SplitLines(text))
    case None =>
      if carried.Bound? then Ok(FileOutcome(carried.requirements, None)) else Err(RequiresUnbound(pname, filepath))
    case Some(l) =>
      var found :- ExtractRequires(l);
      if found.Some? then Ok(FileOutcome(found, None))
      else if failOnError then Err(NoRequires(pname, filepath, l))
      else Ok(FileOutcome(None, Some(CouldNotFindRequires(pname, filepath, l))))
  }

  /** The state of the loop over the listing. */
  datatype Scan = Scan(modules: map<string, ModuleInfo>, carried: Carried, warnings: seq<Warning>)

  /** Nothing has gone missing yet: every requires found, none carried over as `None`. */
  predicate AllFound(acc: Scan) {
    && acc.warnings == []
    && acc.carried != Bound(None)
    && forall m :: m in acc.modules ==> acc.modules[m].requirements.Some?
  }

  /** The module of `f` where it is one. */
  function ModulesOf(f: string): (r: set<string>)
    ensures forall m :: m in r <==> IsModuleFile(f) && m + ".js" == f
  {
    if IsModuleFile(f) then {ModuleName(f)} else {}
  }

  /** One iteration of the loop of `find_modules`: a non-module file is skipped, a module file read and recorded. */
  function ScanStep(pname: string, path: string, f: string, files: map<(string, string), string>, failOnError: bool, acc: Scan): (r: Result<Scan, YuiFault>)
    ensures !IsModuleFile(f) ==> r == Ok(acc)
    ensures r.Ok? ==> r.value.modules.Keys == acc.modules.Keys + ModulesOf(f)
    ensures r.Ok? ==> forall m :: m in acc.modules && m !in ModulesOf(f) ==> r.value.modules[m] == acc.modules[m]
    ensures r.Ok? && IsModuleFile(f) ==> r.value.carried.Bound? && r.value.modules[ModuleName(f)] == ModuleInfo(f, r.value.carried.requirements)
    ensures r.Ok? && IsModuleFile(f) ==> (pname, path + "/" + f) in files
    ensures r.Ok? && IsModuleFile(f) ==>
      var last := LastNonBlank(SplitLines(files[(pname, path + "/" + f)]));
      last.Some? ==> ExtractRequires(last.value) == Ok(r.value.carried.requirements)
    ensures r.Ok? && WellNamed(acc.modules) ==> WellNamed(r.value.modules)
    ensures r.Ok? ==> acc.warnings <= r.value.warnings
    ensures r.Err? && !failOnError ==> !r.error.NoRequires?
    ensures r.Ok? && failOnError && AllFound(acc) ==> AllFound(r.value)
  {
    if !IsModuleFile(f) then Ok(acc)
    else
      var filepath := path + "/" + f;
      if (pname, filepath) !in files then Err(MissingFile(pname, filepath))
      else
        var o :- FileRequires(pname, filepath, files[(pname, filepath)], acc.carried, failOnError);
        Ok(Scan(
          acc.modules[ModuleName(f) := ModuleInfo(f, o.requirements)],
          Bound(o.requirements),
          acc.warnings + (if o.warning.Some? then [o.warning.value] else [])))
  }

  /** The loop of `find_modules` over `resource_listdir(pname, path)`. */
  function ScanFiles(pname: string, path: string, names: seq<string>, files: map<(string, string), string>, failOnError: bool, acc: Scan): (r: Result<Scan, YuiFault>)
    ensures r.Ok? ==> r.value.modules.Keys == acc.modules.Keys + ModuleNames(names)
    ensures r.Ok? ==> forall m :: m in acc.modules && m !in ModuleNames(names) ==> r.value.modules[m] == acc.modules[m]
    ensures r.Ok? && WellNamed(acc.modules) ==> WellNamed(r.value.modules)
    ensures r.Ok? ==> acc.warnings <= r.value.warnings
    ensures r.Err? && !failOnError ==> !r.error.NoRequires?
    ensures r.Ok? && failOnError && AllFound(acc) ==> AllFound(r.value)
    decreases |names|
  {
    if names == [] then Ok(acc)
    else
      var next :- ScanStep(pname, path, names[0], files, failOnError, acc);
      assert ModuleNames(names) == ModulesOf(names[0]) + ModuleNames(names[1..]);
      ScanFiles(pname, path, names[1..], files, failOnError, next)
  }

  /**
    What a module file contributes to the table: with distinct names in the
    listing, the module of `names[k]` is recorded with path `names[k]` and,
    when the file has a non-blank line, with the requires of its last one.
   */
  lemma {:induction false} ScanFilesRecords(pname: string, path: string, names: seq<string>, files: map<(string, string), string>, failOnError: bool, acc: Scan, k: nat)
    requires k < |names| && IsModuleFile(names[k])
    requires forall i, j :: 0 <= i < j < |names| ==> names[i] != names[j]
    requires ScanFiles(pname, path, names, files, failOnError, acc).Ok?
    ensures var r := ScanFiles(pname, path, names, files, failOnError, acc).value;
      var m := ModuleName(names[k]);
      && (pname, path + "/" + names[k]) in files
      && m in r.modules && r.modules[m].path == names[k]
      && var last := LastNonBlank(SplitLines(files[(pname, path + "/" + names[k])]));
         last.Some? ==> ExtractRequires(last.value) == Ok(r.modules[m].requirements)
    decreases |names|
  {
    var next := ScanStep(pname, path, names[0], files, failOnError, acc).value;
    assert ScanFiles(pname, path, names, files, failOnError, acc) == ScanFiles(pname, path, names[1..], files, failOnError, next);
    if k == 0 {
      var m := ModuleName(names[0]);
      assert m !in ModuleNames(names[1..]) by {
        forall i | 0 <= i < |names[1..]| && IsModuleFile(names[1..][i])
          ensures m + ".js" != names[1..][i]
        {
          assert names[1..][i] == names[i + 1];
        }
      }
    } else {
      ScanFilesRecords(pname, path, names[1..], files, failOnError, next, k - 1);
      assert names[1..][k - 1] == names[k];
    }
  }

  /** Where the packages' files are: `resource_listdir` and `resource_stream` as data, keyed by package and path. */
  datatype Resources = Resources(listings: map<(string, string), seq<string>>, files: map<(string, string), string>)

  /** `_MODULE_CACHE`: module tables by resource. */
  type Cache = map<string, map<string, ModuleInfo>>

  /** What `find_modules` returns, the cache it leaves and the warnings it issued. */
  datatype Found = Found(modules: map<string, ModuleInfo>, cache: Cache, warnings: seq<Warning>)

  /** The scan of `resource` (`pname:path`), bypassing the cache. */
  function ScanResource(res: Resources, resource: string, failOnError: bool): (r: Result<Scan, YuiFault>)
    ensures ':' !in resource ==> r == Err(MalformedResource(resource))
    ensures r.Ok? ==> WellNamed(r.value.modules)
    ensures r.Err? && !failOnError ==> !r.error.NoRequires?
    ensures r.Ok? && failOnError ==> AllFound(r.value)
  {
    match SplitOnce(resource, ':')
    case None => Err(MalformedResource(resource))
    case Some((pname, path)) =>
      if (pname, path) !in res.listings then Err(MissingListing(pname, path))
      else ScanFiles(pname, path, res.listings[(pname, path)], res.files, failOnError, Scan(map[], Unbound, []))
  }

  /**
    `find_modules(resource, reload, fail_onerror)`: without `reload`, a
    cached table is returned as is; otherwise the table is computed, stored,
    and returned by the closing call `find_modules(resource, reload=False)`.
   */
  function FindModules(cache: Cache, res: Resources, resource: string, reload: bool, failOnError: bool): (r: Result<Found, YuiFault>)
    ensures !reload && resource in cache ==> r == Ok(Found(cache[resource], cache, []))
    ensures r.Ok? ==> r.value.cache == cache[resource := r.value.modules]
    ensures (reload || resource !in cache) ==>
      && (r.Ok? <==> ScanResource(res, resource, failOnError).Ok?)
      && (r.Ok? ==> r.value.modules == ScanResource(res, resource, failOnError).value.modules)
      && (r.Ok? ==> r.value.warnings == ScanResource(res, resource, failOnError).value.warnings)
      && (r.Err? ==> r.error == ScanResource(res, resource, failOnError).error)
    decreases if !reload && resource in cache then 0 else 1
  {
    if !reload && resource in cache then Ok(Found(cache[resource], cache, []))
    else
      var scan :- ScanResource(res, resource, failOnError);
      var again := FindModules(cache[resource := scan.modules], res, resource, false, failOnError).value;
      Ok(Found(again.modules, again.cache, scan.warnings))
  }

  /** A computed table is well formed, and with `fail_onerror` every module has its requires and nothing was warned about. */
  lemma FindModulesComputed(cache: Cache, res: Resources, resource: string, reload: bool, failOnError: bool)
    requires reload || resource !in cache
    ensures var r := FindModules(cache, res, resource, reload, failOnError);
      && (':' !in resource ==> r == Err(MalformedResource(resource)))
      && (r.Ok? ==> WellNamed(r.value.modules) && resource in r.value.cache)
      && (r.Ok? && failOnError ==> r.value.warnings == [] && forall m :: m in r.value.modules ==> r.value.modules[m].requirements.Some?)
      && (r.Err? && !failOnError ==> !r.error.NoRequires?)
  {
  }

  /** The second call without `reload` answers from the cache: the same table, no new warnings, the cache as it was. */
  lemma FindModulesTwice(cache: Cache, res: Resources, resource: string, reload: bool, failOnError: bool, failOnError': bool)
    requires FindModules(cache, res, resource, reload, failOnError).Ok?
    ensures var r := FindModules(cache, res, resource, reload, failOnError).value;
      FindModules(r.cache, res, resource, false, failOnError') == Ok(Found(r.modules, r.cache, []))
  {
  }

  /** With `reload`, the cache makes no difference to the table computed. */
  lemma FindModulesReload(cache1: Cache, cache2: Cache, res: Resources, resource: string, failOnError: bool)
    ensures var r1 := FindModules(cache1, res, resource, true, failOnError);
      var r2 := FindModules(cache2, res, resource, true, failOnError);
      && r1.Ok? == r2.Ok?
      && (r1.Ok? ==> r1.value.modules == r2.value.modules && r1.value.warnings == r2.value.warnings)
  {
  }

  /**
    The table of `pname:path` (`pname` without `:`): a module for exactly the
    listed files that are not hidden and end in `.js`, each recorded under
    its name without `.js`, with the requires of its file's last non-blank
    line where it has one.
   */
  lemma FindModulesTable(cache: Cache, res: Resources, pname: string, path: string, reload: bool, failOnError: bool)
    requires ':' !in pname && (pname, path) in res.listings
    requires reload || pname + ":" + path !in cache
    requires var names := res.listings[(pname, path)]; forall i, j :: 0 <= i < j < |names| ==> names[i] != names[j]
    requires FindModules(cache, res, pname + ":" + path, reload, failOnError).Ok?
    ensures var names := res.listings[(pname, path)];
      var t := FindModules(cache, res, pname + ":" + path, reload, failOnError).value.modules;
      && (forall m :: m in t <==> exists i :: 0 <= i < |names| && IsModuleFile(names[i]) && m + ".js" == names[i])
      && forall k :: 0 <= k < |names| && IsModuleFile(names[k]) ==>
           var m := ModuleName(names[k]);
           && (pname, path + "/" + names[k]) in res.files
           && m in t && t[m].path == names[k]
           && var last := LastNonBlank(SplitLines(res.files[(pname, path + "/" + names[k])]));
              last.Some? ==> ExtractRequires(last.value) == Ok(t[m].requirements)
  {
    var resource := pname + ":" + path;
    assert SplitOnce(resource, ':') == Some((pname, path)) by {
      SplitOnceJoin(pname, path, ':');
      assert resource == pname + [':'] + path;
    }
    var names := res.listings[(pname, path)];
    var start := Scan(map[], Unbound, []);
    forall k | 0 <= k < |names| && IsModuleFile(names[k])
      ensures var m := ModuleName(names[k]);
        && (pname, path + "/" + names[k]) in res.files
        && m in FindModules(cache, res, resource, reload, failOnError).value.modules
    {
      ScanFilesRecords(pname, path, names, res.files, failOnError, start, k);
    }
    forall k | 0 <= k < |names| && IsModuleFile(names[k])
      ensures var m := ModuleName(names[k]);
        var t := FindModules(cache, res, resource, reload, failOnError).value.modules;
        && t[m].path == names[k]
        && var last := LastNonBlank(SplitLines(res.files[(pname, path + "/" + names[k])]));
           last.Some? ==> ExtractRequires(last.value) == Ok(t[m].requirements)
    {
      ScanFilesRecords(pname, path, names, res.files, failOnError, start, k);
    }
  }
}
