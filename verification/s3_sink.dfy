/**
  `_PutS3` of `van/static/cdn.py`: the target URL is taken apart with
  Python 2.7's `urlparse`, and every non-directory entry becomes one upload
  to the bucket, keyed by `target_path/project_name/version/rpath`. The
  boto connection is not modelled: an upload is a record appended to a log.
 */
module S3Sink {
  import opened Base
  import opened Text
  import opened Pipeline

  /** The five fields of `urlparse.urlsplit` (`urlparse` adds `params` only for schemes that use them, which `s3` does not). */
  datatype SplitUrl = SplitUrl(scheme: string, netloc: string, path: string, query: string, fragment: string)

  /** `urlparse.scheme_chars`. */
  predicate IsSchemeChar(ch: char) {
    || 'a' <= ch <= 'z' || 'A' <= ch <= 'Z' || '0' <= ch <= '9'
    || ch == '+' || ch == '-' || ch == '.'
  }

  function LowerChar(ch: char): char {
    if 'A' <= ch <= 'Z' then (ch as int - 'A' as int + 'a' as int) as char else ch
  }

  /** `str.lower()` on ASCII letters. */
  function Lower(s: string): (r: string)
    ensures |r| == |s|
    ensures forall i :: 0 <= i < |s| ==> r[i] == LowerChar(s[i])
  {
    if s == [] then [] else [LowerChar(s[0])] + Lower(s[1..])
  }

  /**
    The scheme step of `urlsplit`: the text before the first `:` is the
    scheme when it is non-empty, made of scheme characters, and what
    follows is empty or not a port number (not all digits). The fast path
    for exactly `http` takes the scheme without the port test.
   */
  function SplitScheme(url: string): (r: (string, string))
    ensures r.0 == "" ==> r.1 == url
    ensures r.0 != "" ==> exists i :: 0 < i < |url| && url[i] == ':' && r.0 == Lower(url[..i]) && r.1 == url[i + 1..]
  {
    match IndexOf(url, ':')
    case None => ("", url)
    case Some(i) =>
      if TakesScheme(url[..i], url[i + 1..]) then (Lower(url[..i]), url[i + 1..]) else ("", url)
  }

  predicate SchemeName(name: string) {
    forall k :: 0 <= k < |name| ==> IsSchemeChar(name[k])
  }

  /** Whether `urlsplit` reads `name:rest` as a scheme and what follows it. */
  predicate TakesScheme(name: string, rest: string) {
    name != "" && (name == "http" || (SchemeName(name) && (rest == "" || !AllDigits(rest))))
  }

  /**
    Port rule: for a name of scheme characters other than `http`, the name
    is taken as the scheme exactly when what follows the colon is empty or
    has a non-digit.
   */
  lemma SplitSchemePortRule(name: string, rest: string)
    requires name != "" && name != "http" && SchemeName(name)
    ensures var r := SplitScheme(name + ":" + rest);
      && (r.0 != "" <==> rest == "" || !AllDigits(rest))
      && (r.0 != "" ==> r == (Lower(name), rest))
  {
    var url := name + ":" + rest;
    assert ':' !in name by {
      forall k | 0 <= k < |name| ensures name[k] != ':' {
        assert IsSchemeChar(name[k]);
      }
    }
    assert url[..|name|] == name && url[|name|] == ':' && url[|name| + 1..] == rest;
    IndexOfFirst(url, ':', |name|);
    assert Lower(name) != "" by { assert |Lower(name)| == |name|; }
  }

  /** The first index at or after `k` holding `/`, `?` or `#`, or the length of `u` (`_splitnetloc`). */
  function NetlocEnd(u: string, k: nat): (d: nat)
    requires k <= |u|
    ensures k <= d <= |u|
    ensures forall j :: k <= j < d ==> u[j] != '/' && u[j] != '?' && u[j] != '#'
    ensures d < |u| ==> u[d] == '/' || u[d] == '?' || u[d] == '#'
    decreases |u| - k
  {
    if k == |u| || u[k] == '/' || u[k] == '?' || u[k] == '#' then k else NetlocEnd(u, k + 1)
  }

  /** `s.split(c, 1)` unpacked into two parts, the second empty when `c` does not occur. */
  function Cut(s: string, c: char): (r: (string, string))
    ensures c !in r.0
    ensures c in s ==> s == r.0 + [c] + r.1
    ensures c !in s ==> r == (s, "")
  {
    match SplitOnce(s, c)
    case None => (s, "")
    case Some(parts) => parts
  }

  /** `urlparse.urlsplit(url)` of CPython 2.7, with fragments allowed. */
  function UrlSplit(url: string): (r: Result<SplitUrl, Fault>)
    ensures r.Ok? ==> '/' !in r.value.netloc && '?' !in r.value.netloc && '#' !in r.value.netloc
    ensures r.Ok? ==> ('[' in r.value.netloc <==> ']' in r.value.netloc)
    ensures r.Ok? ==> '?' !in r.value.path && '#' !in r.value.path
    ensures r.Err? ==> r.error.InvalidNetloc?
  {
    var (scheme, rest) := SplitScheme(url);
    var (netloc, rest') :=
      if StartsWith(rest, "//") then
        var d := NetlocEnd(rest, 2);
        (rest[2..d], rest[d..])
      else ("", rest);
    if ('[' in netloc) != (']' in netloc) then Err(InvalidNetloc(netloc))
    else
      var (beforeFragment, fragment) := Cut(rest', '#');
      var (path, query) := Cut(beforeFragment, '?');
      Ok(SplitUrl(scheme, netloc, path, query, fragment))
  }

  /** The keyword arguments `_PutS3.__init__` declares. */
  const AwsKeywords: set<string> := {"aws_access_key", "aws_secret_key"}

  /** Where a `_PutS3` puts things: the bucket named by the netloc, and the URL path as the key prefix. */
  datatype S3Target = S3Target(bucket: string, targetPath: string)

  /**
    `_PutS3(target, **kw)`: unknown keywords are a TypeError; `urlparse`
    may raise; the scheme must be `s3`.
   */
  function NewPutS3(target: string, kw: map<string, string>): (r: Result<S3Target, Fault>)
    ensures !(kw.Keys <= AwsKeywords) ==> r == Err(UnexpectedKeywords(kw.Keys - AwsKeywords))
    ensures r.Ok? ==> kw.Keys <= AwsKeywords
    ensures r.Ok? ==> |target| >= 3 && Lower(target[..2]) == "s3" && target[2] == ':'
    ensures r.Ok? ==> '/' !in r.value.bucket && '?' !in r.value.targetPath && '#' !in r.value.targetPath
    ensures r.Ok? <==> kw.Keys <= AwsKeywords && UrlSplit(target).Ok? && UrlSplit(target).value.scheme == "s3"
    ensures r.Ok? ==> r.value == S3Target(UrlSplit(target).value.netloc, UrlSplit(target).value.path)
    ensures kw.Keys <= AwsKeywords && UrlSplit(target).Err? ==> r == Err(UrlSplit(target).error)
  {
    if !(kw.Keys <= AwsKeywords) then Err(UnexpectedKeywords(kw.Keys - AwsKeywords))
    else
      var u :- UrlSplit(target);
      if u.scheme != "s3" then Err(NotS3Url(target))
      else
        assert |Lower(target[..2])| == 2;
        Ok(S3Target(u.netloc, u.path))
  }

  /** The scheme of `s3:` followed by `//...` is `s3`. */
  lemma SplitSchemeS3(rest: string)
    requires StartsWith(rest, "//")
    ensures SplitScheme("s3:" + rest) == ("s3", rest)
  {
    var url := "s3:" + rest;
    assert url[2] == ':' && url[..2] == "s3" && url[3..] == rest;
    assert ':' !in url[..2];
    assert IndexOf(url, ':') == Some(2);
    assert !AllDigits(rest) by { assert !IsDigit(rest[0]); }
    assert Lower("s3") == "s3";
  }

  /** The bare target `s3:` is an `s3` URL with an empty bucket and an empty key prefix. */
  lemma NewPutS3Bare(kw: map<string, string>)
    requires kw.Keys <= AwsKeywords
    ensures NewPutS3("s3:", kw) == Ok(S3Target("", ""))
  {
    SplitSchemePortRule("s3", "");
    assert "s3" + ":" + "" == "s3:";
    assert Lower("s3") == "s3";
  }

  /** The netloc of `//bucket/path` ends where the bucket does. */
  lemma NetlocOfParts(bucket: string, path: string)
    requires '/' !in bucket && '?' !in bucket && '#' !in bucket
    requires path == "" || path[0] == '/'
    ensures NetlocEnd("//" + bucket + path, 2) == 2 + |bucket|
  {
    var rest := "//" + bucket + path;
    assert forall j :: 2 <= j < 2 + |bucket| ==> rest[j] == bucket[j - 2];
    assert |rest| > 2 + |bucket| ==> rest[2 + |bucket|] == '/';
  }

  /** `urlsplit` of `s3://bucket/path`: scheme `s3`, the bucket as netloc, the path as it is. */
  lemma UrlSplitOfParts(bucket: string, path: string)
    requires '/' !in bucket && '?' !in bucket && '#' !in bucket && '[' !in bucket && ']' !in bucket
    requires path == "" || path[0] == '/'
    requires '?' !in path && '#' !in path
    ensures UrlSplit("s3://" + bucket + path) == Ok(SplitUrl("s3", bucket, path, "", ""))
  {
    var rest := "//" + bucket + path;
    assert "s3://" + bucket + path == "s3:" + rest;
    SplitSchemeS3(rest);
    NetlocOfParts(bucket, path);
    assert rest[2..2 + |bucket|] == bucket && rest[2 + |bucket|..] == path;
    assert Cut(path, '#') == (path, "");
    assert Cut(path, '?') == (path, "");
  }

  /** An `s3://bucket/path` URL gives back its bucket and its path, leading slash kept. */
  lemma NewPutS3OfParts(bucket: string, path: string, kw: map<string, string>)
    requires '/' !in bucket && '?' !in bucket && '#' !in bucket && '[' !in bucket && ']' !in bucket
    requires path == "" || path[0] == '/'
    requires '?' !in path && '#' !in path
    requires kw.Keys <= AwsKeywords
    ensures NewPutS3("s3://" + bucket + path, kw) == Ok(S3Target(bucket, path))
  {
    UrlSplitOfParts(bucket, path);
  }

  /** A boto upload: `key.key = key`, `key.set_contents_from_filename(filename, ...)` with its keyword arguments. */
  datatype Upload = Upload(key: string, filename: string, headers: seq<(string, string)>, policy: string, reducedRedundancy: bool)

  /** The one header every upload carries: cache for a little over a year. */
  const CacheControl: (string, string) := ("Cache-Control", "max-age=32140800")

  /** `'/'.join([target_path, project_name, version, rpath])`. */
  function Key(targetPath: string, e: Entry): string {
    targetPath + "/" + e.dist.projectName + "/" + e.dist.version + "/" + e.rpath
  }

  function UploadOf(targetPath: string, e: Entry): (u: Upload)
    ensures u.key == Key(targetPath, e) && u.filename == e.fsPath
    ensures u.headers == [CacheControl] && u.policy == "public-read" && u.reducedRedundancy
  {
    Upload(Key(targetPath, e), e.fsPath, [CacheControl], "public-read", true)
  }

  /** One iteration of `_PutS3.put`: a `'dir'` entry is skipped, anything else is uploaded. */
  function Step(targetPath: string, log: seq<Upload>, e: Entry): (r: seq<Upload>)
    ensures e.kind == Dir ==> r == log
    ensures e.kind != Dir ==> r == log + [UploadOf(targetPath, e)]
  {
    if e.kind == Dir then log else log + [UploadOf(targetPath, e)]
  }

  /** The entries of `es` that are not directories, in order: the reference for what `put` uploads. */
  function NonDirs(es: seq<Entry>): (r: seq<Entry>)
    ensures |r| <= |es|
    ensures forall i :: 0 <= i < |r| ==> r[i] in es && r[i].kind != Dir
    ensures forall e :: e in es && e.kind != Dir ==> e in r
  {
    if es == [] then []
    else if es[0].kind == Dir then NonDirs(es[1..])
    else [es[0]] + NonDirs(es[1..])
  }

  /** Filtering one entry keeps it exactly when it is not a directory. */
  lemma NonDirsOne(e: Entry)
    ensures NonDirs([e]) == (if e.kind == Dir then [] else [e])
  {
    assert [e][1..] == [];
  }

  /** Filtering distributes over concatenation, so the kept entries stay in order and keep their multiplicity. */
  lemma {:induction false} NonDirsAppend(a: seq<Entry>, b: seq<Entry>)
    ensures NonDirs(a + b) == NonDirs(a) + NonDirs(b)
    decreases |a|
  {
    if a == [] {
      assert a + b == b;
    } else {
      assert (a + b)[0] == a[0];
      assert (a + b)[1..] == a[1..] + b;
      NonDirsAppend(a[1..], b);
    }
  }

  /** The uploads of `es`, one per entry, in order. */
  function UploadsOf(targetPath: string, es: seq<Entry>): (r: seq<Upload>)
    ensures |r| == |es|
    ensures forall i :: 0 <= i < |es| ==> r[i] == UploadOf(targetPath, es[i])
  {
    seq(|es|, i requires 0 <= i < |es| => UploadOf(targetPath, es[i]))
  }

  /** Within one distribution, distinct resource paths get distinct keys. */
  lemma KeyInjective(targetPath: string, e1: Entry, e2: Entry)
    requires e1.dist == e2.dist
    ensures Key(targetPath, e1) == Key(targetPath, e2) <==> e1.rpath == e2.rpath
  {
    var prefix := targetPath + "/" + e1.dist.projectName + "/" + e1.dist.version + "/";
    assert Key(targetPath, e1) == prefix + e1.rpath;
    assert Key(targetPath, e2) == prefix + e2.rpath;
    if Key(targetPath, e1) == Key(targetPath, e2) {
      assert e1.rpath == Key(targetPath, e1)[|prefix|..];
    }
  }
}
