/** Where `_download_file` writes a job's artifact: the output name defaults
    to the last `/`-segment of the URL before its query string, and the
    directory defaults to the system temporary directory. */
module DownloadName {
  import opened Common

  /** `s.split(c)[0]`: the text before the first `c`, or all of `s`. */
  function BeforeFirst(s: string, c: char): (r: string)
    ensures r <= s && c !in r
    ensures |r| < |s| ==> s[|r|] == c
    ensures c !in s ==> r == s
  {
    if s == [] then []
    else if s[0] == c then []
    else [s[0]] + BeforeFirst(s[1..], c)
  }

  /** `s.split(c)[-1]`: the text after the last `c`, or all of `s`. */
  function AfterLast(s: string, c: char): (r: string)
    ensures |r| <= |s| && r == s[|s| - |r|..] && c !in r
    ensures |r| < |s| ==> s[|s| - |r| - 1] == c
    ensures c !in s ==> r == s
  {
    if s == [] then []
    else if s[|s| - 1] == c then []
    else AfterLast(s[..|s| - 1], c) + [s[|s| - 1]]
  }

  /** The file name `_download_file` derives when the caller gives none: it
      holds no `/` and no `?`, and a URL with neither is its own name. */
  function DefaultFileName(url: string): (name: string)
    ensures '/' !in name && '?' !in name
    ensures '/' !in url && '?' !in url ==> name == url
  {
    AfterLast(BeforeFirst(url, '?'), '/')
  }

  /** The directory and file name the artifact is written to; `tempDir` is
      what `tempfile.gettempdir()` returns. */
  function OutputTarget(url: string, outName: Option<string>, outDir: Option<string>, tempDir: string): (target: (string, string))
    ensures target.0 == (if outDir.Some? then outDir.value else tempDir)
    ensures outName.Some? ==> target.1 == outName.value
    ensures outName.None? ==> target.1 == DefaultFileName(url)
  {
    var name := if outName.Some? then outName.value else DefaultFileName(url);
    var dir := if outDir.Some? then outDir.value else tempDir;
    (dir, name)
  }

  /** `url` is a directory part ending in `/` (or empty), then `name`, then
      a query part that starts at the first `?` (or is empty). */
  predicate SplitsAs(url: string, dir: string, name: string, query: string) {
    && url == dir + name + query
    && (dir == [] || dir[|dir| - 1] == '/')
    && '?' !in dir && '?' !in name && '/' !in name
    && (query == [] || query[0] == '?')
  }

  /** Every URL splits around its default file name in that way. */
  lemma DefaultFileNameDecomposition(url: string)
    ensures exists dir, query :: SplitsAs(url, dir, DefaultFileName(url), query)
  {
    var root := BeforeFirst(url, '?');
    var name := DefaultFileName(url);
    var query := RootAndQuery(url);
    var dir := DirAndName(root);
    assert url == dir + name + query;
    NotInParts(dir, name, '?');
    assert SplitsAs(url, dir, name, query);
  }

  /** `url` is the part before its first `?` followed by a query that is empty
      or starts with `?`. */
  lemma RootAndQuery(url: string) returns (query: string)
    ensures url == BeforeFirst(url, '?') + query
    ensures query == [] || query[0] == '?'
  {
    var root := BeforeFirst(url, '?');
    query := url[|root|..];
    assert url == url[..|root|] + url[|root|..];
  }

  /** `root` is a directory part, empty or ending in `/`, followed by the text
      after its last `/`. */
  lemma DirAndName(root: string) returns (dir: string)
    ensures root == dir + AfterLast(root, '/')
    ensures dir == [] || dir[|dir| - 1] == '/'
  {
    var name := AfterLast(root, '/');
    dir := root[..|root| - |name|];
    assert root == root[..|root| - |name|] + root[|root| - |name|..];
  }

  lemma NotInParts(a: string, b: string, c: char)
    requires c !in a + b
    ensures c !in a && c !in b
  {
  }

  /** `BeforeFirst` stops at the first separator. */
  lemma {:induction false} BeforeFirstAtSeparator(head: string, tail: string, c: char)
    requires c !in head
    ensures BeforeFirst(head + [c] + tail, c) == head
  {
    if head != [] {
      assert (head + [c] + tail)[1..] == head[1..] + [c] + tail;
      BeforeFirstAtSeparator(head[1..], tail, c);
    }
  }

  /** `AfterLast` stops at the last separator. */
  lemma {:induction false} AfterLastAtSeparator(head: string, tail: string, c: char)
    requires c !in tail
    ensures AfterLast(head + [c] + tail, c) == tail
  {
    if tail != [] {
      var s := head + [c] + tail;
      assert s[..|s| - 1] == head + [c] + tail[..|tail| - 1];
      AfterLastAtSeparator(head, tail[..|tail| - 1], c);
    }
  }
}
