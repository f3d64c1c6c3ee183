/**
 * The C string operations the file browser builds paths with. Strings are
 * NUL-free character sequences: the text of a C string up to its terminator.
 */
module Paths {

  /** `currentPath`, `newPath`, `chosenFile` and the stat path are `char[512]`. */
  const PATH_MAX := 511

  /**
   * `snprintf(buf, n + 1, "%s", s)`: the text that fits a buffer of `n + 1`
   * characters, which is `s` itself when it fits and its first `n` characters
   * otherwise.
   */
  function Truncate(s: string, n: nat): (r: string)
    ensures |r| <= n && r <= s
    ensures |s| <= n ==> r == s
    ensures |s| > n ==> |r| == n
  {
    if |s| <= n then s else s[..n]
  }

  /** `snprintf(buf, 512, "%s/%s", dir, name)`. */
  function Join(dir: string, name: string): (r: string)
    ensures |r| <= PATH_MAX && r <= dir + "/" + name
    ensures |dir| + 1 + |name| <= PATH_MAX ==> r == dir + "/" + name
  {
    Truncate(dir + "/" + name, PATH_MAX)
  }

  /** `strrchr(s, '/')`, as an index into `s`: the last slash, or -1 when there is none. */
  function LastSlash(s: string): (r: int)
    ensures -1 <= r < |s|
    ensures r >= 0 ==> s[r] == '/'
    ensures forall j :: r < j < |s| ==> s[j] != '/'
  {
    if s == [] then -1
    else if s[|s| - 1] == '/' then |s| - 1
    else LastSlash(s[..|s| - 1])
  }

  /** A path joined from `dir` and a slash-free `name` ends its directory part at the joining slash. */
  lemma LastSlashOfJoin(dir: string, name: string)
    requires forall j :: 0 <= j < |name| ==> name[j] != '/'
    requires |dir| + 1 + |name| <= PATH_MAX
    ensures LastSlash(Join(dir, name)) == |dir|
    ensures Join(dir, name)[..|dir|] == dir
  {
    var p := dir + "/" + name;
    assert p[|dir|] == '/';
    forall j | |dir| < j < |p|
      ensures p[j] != '/'
    {
      assert p[j] == name[j - |dir| - 1];
    }
  }
}
