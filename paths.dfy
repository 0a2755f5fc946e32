/** Python's os.path.dirname for POSIX paths. */
module PosixPath {

  /** p.rfind("/") + 1: the length of the part of p up to and including its last slash. */
  function HeadLength(p: string): (n: nat)
    ensures n <= |p|
    ensures n == 0 || p[n - 1] == '/'
    ensures '/' !in p[n..]
    decreases |p|
  {
    if p == [] then 0
    else if p[|p| - 1] == '/' then |p|
    else
      var n := HeadLength(p[..|p| - 1]);
      assert p[n..] == p[..|p| - 1][n..] + [p[|p| - 1]];
      n
  }

  /** s.rstrip("/"). */
  function StripSlashes(s: string): (r: string)
    ensures r <= s
    ensures r == [] || r[|r| - 1] != '/'
    ensures forall i :: |r| <= i < |s| ==> s[i] == '/'
    decreases |s|
  {
    if s != [] && s[|s| - 1] == '/' then StripSlashes(s[..|s| - 1]) else s
  }

  predicate AllSlashes(s: string)
  {
    forall i :: 0 <= i < |s| ==> s[i] == '/'
  }

  /**
   * os.path.dirname(p): everything before the last slash, with the trailing slashes removed
   * unless the head consists of slashes only.
   */
  function Dirname(p: string): (d: string)
    ensures d <= p[..HeadLength(p)]
    ensures forall i :: |d| <= i < HeadLength(p) ==> p[i] == '/'
    ensures d == [] || d[|d| - 1] != '/' || AllSlashes(d)
    ensures AllSlashes(p[..HeadLength(p)]) ==> d == p[..HeadLength(p)]
  {
    var head := p[..HeadLength(p)];
    if head != [] && !AllSlashes(head) then StripSlashes(head) else head
  }

  /** A path without a slash, such as a bare file name, has the empty string as its directory. */
  lemma DirnameOfBareName(p: string)
    requires '/' !in p
    ensures Dirname(p) == ""
  {
    assert forall i :: 0 <= i < |p| ==> p[i] != '/';
  }

  /** The directory of a path is a prefix of it, and is empty only when the path has no slash. */
  lemma DirnameIsPrefix(p: string)
    ensures Dirname(p) <= p
    ensures Dirname(p) == "" <==> '/' !in p
  {
    var n := HeadLength(p);
    if '/' in p {
      var k :| 0 <= k < |p| && p[k] == '/';
      assert p[0..][k] == '/';
    } else {
      DirnameOfBareName(p);
    }
  }
}
