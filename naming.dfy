/**
 * The names the script builds from strings: the date-folder name taken from a
 * footage sub-directory path, the render target directory under the proxy
 * root, and the timeline name that carries the counter value.
 */
module Naming {
  import opened Results
  import opened Strings

  /** `path.split('/')[-1]`: the name given to the media-pool folder of one footage sub-directory. */
  function DateFolderName(path: string): (name: string)
    ensures '/' !in name
  {
    SplitPiecesLackSeparator(path, '/');
    Last(Split(path, '/'))
  }

  /**
   * The date-folder name is exactly the text after the last '/': a suffix of
   * the path that is the whole path or is preceded by '/'. In particular it is
   * the whole path when the path holds no '/', and empty when the path ends in '/'.
   */
  lemma DateFolderNameIsLastSegment(path: string)
    ensures var name := DateFolderName(path);
      |name| <= |path| && name == path[|path| - |name|..] &&
      (|name| < |path| ==> path[|path| - |name| - 1] == '/')
    ensures '/' !in path ==> DateFolderName(path) == path
    ensures |path| > 0 && path[|path| - 1] == '/' ==> DateFolderName(path) == ""
  {
    LastPieceIsSuffix(path, '/');
    if '/' !in path {
      SplitWithoutSeparator(path, '/');
    }
  }

  /**
   * `os.path.join(a, b)` with two arguments, as POSIX Python computes it: an
   * absolute `b` replaces `a`; otherwise `b` is appended, with a '/' in
   * between unless `a` is empty or already ends in '/'.
   */
  function JoinPath(a: string, b: string): string
  {
    if |b| > 0 && b[0] == '/' then b
    else if a == [] || a[|a| - 1] == '/' then a + b
    else a + "/" + b
  }

  /**
   * Joining a '/'-free name under a root keeps the root as the leading part,
   * and the name is then the last segment of the joined path.
   */
  lemma JoinPathLastSegment(root: string, name: string)
    requires '/' !in name
    ensures var p := JoinPath(root, name);
      |root| <= |p| && p[..|root|] == root && DateFolderName(p) == name
  {
    var p := JoinPath(root, name);
    if root == [] {
      SplitWithoutSeparator(name, '/');
    } else if root[|root| - 1] == '/' {
      var front := root[..|root| - 1];
      assert p == front + ['/'] + name;
      LastPieceAfterSeparator(front, '/', name);
    } else {
      assert p == root + ['/'] + name;
      LastPieceAfterSeparator(root, '/', name);
    }
  }

  /** The render target directory of every job for one date folder (line 71). */
  function TargetDir(proxyRoot: string, datePath: string): (dir: string)
    ensures DateFolderName(dir) == DateFolderName(datePath)
    ensures |proxyRoot| <= |dir| && dir[..|proxyRoot|] == proxyRoot
  {
    JoinPathLastSegment(proxyRoot, DateFolderName(datePath));
    JoinPath(proxyRoot, DateFolderName(datePath))
  }

  const TimelinePrefix: string := "Video Resolution "
  const CounterMark: string := "   #"

  /** `"Video Resolution " + name + "   #" + str(n)` (line 56). */
  function TimelineName(resolution: string, n: nat): string
  {
    TimelinePrefix + resolution + CounterMark + NatToString(n)
  }

  /** Reads the counter value back from a timeline name: the number after its last '#'. */
  function CounterOf(timelineName: string): Option<nat>
  {
    ParseNat(Last(Split(timelineName, '#')))
  }

  /** The counter value can always be recovered from the timeline name, whatever the folder name holds. */
  lemma CounterOfTimelineName(resolution: string, n: nat)
    ensures CounterOf(TimelineName(resolution, n)) == Some(n)
  {
    var digits := NatToString(n);
    assert '#' !in digits;
    var front := TimelinePrefix + resolution + "   ";
    assert TimelineName(resolution, n) == front + ['#'] + digits;
    LastPieceAfterSeparator(front, '#', digits);
    ParseNatToString(n);
  }

  /** Timelines made with different counter values never share a name. */
  lemma TimelineNamesDistinct(r1: string, n1: nat, r2: string, n2: nat)
    requires n1 != n2
    ensures TimelineName(r1, n1) != TimelineName(r2, n2)
  {
    CounterOfTimelineName(r1, n1);
    CounterOfTimelineName(r2, n2);
  }
}
