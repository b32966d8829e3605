/** The two `os.path` functions the import handlers and the launcher use, on POSIX paths. */
module Paths {
  import opened Strings

  /** `os.path.basename(path)`: the text after the last slash. */
  function Basename(path: string): string {
    LastSegment(path, '/')
  }

  /** `os.path.join(a, b)` for two components on POSIX. */
  function PathJoin(a: string, b: string): string {
    if StartsWith(b, "/") then b
    else if a == "" || EndsWith(a, "/") then a + b
    else a + "/" + b
  }

  /** A name without a leading slash is placed under the prefix, separated by exactly one slash. */
  lemma PathJoinShape(a: string, b: string)
    requires !StartsWith(b, "/")
    ensures EndsWith(PathJoin(a, b), b)
    ensures StartsWith(PathJoin(a, b), a)
    ensures a != "" && !EndsWith(a, "/") ==> PathJoin(a, b) == a + "/" + b
    ensures |PathJoin(a, b)| == |a| + |b| + (if a == "" || EndsWith(a, "/") then 0 else 1)
  {
    var j := PathJoin(a, b);
    if a == "" || EndsWith(a, "/") {
      assert j == a + b;
      assert j[|j| - |b|..] == b && j[..|a|] == a;
    } else {
      assert j == (a + "/") + b;
      assert j[|j| - |b|..] == b && j[..|a|] == a;
    }
  }

  /** Joining a relative name under a prefix keeps the prefix in front and the name's suffixes at the end. */
  lemma PathJoinKeepsSuffix(a: string, n: string, t: string)
    requires !StartsWith(n, "/") && EndsWith(n, t)
    ensures StartsWith(PathJoin(a, n), a) && EndsWith(PathJoin(a, n), t)
  {
    PathJoinShape(a, n);
    if a == "" || EndsWith(a, "/") {
      EndsWithAppended(a, n, t);
    } else {
      assert PathJoin(a, n) == (a + "/") + n;
      EndsWithAppended(a + "/", n, t);
    }
  }
}
