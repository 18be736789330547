/** Filesystem paths, as the importer builds and inspects them. */
module Paths {

  /** A path as its list of segments, outermost first; `[]` is the root. */
  type Path = seq<string>

  /** `os.path.basename`: the last segment, or "" for the root. */
  function Basename(p: Path): string {
    if p == [] then "" else p[|p| - 1]
  }

  /** The directory that contains a non-root path. */
  function Parent(p: Path): Path
    requires p != []
  {
    p[..|p| - 1]
  }

  /** A name that starts with the hidden-file marker `.`. */
  predicate IsHidden(name: string) {
    |name| > 0 && name[0] == '.'
  }

  /** `str.endswith`: `suffix` is the tail of `s`. */
  predicate EndsWith(s: string, suffix: string) {
    |suffix| <= |s| && s[|s| - |suffix|..] == suffix
  }

  /** The path written out as a string, segments separated by '/'. */
  function Render(p: Path): string {
    if p == [] then ""
    else if |p| == 1 then p[0]
    else Render(p[..|p| - 1]) + "/" + p[|p| - 1]
  }

  /** The path and all of its ancestors, the root included. */
  function Prefixes(p: Path): set<Path> {
    set k | 0 <= k <= |p| :: p[..k]
  }

  /** A suffix without '/' cannot reach across the last separator of a joined string. */
  lemma EndsWithAfterSeparator(head: string, last: string, suffix: string)
    requires '/' !in suffix
    ensures EndsWith(head + "/" + last, suffix) <==> EndsWith(last, suffix)
  {
    var s := head + "/" + last;
    if |suffix| <= |last| {
      assert s[|s| - |suffix|..] == last[|last| - |suffix|..];
    } else if |suffix| <= |s| {
      var start := |s| - |suffix|;
      assert start <= |head|;
      assert s[start..][|head| - start] == '/';
    }
  }
}
