/**
 * `path.extname` of Node's POSIX path module: the part of the last path
 * segment from its last `.` on, where a segment that starts with its only
 * dot (`.png`), a segment with no dot, and the segment `..` have none.
 * Trailing `/` characters are ignored.
 */
module NodePath {
  import opened Wrappers

  function TrimTrailingSlashes(path: string): (trimmed: string)
    ensures trimmed <= path
    ensures trimmed == [] || trimmed[|trimmed| - 1] != '/'
    ensures forall i :: |trimmed| <= i < |path| ==> path[i] == '/'
    decreases |path|
  {
    if path != [] && path[|path| - 1] == '/' then TrimTrailingSlashes(path[..|path| - 1]) else path
  }

  /** The final segment of a path: everything after its last `/`. */
  function Basename(path: string): (base: string)
    ensures |base| <= |path| && base == path[|path| - |base|..]
    ensures '/' !in base
    ensures |base| < |path| ==> path[|path| - |base| - 1] == '/'
    decreases |path|
  {
    if path == [] || path[|path| - 1] == '/' then []
    else
      var init := path[..|path| - 1];
      var base := Basename(init);
      assert path == init + [path[|path| - 1]];
      base + [path[|path| - 1]]
  }

  /** The position of the last occurrence of `c` in `s`, if any. */
  function LastIndex(s: string, c: char): (r: Option<nat>)
    ensures r.None? <==> c !in s
    ensures r.Some? ==> r.value < |s| && s[r.value] == c && c !in s[r.value + 1..]
    decreases |s|
  {
    if s == [] then None
    else if s[|s| - 1] == c then Some(|s| - 1)
    else
      var r := LastIndex(s[..|s| - 1], c);
      assert s == s[..|s| - 1] + [s[|s| - 1]];
      r
  }

  function Extname(path: string): (ext: string)
    ensures ext == [] || (ext[0] == '.' && '.' !in ext[1..] && '/' !in ext)
    ensures var trimmed := TrimTrailingSlashes(path);
      |ext| <= |trimmed| && ext == trimmed[|trimmed| - |ext|..]
  {
    var base := Basename(TrimTrailingSlashes(path));
    match LastIndex(base, '.')
    case None => []
    case Some(i) => if i == 0 || base == ".." then [] else base[i..]
  }

  /** Appending a segment that holds no `/` to a directory makes it the basename. */
  lemma {:induction false} BasenameAfterDir(dir: string, name: string)
    requires dir == [] || dir[|dir| - 1] == '/'
    requires '/' !in name
    ensures Basename(dir + name) == name
    decreases |name|
  {
    if name != [] {
      var init := name[..|name| - 1];
      assert (dir + name)[..|dir + name| - 1] == dir + init;
      BasenameAfterDir(dir, init);
      assert init + [name[|name| - 1]] == name;
    }
  }

  /** The last `c` is the one after which no `c` follows. */
  lemma {:induction false} LastIndexBefore(prefix: string, c: char, suffix: string)
    requires c !in suffix
    ensures LastIndex(prefix + [c] + suffix, c) == Some(|prefix|)
    decreases |suffix|
  {
    var s := prefix + [c] + suffix;
    if suffix != [] {
      var init := suffix[..|suffix| - 1];
      assert s[..|s| - 1] == prefix + [c] + init;
      LastIndexBefore(prefix, c, init);
    }
  }

  lemma ExtnameFromParts(path: string, base: string, i: nat)
    requires TrimTrailingSlashes(path) == path && Basename(path) == base
    requires LastIndex(base, '.') == Some(i) && i != 0 && |base| >= 3
    ensures Extname(path) == base[i..]
  {
  }

  /** The last dot of `stem.ext` is the one that starts `.ext`. */
  lemma LastDotOf(stem: string, ext: string)
    requires |ext| >= 2 && ext[0] == '.' && '.' !in ext[1..]
    ensures LastIndex(stem + ext, '.') == Some(|stem|)
  {
    assert stem + ['.'] + ext[1..] == stem + ext;
    LastIndexBefore(stem, '.', ext[1..]);
  }

  lemma NoTrailingSlash(path: string)
    requires path != [] && path[|path| - 1] != '/'
    ensures TrimTrailingSlashes(path) == path
  {
  }

  /** A file `stem.ext` in any directory has extension `.ext`, whatever the
    * non-empty stem holds (further dots included). */
  lemma ExtnameOf(dir: string, stem: string, ext: string)
    requires dir == [] || dir[|dir| - 1] == '/'
    requires stem != [] && '/' !in stem
    requires |ext| >= 2 && ext[0] == '.' && '.' !in ext[1..] && '/' !in ext
    ensures Extname(dir + (stem + ext)) == ext
  {
    var name := stem + ext;
    var path := dir + name;
    assert TrimTrailingSlashes(path) == path by {
      assert path[|path| - 1] == ext[|ext| - 1];
      NoTrailingSlash(path);
    }
    assert Basename(path) == name by {
      assert '/' !in name;
      BasenameAfterDir(dir, name);
    }
    assert LastIndex(name, '.') == Some(|stem|) by {
      LastDotOf(stem, ext);
    }
    ExtnameFromParts(path, name, |stem|);
    assert name[|stem|..] == ext;
  }
}
