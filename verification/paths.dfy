/**
 * The part of Node's POSIX path module the converter uses, for paths and
 * object keys whose segments are separated by single '/' characters:
 * basename, dirname, extname, the name part of parse, and join of a
 * directory with one more segment.
 */
module Paths {
  import opened Wrappers
  import opened Text

  /** The last segment of `p`: everything after its last '/'. */
  function Basename(p: string): (base: string)
    ensures '/' !in base
    ensures EndsWith(p, base)
    ensures base != p ==> EndsWith(p, "/" + base)
  {
    match LastIndexOf(p, '/')
    case None => p
    case Some(i) =>
      assert p[i..] == "/" + p[i + 1..];
      p[i + 1..]
  }

  /** path.dirname: what precedes the last '/', "/" for a top-level path and "." when there is no '/'. */
  function Dirname(p: string): (dir: string)
    ensures dir != []
    ensures '/' !in p ==> dir == "."
    ensures LastIndexOf(p, '/') == Some(0) ==> dir == "/"
  {
    match LastIndexOf(p, '/')
    case None => "."
    case Some(i) => if i == 0 then "/" else p[..i]
  }

  /** A path with a '/' past its first character is its dirname, a '/' and its base name. */
  lemma DirnameBasename(p: string)
    requires '/' in p && Dirname(p) != "/"
    ensures p == Dirname(p) + "/" + Basename(p)
  {
    var i := LastIndexOf(p, '/').value;
    assert p == p[..i] + [p[i]] + p[i + 1..];
  }

  /**
   * path.extname: the last segment from its last '.' on, or "" when that
   * segment has no '.' after its first character or is "..".
   */
  function Extname(p: string): (ext: string)
    ensures ext == [] || (ext[0] == '.' && '.' !in ext[1..])
    ensures EndsWith(Basename(p), ext)
    ensures ext != [] ==> |ext| < |Basename(p)|
    ensures var base := Basename(p);
      ext == [] <==> |base| <= 1 || '.' !in base[1..] || base == ".."
  {
    var base := Basename(p);
    match LastIndexOf(base, '.')
    case None => ""
    case Some(d) =>
      if d == 0 || base == ".." then ""
      else
        SuffixFrom(base, d, '.');
        assert base[1..][d - 1] == '.';
        base[d..]
  }

  /** path.parse(p).name: the last segment without its extension. */
  function Stem(p: string): (name: string)
    ensures name + Extname(p) == Basename(p)
    ensures '/' !in name
  {
    var base := Basename(p);
    var ext := Extname(p);
    SplitBeforeSuffix(base, ext, '/');
    base[..|base| - |ext|]
  }

  /**
   * path.join(dir, segment) for a segment that is neither "." nor "..":
   * "." contributes nothing and a '/' already ending `dir` is not doubled.
   */
  function JoinUnder(dir: string, segment: string): (p: string)
  {
    if dir == "." then segment
    else if dir != [] && dir[|dir| - 1] == '/' then dir + segment
    else dir + "/" + segment
  }

  /** A joined path ends with the segment, and the segment is preceded by a '/' unless the directory is ".". */
  lemma JoinUnderEndsWith(dir: string, segment: string)
    ensures EndsWith(JoinUnder(dir, segment), segment)
    ensures dir != "." ==> EndsWith(JoinUnder(dir, segment), "/" + segment)
  {
    var p := JoinUnder(dir, segment);
    if dir != "." {
      assert p[|p| - |segment| - 1..] == "/" + segment;
    }
  }

  /** A path that is joined under a directory has that segment as its base name. */
  lemma BasenameJoinUnder(dir: string, segment: string)
    requires '/' !in segment
    ensures Basename(JoinUnder(dir, segment)) == segment
  {
    var p := JoinUnder(dir, segment);
    if dir != "." {
      var head := p[..|p| - |segment|];
      assert p == head + segment;
      assert head != [] && head[|head| - 1] == '/';
      assert LastIndexOf(p, '/') == Some(|head| - 1) by {
        assert p[|head| - 1] == '/';
        assert p[|head|..] == segment;
      }
    } else {
      assert LastIndexOf(p, '/').None?;
    }
  }

  /** A path joined under a directory that does not end in '/' has that directory as its dirname. */
  lemma DirnameJoinUnder(dir: string, segment: string)
    requires '/' !in segment
    requires dir != [] && dir != "." && dir[|dir| - 1] != '/'
    ensures Dirname(JoinUnder(dir, segment)) == dir
  {
    var p := JoinUnder(dir, segment);
    assert p == dir + ['/'] + segment;
    LastIndexOfAfter(dir, '/', segment);
    assert p[..|dir|] == dir;
  }

  /** Extension and name depend on the last segment alone. */
  lemma SameBasename(p: string, q: string)
    requires Basename(p) == Basename(q)
    ensures Extname(p) == Extname(q) && Stem(p) == Stem(q)
  {
  }

  /** Joining different segments under one directory gives different paths. */
  lemma JoinUnderInjective(dir: string, a: string, b: string)
    ensures JoinUnder(dir, a) == JoinUnder(dir, b) <==> a == b
  {
    var pa, pb := JoinUnder(dir, a), JoinUnder(dir, b);
    JoinUnderEndsWith(dir, a);
    JoinUnderEndsWith(dir, b);
    if pa == pb {
      assert |pa| - |a| == |pb| - |b|;
      assert pa[|pa| - |a|..] == a && pb[|pb| - |b|..] == b;
    }
  }
}
