/**
 * The two POSIX path helpers the copy action uses: `os.path.basename` and
 * `os.path.join` on two components, with the behaviour of Python's posixpath.
 */
module Paths {

  predicate EndsWithSlash(p: string)
  {
    |p| > 0 && p[|p| - 1] == '/'
  }

  /** The part of `p` after its last '/'. */
  function Basename(p: string): string
    decreases |p|
  {
    if p == [] then []
    else if p[|p| - 1] == '/' then []
    else Basename(p[..|p| - 1]) + [p[|p| - 1]]
  }

  /** The basename is a suffix of `p`, free of '/', that starts at the beginning
      of `p` or right after a '/'. */
  lemma {:induction false} BasenameShape(p: string)
    ensures var b := Basename(p);
      '/' !in b && |b| <= |p| && b == p[|p| - |b|..] &&
      (|b| < |p| ==> p[|p| - |b| - 1] == '/')
    decreases |p|
  {
    if p != [] && p[|p| - 1] != '/' {
      var init := p[..|p| - 1];
      BasenameShape(init);
      var b := Basename(init);
      assert p == init + [p[|p| - 1]];
      assert init[|init| - |b|..] + [p[|p| - 1]] == p[|p| - |b| - 1..];
    }
  }

  /** `os.path.join(a, b)`: an absolute `b` replaces `a`; otherwise `b` is appended,
      with a '/' in between unless `a` is empty or already ends with one. */
  function Join(a: string, b: string): string
  {
    if |b| > 0 && b[0] == '/' then b
    else if a == [] || EndsWithSlash(a) then a + b
    else a + "/" + b
  }

  /** A name without '/' placed after a directory part keeps that name as its basename. */
  lemma {:induction false} BasenameAfterSlash(dir: string, name: string)
    requires '/' !in name
    requires dir == [] || EndsWithSlash(dir)
    ensures Basename(dir + name) == name
    decreases |name|
  {
    if name == [] {
      assert dir + name == dir;
    } else {
      var init := name[..|name| - 1];
      var whole := dir + name;
      assert whole[..|whole| - 1] == dir + init;
      assert whole[|whole| - 1] == name[|name| - 1];
      BasenameAfterSlash(dir, init);
    }
  }

  /** Joining a directory with the basename of some path `p` yields the directory
      followed by that basename, and the result's basename is again `p`'s basename. */
  lemma JoinBasename(dir: string, p: string)
    ensures var r := Join(dir, Basename(p));
      r == (if dir == [] || EndsWithSlash(dir) then dir + Basename(p) else dir + "/" + Basename(p))
    ensures Basename(p) != [] ==> Basename(Join(dir, Basename(p))) == Basename(p)
  {
    var b := Basename(p);
    BasenameShape(p);
    assert |b| > 0 ==> b[0] != '/';
    if b != [] {
      if dir == [] || EndsWithSlash(dir) {
        BasenameAfterSlash(dir, b);
      } else {
        BasenameAfterSlash(dir + "/", b);
        assert dir + "/" + b == (dir + "/") + b;
      }
    }
  }
}
