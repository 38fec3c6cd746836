/** Cleaned absolute paths as lists of components, and the containment test made on their text. */
module Paths {
  import opened Text

  type Path = seq<string>

  predicate CleanName(c: string) { c != "" && '/' !in c && c != "." && c != ".." }

  predicate Clean(p: Path) { forall i :: 0 <= i < |p| ==> CleanName(p[i]) }

  function CommonLength(p: Path, q: Path): (n: nat)
    ensures n <= |p| && n <= |q| && p[..n] == q[..n]
    ensures n < |p| && n < |q| ==> p[n] != q[n]
  {
    if p == [] || q == [] || p[0] != q[0] then 0
    else
      var n := CommonLength(p[1..], q[1..]);
      assert p[..n + 1] == [p[0]] + p[1..][..n] && q[..n + 1] == [q[0]] + q[1..][..n];
      n + 1
  }

  /** How to get from base to target: up to the common directory, then down. */
  function Rel(base: Path, target: Path): Path {
    var n := CommonLength(base, target);
    seq(|base| - n, _ => "..") + target[n..]
  }

  function PathText(p: Path): string { if p == [] then "." else Join(p, '/') }

  /** The relative path neither begins with two dots nor with a slash. */
  predicate IsSubDir(src: Path, dstDir: Path) {
    var relative := PathText(Rel(dstDir, src));
    !(".." <= relative) && !("/" <= relative)
  }

  lemma {:induction false} JoinBegins(p: Path)
    requires p != []
    ensures p[0] <= Join(p, '/')
    ensures |p| > 1 ==> p[0] + ['/'] <= Join(p, '/')
    ensures |p| == 1 ==> Join(p, '/') == p[0]
  {
    if |p| > 2 {
      JoinBegins(p[..|p| - 1]);
    } else if |p| == 2 {
      assert p[..1][0] == p[0];
    }
  }

  /** Whether the text of a path begins with two dots is decided by its first component. */
  lemma DotsAreFirst(p: Path)
    requires p != [] && '/' !in p[0]
    ensures ".." <= Join(p, '/') <==> ".." <= p[0]
  {
    JoinBegins(p);
    if |p| > 1 {
      var t := Join(p, '/');
      assert t[|p[0]|] == '/' by {
        assert (p[0] + ['/'])[|p[0]|] == '/';
      }
      assert forall i :: 0 <= i < |p[0]| ==> t[i] == p[0][i];
    }
  }

  /** The relative path climbs unless the directory is a prefix; then it is what follows it. */
  lemma RelIs(base: Path, target: Path)
    ensures base <= target ==> Rel(base, target) == target[|base|..]
    ensures !(base <= target) ==> Rel(base, target) != [] && Rel(base, target)[0] == ".."
  {
    var n := CommonLength(base, target);
    if base <= target {
      assert n == |base|;
    }
  }

  lemma InsideText(r: Path)
    requires Clean(r)
    ensures !("/" <= PathText(r))
    ensures ".." <= PathText(r) <==> r != [] && ".." <= r[0]
  {
    if r != [] {
      assert CleanName(r[0]);
      DotsAreFirst(r);
      JoinBegins(r);
      assert PathText(r)[0] == r[0][0];
    } else {
      assert PathText(r)[0] == '.';
    }
  }

  /** The test succeeds exactly below the directory, names beginning with two dots excepted. */
  lemma IsSubDirIff(src: Path, dstDir: Path)
    requires Clean(src) && Clean(dstDir)
    ensures IsSubDir(src, dstDir) <==>
            dstDir <= src && (src == dstDir || !(".." <= src[|dstDir|]))
  {
    hide Clean, PathText, Rel;
    RelIs(dstDir, src);
    if dstDir <= src {
      CleanRest(src, |dstDir|);
      InsideText(src[|dstDir|..]);
    } else {
      ClimbingText(Rel(dstDir, src));
    }
  }

  lemma CleanRest(p: Path, n: nat)
    requires Clean(p) && n <= |p|
    ensures Clean(p[n..])
  {
  }

  lemma ClimbingText(r: Path)
    requires r != [] && r[0] == ".."
    ensures ".." <= PathText(r)
  {
    DotsAreFirst(r);
  }
}
