/**
 * The two `os.path` operations the copy script applies to object keys, as
 * Python's `posixpath` defines them for '/'-separated paths.
 */
module PosixPath {

  const Sep: char := '/'

  /** `os.path.basename(p)`: the text after the last '/' of `p`. */
  function Basename(p: string): (r: string)
    ensures Sep !in r
    ensures |r| <= |p|
  {
    if |p| == 0 || p[|p| - 1] == Sep then ""
    else Basename(p[..|p| - 1]) + [p[|p| - 1]]
  }

  /**
   * The basename is the longest suffix of `p` without a separator: it ends
   * `p`, and either it is all of `p` or a '/' stands right before it.
   */
  lemma {:induction false} BasenameIsLastComponent(p: string)
    ensures var r := Basename(p);
      && r == p[|p| - |r|..]
      && (|r| < |p| ==> p[|p| - |r| - 1] == Sep)
  {
    if |p| > 0 && p[|p| - 1] != Sep {
      var init := p[..|p| - 1];
      BasenameIsLastComponent(init);
      var r := Basename(p);
      assert r == Basename(init) + [p[|p| - 1]];
      assert init[|init| - |Basename(init)|..] + [p[|p| - 1]] == p[|p| - |r|..];
    }
  }

  /** A key without any '/' is its own basename. */
  lemma BasenameOfPlainName(p: string)
    requires Sep !in p
    ensures Basename(p) == p
  {
    BasenameIsLastComponent(p);
  }

  /**
   * `os.path.join(a, b)`: a component that starts with '/' replaces what is
   * before it; otherwise the two are concatenated, with one '/' added between
   * them unless `a` is empty or already ends in '/'.  A trailing '/' on `a` is
   * kept as it is, so nothing is normalised.
   */
  function Join(a: string, b: string): (r: string)
    ensures |b| > 0 && b[0] == Sep ==> r == b
    ensures !(|b| > 0 && b[0] == Sep) ==>
      && |a| + |b| <= |r| <= |a| + |b| + 1
      && r[..|a|] == a
      && r[|r| - |b|..] == b
      && (|r| == |a| + |b| + 1 <==> |a| > 0 && a[|a| - 1] != Sep)
      && (|r| == |a| + |b| + 1 ==> r[|a|] == Sep)
  {
    if |b| > 0 && b[0] == Sep then b
    else if |a| == 0 || a[|a| - 1] == Sep then a + b
    else a + [Sep] + b
  }

  /** Text placed after a directory prefix ending in '/' keeps its own basename. */
  lemma {:induction false} BasenameAfterDirectory(dir: string, b: string)
    requires |dir| == 0 || dir[|dir| - 1] == Sep
    ensures Basename(dir + b) == Basename(b)
  {
    var p := dir + b;
    if |b| == 0 {
      assert p == dir;
    } else if b[|b| - 1] == Sep {
      assert p[|p| - 1] == Sep;
    } else {
      var b' := b[..|b| - 1];
      assert p[..|p| - 1] == dir + b';
      assert p[|p| - 1] == b[|b| - 1];
      BasenameAfterDirectory(dir, b');
      calc {
        Basename(p);
        Basename(dir + b') + [b[|b| - 1]];
        Basename(b') + [b[|b| - 1]];
        Basename(b);
      }
    }
  }

  /** Joining a name onto any directory keeps the name's basename. */
  lemma JoinKeepsBasename(a: string, b: string)
    ensures Basename(Join(a, b)) == Basename(b)
  {
    if |b| == 0 {
      var j := Join(a, b);
      assert |j| == 0 || j[|j| - 1] == Sep;
    } else if b[0] != Sep {
      if |a| == 0 || a[|a| - 1] == Sep {
        BasenameAfterDirectory(a, b);
      } else {
        BasenameAfterDirectory(a + [Sep], b);
      }
    }
  }
}
