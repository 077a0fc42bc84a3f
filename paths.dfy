/**
 * POSIX path helpers the program relies on: `os.path.join` of two parts,
 * `os.path.basename`, `str.lower` and the JPEG file-name test.
 */
module Paths {

  type Path = string

  /** One entry name of a directory listing. */
  type Name = string

  /** `str.lower` on ASCII letters; every other character is kept. */
  function LowerChar(c: char): char {
    if 'A' <= c <= 'Z' then (c as int - 'A' as int + 'a' as int) as char else c
  }

  function Lower(s: string): (r: string)
    ensures |r| == |s|
    ensures forall i :: 0 <= i < |s| ==> r[i] == LowerChar(s[i])
  {
    if s == [] then [] else [LowerChar(s[0])] + Lower(s[1..])
  }

  predicate EndsWith(s: string, suffix: string) {
    |suffix| <= |s| && s[|s| - |suffix|..] == suffix
  }

  /** The name test of runner and resolver: `.jpg` or `.jpeg`, in any letter case. */
  predicate IsJpegName(p: Path) {
    EndsWith(Lower(p), ".jpg") || EndsWith(Lower(p), ".jpeg")
  }

  /**
   * `os.path.basename`: what follows the last slash. The result is the
   * longest slash-free suffix of the path.
   */
  function Basename(p: Path): (r: string)
    ensures '/' !in r
    ensures EndsWith(p, r)
    ensures r == p || p[|p| - |r| - 1] == '/'
  {
    if p == [] || p[|p| - 1] == '/' then []
    else
      var init := p[..|p| - 1];
      var b := Basename(init);
      var r := b + [p[|p| - 1]];
      assert p == init + [p[|p| - 1]];
      assert init[|init| - |b|..] == b;
      assert p[|p| - |r|..] == init[|init| - |b|..] + [p[|p| - 1]];
      assert b != init ==> p[|p| - |r| - 1] == init[|init| - |b| - 1];
      r
  }

  /** `os.path.join(a, b)` for two parts. */
  function Join(a: Path, b: Name): Path {
    if |b| > 0 && b[0] == '/' then b
    else if a == [] || a[|a| - 1] == '/' then a + b
    else a + "/" + b
  }

  /** Listing names never contain a slash, and then joining them onto one directory cannot collide. */
  lemma JoinInjective(dir: Path, n1: Name, n2: Name)
    requires '/' !in n1 && '/' !in n2
    requires Join(dir, n1) == Join(dir, n2)
    ensures n1 == n2
  {
    var head := if dir == [] || dir[|dir| - 1] == '/' then dir else dir + "/";
    assert |n1| > 0 ==> n1[0] != '/';
    assert |n2| > 0 ==> n2[0] != '/';
    assert Join(dir, n1) == head + n1 && Join(dir, n2) == head + n2;
    assert n1 == (head + n1)[|head|..];
    assert n2 == (head + n2)[|head|..];
  }
}
