/**
 * File-name helpers with the semantics of the Python library calls the
 * scripts use: `str.lower`, `str.startswith`/`endswith`, `PurePath.stem`
 * and `PurePath.suffix` (Python 3.8 to 3.13) and `os.path.splitext` on a
 * bare file name.
 */
module Names {

  /** A file name: one path component. */
  type Name = string

  /** A path, as the list of its components. */
  type Path = seq<string>

  predicate Distinct<T(==)>(s: seq<T>) {
    forall i, j :: 0 <= i < j < |s| ==> s[i] != s[j]
  }

  /** `str.lower()` on one character; only ASCII letters are folded. */
  function LowerChar(c: char): char {
    if 'A' <= c <= 'Z' then (c as int + 32) as char else c
  }

  /** `str.lower()`, restricted to ASCII letters. */
  function Lower(s: string): (r: string)
    ensures |r| == |s|
    ensures forall i :: 0 <= i < |s| ==> r[i] == LowerChar(s[i])
  {
    seq(|s|, i requires 0 <= i < |s| => LowerChar(s[i]))
  }

  /** Lower-casing twice is lower-casing once. */
  lemma LowerIdempotent(s: string)
    ensures Lower(Lower(s)) == Lower(s)
  {
  }

  predicate StartsWith(s: string, prefix: string) {
    |prefix| <= |s| && s[..|prefix|] == prefix
  }

  predicate EndsWith(s: string, suffix: string) {
    |suffix| <= |s| && s[|s| - |suffix|..] == suffix
  }

  /** `str.rfind(c)`: the index of the last `c`, or -1. */
  function RFind(s: string, c: char): (i: int)
    ensures -1 <= i < |s|
    ensures 0 <= i ==> s[i] == c
    ensures forall k :: i < k < |s| ==> s[k] != c
  {
    if s == [] then -1
    else if s[|s| - 1] == c then |s| - 1
    else RFind(s[..|s| - 1], c)
  }

  /**
   * `PurePath.suffix`: from the last dot to the end, provided that dot is
   * neither the first nor the last character; otherwise empty.
   */
  function Suffix(name: Name): (r: string)
    ensures r == "" || (2 <= |r| && r[0] == '.' && forall k :: 1 <= k < |r| ==> r[k] != '.')
    ensures EndsWith(name, r)
  {
    var i := RFind(name, '.');
    if 0 < i < |name| - 1 then name[i..] else ""
  }

  /**
   * The suffix is decided by the last dot: the tail from it when it is
   * neither the first nor the last character, and nothing otherwise.
   */
  lemma SuffixAtLastDot(name: Name, i: nat)
    requires i < |name| && name[i] == '.'
    requires forall k :: i < k < |name| ==> name[k] != '.'
    ensures 0 < i < |name| - 1 ==> Suffix(name) == name[i..]
    ensures i == 0 || i == |name| - 1 ==> Suffix(name) == ""
  {
    assert RFind(name, '.') == i;
  }

  /** `a.jpg` has suffix `.jpg`; `.bashrc` and `a.` have none; of `a.tar.gz` only `.gz` is the suffix. */
  lemma SuffixExamples()
    ensures Suffix("a.jpg") == ".jpg"
    ensures Suffix(".bashrc") == ""
    ensures Suffix("a.") == ""
    ensures Suffix("a.tar.gz") == ".gz"
  {
    SuffixAtLastDot("a.jpg", 1);
    SuffixAtLastDot(".bashrc", 0);
    SuffixAtLastDot("a.", 1);
    SuffixAtLastDot("a.tar.gz", 5);
  }

  /** A name without a dot has no suffix. */
  lemma SuffixWithoutDot(name: Name)
    requires forall k :: 0 <= k < |name| ==> name[k] != '.'
    ensures Suffix(name) == ""
  {
    assert RFind(name, '.') == -1;
  }

  /** `PurePath.stem`: the name without its suffix. */
  function Stem(name: Name): (r: string)
    ensures r + Suffix(name) == name
  {
    var i := RFind(name, '.');
    if 0 < i < |name| - 1 then name[..i] else name
  }

  predicate AllDots(s: string) {
    forall k :: 0 <= k < |s| ==> s[k] == '.'
  }

  /**
   * `os.path.splitext(name)[0]` for a bare file name: cut at the last dot
   * unless only dots come before it.
   */
  function SplitExtRoot(name: Name): (root: string)
    ensures StartsWith(name, root)
    ensures root == name || (name[|root|] == '.' && forall k :: |root| < k < |name| ==> name[k] != '.')
  {
    var d := RFind(name, '.');
    if 0 <= d && !AllDots(name[..d]) then name[..d] else name
  }

  /** A name whose lower-case form ends in `ext`, a dot followed by non-dots, is `SplitExtRoot` plus an extension of `ext`'s length. */
  lemma {:induction false} SplitExtRootDropsExtension(name: Name, ext: string)
    requires 2 <= |ext| && ext[0] == '.' && forall k :: 1 <= k < |ext| ==> ext[k] != '.'
    requires EndsWith(Lower(name), ext)
    requires !AllDots(name[..|name| - |ext|])
    ensures SplitExtRoot(name) == name[..|name| - |ext|]
  {
    var d := |name| - |ext|;
    var low := Lower(name);
    assert low[d] == ext[0] == '.';
    assert name[d] == '.' by {
      assert LowerChar(name[d]) == '.';
    }
    forall k | d < k < |name|
      ensures name[k] != '.'
    {
      assert low[k] == ext[k - d];
      assert LowerChar(name[k]) != '.';
    }
    assert RFind(name, '.') == d;
  }
}
