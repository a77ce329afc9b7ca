/**
 * The order Python's `sorted` puts paths in. Strings compare
 * lexicographically by code point; a `PurePosixPath` compares the list of
 * its components lexicographically, each component as a string.
 */
module PathOrder {

  import opened Names

  /** Python's `<` on `str`. */
  predicate StrLt(a: string, b: string) {
    if a == [] then b != []
    else if b == [] then false
    else a[0] < b[0] || (a[0] == b[0] && StrLt(a[1..], b[1..]))
  }

  lemma {:induction false} StrLtIrreflexive(a: string)
    ensures !StrLt(a, a)
  {
    if a != [] {
      StrLtIrreflexive(a[1..]);
    }
  }

  lemma {:induction false} StrLtTransitive(a: string, b: string, c: string)
    requires StrLt(a, b) && StrLt(b, c)
    ensures StrLt(a, c)
  {
    if a != [] && b != [] && c != [] && a[0] == b[0] == c[0] {
      StrLtTransitive(a[1..], b[1..], c[1..]);
    }
  }

  lemma {:induction false} StrLtTotal(a: string, b: string)
    requires a != b
    ensures StrLt(a, b) || StrLt(b, a)
  {
    if a != [] && b != [] && a[0] == b[0] {
      assert a == [a[0]] + a[1..] && b == [b[0]] + b[1..];
      StrLtTotal(a[1..], b[1..]);
    }
  }

  /** Python's `<` on `PurePosixPath`: lexicographic on the components. */
  predicate PathLt(p: Path, q: Path) {
    if p == [] then q != []
    else if q == [] then false
    else StrLt(p[0], q[0]) || (p[0] == q[0] && PathLt(p[1..], q[1..]))
  }

  lemma {:induction false} PathLtIrreflexive(p: Path)
    ensures !PathLt(p, p)
  {
    if p != [] {
      StrLtIrreflexive(p[0]);
      PathLtIrreflexive(p[1..]);
    }
  }

  lemma {:induction false} PathLtTransitive(p: Path, q: Path, r: Path)
    requires PathLt(p, q) && PathLt(q, r)
    ensures PathLt(p, r)
  {
    if p != [] && q != [] && r != [] {
      if StrLt(p[0], q[0]) && StrLt(q[0], r[0]) {
        StrLtTransitive(p[0], q[0], r[0]);
      } else if p[0] == q[0] == r[0] {
        PathLtTransitive(p[1..], q[1..], r[1..]);
      }
    }
  }

  lemma {:induction false} PathLtTotal(p: Path, q: Path)
    requires p != q
    ensures PathLt(p, q) || PathLt(q, p)
  {
    if p != [] && q != [] {
      if p[0] == q[0] {
        assert p == [p[0]] + p[1..] && q == [q[0]] + q[1..];
        PathLtTotal(p[1..], q[1..]);
      } else {
        StrLtTotal(p[0], q[0]);
      }
    }
  }

  lemma PathLtAsymmetric(p: Path, q: Path)
    requires PathLt(p, q)
    ensures !PathLt(q, p)
  {
    if PathLt(q, p) {
      PathLtTransitive(p, q, p);
      PathLtIrreflexive(p);
    }
  }

  /** Ascending without repeats: what `sorted` returns for a set of distinct paths. */
  predicate StrictlySorted(s: seq<Path>) {
    forall i, j :: 0 <= i < j < |s| ==> PathLt(s[i], s[j])
  }

  /** Inserts `x` into a sorted list at its place. */
  function Insert(s: seq<Path>, x: Path): (r: seq<Path>)
    requires StrictlySorted(s) && x !in s
    ensures StrictlySorted(r)
    ensures |r| == |s| + 1
    ensures forall y :: y in r <==> y in s || y == x
  {
    if s == [] then [x]
    else if PathLt(x, s[0]) then
      assert forall j :: 0 <= j < |s| ==> PathLt(x, s[j]) by {
        forall j | 0 < j < |s| ensures PathLt(x, s[j]) {
          PathLtTransitive(x, s[0], s[j]);
        }
      }
      [x] + s
    else
      PathLtTotal(x, s[0]);
      var rest := Insert(s[1..], x);
      assert forall y :: y in rest ==> PathLt(s[0], y) by {
        forall y | y in rest ensures PathLt(s[0], y) {
          if y != x {
            var j :| 1 <= j < |s| && s[j] == y;
          }
        }
      }
      assert s == [s[0]] + s[1..];
      [s[0]] + rest
  }

  /** `sorted(paths)` for a set of distinct paths. */
  method SortPaths(paths: set<Path>) returns (r: seq<Path>)
    ensures StrictlySorted(r)
    ensures forall p :: p in r <==> p in paths
  {
    r := [];
    var rest := paths;
    while rest != {}
      invariant StrictlySorted(r)
      invariant rest <= paths
      invariant forall p :: p in r <==> p in paths && p !in rest
      decreases |rest|
    {
      var x :| x in rest;
      r := Insert(r, x);
      rest := rest - {x};
    }
  }

  /** A set of paths has exactly one sorted listing. */
  lemma {:induction false} SortedListingUnique(s: seq<Path>, t: seq<Path>)
    requires StrictlySorted(s) && StrictlySorted(t)
    requires forall p :: p in s <==> p in t
    ensures s == t
  {
    if s == [] {
      if t != [] {
        HeadIsMember(t);
      }
    } else {
      assert s[0] in s;
      assert t != [] && t[0] in t;
      assert s[0] == t[0] by {
        var i :| 0 <= i < |s| && s[i] == t[0];
        var j :| 0 <= j < |t| && t[j] == s[0];
        if i != 0 && j != 0 {
          PathLtAsymmetric(s[0], t[0]);
        }
      }
      forall p ensures p in s[1..] <==> p in t[1..] {
        if p in s[1..] {
          var j :| 1 <= j < |s| && s[j] == p;
          if p == t[0] { PathLtIrreflexive(p); }
          assert p in t;
          var i :| 0 <= i < |t| && t[i] == p;
          assert t[1..][i - 1] == p;
        }
        if p in t[1..] {
          var j :| 1 <= j < |t| && t[j] == p;
          if p == s[0] { PathLtIrreflexive(p); }
          assert p in s;
          var i :| 0 <= i < |s| && s[i] == p;
          assert s[1..][i - 1] == p;
        }
      }
      SortedListingUnique(s[1..], t[1..]);
      assert s == [s[0]] + s[1..] && t == [t[0]] + t[1..];
    }
  }

  lemma HeadIsMember(t: seq<Path>)
    requires t != []
    ensures t[0] in t
  {
  }
}
