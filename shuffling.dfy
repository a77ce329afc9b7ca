/**
 * `random.shuffle` as CPython implements it (used by
 * scripts/split_dataset.py, line 6): a swap loop driven by random draws.
 * The draws are a parameter: `pick(i)` is the value `randbelow(i + 1)`
 * returns in the round for index `i`.
 */
module Shuffling {

  import opened Names

  /** Every draw is one `randbelow(i + 1)` can return: `pick(i)` lies in `0..i`. */
  ghost predicate Draws(pick: nat -> nat) {
    forall i :: pick(i) <= i
  }

  /** `x[i], x[j] = x[j], x[i]`. */
  function Swap<T>(s: seq<T>, i: nat, j: nat): (r: seq<T>)
    requires i < |s| && j < |s|
    ensures |r| == |s|
  {
    seq(|s|, p requires 0 <= p < |s| => if p == i then s[j] else if p == j then s[i] else s[p])
  }

  /**
   * The list after the first `k` rounds of CPython's `random.shuffle`:
   * round `k` sets `i := |s| - k` and swaps `x[i]` with `x[pick(i)]`, where
   * `pick(i)` stands for `randbelow(i + 1)`.
   */
  function ShuffleSteps<T>(s: seq<T>, pick: nat -> nat, k: nat): (r: seq<T>)
    requires Draws(pick)
    requires k == 0 || k < |s|
    ensures |r| == |s|
    decreases k
  {
    if k == 0 then s
    else Swap(ShuffleSteps(s, pick, k - 1), |s| - k, pick(|s| - k))
  }

  /** The whole of `random.shuffle`: rounds for `i` from `|s| - 1` down to 1. */
  function Shuffled<T>(s: seq<T>, pick: nat -> nat): seq<T>
    requires Draws(pick)
  {
    ShuffleSteps(s, pick, if |s| == 0 then 0 else |s| - 1)
  }

  lemma SwapPermutes<T>(s: seq<T>, i: nat, j: nat)
    requires i < |s| && j < |s|
    ensures multiset(Swap(s, i, j)) == multiset(s)
  {
    assert Swap(s, i, j) == s[i := s[j]][j := s[i]];
  }

  lemma SwapKeepsDistinct<T>(s: seq<T>, i: nat, j: nat)
    requires i < |s| && j < |s|
    requires Distinct(s)
    ensures Distinct(Swap(s, i, j))
  {
    var r := Swap(s, i, j);
    forall p, q | 0 <= p < q < |r| ensures r[p] != r[q] {
      var p' := if p == i then j else if p == j then i else p;
      var q' := if q == i then j else if q == j then i else q;
      assert r[p] == s[p'] && r[q] == s[q'];
    }
  }

  /** Shuffling only reorders: the same elements with the same multiplicities. */
  lemma {:induction false} ShufflePermutes<T>(s: seq<T>, pick: nat -> nat, k: nat)
    requires Draws(pick)
    requires k == 0 || k < |s|
    ensures multiset(ShuffleSteps(s, pick, k)) == multiset(s)
    decreases k
  {
    if k > 0 {
      ShufflePermutes(s, pick, k - 1);
      var prev := ShuffleSteps(s, pick, k - 1);
      SwapPermutes(prev, |s| - k, pick(|s| - k));
    }
  }

  /** A list of distinct names stays a list of distinct names. */
  lemma {:induction false} ShuffleKeepsDistinct<T>(s: seq<T>, pick: nat -> nat, k: nat)
    requires Draws(pick)
    requires k == 0 || k < |s|
    requires Distinct(s)
    ensures Distinct(ShuffleSteps(s, pick, k))
    decreases k
  {
    if k > 0 {
      var prev := ShuffleSteps(s, pick, k - 1);
      var i: nat := |s| - k;
      var j := pick(i);
      assert ShuffleSteps(s, pick, k) == Swap(prev, i, j);
      ShuffleKeepsDistinct(s, pick, k - 1);
      SwapKeepsDistinct(prev, i, j);
    }
  }

  /** Line 6, in place, as CPython does it. */
  method Shuffle<T>(a: array<T>, pick: nat -> nat)
    requires Draws(pick)
    modifies a
    ensures a[..] == Shuffled(old(a[..]), pick)
  {
    ghost var s := a[..];
    var i := a.Length - 1;
    while i >= 1
      invariant a.Length == 0 ==> i == -1
      invariant a.Length > 0 ==> 0 <= i < a.Length
      invariant a[..] == ShuffleSteps(s, pick, a.Length - 1 - i)
      decreases i
    {
      var j := pick(i);
      ghost var prev := a[..];
      a[i], a[j] := a[j], a[i];
      assert a[..] == Swap(prev, i, j);
      assert a[..] == ShuffleSteps(s, pick, a.Length - i);
      i := i - 1;
    }
  }

  /** The whole shuffle keeps the multiset of elements. */
  lemma ShuffledPermutes<T>(s: seq<T>, pick: nat -> nat)
    requires Draws(pick)
    ensures multiset(Shuffled(s, pick)) == multiset(s)
    ensures Distinct(s) ==> Distinct(Shuffled(s, pick))
  {
    ShufflePermutes(s, pick, if |s| == 0 then 0 else |s| - 1);
    if Distinct(s) {
      ShuffleKeepsDistinct(s, pick, if |s| == 0 then 0 else |s| - 1);
    }
  }

  /** `random.shuffle` on a fresh list holding `s`. */
  method ShuffleList<T>(s: seq<T>, pick: nat -> nat) returns (r: seq<T>)
    requires Draws(pick)
    ensures r == Shuffled(s, pick)
    ensures multiset(r) == multiset(s)
  {
    var a := new T[|s|](i requires 0 <= i < |s| => s[i]);
    assert a[..] == s;
    Shuffle(a, pick);
    r := a[..];
    ShuffledPermutes(s, pick);
  }
}
