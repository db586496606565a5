/** Generic sequence helpers shared by the audit model: an option type,
    distinctness, Python-style prefix slicing, occurrence counting and the
    first-occurrence de-duplication that the tool performs with a `seen` set. */
module Seqs {

  datatype Option<+T> = None | Some(value: T)

  /** No element occurs twice. */
  predicate Distinct<T(==)>(xs: seq<T>) {
    forall i, j :: 0 <= i < j < |xs| ==> xs[i] != xs[j]
  }

  /** End index of Python's `xs[:k]` on a sequence of length n: a negative k
      counts from the end, and the index is clipped to [0, n]. */
  function SliceEnd(n: nat, k: int): (e: nat)
    ensures e <= n
  {
    if k >= 0 then (if k < n then k else n)
    else if n + k > 0 then n + k else 0
  }

  /** Python's `xs[:k]`. */
  function PyPrefix<T>(xs: seq<T>, k: int): seq<T> {
    xs[..SliceEnd(|xs|, k)]
  }

  lemma PyPrefixOfNat<T>(xs: seq<T>, k: nat)
    ensures |PyPrefix(xs, k)| == if k < |xs| then k else |xs|
    ensures PyPrefix(xs, k) <= xs
  {
  }

  /** Number of occurrences of x in xs. */
  function Count<T(==)>(xs: seq<T>, x: T): (c: nat)
    ensures c <= |xs|
    ensures c == 0 <==> x !in xs
  {
    if |xs| == 0 then 0
    else (if xs[0] == x then 1 else 0) + Count(xs[1..], x)
  }

  /** Counting over a sequence extended at the end. */
  lemma {:induction false} CountSnoc<T>(xs: seq<T>, x: T, y: T)
    ensures Count(xs + [x], y) == Count(xs, y) + (if x == y then 1 else 0)
  {
    if |xs| > 0 {
      assert (xs + [x])[1..] == xs[1..] + [x];
      CountSnoc(xs[1..], x, y);
    }
  }

  /** Two different values never occur more often together than the sequence is long. */
  lemma {:induction false} CountTwoBound<T>(xs: seq<T>, x: T, y: T)
    requires x != y
    ensures Count(xs, x) + Count(xs, y) <= |xs|
  {
    if |xs| > 0 {
      CountTwoBound(xs[1..], x, y);
    }
  }

  /** The elements of xs in the order of their first occurrence, each kept
      once: the reference definition of the `seen`-set de-duplication loop. */
  function FirstOccurrences<T(==)>(xs: seq<T>): (r: seq<T>)
    ensures Distinct(r)
    ensures |r| <= |xs|
    ensures forall i :: 0 <= i < |xs| ==> xs[i] in r
    ensures forall i :: 0 <= i < |r| ==> r[i] in xs
    ensures IsSubsequence(r, xs)
  {
    if |xs| == 0 then []
    else
      var init := xs[..|xs| - 1];
      var x := xs[|xs| - 1];
      var p := FirstOccurrences(init);
      assert xs == init + [x];
      if x in p then
        SubsequenceExtend(p, init, x);
        p
      else
        SubsequenceSnoc(p, init, x);
        p + [x]
  }

  /** De-duplicating an already duplicate-free sequence changes nothing. */
  lemma {:induction false} FirstOccurrencesOfDistinct<T>(xs: seq<T>)
    requires Distinct(xs)
    ensures FirstOccurrences(xs) == xs
  {
    if |xs| > 0 {
      var init := xs[..|xs| - 1];
      assert Distinct(init);
      FirstOccurrencesOfDistinct(init);
      assert xs[|xs| - 1] !in init;
      assert init + [xs[|xs| - 1]] == xs;
    }
  }

  /** The imperative `out, seen = [], set()` loop, step by step. */
  method Dedup<T(==)>(xs: seq<T>) returns (out: seq<T>)
    ensures out == FirstOccurrences(xs)
  {
    out := [];
    var seen: set<T> := {};
    for i := 0 to |xs|
      invariant out == FirstOccurrences(xs[..i])
      invariant forall x :: x in seen <==> x in out
    {
      assert xs[..i + 1][..i] == xs[..i];
      if xs[i] !in seen {
        out := out + [xs[i]];
        seen := seen + {xs[i]};
      }
    }
    assert xs[..|xs|] == xs;
  }

  /** A head that is not repeated in a duplicate-free tail keeps the whole
      sequence duplicate-free. */
  lemma DistinctCons<T>(xs: seq<T>)
    requires |xs| > 0 && Distinct(xs[1..])
    requires forall k :: 0 <= k < |xs| - 1 ==> xs[1..][k] != xs[0]
    ensures Distinct(xs)
  {
    forall i, j | 0 <= i < j < |xs|
      ensures xs[i] != xs[j]
    {
      if i > 0 {
        assert xs[i] == xs[1..][i - 1] && xs[j] == xs[1..][j - 1];
      } else {
        assert xs[j] == xs[1..][j - 1];
      }
    }
  }

  /** xs can be obtained from ys by deleting elements (greedy matching). */
  predicate IsSubsequence<T(==)>(xs: seq<T>, ys: seq<T>)
    decreases |ys|
  {
    |xs| == 0 ||
    (|ys| > 0 &&
     if xs[0] == ys[0] then IsSubsequence(xs[1..], ys[1..]) else IsSubsequence(xs, ys[1..]))
  }

  lemma {:induction false} SubsequenceOfTail<T>(xs: seq<T>, ys: seq<T>)
    requires |ys| > 0
    requires IsSubsequence(xs, ys[1..])
    ensures IsSubsequence(xs, ys)
    decreases |ys|, 0
  {
    if |xs| > 0 && xs[0] == ys[0] {
      SubsequenceDropHead(xs, ys[1..]);
    }
  }

  lemma {:induction false} SubsequenceDropHead<T>(xs: seq<T>, ys: seq<T>)
    requires |xs| > 0
    requires IsSubsequence(xs, ys)
    ensures IsSubsequence(xs[1..], ys)
    decreases |ys|, 1
  {
    if |ys| > 0 {
      if xs[0] == ys[0] {
        if |xs[1..]| > 0 {
          SubsequenceDropHead(xs[1..], ys[1..]);
          SubsequenceOfTail(xs[1..], ys);
        }
      } else {
        SubsequenceDropHead(xs, ys[1..]);
        if |xs[1..]| > 0 {
          SubsequenceOfTail(xs[1..], ys);
        }
      }
    }
  }

  /** A subsequence stays one when the longer sequence grows at the end. */
  lemma {:induction false} SubsequenceExtend<T>(xs: seq<T>, ys: seq<T>, y: T)
    requires IsSubsequence(xs, ys)
    ensures IsSubsequence(xs, ys + [y])
    decreases |ys|
  {
    if |xs| > 0 {
      assert (ys + [y])[0] == ys[0];
      assert (ys + [y])[1..] == ys[1..] + [y];
      if xs[0] == ys[0] {
        SubsequenceExtend(xs[1..], ys[1..], y);
      } else {
        SubsequenceExtend(xs, ys[1..], y);
      }
    }
  }

  /** Appending the same element to both keeps the subsequence relation. */
  lemma {:induction false} SubsequenceSnoc<T>(xs: seq<T>, ys: seq<T>, y: T)
    requires IsSubsequence(xs, ys)
    ensures IsSubsequence(xs + [y], ys + [y])
    decreases |ys|
  {
    if |ys| == 0 {
      assert xs + [y] == [y];
      assert ys + [y] == [y];
      assert [y][1..] == [];
    } else {
      assert (ys + [y])[0] == ys[0];
      assert (ys + [y])[1..] == ys[1..] + [y];
      if |xs| == 0 {
        assert xs + [y] == [y];
        if ys[0] == y {
          assert [y][1..] == [];
        } else {
          SubsequenceSnoc(xs, ys[1..], y);
        }
      } else {
        assert (xs + [y])[0] == xs[0];
        assert (xs + [y])[1..] == xs[1..] + [y];
        if xs[0] == ys[0] {
          SubsequenceSnoc(xs[1..], ys[1..], y);
        } else {
          SubsequenceSnoc(xs, ys[1..], y);
        }
      }
    }
  }
}
