/** Order-preserving sequence operations shared by the list handling of the chat front end:
    `Array.prototype.filter` and `Array.prototype.slice(0, n)`. */
module Seqs {

  /** `a` can be obtained from `b` by deleting elements: the elements of `a` occur in `b`
      in the same relative order. */
  ghost predicate IsSubsequence<T>(a: seq<T>, b: seq<T>)
    decreases |b|
  {
    |a| == 0 ||
    (|b| > 0 &&
      if a[0] == b[0] then IsSubsequence(a[1..], b[1..]) else IsSubsequence(a, b[1..]))
  }

  /** `xs.filter(p)`: the elements of `xs` that satisfy `p`, in their original order. */
  function Filter<T(!new)>(p: T -> bool, xs: seq<T>): (r: seq<T>)
    ensures |r| <= |xs|
    ensures forall x :: x in r <==> x in xs && p(x)
    ensures IsSubsequence(r, xs)
  {
    if |xs| == 0 then []
    else if p(xs[0]) then [xs[0]] + Filter(p, xs[1..])
    else
      var r := Filter(p, xs[1..]);
      assert r != [] ==> r[0] in r && r[0] != xs[0];
      r
  }

  /** `xs.slice(0, n)`: the first `n` elements, or all of them when there are fewer. */
  function Take<T>(xs: seq<T>, n: nat): (r: seq<T>)
    ensures |r| == if |xs| <= n then |xs| else n
    ensures r == xs[..|r|]
  {
    if |xs| <= n then xs else xs[..n]
  }

  /** No element occurs twice. */
  predicate Distinct<T(==)>(xs: seq<T>) {
    forall i, j :: 0 <= i < j < |xs| ==> xs[i] != xs[j]
  }

  /** Filtering distributes over concatenation: filtering keeps the relative order of the
      two halves. */
  lemma {:induction false} FilterAppend<T(!new)>(p: T -> bool, xs: seq<T>, ys: seq<T>)
    ensures Filter(p, xs + ys) == Filter(p, xs) + Filter(p, ys)
    decreases |xs|
  {
    if |xs| == 0 {
      assert xs + ys == ys;
    } else {
      assert (xs + ys)[1..] == xs[1..] + ys;
      FilterAppend(p, xs[1..], ys);
    }
  }

  /** Filtering with a predicate that every element satisfies keeps the whole sequence. */
  lemma {:induction false} FilterAll<T(!new)>(p: T -> bool, xs: seq<T>)
    requires forall i :: 0 <= i < |xs| ==> p(xs[i])
    ensures Filter(p, xs) == xs
    decreases |xs|
  {
    if |xs| > 0 {
      FilterAll(p, xs[1..]);
    }
  }

  lemma DistinctTail<T>(xs: seq<T>)
    requires |xs| > 0 && Distinct(xs)
    ensures Distinct(xs[1..]) && xs[0] !in xs[1..]
  {
    var rest := xs[1..];
    forall i, j | 0 <= i < j < |rest| ensures rest[i] != rest[j] {
      assert rest[i] == xs[i + 1] && rest[j] == xs[j + 1];
    }
  }

  lemma TakeCons<T>(a: T, f: seq<T>, n: nat)
    requires n > 0
    ensures Take([a] + f, n) == [a] + Take(f, n - 1)
  {
  }

  /** In a sequence without repeats, the element at position `k` survives "filter, then keep
      the first `n`" exactly when it satisfies `p` and fewer than `n` earlier elements do. */
  lemma {:induction false} TakeFilterMember<T(!new)>(p: T -> bool, xs: seq<T>, k: nat, n: nat)
    requires k < |xs|
    requires Distinct(xs)
    ensures xs[k] in Take(Filter(p, xs), n) <==> p(xs[k]) && |Filter(p, xs[..k])| < n
    decreases |xs|
  {
    var rest := xs[1..];
    if k == 0 {
      assert xs[..k] == [];
      if p(xs[0]) {
        assert Filter(p, xs)[0] == xs[0];
      }
    } else {
      var x := xs[k];
      assert x == rest[k - 1];
      assert xs[..k] == [xs[0]] + rest[..k - 1];
      FilterAppend(p, [xs[0]], rest[..k - 1]);
      DistinctTail(xs);
      assert x != xs[0];
      var f := Filter(p, rest);
      if !p(xs[0]) {
        assert Filter(p, xs) == f;
        assert |Filter(p, xs[..k])| == |Filter(p, rest[..k - 1])|;
        TakeFilterMember(p, rest, k - 1, n);
      } else if n == 0 {
        assert Take(Filter(p, xs), n) == [];
      } else {
        assert Filter(p, xs) == [xs[0]] + f;
        assert |Filter(p, xs[..k])| == 1 + |Filter(p, rest[..k - 1])|;
        TakeCons(xs[0], f, n);
        TakeFilterMember(p, rest, k - 1, n - 1);
      }
    }
  }

  /** The elements of a subsequence are elements of the whole. */
  lemma {:induction false} SubsequenceMembers<T>(a: seq<T>, b: seq<T>)
    requires IsSubsequence(a, b)
    ensures forall x :: x in a ==> x in b
    decreases |b|
  {
    if |a| > 0 {
      if a[0] == b[0] {
        SubsequenceMembers(a[1..], b[1..]);
        assert forall x :: x in a ==> x == a[0] || x in a[1..];
      } else {
        SubsequenceMembers(a, b[1..]);
      }
    }
  }

  /** A prefix of a subsequence is still a subsequence. */
  lemma {:induction false} SubsequencePrefix<T>(a: seq<T>, b: seq<T>, n: nat)
    requires IsSubsequence(a, b)
    requires n <= |a|
    ensures IsSubsequence(a[..n], b)
    decreases |b|
  {
    if n > 0 {
      if a[0] == b[0] {
        SubsequencePrefix(a[1..], b[1..], n - 1);
        assert a[..n][1..] == a[1..][..n - 1];
      } else {
        SubsequencePrefix(a, b[1..], n);
      }
    }
  }

  /** `key` increases strictly along `xs`. */
  ghost predicate StrictlyIncreasing<T>(key: T -> int, xs: seq<T>) {
    forall i, j :: 0 <= i < j < |xs| ==> key(xs[i]) < key(xs[j])
  }

  /** Deleting elements keeps a strictly increasing order. */
  lemma {:induction false} SubsequenceIncreasing<T>(key: T -> int, a: seq<T>, b: seq<T>)
    requires IsSubsequence(a, b)
    requires StrictlyIncreasing(key, b)
    ensures StrictlyIncreasing(key, a)
    decreases |b|
  {
    if |a| > 0 {
      if a[0] == b[0] {
        SubsequenceIncreasing(key, a[1..], b[1..]);
        SubsequenceMembers(a[1..], b[1..]);
        forall j | 0 < j < |a| ensures key(a[0]) < key(a[j]) {
          assert a[j] in a[1..];
          var m :| 0 <= m < |b[1..]| && b[1..][m] == a[j];
          assert b[m + 1] == a[j];
        }
        forall i, j | 0 <= i < j < |a| ensures key(a[i]) < key(a[j]) {
          if i > 0 {
            assert a[i] == a[1..][i - 1] && a[j] == a[1..][j - 1];
          }
        }
      } else {
        SubsequenceIncreasing(key, a, b[1..]);
      }
    }
  }

  /** Filtering a one-element sequence keeps it or drops it. */
  lemma FilterSingleton<T(!new)>(p: T -> bool, x: T)
    ensures Filter(p, [x]) == if p(x) then [x] else []
  {
    assert [x][1..] == [];
  }

  /** `xs.reverse()`, as a value: the elements in the opposite order. */
  function Reverse<T>(xs: seq<T>): (r: seq<T>)
    ensures |r| == |xs|
    ensures forall i :: 0 <= i < |xs| ==> r[i] == xs[|xs| - 1 - i]
  {
    if |xs| == 0 then [] else [xs[|xs| - 1]] + Reverse(xs[..|xs| - 1])
  }

  /** Reversing twice gives the original sequence back. */
  lemma ReverseReverse<T>(xs: seq<T>)
    ensures Reverse(Reverse(xs)) == xs
  {
    var rr := Reverse(Reverse(xs));
    forall i | 0 <= i < |xs| ensures rr[i] == xs[i] {
      assert rr[i] == Reverse(xs)[|xs| - 1 - i];
    }
  }
}
