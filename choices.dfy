/**
 * The choice list of one resolved question: the wrong answers' values
 * followed by the correct value, shuffled, and the position of the correct
 * value in the shuffled list as `Array.prototype.indexOf` computes it.
 *
 * The random shuffle is replaced by an index permutation chosen by the
 * caller, so every possible outcome of the shuffle is covered.
 */
module Choices {

  /** The indices 0, 1, ..., n - 1 in order. */
  function Iota(n: nat): (r: seq<nat>)
    ensures |r| == n
    ensures forall i :: 0 <= i < n ==> r[i] == i
  {
    seq(n, i requires 0 <= i < n => i)
  }

  /** `perm` lists each of the indices 0 .. n - 1 exactly once, in some order. */
  predicate IsPermutation(perm: seq<nat>, n: nat) {
    multiset(perm) == multiset(Iota(n))
  }

  /** Every entry of `idx` is a valid index into a sequence of length `n`. */
  predicate InRange(idx: seq<nat>, n: nat) {
    forall i :: 0 <= i < |idx| ==> idx[i] < n
  }

  /** The elements of `s` at the positions listed in `idx`, in that order. */
  function Gather<T>(s: seq<T>, idx: seq<nat>): (r: seq<T>)
    requires InRange(idx, |s|)
    ensures |r| == |idx|
    ensures forall i :: 0 <= i < |idx| ==> r[i] == s[idx[i]]
  {
    seq(|idx|, i requires 0 <= i < |idx| => s[idx[i]])
  }

  /** A permutation of 0 .. n - 1 has length n, holds only indices below n, and holds each of them. */
  lemma {:induction false} PermutationInRange(perm: seq<nat>, n: nat)
    requires IsPermutation(perm, n)
    ensures |perm| == n
    ensures InRange(perm, n)
    ensures forall k :: 0 <= k < n ==> k in perm
  {
    var iota := Iota(n);
    calc {
      |perm|;
      |multiset(perm)|;
      |multiset(iota)|;
      n;
    }
    forall i | 0 <= i < |perm|
      ensures perm[i] < n
    {
      assert perm[i] in multiset(perm);
      assert perm[i] in multiset(iota);
      var j :| 0 <= j < n && iota[j] == perm[i];
    }
    forall k | 0 <= k < n
      ensures k in perm
    {
      assert iota[k] == k;
      assert k in multiset(iota);
      assert k in multiset(perm);
    }
  }

  /** Taking out the element at position j takes exactly that element out of the multiset. */
  lemma RemoveAt<T>(q: seq<T>, j: nat)
    requires j < |q|
    ensures multiset(q) == multiset(q[..j] + q[j + 1..]) + multiset{q[j]}
  {
    assert q == q[..j] + [q[j]] + q[j + 1..];
  }

  lemma Cancel<T>(a: multiset<T>, b: multiset<T>, x: T)
    requires a + multiset{x} == b + multiset{x}
    ensures a == b
  {
    forall y ensures a[y] == b[y] {
      assert (a + multiset{x})[y] == (b + multiset{x})[y];
    }
  }

  /** Gathering by an index list with one entry taken out gathers the same elements less one. */
  lemma GatherRemoveAt<T>(s: seq<T>, q: seq<nat>, j: nat)
    requires InRange(q, |s|) && j < |q|
    ensures InRange(q[..j] + q[j + 1..], |s|)
    ensures multiset(Gather(s, q)) == multiset(Gather(s, q[..j] + q[j + 1..])) + multiset{s[q[j]]}
  {
    var rest := q[..j] + q[j + 1..];
    assert forall i :: 0 <= i < |rest| ==> rest[i] == if i < j then q[i] else q[i + 1];
    var g := Gather(s, q);
    assert Gather(s, rest) == g[..j] + g[j + 1..];
    RemoveAt(g, j);
  }

  /** Taking the same index out of two index lists with the same indices leaves lists with the same indices. */
  lemma RemoveMatching(p: seq<nat>, q: seq<nat>, j: nat)
    requires |p| > 0 && j < |q| && q[j] == p[0]
    requires multiset(p) == multiset(q)
    ensures multiset(p[..0] + p[1..]) == multiset(q[..j] + q[j + 1..])
  {
    RemoveAt(q, j);
    RemoveAt(p, 0);
    Cancel(multiset(p[..0] + p[1..]), multiset(q[..j] + q[j + 1..]), p[0]);
  }

  /** Gathering by two index lists that hold the same indices yields the same elements, up to order. */
  lemma {:induction false} GatherSameIndices<T>(s: seq<T>, p: seq<nat>, q: seq<nat>)
    requires InRange(p, |s|) && InRange(q, |s|)
    requires multiset(p) == multiset(q)
    ensures multiset(Gather(s, p)) == multiset(Gather(s, q))
    decreases |p|
  {
    if |p| == 0 {
      assert |q| == |multiset(q)| == 0;
    } else {
      assert p[0] in multiset(q);
      var j :| 0 <= j < |q| && q[j] == p[0];
      RemoveMatching(p, q, j);
      GatherRemoveAt(s, p, 0);
      GatherRemoveAt(s, q, j);
      GatherSameIndices(s, p[..0] + p[1..], q[..j] + q[j + 1..]);
    }
  }

  /** Shuffling by a permutation neither loses, duplicates nor invents an element. */
  lemma {:induction false} ShufflePreservesElements<T>(s: seq<T>, perm: seq<nat>)
    requires IsPermutation(perm, |s|)
    ensures |perm| == |s| && InRange(perm, |s|)
    ensures multiset(Gather(s, perm)) == multiset(s)
  {
    PermutationInRange(perm, |s|);
    var iota := Iota(|s|);
    assert InRange(iota, |s|);
    GatherSameIndices(s, perm, iota);
    assert Gather(s, iota) == s;
  }

  /**
   * The position of the first occurrence of `x` in `s`, or -1 when `x` does
   * not occur: the result of `s.indexOf(x)` on a JavaScript array of strings.
   */
  function IndexOf<T(==)>(s: seq<T>, x: T): (r: int)
    ensures -1 <= r < |s|
    ensures r == -1 <==> x !in s
    ensures 0 <= r ==> s[r] == x
    ensures forall j :: 0 <= j < r ==> s[j] != x
    decreases |s|
  {
    if |s| == 0 then -1
    else if s[0] == x then 0
    else
      var k := IndexOf(s[1..], x);
      if k == -1 then -1 else k + 1
  }

  /**
   * The choice list built from the wrong answers' values and the correct
   * value: `wrong` with `correct` appended, reordered by the shuffle `perm`.
   */
  function ShuffledChoices(wrong: seq<string>, correct: string, perm: seq<nat>): (r: seq<string>)
    requires IsPermutation(perm, |wrong| + 1)
    ensures |r| == |wrong| + 1
    ensures multiset(r) == multiset(wrong) + multiset{correct}
  {
    var unshuffled := wrong + [correct];
    ShufflePreservesElements(unshuffled, perm);
    Gather(unshuffled, perm)
  }

  /**
   * Whatever the shuffle, the recorded answer index lies inside the choice
   * list, points at the correct value, and is its first occurrence.
   */
  lemma {:induction false} AnswerLocatesCorrect(wrong: seq<string>, correct: string, perm: seq<nat>)
    requires IsPermutation(perm, |wrong| + 1)
    ensures var choices := ShuffledChoices(wrong, correct, perm);
            var answer := IndexOf(choices, correct);
            && 0 <= answer < |choices|
            && choices[answer] == correct
            && forall j :: 0 <= j < answer ==> choices[j] != correct
  {
    var choices := ShuffledChoices(wrong, correct, perm);
    assert correct in multiset(choices);
  }
}
