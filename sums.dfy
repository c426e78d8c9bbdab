/** Sums of a real-valued field over a sequence of records: the reference
    definition that the component's accumulators and its reduce fold are
    proved against. */
module Sums {

  /** The sum of f over the elements of s, taken from the front. */
  function Sum<T>(s: seq<T>, f: T -> real): real
    decreases |s|
  {
    if |s| == 0 then 0.0 else f(s[0]) + Sum(s[1..], f)
  }

  lemma SumSingleton<T>(x: T, f: T -> real)
    ensures Sum([x], f) == f(x)
  {
    assert [x][1..] == [];
  }

  /** Summing a concatenation sums each part. */
  lemma {:induction false} SumAppend<T>(s: seq<T>, t: seq<T>, f: T -> real)
    ensures Sum(s + t, f) == Sum(s, f) + Sum(t, f)
    decreases |s|
  {
    if |s| == 0 {
      assert s + t == t;
    } else {
      assert (s + t)[1..] == s[1..] + t;
      SumAppend(s[1..], t, f);
    }
  }

  /** One more element at the back adds its value: the step of a forward loop. */
  lemma SumSnoc<T>(s: seq<T>, x: T, f: T -> real)
    ensures Sum(s + [x], f) == Sum(s, f) + f(x)
  {
    SumAppend(s, [x], f);
    SumSingleton(x, f);
  }

  /** Taking one element out of a sequence takes its value out of the sum. */
  lemma SumRemove<T>(t: seq<T>, j: int, f: T -> real)
    requires 0 <= j < |t|
    ensures Sum(t, f) == f(t[j]) + Sum(t[..j] + t[j + 1..], f)
  {
    assert t == t[..j] + ([t[j]] + t[j + 1..]);
    SumAppend(t[..j], [t[j]] + t[j + 1..], f);
    SumAppend([t[j]], t[j + 1..], f);
    SumSingleton(t[j], f);
    SumAppend(t[..j], t[j + 1..], f);
  }

  /** The sum does not depend on the order of the elements. */
  lemma {:induction false} SumPermutation<T>(s: seq<T>, t: seq<T>, f: T -> real)
    requires multiset(s) == multiset(t)
    ensures Sum(s, f) == Sum(t, f)
    decreases |s|
  {
    if |s| == 0 {
      assert |t| == |multiset(t)| == 0;
    } else {
      var x := s[0];
      assert s == [x] + s[1..];
      assert x in multiset(t);
      var j :| 0 <= j < |t| && t[j] == x;
      var rest := t[..j] + t[j + 1..];
      assert t == t[..j] + [x] + t[j + 1..];
      assert multiset(rest) == multiset(t) - multiset{x};
      SumPermutation(s[1..], rest, f);
      SumRemove(t, j, f);
    }
  }
}
