/** Frequency tables over sequences, as built by Go loops of the form
    `for _, x := range xs { count[x]++ }`, and sums over their values. */
module Counting {

  /** The distinct elements of `xs`. */
  function Distinct<K>(xs: seq<K>): set<K> {
    set x | x in xs
  }

  /** Go's `m[k]++`: a missing key counts as zero. */
  function Bump<K>(m: map<K, int>, k: K): map<K, int> {
    m[k := (if k in m then m[k] else 0) + 1]
  }

  /** The number of positions of `xs` that hold `x`. */
  function Occurrences<K(==)>(xs: seq<K>, x: K): nat
    decreases |xs|
  {
    if |xs| == 0 then 0
    else Occurrences(xs[1..], x) + (if xs[0] == x then 1 else 0)
  }

  /** Counting the occurrences in a sequence extended by one element. */
  lemma {:induction false} OccurrencesSnoc<K>(xs: seq<K>, y: K)
    ensures forall x :: Occurrences(xs + [y], x) == Occurrences(xs, x) + (if y == x then 1 else 0)
    decreases |xs|
  {
    if |xs| > 0 {
      assert (xs + [y])[1..] == xs[1..] + [y];
      OccurrencesSnoc(xs[1..], y);
    }
  }

  /** An element that is not in `xs` occurs zero times. */
  lemma {:induction false} OccurrencesAbsent<K>(xs: seq<K>, x: K)
    ensures x !in xs ==> Occurrences(xs, x) == 0
    decreases |xs|
  {
    if |xs| > 0 {
      OccurrencesAbsent(xs[1..], x);
    }
  }

  /** The table `for _, x := range xs { m[x]++ }` builds from an empty map:
      its keys are exactly the elements of `xs`, and each key maps to the
      number of times it occurs in `xs`. */
  function Tally<K(==)>(xs: seq<K>): (m: map<K, int>)
    ensures m.Keys == Distinct(xs)
    ensures forall k :: k in m ==> m[k] == Occurrences(xs, k)
    decreases |xs|
  {
    if |xs| == 0 then map[]
    else
      var init := xs[..|xs| - 1];
      var last := xs[|xs| - 1];
      assert xs == init + [last];
      OccurrencesSnoc(init, last);
      OccurrencesAbsent(init, last);
      Bump(Tally(init), last)
  }

  /** `sub` holds some of the entries of `m`, each with the same value. */
  predicate IsSubmap<K>(sub: map<K, int>, m: map<K, int>) {
    sub.Keys <= m.Keys && forall k :: k in sub ==> sub[k] == m[k]
  }

  predicate NonNegative<K>(m: map<K, int>) {
    forall k :: k in m ==> m[k] >= 0
  }

  /** A non-empty set has a member. */
  lemma HasMember<K>(s: set<K>)
    requires s != {}
    ensures exists x :: x in s
  {
    var none: set<K> := {};
    assert (forall y :: y !in s) ==> s == none;
  }

  /** The sum of the values of `m`. */
  ghost function Sum<K>(m: map<K, int>): int
    decreases |m|
  {
    if m == map[] then 0
    else
      HasMember(m.Keys);
      var k :| k in m;
      m[k] + Sum(m - {k})
  }

  /** The sum does not depend on which key is taken first. */
  lemma {:induction false} SumRemove<K>(m: map<K, int>, k: K)
    requires k in m
    ensures Sum(m) == m[k] + Sum(m - {k})
    decreases |m|
  {
    var j :| j in m && Sum(m) == m[j] + Sum(m - {j});
    if j != k {
      SumRemove(m - {j}, k);
      SumRemove(m - {k}, j);
      assert m - {j} - {k} == m - {k} - {j};
    }
  }

  /** `m[k]++` adds one to the sum. */
  lemma SumBump<K>(m: map<K, int>, k: K)
    ensures Sum(Bump(m, k)) == Sum(m) + 1
  {
    var b := Bump(m, k);
    SumRemove(b, k);
    if k in m {
      SumRemove(m, k);
      assert b - {k} == m - {k};
    } else {
      assert b - {k} == m;
    }
  }

  /** A frequency table counts every element once: its values sum to the
      length of the sequence. */
  lemma {:induction false} TallySum<K>(xs: seq<K>)
    ensures Sum(Tally(xs)) == |xs|
    decreases |xs|
  {
    if |xs| > 0 {
      TallySum(xs[..|xs| - 1]);
      SumBump(Tally(xs[..|xs| - 1]), xs[|xs| - 1]);
    }
  }

  lemma {:induction false} SumNonNegative<K>(m: map<K, int>)
    requires NonNegative(m)
    ensures Sum(m) >= 0
    decreases |m|
  {
    if m != map[] {
      HasMember(m.Keys);
      var k :| k in m;
      SumRemove(m, k);
      SumNonNegative(m - {k});
    }
  }

  /** Dropping entries with non-negative values cannot raise the sum. */
  lemma {:induction false} SumOfSubmap<K>(sub: map<K, int>, m: map<K, int>)
    requires IsSubmap(sub, m)
    requires NonNegative(m)
    ensures Sum(sub) <= Sum(m)
    decreases |sub|
  {
    if sub == map[] {
      SumNonNegative(m);
    } else {
      HasMember(sub.Keys);
      var k :| k in sub;
      SumRemove(sub, k);
      SumRemove(m, k);
      SumOfSubmap(sub - {k}, m - {k});
    }
  }

  /** A sequence has at most as many distinct elements as it has elements. */
  lemma {:induction false} DistinctSize<K>(xs: seq<K>)
    ensures |Distinct(xs)| <= |xs|
    decreases |xs|
  {
    if |xs| > 0 {
      var init := xs[..|xs| - 1];
      DistinctSize(init);
      assert xs == init + [xs[|xs| - 1]];
      assert Distinct(xs) == Distinct(init) + {xs[|xs| - 1]};
    }
  }
}
