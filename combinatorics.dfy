/**
 * Ordered selections without repetition, the counts P(n, k) and n!, and a
 * shuffle driven by an explicit source of random picks.
 */
module Combinatorics {
  import opened Types

  /** n * (n - 1) * ... * (n - k + 1): the number P(n, k) of ordered k-selections from n items. */
  function FallingFactorial(n: int, k: nat): int
    decreases k
  {
    if k == 0 then 1 else n * FallingFactorial(n - 1, k - 1)
  }

  /** n!, with every non-positive n mapped to 1 (the empty product). */
  function Fact(n: int): int
    decreases if n < 0 then 0 else n
  {
    if n <= 0 then 1 else n * Fact(n - 1)
  }

  lemma {:induction false} FactPositive(n: int)
    ensures Fact(n) >= 1
    decreases if n < 0 then 0 else n
  {
    if n > 0 { FactPositive(n - 1); }
  }

  /** Multiplying in the next (smaller) factor extends the product by one. */
  lemma {:induction false} FallingFactorialStep(n: int, k: nat)
    ensures FallingFactorial(n, k + 1) == FallingFactorial(n, k) * (n - k)
    decreases k
  {
    if k > 0 {
      FallingFactorialStep(n - 1, k - 1);
    }
  }

  lemma {:induction false} FallingFactorialPositive(n: int, k: nat)
    requires k <= n
    ensures FallingFactorial(n, k) >= 1
    decreases k
  {
    if k > 0 { FallingFactorialPositive(n - 1, k - 1); }
  }

  lemma {:induction false} FallingFactorialZero(n: nat, k: nat)
    requires n < k
    ensures FallingFactorial(n, k) == 0
    decreases k
  {
    if n > 0 { FallingFactorialZero(n - 1, k - 1); }
  }

  /** n! = P(n, k) * (n - k)!, so the quotient n!/(n - k)! is exact and equals P(n, k). */
  lemma {:induction false} FactSplit(n: int, k: nat)
    requires k <= n
    ensures Fact(n) == FallingFactorial(n, k) * Fact(n - k)
    decreases k
  {
    if k > 0 {
      FactSplit(n - 1, k - 1);
    }
  }

  function RemoveAt<T>(s: seq<T>, i: nat): (r: seq<T>)
    requires i < |s|
    ensures |r| == |s| - 1
  {
    s[..i] + s[i + 1..]
  }

  lemma RemoveAtMultiset<T>(s: seq<T>, i: nat)
    requires i < |s|
    ensures multiset(RemoveAt(s, i)) + multiset{s[i]} == multiset(s)
  {
    assert s == s[..i] + [s[i]] + s[i + 1..];
  }

  /** Puts `x` in front of every selection in `ps`. */
  function Prefixed<T>(x: T, ps: seq<seq<T>>): (r: seq<seq<T>>)
    ensures |r| == |ps|
  {
    seq(|ps|, j requires 0 <= j < |ps| => [x] + ps[j])
  }

  /**
   * Every ordered k-selection of positions of `s` without repetition, in
   * lexicographic order of the chosen positions. Two equal values at different
   * positions are different items.
   */
  function Arrangements<T>(s: seq<T>, k: nat): seq<seq<T>>
    decreases k, 1, 0
  {
    if k == 0 then [[]] else ArrangeFrom(s, k, 0)
  }

  /** The selections of `Arrangements(s, k)` whose first item is at position i or later. */
  function ArrangeFrom<T>(s: seq<T>, k: nat, i: nat): seq<seq<T>>
    requires k > 0 && i <= |s|
    decreases k, 0, |s| - i
  {
    if i == |s| then []
    else Prefixed(s[i], Arrangements(RemoveAt(s, i), k - 1)) + ArrangeFrom(s, k, i + 1)
  }

  /** Every selection in `ps` has k items drawn from `s` without using a position twice. */
  ghost predicate Shaped<T>(ps: seq<seq<T>>, k: nat, s: seq<T>) {
    forall m :: 0 <= m < |ps| ==> |ps[m]| == k && multiset(ps[m]) <= multiset(s)
  }

  /** Every selection has k items, drawn from `s` without using a position twice. */
  lemma {:induction false} ArrangementsShape<T>(s: seq<T>, k: nat)
    ensures Shaped(Arrangements(s, k), k, s)
    decreases k, 1, 0
  {
    if k > 0 { ArrangeFromShape(s, k, 0); }
  }

  lemma {:induction false} ArrangeFromShape<T>(s: seq<T>, k: nat, i: nat)
    requires k > 0 && i <= |s|
    ensures Shaped(ArrangeFrom(s, k, i), k, s)
    decreases k, 0, |s| - i
  {
    if i < |s| {
      var rest := Arrangements(RemoveAt(s, i), k - 1);
      var head := Prefixed(s[i], rest);
      var tail := ArrangeFrom(s, k, i + 1);
      ArrangementsShape(RemoveAt(s, i), k - 1);
      RemoveAtMultiset(s, i);
      ArrangeFromShape(s, k, i + 1);
      forall m | 0 <= m < |head|
        ensures |head[m]| == k && multiset(head[m]) <= multiset(s)
      {
        assert head[m] == [s[i]] + rest[m];
        assert multiset(head[m]) == multiset{s[i]} + multiset(rest[m]);
      }
      ShapedAppend(head, tail, k, s);
    }
  }

  lemma ShapedAppend<T>(a: seq<seq<T>>, b: seq<seq<T>>, k: nat, s: seq<T>)
    requires Shaped(a, k, s) && Shaped(b, k, s)
    ensures Shaped(a + b, k, s)
  {
    forall m | 0 <= m < |a + b| ensures |(a + b)[m]| == k && multiset((a + b)[m]) <= multiset(s) {
      if m < |a| { assert (a + b)[m] == a[m]; } else { assert (a + b)[m] == b[m - |a|]; }
    }
  }

  /** There are exactly P(n, k) ordered k-selections of n positions; none when k > n. */
  lemma {:induction false} ArrangementsCount<T>(s: seq<T>, k: nat)
    ensures |Arrangements(s, k)| == FallingFactorial(|s|, k)
    decreases k, 1, 0
  {
    if k > 0 {
      ArrangeFromCount(s, k, 0);
    }
  }

  lemma {:induction false} ArrangeFromCount<T>(s: seq<T>, k: nat, i: nat)
    requires k > 0 && i <= |s|
    ensures |ArrangeFrom(s, k, i)| == (|s| - i) * FallingFactorial(|s| - 1, k - 1)
    decreases k, 0, |s| - i
  {
    if i < |s| {
      var f := FallingFactorial(|s| - 1, k - 1);
      var head := Prefixed(s[i], Arrangements(RemoveAt(s, i), k - 1));
      var tail := ArrangeFrom(s, k, i + 1);
      assert ArrangeFrom(s, k, i) == head + tail;
      ArrangementsCount(RemoveAt(s, i), k - 1);
      assert |head| == f;
      ArrangeFromCount(s, k, i + 1);
      assert |tail| == (|s| - i - 1) * f;
      MulSucc(|s| - i - 1, f);
    }
  }

  lemma MulSucc(a: int, f: int)
    ensures (a + 1) * f == f + a * f
  {
  }

  /** Every selection in `ArrangeFrom(s, k, i)` starts with an item at position i or later. */
  lemma {:induction false} ArrangeFromHeads<T>(s: seq<T>, k: nat, i: nat)
    requires k > 0 && i <= |s|
    ensures forall m :: 0 <= m < |ArrangeFrom(s, k, i)| ==>
      |ArrangeFrom(s, k, i)[m]| > 0 && ArrangeFrom(s, k, i)[m][0] in s[i..]
    decreases |s| - i
  {
    if i < |s| {
      var head := Prefixed(s[i], Arrangements(RemoveAt(s, i), k - 1));
      var tail := ArrangeFrom(s, k, i + 1);
      ArrangeFromHeads(s, k, i + 1);
      forall m | 0 <= m < |head + tail| ensures |(head + tail)[m]| > 0 && (head + tail)[m][0] in s[i..] {
        if m < |head| {
          assert (head + tail)[m] == head[m];
          assert s[i..][0] == s[i];
        } else {
          assert (head + tail)[m] == tail[m - |head|];
          assert s[i + 1..] == s[i..][1..];
        }
      }
    }
  }

  lemma DistinctAppend<T>(a: seq<T>, b: seq<T>)
    requires Distinct(a) && Distinct(b)
    requires forall p, q :: 0 <= p < |a| && 0 <= q < |b| ==> a[p] != b[q]
    ensures Distinct(a + b)
  {
    forall p, q | 0 <= p < q < |a + b| ensures (a + b)[p] != (a + b)[q] {
      if q < |a| {
        assert (a + b)[p] == a[p] && (a + b)[q] == a[q];
      } else if p >= |a| {
        assert (a + b)[p] == b[p - |a|] && (a + b)[q] == b[q - |a|];
      } else {
        assert (a + b)[p] == a[p] && (a + b)[q] == b[q - |a|];
      }
    }
  }

  lemma DistinctPrefixed<T>(x: T, ps: seq<seq<T>>)
    requires Distinct(ps)
    ensures Distinct(Prefixed(x, ps))
    ensures forall m :: 0 <= m < |ps| ==> Prefixed(x, ps)[m][0] == x
  {
    var h := Prefixed(x, ps);
    forall p, q | 0 <= p < q < |h| ensures h[p] != h[q] {
      assert h[p][1..] == ps[p] && h[q][1..] == ps[q];
    }
  }

  /** Over pairwise distinct items, the selections are pairwise distinct. */
  lemma {:induction false} ArrangementsDistinct<T>(s: seq<T>, k: nat)
    requires Distinct(s)
    ensures Distinct(Arrangements(s, k))
    decreases k, 1, 0
  {
    if k > 0 { ArrangeFromDistinct(s, k, 0); }
  }

  lemma {:induction false} ArrangeFromDistinct<T>(s: seq<T>, k: nat, i: nat)
    requires Distinct(s) && k > 0 && i <= |s|
    ensures Distinct(ArrangeFrom(s, k, i))
    decreases k, 0, |s| - i
  {
    if i < |s| {
      var rest := Arrangements(RemoveAt(s, i), k - 1);
      var head := Prefixed(s[i], rest);
      var tail := ArrangeFrom(s, k, i + 1);
      DistinctRemoveAt(s, i);
      ArrangementsDistinct(RemoveAt(s, i), k - 1);
      DistinctPrefixed(s[i], rest);
      ArrangeFromDistinct(s, k, i + 1);
      ArrangeFromHeads(s, k, i + 1);
      forall p, q | 0 <= p < |head| && 0 <= q < |tail| ensures head[p] != tail[q] {
        var j :| 0 <= j < |s[i + 1..]| && s[i + 1..][j] == tail[q][0];
        assert tail[q][0] == s[i + 1 + j] != s[i];
      }
      DistinctAppend(head, tail);
    }
  }

  /** `x` is among the selections of `ArrangeFrom(s, k, i)` once it is among those that start at position j >= i. */
  lemma {:induction false} ArrangeFromContains<T>(s: seq<T>, k: nat, i: nat, j: nat, a: seq<T>)
    requires k > 0 && i <= j < |s|
    requires a in Prefixed(s[j], Arrangements(RemoveAt(s, j), k - 1))
    ensures a in ArrangeFrom(s, k, i)
    decreases j - i
  {
    if i < j {
      ArrangeFromContains(s, k, i + 1, j, a);
    }
  }

  /**
   * Completeness: over pairwise distinct items, every repetition-free sequence
   * of k items of `s` is one of the selections.
   */
  lemma {:induction false} ArrangementsComplete<T>(s: seq<T>, k: nat, a: seq<T>)
    requires Distinct(s) && Distinct(a) && |a| == k
    requires forall x :: x in a ==> x in s
    ensures a in Arrangements(s, k)
    decreases k
  {
    if k > 0 {
      assert a[0] in a;
      var j :| 0 <= j < |s| && s[j] == a[0];
      var r := RemoveAt(s, j);
      DistinctRemoveAt(s, j);
      var b := a[1..];
      assert Distinct(b) by {
        forall p, q | 0 <= p < q < |b| ensures b[p] != b[q] { assert b[p] == a[p + 1] && b[q] == a[q + 1]; }
      }
      forall x | x in b ensures x in r {
        var m :| 0 <= m < |b| && b[m] == x;
        assert a[m + 1] == x && a[0] != x;
        assert x in a;
        InRemoveAt(s, j, x);
      }
      ArrangementsComplete(r, k - 1, a[1..]);
      var rest := Arrangements(r, k - 1);
      var m :| 0 <= m < |rest| && rest[m] == a[1..];
      assert Prefixed(s[j], rest)[m] == a;
      ArrangeFromContains(s, k, 0, j, a);
    }
  }

  lemma InRemoveAt<T>(s: seq<T>, j: nat, x: T)
    requires j < |s| && x in s && x != s[j]
    ensures x in RemoveAt(s, j)
  {
    var t :| 0 <= t < |s| && s[t] == x;
    if t < j { assert RemoveAt(s, j)[t] == x; } else { assert RemoveAt(s, j)[t - 1] == x; }
  }

  /** Every item of `s` except the ones equal to `x`, in order (the source's `filter(c => c !== x)` on strings). */
  function RemoveValue<T(==,!new)>(s: seq<T>, x: T): (r: seq<T>)
    ensures |r| <= |s|
    ensures forall y :: y in r <==> y in s && y != x
  {
    if s == [] then []
    else if s[0] == x then RemoveValue(s[1..], x)
    else [s[0]] + RemoveValue(s[1..], x)
  }

  /** Ordered k-selections where choosing a value removes every copy of it. */
  function ValueArrangements<T(==,!new)>(s: seq<T>, k: nat): seq<seq<T>>
    decreases k, 1, 0
  {
    if k == 0 then [[]] else ValueArrangeFrom(s, k, 0)
  }

  function ValueArrangeFrom<T(==,!new)>(s: seq<T>, k: nat, i: nat): seq<seq<T>>
    requires k > 0 && i <= |s|
    decreases k, 0, |s| - i
  {
    if i == |s| then []
    else Prefixed(s[i], ValueArrangements(RemoveValue(s, s[i]), k - 1)) + ValueArrangeFrom(s, k, i + 1)
  }

  /** Every value-selection has k items, all from `s`, none repeated (even when `s` repeats values). */
  lemma {:induction false} ValueArrangementsShape<T(!new)>(s: seq<T>, k: nat)
    ensures forall a :: a in ValueArrangements(s, k) ==>
      |a| == k && Distinct(a) && forall x :: x in a ==> x in s
    decreases k, 1, 0
  {
    if k > 0 { ValueArrangeFromShape(s, k, 0); }
  }

  lemma {:induction false} ValueArrangeFromShape<T(!new)>(s: seq<T>, k: nat, i: nat)
    requires k > 0 && i <= |s|
    ensures forall a :: a in ValueArrangeFrom(s, k, i) ==>
      |a| == k && Distinct(a) && forall x :: x in a ==> x in s
    decreases k, 0, |s| - i
  {
    if i < |s| {
      var r := RemoveValue(s, s[i]);
      var rest := ValueArrangements(r, k - 1);
      ValueArrangementsShape(r, k - 1);
      forall a | a in Prefixed(s[i], rest)
        ensures |a| == k && Distinct(a) && forall x :: x in a ==> x in s
      {
        var j :| 0 <= j < |rest| && a == [s[i]] + rest[j];
        assert rest[j] in rest;
        forall p, q | 0 <= p < q < |a| ensures a[p] != a[q] {
          if p == 0 {
            assert a[q] == rest[j][q - 1] && a[q] in rest[j];
          } else {
            assert a[p] == rest[j][p - 1] && a[q] == rest[j][q - 1];
          }
        }
        forall x | x in a ensures x in s {
          if x != s[i] { assert x in rest[j]; }
        }
      }
      ValueArrangeFromShape(s, k, i + 1);
    }
  }

  lemma {:induction false} RemoveValueDistinct<T(!new)>(s: seq<T>, i: nat)
    requires Distinct(s) && i < |s|
    ensures RemoveValue(s, s[i]) == RemoveAt(s, i)
    decreases |s|
  {
    var tail := s[1..];
    assert Distinct(tail) by {
      forall p, q | 0 <= p < q < |tail| ensures tail[p] != tail[q] {
        assert tail[p] == s[p + 1] && tail[q] == s[q + 1];
      }
    }
    if i > 0 {
      assert s[0] != s[i];
      assert RemoveValue(s, s[i]) == [s[0]] + RemoveValue(tail, s[i]);
      assert tail[i - 1] == s[i];
      RemoveValueDistinct(tail, i - 1);
      assert s[..i] == [s[0]] + tail[..i - 1];
      assert s[i + 1..] == tail[i..];
    } else {
      assert s[0] !in tail by {
        forall q | 0 <= q < |tail| ensures tail[q] != s[0] { assert tail[q] == s[q + 1]; }
      }
      RemoveValueAbsent(tail, s[0]);
      assert RemoveAt(s, 0) == tail;
    }
  }

  lemma RemoveValueAbsent<T(!new)>(s: seq<T>, x: T)
    requires x !in s
    ensures RemoveValue(s, x) == s
  {
  }

  lemma DistinctRemoveAt<T>(s: seq<T>, i: nat)
    requires Distinct(s) && i < |s|
    ensures Distinct(RemoveAt(s, i))
  {
    var r := RemoveAt(s, i);
    forall p, q | 0 <= p < q < |r| ensures r[p] != r[q] {
      var p' := if p < i then p else p + 1;
      var q' := if q < i then q else q + 1;
      assert r[p] == s[p'] && r[q] == s[q'];
    }
  }

  /** Over pairwise distinct items, removing by value and removing by position enumerate the same selections. */
  lemma {:induction false} ValueArrangementsOfDistinct<T(!new)>(s: seq<T>, k: nat)
    requires Distinct(s)
    ensures ValueArrangements(s, k) == Arrangements(s, k)
    decreases k, 1, 0
  {
    if k > 0 { ValueArrangeFromOfDistinct(s, k, 0); }
  }

  lemma {:induction false} ValueArrangeFromOfDistinct<T(!new)>(s: seq<T>, k: nat, i: nat)
    requires Distinct(s) && k > 0 && i <= |s|
    ensures ValueArrangeFrom(s, k, i) == ArrangeFrom(s, k, i)
    decreases k, 0, |s| - i
  {
    if i < |s| {
      RemoveValueDistinct(s, i);
      DistinctRemoveAt(s, i);
      ValueArrangementsOfDistinct(RemoveAt(s, i), k - 1);
      ValueArrangeFromOfDistinct(s, k, i + 1);
    }
  }

  lemma {:induction false} RemoveValueShorter<T(!new)>(s: seq<T>, x: T)
    requires x in s
    ensures |RemoveValue(s, x)| < |s|
  {
    if s[0] != x { RemoveValueShorter(s[1..], x); }
  }

  /** With fewer values than places there is no selection at all. */
  lemma {:induction false} ValueArrangementsTooFew<T(!new)>(s: seq<T>, k: nat)
    requires k > |s|
    ensures ValueArrangements(s, k) == []
    decreases k, 1, 0
  {
    ValueArrangeFromTooFew(s, k, 0);
  }

  lemma {:induction false} ValueArrangeFromTooFew<T(!new)>(s: seq<T>, k: nat, i: nat)
    requires k > |s| && i <= |s|
    ensures ValueArrangeFrom(s, k, i) == []
    decreases k, 0, |s| - i
  {
    if i < |s| {
      var rv := RemoveValue(s, s[i]);
      assert s[i] in s;
      RemoveValueShorter(s, s[i]);
      ValueArrangementsTooFew(rv, k - 1);
      ValueArrangeFromTooFew(s, k, i + 1);
      assert ValueArrangeFrom(s, k, i) == Prefixed(s[i], ValueArrangements(rv, k - 1)) + ValueArrangeFrom(s, k, i + 1);
    }
  }

  /** `current` followed by each continuation. */
  function Extend<T>(current: seq<T>, ps: seq<seq<T>>): (r: seq<seq<T>>)
    ensures |r| == |ps|
    ensures forall j :: 0 <= j < |ps| ==> r[j] == current + ps[j]
  {
    seq(|ps|, j requires 0 <= j < |ps| => current + ps[j])
  }

  lemma ExtendAppend<T>(c: seq<T>, a: seq<seq<T>>, b: seq<seq<T>>)
    ensures Extend(c, a + b) == Extend(c, a) + Extend(c, b)
  {
  }

  lemma ExtendPrefixed<T>(c: seq<T>, x: T, ps: seq<seq<T>>)
    ensures Extend(c, Prefixed(x, ps)) == Extend(c + [x], ps)
  {
    forall j | 0 <= j < |ps| ensures Extend(c, Prefixed(x, ps))[j] == Extend(c + [x], ps)[j] {
      assert c + ([x] + ps[j]) == (c + [x]) + ps[j];
    }
  }

  lemma ExtendEmpty<T>(ps: seq<seq<T>>)
    ensures Extend([], ps) == ps
  {
    forall j | 0 <= j < |ps| ensures Extend([], ps)[j] == ps[j] {
      assert [] + ps[j] == ps[j];
    }
  }

  lemma RemoveAtAbsent<T>(s: seq<T>, p: nat)
    requires Distinct(s) && p < |s|
    ensures s[p] !in RemoveAt(s, p)
  {
    forall m | 0 <= m < |RemoveAt(s, p)| ensures RemoveAt(s, p)[m] != s[p] {
      if m < p { assert RemoveAt(s, p)[m] == s[m]; } else { assert RemoveAt(s, p)[m] == s[m + 1]; }
    }
  }

  /** Shuffling distinct items gives distinct items. */
  lemma ShuffledDistinct<T>(s: seq<T>, picks: seq<nat>)
    requires Distinct(s)
    ensures Distinct(Shuffled(s, picks))
    decreases |s|
  {
    if s != [] {
      var p := PickIndex(picks, |s|);
      var rest := RemoveAt(s, p);
      DistinctRemoveAt(s, p);
      ShuffledDistinct(rest, Drop1(picks));
      ShuffledMultiset(rest, Drop1(picks));
      var sh := Shuffled(rest, Drop1(picks));
      RemoveAtAbsent(s, p);
      forall q | 0 <= q < |sh| ensures sh[q] != s[p] {
        assert sh[q] in multiset(rest);
      }
      DistinctAppend([s[p]], sh);
    }
  }

  /**
   * A shuffle driven by `picks`: each step moves the item at position
   * `pick % (items left)` to the output. `Math.random`-based sorting is modelled
   * as some choice of picks; every permutation is reachable (see ShuffledReachesAll).
   */
  function Shuffled<T>(s: seq<T>, picks: seq<nat>): (r: seq<T>)
    ensures |r| == |s|
    decreases |s|
  {
    if s == [] then []
    else
      var p := PickIndex(picks, |s|);
      [s[p]] + Shuffled(RemoveAt(s, p), Drop1(picks))
  }

  /** The position the next pick selects among n items left. */
  function PickIndex(picks: seq<nat>, n: nat): (p: nat)
    requires n > 0
    ensures p < n
  {
    if picks == [] then 0 else if picks[0] < n then picks[0] else picks[0] % n
  }

  function Drop1(picks: seq<nat>): seq<nat> {
    if picks == [] then [] else picks[1..]
  }

  lemma {:induction false} ShuffledMultiset<T>(s: seq<T>, picks: seq<nat>)
    ensures multiset(Shuffled(s, picks)) == multiset(s)
    decreases |s|
  {
    if s != [] {
      var p := PickIndex(picks, |s|);
      ShuffledMultiset(RemoveAt(s, p), Drop1(picks));
      RemoveAtMultiset(s, p);
    }
  }

  lemma ShuffledStep<T>(s: seq<T>, p: nat, rest: seq<nat>)
    requires p < |s|
    ensures Shuffled(s, [p] + rest) == [s[p]] + Shuffled(RemoveAt(s, p), rest)
  {
    var picks := [p] + rest;
    assert Drop1(picks) == rest;
    assert PickIndex(picks, |s|) == p;
  }

  lemma MultisetCancel<T>(t: seq<T>, s: seq<T>, p: nat)
    requires p < |s| && |t| > 0 && s[p] == t[0] && multiset(t) == multiset(s)
    ensures multiset(t[1..]) == multiset(RemoveAt(s, p))
  {
    RemoveAtMultiset(s, p);
    assert t == [t[0]] + t[1..];
    assert multiset(t) == multiset{t[0]} + multiset(t[1..]);
    calc {
      multiset(t[1..]);
      multiset(t) - multiset{t[0]};
      multiset(s) - multiset{s[p]};
      multiset(RemoveAt(s, p));
    }
  }

  /** Every rearrangement of `s` is the shuffle of some picks. */
  lemma {:induction false} ShuffledReachesAll<T>(s: seq<T>, t: seq<T>)
    requires multiset(t) == multiset(s)
    ensures exists picks :: Shuffled(s, picks) == t
    decreases |s|
  {
    if s == [] {
      assert |t| == |multiset(t)| == 0;
      assert Shuffled(s, []) == t;
    } else {
      assert |t| == |multiset(t)| == |s|;
      assert t[0] in multiset(s);
      var p :| 0 <= p < |s| && s[p] == t[0];
      MultisetCancel(t, s, p);
      ShuffledReachesAll(RemoveAt(s, p), t[1..]);
      var rest :| Shuffled(RemoveAt(s, p), rest) == t[1..];
      ShuffledStep(s, p, rest);
      assert Shuffled(s, [p] + rest) == t;
    }
  }
}
