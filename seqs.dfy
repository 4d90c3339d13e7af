/** Generic folds over sequences, shared by the dashboard's reductions:
    sums (`reduce`), means, filters and first-seen de-duplication (`new Set`). */
module Seqs {

  datatype Option<T> = None | Some(value: T)

  /** `s.reduce((acc, x) => acc + f(x), 0)`: a left fold, so the last element is added last. */
  function SumOf<T>(s: seq<T>, f: T -> real): real
  {
    if s == [] then 0.0 else SumOf(s[..|s| - 1], f) + f(s[|s| - 1])
  }

  lemma SumOfAppend<T>(s: seq<T>, x: T, f: T -> real)
    ensures SumOf(s + [x], f) == SumOf(s, f) + f(x)
  {
    assert (s + [x])[..|s|] == s;
  }

  /** The fold may equally be read from the front. */
  lemma {:induction false} SumOfCons<T>(x: T, s: seq<T>, f: T -> real)
    ensures SumOf([x] + s, f) == f(x) + SumOf(s, f)
  {
    if s == [] {
      assert [x] + s == [x];
      assert [x][..0] == [];
    } else {
      var init := s[..|s| - 1];
      SumOfCons(x, init, f);
      assert ([x] + s)[..|s|] == [x] + init;
      assert ([x] + s)[|s|] == s[|s| - 1];
    }
  }

  /** Every summand between `lo` and `hi` puts the sum between |s|*lo and |s|*hi. */
  lemma {:induction false} SumOfBounds<T>(s: seq<T>, f: T -> real, lo: real, hi: real)
    requires forall i | 0 <= i < |s| :: lo <= f(s[i]) <= hi
    ensures (|s| as real) * lo <= SumOf(s, f) <= (|s| as real) * hi
  {
    if s != [] {
      var init := s[..|s| - 1];
      SumOfBounds(init, f, lo, hi);
      assert (|s| as real) * lo == (|init| as real) * lo + lo;
      assert (|s| as real) * hi == (|init| as real) * hi + hi;
    }
  }

  lemma {:induction false} SumOfNonNegative<T>(s: seq<T>, f: T -> real)
    requires forall i | 0 <= i < |s| :: 0.0 <= f(s[i])
    ensures 0.0 <= SumOf(s, f)
  {
    if s != [] {
      SumOfNonNegative(s[..|s| - 1], f);
    }
  }

  /** With no negative summands, each summand is at most the sum. */
  lemma {:induction false} SumOfElementBound<T>(s: seq<T>, f: T -> real, k: nat)
    requires forall i | 0 <= i < |s| :: 0.0 <= f(s[i])
    requires k < |s|
    ensures f(s[k]) <= SumOf(s, f)
  {
    var init := s[..|s| - 1];
    SumOfNonNegative(init, f);
    if k < |init| {
      SumOfElementBound(init, f, k);
    }
  }

  /** `sum / length` over a non-empty list: the mean lies between any lower and upper
      bound of its members, so in particular between their minimum and maximum. */
  lemma MeanBetween<T>(s: seq<T>, f: T -> real, lo: real, hi: real)
    requires s != []
    requires forall i | 0 <= i < |s| :: lo <= f(s[i]) <= hi
    ensures lo <= SumOf(s, f) / (|s| as real) <= hi
  {
    SumOfBounds(s, f, lo, hi);
    var n := |s| as real;
    assert lo * n <= SumOf(s, f) <= hi * n;
    DivideBounds(SumOf(s, f), n, lo, hi);
  }

  lemma DivideBounds(sum: real, n: real, lo: real, hi: real)
    requires n > 0.0
    requires lo * n <= sum <= hi * n
    ensures lo <= sum / n <= hi
  {
    var q := sum / n;
    assert q * n == sum;
  }

  /** A constant factor can be taken out of a sum. */
  lemma {:induction false} SumOfScale<T>(s: seq<T>, f: T -> real, g: T -> real, c: real)
    requires forall i | 0 <= i < |s| :: g(s[i]) == c * f(s[i])
    ensures SumOf(s, g) == c * SumOf(s, f)
  {
    if s != [] {
      SumOfScale(s[..|s| - 1], f, g, c);
    }
  }

  /** `s.filter(p)`: the elements satisfying `p`, in their original order. */
  function Filter<T>(s: seq<T>, p: T -> bool): (r: seq<T>)
    ensures |r| <= |s|
  {
    if s == [] then [] else (if p(s[0]) then [s[0]] else []) + Filter(s[1..], p)
  }

  lemma {:induction false} FilterMembership<T>(s: seq<T>, p: T -> bool, x: T)
    ensures x in Filter(s, p) <==> x in s && p(x)
  {
    if s != [] {
      FilterMembership(s[1..], p, x);
      assert s == [s[0]] + s[1..];
    }
  }

  /** Two filters in a row keep exactly what their conjunction keeps, in the same order. */
  lemma {:induction false} FilterFusion<T>(s: seq<T>, p: T -> bool, q: T -> bool, pq: T -> bool)
    requires forall x :: pq(x) == (p(x) && q(x))
    ensures Filter(Filter(s, p), q) == Filter(s, pq)
  {
    if s != [] {
      FilterFusion(s[1..], p, q, pq);
      FilterConcat(if p(s[0]) then [s[0]] else [], Filter(s[1..], p), q);
    }
  }

  lemma {:induction false} FilterConcat<T>(s: seq<T>, t: seq<T>, p: T -> bool)
    ensures Filter(s + t, p) == Filter(s, p) + Filter(t, p)
  {
    if s != [] {
      FilterConcat(s[1..], t, p);
      assert (s + t)[1..] == s[1..] + t;
    } else {
      assert s + t == t;
    }
  }

  lemma TakeNext<T>(s: seq<T>, i: nat)
    requires i < |s|
    ensures s[..i + 1] == s[..i] + [s[i]]
  {
  }

  lemma AppendOne<T>(a: seq<T>, b: seq<T>, x: T)
    ensures a + (b + [x]) == (a + b) + [x]
  {
  }

  predicate Distinct<T(==)>(s: seq<T>)
  {
    forall i, j | 0 <= i < j < |s| :: s[i] != s[j]
  }

  /** Index of the first occurrence of `x` in `s`. */
  function IndexOf<T(==)>(s: seq<T>, x: T): (k: nat)
    requires x in s
    ensures k < |s| && s[k] == x && x !in s[..k]
  {
    if s[0] == x then 0 else
      assert x in s[1..] by { assert s == [s[0]] + s[1..]; }
      1 + IndexOf(s[1..], x)
  }

  /** `Array.from(new Set(xs))`: each element once, at the place of its first occurrence
      (a JavaScript Set iterates in insertion order and ignores repeated insertions). */
  function Dedup<T(==)>(xs: seq<T>): seq<T>
  {
    if xs == [] then []
    else
      var d := Dedup(xs[..|xs| - 1]);
      if xs[|xs| - 1] in d then d else d + [xs[|xs| - 1]]
  }

  lemma DedupAppend<T>(xs: seq<T>, x: T)
    ensures Dedup(xs + [x]) == if x in Dedup(xs) then Dedup(xs) else Dedup(xs) + [x]
  {
    assert (xs + [x])[..|xs|] == xs;
  }

  /** The de-duplicated list holds exactly the elements of the input, each once. */
  lemma {:induction false} DedupElements<T>(xs: seq<T>)
    ensures forall x :: x in Dedup(xs) <==> x in xs
    ensures Distinct(Dedup(xs))
  {
    if xs != [] {
      var init := xs[..|xs| - 1];
      DedupElements(init);
      assert xs == init + [xs[|xs| - 1]];
    }
  }

  /** Elements come out in the order of their first occurrence in the input. */
  lemma {:induction false} DedupFirstSeenOrder<T>(xs: seq<T>)
    ensures forall i, j | 0 <= i < j < |Dedup(xs)| ::
      Dedup(xs)[i] in xs && Dedup(xs)[j] in xs && IndexOf(xs, Dedup(xs)[i]) < IndexOf(xs, Dedup(xs)[j])
  {
    if xs != [] {
      var init, last := xs[..|xs| - 1], xs[|xs| - 1];
      assert xs == init + [last];
      DedupFirstSeenOrder(init);
      DedupElements(init);
      var d := Dedup(init);
      forall y | y in init
        ensures IndexOf(xs, y) == IndexOf(init, y)
      {
        IndexOfPrefix(init, [last], y);
      }
      if last !in d {
        assert last !in init;
        assert IndexOf(xs, last) == |init| by {
          assert xs[..|init|] == init;
        }
        forall i | 0 <= i < |d|
          ensures IndexOf(xs, d[i]) < IndexOf(xs, last)
        {
          assert d[i] in d;
        }
      }
    }
  }

  lemma IndexOfPrefix<T>(s: seq<T>, t: seq<T>, x: T)
    requires x in s
    ensures x in s + t && IndexOf(s + t, x) == IndexOf(s, x)
  {
    var k := IndexOf(s, x);
    assert (s + t)[k] == x;
    assert (s + t)[..k] == s[..k];
  }
}
