/** The dashboard's `sort((a, b) => key(b) - key(a))`: a stable sort into
    non-increasing key order. Since 2019 JavaScript requires `Array.prototype.sort`
    to be stable, and a stable sort by a total preorder has exactly one possible
    result, so insertion sort gives the same answer as the engine's algorithm. */
module Sorting {
  import opened Seqs

  /** Places `x` in front of the first element whose key is not greater than its own. */
  function Insert<T>(x: T, s: seq<T>, key: T -> real): (r: seq<T>)
    ensures |r| == |s| + 1
  {
    if s == [] || key(s[0]) <= key(x) then [x] + s
    else [s[0]] + Insert(x, s[1..], key)
  }

  function SortDescBy<T>(s: seq<T>, key: T -> real): (r: seq<T>)
    ensures |r| == |s|
  {
    if s == [] then [] else Insert(s[0], SortDescBy(s[1..], key), key)
  }

  predicate SortedDesc<T>(s: seq<T>, key: T -> real)
  {
    forall i, j | 0 <= i < j < |s| :: key(s[i]) >= key(s[j])
  }

  /** The elements whose key is `v`, in their order in `s`. */
  function Ties<T>(s: seq<T>, key: T -> real, v: real): seq<T>
  {
    if s == [] then [] else (if key(s[0]) == v then [s[0]] else []) + Ties(s[1..], key, v)
  }

  /** Index of the earliest element of maximal key: an independent reference for
      "the first element after a stable descending sort". */
  function FirstMaxIndex<T>(s: seq<T>, key: T -> real): (k: nat)
    requires s != []
    ensures k < |s|
    ensures forall j | 0 <= j < |s| :: key(s[j]) <= key(s[k])
    ensures forall j | 0 <= j < k :: key(s[j]) < key(s[k])
  {
    if |s| == 1 then 0
    else
      var k := 1 + FirstMaxIndex(s[1..], key);
      if key(s[k]) > key(s[0]) then k else 0
  }

  lemma {:induction false} InsertPermutes<T>(x: T, s: seq<T>, key: T -> real)
    ensures multiset(Insert(x, s, key)) == multiset(s) + multiset{x}
  {
    if s != [] && key(s[0]) > key(x) {
      InsertPermutes(x, s[1..], key);
      assert s == [s[0]] + s[1..];
    }
  }

  /** Every key of `s` is at most `b`. */
  predicate AllAtMost<T>(s: seq<T>, key: T -> real, b: real)
  {
    forall i | 0 <= i < |s| :: key(s[i]) <= b
  }

  lemma {:induction false} InsertAtMost<T>(x: T, s: seq<T>, key: T -> real, b: real)
    requires AllAtMost(s, key, b) && key(x) <= b
    ensures AllAtMost(Insert(x, s, key), key, b)
  {
    if s != [] && key(s[0]) > key(x) {
      InsertAtMost(x, s[1..], key, b);
      var r := Insert(x, s[1..], key);
      assert forall i | 1 <= i < |r| + 1 :: ([s[0]] + r)[i] == r[i - 1];
    }
  }

  /** A head no smaller than every later key extends a sorted sequence. */
  lemma ConsSorted<T>(a: T, r: seq<T>, key: T -> real)
    requires SortedDesc(r, key) && AllAtMost(r, key, key(a))
    ensures SortedDesc([a] + r, key)
  {
    var t := [a] + r;
    forall i, j | 0 <= i < j < |t|
      ensures key(t[i]) >= key(t[j])
    {
      assert t[j] == r[j - 1];
      if i > 0 {
        assert t[i] == r[i - 1];
      }
    }
  }

  lemma {:induction false} InsertSorted<T>(x: T, s: seq<T>, key: T -> real)
    requires SortedDesc(s, key)
    ensures SortedDesc(Insert(x, s, key), key)
  {
    if s == [] || key(s[0]) <= key(x) {
      assert AllAtMost(s, key, key(x)) by {
        forall i | 0 <= i < |s| ensures key(s[i]) <= key(x) {
          if i > 0 {
            assert key(s[0]) >= key(s[i]);
          }
        }
      }
      ConsSorted(x, s, key);
    } else {
      var tail := s[1..];
      assert SortedDesc(tail, key) by {
        forall i, j | 0 <= i < j < |tail| ensures key(tail[i]) >= key(tail[j]) {
          assert tail[i] == s[i + 1] && tail[j] == s[j + 1];
        }
      }
      assert AllAtMost(tail, key, key(s[0])) by {
        forall i | 0 <= i < |tail| ensures key(tail[i]) <= key(s[0]) {
          assert tail[i] == s[i + 1];
        }
      }
      InsertSorted(x, tail, key);
      InsertAtMost(x, tail, key, key(s[0]));
      ConsSorted(s[0], Insert(x, tail, key), key);
    }
  }

  /** The result is in non-increasing key order. */
  lemma {:induction false} SortDescBySorted<T>(s: seq<T>, key: T -> real)
    ensures SortedDesc(SortDescBy(s, key), key)
  {
    if s != [] {
      SortDescBySorted(s[1..], key);
      InsertSorted(s[0], SortDescBy(s[1..], key), key);
    }
  }

  /** The result is a permutation of the input. */
  lemma {:induction false} SortDescByPermutes<T>(s: seq<T>, key: T -> real)
    ensures multiset(SortDescBy(s, key)) == multiset(s)
  {
    if s != [] {
      SortDescByPermutes(s[1..], key);
      InsertPermutes(s[0], SortDescBy(s[1..], key), key);
      assert s == [s[0]] + s[1..];
    }
  }

  lemma {:induction false} InsertTies<T>(x: T, s: seq<T>, key: T -> real, v: real)
    ensures Ties(Insert(x, s, key), key, v) == (if key(x) == v then [x] else []) + Ties(s, key, v)
  {
    if s != [] && key(s[0]) > key(x) {
      var r := Insert(x, s[1..], key);
      InsertTies(x, s[1..], key, v);
      TiesCons(s[0], r, key, v);
      TiesCons(s[0], s[1..], key, v);
      assert [s[0]] + s[1..] == s;
      if key(x) == v {
        assert key(s[0]) != v;
      }
    } else {
      TiesCons(x, s, key, v);
    }
  }

  lemma TiesCons<T>(a: T, t: seq<T>, key: T -> real, v: real)
    ensures Ties([a] + t, key, v) == (if key(a) == v then [a] else []) + Ties(t, key, v)
  {
    assert ([a] + t)[1..] == t;
  }

  /** Stability: among elements with equal keys the input order is kept. */
  lemma {:induction false} SortDescByStable<T>(s: seq<T>, key: T -> real, v: real)
    ensures Ties(SortDescBy(s, key), key, v) == Ties(s, key, v)
  {
    if s != [] {
      SortDescByStable(s[1..], key, v);
      InsertTies(s[0], SortDescBy(s[1..], key), key, v);
    }
  }

  /** `sorted[0]` is the earliest element of maximal key. */
  lemma {:induction false} SortDescByHead<T>(s: seq<T>, key: T -> real)
    requires s != []
    ensures SortDescBy(s, key)[0] == s[FirstMaxIndex(s, key)]
  {
    if |s| > 1 {
      SortDescByHead(s[1..], key);
    }
  }

  /** Sorting does not change a sum over the elements. */
  lemma {:induction false} SortDescByPreservesSum<T>(s: seq<T>, key: T -> real, f: T -> real)
    ensures SumOf(SortDescBy(s, key), f) == SumOf(s, f)
  {
    if s != [] {
      SortDescByPreservesSum(s[1..], key, f);
      InsertSum(s[0], SortDescBy(s[1..], key), key, f);
      SumOfCons(s[0], s[1..], f);
      assert s == [s[0]] + s[1..];
    }
  }

  lemma {:induction false} InsertSum<T>(x: T, s: seq<T>, key: T -> real, f: T -> real)
    ensures SumOf(Insert(x, s, key), f) == f(x) + SumOf(s, f)
  {
    if s != [] && key(s[0]) > key(x) {
      InsertSum(x, s[1..], key, f);
      SumOfCons(s[0], Insert(x, s[1..], key), f);
      SumOfCons(s[0], s[1..], f);
      assert s == [s[0]] + s[1..];
    } else {
      SumOfCons(x, s, f);
    }
  }
}
