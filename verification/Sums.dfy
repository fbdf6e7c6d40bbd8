/** Finite sums over sets and sequences, filters, and the laws the money proofs rest on. */
module Sums {

  // ---- sequences ----

  function SumSeq<T>(s: seq<T>, f: T -> int): int {
    if s == [] then 0 else f(s[0]) + SumSeq(s[1..], f)
  }

  function Filter<T(!new)>(s: seq<T>, p: T -> bool): (r: seq<T>)
    ensures forall x :: x in r <==> x in s && p(x)
    ensures |r| <= |s|
  {
    if s == [] then []
    else if p(s[0]) then [s[0]] + Filter(s[1..], p)
    else Filter(s[1..], p)
  }

  lemma {:induction false} FilterNothing<T(!new)>(s: seq<T>, p: T -> bool)
    requires forall x :: x in s ==> !p(x)
    ensures Filter(s, p) == []
  {
    if s != [] {
      FilterNothing(s[1..], p);
    }
  }

  lemma {:induction false} SumSeqConcat<T>(a: seq<T>, b: seq<T>, f: T -> int)
    ensures SumSeq(a + b, f) == SumSeq(a, f) + SumSeq(b, f)
  {
    if a == [] {
      assert a + b == b;
    } else {
      assert (a + b)[1..] == a[1..] + b;
      SumSeqConcat(a[1..], b, f);
    }
  }

  lemma SumSeqSingle<T>(x: T, f: T -> int)
    ensures SumSeq([x], f) == f(x)
  {
    assert [x][1..] == [];
  }

  lemma {:induction false} SumSeqCong<T>(s: seq<T>, f: T -> int, g: T -> int)
    requires forall x :: x in s ==> f(x) == g(x)
    ensures SumSeq(s, f) == SumSeq(s, g)
  {
    if s != [] {
      SumSeqCong(s[1..], f, g);
    }
  }

  lemma {:induction false} SumSeqZero<T>(s: seq<T>, f: T -> int)
    requires forall x :: x in s ==> f(x) == 0
    ensures SumSeq(s, f) == 0
  {
    if s != [] {
      SumSeqZero(s[1..], f);
    }
  }

  lemma {:induction false} SumSeqNonNegative<T>(s: seq<T>, f: T -> int)
    requires forall x :: x in s ==> f(x) >= 0
    ensures SumSeq(s, f) >= 0
  {
    if s != [] {
      SumSeqNonNegative(s[1..], f);
    }
  }

  lemma {:induction false} SumSeqPositive<T>(s: seq<T>, f: T -> int)
    requires s != [] && forall x :: x in s ==> f(x) > 0
    ensures SumSeq(s, f) > 0
  {
    SumSeqNonNegative(s[1..], f);
  }

  /** Summing after a filter is summing the kept part of every element. */
  lemma {:induction false} SumSeqFilter<T(!new)>(s: seq<T>, p: T -> bool, f: T -> int, kept: T -> int)
    requires forall x :: x in s ==> kept(x) == if p(x) then f(x) else 0
    ensures SumSeq(Filter(s, p), f) == SumSeq(s, kept)
  {
    if s != [] {
      SumSeqFilter(s[1..], p, f, kept);
      if p(s[0]) {
        assert ([s[0]] + Filter(s[1..], p))[1..] == Filter(s[1..], p);
      }
    }
  }

  // ---- sets ----

  ghost function Sum<T(!new)>(s: set<T>, f: T -> int): int {
    if s == {} then 0 else
      var x :| x in s;
      f(x) + Sum(s - {x}, f)
  }

  lemma {:induction false} SumRemove<T(!new)>(s: set<T>, f: T -> int, x: T)
    requires x in s
    ensures Sum(s, f) == f(x) + Sum(s - {x}, f)
  {
    var y :| y in s && Sum(s, f) == f(y) + Sum(s - {y}, f);
    if y != x {
      SumRemove(s - {y}, f, x);
      SumRemove(s - {x}, f, y);
      assert s - {y} - {x} == s - {x} - {y};
    }
  }

  lemma SumInsert<T(!new)>(s: set<T>, f: T -> int, x: T)
    requires x !in s
    ensures Sum(s + {x}, f) == f(x) + Sum(s, f)
  {
    SumRemove(s + {x}, f, x);
    assert s + {x} - {x} == s;
  }

  lemma {:induction false} SumCong<T(!new)>(s: set<T>, f: T -> int, g: T -> int)
    requires forall x :: x in s ==> f(x) == g(x)
    ensures Sum(s, f) == Sum(s, g)
  {
    if s != {} {
      var x :| x in s;
      SumRemove(s, f, x);
      SumRemove(s, g, x);
      SumCong(s - {x}, f, g);
    }
  }

  lemma {:induction false} SumAdd<T(!new)>(s: set<T>, f: T -> int, g: T -> int, h: T -> int)
    requires forall x :: x in s ==> h(x) == f(x) + g(x)
    ensures Sum(s, h) == Sum(s, f) + Sum(s, g)
  {
    if s != {} {
      var x :| x in s;
      SumRemove(s, f, x);
      SumRemove(s, g, x);
      SumRemove(s, h, x);
      SumAdd(s - {x}, f, g, h);
    }
  }

  lemma {:induction false} SumZero<T(!new)>(s: set<T>, f: T -> int)
    requires forall x :: x in s ==> f(x) == 0
    ensures Sum(s, f) == 0
  {
    if s != {} {
      var x :| x in s;
      SumRemove(s, f, x);
      SumZero(s - {x}, f);
    }
  }

  lemma {:induction false} SumNonNegative<T(!new)>(s: set<T>, f: T -> int)
    requires forall x :: x in s ==> f(x) >= 0
    ensures Sum(s, f) >= 0
    ensures forall x :: x in s ==> f(x) <= Sum(s, f)
  {
    if s != {} {
      var x :| x in s;
      SumRemove(s, f, x);
      SumNonNegative(s - {x}, f);
      forall y | y in s ensures f(y) <= Sum(s, f) {
        if y != x { assert y in s - {x}; }
      }
    }
  }

  lemma {:induction false} SumUnion<T(!new)>(a: set<T>, b: set<T>, f: T -> int)
    requires a !! b
    ensures Sum(a + b, f) == Sum(a, f) + Sum(b, f)
  {
    if b == {} {
      assert a + b == a;
    } else {
      var x :| x in b;
      SumRemove(b, f, x);
      SumUnion(a, b - {x}, f);
      SumInsert(a + (b - {x}), f, x);
      assert a + (b - {x}) + {x} == a + b;
    }
  }

  /** A function that vanishes on the extra elements sums to the same over a larger set. */
  lemma SumSupport<T(!new)>(small: set<T>, large: set<T>, f: T -> int)
    requires small <= large
    requires forall x :: x in large && x !in small ==> f(x) == 0
    ensures Sum(large, f) == Sum(small, f)
  {
    SumUnion(small, large - small, f);
    assert small + (large - small) == large;
    SumZero(large - small, f);
  }

  // ---- listings: a sequence that enumerates a set without repetition ----

  ghost predicate Distinct<T(!new)>(s: seq<T>) {
    forall i, j :: 0 <= i < j < |s| ==> s[i] != s[j]
  }

  ghost predicate Listing<T(!new)>(s: seq<T>, elements: set<T>) {
    Distinct(s) && forall x :: x in s <==> x in elements
  }

  lemma ListingTail<T(!new)>(s: seq<T>, elements: set<T>)
    requires Listing(s, elements) && s != []
    ensures Listing(s[1..], elements - {s[0]})
  {
    forall x ensures x in s[1..] <==> x in elements - {s[0]} {
      if x in s && x != s[0] {
        var i :| 0 <= i < |s| && s[i] == x;
        assert s[1..][i - 1] == x;
      }
      if x in s[1..] {
        var i :| 0 <= i < |s| - 1 && s[1..][i] == x;
        assert s[i + 1] == x && s[0] != s[i + 1];
      }
    }
  }

  lemma {:induction false} ListingSum<T(!new)>(s: seq<T>, elements: set<T>, f: T -> int)
    requires Listing(s, elements)
    ensures SumSeq(s, f) == Sum(elements, f)
  {
    if s == [] {
      assert forall x :: x in elements <==> x in s;
    } else {
      ListingTail(s, elements);
      ListingSum(s[1..], elements - {s[0]}, f);
      SumRemove(elements, f, s[0]);
    }
  }

  lemma {:induction false} ListingLength<T(!new)>(s: seq<T>, elements: set<T>)
    requires Listing(s, elements)
    ensures |s| == |elements|
  {
    if s == [] {
      assert forall x :: x in elements <==> x in s;
    } else {
      ListingTail(s, elements);
      ListingLength(s[1..], elements - {s[0]});
    }
  }

  /** Two listings of one set have equal sums, whatever their orders. */
  lemma ListingsAgree<T(!new)>(a: seq<T>, b: seq<T>, elements: set<T>, f: T -> int)
    requires Listing(a, elements) && Listing(b, elements)
    ensures SumSeq(a, f) == SumSeq(b, f)
  {
    ListingSum(a, elements, f);
    ListingSum(b, elements, f);
  }
}
