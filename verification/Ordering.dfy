/** Total orders and the deterministic listing that an ORDER BY over a unique key produces. */
module Ordering {
  import opened Sums

  // ---- text order (code point by code point, as a binary collation compares) ----

  predicate StringLe(a: string, b: string) {
    if a == "" then true
    else if b == "" then false
    else if a[0] != b[0] then a[0] < b[0]
    else StringLe(a[1..], b[1..])
  }

  lemma {:induction false} StringLeTotal(a: string, b: string)
    ensures StringLe(a, b) || StringLe(b, a)
  {
    if a != "" && b != "" && a[0] == b[0] {
      StringLeTotal(a[1..], b[1..]);
    }
  }

  lemma {:induction false} StringLeAntisymmetric(a: string, b: string)
    requires StringLe(a, b) && StringLe(b, a)
    ensures a == b
  {
    if a != "" && b != "" {
      StringLeAntisymmetric(a[1..], b[1..]);
      assert a == [a[0]] + a[1..] && b == [b[0]] + b[1..];
    }
  }

  lemma {:induction false} StringLeTransitive(a: string, b: string, c: string)
    requires StringLe(a, b) && StringLe(b, c)
    ensures StringLe(a, c)
  {
    if a != "" && b != "" && c != "" && a[0] == b[0] && b[0] == c[0] {
      StringLeTransitive(a[1..], b[1..], c[1..]);
    }
  }

  /** The first difference decides, and a prefix comes first. */
  lemma {:induction false} StringLeIsLexicographic(a: string, b: string)
    ensures StringLe(a, b) <==> a <= b || exists i :: DiffersFirstAt(a, b, i) && a[i] < b[i]
  {
    if a != "" && b != "" {
      if a[0] == b[0] {
        StringLeIsLexicographic(a[1..], b[1..]);
        assert a == [a[0]] + a[1..] && b == [b[0]] + b[1..];
        if i :| DiffersFirstAt(a, b, i) && a[i] < b[i] {
          assert a[1..][i - 1] == a[i] && b[1..][i - 1] == b[i];
          assert a[1..][..i - 1] == a[..i][1..] && b[1..][..i - 1] == b[..i][1..];
          assert DiffersFirstAt(a[1..], b[1..], i - 1);
        }
        if i :| DiffersFirstAt(a[1..], b[1..], i) && a[1..][i] < b[1..][i] {
          assert a[..i + 1] == [a[0]] + a[1..][..i] && b[..i + 1] == [b[0]] + b[1..][..i];
          assert DiffersFirstAt(a, b, i + 1) && a[i + 1] < b[i + 1];
        }
      } else {
        if a[0] < b[0] { assert DiffersFirstAt(a, b, 0); }
        assert forall i :: 0 < i <= |a| && i <= |b| ==> a[..i][0] == a[0] && b[..i][0] == b[0];
      }
    }
  }

  ghost predicate DiffersFirstAt(a: string, b: string, i: int) {
    0 <= i < |a| && i < |b| && a[..i] == b[..i] && a[i] != b[i]
  }

  lemma StringsTotal(s: set<string>)
    ensures TotalOn(StringLe, s)
  {
    forall x, y | x in s && y in s ensures StringLe(x, y) || StringLe(y, x) {
      StringLeTotal(x, y);
    }
    forall x, y | x in s && y in s && StringLe(x, y) && StringLe(y, x) ensures x == y {
      StringLeAntisymmetric(x, y);
    }
    forall x, y, z | x in s && y in s && z in s && StringLe(x, y) && StringLe(y, z) ensures StringLe(x, z) {
      StringLeTransitive(x, y, z);
    }
  }

  // ---- sorting a set ----

  ghost predicate TotalOn<T(!new)>(le: (T, T) -> bool, s: set<T>) {
    && (forall x, y :: x in s && y in s ==> le(x, y) || le(y, x))
    && (forall x, y :: x in s && y in s && le(x, y) && le(y, x) ==> x == y)
    && (forall x, y, z :: x in s && y in s && z in s && le(x, y) && le(y, z) ==> le(x, z))
  }

  ghost predicate Ascending<T(!new)>(le: (T, T) -> bool, r: seq<T>) {
    forall i, j :: 0 <= i < j < |r| ==> le(r[i], r[j])
  }

  lemma {:induction false} LeastExists<T(!new)>(le: (T, T) -> bool, s: set<T>) returns (m: T)
    requires s != {} && TotalOn(le, s)
    ensures m in s && forall x :: x in s ==> le(m, x)
  {
    m :| m in s;
    if s != {m} {
      var r := LeastExists(le, s - {m});
      if le(r, m) { m := r; }
    }
  }

  function SortSet<T(==,!new)>(le: (T, T) -> bool, s: set<T>): (r: seq<T>)
    requires TotalOn(le, s)
    ensures Listing(r, s)
    ensures Ascending(le, r)
  {
    if s == {} then [] else
      assert exists m :: m in s && forall x :: x in s ==> le(m, x) by { var m := LeastExists(le, s); }
      var m :| m in s && forall x :: x in s ==> le(m, x);
      [m] + SortSet(le, s - {m})
  }

  /** A set has exactly one ascending listing. */
  lemma {:induction false} AscendingUnique<T(!new)>(le: (T, T) -> bool, a: seq<T>, b: seq<T>, s: set<T>)
    requires TotalOn(le, s)
    requires Listing(a, s) && Listing(b, s)
    requires Ascending(le, a) && Ascending(le, b)
    ensures a == b
  {
    ListingLength(a, s);
    ListingLength(b, s);
    if a != [] {
      assert a[0] in s && b[0] in s;
      assert a[0] in b && b[0] in a;
      var i :| 0 <= i < |b| && b[i] == a[0];
      var j :| 0 <= j < |a| && a[j] == b[0];
      assert a[0] == b[0];
      ListingTail(a, s);
      ListingTail(b, s);
      AscendingUnique(le, a[1..], b[1..], s - {a[0]});
      assert a == [a[0]] + a[1..] && b == [b[0]] + b[1..];
    }
  }
}
