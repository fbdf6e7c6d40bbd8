/** Decimal numerals and the separator arguments that make composite text keys injective. */
module Numerals {

  function Digit(d: nat): (c: char)
    requires d < 10
    ensures '0' <= c <= '9'
  {
    ('0' as int + d) as char
  }

  function Decimal(n: nat): (s: string)
    ensures |s| == 1 <==> n < 10
    ensures s != ""
    ensures forall c :: c in s ==> '0' <= c <= '9'
  {
    if n < 10 then [Digit(n)] else Decimal(n / 10) + [Digit(n % 10)]
  }

  lemma {:induction false} DecimalInjective(a: nat, b: nat)
    requires Decimal(a) == Decimal(b)
    ensures a == b
  {
    var s := Decimal(a);
    assert Decimal(a)[|s| - 1] == Digit(a % 10);
    assert Decimal(b)[|s| - 1] == Digit(b % 10);
    if a >= 10 && b >= 10 {
      assert Decimal(a / 10) == s[..|s| - 1];
      assert Decimal(b / 10) == s[..|s| - 1];
      DecimalInjective(a / 10, b / 10);
    }
  }

  /** A numeral padded with zeros to a width, and longer than that only when it has to be. */
  function Padded(n: nat, width: nat): (s: string)
    ensures s != ""
    ensures forall c :: c in s ==> '0' <= c <= '9'
  {
    if n < 10 && width <= 1 then [Digit(n)]
    else Padded(n / 10, if width == 0 then 0 else width - 1) + [Digit(n % 10)]
  }

  lemma {:induction false} PaddedInjective(a: nat, b: nat, width: nat)
    requires Padded(a, width) == Padded(b, width)
    ensures a == b
    decreases width, a
  {
    var s := Padded(a, width);
    assert Padded(a, width)[|s| - 1] == Digit(a % 10);
    assert Padded(b, width)[|s| - 1] == Digit(b % 10);
    var less := if width == 0 then 0 else width - 1;
    if (a >= 10 || width > 1) && (b >= 10 || width > 1) {
      assert Padded(a / 10, less) == s[..|s| - 1];
      assert Padded(b / 10, less) == s[..|s| - 1];
      PaddedInjective(a / 10, b / 10, less);
    }
  }

  function PowerOfTen(digits: nat): nat {
    if digits == 0 then 1 else 10 * PowerOfTen(digits - 1)
  }

  lemma {:induction false} PaddedLength(n: nat, width: nat, digits: nat)
    requires n < PowerOfTen(digits) && width <= digits && digits >= 1
    ensures |Padded(n, width)| <= digits
    decreases width, n
  {
    if n >= 10 || width > 1 {
      PaddedLength(n / 10, if width == 0 then 0 else width - 1, digits - 1);
    }
  }

  lemma LastSeparator(a: string, c: char, x: string)
    requires c !in x
    ensures (a + [c] + x)[|a|] == c
    ensures forall k :: |a| < k < |a + [c] + x| ==> (a + [c] + x)[k] != c
  {
    forall k | |a| < k < |a + [c] + x| ensures (a + [c] + x)[k] != c {
      assert (a + [c] + x)[k] == x[k - |a| - 1];
    }
  }

  lemma FirstSeparator(a: string, c: char, x: string)
    requires c !in a
    ensures (a + [c] + x)[|a|] == c
    ensures forall k :: 0 <= k < |a| ==> (a + [c] + x)[k] != c
  {
    forall k | 0 <= k < |a| ensures (a + [c] + x)[k] != c {
      assert (a + [c] + x)[k] == a[k];
    }
  }

  lemma SplitAt(a: string, x: string, b: string, y: string, c: char)
    requires a + [c] + x == b + [c] + y
    requires |a| == |b|
    ensures a == b && x == y
  {
    var whole := a + [c] + x;
    assert a == whole[..|a|] && b == whole[..|a|];
    assert x == whole[|a| + 1..] && y == whole[|a| + 1..];
  }

  /** A text splits uniquely at its last separator. */
  lemma SplitAtLast(a: string, x: string, b: string, y: string, c: char)
    requires a + [c] + x == b + [c] + y
    requires c !in x && c !in y
    ensures a == b && x == y
  {
    LastSeparator(a, c, x);
    LastSeparator(b, c, y);
    SplitAt(a, x, b, y, c);
  }

  /** A text splits uniquely at its first separator. */
  lemma SplitAtFirst(a: string, x: string, b: string, y: string, c: char)
    requires a + [c] + x == b + [c] + y
    requires c !in a && c !in b
    ensures a == b && x == y
  {
    FirstSeparator(a, c, x);
    FirstSeparator(b, c, y);
    SplitAt(a, x, b, y, c);
  }
}
