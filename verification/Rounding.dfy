/** Rounding of exact integers to a number of significant binary digits, ties to the even multiple, as
    IEEE 754 prescribes it. What the integers count is up to the caller. */
module Rounding {
  function Pow2(n: nat): (p: nat)
    ensures p > 0
  {
    if n == 0 then 1 else 2 * Pow2(n - 1)
  }

  /** The number of binary digits of n. */
  function Length(n: nat): nat { if n == 0 then 0 else 1 + Length(n / 2) }

  /** How many steps of q come nearest to n; of two equally near numbers the even one. */
  function Steps(n: nat, q: nat): nat
    requires q > 0
  {
    var k, rest := n / q, n % q;
    if 2 * rest < q || (2 * rest == q && k % 2 == 0) then k else k + 1
  }

  function Nearest(n: nat, q: nat): nat
    requires q > 0
  {
    Steps(n, q) * q
  }

  /** The distance between numbers of the size of n that have `digits` significant digits, when nothing
      is finer than 2^least. */
  function Spacing(n: nat, digits: nat, least: nat): (q: nat)
    ensures q > 0
  {
    if Length(n) <= digits + least then Pow2(least) else Pow2(Length(n) - digits)
  }

  function Rounded(n: nat, digits: nat, least: nat): nat { Nearest(n, Spacing(n, digits, least)) }

  /** Whether n needs no rounding. */
  predicate Fits(n: nat, digits: nat, least: nat) { n % Spacing(n, digits, least) == 0 }

  // ----- powers and lengths -----

  lemma {:induction false} Pow2Adds(a: nat, b: nat)
    ensures Pow2(a + b) == Pow2(a) * Pow2(b)
  {
    if a > 0 {
      Pow2Adds(a - 1, b);
      assert Pow2(a + b) == 2 * Pow2(a + b - 1);
      assert 2 * (Pow2(a - 1) * Pow2(b)) == (2 * Pow2(a - 1)) * Pow2(b);
    }
  }

  lemma {:induction false} Pow2Grows(m: nat, n: nat)
    requires m < n
    ensures 2 * Pow2(m) <= Pow2(n)
  {
    if m + 1 < n { Pow2Grows(m, n - 1); }
  }

  lemma {:induction false} LengthBounds(n: nat)
    requires n > 0
    ensures Length(n) > 0 && Pow2(Length(n) - 1) <= n < Pow2(Length(n))
  {
    if n > 1 { LengthBounds(n / 2); }
  }

  lemma LengthIs(n: nat, length: nat)
    requires length > 0 && Pow2(length - 1) <= n < Pow2(length)
    ensures Length(n) == length
  {
    LengthBounds(n);
    if Length(n) < length { if Length(n) < length - 1 { Pow2Grows(Length(n), length - 1); } }
    if Length(n) > length { if length < Length(n) - 1 { Pow2Grows(length, Length(n) - 1); } }
  }

  lemma LengthBelow(n: nat, length: nat)
    ensures Length(n) <= length <==> n < Pow2(length)
  {
    if n > 0 {
      LengthBounds(n);
      if Length(n) < length { Pow2Grows(Length(n), length); }
      if length < Length(n) - 1 { Pow2Grows(length, Length(n) - 1); }
    }
  }

  // ----- products -----

  lemma Expand(a: nat, b: nat, q: nat)
    ensures (a + b) * q == a * q + b * q
  {
  }

  lemma Ordered(a: nat, b: nat, q: nat)
    ensures a <= b ==> a * q <= b * q
    ensures a < b ==> a * q + q <= b * q
  {
    if a < b {
      Expand(a, b - a, q);
      Expand(1, b - a - 1, q);
    }
  }

  lemma Associate(a: nat, b: nat, c: nat)
    ensures a * b * c == a * (b * c) == a * c * b
  {
    assert a * (b * c) == a * (c * b);
  }

  lemma Compared(a: nat, b: nat, s: nat)
    requires s > 0
    ensures (a < b <==> a * s < b * s) && (a == b <==> a * s == b * s)
  {
    Ordered(a, b, s);
    Ordered(b, a, s);
  }

  lemma Parts(n: nat, q: nat)
    requires q > 0
    ensures n == n / q * q + n % q && n % q < q
  {
  }

  lemma DivMod(n: nat, q: nat, k: nat, rest: nat)
    requires n == k * q + rest && rest < q
    ensures n / q == k && n % q == rest
  {
    var j := n / q;
    Parts(n, q);
    Ordered(j, k, q);
    Ordered(k, j, q);
  }

  lemma MultipleOf(k: nat, q: nat)
    requires q > 0
    ensures k * q % q == 0 && k * q / q == k
  {
    DivMod(k * q, q, k, 0);
  }

  lemma MultipleOfMultiple(n: nat, small: nat, large: nat)
    requires small > 0 && large > 0 && large % small == 0 && n % large == 0
    ensures n % small == 0
  {
    var a, b := n / large, large / small;
    Parts(n, large);
    Parts(large, small);
    Associate(a, b, small);
    MultipleOf(a * b, small);
  }

  lemma PowersDivide(a: nat, b: nat)
    requires a <= b
    ensures Pow2(b) % Pow2(a) == 0
  {
    Pow2Adds(b - a, a);
    MultipleOf(Pow2(b - a), Pow2(a));
  }

  lemma SumOfMultiples(a: nat, b: nat, q: nat)
    requires q > 0 && a % q == 0
    ensures (a + b) / q == a / q + b / q && (a + b) % q == b % q
  {
    Parts(a, q);
    Parts(b, q);
    Expand(a / q, b / q, q);
    DivMod(a + b, q, a / q + b / q, b % q);
  }

  // ----- nearest multiples -----

  lemma NearestExact(n: nat, q: nat)
    requires q > 0 && n % q == 0
    ensures Nearest(n, q) == n
  {
    Parts(n, q);
  }

  lemma NearestIsMultiple(n: nat, q: nat)
    requires q > 0
    ensures Nearest(n, q) % q == 0
  {
    MultipleOf(Steps(n, q), q);
  }

  /** No multiple is jumped over. */
  lemma NearestStays(n: nat, q: nat, m: nat)
    requires q > 0 && m % q == 0
    ensures n <= m ==> Nearest(n, q) <= m
    ensures n >= m ==> Nearest(n, q) >= m
  {
    var k, j, r := n / q, m / q, Steps(n, q);
    Parts(n, q);
    Parts(m, q);
    Ordered(k, j, q);
    Ordered(j, k, q);
    Ordered(r, j, q);
    Ordered(j, r, q);
  }

  /** Which numbers below an even multiple m are rounded to it: those at most half a step away. */
  lemma NearestReaches(n: nat, q: nat, m: nat)
    requires q > 0 && m % q == 0 && m / q % 2 == 0 && n < m
    ensures Nearest(n, q) == m <==> 2 * (m - n) <= q
  {
    var k, j := n / q, m / q;
    Parts(n, q);
    Parts(m, q);
    Ordered(k, j, q);
    Ordered(j, k, q);
    Ordered(k + 1, j, q);
    Expand(k, 1, q);
    Compared(Steps(n, q), j, q);
  }

  lemma StepsShift(a: nat, b: nat, q: nat)
    requires q > 0 && a % q == 0 && a / q % 2 == 0
    ensures Steps(a + b, q) == a / q + Steps(b, q)
  {
    SumOfMultiples(a, b, q);
  }

  lemma NearestShifts(a: nat, b: nat, q: nat)
    requires q > 0 && a % q == 0 && a / q % 2 == 0
    ensures Nearest(a + b, q) == a + Nearest(b, q)
  {
    hide Steps;
    StepsShift(a, b, q);
    Parts(a, q);
    Expand(a / q, Steps(b, q), q);
  }

  lemma Positive(q: nat, s: nat)
    requires q > 0 && s > 0
    ensures q * s > 0
  {
    Ordered(1, q, s);
  }

  lemma DivModScales(n: nat, q: nat, s: nat)
    requires q > 0 && s > 0
    ensures q * s > 0 && n * s / (q * s) == n / q && n * s % (q * s) == n % q * s
  {
    var k, rest := n / q, n % q;
    Positive(q, s);
    Parts(n, q);
    Expand(k * q, rest, s);
    Associate(k, q, s);
    Compared(rest, q, s);
    DivMod(n * s, q * s, k, rest * s);
  }

  lemma StepsScale(n: nat, q: nat, s: nat)
    requires q > 0 && s > 0
    ensures q * s > 0 && Steps(n * s, q * s) == Steps(n, q)
  {
    var rest := n % q;
    DivModScales(n, q, s);
    Compared(2 * rest, q, s);
    Associate(2, rest, s);
  }

  lemma NearestScales(n: nat, q: nat, s: nat)
    requires q > 0 && s > 0
    ensures q * s > 0 && Nearest(n * s, q * s) == Nearest(n, q) * s
  {
    hide Steps;
    StepsScale(n, q, s);
    Associate(Steps(n, q), q, s);
  }

  // ----- significant digits -----

  lemma LengthScales(n: nat, k: nat)
    requires n > 0
    ensures Length(n * Pow2(k)) == Length(n) + k
  {
    hide Pow2, Length;
    LengthBounds(n);
    var l, s := Length(n), Pow2(k);
    Pow2Adds(l - 1, k);
    Pow2Adds(l, k);
    Compared(n, Pow2(l), s);
    Ordered(Pow2(l - 1), n, s);
    LengthIs(n * s, l + k);
  }

  lemma SpacingScales(n: nat, digits: nat, k: nat)
    requires n > 0
    ensures Spacing(n * Pow2(k), digits, k) == Spacing(n, digits, 0) * Pow2(k)
  {
    hide Length;
    LengthScales(n, k);
    if Length(n) > digits { Pow2Adds(Length(n) - digits, k); } else { assert Pow2(0) == 1; }
    hide Pow2;
  }

  /** Counting in finer units changes nothing, if nothing finer than the old unit is allowed. */
  lemma RoundedScales(n: nat, digits: nat, k: nat)
    ensures Rounded(n * Pow2(k), digits, k) == Rounded(n, digits, 0) * Pow2(k)
  {
    hide Pow2, Nearest, Spacing;
    if n == 0 {
      NearestZero(Spacing(0, digits, k));
      NearestZero(Spacing(0, digits, 0));
    } else {
      SpacingScales(n, digits, k);
      NearestScales(n, Spacing(n, digits, 0), Pow2(k));
    }
  }

  lemma NearestZero(q: nat)
    requires q > 0
    ensures Nearest(0, q) == 0
  {
  }

  lemma FinerSpacingScales(n: nat, digits: nat, k: nat)
    requires n > 0 && Length(n) > digits
    ensures Spacing(n * Pow2(k), digits, 0) == Spacing(n, digits, 0) * Pow2(k)
  {
    hide Pow2, Length;
    var l := Length(n);
    LengthScales(n, k);
    Pow2Adds(l - digits, k);
    assert l - digits + k == l + k - digits;
  }

  /** Likewise when finer numbers are allowed but n has no use for them. */
  lemma RoundedScalesFreely(n: nat, digits: nat, k: nat)
    requires n > 0 && Length(n) > digits
    ensures Rounded(n * Pow2(k), digits, 0) == Rounded(n, digits, 0) * Pow2(k)
  {
    hide Pow2, Nearest, Spacing, Length;
    FinerSpacingScales(n, digits, k);
    NearestScales(n, Spacing(n, digits, 0), Pow2(k));
  }

  /** Longer numbers have no finer steps. */
  lemma CoarserSpacing(r: nat, n: nat, digits: nat, least: nat)
    requires Length(r) <= Length(n)
    ensures Spacing(n, digits, least) % Spacing(r, digits, least) == 0
  {
    hide Pow2, Length;
    PowersDivide(least, least);
    if Length(n) > digits + least {
      PowersDivide(least, Length(n) - digits);
      if Length(r) > digits + least { PowersDivide(Length(r) - digits, Length(n) - digits); }
    }
  }

  lemma LengthGrows(m: nat, n: nat)
    requires m <= n
    ensures Length(m) <= Length(n)
  {
    hide Pow2, Length;
    LengthBelow(n, Length(n));
    LengthBelow(m, Length(n));
  }

  /** Rounding does not step over a number that needs no rounding. */
  lemma RoundedBelow(n: nat, bound: nat, digits: nat, least: nat)
    requires n <= bound && Fits(bound, digits, least)
    ensures Rounded(n, digits, least) <= bound
  {
    hide Nearest, Length, Spacing;
    LengthGrows(n, bound);
    CoarserSpacing(n, bound, digits, least);
    MultipleOfMultiple(bound, Spacing(n, digits, least), Spacing(bound, digits, least));
    NearestStays(n, Spacing(n, digits, least), bound);
  }

  lemma MultiplesFit(n: nat, digits: nat, k: nat)
    requires n < Pow2(k + digits) && n % Pow2(k) == 0
    ensures Fits(n, digits, 0) && Length(n) <= k + digits
  {
    hide Pow2, Length;
    LengthBelow(n, k + digits);
    PowersDivide(0, k);
    if Length(n) > digits { PowersDivide(Length(n) - digits, k); }
    MultipleOfMultiple(n, Spacing(n, digits, 0), Pow2(k));
  }

  lemma PowerFits(m: nat, digits: nat)
    requires digits > 0
    ensures Fits(Pow2(m), digits, 0)
  {
    hide Pow2, Length;
    Pow2Grows(m, m + 1);
    LengthIs(Pow2(m), m + 1);
    PowersDivide(0, m);
    if m + 1 > digits { PowersDivide(m + 1 - digits, m); }
  }

  lemma AtMostFits(n: nat, digits: nat, k: nat)
    requires digits > 0 && n <= Pow2(k + digits) && n % Pow2(k) == 0
    ensures Fits(n, digits, 0)
  {
    hide Pow2, Fits;
    if n < Pow2(k + digits) { MultiplesFit(n, digits, k); } else { PowerFits(k + digits, digits); }
  }

  lemma QuotientOfMultiple(n: nat, q: nat, s: nat)
    requires q > 0 && s > 0 && q * s > 0 && n % (q * s) == 0
    ensures n % s == 0 && n / s % q == 0
  {
    var a := n / (q * s);
    Parts(n, q * s);
    Associate(a, q, s);
    MultipleOf(a * q, s);
    MultipleOf(a, q);
  }

  /** A number rounded with nothing finer than a unit, counted in that unit, needs no more digits. */
  lemma RoundedCounts(n: nat, digits: nat, least: nat)
    requires digits > 0
    ensures var r := Rounded(n, digits, least);
      r % Pow2(least) == 0 && Fits(r / Pow2(least), digits, 0)
  {
    hide Pow2, Length, Nearest, Fits;
    var q, r, s := Spacing(n, digits, least), Rounded(n, digits, least), Pow2(least);
    var k := if Length(n) <= digits + least then 0 else Length(n) - digits - least;
    Pow2Adds(k, least);
    ZeroPower();
    assert q == Pow2(k) * s;
    NearestIsMultiple(n, q);
    QuotientOfMultiple(r, Pow2(k), s);
    LengthBelow(n, digits + least + k);
    Pow2Adds(digits + k, least);
    Pow2Adds(digits, k + least);
    PowersDivide(k + least, digits + k + least);
    NearestStays(n, q, Pow2(digits + k + least));
    Parts(r, s);
    Ordered(Pow2(digits + k) + 1, r / s, s);
    Expand(Pow2(digits + k), 1, s);
    AtMostFits(r / s, digits, k);
  }

  lemma ZeroPower()
    ensures Pow2(0) == 1
  {
  }
}
