/**
 * The handful of JavaScript runtime rules the landing-page scripts rely on,
 * stated over mathematical reals and integers: Math.min/max/round/floor,
 * Math.random() results as numbers in [0, 1),
 * the truncating remainder operator `%`, Math.sqrt as a caller-supplied
 * function, the decimal rendering of an integer, `undefined` as Option,
 * and the count of set flags in a list of class toggles.
 */
module Js {

  /** A value that may be `undefined` (a missing element or data attribute). */
  datatype Option<T> = None | Some(value: T) {
    function GetOr(default: T): T {
      match this
      case Some(v) => v
      case None => default
    }
  }

  /** Math.min on two numbers. */
  function Min(a: real, b: real): (r: real)
    ensures r <= a && r <= b
    ensures r == a || r == b
  {
    if a <= b then a else b
  }

  /** Math.max on two numbers. */
  function Max(a: real, b: real): (r: real)
    ensures a <= r && b <= r
    ensures r == a || r == b
  {
    if a <= b then b else a
  }

  /** Math.round: the nearest integer, halves rounded towards +infinity. */
  function Round(x: real): (r: int)
    ensures r as real - 0.5 <= x < r as real + 0.5
  {
    (x + 0.5).Floor
  }

  /** Truncation towards zero, the quotient that JavaScript's `%` uses. */
  function Trunc(x: real): (r: int)
    ensures 0.0 <= x ==> 0 <= r && r as real <= x < r as real + 1.0
    ensures x < 0.0 ==> r <= 0 && r as real - 1.0 < x <= r as real
  {
    if 0.0 <= x then x.Floor else -((-x).Floor)
  }

  /** JavaScript's `a % m` on numbers: the remainder takes the sign of `a`. */
  function Rem(a: real, m: real): real
    requires 0.0 < m
  {
    a - m * (Trunc(a / m) as real)
  }

  lemma MulLe(x: real, y: real, m: real)
    requires x <= y && 0.0 <= m
    ensures x * m <= y * m
  {
  }

  lemma MulLt(x: real, y: real, m: real)
    requires x < y && 0.0 < m
    ensures x * m < y * m
  {
  }

  lemma MulNonneg(x: real, y: real)
    requires 0.0 <= x && 0.0 <= y
    ensures 0.0 <= x * y
  {
  }

  lemma MulPos(x: real, y: real)
    requires 0.0 < x && 0.0 < y
    ensures 0.0 < x * y
  {
  }

  /** Squaring is strictly increasing on the non-negative reals. */
  lemma SquareLt(s: real, b: real)
    requires 0.0 <= s < b
    ensures s * s < b * b
  {
    MulPos(b - s, b + s);
    assert (b - s) * (b + s) == b * b - s * s;
  }

  lemma SquareLe(s: real, b: real)
    requires 0.0 <= s <= b
    ensures s * s <= b * b
  {
    MulNonneg(b - s, b + s);
    assert (b - s) * (b + s) == b * b - s * s;
  }

  /** A Math.random() result: a number in [0, 1). */
  predicate InUnit(u: real) {
    0.0 <= u < 1.0
  }

  /** Math.random() * size lies in [0, size], and below size when size is positive. */
  lemma ScaleDraw(u: real, size: real)
    requires InUnit(u) && 0.0 <= size
    ensures 0.0 <= u * size <= size
    ensures 0.0 < size ==> u * size < size
  {
    MulNonneg(u, size);
    MulLe(u, 1.0, size);
    if 0.0 < size {
      MulLt(u, 1.0, size);
    }
  }

  /** Math.random() * size. */
  function DrawIn(u: real, size: real): (v: real)
    requires InUnit(u) && 0.0 <= size
    ensures 0.0 <= v <= size && (0.0 < size ==> v < size)
  {
    ScaleDraw(u, size);
    u * size
  }

  /** JavaScript's `%` on integers (truncating, sign of the dividend). */
  function IntRem(a: int, n: int): (r: int)
    requires n > 0
    ensures 0 <= a ==> r == a % n
    ensures a < 0 ==> -n < r <= 0
  {
    if 0 <= a then a % n else -((-a) % n)
  }

  lemma MulAtLeast(x: int, c: int)
    requires 1 <= x && 0 < c
    ensures c <= x * c
  {
  }

  /** Euclidean division is determined by quotient and remainder. */
  lemma ModUnique(a: int, c: int, q: int, r: int)
    requires 0 < c && a == q * c + r && 0 <= r < c
    ensures a % c == r && a / c == q
  {
    var q0, r0 := a / c, a % c;
    assert a == q0 * c + r0;
    assert (q - q0) * c == r0 - r;
    if q > q0 {
      MulAtLeast(q - q0, c);
    } else if q < q0 {
      MulAtLeast(q0 - q, c);
    }
  }

  lemma ModSucc(a: int, c: int)
    requires 0 < c
    ensures (a % c + 1) % c == (a + 1) % c
  {
    var q, r := a / c, a % c;
    if r + 1 < c {
      ModUnique(a + 1, c, q, r + 1);
      ModUnique(r + 1, c, 0, r + 1);
    } else {
      ModUnique(a + 1, c, q + 1, 0);
      ModUnique(r + 1, c, 1, 0);
    }
  }

  lemma ModPred(a: int, c: int)
    requires 0 < c
    ensures (a % c - 1 + c) % c == (a - 1) % c
  {
    var q, r := a / c, a % c;
    if r > 0 {
      ModUnique(a - 1, c, q, r - 1);
      ModUnique(r - 1 + c, c, 1, r - 1);
    } else {
      ModUnique(a - 1, c, q - 1, c - 1);
      ModUnique(c - 1, c, 0, c - 1);
    }
  }

  /** `s` is the exact non-negative square root of `v`, as Math.sqrt gives it. */
  ghost predicate IsRoot(s: real, v: real) {
    0.0 <= s && s * s == v
  }

  /** `sqrt` behaves as Math.sqrt on every non-negative argument. */
  ghost predicate IsSqrt(sqrt: real -> real) {
    forall v :: 0.0 <= v ==> IsRoot(sqrt(v), v)
  }

  /** Comparing a distance with a bound is comparing the squares. */
  lemma RootBelow(s: real, v: real, bound: real)
    requires IsRoot(s, v) && 0.0 < bound
    ensures s < bound <==> v < bound * bound
  {
    if s < bound {
      SquareLt(s, bound);
    } else {
      SquareLe(bound, s);
    }
  }

  /** The non-negative root is unique. */
  lemma RootUnique(s: real, t: real, v: real)
    requires IsRoot(s, v) && IsRoot(t, v)
    ensures s == t
  {
    if s < t {
      SquareLt(s, t);
    } else if t < s {
      SquareLt(t, s);
    }
  }

  /** The character of a decimal digit. */
  function DigitChar(d: nat): (c: char)
    requires d < 10
    ensures '0' <= c <= '9'
    ensures c as int - '0' as int == d
  {
    ('0' as int + d) as char
  }

  /** The decimal digits of a natural number, as String(n) writes them. */
  function NatText(n: nat): (s: string)
    ensures 1 <= |s|
    ensures forall i :: 0 <= i < |s| ==> '0' <= s[i] <= '9'
  {
    if n < 10 then [DigitChar(n)] else NatText(n / 10) + [DigitChar(n % 10)]
  }

  /** The value of a string of decimal digits. */
  function DigitsValue(s: string): nat
    requires forall i :: 0 <= i < |s| ==> '0' <= s[i] <= '9'
  {
    if s == [] then 0 else DigitsValue(s[..|s| - 1]) * 10 + (s[|s| - 1] as int - '0' as int)
  }

  /** Reading back the digits String(n) writes gives n. */
  lemma {:induction false} NatTextRoundTrip(n: nat)
    ensures DigitsValue(NatText(n)) == n
  {
    if 10 <= n {
      var s := NatText(n);
      assert s[..|s| - 1] == NatText(n / 10);
      NatTextRoundTrip(n / 10);
    }
  }

  /** String(n) for an integer: a minus sign before the digits of a negative number. */
  function IntText(n: int): string {
    if n < 0 then "-" + NatText(-n) else NatText(n)
  }

  /** The number shown by IntText(n) is n. */
  function TextValue(s: string): int
    requires 1 <= |s|
    requires s[0] == '-' ==> forall i :: 1 <= i < |s| ==> '0' <= s[i] <= '9'
    requires s[0] != '-' ==> forall i :: 0 <= i < |s| ==> '0' <= s[i] <= '9'
  {
    if s[0] == '-' then -(DigitsValue(s[1..]) as int) else DigitsValue(s)
  }

  lemma IntTextRoundTrip(n: int)
    ensures 1 <= |IntText(n)| && TextValue(IntText(n)) == n
  {
    if n < 0 {
      assert IntText(n)[1..] == NatText(-n);
      NatTextRoundTrip(-n);
    } else {
      NatTextRoundTrip(n);
    }
  }

  /** The number of set flags. */
  function CountTrue(s: seq<bool>): nat {
    if s == [] then 0 else CountTrue(s[..|s| - 1]) + (if s[|s| - 1] then 1 else 0)
  }

  /** Flags set exactly at position k hold one set flag when k is in range and none otherwise. */
  lemma {:induction false} CountExclusive(s: seq<bool>, k: int)
    requires forall i :: 0 <= i < |s| ==> (s[i] <==> i == k)
    ensures CountTrue(s) == if 0 <= k < |s| then 1 else 0
  {
    if s != [] {
      CountExclusive(s[..|s| - 1], k);
    }
  }
}
