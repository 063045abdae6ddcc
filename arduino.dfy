/// The part of the simulator's Arduino core that the sketch relies on:
/// the numeric templates `min`, `max`, `constrain` and `map`, and the
/// `String` operations used by the filename filter and the overlay text.
/// Integers are unbounded here; `long` overflow in `map` is not modelled.
module Arduino {
  import Arith

  // ---------------------------------------------------------------------
  // Numeric helpers
  // ---------------------------------------------------------------------

  /** `min(a, b)`: the smaller argument (`b` on a tie). */
  function Min(a: int, b: int): (r: int)
    ensures r <= a && r <= b
    ensures r == a || r == b
  {
    if a < b then a else b
  }

  /** `max(a, b)`: the larger argument (`b` on a tie). */
  function Max(a: int, b: int): (r: int)
    ensures r >= a && r >= b
    ensures r == a || r == b
  {
    if a > b then a else b
  }

  /** `constrain(x, a, b)`: `a` below the range, `b` above it, `x` inside. */
  function Constrain(x: int, a: int, b: int): (r: int)
    ensures a <= b ==> a <= r <= b
    ensures a <= x <= b ==> r == x
    ensures x < a ==> r == a
    ensures a <= x && b < x ==> r == b
  {
    if x < a then a else if x > b then b else x
  }

  function Abs(x: int): nat
  {
    if x < 0 then -x else x
  }

  /** C/C++ integer division on `long`: the quotient is truncated toward zero. */
  function TruncDiv(a: int, b: int): int
    requires b != 0
  {
    if a >= 0 then (if b > 0 then a / b else -(a / -b))
    else (if b > 0 then -((-a) / b) else (-a) / (-b))
  }

  /** The quotient and remainder of TruncDiv are those of C: the remainder
      is smaller than the divisor in magnitude and carries the sign of the
      dividend. */
  lemma TruncDivIsCDivision(a: int, b: int)
    requires b != 0
    ensures var q := TruncDiv(a, b);
            var rem := a - q * b;
            Abs(rem) < Abs(b) && (rem == 0 || (rem < 0 <==> a < 0))
  {
    var q := TruncDiv(a, b);
    if a >= 0 && b > 0 {
      assert q == a / b;
    } else if a >= 0 {
      assert q == -(a / -b);
      assert a == (a / -b) * (-b) + a % (-b);
      assert q * b == (a / -b) * (-b);
    } else if b > 0 {
      assert q == -((-a) / b);
      assert -a == ((-a) / b) * b + (-a) % b;
      assert q * b == -(((-a) / b) * b);
    } else {
      assert q == (-a) / (-b);
      assert -a == q * (-b) + (-a) % (-b);
    }
  }

  /** Exact division needs no truncation. */
  lemma TruncDivExact(k: int, d: int)
    requires d != 0
    ensures TruncDiv(k * d, d) == k
  {
    var p := k * d;
    assert (-k) * d == -p && k * (-d) == -p && (-k) * (-d) == p;
    if d > 0 {
      if k >= 0 {
        Arith.MulNonNeg(k, d);
        Arith.DivModUnique(p, d, k, 0);
      } else {
        Arith.MulNonNeg(-k - 1, d);
        Arith.DivModUnique(-p, d, -k, 0);
      }
    } else {
      if k > 0 {
        Arith.MulNonNeg(k - 1, -d);
        Arith.DivModUnique(-p, -d, k, 0);
      } else {
        Arith.MulNonNeg(-k, -d);
        Arith.DivModUnique(p, -d, -k, 0);
      }
    }
  }

  /** Swapping a factor for an equal one, with the factors commuted. */
  lemma ProductOfEqual(a: int, c: int, b: int)
    requires a == c
    ensures a * b == b * c
  {
  }

  /** `map(x, in_min, in_max, out_min, out_max)`: linear rescaling with
      truncating integer division; `in_min == in_max` divides by zero in
      the source and is excluded. The end points of the input range map
      exactly onto the end points of the output range. */
  function Map(x: int, inMin: int, inMax: int, outMin: int, outMax: int): (r: int)
    requires inMin != inMax
    ensures x == inMin ==> r == outMin
    ensures x == inMax ==> r == outMax
  {
    var q := TruncDiv((x - inMin) * (outMax - outMin), inMax - inMin);
    assert x == inMin ==> q == 0 by {
      if x == inMin { TruncDivExact(0, inMax - inMin); }
    }
    assert x == inMax ==> q == outMax - outMin by {
      if x == inMax {
        ProductOfEqual(x - inMin, inMax - inMin, outMax - outMin);
        TruncDivExact(outMax - outMin, inMax - inMin);
      }
    }
    q + outMin
  }

  // ---------------------------------------------------------------------
  // Characters (the "C" locale: only ASCII letters change case)
  // ---------------------------------------------------------------------

  predicate IsLowerAscii(c: char) { 'a' <= c <= 'z' }
  predicate IsUpperAscii(c: char) { 'A' <= c <= 'Z' }

  function ToUpperChar(c: char): char
  {
    if IsLowerAscii(c) then (c as int - 32) as char else c
  }

  function ToLowerChar(c: char): char
  {
    if IsUpperAscii(c) then (c as int + 32) as char else c
  }

  // ---------------------------------------------------------------------
  // String operations, as pure functions on the character sequence
  // ---------------------------------------------------------------------

  /** What `toUpperCase` leaves in the string: same length, each lower-case
      letter replaced by its capital, every other character kept. */
  function Upper(s: string): (r: string)
    ensures |r| == |s|
    ensures forall i :: 0 <= i < |s| ==> !IsLowerAscii(r[i])
    ensures forall i :: 0 <= i < |s| ==>
              r[i] == s[i] || (IsLowerAscii(s[i]) && r[i] as int == s[i] as int - 32)
  {
    seq(|s|, i requires 0 <= i < |s| => ToUpperChar(s[i]))
  }

  /** What `toLowerCase` leaves in the string. */
  function Lower(s: string): (r: string)
    ensures |r| == |s|
    ensures forall i :: 0 <= i < |s| ==> !IsUpperAscii(r[i])
    ensures forall i :: 0 <= i < |s| ==>
              r[i] == s[i] || (IsUpperAscii(s[i]) && r[i] as int == s[i] as int + 32)
  {
    seq(|s|, i requires 0 <= i < |s| => ToLowerChar(s[i]))
  }

  /** Upper-casing a string twice changes nothing the second time. */
  lemma UpperIdempotent(s: string)
    ensures Upper(Upper(s)) == Upper(s)
  {
    var u := Upper(s);
    assert forall i :: 0 <= i < |u| ==> Upper(u)[i] == u[i];
  }

  /** `endsWith(suffix)`: false when the suffix is longer than the string,
      otherwise the last |suffix| characters are compared. */
  function EndsWith(s: string, suffix: string): (r: bool)
    ensures r <==> exists k :: 0 <= k <= |s| && s[k..] == suffix
  {
    if |suffix| > |s| then false
    else
      assert s[|s| - |suffix|..] == suffix ==> (exists k :: 0 <= k <= |s| && s[k..] == suffix);
      s[|s| - |suffix|..] == suffix
  }

  /** `sub` occurs in `s` starting at position `i`. */
  predicate OccursAt(s: string, sub: string, i: int)
  {
    0 <= i && i + |sub| <= |s| && s[i..i + |sub|] == sub
  }

  /** Searches for the last occurrence of `sub` that starts at or before `i`. */
  function LastIndexFrom(s: string, sub: string, i: int): (r: int)
    requires -1 <= i <= |s|
    ensures -1 <= r <= i
    ensures r >= 0 ==> OccursAt(s, sub, r)
    ensures forall j :: r < j <= i ==> !OccursAt(s, sub, j)
    decreases i + 1
  {
    if i < 0 then -1
    else if OccursAt(s, sub, i) then i
    else LastIndexFrom(s, sub, i - 1)
  }

  /** `lastIndexOf(sub)` (std::string::rfind): the start of the last
      occurrence of `sub`, or -1 when it does not occur. */
  function LastIndexOf(s: string, sub: string): (r: int)
    ensures r == -1 <==> forall j :: 0 <= j <= |s| ==> !OccursAt(s, sub, j)
    ensures r >= 0 ==> r <= |s| && OccursAt(s, sub, r)
    ensures forall j :: r < j <= |s| ==> !OccursAt(s, sub, j)
  {
    LastIndexFrom(s, sub, |s|)
  }

  /** `remove(index, count)` (std::string::erase): nothing when `index` is
      past the end, otherwise `min(count, |s| - index)` characters go. */
  function Removed(s: string, index: nat, count: nat): (r: string)
    ensures index >= |s| ==> r == s
    ensures index < |s| ==> |r| == |s| - Min(count, |s| - index) && r[..index] == s[..index]
  {
    if index < |s| then s[..index] + s[index + Min(count, |s| - index)..] else s
  }

  /** What Removed keeps: the characters before `index`, then the tail
      that followed the erased run. */
  lemma RemovedShape(s: string, index: nat, count: nat)
    ensures index >= |s| ==> Removed(s, index, count) == s
    ensures index < |s| ==>
              |Removed(s, index, count)| == |s| - Min(count, |s| - index)
              && Removed(s, index, count)[..index] == s[..index]
              && forall k :: index <= k < |Removed(s, index, count)| ==>
                   Removed(s, index, count)[k] == s[k + Min(count, |s| - index)]
  {
  }

  // ---------------------------------------------------------------------
  // Decimal text of an integer (String(int) / std::to_string)
  // ---------------------------------------------------------------------

  predicate IsDigit(c: char) { '0' <= c <= '9' }

  function DigitChar(d: int): (c: char)
    requires 0 <= d < 10
    ensures IsDigit(c) && c as int - '0' as int == d
  {
    ('0' as int + d) as char
  }

  /** The decimal digits of `n`, most significant first, without leading zeros. */
  function NatToDecimal(n: nat): (s: string)
    ensures |s| > 0
    ensures forall i :: 0 <= i < |s| ==> IsDigit(s[i])
    ensures |s| > 1 ==> s[0] != '0'
    decreases n
  {
    if n < 10 then [DigitChar(n)] else NatToDecimal(n / 10) + [DigitChar(n % 10)]
  }

  /** std::to_string on a signed integer: a minus sign exactly for a
      negative value, then the decimal digits of its magnitude with no
      leading zero. */
  function IntToDecimal(i: int): (s: string)
    ensures |s| > 0 && (s[0] == '-' <==> i < 0)
    ensures var digits := if i < 0 then s[1..] else s;
            && digits != [] && (forall k :: 0 <= k < |digits| ==> IsDigit(digits[k]))
            && (|digits| > 1 ==> digits[0] != '0')
            && DecimalValue(digits) == (if i < 0 then -i else i)
  {
    var magnitude: nat := if i < 0 then -i else i;
    DecimalRoundTrip(magnitude);
    if i < 0 then "-" + NatToDecimal(magnitude) else NatToDecimal(magnitude)
  }

  function DigitValue(c: char): nat
    requires IsDigit(c)
  {
    c as int - '0' as int
  }

  /** The value of a string of decimal digits. */
  function DecimalValue(s: string): nat
    requires forall i :: 0 <= i < |s| ==> IsDigit(s[i])
  {
    if s == [] then 0
    else DecimalValue(s[..|s| - 1]) * 10 + DigitValue(s[|s| - 1])
  }

  /** Reading back the decimal text of `n` gives `n`. */
  lemma {:induction false} DecimalRoundTrip(n: nat)
    ensures DecimalValue(NatToDecimal(n)) == n
    decreases n
  {
    if n >= 10 {
      var s := NatToDecimal(n);
      DecimalRoundTrip(n / 10);
      assert s[..|s| - 1] == NatToDecimal(n / 10);
    }
  }

  // ---------------------------------------------------------------------
  // The mutable String object
  // ---------------------------------------------------------------------

  /** Arduino `String`: the text lives in `str`, which the case
      conversions rewrite in place, character by character. */
  class ArduinoString {
    var str: string

    constructor (s: string)
      ensures str == s
    {
      str := s;
    }

    method ToUpperCase()
      modifies this
      ensures str == Upper(old(str))
    {
      var i := 0;
      while i < |str|
        invariant 0 <= i <= |str| == |old(str)|
        invariant str[..i] == Upper(old(str))[..i]
        invariant str[i..] == old(str)[i..]
      {
        str := str[i := ToUpperChar(str[i])];
        i := i + 1;
      }
    }

    method ToLowerCase()
      modifies this
      ensures str == Lower(old(str))
    {
      var i := 0;
      while i < |str|
        invariant 0 <= i <= |str| == |old(str)|
        invariant str[..i] == Lower(old(str))[..i]
        invariant str[i..] == old(str)[i..]
      {
        str := str[i := ToLowerChar(str[i])];
        i := i + 1;
      }
    }

    method Remove(index: nat, count: nat)
      modifies this
      ensures str == Removed(old(str), index, count)
    {
      if index < |str| {
        str := str[..index] + str[index + Min(count, |str| - index)..];
      }
    }
  }
}
