/**
 * The few pieces of PHP value semantics the workspace code relies on:
 * string truthiness, the `+` union of arrays, the 64-bit `(int)` cast of a float,
 * loose `==` between strings, and translatable markup with one placeholder.
 */
module Php {

  /** A string in boolean context: "" and "0" are FALSE, every other string is TRUE. */
  predicate Truthy(s: string) {
    s != "" && s != "0"
  }

  /** `$left + $right`: every key of either, and the LEFT operand's value wherever both have the key. */
  function ArrayUnion<K, V>(left: map<K, V>, right: map<K, V>): (r: map<K, V>)
    ensures r.Keys == left.Keys + right.Keys
    ensures forall k :: k in left ==> r[k] == left[k]
    ensures forall k :: k in right && k !in left ==> r[k] == right[k]
  {
    right + left
  }

  /** The bounds of PHP's integers on a 64-bit build. */
  const PHP_INT_MAX := 0x7fff_ffff_ffff_ffff
  const PHP_INT_MIN := -0x8000_0000_0000_0000
  const TWO_TO_THE_64 := 0x1_0000_0000_0000_0000

  /** The integer part of `x`: truncation toward zero. */
  function Truncate(x: real): (r: int)
    ensures x >= 0.0 ==> 0 <= r && r as real <= x < r as real + 1.0
    ensures x < 0.0 ==> r <= 0 && r as real - 1.0 < x <= r as real
  {
    if x >= 0.0 then x.Floor else -((-x).Floor)
  }

  /**
   * `(int) $x` for a finite float on a 64-bit build: the truncated value,
   * wrapped modulo 2^64 into the integer range when it falls outside it.
   */
  function IntCast(x: real): (r: int)
    ensures PHP_INT_MIN <= r <= PHP_INT_MAX
    ensures (Truncate(x) - r) % TWO_TO_THE_64 == 0
    ensures PHP_INT_MIN <= Truncate(x) <= PHP_INT_MAX ==> r == Truncate(x)
  {
    var m := Truncate(x) % TWO_TO_THE_64;
    if m > PHP_INT_MAX then m - TWO_TO_THE_64 else m
  }

  /** 2^63 is one past the largest integer, so its cast wraps round to the smallest. */
  lemma IntCastWraps()
    ensures IntCast(9223372036854775808.0) == PHP_INT_MIN
  {
    assert Truncate(9223372036854775808.0) == 0x8000_0000_0000_0000;
  }

  predicate IsDigit(c: char) {
    '0' <= c <= '9'
  }

  /** A non-empty string of decimal digits: a numeric string in the id alphabet. */
  predicate AllDigits(s: string) {
    s != [] && forall i :: 0 <= i < |s| ==> IsDigit(s[i])
  }

  /** The number a string of digits denotes. */
  function DigitsValue(s: string): nat
    requires forall i :: 0 <= i < |s| ==> IsDigit(s[i])
  {
    if s == [] then 0
    else
      assert IsDigit(s[|s| - 1]);
      10 * DigitsValue(s[..|s| - 1]) + (s[|s| - 1] as int - '0' as int)
  }

  /**
   * Loose `==` between two strings. Two numeric strings compare as numbers,
   * except that when both overflow the integer range they are compared byte
   * for byte, since their float values may have been rounded together.
   * Any other pair of strings compares byte for byte.
   */
  predicate LooseEquals(a: string, b: string) {
    if AllDigits(a) && AllDigits(b) then
      if DigitsValue(a) > PHP_INT_MAX && DigitsValue(b) > PHP_INT_MAX then a == b
      else DigitsValue(a) == DigitsValue(b)
    else a == b
  }

  /** Leading zeros do not change an integer string's value, so "1" and "01" are loosely equal. */
  lemma LeadingZeroLooselyEqual(s: string)
    requires AllDigits(s) && DigitsValue(s) <= PHP_INT_MAX
    ensures LooseEquals("0" + s, s) && "0" + s != s
  {
    LeadingZeroValue(s);
    assert |"0" + s| != |s|;
  }

  /** Beyond the integer range a leading zero matters: "09223372036854775808" and "9223372036854775808" differ. */
  lemma OverflowLeadingZeroDiffers(s: string)
    requires AllDigits(s) && DigitsValue(s) > PHP_INT_MAX
    ensures !LooseEquals("0" + s, s)
  {
    LeadingZeroValue(s);
    assert |"0" + s| != |s|;
  }

  lemma {:induction false} LeadingZeroValue(s: string)
    requires forall i :: 0 <= i < |s| ==> IsDigit(s[i])
    ensures forall i :: 0 <= i < |"0" + s| ==> IsDigit(("0" + s)[i])
    ensures DigitsValue("0" + s) == DigitsValue(s)
  {
    var z := "0" + s;
    if s == [] {
      assert z == "0";
      assert DigitsValue(z) == 10 * DigitsValue(z[..0]) + 0;
    } else {
      var n := |s| - 1;
      assert z[..|z| - 1] == "0" + s[..n];
      assert z[|z| - 1] == s[n];
      LeadingZeroValue(s[..n]);
    }
  }

  /** A translatable string and the value of its one placeholder. */
  datatype Markup = Markup(template: string, placeholder: string)
}
