/** The primitive JavaScript values that records and request parameters hold, with the
    conversions the resource relies on: `String(v)`, truthiness and loose equality by string
    form (`areEqual` in middlewarerule.js). Numbers are integers; see README for what is left out. */
module Values {

  datatype Value = Str(s: string) | Num(n: int) | Bool(b: bool) | Null | Undefined

  /** JavaScript truthiness: what `if (v)` and `v || d` test. */
  predicate Truthy(v: Value) {
    match v
    case Str(s) => s != ""
    case Num(n) => n != 0
    case Bool(b) => b
    case Null => false
    case Undefined => false
  }

  predicate IsDigit(c: char) {
    '0' <= c <= '9'
  }

  predicate AllDigits(s: string) {
    forall i :: 0 <= i < |s| ==> IsDigit(s[i])
  }

  function DigitValue(c: char): (d: nat)
    requires IsDigit(c)
    ensures d < 10
  {
    (c as int) - ('0' as int)
  }

  function DigitChar(d: nat): (c: char)
    requires d < 10
    ensures IsDigit(c) && DigitValue(c) == d
  {
    (('0' as int) + d) as char
  }

  /** Decimal digits of a natural number, most significant first, without leading zeros. */
  function NatToString(n: nat): (s: string)
    ensures |s| > 0 && AllDigits(s)
    ensures |s| > 1 ==> s[0] != '0'
    decreases n
  {
    if n < 10 then [DigitChar(n)] else NatToString(n / 10) + [DigitChar(n % 10)]
  }

  /** The number a string of decimal digits denotes. */
  function DigitsValue(s: string): nat
    requires AllDigits(s)
  {
    if s == [] then 0 else DigitsValue(s[..|s| - 1]) * 10 + DigitValue(s[|s| - 1])
  }

  /** Reading back the decimal form of `n` gives `n`. */
  lemma {:induction false} DigitsRoundTrip(n: nat)
    ensures DigitsValue(NatToString(n)) == n
    decreases n
  {
    var s := NatToString(n);
    if n >= 10 {
      assert s[..|s| - 1] == NatToString(n / 10);
      DigitsRoundTrip(n / 10);
    } else {
      assert s[..|s| - 1] == [];
    }
  }

  /** `String(v)` for a primitive value. */
  function ToStr(v: Value): string {
    match v
    case Str(s) => s
    case Num(n) => if n < 0 then "-" + NatToString(-n) else NatToString(n)
    case Bool(b) => if b then "true" else "false"
    case Null => "null"
    case Undefined => "undefined"
  }

  /** `areEqual(a, b)`: the two values have the same string form. */
  predicate AreEqual(a: Value, b: Value) {
    ToStr(a) == ToStr(b)
  }

  /** Distinct naturals have distinct decimal forms. */
  lemma NatToStringInjective(m: nat, n: nat)
    requires NatToString(m) == NatToString(n)
    ensures m == n
  {
    DigitsRoundTrip(m);
    DigitsRoundTrip(n);
  }

  /** Two numbers are equal by string form exactly when they are the same number. */
  lemma NumbersEqualIff(a: int, b: int)
    ensures AreEqual(Num(a), Num(b)) <==> a == b
  {
    var sa, sb := ToStr(Num(a)), ToStr(Num(b));
    if a < 0 && b < 0 {
      if sa == sb {
        assert NatToString(-a) == sa[1..] == sb[1..] == NatToString(-b);
        NatToStringInjective(-a, -b);
      }
    } else if a >= 0 && b >= 0 {
      if sa == sb {
        NatToStringInjective(a, b);
      }
    } else if a < 0 {
      SignedFormDiffers(-a, b);
    } else {
      SignedFormDiffers(-b, a);
    }
  }

  /** A negative number's form starts with `-`, which no decimal form of a natural does. */
  lemma SignedFormDiffers(m: nat, n: nat)
    ensures "-" + NatToString(m) != NatToString(n)
  {
    assert ("-" + NatToString(m))[0] == '-' && IsDigit(NatToString(n)[0]);
  }

  /** A number matches the string of its decimal digits, the case of a numeric record id
      looked up by a path segment. */
  lemma NumberMatchesItsText(n: int)
    ensures AreEqual(Num(n), Str(ToStr(Num(n))))
    ensures n >= 0 ==> AreEqual(Num(n), Str(NatToString(n)))
  {
  }

  /** `s.endsWith(suffix)`, the test of `/Id$/`. */
  predicate EndsWith(s: string, suffix: string) {
    |suffix| <= |s| && s[|s| - |suffix|..] == suffix
  }

  /** The needle occurs in the haystack starting at index `i`. */
  predicate OccursAt(haystack: string, needle: string, i: int) {
    0 <= i && i + |needle| <= |haystack| && haystack[i..i + |needle|] == needle
  }

  /** An occurrence in the tail is an occurrence one place further right in the whole. */
  lemma OccursInTail(haystack: string, needle: string, i: int)
    requires haystack != []
    ensures OccursAt(haystack[1..], needle, i) <==> 0 <= i && OccursAt(haystack, needle, i + 1)
  {
    if 0 <= i && i + |needle| <= |haystack| - 1 {
      var window := haystack[1..][i..i + |needle|];
      assert forall k :: 0 <= k < |needle| ==> window[k] == haystack[i + 1 + k];
      assert haystack[i + 1..i + 1 + |needle|] == window;
    }
  }

  /** An occurrence at the start is a prefix. */
  lemma OccursAtStart(haystack: string, needle: string)
    ensures OccursAt(haystack, needle, 0) <==> needle <= haystack
  {
    if |needle| <= |haystack| {
      assert haystack[0..|needle|] == haystack[..|needle|];
    }
  }

  /** `haystack.indexOf(needle) > -1`: the needle occurs as a contiguous substring. */
  function Contains(haystack: string, needle: string): (r: bool)
    ensures r <==> exists i :: OccursAt(haystack, needle, i)
    decreases |haystack|
  {
    OccursAtStart(haystack, needle);
    if needle <= haystack then
      true
    else if haystack == [] then
      false
    else
      var r := Contains(haystack[1..], needle);
      if r then
        var i :| OccursAt(haystack[1..], needle, i);
        OccursInTail(haystack, needle, i);
        true
      else
        assert forall i :: !OccursAt(haystack, needle, i) by {
          forall i ensures !OccursAt(haystack, needle, i) {
            OccursInTail(haystack, needle, i - 1);
          }
        }
        false
  }

  /** Lower-casing of ASCII letters, standing in for `toLowerCase()`. */
  function LowerChar(c: char): char {
    if 'A' <= c <= 'Z' then ((c as int) - ('A' as int) + ('a' as int)) as char else c
  }

  function Lower(s: string): (r: string)
    ensures |r| == |s| && forall i :: 0 <= i < |s| ==> r[i] == LowerChar(s[i])
  {
    seq(|s|, i requires 0 <= i < |s| => LowerChar(s[i]))
  }
}
