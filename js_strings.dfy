/**
  String facts the JavaScript semantics of the evaluator rests on: the decimal
  spelling of numbers and array indices, the conversion of a string to a
  number, the code-unit ordering that `<` uses on two strings, and substring
  search.  JavaScript numbers are restricted to integers throughout.
 */
module JsStrings {

  datatype Option<T> = None | Some(value: T)

  predicate IsDigit(c: char) { '0' <= c <= '9' }

  predicate AllDigits(s: string) { forall i :: 0 <= i < |s| ==> IsDigit(s[i]) }

  /** A non-empty digit string without a leading zero ("0" itself excepted). */
  predicate IsCanonical(s: string) {
    |s| >= 1 && AllDigits(s) && (s[0] == '0' ==> |s| == 1)
  }

  function DigitValue(c: char): nat
    requires IsDigit(c)
  {
    (c as int) - ('0' as int)
  }

  function DigitChar(d: nat): (c: char)
    requires d < 10
    ensures IsDigit(c) && DigitValue(c) == d
  {
    (('0' as int) + d) as char
  }

  /** The value of a digit string, read most significant digit first. */
  function DigitsValue(s: string): nat
    requires AllDigits(s)
  {
    if s == [] then 0 else DigitsValue(s[..|s| - 1]) * 10 + DigitValue(s[|s| - 1])
  }

  /** How JavaScript spells a non-negative integer: decimal, no leading zero. */
  function DecimalString(n: nat): (s: string)
    ensures IsCanonical(s)
    ensures n < 10 <==> |s| == 1
  {
    if n < 10 then [DigitChar(n)] else DecimalString(n / 10) + [DigitChar(n % 10)]
  }

  lemma {:induction false} DigitsValueOfDecimal(n: nat)
    ensures DigitsValue(DecimalString(n)) == n
  {
    if n >= 10 {
      var s := DecimalString(n);
      assert s[..|s| - 1] == DecimalString(n / 10);
      DigitsValueOfDecimal(n / 10);
    }
  }

  lemma {:induction false} LeadingNonZeroIsPositive(s: string)
    requires |s| >= 1 && AllDigits(s) && s[0] != '0'
    ensures DigitsValue(s) >= 1
  {
    if |s| > 1 {
      LeadingNonZeroIsPositive(s[..|s| - 1]);
    }
  }

  lemma {:induction false} DecimalOfDigitsValue(s: string)
    requires IsCanonical(s)
    ensures DecimalString(DigitsValue(s)) == s
  {
    if |s| > 1 {
      var p := s[..|s| - 1];
      LeadingNonZeroIsPositive(p);
      DecimalOfDigitsValue(p);
      var v := DigitsValue(s);
      assert v / 10 == DigitsValue(p) && v % 10 == DigitValue(s[|s| - 1]);
      assert s == p + [s[|s| - 1]];
    }
  }

  /**
    Reads a property name as an array index: the name must be the canonical
    decimal spelling of a non-negative integer ("3", not "03" or "+3").
   */
  function ParseIndex(name: string): (r: Option<nat>)
    ensures r.Some? <==> IsCanonical(name)
    ensures r.Some? ==> DecimalString(r.value) == name
  {
    if IsCanonical(name) then
      DecimalOfDigitsValue(name);
      Some(DigitsValue(name))
    else None
  }

  lemma ParseIndexOfDecimal(n: nat)
    ensures ParseIndex(DecimalString(n)) == Some(n)
  {
    DigitsValueOfDecimal(n);
  }

  /** How JavaScript spells an integer (ToString of a Number). */
  function IntString(n: int): (s: string)
    ensures |s| >= 1
    ensures s[0] == '-' <==> n < 0
  {
    if n < 0 then "-" + DecimalString(-n) else DecimalString(n)
  }

  /**
    StringToNumber restricted to integers: the empty string is 0, an optional
    sign followed by decimal digits is that integer, anything else is NaN
    (None).
   */
  function StringToInt(s: string): (r: Option<int>)
    ensures s == "" ==> r == Some(0)
    ensures r.Some? && s != "" ==> exists i :: 0 <= i < |s| && IsDigit(s[i])
    ensures AllDigits(s) ==> r == Some(DigitsValue(s))
    ensures r.Some? ==> s == "" || AllDigits(s) || (|s| > 1 && (s[0] == '-' || s[0] == '+') && AllDigits(s[1..]))
    ensures |s| > 1 && s[0] == '-' && AllDigits(s[1..]) ==> r == Some(-(DigitsValue(s[1..]) as int))
    ensures |s| > 1 && s[0] == '+' && AllDigits(s[1..]) ==> r == Some(DigitsValue(s[1..]))
  {
    if s == "" then Some(0)
    else if s[0] == '-' && |s| > 1 && AllDigits(s[1..]) then Some(-(DigitsValue(s[1..]) as int))
    else if s[0] == '+' && |s| > 1 && AllDigits(s[1..]) then Some(DigitsValue(s[1..]))
    else if AllDigits(s) then Some(DigitsValue(s))
    else None
  }

  lemma StringToIntOfIntString(n: int)
    ensures StringToInt(IntString(n)) == Some(n)
  {
    var d := DecimalString(if n < 0 then -n else n);
    DigitsValueOfDecimal(if n < 0 then -n else n);
    assert d[0] != '-' && d[0] != '+';
    if n < 0 {
      var s := IntString(n);
      assert s == "-" + d && s[1..] == d;
    }
  }

  /** `a < b` on two strings: lexicographic order of their code units. */
  function StrLess(a: string, b: string): (r: bool)
    ensures a < b ==> r
    ensures b <= a ==> !r
  {
    if a == [] then b != []
    else if b == [] then false
    else if a[0] != b[0] then a[0] < b[0]
    else StrLess(a[1..], b[1..])
  }

  lemma {:induction false} StrLessIrreflexive(a: string)
    ensures !StrLess(a, a)
  {
    if a != [] {
      StrLessIrreflexive(a[1..]);
    }
  }

  lemma {:induction false} StrLessTransitive(a: string, b: string, c: string)
    requires StrLess(a, b) && StrLess(b, c)
    ensures StrLess(a, c)
  {
    if a != [] && b != [] && c != [] && a[0] == b[0] && b[0] == c[0] {
      StrLessTransitive(a[1..], b[1..], c[1..]);
    }
  }

  lemma {:induction false} StrLessTotal(a: string, b: string)
    requires a != b
    ensures StrLess(a, b) || StrLess(b, a)
  {
    if a != [] && b != [] && a[0] == b[0] {
      assert a == [a[0]] + a[1..] && b == [b[0]] + b[1..];
      StrLessTotal(a[1..], b[1..]);
    }
  }

  predicate OccursAt(t: string, s: string, i: nat) {
    i + |t| <= |s| && s[i..i + |t|] == t
  }

  /** String.prototype.includes: t occurs somewhere in s. */
  predicate IsSubstring(t: string, s: string)
    ensures IsSubstring(t, s) ==> |t| <= |s|
    ensures t <= s ==> IsSubstring(t, s)
  {
    assert t <= s ==> OccursAt(t, s, 0);
    exists i: nat :: i <= |s| && OccursAt(t, s, i)
  }
}
