/** The string operations the storefront relies on: lower-casing, substring
    search, decimal rendering of numbers and the ordering used to sort titles. */
module Text {

  /** `toLowerCase` on one character; only the ASCII letters are mapped. */
  function LowerChar(c: char): char {
    if 'A' <= c <= 'Z' then (c as int + 32) as char else c
  }

  function Lower(s: string): (r: string)
    ensures |r| == |s|
    ensures forall i :: 0 <= i < |s| ==> r[i] == LowerChar(s[i])
    ensures forall i :: 0 <= i < |r| ==> !('A' <= r[i] <= 'Z')
  {
    if s == [] then [] else [LowerChar(s[0])] + Lower(s[1..])
  }

  predicate IsPrefix(t: string, s: string) {
    |t| <= |s| && s[..|t|] == t
  }

  /** `s.includes(t)`: a search from the front, one position at a time. */
  predicate Contains(s: string, t: string)
    decreases |s|
  {
    IsPrefix(t, s) || (s != [] && Contains(s[1..], t))
  }

  /** `t` occurs in `s` starting at position `i`. */
  predicate OccursAt(s: string, t: string, i: int) {
    0 <= i <= |s| - |t| && s[i..i + |t|] == t
  }

  /** The search finds `t` exactly when `t` occurs at some position of `s`. */
  lemma {:induction false} ContainsIffOccurs(s: string, t: string)
    ensures Contains(s, t) <==> exists i :: OccursAt(s, t, i)
    decreases |s|
  {
    if s != [] {
      ContainsIffOccurs(s[1..], t);
      if Contains(s[1..], t) {
        var i :| OccursAt(s[1..], t, i);
        assert s[i + 1..i + 1 + |t|] == s[1..][i..i + |t|];
        assert OccursAt(s, t, i + 1);
      }
      if i :| OccursAt(s, t, i) {
        if i > 0 {
          assert s[1..][i - 1..i - 1 + |t|] == s[i..i + |t|];
          assert OccursAt(s[1..], t, i - 1);
        } else {
          assert s[..|t|] == s[0..0 + |t|];
        }
      }
      if IsPrefix(t, s) {
        assert s[0..0 + |t|] == s[..|t|];
        assert OccursAt(s, t, 0);
      }
    } else {
      if i :| OccursAt(s, t, i) {
        assert s[..|t|] == s[i..i + |t|];
      }
      if IsPrefix(t, s) {
        assert OccursAt(s, t, 0);
      }
    }
  }

  /** The empty search term occurs in every string. */
  lemma ContainsEmpty(s: string)
    ensures Contains(s, "")
  {
    assert IsPrefix("", s);
  }

  function DigitChar(d: nat): char
    requires d < 10
  {
    ('0' as int + d) as char
  }

  predicate AllDigits(s: string) {
    forall i :: 0 <= i < |s| ==> '0' <= s[i] <= '9'
  }

  /** The decimal text of a number, as string concatenation renders it in JavaScript. */
  function NatToString(n: nat): (s: string)
    ensures |s| >= 1 && AllDigits(s)
    ensures s[0] == '0' ==> n == 0
    decreases n
  {
    if n < 10 then [DigitChar(n)] else NatToString(n / 10) + [DigitChar(n % 10)]
  }

  /** The number a string of decimal digits denotes. */
  function DigitsValue(s: string): nat
    requires AllDigits(s)
  {
    if s == [] then 0 else DigitsValue(s[..|s| - 1]) * 10 + (s[|s| - 1] as int - '0' as int)
  }

  /** Rendering a number in decimal loses nothing: reading the digits back gives the number. */
  lemma {:induction false} NatToStringRoundTrip(n: nat)
    ensures DigitsValue(NatToString(n)) == n
    decreases n
  {
    if n >= 10 {
      NatToStringRoundTrip(n / 10);
      var s := NatToString(n);
      assert s[..|s| - 1] == NatToString(n / 10);
    }
  }

  /** Rendering is injective: distinct numbers give distinct texts. */
  lemma NatToStringInjective(m: nat, n: nat)
    ensures NatToString(m) == NatToString(n) ==> m == n
  {
    NatToStringRoundTrip(m);
    NatToStringRoundTrip(n);
  }

  /** Three-way comparison of strings by code unit, the stand-in for `localeCompare`. */
  function LexCompare(a: string, b: string): (r: int)
    ensures -1 <= r <= 1
    ensures r == 0 <==> a == b
  {
    if a == [] && b == [] then 0
    else if a == [] then -1
    else if b == [] then 1
    else if a[0] < b[0] then -1
    else if a[0] > b[0] then 1
    else
      var r := LexCompare(a[1..], b[1..]);
      assert r == 0 ==> a == [a[0]] + a[1..] == [b[0]] + b[1..] == b;
      r
  }

  /** Swapping the operands negates the comparison. */
  lemma {:induction false} LexCompareAntisymmetric(a: string, b: string)
    ensures LexCompare(a, b) == -LexCompare(b, a)
  {
    if a != [] && b != [] && a[0] == b[0] {
      LexCompareAntisymmetric(a[1..], b[1..]);
    }
  }

  /** "Sorts no later than" is transitive. */
  lemma {:induction false} LexCompareTransitive(a: string, b: string, c: string)
    requires LexCompare(a, b) <= 0 && LexCompare(b, c) <= 0
    ensures LexCompare(a, c) <= 0
  {
    if a != [] && b != [] && c != [] && a[0] == b[0] == c[0] {
      LexCompareTransitive(a[1..], b[1..], c[1..]);
    }
  }
}
