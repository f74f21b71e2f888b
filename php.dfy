/**
 * The PHP string operations the ingestion job relies on: decimal digit
 * strings, the `(int)` cast of a string, `empty()` on a string, the string
 * form of an integral float, and `explode(':', ...)`.
 */
module Php {

  predicate IsDigit(c: char) { '0' <= c <= '9' }

  /** Every character is a decimal digit (the empty string included). */
  predicate AllDigits(s: string) { forall i :: 0 <= i < |s| ==> IsDigit(s[i]) }

  /** A non-empty run of decimal digits: what a duration part must be. */
  predicate IsDigits(s: string) { |s| > 0 && AllDigits(s) }

  function DigitValue(c: char): (d: nat)
    requires IsDigit(c)
    ensures d < 10
  {
    (c as int) - ('0' as int)
  }

  function DigitChar(d: nat): (c: char)
    requires d < 10
    ensures IsDigit(c) && DigitValue(c) == d
  {
    (('0' as int) + d) as char
  }

  /** The number a run of decimal digits denotes, most significant digit first. */
  function DigitsValue(s: string): nat
    requires AllDigits(s)
  {
    if s == [] then 0 else DigitsValue(s[..|s| - 1]) * 10 + DigitValue(s[|s| - 1])
  }

  /**
   * The decimal form of a natural number without leading zeros; this is what
   * `(string)` gives for an integral float such as the result of `ceil`.
   */
  function DecimalString(n: nat): (s: string)
    ensures IsDigits(s)
    ensures IsCanonical(s)
    ensures s[0] == '0' ==> n == 0
    decreases n
  {
    if n < 10 then [DigitChar(n)] else DecimalString(n / 10) + [DigitChar(n % 10)]
  }

  /** A digit string in canonical form: no leading zero unless it is "0". */
  predicate IsCanonical(s: string) { IsDigits(s) && (s[0] == '0' ==> |s| == 1) }

  lemma {:induction false} DecimalStringValue(n: nat)
    ensures DigitsValue(DecimalString(n)) == n
    decreases n
  {
    var s := DecimalString(n);
    if n >= 10 {
      DecimalStringValue(n / 10);
      assert s[..|s| - 1] == DecimalString(n / 10);
    }
  }

  /** A digit string without a zero in front denotes a positive number. */
  lemma {:induction false} LeadingNonZeroPositive(s: string)
    requires IsDigits(s) && s[0] != '0'
    ensures DigitsValue(s) > 0
    decreases |s|
  {
    if |s| > 1 {
      var p := s[..|s| - 1];
      assert p[0] == s[0];
      assert AllDigits(p) by {
        forall i | 0 <= i < |p| ensures IsDigit(p[i]) { assert p[i] == s[i]; }
      }
      LeadingNonZeroPositive(p);
    }
  }

  lemma {:induction false} CanonicalDecimalString(s: string)
    requires IsCanonical(s)
    ensures DecimalString(DigitsValue(s)) == s
    decreases |s|
  {
    var n := DigitsValue(s);
    if |s| > 1 {
      var p := s[..|s| - 1];
      assert p[0] == s[0];
      assert AllDigits(p) by {
        forall i | 0 <= i < |p| ensures IsDigit(p[i]) { assert p[i] == s[i]; }
      }
      LeadingNonZeroPositive(p);
      CanonicalDecimalString(p);
      var d := DigitValue(s[|s| - 1]);
      assert n == DigitsValue(p) * 10 + d;
      assert n / 10 == DigitsValue(p) && n % 10 == d;
      assert DigitChar(d) == s[|s| - 1];
      assert s == p + [s[|s| - 1]];
    } else {
      assert DigitChar(DigitValue(s[0])) == s[0];
    }
  }

  /** The length of the longest prefix of `s` made of digits. */
  function LeadingDigits(s: string): (n: nat)
    ensures n <= |s|
    ensures AllDigits(s[..n])
    ensures n == |s| || !IsDigit(s[n])
  {
    if s == [] || !IsDigit(s[0]) then 0
    else
      var k := LeadingDigits(s[1..]);
      assert s[..k + 1] == [s[0]] + s[1..][..k];
      k + 1
  }

  /** Any digit prefix followed by a non-digit (or the end) is the longest one. */
  lemma {:induction false} LeadingDigitsExact(s: string, k: nat)
    requires k <= |s| && AllDigits(s[..k])
    requires k == |s| || !IsDigit(s[k])
    ensures LeadingDigits(s) == k
  {
  }

  /** The whitespace PHP skips before a number: space, \t, \n, \r, \v and \f. */
  predicate IsWhitespace(c: char)
  {
    c == ' ' || c == '\t' || c == '\n' || c == '\r' || c as int == 11 || c as int == 12
  }

  /** The length of the longest prefix of `s` made of whitespace. */
  function LeadingWhitespace(s: string): (n: nat)
    ensures n <= |s|
    ensures forall i :: 0 <= i < n ==> IsWhitespace(s[i])
    ensures n == |s| || !IsWhitespace(s[n])
  {
    if s == [] || !IsWhitespace(s[0]) then 0 else LeadingWhitespace(s[1..]) + 1
  }

  /** The value of the digits at the very start of `s`, 0 if there are none. */
  function DigitPrefixValue(s: string): nat
  {
    DigitsValue(s[..LeadingDigits(s)])
  }

  /**
   * PHP's `(int)` cast of a string: leading whitespace is skipped, a sign is
   * read, then the longest run of digits; anything after it is ignored and a
   * string without such a number gives 0. The cast never fails.
   */
  function IntCast(s: string): (r: int)
    ensures r < 0 ==> LeadingWhitespace(s) < |s| && s[LeadingWhitespace(s)] == '-'
  {
    var t := s[LeadingWhitespace(s)..];
    if |t| > 0 && t[0] == '-' then -(DigitPrefixValue(t[1..]) as int)
    else if |t| > 0 && t[0] == '+' then DigitPrefixValue(t[1..])
    else DigitPrefixValue(t)
  }

  /** The cast stops at the first non-digit: `(int)"12abc"` is 12. */
  lemma IntCastDigitPrefix(d: string, rest: string)
    requires IsDigits(d)
    requires rest == [] || !IsDigit(rest[0])
    ensures IntCast(d + rest) == DigitsValue(d)
  {
    var s := d + rest;
    assert s[0] == d[0];
    assert LeadingWhitespace(s) == 0;
    assert s[..|d|] == d;
    LeadingDigitsExact(s, |d|);
  }

  /** A digit string casts to the number it denotes. */
  lemma IntCastDigits(d: string)
    requires IsDigits(d)
    ensures IntCast(d) == DigitsValue(d)
  {
    assert d + [] == d;
    IntCastDigitPrefix(d, []);
  }

  /** A string that does not start with whitespace, a sign or a digit casts to 0. */
  lemma IntCastNoNumber(s: string)
    requires |s| > 0 && !IsWhitespace(s[0]) && !IsDigit(s[0]) && s[0] != '-' && s[0] != '+'
    ensures IntCast(s) == 0
  {
  }

  /** Whitespace in front of a string that does not start with whitespace is
      exactly what the cast skips. */
  lemma {:induction false} LeadingWhitespaceOf(w: string, s: string)
    requires forall i :: 0 <= i < |w| ==> IsWhitespace(w[i])
    requires s == [] || !IsWhitespace(s[0])
    ensures LeadingWhitespace(w + s) == |w|
    decreases |w|
  {
    if w != [] {
      assert (w + s)[1..] == w[1..] + s;
      LeadingWhitespaceOf(w[1..], s);
    } else {
      assert w + s == s;
    }
  }

  /** Leading whitespace does not change the cast: `(int)"\n 2730\n"` is 2730. */
  lemma IntCastSkipsWhitespace(w: string, s: string)
    requires forall i :: 0 <= i < |w| ==> IsWhitespace(w[i])
    requires s == [] || !IsWhitespace(s[0])
    ensures IntCast(w + s) == IntCast(s)
  {
    LeadingWhitespaceOf(w, s);
    assert (w + s)[|w|..] == s;
    assert s[LeadingWhitespace(s)..] == s;
  }

  /** A sign in front of the digits: `(int)"-30"` is -30 and `(int)"+7x"` is 7. */
  lemma IntCastSigned(d: string, rest: string)
    requires IsDigits(d)
    requires rest == [] || !IsDigit(rest[0])
    ensures IntCast("-" + d + rest) == -(DigitsValue(d) as int)
    ensures IntCast("+" + d + rest) == DigitsValue(d)
  {
    var t := d + rest;
    assert t[..|d|] == d;
    LeadingDigitsExact(t, |d|);
    assert "-" + d + rest == "-" + t;
    assert "+" + d + rest == "+" + t;
    IntCastSign('-', t);
    IntCastSign('+', t);
  }

  /** After a sign the cast reads the digits that follow it. */
  lemma IntCastSign(c: char, t: string)
    requires c == '-' || c == '+'
    ensures c == '-' ==> IntCast([c] + t) == -(DigitPrefixValue(t) as int)
    ensures c == '+' ==> IntCast([c] + t) == DigitPrefixValue(t)
  {
    var s := [c] + t;
    assert LeadingWhitespace(s) == 0;
    assert s[0..] == s && s[1..] == t;
  }

  /** The decimal form of `n` casts back to `n`. */
  lemma IntCastDecimalString(n: nat)
    ensures IntCast(DecimalString(n)) == n
  {
    IntCastDigits(DecimalString(n));
    DecimalStringValue(n);
  }

  /** PHP's `empty()` on a string: true for "" and for "0" only, both of which
      cast to 0. */
  predicate IsEmpty(s: string): (b: bool)
    ensures b ==> IntCast(s) == 0
  {
    IntCastDigits("0");
    s == "" || s == "0"
  }

  /** The number of colons in `s`. */
  function Colons(s: string): nat
  {
    if s == [] then 0 else (if s[0] == ':' then 1 else 0) + Colons(s[1..])
  }

  /** A string has a colon exactly when it counts at least one. */
  lemma {:induction false} ColonsCount(s: string)
    ensures Colons(s) > 0 <==> ':' in s
  {
    if s != [] {
      ColonsCount(s[1..]);
      assert s == [s[0]] + s[1..];
    }
  }

  /** Digit strings hold no colon. */
  lemma DigitsColonFree(s: string)
    requires AllDigits(s)
    ensures ':' !in s
  {
  }

  /** `explode(':', s)`: the pieces of `s` between its colons, in order. */
  function Explode(s: string): (parts: seq<string>)
    ensures |parts| >= 1
  {
    if s == [] then [""]
    else
      var rest := Explode(s[1..]);
      if s[0] == ':' then [""] + rest else [[s[0]] + rest[0]] + rest[1..]
  }

  /** `implode(':', parts)`: the pieces joined with a colon between each two. */
  function Implode(parts: seq<string>): string
    requires |parts| >= 1
  {
    if |parts| == 1 then parts[0] else parts[0] + ":" + Implode(parts[1..])
  }

  /** Exploding gives one more piece than there are colons. */
  lemma {:induction false} ExplodeLength(s: string)
    ensures |Explode(s)| == Colons(s) + 1
  {
    if s != [] { ExplodeLength(s[1..]); }
  }

  /** No piece contains a colon. */
  lemma {:induction false} ExplodePartsColonFree(s: string)
    ensures forall i :: 0 <= i < |Explode(s)| ==> ':' !in Explode(s)[i]
  {
    if s != [] {
      ExplodePartsColonFree(s[1..]);
      var rest := Explode(s[1..]);
      assert ':' !in rest[0];
    }
  }

  /** Gluing the pieces back together gives the original string. */
  lemma {:induction false} ImplodeExplode(s: string)
    ensures Implode(Explode(s)) == s
  {
    if s != [] {
      ImplodeExplode(s[1..]);
      var rest := Explode(s[1..]);
      if s[0] == ':' {
        assert Explode(s)[1..] == rest;
        if |rest| == 1 {
          assert Implode(Explode(s)) == "" + ":" + rest[0];
        } else {
          assert Implode(Explode(s)) == "" + ":" + Implode(rest);
        }
        assert s == [':'] + s[1..];
      } else if |rest| == 1 {
        assert s == [s[0]] + s[1..];
      } else {
        assert Explode(s)[1..] == rest[1..];
        assert Implode(rest) == rest[0] + ":" + Implode(rest[1..]);
        assert s == [s[0]] + s[1..];
      }
    }
  }

  /** A colon-free string is its own single piece. */
  lemma {:induction false} ExplodeColonFree(s: string)
    requires ':' !in s
    ensures Explode(s) == [s]
  {
    if s != [] {
      assert ':' !in s[1..] by { assert forall c :: c in s[1..] ==> c in s; }
      ExplodeColonFree(s[1..]);
      assert s == [s[0]] + s[1..];
    }
  }

  /** Exploding `a:rest`, where `a` has no colon, gives `a` then the pieces of `rest`. */
  lemma {:induction false} ExplodeCons(a: string, rest: string)
    requires ':' !in a
    ensures Explode(a + ":" + rest) == [a] + Explode(rest)
    decreases |a|
  {
    if a == [] {
      assert a + ":" + rest == [':'] + rest;
      assert (a + ":" + rest)[1..] == rest;
    } else {
      assert ':' !in a[1..] by { assert forall c :: c in a[1..] ==> c in a; }
      ExplodeCons(a[1..], rest);
      var s := a + ":" + rest;
      assert s[0] == a[0];
      assert s[1..] == a[1..] + ":" + rest;
      assert [a[0]] + a[1..] == a;
    }
  }

  /** Exploding the implosion of colon-free pieces gives the pieces back. */
  lemma {:induction false} ExplodeImplode(parts: seq<string>)
    requires |parts| >= 1
    requires forall i :: 0 <= i < |parts| ==> ':' !in parts[i]
    ensures Explode(Implode(parts)) == parts
  {
    if |parts| == 1 {
      ExplodeColonFree(parts[0]);
    } else {
      ExplodeImplode(parts[1..]);
      ExplodeCons(parts[0], Implode(parts[1..]));
      assert parts == [parts[0]] + parts[1..];
    }
  }

  /** A string with a colon in it always explodes into at least two pieces. */
  lemma {:induction false} ColonGivesTwoParts(s: string)
    requires ':' in s
    ensures |Explode(s)| >= 2
  {
    if s[0] != ':' {
      assert ':' in s[1..] by {
        var i :| 0 <= i < |s| && s[i] == ':';
        assert s[1..][i - 1] == ':';
      }
      ColonGivesTwoParts(s[1..]);
    }
  }
}
