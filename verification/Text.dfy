/** Decimal numbers and separators in text: what formatting writes, parsing reads back.

A character stands for one byte of the program's text. */
module Text {
  import opened Wrappers
  import opened Ranking

  predicate IsDigit(c: char) {
    '0' <= c <= '9'
  }

  predicate AllDigits(s: string) {
    forall i :: 0 <= i < |s| ==> IsDigit(s[i])
  }

  function DigitChar(d: nat): (c: char)
    requires d < 10
    ensures IsDigit(c) && (c as int) - ('0' as int) == d
  {
    ('0' as int + d) as char
  }

  /** Decimal digits without leading zeros. */
  function Digits(n: nat): (s: string)
    ensures |s| > 0 && AllDigits(s)
  {
    if n < 10 then [DigitChar(n)] else Digits(n / 10) + [DigitChar(n % 10)]
  }

  function Value(s: string): nat
    requires AllDigits(s)
  {
    if s == "" then 0 else 10 * Value(s[..|s| - 1]) + (s[|s| - 1] as int - '0' as int)
  }

  /** The digits, zero-padded to a width. */
  function Padded(n: nat, width: nat): (s: string)
    ensures AllDigits(s) && |s| >= width && |s| > 0
  {
    var d := Digits(n);
    if |d| >= width then d else seq(width - |d|, i => '0') + d
  }

  lemma {:induction false} ValueOfDigits(n: nat)
    ensures Value(Digits(n)) == n
  {
    if n >= 10 {
      ValueOfDigits(n / 10);
      var d := Digits(n);
      assert d[..|d| - 1] == Digits(n / 10);
    }
  }

  lemma {:induction false} ValueOfZeros(k: nat, s: string)
    requires AllDigits(s)
    ensures AllDigits(seq(k, i => '0') + s) && Value(seq(k, i => '0') + s) == Value(s)
  {
    var zeros := seq(k, i => '0');
    if s == "" {
      assert zeros + s == zeros;
      if k > 0 {
        assert zeros[..k - 1] == seq(k - 1, i => '0');
        assert seq(k - 1, i => '0') + "" == seq(k - 1, i => '0');
        ValueOfZeros(k - 1, "");
      }
    } else {
      ValueOfZeros(k, s[..|s| - 1]);
      assert (zeros + s)[..|zeros + s| - 1] == zeros + s[..|s| - 1];
    }
  }

  lemma ValueOfPadded(n: nat, width: nat)
    ensures Value(Padded(n, width)) == n
  {
    ValueOfDigits(n);
    var d := Digits(n);
    if |d| < width {
      ValueOfZeros(width - |d|, d);
    }
  }

  /** Digits only, and not empty. */
  function ParseDigits(s: string): Option<nat> {
    if s != "" && AllDigits(s) then Some(Value(s)) else None
  }

  lemma ParsePadded(n: nat, width: nat)
    ensures ParseDigits(Padded(n, width)) == Some(n)
  {
    ValueOfPadded(n, width);
  }

  lemma ParseDigitsOf(n: nat)
    ensures ParseDigits(Digits(n)) == Some(n)
  {
    ValueOfDigits(n);
  }

  const INT_MAX := 0x7FFF_FFFF_FFFF_FFFF

  /** A signed decimal integer in 64 bits. */
  function ParseInt(s: string): Option<int> {
    if s == "" then None
    else
      var unsigned := if s[0] == '-' || s[0] == '+' then s[1..] else s;
      var value := ParseDigits(unsigned);
      if value.None? then None
      else
        var signed: int := if s[0] == '-' then 0 - value.value else value.value;
        if -INT_MAX - 1 <= signed <= INT_MAX then Some(signed) else None
  }

  function FormatInt(n: int): string {
    if n < 0 then "-" + Digits(-n) else Digits(n)
  }

  lemma ParseFormatted(n: int)
    requires -INT_MAX - 1 <= n <= INT_MAX
    ensures ParseInt(FormatInt(n)) == Some(n)
  {
    if n < 0 {
      ParseDigitsOf(-n);
      assert ("-" + Digits(-n))[1..] == Digits(-n);
    } else {
      ParseDigitsOf(n);
      assert IsDigit(Digits(n)[0]);
    }
  }

  lemma ParsePaddedInt(n: nat, width: nat)
    requires n <= INT_MAX
    ensures ParseInt(Padded(n, width)) == Some(n)
  {
    ParsePadded(n, width);
    assert IsDigit(Padded(n, width)[0]);
  }

  /** An unsigned 8-bit number in its canonical form. */
  function ParseScale(s: string): Option<nat> {
    var value := ParseDigits(s);
    if value.None? || value.value > 255 || Digits(value.value) != s then None else value
  }

  // Separators ----------------------------------------------------------------------------------------------

  predicate Free(s: string, c: char) {
    forall i :: 0 <= i < |s| ==> s[i] != c
  }

  /** The text before and after the first separator, and whether there is one. */
  function Cut(s: string, c: char): (string, string, bool) {
    if s == "" then ("", "", false)
    else if s[0] == c then ("", s[1..], true)
    else
      var rest := Cut(s[1..], c);
      ([s[0]] + rest.0, rest.1, rest.2)
  }

  lemma {:induction false} CutJoined(a: string, b: string, c: char)
    requires Free(a, c)
    ensures Cut(a + [c] + b, c) == (a, b, true)
  {
    if a == "" {
      assert a + [c] + b == [c] + b;
    } else {
      CutJoined(a[1..], b, c);
      assert (a + [c] + b)[1..] == a[1..] + [c] + b;
      assert (a + [c] + b)[0] == a[0] && a == [a[0]] + a[1..];
    }
  }

  lemma {:induction false} CutParts(s: string, c: char)
    ensures Free(Cut(s, c).0, c)
    ensures Cut(s, c).2 ==> s == Cut(s, c).0 + [c] + Cut(s, c).1
    ensures !Cut(s, c).2 ==> s == Cut(s, c).0 && Cut(s, c).1 == "" && Free(s, c)
  {
    if s != "" && s[0] != c {
      CutParts(s[1..], c);
    }
  }

  lemma {:induction false} CutFree(s: string, c: char)
    requires Free(s, c)
    ensures Cut(s, c) == (s, "", false)
  {
    if s != "" {
      CutFree(s[1..], c);
      assert s == [s[0]] + s[1..];
    }
  }

  lemma DigitsAreFree(s: string, c: char)
    requires AllDigits(s) && !IsDigit(c)
    ensures Free(s, c)
  {
  }

  // Order -----------------------------------------------------------------------------------------------------

  /** The order of texts, character by character. */
  predicate TextBefore(a: string, b: string) {
    if b == "" then false
    else if a == "" then true
    else if a[0] != b[0] then a[0] < b[0]
    else TextBefore(a[1..], b[1..])
  }

  /** Two texts with the same beginning, of which the first ends or goes on with the smaller character. */
  ghost predicate BeforeAt(a: string, b: string, n: nat) {
    n <= |a| && n < |b| && a[..n] == b[..n] && (n == |a| || a[n] < b[n])
  }

  /** Texts are ordered by the first character in which they differ, and a beginning comes before the whole. */
  lemma {:induction false} TextsOrderByCharacters(a: string, b: string)
    ensures TextBefore(a, b) <==> exists n: nat :: BeforeAt(a, b, n)
    decreases |a|
  {
    if b != "" && a != "" && a[0] == b[0] {
      TextsOrderByCharacters(a[1..], b[1..]);
      if TextBefore(a, b) {
        var n: nat :| BeforeAt(a[1..], b[1..], n);
        assert a[..n + 1] == [a[0]] + a[1..][..n] && b[..n + 1] == [b[0]] + b[1..][..n];
        assert BeforeAt(a, b, n + 1);
      } else if exists n: nat :: BeforeAt(a, b, n) {
        var n: nat :| BeforeAt(a, b, n);
        assert a[1..][..n - 1] == a[..n][1..] && b[1..][..n - 1] == b[..n][1..];
        assert BeforeAt(a[1..], b[1..], n - 1);
      }
    } else if b != "" {
      assert TextBefore(a, b) ==> BeforeAt(a, b, 0);
      if exists n: nat :: BeforeAt(a, b, n) {
        var n: nat :| BeforeAt(a, b, n);
        if n > 0 {
          assert a[..n][0] == b[..n][0];
        }
      }
    }
  }

  lemma {:induction false} TextOrder(a: string, b: string, c: string)
    ensures !TextBefore(a, a)
    ensures a == b || TextBefore(a, b) || TextBefore(b, a)
    ensures TextBefore(a, b) && TextBefore(b, c) ==> TextBefore(a, c)
    decreases |a| + |b| + |c|
  {
    if a != "" {
      TextOrder(a[1..], if b == "" then b else b[1..], if c == "" then c else c[1..]);
      if b != "" && a[0] == b[0] && a[1..] == b[1..] {
        assert a == [a[0]] + a[1..] && b == [b[0]] + b[1..];
      }
    }
  }

  lemma NamesTotal(names: set<string>)
    ensures TotalOn(names, TextBefore)
  {
    forall a, b, c: string
      ensures !TextBefore(a, a) && (a == b || TextBefore(a, b) || TextBefore(b, a))
      ensures TextBefore(a, b) && TextBefore(b, c) ==> TextBefore(a, c)
    {
      TextOrder(a, b, c);
    }
  }
}
