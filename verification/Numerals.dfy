/** Printing and reading numbers in a positional base, most significant digit first. */
module Numerals {
  import opened Prelude

  predicate Base(b: nat) {
    2 <= b <= 16
  }

  function DigitChar(d: nat): char
    requires d < 16
  {
    if d < 10 then '0' + d as char else 'a' + (d - 10) as char
  }

  /** The value of a digit of base `b`; letters of either case are read. */
  function DigitValue(c: char, b: nat): Option<nat>
    requires Base(b)
  {
    var d := if '0' <= c <= '9' then (c - '0') as nat
             else if 'a' <= c <= 'f' then (c - 'a') as nat + 10
             else if 'A' <= c <= 'F' then (c - 'A') as nat + 10
             else 16;
    if d < b then Some(d) else None
  }

  /** The shortest numeral for `n`. */
  function Print(n: nat, b: nat): string
    requires Base(b)
  {
    if n < b then [DigitChar(n)] else Print(n / b, b) + [DigitChar(n % b)]
  }

  /** The number that a non-empty string of digits denotes. */
  function Read(s: string, b: nat): Option<nat>
    requires Base(b)
  {
    if s == "" then None
    else
      var last := DigitValue(s[|s| - 1], b);
      if last.None? then None
      else if |s| == 1 then last
      else
        Shifted(Read(s[..|s| - 1], b), last.value, b)
  }

  function Shifted(high: Option<nat>, last: nat, b: nat): Option<nat> {
    if high.None? then None else Some(high.value * b + last)
  }

  lemma DigitRoundTrip(d: nat, b: nat)
    requires Base(b) && d < b
    ensures DigitValue(DigitChar(d), b) == Some(d)
  {
  }

  /** One more digit multiplies by the base and adds. */
  lemma ReadOneMore(s: string, d: nat, b: nat)
    requires Base(b) && Read(s, b).Some? && d < b
    ensures Read(s + [DigitChar(d)], b) == Some(Read(s, b).value * b + d)
  {
    DigitRoundTrip(d, b);
    assert (s + [DigitChar(d)])[..|s|] == s;
  }

  lemma Division(n: nat, b: nat)
    requires b > 0
    ensures n / b * b + n % b == n
  {
  }

  lemma {:induction false} PrintReads(n: nat, b: nat)
    requires Base(b)
    ensures Read(Print(n, b), b) == Some(n)
  {
    if n < b {
      DigitRoundTrip(n, b);
    } else {
      PrintReads(n / b, b);
      ReadOneMore(Print(n / b, b), n % b, b);
      Division(n, b);
    }
  }

  /** In base ten the digits are the ten Arabic ones by value, and the first of two counts ten times. */
  lemma DecimalIsUsual(d: nat, n: nat)
    requires d < 10
    ensures Print(d, 10) == ["0123456789"[d]] && Read(["0123456789"[d]], 10) == Some(d)
    ensures Print(10 * n + d, 10) == (if n == 0 then "" else Print(n, 10)) + ["0123456789"[d]]
    ensures Read(Print(n, 10) + ["0123456789"[d]], 10) == Some(10 * n + d)
  {
    assert "0123456789"[d] == DigitChar(d);
    assert (10 * n + d) / 10 == n && (10 * n + d) % 10 == d;
    DigitRoundTrip(d, 10);
    PrintReads(n, 10);
    ReadOneMore(Print(n, 10), d, 10);
  }

  /** No sign, no fraction, and not nothing at all. */
  lemma OnlyDigitsRead()
    ensures Read("", 10).None? && Read("-1", 10).None? && Read("1.5", 10).None?
  {
    assert "-1"[..1] == "-" && "1.5"[..2] == "1.";
  }

  /** A numeral is read from what is read before its last digit. */
  lemma SameHigherDigits(one: string, other: string, b: nat)
    requires Base(b) && |one| > 1 && |other| > 1 && one[|one| - 1] == other[|other| - 1]
    requires Read(one[..|one| - 1], b) == Read(other[..|other| - 1], b)
    ensures Read(one, b) == Read(other, b)
  {
    var high, last := Read(one[..|one| - 1], b), DigitValue(one[|one| - 1], b);
    assert Read(one, b) == if last.None? then None else Shifted(high, last.value, b);
    assert Read(other, b) == if last.None? then None else Shifted(high, last.value, b);
  }

  lemma ZeroAndDigit(c: char, b: nat)
    requires Base(b) && DigitValue(c, b).Some?
    ensures Read(['0', c], b) == Read([c], b) == DigitValue(c, b)
  {
    assert ['0', c][..1] == "0" && Read("0", b) == Some(0);
  }

  /** Leading zeros do not change the number. */
  lemma {:induction false} LeadingZero(s: string, b: nat)
    requires Base(b) && Read(s, b).Some?
    ensures Read("0" + s, b) == Read(s, b)
  {
    var z := "0" + s;
    if |s| == 1 {
      ZeroAndDigit(s[0], b);
      assert z == ['0', s[0]] && s == [s[0]];
    } else {
      LeadingZero(s[..|s| - 1], b);
      assert z[..|z| - 1] == "0" + s[..|s| - 1];
      SameHigherDigits(z, s, b);
    }
  }
}
