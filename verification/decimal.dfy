/** Decimal text of unsigned numbers: strconv.Itoa, which numbers the SQL
    placeholders, and strconv.ParseUint(s, 10, 64), which reads the paging
    parameters of the HTTP handlers. */
module Decimal {
  import opened Common

  const MaxUint64: nat := 0xFFFF_FFFF_FFFF_FFFF

  predicate IsDigit(c: char) {
    '0' <= c <= '9'
  }

  predicate AllDigits(s: string) {
    forall i :: 0 <= i < |s| ==> IsDigit(s[i])
  }

  function Digit(d: nat): (c: char)
    requires d < 10
    ensures IsDigit(c)
  {
    ('0' as int + d) as char
  }

  function DigitValue(c: char): (d: nat)
    requires IsDigit(c)
    ensures d < 10
  {
    c as int - '0' as int
  }

  /** The number a string of decimal digits denotes, most significant digit first. */
  function ValueOf(s: string): nat
    requires AllDigits(s)
  {
    if s == [] then 0 else ValueOf(s[..|s| - 1]) * 10 + DigitValue(s[|s| - 1])
  }

  /** strconv.Itoa on a non-negative value: the shortest decimal text. */
  function Itoa(n: nat): (s: string)
    ensures s != [] && AllDigits(s)
  {
    if n < 10 then [Digit(n)] else Itoa(n / 10) + [Digit(n % 10)]
  }

  /** Itoa writes n: reading its text back gives n. */
  lemma {:induction false} ItoaValue(n: nat)
    ensures ValueOf(Itoa(n)) == n
  {
    if n >= 10 {
      var s := Itoa(n);
      assert s[..|s| - 1] == Itoa(n / 10);
      ItoaValue(n / 10);
    }
  }

  /** A prefix of a digit string never denotes more than the whole string. */
  lemma {:induction false} PrefixValueAtMost(s: string, j: nat)
    requires AllDigits(s) && j <= |s|
    ensures AllDigits(s[..j]) && ValueOf(s[..j]) <= ValueOf(s)
    decreases |s| - j
  {
    if j < |s| {
      PrefixValueAtMost(s, j + 1);
      var p := s[..j + 1];
      assert p[..|p| - 1] == s[..j];
    } else {
      assert s[..j] == s;
    }
  }

  /** The digit loop of strconv.ParseUint from position i on, with the value of
      s[..i] accumulated in acc: a non-digit is a syntax error and a value that
      leaves 64 bits is a range error, both reported as None. */
  function Scan(s: string, i: nat, acc: nat): (r: Option<nat>)
    requires i <= |s|
    requires AllDigits(s[..i]) && acc == ValueOf(s[..i]) && acc <= MaxUint64
    ensures r.Some? <==> AllDigits(s) && ValueOf(s) <= MaxUint64
    ensures r.Some? ==> r.value == ValueOf(s)
    decreases |s| - i
  {
    if i == |s| then
      assert s[..i] == s;
      Some(acc)
    else if !IsDigit(s[i]) then
      None
    else
      var next := acc * 10 + DigitValue(s[i]);
      assert s[..i + 1][..i] == s[..i];
      if next > MaxUint64 then
        assert !AllDigits(s) || ValueOf(s) > MaxUint64 by {
          if AllDigits(s) { PrefixValueAtMost(s, i + 1); }
        }
        None
      else
        Scan(s, i + 1, next)
  }

  /** strconv.ParseUint(s, 10, 64): Some(value) exactly for a non-empty string of
      decimal digits (leading zeros allowed, no sign) whose value fits 64 bits. */
  function ParseUint(s: string): (r: Option<nat>)
    ensures r.Some? <==> s != [] && AllDigits(s) && ValueOf(s) <= MaxUint64
    ensures r.Some? ==> r.value == ValueOf(s)
  {
    if s == [] then None else Scan(s, 0, 0)
  }

  /** ParseUint undoes Itoa on every 64-bit value. */
  lemma ParseItoa(n: nat)
    requires n <= MaxUint64
    ensures ParseUint(Itoa(n)) == Some(n)
  {
    ItoaValue(n);
  }
}
