/** Unsigned decimal text as Rust prints it and as `str::parse` reads it back. */
module Decimal {
  import opened Prelude

  const USIZE_MAX: nat := 0xFFFF_FFFF_FFFF_FFFF

  predicate IsDigit(c: char) {
    '0' <= c <= '9'
  }

  function ToText(n: nat): (s: string)
    ensures s != "" && forall i :: 0 <= i < |s| ==> IsDigit(s[i])
  {
    var last := [(n % 10 + '0' as int) as char];
    if n < 10 then last else ToText(n / 10) + last
  }

  /** The number a text of digits denotes. */
  function Digits(s: string): Option<nat> {
    if s == "" then Some(0)
    else
      var last := s[|s| - 1];
      match Digits(s[..|s| - 1])
      case Some(high) => if IsDigit(last) then Some(high * 10 + (last as int - '0' as int)) else None
      case None => None
  }

  /** `parse::<usize>()`: an optional plus sign, at least one digit, and no overflow. */
  function ParseUsize(s: string): Option<nat> {
    var body := if s != "" && s[0] == '+' then s[1..] else s;
    match Digits(body)
    case Some(n) => if body != "" && n <= USIZE_MAX then Some(n) else None
    case None => None
  }

  lemma {:induction false} DigitsOfText(n: nat)
    ensures Digits(ToText(n)) == Some(n)
  {
    var s := ToText(n);
    if n < 10 {
      assert s[..0] == "";
    } else {
      assert s[..|s| - 1] == ToText(n / 10);
      DigitsOfText(n / 10);
    }
  }

  lemma ParseInvertsText(n: nat)
    ensures ParseUsize(ToText(n)) == if n <= USIZE_MAX then Some(n) else None
  {
    DigitsOfText(n);
  }

  lemma {:induction false} DigitsAreDigits(s: string)
    ensures Digits(s).Some? <==> forall i :: 0 <= i < |s| ==> IsDigit(s[i])
  {
    if s != "" {
      DigitsAreDigits(s[..|s| - 1]);
      assert s == s[..|s| - 1] + [s[|s| - 1]];
    }
  }

  /** Exactly texts of one or more digits are read, after one plus sign at most, if the number fits. */
  lemma ParseMeans(s: string)
    ensures ParseUsize("+" + s) == if s != "" && s[0] == '+' then None else ParseUsize(s)
    ensures ParseUsize(s).Some? && (s == "" || s[0] != '+') ==> s != "" && forall i :: 0 <= i < |s| ==> IsDigit(s[i])
  {
    assert ("+" + s)[1..] == s;
    DigitsAreDigits(s);
    if s != "" && s[0] == '+' {
      assert !IsDigit(s[0]);
    }
  }
}
