/** Integers as the program writes and reads them: strconv.Itoa and strconv.Atoi. */
module Decimal {
  import opened Prelude

  const DIGITS := "0123456789"

  function Itoa(n: nat): (s: string)
    ensures s != ""
  {
    if n < 10 then [DIGITS[n]] else Itoa(n / 10) + [DIGITS[n % 10]]
  }

  lemma {:induction false} ItoaInjective(m: nat, n: nat)
    requires Itoa(m) == Itoa(n)
    ensures m == n
  {
    var s, t := Itoa(m), Itoa(n);
    assert s[|s| - 1] == DIGITS[m % 10] && t[|t| - 1] == DIGITS[n % 10];
    assert m % 10 == n % 10;
    if m >= 10 && n >= 10 {
      assert s[..|s| - 1] == Itoa(m / 10) && t[..|t| - 1] == Itoa(n / 10);
      ItoaInjective(m / 10, n / 10);
    } else {
      assert m < 10 ==> |s| == 1;
      assert n < 10 ==> |t| == 1;
    }
  }

  const MAX_INT := 0x7FFF_FFFF_FFFF_FFFF
  const MIN_INT := -0x8000_0000_0000_0000

  /** A 64-bit integer. */
  predicate IsInt(i: int)
  {
    MIN_INT <= i <= MAX_INT
  }

  function FormatInt(i: int): string
  {
    if i < 0 then "-" + Itoa(-i) else Itoa(i)
  }

  /** What a run of digits denotes; None where a character is no digit. */
  function Value(s: string): Option<nat>
  {
    if s == "" then Some(0)
    else
      var front, c := Value(s[..|s| - 1]), s[|s| - 1];
      if front.Some? && '0' <= c <= '9' then Some(10 * front.value + (c as int - '0' as int)) else None
  }

  predicate Signed(s: string)
  {
    s != "" && (s[0] == '-' || s[0] == '+')
  }

  /** One optional sign, at least one digit, and a value in range; anything else is an error. */
  function Atoi(s: string): (r: Option<int>)
    ensures r.Some? ==> IsInt(r.value)
  {
    var digits := if Signed(s) then s[1..] else s;
    var v := Value(digits);
    if digits == "" || v.None? then None
    else
      var magnitude: int := v.value;
      var i := if s[0] == '-' then -magnitude else magnitude;
      if IsInt(i) then Some(i) else None
  }

  predicate IsDigit(c: char)
  {
    '0' <= c <= '9'
  }

  lemma {:induction false} ValueExactly(s: string)
    ensures Value(s).Some? <==> forall i :: 0 <= i < |s| ==> IsDigit(s[i])
  {
    if s != "" {
      var front := s[..|s| - 1];
      ValueExactly(front);
      assert forall i :: 0 <= i < |front| ==> front[i] == s[i];
      assert s[|s| - 1] in s;
    }
  }

  /** Nothing else parses: digits after at most one sign, naming a 64-bit integer. */
  lemma AtoiAcceptsExactly(s: string)
    ensures Atoi(s).Some? ==> exists i :: IsInt(i) && Denotes(s, i)
    ensures forall i :: IsInt(i) && Denotes(s, i) ==> Atoi(s) == Some(i)
  {
    var digits := if Signed(s) then s[1..] else s;
    ValueExactly(digits);
    if Atoi(s).Some? {
      assert Denotes(s, Atoi(s).value);
    }
  }

  /** `s` is digits, after an optional sign, that say `i`. */
  ghost predicate Denotes(s: string, i: int)
  {
    var digits := if s != "" && (s[0] == '-' || s[0] == '+') then s[1..] else s;
    && digits != "" && (forall k :: 0 <= k < |digits| ==> IsDigit(digits[k]))
    && Value(digits).Some?
    && var magnitude: int := Value(digits).value; i == if s[0] == '-' then -magnitude else magnitude
  }

  lemma {:induction false} ValueOfItoa(n: nat)
    ensures Value(Itoa(n)) == Some(n) && !Signed(Itoa(n))
  {
    var s := Itoa(n);
    if n < 10 {
      assert s[..0] == "";
    } else {
      ValueOfItoa(n / 10);
      assert s[..|s| - 1] == Itoa(n / 10) && s[|s| - 1] == DIGITS[n % 10];
    }
  }

  /** Every 64-bit integer reads back as it was written. */
  lemma AtoiInverts(i: int)
    requires IsInt(i)
    ensures Atoi(FormatInt(i)) == Some(i) && FormatInt(i) != ""
  {
    var n := if i < 0 then -i else i;
    ValueOfItoa(n);
    if i < 0 {
      assert ("-" + Itoa(n))[1..] == Itoa(n);
    }
  }
}
