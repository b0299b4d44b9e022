/**
 * The little text formatting the script does through f-strings:
 * Python's decimal rendering of an integer (`str(n)`) and line counting.
 */
module Text {

  predicate IsDigit(c: char) {
    '0' <= c <= '9'
  }

  predicate AllDigits(s: string) {
    forall i :: 0 <= i < |s| ==> IsDigit(s[i])
  }

  /** True when `s` holds no line break, so it stays on one line of a text file. */
  predicate NoNewline(s: string) {
    forall i :: 0 <= i < |s| ==> s[i] != '\n'
  }

  function DigitChar(d: nat): (c: char)
    requires d < 10
    ensures IsDigit(c) && c as int - '0' as int == d
  {
    ('0' as int + d) as char
  }

  /** Decimal digits of a natural number, most significant first, no leading zeros. */
  function NatString(n: nat): (s: string)
    ensures 1 <= |s| && AllDigits(s)
    ensures |s| > 1 ==> s[0] != '0'
    decreases n
  {
    if n < 10 then [DigitChar(n)] else NatString(n / 10) + [DigitChar(n % 10)]
  }

  /** The value of a string of decimal digits. */
  function ParseNat(s: string): nat
    requires AllDigits(s)
  {
    if s == [] then 0
    else ParseNat(s[..|s| - 1]) * 10 + (s[|s| - 1] as int - '0' as int)
  }

  lemma {:induction false} ParseNatString(n: nat)
    ensures ParseNat(NatString(n)) == n
  {
    if n >= 10 {
      var s := NatString(n);
      assert s[..|s| - 1] == NatString(n / 10);
      ParseNatString(n / 10);
    }
  }

  /** Python's `str(n)` (and `f"{n}"`) for an int: a minus sign, then the digits. */
  function IntString(n: int): (s: string)
    ensures NoNewline(s)
    ensures 1 <= |s|
    ensures (s[0] == '-') <==> n < 0
    ensures n >= 0 ==> AllDigits(s) && ParseNat(s) == n && (|s| > 1 ==> s[0] != '0')
    ensures n < 0 ==> 2 <= |s| && AllDigits(s[1..]) && ParseNat(s[1..]) == -n && (|s| > 2 ==> s[1] != '0')
  {
    if n < 0 then
      ParseNatString(-n);
      "-" + NatString(-n)
    else
      ParseNatString(n);
      NatString(n)
  }

  /** The number of line breaks in `s`. */
  function NewlineCount(s: string): nat {
    if s == [] then 0
    else NewlineCount(s[..|s| - 1]) + (if s[|s| - 1] == '\n' then 1 else 0)
  }

  lemma {:induction false} NewlineCountAppend(a: string, b: string)
    ensures NewlineCount(a + b) == NewlineCount(a) + NewlineCount(b)
  {
    if b == [] {
      assert a + b == a;
    } else {
      assert (a + b)[..|a + b| - 1] == a + b[..|b| - 1];
      assert (a + b)[|a + b| - 1] == b[|b| - 1];
      NewlineCountAppend(a, b[..|b| - 1]);
    }
  }

  lemma {:induction false} NoNewlineCount(s: string)
    requires NoNewline(s)
    ensures NewlineCount(s) == 0
  {
    if s != [] {
      NoNewlineCount(s[..|s| - 1]);
    }
  }
}
