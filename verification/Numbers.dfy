/** Numbers in query strings: %zu as query_addz (src/xltop.c) writes them, and strtoull in base 0 as q_size_parse
    (src/query.c) reads them. */
module Numbers {
  import opened Strings

  /** %zu */
  function Decimal(n: nat): string {
    if n < 10 then ['0' + n as char] else Decimal(n / 10) + ['0' + (n % 10) as char]
  }

  /** What a character stands for as a digit; 36 if for nothing. */
  function DigitOf(c: char): nat {
    if '0' <= c <= '9' then (c - '0') as nat
    else if 'a' <= c <= 'z' then (c - 'a') as nat + 10
    else if 'A' <= c <= 'Z' then (c - 'A') as nat + 10
    else 36
  }

  /** The value of the leading digits. */
  function DigitsIn(s: string, base: nat, n: nat): nat {
    if s == "" || DigitOf(s[0]) >= base then n else DigitsIn(s[1..], base, base * n + DigitOf(s[0]))
  }

  /** Base 0: 0x is for hexadecimal, 0 for octal, anything else decimal. */
  function Magnitude(s: string): nat {
    if |s| >= 3 && s[0] == '0' && s[1] in "xX" && DigitOf(s[2]) < 16 then DigitsIn(s[2..], 16, 0)
    else if s != "" && s[0] == '0' then DigitsIn(s, 8, 0)
    else DigitsIn(s, 10, 0)
  }

  /** strtoull in base 0: white space, a sign, digits; too large a value saturates, a minus sign negates modulo 2^64. */
  function Strtoull(s: string): (r: nat)
    ensures r < ULONG
  {
    if s != "" && IsSpace(s[0]) then Strtoull(s[1..])
    else
      var v := Magnitude(if s != "" && s[0] in "+-" then s[1..] else s);
      if v >= ULONG then ULONG - 1 else if s != "" && s[0] == '-' then (ULONG - v) % ULONG else v
  }

  ghost predicate AllDigits(s: string) {
    forall i :: 0 <= i < |s| ==> '0' <= s[i] <= '9'
  }

  lemma {:induction false} DigitsAppend(s: string, c: char, n: nat)
    requires AllDigits(s) && '0' <= c <= '9'
    ensures DigitsIn(s + [c], 10, n) == 10 * DigitsIn(s, 10, n) + DigitOf(c)
  {
    if s == "" {
      assert (s + [c])[1..] == "";
    } else {
      assert (s + [c])[1..] == s[1..] + [c];
      DigitsAppend(s[1..], c, 10 * n + DigitOf(s[0]));
    }
  }

  lemma {:induction false} DecimalDigits(n: nat)
    ensures var s := Decimal(n);
      s != "" && AllDigits(s) && DigitsIn(s, 10, 0) == n && (s[0] == '0' ==> n == 0 && s == "0")
  {
    if n < 10 {
      assert Decimal(n)[1..] == "";
    } else {
      DecimalDigits(n / 10);
      DigitsAppend(Decimal(n / 10), '0' + (n % 10) as char, 0);
    }
  }

  /** Numbers arrive. */
  lemma DecimalRead(n: nat)
    requires n < ULONG
    ensures Strtoull(Decimal(n)) == n
  {
    DecimalDigits(n);
    var s := Decimal(n);
    assert '0' <= s[0] <= '9' && !IsSpace(s[0]);
    assert s[0] !in "+-" by {
      assert "+-"[0] == '+' && "+-"[1] == '-';
    }
    if s[0] == '0' {
      assert s[1..] == "" && DigitsIn(s, 8, 0) == DigitsIn(s[1..], 8, 0) == 0;
    }
  }
}
