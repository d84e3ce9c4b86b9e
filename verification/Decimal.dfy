/** Decimal numerals as Python's `str` and `format` print them, and their reading back. */
module Decimal {

  predicate IsDigit(c: char) { '0' <= c <= '9' }

  predicate AllDigits(s: string) { forall i | 0 <= i < |s| :: IsDigit(s[i]) }

  function Digit(d: nat): char
    requires d < 10
  {
    '0' + d as char
  }

  /** `str(n)`. */
  function Dec(n: nat): (s: string)
    ensures s != ""
  {
    if n < 10 then [Digit(n)] else Dec(n / 10) + [Digit(n % 10)]
  }

  function Val(s: string): nat
    requires AllDigits(s)
  {
    if s == "" then 0 else 10 * Val(s[..|s| - 1]) + (s[|s| - 1] - '0') as nat
  }

  function Zeros(n: nat): string { seq(n, _ => '0') }

  /** `f"{n:010d}"`. */
  function Pad10(n: nat): string {
    if |Dec(n)| < 10 then Zeros(10 - |Dec(n)|) + Dec(n) else Dec(n)
  }

  function Pow10(k: nat): nat { if k == 0 then 1 else 10 * Pow10(k - 1) }

  lemma ValLast(s: string, d: nat)
    requires AllDigits(s) && d < 10
    ensures AllDigits(s + [Digit(d)]) && Val(s + [Digit(d)]) == 10 * Val(s) + d
  {
    assert (s + [Digit(d)])[..|s|] == s;
  }

  lemma {:induction false} DecReads(n: nat)
    ensures AllDigits(Dec(n)) && Val(Dec(n)) == n
  {
    if n < 10 {
      ValLast("", n);
      assert "" + [Digit(n)] == [Digit(n)];
    } else {
      DecReads(n / 10);
      ValLast(Dec(n / 10), n % 10);
    }
  }

  /** A numeral has at most k digits exactly when the number is below the k-th power of ten. */
  lemma {:induction false} DecLength(n: nat, k: nat)
    requires k > 0
    ensures |Dec(n)| <= k <==> n < Pow10(k)
  {
    if k == 1 {
      assert Pow10(1) == 10 * Pow10(0);
    } else if n < 10 {
      PowGrows(k);
    } else {
      DecLength(n / 10, k - 1);
    }
  }

  lemma {:induction false} PowGrows(k: nat)
    requires k > 0
    ensures Pow10(k) >= 10
  {
    if k > 1 { PowGrows(k - 1); }
  }

  lemma {:induction false} LeadingZero(s: string)
    requires AllDigits(s)
    ensures AllDigits("0" + s) && Val("0" + s) == Val(s)
  {
    if s == "" {
      assert "0" + s == "0" && "0"[..0] == "";
    } else {
      assert ("0" + s)[..|s|] == "0" + s[..|s| - 1];
      LeadingZero(s[..|s| - 1]);
    }
  }

  lemma {:induction false} LeadingZeros(n: nat, s: string)
    requires AllDigits(s)
    ensures AllDigits(Zeros(n) + s) && Val(Zeros(n) + s) == Val(s)
  {
    if n == 0 {
      assert Zeros(0) + s == s;
    } else {
      LeadingZeros(n - 1, s);
      LeadingZero(Zeros(n - 1) + s);
      assert Zeros(n) + s == "0" + (Zeros(n - 1) + s);
    }
  }

  /** A padded numeral reads back, and is ten characters long exactly below ten to the tenth. */
  lemma Pad10Reads(n: nat)
    ensures AllDigits(Pad10(n)) && Val(Pad10(n)) == n
    ensures |Pad10(n)| == 10 <==> n < Pow10(10)
    ensures |Pad10(n)| >= 10
  {
    DecReads(n);
    DecLength(n, 10);
    if |Dec(n)| < 10 { LeadingZeros(10 - |Dec(n)|, Dec(n)); }
  }

  // ---- Reading a numeral off a longer text ----

  function DigitRun(s: string): (n: nat)
    ensures n <= |s|
  {
    if s == "" || !IsDigit(s[0]) then 0 else 1 + DigitRun(s[1..])
  }

  function DigitTail(s: string): (n: nat)
    ensures n <= |s|
  {
    if s == "" || !IsDigit(s[|s| - 1]) then 0 else 1 + DigitTail(s[..|s| - 1])
  }

  lemma {:induction false} DigitRunOf(d: string, rest: string)
    requires AllDigits(d) && (rest == "" || !IsDigit(rest[0]))
    ensures DigitRun(d + rest) == |d|
  {
    if d == "" {
      assert d + rest == rest;
    } else {
      assert (d + rest)[1..] == d[1..] + rest;
      DigitRunOf(d[1..], rest);
    }
  }

  lemma {:induction false} DigitTailOf(head: string, d: string)
    requires AllDigits(d) && (head == "" || !IsDigit(head[|head| - 1]))
    ensures DigitTail(head + d) == |d|
  {
    if d == "" {
      assert head + d == head;
    } else {
      assert (head + d)[..|head + d| - 1] == head + d[..|d| - 1];
      DigitTailOf(head, d[..|d| - 1]);
    }
  }

  lemma {:induction false} DigitRunDigits(s: string)
    ensures AllDigits(s[..DigitRun(s)])
  {
    if s != "" && IsDigit(s[0]) {
      DigitRunDigits(s[1..]);
      assert forall i | 1 <= i < DigitRun(s) :: s[i] == s[1..][..DigitRun(s[1..])][i - 1];
    }
  }

  lemma {:induction false} DigitTailDigits(s: string)
    ensures AllDigits(s[|s| - DigitTail(s)..])
  {
    if s != "" && IsDigit(s[|s| - 1]) {
      DigitTailDigits(s[..|s| - 1]);
      LastDigitMore(s, |s| - DigitTail(s));
    }
  }

  lemma LastDigitMore(s: string, k: nat)
    requires k < |s| && AllDigits(s[..|s| - 1][k..]) && IsDigit(s[|s| - 1])
    ensures AllDigits(s[k..])
  {
    forall i | 0 <= i < |s[k..]| ensures IsDigit(s[k..][i]) {
      if i < |s| - 1 - k { assert s[..|s| - 1][k..][i] == s[k..][i]; }
    }
  }
}
