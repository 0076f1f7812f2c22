/** Correlation ids of command requests: `"{prefix}-{n}"` with a 64-bit counter
    (crates/bat-markets/src/transport.rs). */
module RequestIds {
  import opened Basics

  function Digit(d: nat): char
    requires d < 10
  {
    "0123456789"[d]
  }

  function Decimal(n: nat): (s: string)
    ensures s != [] && '-' !in s
  {
    if n < 10 then [Digit(n)] else Decimal(n / 10) + [Digit(n % 10)]
  }

  /** The number a string of digits denotes. */
  function Parsed(s: string): int {
    if s == [] then 0 else 10 * Parsed(s[..|s| - 1]) + (s[|s| - 1] as int - '0' as int)
  }

  /** The digits are the decimal notation of the number, without leading zeros. */
  lemma {:induction false} DecimalParses(n: nat)
    ensures Parsed(Decimal(n)) == n
    ensures forall i :: 0 <= i < |Decimal(n)| ==> '0' <= Decimal(n)[i] <= '9'
    ensures n > 0 ==> Decimal(n)[0] != '0'
  {
    var s := Decimal(n);
    if n < 10 {
      assert s[..0] == [];
    } else {
      DecimalParses(n / 10);
      assert s[..|s| - 1] == Decimal(n / 10);
    }
  }

  function RequestId(prefix: string, n: nat): string {
    prefix + "-" + Decimal(n)
  }

  lemma {:induction false} DecimalInjective(m: nat, n: nat)
    requires Decimal(m) == Decimal(n)
    ensures m == n
  {
    var a, b := Decimal(m), Decimal(n);
    assert a[|a| - 1] == Digit(m % 10) && b[|b| - 1] == Digit(n % 10);
    if m >= 10 && n >= 10 {
      assert Decimal(m / 10) == a[..|a| - 1] == b[..|b| - 1] == Decimal(n / 10);
      DecimalInjective(m / 10, n / 10);
    }
  }

  /** Whatever the prefixes (they may contain dashes and digits), the id determines the counter. */
  lemma RequestIdInjective(p: string, m: nat, q: string, n: nat)
    requires RequestId(p, m) == RequestId(q, n)
    ensures p == q && m == n
  {
    SeparatorIsLastDash(p, m);
    SeparatorIsLastDash(q, n);
    var id := RequestId(p, m);
    assert p == id[..|p|] == q;
    assert Decimal(m) == id[|p| + 1..] == Decimal(n);
    DecimalInjective(m, n);
  }

  /** The counter digits hold no dash, so the separator is the last dash of the id. */
  lemma SeparatorIsLastDash(p: string, m: nat)
    ensures |p| < |RequestId(p, m)| && RequestId(p, m)[|p|] == '-'
    ensures forall i :: |p| < i < |RequestId(p, m)| ==> RequestId(p, m)[i] != '-'
  {
    var id := RequestId(p, m);
    assert forall i :: |p| < i < |id| ==> id[i] == Decimal(m)[i - |p| - 1];
  }

  /** The id of the `k`-th request issued, counting from zero: the counter starts at one and wraps. */
  function IssuedId(prefix: string, k: nat): string {
    RequestId(prefix, (k + 1) % U64)
  }

  /** Until the counter wraps the requests are numbered 1, 2, 3, ... */
  lemma IssuedNumbers(prefix: string, k: nat)
    requires k + 1 < U64
    ensures IssuedId(prefix, k) == prefix + "-" + Decimal(k + 1)
  {
  }

  /** Two issued ids collide exactly when their prefixes agree and the counter has wrapped from
      one to the other a whole number of times. */
  lemma IssuedIdsCollide(p: string, j: nat, q: string, k: nat)
    ensures IssuedId(p, j) == IssuedId(q, k) <==> p == q && (j + 1) % U64 == (k + 1) % U64
  {
    if IssuedId(p, j) == IssuedId(q, k) {
      RequestIdInjective(p, (j + 1) % U64, q, (k + 1) % U64);
    }
  }

  /** Among any 2^64 consecutively issued ids no two are equal. */
  lemma IssuedIdsDistinct(p: string, j: nat, q: string, k: nat)
    requires j < k < j + U64
    ensures IssuedId(p, j) != IssuedId(q, k)
  {
    IssuedIdsCollide(p, j, q, k);
  }
}
