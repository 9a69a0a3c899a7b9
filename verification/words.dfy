/** Machine words: the moduli of 32- and 64-bit counters and what wrapping leaves true. */
module Words {

  const U32_MOD: nat := 0x1_0000_0000
  const U64_MOD: nat := 0x1_0000_0000_0000_0000

  type U32 = n: nat | n < U32_MOD
  type U64 = n: nat | n < U64_MOD

  function Min(x: nat, y: nat): nat { if x < y then x else y }

  /** Quotient and remainder are unique. */
  lemma WrapAt(n: int, m: int, q: int, r: int)
    requires m == U64_MOD || m == U32_MOD
    requires n == m * q + r && 0 <= r < m
    ensures n % m == r
  {
  }

  /** A sum may be wrapped early. */
  lemma Wrapped(a: int, b: int)
    ensures (a % U64_MOD + b) % U64_MOD == (a + b) % U64_MOD
  {
    var s := a % U64_MOD + b;
    WrapAt(a + b, U64_MOD, a / U64_MOD + s / U64_MOD, s % U64_MOD);
  }

  lemma WrappedIn(a: int, b: int, m: nat)
    requires m == U64_MOD || m == U32_MOD
    ensures (a % m + b) % m == (a + b) % m
  {
    var s := a % m + b;
    WrapAt(a + b, m, a / m + s / m, s % m);
  }

  /** One more, from a value already wrapped. */
  lemma OneMoreWraps(n: nat, m: nat)
    requires m == U64_MOD || m == U32_MOD
    ensures (n % m + 1) % m == (n + 1) % m
  {
    var b := n % m + 1;
    WrapAt(n + 1, m, n / m + b / m, b % m);
  }

  /** A difference of wrapped values. */
  lemma Apart64(x: int, y: int)
    ensures (x % U64_MOD - y % U64_MOD) % U64_MOD == (x - y) % U64_MOD
  {
    var d := x % U64_MOD - y % U64_MOD;
    WrapAt(x - y, U64_MOD, x / U64_MOD - y / U64_MOD + d / U64_MOD, d % U64_MOD);
  }

  /** Sums of values equal up to wrapping. */
  lemma SumsWrap(a: int, b: int, x: int, y: int)
    requires a % U64_MOD == b % U64_MOD && x % U64_MOD == y % U64_MOD
    ensures (a + x) % U64_MOD == (b + y) % U64_MOD
  {
    Wrapped(a, x);
    Wrapped(b, x);
    Wrapped(x, b);
    Wrapped(y, b);
  }

  lemma SameIffMultiple(x: int, y: int)
    ensures x % U64_MOD == (x - y) % U64_MOD <==> y % U64_MOD == 0
  {
    var m := U64_MOD;
    if y % m == 0 {
      WrapAt(x - y, m, x / m - y / m, x % m);
    } else if x % m == (x - y) % m {
      WrapAt(y, m, x / m - (x - y) / m, 0);
    }
  }
}
