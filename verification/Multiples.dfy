/** Multiples of a block size, kept away from nonlinear arithmetic. */
module Multiples {
  function Times(k: nat, b: nat): (r: nat) {
    if k == 0 then 0 else b + Times(k - 1, b)
  }

  lemma {:induction false} TimesIsProduct(k: nat, b: nat)
    ensures Times(k, b) == k * b
  {
    if k > 0 {
      TimesIsProduct(k - 1, b);
      assert k * b == (k - 1) * b + b;
    }
  }

  lemma {:induction false} TimesAdd(k: nat, m: nat, b: nat)
    ensures Times(k + m, b) == Times(k, b) + Times(m, b)
  {
    if m > 0 {
      TimesAdd(k, m - 1, b);
    }
  }

  lemma TimesSucc(k: nat, b: nat)
    ensures Times(k + 1, b) == Times(k, b) + b
  {
  }

  lemma TimesMono(k: nat, m: nat, b: nat)
    ensures k < m ==> Times(k, b) + b <= Times(m, b)
    ensures k <= m ==> Times(k, b) <= Times(m, b)
  {
    if k < m {
      TimesAdd(k, m - k, b);
    }
  }

  /** Smaller multiples have smaller factors. */
  lemma TimesLess(k: nat, m: nat, b: nat)
    requires Times(k, b) < Times(m, b)
    ensures k < m
  {
    TimesMono(m, k, b);
  }

  lemma MulAtLeast(k: int, b: nat)
    requires k >= 1
    ensures k * b >= b
  {
  }

  lemma MulMinus(k: int, m: int, b: int)
    ensures (k - m) * b == k * b - m * b
  {
  }

  lemma QuotientUnique(q: int, r: int, q': int, r': int, b: int)
    requires q * b + r == q' * b + r' && 0 <= r < b && 0 <= r' < b
    ensures q == q' && r == r'
  {
    if q > q' {
      MulAtLeast(q - q', b);
      MulMinus(q, q', b);
    }
    if q < q' {
      MulAtLeast(q' - q, b);
      MulMinus(q', q, b);
    }
  }

  lemma DivIdentity(x: nat, b: nat)
    requires b > 0
    ensures x == (x / b) * b + x % b && 0 <= x % b < b && x / b >= 0
  {
  }

  lemma DivModOf(q: nat, r: nat, b: nat)
    requires r < b
    ensures (Times(q, b) + r) / b == q && (Times(q, b) + r) % b == r
  {
    TimesIsProduct(q, b);
    var x := Times(q, b) + r;
    DivIdentity(x, b);
    QuotientUnique(q, r, x / b, x % b, b);
  }

  lemma DivOf(x: nat, b: nat)
    requires b > 0
    ensures x / b >= 0 && 0 <= x % b < b && x == Times(x / b, b) + x % b
  {
    DivIdentity(x, b);
    TimesIsProduct(x / b, b);
  }

  /** Sum of a sequence. */
  function Sum(s: seq<nat>): (r: nat) {
    if s == [] then 0 else Sum(s[..|s| - 1]) + s[|s| - 1]
  }

  lemma {:induction false} SumUpdate(s: seq<nat>, c: nat, v: nat)
    requires c < |s|
    ensures Sum(s[c := v]) == Sum(s) - s[c] + v
  {
    if c < |s| - 1 {
      SumUpdate(s[..|s| - 1], c, v);
      assert s[c := v][..|s| - 1] == s[..|s| - 1][c := v];
    } else {
      assert s[c := v][..|s| - 1] == s[..|s| - 1];
    }
  }

  lemma QuotientIs(a: nat, b: nat, q: nat)
    requires b > 0 && q * b <= a < q * b + b
    ensures a / b == q
  {
    QuotientUnique(a / b, a % b, q, a - q * b, b);
  }
}
