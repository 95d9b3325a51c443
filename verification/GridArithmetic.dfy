/** Positional arithmetic: a number below a*b is a pair of digits in one way only. */
module GridArithmetic {

  lemma MulMono(p: nat, q: nat, b: nat)
    requires p <= q
    ensures p * b <= q * b
  {
  }

  lemma MulAssoc(p: nat, q: nat, b: nat)
    ensures p * q * b == p * (q * b) == p * (b * q)
  {
  }

  lemma PairBound(q: nat, a: nat, r: nat, b: nat)
    requires q < a && r < b
    ensures q * b + r < a * b
  {
    MulMono(q + 1, a, b);
  }

  lemma PairUnique(q: nat, r: nat, q': nat, r': nat, b: nat)
    requires r < b && r' < b && q * b + r == q' * b + r'
    ensures q == q' && r == r'
  {
    if q < q' { MulMono(q + 1, q', b); }
    if q' < q { MulMono(q' + 1, q, b); }
  }

  lemma DivMod(n: nat, b: nat)
    requires b > 0
    ensures n == n / b * b + n % b && n % b < b
  {
  }

  // The digits are the quotient and the remainder.
  lemma PairDigits(q: nat, r: nat, b: nat)
    requires r < b
    ensures (q * b + r) / b == q && (q * b + r) % b == r
  {
    DivMod(q * b + r, b);
    PairUnique(q, r, (q * b + r) / b, (q * b + r) % b, b);
  }

  lemma PairSplit(n: nat, a: nat, b: nat) returns (q: nat, r: nat)
    requires n < a * b
    ensures q < a && r < b && n == q * b + r
  {
    assert b > 0;
    q, r := n / b, n % b;
    DivMod(n, b);
    if q >= a { MulMono(a, q, b); }
  }

  lemma DivMono(p: nat, q: nat, b: nat)
    requires b > 0 && p <= q
    ensures p / b <= q / b
  {
    DivMod(p, b);
    DivMod(q, b);
    var s, t := p / b, q / b;
    if s > t { MulMono(t + 1, s, b); }
  }
}
