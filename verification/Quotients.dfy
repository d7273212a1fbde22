/** Division, and halving over and over. */
module Quotients {
  import opened Words

  lemma TimesMonotone(a: nat, b: nat, c: nat)
    requires a <= b
    ensures a * c <= b * c
  {
  }

  lemma QuotientIsUnique(x: nat, n: nat, q: nat, r: nat)
    requires n > 0 && x == q * n + r && r < n
    ensures x % n == r && x / n == q
  {
    var d := x / n;
    assert x == d * n + x % n;
    if d < q {
      TimesMonotone(d + 1, q, n);
    } else if q < d {
      TimesMonotone(q + 1, d, n);
    }
  }

  /** Half of it, k times over. */
  function Halved(w: nat, k: nat): (h: nat)
    ensures h <= w
  {
    if k == 0 then w else Halved(w / 2, k - 1)
  }

  function Pow2(k: nat): (p: nat)
    ensures p > 0
  {
    if k == 0 then 1 else 2 * Pow2(k - 1)
  }

  lemma TwiceTheDivisor(q: nat, p: nat, r: nat, bit: nat)
    ensures 2 * (q * p + r) + bit == q * (2 * p) + (2 * r + bit)
  {
  }

  lemma DivideTwice(w: nat, p: nat)
    requires p > 0
    ensures w / 2 / p == w / (2 * p)
  {
    var q, r, bit := w / 2 / p, w / 2 % p, w % 2;
    TwiceTheDivisor(q, p, r, bit);
    QuotientIsUnique(w, 2 * p, q, 2 * r + bit);
  }

  lemma {:induction false} HalvedIsQuotient(w: nat, k: nat)
    ensures Halved(w, k) == w / Pow2(k)
    decreases k
  {
    if k > 0 {
      HalvedIsQuotient(w / 2, k - 1);
      DivideTwice(w, Pow2(k - 1));
    }
  }

  lemma {:induction false} HalvedOnceMore(w: nat, k: nat)
    ensures Halved(w, k + 1) == Halved(w, k) / 2
    decreases k
  {
    if k > 0 {
      HalvedOnceMore(w / 2, k - 1);
    }
  }

  lemma {:induction false} HalvedOfMax(a: nat, b: nat, k: nat)
    ensures Halved(Max(a, b), k) == Max(Halved(a, k), Halved(b, k))
    decreases k
  {
    if k > 0 {
      assert Max(a, b) / 2 == Max(a / 2, b / 2);
      HalvedOfMax(a / 2, b / 2, k - 1);
    }
  }
}
