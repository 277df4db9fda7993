/** The cells of a ring and the tickets that name them, shared by both lock-free queues. */
module Ring {

  /** The cell of a ticket. */
  function Slot(ticket: nat, cap: nat): (i: nat)
    requires cap > 0
    ensures i < cap
  {
    ticket % cap
  }

  lemma MulStep(c: nat, x: nat, y: nat)
    requires x < y
    ensures c * x + c <= c * y
  {
    assert c * y == c * (x + 1) + c * (y - x - 1);
  }

  lemma DivModUnique(d: nat, q: nat, r: nat, q': nat, r': nat)
    requires r < d && r' < d && d * q + r == d * q' + r'
    ensures q == q' && r == r'
  {
    if q < q' { MulStep(d, q, q'); }
    if q' < q { MulStep(d, q', q); }
  }

  lemma QuotientRemainder(a: nat, d: nat, q: nat, r: nat)
    requires r < d && a == d * q + r
    ensures a / d == q && a % d == r
  {
    DivModUnique(d, a / d, a % d, q, r);
  }

  lemma NextLap(m: nat, q: nat)
    ensures m * q + m == m * (q + 1)
  {}

  /** Two tickets less than one lap apart share a cell only if they are equal. */
  lemma SlotInjective(t: nat, u: nat, cap: nat)
    requires cap > 0 && t < u + cap && u < t + cap
    requires Slot(t, cap) == Slot(u, cap)
    ensures t == u
  {
    if t / cap < u / cap { MulStep(cap, t / cap, u / cap); }
    if u / cap < t / cap { MulStep(cap, u / cap, t / cap); }
  }

  lemma SlotLap(t: nat, cap: nat)
    requires cap > 0
    ensures Slot(t + cap, cap) == Slot(t, cap)
  {
    NextLap(cap, t / cap);
    QuotientRemainder(t + cap, cap, t / cap + 1, t % cap);
  }

  // ---------------------------------------------------------------- powers of two and bit masks

  function Pow2(n: nat): (p: nat)
    ensures p > 0
  {
    if n == 0 then 1 else 2 * Pow2(n - 1)
  }

  /** Bitwise and of two naturals. */
  function BitAnd(a: nat, b: nat): (r: nat)
    ensures r <= a && r <= b
  {
    if a == 0 || b == 0 then 0 else 2 * BitAnd(a / 2, b / 2) + if a % 2 == 1 && b % 2 == 1 then 1 else 0
  }

  lemma TwiceProduct(m: nat, q: nat)
    ensures (2 * m) * q == 2 * (m * q)
  {}

  lemma HalfRemainder(a: nat, m: nat)
    requires m > 0
    ensures a % (2 * m) == 2 * (a / 2 % m) + a % 2
  {
    var h, b := a / 2, a % 2;
    var q, r := h / m, h % m;
    TwiceProduct(m, q);
    QuotientRemainder(a, 2 * m, q, 2 * r + b);
  }

  lemma MaskStep(a: nat, m: nat)
    requires m > 0 && a > 0
    ensures BitAnd(a, 2 * m - 1) == 2 * BitAnd(a / 2, m - 1) + a % 2
  {
    var mask := 2 * m - 1;
    assert mask / 2 == m - 1 && mask % 2 == 1;
  }

  lemma ZeroRemainder(m: nat)
    requires m > 0
    ensures 0 % m == 0
  {
    QuotientRemainder(0, m, 0, 0);
  }

  /** Masking with one less than a power of two is the remainder. */
  lemma {:induction false} MaskIsRemainder(a: nat, n: nat)
    ensures BitAnd(a, Pow2(n) - 1) == a % Pow2(n)
  {
    if n == 0 {
    } else if a == 0 {
      ZeroRemainder(Pow2(n));
    } else {
      var m := Pow2(n - 1);
      MaskIsRemainder(a / 2, n - 1);
      MaskStep(a, m);
      HalfRemainder(a, m);
      hide BitAnd;
    }
  }

  lemma {:induction false} Pow2Splits(m: nat, n: nat)
    ensures Pow2(m + n) == Pow2(m) * Pow2(n)
  {
    if m == 0 {
    } else {
      Pow2Splits(m - 1, n);
    }
  }

  lemma Regroup(c: nat, d: nat, x: nat, y: nat)
    ensures (c * d) * x + c * y == c * (d * x + y)
  {}

  lemma RemainderOfRemainder(a: nat, c: nat, d: nat, m: nat)
    requires c > 0 && d > 0 && m == c * d
    ensures a % m % c == a % c
  {
    var big, rest := a / m, a % m;
    var q, r := rest / c, rest % c;
    Regroup(c, d, big, q);
    QuotientRemainder(a, c, d * big + q, r);
  }

  /** The value of a counter of `bits` bits that has been incremented `count` times. */
  function Wrap(count: nat, bits: nat): (c: nat)
    ensures c < Pow2(bits)
    decreases count
  {
    if count < Pow2(bits) then count else Wrap(count - Pow2(bits), bits)
  }

  lemma {:induction false} WrapIsRemainder(count: nat, bits: nat)
    ensures Wrap(count, bits) == count % Pow2(bits)
    decreases count
  {
    var m := Pow2(bits);
    if count < m {
      QuotientRemainder(count, m, 0, count);
    } else {
      WrapIsRemainder(count - m, bits);
      SlotLap(count - m, m);
    }
  }

  /** A counter that wraps at 2^bits still finds its cell in a ring of 2^pow cells. */
  lemma {:induction false} WrappedSlot(count: nat, pow: nat, bits: nat)
    requires pow <= bits
    ensures BitAnd(Wrap(count, bits), Pow2(pow) - 1) == Slot(count, Pow2(pow))
  {
    MaskIsRemainder(Wrap(count, bits), pow);
    WrapIsRemainder(count, bits);
    Pow2Splits(pow, bits - pow);
    RemainderOfRemainder(count, Pow2(pow), Pow2(bits - pow), Pow2(bits));
  }

  lemma WrapZero(bits: nat)
    ensures Wrap(0, bits) == 0
  {}

  lemma {:induction false} WrapNext(count: nat, bits: nat)
    ensures Wrap(Wrap(count, bits) + 1, bits) == Wrap(count + 1, bits)
    decreases count
  {
    if count >= Pow2(bits) { WrapNext(count - Pow2(bits), bits); }
  }
}
