/** Go's uint32 shifts and bitwise operators on natural numbers.

    A shift is that many one-bit shifts, so a shift of 32 or more gives 0 as it
    does in Go.  A string of bits is handled through `Lead(s, n)`, the number
    formed by the first n bits of s, with zeros after bit 32; `Top(s, n)` is the
    same number in closed form. */
module Bits {
  const WORD: nat := 0x1_0000_0000

  type Word = x: nat | x < WORD

  function Pow2(n: nat): (r: nat)
    ensures r >= 1
  {
    if n == 0 then 1 else 2 * Pow2(n - 1)
  }

  function Div(x: nat, d: nat): nat
    requires d > 0
  {
    x / d
  }

  /** `x << p` */
  function Shl(x: Word, p: nat): Word {
    if p == 0 then x else (2 * Shl(x, p - 1)) % WORD
  }

  /** `x >> m` */
  function Shr(x: nat, m: nat): (r: nat)
    ensures r <= x
  {
    if m == 0 then x else Shr(x / 2, m - 1)
  }

  /** `a ^ b` on non-negative integers */
  function Xor(a: nat, b: nat): nat
    decreases a + b
  {
    if a == 0 && b == 0 then 0 else 2 * Xor(a / 2, b / 2) + (a + b) % 2
  }

  /** `a | b` on non-negative integers */
  function Or(a: nat, b: nat): nat
    decreases a + b
  {
    if a == 0 && b == 0 then 0
    else 2 * Or(a / 2, b / 2) + (if a % 2 == 1 || b % 2 == 1 then 1 else 0)
  }

  /** EXTRACT(p, n, str): n bits of str starting at position p */
  function Extract(p: nat, n: nat, s: Word): nat
    requires n <= 32
  {
    Shr(Shl(s, p), 32 - n)
  }

  function Double(s: nat, k: nat): nat {
    if k == 0 then s else 2 * Double(s, k - 1)
  }

  /** The first n bits of s as a number, s continued with zeros. */
  function Lead(s: nat, n: nat): nat {
    if n <= 32 then Shr(s, 32 - n) else Double(s, n - 32)
  }

  function Top(s: nat, n: nat): nat {
    (s * Pow2(n)) / WORD
  }

  // ---- powers and division ----

  lemma Pow2Add(a: nat, b: nat)
    ensures Pow2(a + b) == Pow2(a) * Pow2(b)
  {
    if a == 0 {
    } else {
      Pow2Add(a - 1, b);
      assert Pow2(a + b) == 2 * (Pow2(a - 1) * Pow2(b)) == (2 * Pow2(a - 1)) * Pow2(b);
    }
  }

  lemma Pow2Mono(a: nat, b: nat)
    requires a <= b
    ensures Pow2(a) <= Pow2(b)
  {
    if a < b { Pow2Mono(a, b - 1); }
  }

  lemma Pow2At32()
    ensures Pow2(32) == WORD && Pow2(16) == 65536
  {
    assert Pow2(8) == 256;
    assert Pow2(16) == 65536 by { Pow2Add(8, 8); }
    Pow2Add(16, 16);
  }

  lemma DivUnique(x: nat, d: nat, q: nat, r: nat)
    requires d > 0 && r < d && x == q * d + r
    ensures x / d == q && x % d == r
  {
    var q', r' := x / d, x % d;
    assert x == q' * d + r';
    if q' < q {
      assert (q' + 1) * d <= q * d by { MulMono(q' + 1, q, d); }
    } else if q < q' {
      assert (q + 1) * d <= q' * d by { MulMono(q + 1, q', d); }
    }
  }

  lemma MulMono(a: nat, b: nat, d: nat)
    requires a <= b
    ensures a * d <= b * d
  {}

  lemma DivMono(a: nat, b: nat, d: nat)
    requires a <= b && d > 0
    ensures a / d <= b / d
  {
    if b / d < a / d {
      MulMono(b / d + 1, a / d, d);
    }
  }

  lemma MulAssoc(a: nat, b: nat, c: nat)
    ensures (a * b) * c == a * (b * c)
  {}

  lemma MulDist(a: nat, b: nat, c: nat)
    ensures (a + b) * c == a * c + b * c
  {}

  /** A digit below d followed by a digit below k is below d * k. */
  lemma DigitsBelow(r: nat, d: nat, t: nat, k: nat)
    requires r < d && t < k
    ensures r * k + t < d * k
  {
    MulMono(r + 1, d, k);
    MulDist(r, 1, k);
  }

  /** Two digits over base d and k are one number over base d * k. */
  lemma Digits(q: nat, r: nat, d: nat, t: nat, k: nat)
    ensures (q * d + r) * k + t == q * (d * k) + (r * k + t)
  {
    MulDist(q * d, r, k);
    MulAssoc(q, d, k);
  }

  lemma DivDiv(x: nat, a: nat, b: nat)
    requires a > 0 && b > 0
    ensures a * b > 0
    ensures x / a / b == x / (a * b)
  {
    var q, t := x / a, x % a;
    var q2, r := q / b, q % b;
    DivDivParts(x, a, b, q, q2, r, t);
  }

  lemma DivDivParts(x: nat, a: nat, b: nat, q: nat, q2: nat, r: nat, t: nat)
    requires t < a && r < b && x == q * a + t && q == q2 * b + r
    ensures a * b > 0
    ensures x / (a * b) == q2
  {
    Digits(q2, r, b, t, a);
    DigitsBelow(r, b, t, a);
    DivUnique(x, a * b, q2, r * a + t);
  }

  lemma DivCancel(x: nat, d: nat, k: nat)
    requires d > 0 && k > 0
    ensures d * k > 0
    ensures (x * k) / (d * k) == x / d
  {
    var q, r := x / d, x % d;
    Digits(q, r, d, 0, k);
    DigitsBelow(r, d, 0, k);
    DivUnique(x * k, d * k, q, r * k);
  }

  // ---- closed forms ----

  lemma {:induction false} ShrIs(x: nat, m: nat)
    ensures Shr(x, m) == Div(x, Pow2(m))
  {
    if m > 0 {
      ShrIs(x / 2, m - 1);
      DivDiv(x, 2, Pow2(m - 1));
    }
  }

  lemma {:induction false} ShlIs(x: Word, p: nat)
    ensures Shl(x, p) == (x * Pow2(p)) % WORD
  {
    if p > 0 {
      ShlIs(x, p - 1);
      assert Pow2(p) == Pow2(p - 1) * 2;
      ShlStep(x, Pow2(p - 1));
    }
  }

  lemma ShlStep(x: nat, k: nat)
    ensures (2 * ((x * k) % WORD)) % WORD == (x * (k * 2)) % WORD
  {
    MulAssoc(x, k, 2);
    DoubleMod(x * k);
  }

  lemma DoubleMod(y: nat)
    ensures (2 * (y % WORD)) % WORD == (2 * y) % WORD
  {
    var q, r := y / WORD, y % WORD;
    if 2 * r < WORD { DivUnique(2 * y, WORD, 2 * q, 2 * r); }
    else { DivUnique(2 * y, WORD, 2 * q + 1, 2 * r - WORD); }
  }

  lemma {:induction false} DoubleIs(s: nat, k: nat)
    ensures Double(s, k) == s * Pow2(k)
  {
    if k > 0 {
      DoubleIs(s, k - 1);
      MulAssoc(s, Pow2(k - 1), 2);
    }
  }

  lemma LeadIs(s: nat, n: nat)
    ensures Lead(s, n) == Top(s, n)
  {
    Pow2At32();
    if n <= 32 {
      ShrIs(s, 32 - n);
      Pow2Add(n, 32 - n);
      LeadShort(s, Pow2(n), Pow2(32 - n));
    } else {
      DoubleIs(s, n - 32);
      Pow2Add(n - 32, 32);
      ExactQuotient(s, Pow2(n - 32), WORD);
    }
  }

  lemma LeadShort(s: nat, k: nat, h: nat)
    requires k > 0 && h > 0 && k * h == WORD
    ensures (s * k) / WORD == s / h
  {
    DivCancel(s, h, k);
  }

  // ---- prefixes of bit strings ----

  /** A shorter prefix is a prefix of the longer one. */
  lemma TopShorter(s: nat, m: nat, n: nat)
    requires m <= n
    ensures Top(s, m) == Top(s, n) / Pow2(n - m)
  {
    Pow2Add(m, n - m);
    hide Pow2;
    MulAssoc(s, Pow2(m), Pow2(n - m));
    DivTwice(s * Pow2(m), Pow2(n - m));
  }

  lemma DivTwice(x: nat, k: nat)
    requires k > 0
    ensures x / WORD == ((x * k) / WORD) / k
  {
    DivDiv(x * k, WORD, k);
    DivCancel(x, WORD, k);
  }

  lemma TopZero(s: Word)
    ensures Top(s, 0) == 0
    ensures Top(s, 32) == s
  {
    Pow2At32();
    DivUnique(s * Pow2(0), WORD, 0, s);
    DivUnique(s * WORD, WORD, s, 0);
  }

  /** EXTRACT cuts the n bits after the first p, also where p + n runs past bit 32. */
  lemma TopSplit(s: Word, p: nat, n: nat)
    requires n <= 32
    ensures Top(s, p + n) == Top(s, p) * Pow2(n) + Extract(p, n, s)
    ensures Extract(p, n, s) < Pow2(n)
  {
    Pow2Add(p, n);
    Pow2Add(n, 32 - n);
    Pow2At32();
    TopSplitParts(s, Pow2(p), Pow2(n), Pow2(32 - n));
    ShlIs(s, p);
    ShrIs(Shl(s, p), 32 - n);
  }

  lemma TopSplitParts(s: nat, j: nat, k: nat, h: nat)
    requires k > 0 && h > 0 && k * h == WORD
    ensures (s * (j * k)) / WORD == ((s * j) / WORD) * k + ((s * j) % WORD) / h
    ensures ((s * j) % WORD) / h < k
  {
    MulAssoc(s, j, k);
    ShiftPair(s * j, k, h);
  }

  /** Shifting left by n out of the low word and taking the high word. */
  lemma ShiftPair(x: nat, k: nat, h: nat)
    requires k > 0 && h > 0 && k * h == WORD
    ensures (x * k) / WORD == (x / WORD) * k + (x % WORD) / h
    ensures (x % WORD) / h < k
  {
    var q, r := x / WORD, x % WORD;
    var e, f := r / h, r % h;
    if k <= e { MulMono(k, e, h); }
    Digits(q, r, WORD, 0, k);
    Digits(e, f, h, 0, k);
    DigitsBelow(f, h, 0, k);
    assert h * k == WORD;
    MulAssoc(q, k, WORD);
    MulDist(q * k, e, WORD);
    assert q * (WORD * k) == (q * k) * WORD;
    DivUnique(x * k, WORD, q * k + e, f * k);
  }

  /** s and t have the same first n bits. */
  predicate Agree(s: nat, t: nat, n: nat) {
    Lead(s, n) == Lead(t, n)
  }

  lemma AgreeIs(s: nat, t: nat, n: nat)
    ensures Agree(s, t, n) <==> Top(s, n) == Top(t, n)
  {
    LeadIs(s, n);
    LeadIs(t, n);
  }

  lemma AgreeShorter(s: nat, t: nat, m: nat, n: nat)
    requires m <= n && Agree(s, t, n)
    ensures Agree(s, t, m)
  {
    hide *;
    AgreeIs(s, t, n);
    AgreeIs(s, t, m);
    TopShorter(s, m, n);
    TopShorter(t, m, n);
  }

  lemma TopMono(s: nat, t: nat, n: nat)
    requires s <= t
    ensures Top(s, n) <= Top(t, n)
  {
    MulMono(s, t, Pow2(n));
    DivMono(s * Pow2(n), t * Pow2(n), WORD);
  }

  lemma AgreeBetween(s: nat, t: nat, u: nat, n: nat)
    requires s <= t <= u && Agree(s, u, n)
    ensures Agree(s, t, n)
  {
    hide *;
    AgreeIs(s, u, n);
    AgreeIs(s, t, n);
    TopMono(s, t, n);
    TopMono(t, u, n);
  }

  lemma AgreeAll(s: Word, t: Word, n: nat)
    requires n >= 32 && Agree(s, t, n)
    ensures s == t
  {
    AgreeShorter(s, t, 32, n);
  }

  /** Strings that agree on p bits agree on p + n exactly when EXTRACT gives the same n bits,
      and EXTRACT orders them as the strings are ordered. */
  lemma AgreeExtract(s: Word, t: Word, p: nat, n: nat)
    requires n <= 32 && Agree(s, t, p)
    ensures Extract(p, n, s) == Extract(p, n, t) <==> Agree(s, t, p + n)
    ensures s <= t ==> Extract(p, n, s) <= Extract(p, n, t)
    ensures Extract(p, n, s) < Pow2(n)
  {
    hide *;
    AgreeIs(s, t, p);
    AgreeIs(s, t, p + n);
    TopDigits(s, t, p, n);
  }

  lemma TopDigits(s: Word, t: Word, p: nat, n: nat)
    requires n <= 32 && Top(s, p) == Top(t, p)
    ensures Extract(p, n, s) == Extract(p, n, t) <==> Top(s, p + n) == Top(t, p + n)
    ensures s <= t ==> Extract(p, n, s) <= Extract(p, n, t)
    ensures Extract(p, n, s) < Pow2(n)
  {
    hide *;
    var a := Top(s, p) * Pow2(n);
    assert Top(s, p + n) == a + Extract(p, n, s) && Extract(p, n, s) < Pow2(n) by { TopSplit(s, p, n); }
    assert Top(t, p + n) == a + Extract(p, n, t) by { TopSplit(t, p, n); }
    if s <= t { TopMono(s, t, p + n); }
  }

  lemma ExtractFromStart(n: nat, s: Word)
    requires n <= 32
    ensures Extract(0, n, s) == Lead(s, n)
  {
  }

  /** Fewer bits from the same place are the leading bits of more. */
  lemma ExtractFewer(p: nat, m: nat, n: nat, s: Word)
    requires m <= n <= 32
    ensures Extract(p, m, s) == Extract(p, n, s) / Pow2(n - m)
  {
    hide *;
    TopSplit(s, p, m);
    TopSplit(s, p, n);
    TopShorter(s, p + m, p + n);
    Pow2Add(m, n - m);
    var k := Pow2(n - m);
    assert Pow2(n) == Pow2(m) * k && m + (n - m) == n;
    FewerDigits(Top(s, p), Pow2(m), k, Pow2(n), Extract(p, m, s), Extract(p, n, s), Top(s, p + m), Top(s, p + n));
  }

  lemma FewerDigits(t: nat, d: nat, k: nat, dk: nat, few: nat, all: nat, short: nat, long: nat)
    requires k > 0 && dk == d * k && short == long / k
    requires short == t * d + few && long == t * dk + all
    ensures few == all / k
  {
    LeadingDigits(t, d, k, all);
  }

  lemma LeadingDigits(t: nat, d: nat, k: nat, e: nat)
    requires k > 0
    ensures (t * (d * k) + e) / k == t * d + e / k
  {
    MulAssoc(t, d, k);
    AddMultiple(t * d, e, k);
  }

  lemma AddMultiple(a: nat, e: nat, k: nat)
    requires k > 0
    ensures (a * k + e) / k == a + e / k
  {
    MulDist(a, e / k, k);
    DivUnique(a * k + e, k, a + e / k, e % k);
  }

  /** EXTRACT(32-branch, m, c): the first m bits of c read as a string of `branch` bits. */
  lemma ExtractPattern(branch: nat, m: nat, c: Word)
    requires branch <= 32 && m <= 32 && c < Pow2(branch)
    ensures m <= branch ==> Extract(32 - branch, m, c) == c / Pow2(branch - m)
    ensures branch <= m ==> Extract(32 - branch, m, c) == c * Pow2(m - branch)
  {
    hide Pow2, Shl, Shr;
    var p := 32 - branch;
    Pow2At32();
    Pow2Add(branch, p);
    ShlSmall(c, Pow2(branch), Pow2(p));
    ShlIs(c, p);
    ShrIs(Shl(c, p), 32 - m);
    if m <= branch {
      Pow2Add(branch - m, p);
      DivCancel(c, Pow2(branch - m), Pow2(p));
    }
    if branch <= m {
      Pow2Add(m - branch, 32 - m);
      ExactQuotient(c, Pow2(m - branch), Pow2(32 - m));
    }
  }

  lemma ShlSmall(c: nat, d: nat, k: nat)
    requires c < d && d * k == WORD
    ensures (c * k) % WORD == c * k
  {
    DigitsBelow(c, d, 0, if k == 0 then 1 else k);
  }

  lemma ExactQuotient(c: nat, d: nat, k: nat)
    requires k > 0
    ensures (c * (d * k)) / k == c * d
  {
    MulAssoc(c, d, k);
    DivUnique(c * (d * k), k, c * d, 0);
  }

  // ---- xor and or ----

  /** The high part of a ^ b is zero exactly when the high parts of a and b are equal. */
  lemma {:induction false} XorHigh(a: nat, b: nat, k: nat)
    ensures Shr(Xor(a, b), k) == 0 <==> Shr(a, k) == Shr(b, k)
  {
    if k == 0 {
      XorZero(a, b);
    } else {
      XorHigh(a / 2, b / 2, k - 1);
      assert Xor(a, b) / 2 == Xor(a / 2, b / 2);
    }
  }

  lemma {:induction false} XorZero(a: nat, b: nat)
    ensures Xor(a, b) == 0 <==> a == b
    decreases a + b
  {
    if a != 0 || b != 0 {
      XorZero(a / 2, b / 2);
    }
  }

  lemma {:induction false} XorBound(a: nat, b: nat, k: nat)
    requires a < Pow2(k) && b < Pow2(k)
    ensures Xor(a, b) < Pow2(k)
  {
    if k > 0 && (a != 0 || b != 0) {
      XorBound(a / 2, b / 2, k - 1);
    }
  }

  /** Fields that do not overlap are joined by `|` without loss. */
  lemma {:induction false} OrDisjoint(a: nat, b: nat, k: nat)
    requires b < Pow2(k)
    ensures Or(Double(a, k), b) == Double(a, k) + b
  {
    if k == 0 {
      OrZero(a);
    } else {
      OrDisjoint(a, b / 2, k - 1);
    }
  }

  lemma {:induction false} OrZero(a: nat)
    ensures Or(a, 0) == a
  {
    if a != 0 { OrZero(a / 2); }
  }
}
