/** Why the search may skip bits: if some base in a node's range lies under the best
    match of s, the slot s falls into leads to a base under that best match. */
module Delivery {
  import opened Bits
  import opened Nets
  import opened Prefixes
  import opened Layout

  /** q is the longest of the networks of rs that match s. */
  ghost predicate IsBest(rs: seq<Route>, q: Net, s: Word) {
    && Matches(q, s)
    && (exists r :: r in rs && r.net == q)
    && (forall r :: r in rs && Matches(r.net, s) ==> r.net.len <= q.len)
  }

  ghost predicate Touches(base: seq<Base>, first: nat, n: nat, q: Net)
    requires first + n <= |base|
  {
    exists x :: first <= x < first + n && Covers(q, base[x].AsNet())
  }

  ghost predicate DeliversFor(rs: seq<Route>, base: seq<Base>, first: nat, n: nat, s: Word, x: nat)
    requires first + n <= |base|
  {
    && first <= x < first + n
    && forall q :: IsBest(rs, q, s) && Touches(base, first, n, q) ==> Covers(q, base[x].AsNet())
  }

  /** Every search that enters t with `pos` bits consumed ends in the range, at a base under
      the best match whenever the range has one. */
  ghost predicate Delivers(rs: seq<Route>, base: seq<Base>, first: nat, n: nat, t: Trie, pos: nat)
    requires first + n <= |base|
  {
    forall s: Word :: DeliversFor(rs, base, first, n, s, Walk(t, pos, s))
  }

  /** The base vector in the form the trie builder needs it. */
  ghost predicate BaseVector(rs: seq<Route>, base: seq<Base>) {
    && AllCanonical(rs)
    && SortedPrefixFree(base)
    && forall k :: 0 <= k < |base| ==> base[k].AsRoute() in rs && base[k].len <= 32
  }

  lemma BaseCanonical(rs: seq<Route>, base: seq<Base>, k: nat)
    requires BaseVector(rs, base) && k < |base|
    ensures Canonical(base[k].AsNet())
  {
    assert base[k].AsRoute() in rs;
  }

  /** All bases of the range agree on their first np bits. */
  ghost predicate SharePrefix(base: seq<Base>, first: nat, n: nat, np: nat)
    requires first + n <= |base|
  {
    forall x :: first <= x < first + n ==> Agree(base[first].str, base[x].str, np)
  }

  /** The slot of base x in a node that branches on b bits after np. */
  function Slot(base: seq<Base>, np: nat, b: nat, x: nat): nat
    requires x < |base| && b <= 32
  {
    Extract(np, b, base[x].str)
  }

  lemma SlotOrder(base: seq<Base>, first: nat, n: nat, np: nat, b: nat, x: nat, y: nat)
    requires first + n <= |base| && SortedPrefixFree(base) && SharePrefix(base, first, n, np) && b <= 32
    requires first <= x <= y < first + n
    ensures Slot(base, np, b, x) <= Slot(base, np, b, y) < Pow2(b)
    ensures Agree(base[x].str, base[y].str, np)
    ensures Slot(base, np, b, x) == Slot(base, np, b, y) <==> Agree(base[x].str, base[y].str, np + b)
  {
    assert Agree(base[first].str, base[x].str, np) && Agree(base[first].str, base[y].str, np);
    AgreeExtract(base[x].str, base[y].str, np, b);
    AgreeExtract(base[y].str, base[x].str, np, b);
  }

  /** In a range of two or more, no base ends within the shared prefix. */
  lemma LongerThanPrefix(base: seq<Base>, first: nat, n: nat, np: nat, x: nat)
    requires first + n <= |base| && n >= 2 && SortedPrefixFree(base) && SharePrefix(base, first, n, np)
    requires first <= x < first + n && forall k :: 0 <= k < |base| ==> base[k].len <= 32
    ensures base[x].len > np
  {
    var y := if x == first then first + 1 else first;
    assert Agree(base[first].str, base[x].str, np) && Agree(base[first].str, base[y].str, np);
    var a, b := base[x].AsNet(), base[y].AsNet();
    if a.len <= np {
      if a.len <= b.len {
        AgreeShorter(a.data, b.data, a.len, np);
        assert Covers(a, b);
      } else {
        AgreeShorter(b.data, a.data, b.len, np);
        assert Covers(b, a);
      }
    }
  }

  /** A best match within the shared prefix covers the whole range. */
  lemma ShortBest(base: seq<Base>, first: nat, n: nat, np: nat, q: Net, x: nat)
    requires first + n <= |base| && n >= 2 && SortedPrefixFree(base) && SharePrefix(base, first, n, np)
    requires forall k :: 0 <= k < |base| ==> base[k].len <= 32
    requires q.len <= np && Touches(base, first, n, q) && first <= x < first + n
    ensures Covers(q, base[x].AsNet())
  {
    var y :| first <= y < first + n && Covers(q, base[y].AsNet());
    assert Agree(base[first].str, base[x].str, np) && Agree(base[first].str, base[y].str, np);
    AgreeShorter(base[y].str, base[x].str, q.len, np);
    LongerThanPrefix(base, first, n, np, x);
  }

  /** A longer best match ties s to the shared prefix. */
  lemma LongBest(base: seq<Base>, first: nat, n: nat, np: nat, q: Net, s: Word, x: nat)
    requires first + n <= |base| && SharePrefix(base, first, n, np)
    requires q.len > np && Matches(q, s) && Touches(base, first, n, q) && first <= x < first + n
    ensures Agree(base[x].str, s, np)
  {
    var y :| first <= y < first + n && Covers(q, base[y].AsNet());
    assert Agree(base[first].str, base[x].str, np) && Agree(base[first].str, base[y].str, np);
    AgreeShorter(q.data, s, np, q.len);
    AgreeShorter(q.data, base[y].str, np, q.len);
  }

  /** Bases that cover one another are the same base. */
  lemma SameBase(base: seq<Base>, x: nat, y: nat)
    requires SortedPrefixFree(base) && x < |base| && y < |base| && Covers(base[x].AsNet(), base[y].AsNet())
    ensures x == y
  {}

  /** A non-empty slot: the bases [p, p+k) are exactly those of the range in s's slot. */
  lemma GroupTouched(base: seq<Base>, first: nat, n: nat, np: nat, b: nat, p: nat, k: nat, q: Net, s: Word)
    requires first + n <= |base| && SortedPrefixFree(base) && SharePrefix(base, first, n, np) && b <= 32
    requires forall x :: 0 <= x < |base| ==> base[x].len <= 32
    requires first <= p < p + k <= first + n
    requires forall x :: first <= x < first + n ==> (Slot(base, np, b, x) == Extract(np, b, s) <==> p <= x < p + k)
    requires q.len > np && Matches(q, s) && Touches(base, first, n, q)
    ensures Touches(base, p, k, q)
  {
    hide Lead, Extract;
    var y :| first <= y < first + n && Covers(q, base[y].AsNet());
    if np + b <= q.len {
      LongBest(base, first, n, np, q, s, y);
      AgreeShorter(q.data, s, np + b, q.len);
      AgreeShorter(q.data, base[y].str, np + b, q.len);
      AgreeExtract(base[y].str, s, np, b);
      assert Slot(base, np, b, y) == Extract(np, b, s);
    } else {
      LongBest(base, first, n, np, q, s, p);
      AgreeExtract(base[p].str, s, np, b);
      assert Slot(base, np, b, p) == Extract(np, b, s);
      AgreeShorter(base[p].str, s, q.len, np + b);
      if base[p].len < q.len {
        AgreeShorter(q.data, base[y].str, base[p].len, q.len);
        AgreeShorter(q.data, base[p].str, base[p].len, q.len);
      }
      assert Covers(q, base[p].AsNet());
    }
  }

  // ---- short bases ----

  /** How many slots base x takes: all that start with its bits. */
  function Span(base: seq<Base>, np: nat, b: nat, x: nat): nat
    requires x < |base|
  {
    if base[x].len < np + b then Pow2(np + b - base[x].len) else 1
  }

  lemma CanonicalTail(q: Net, m: nat)
    requires Canonical(q) && q.len <= m
    ensures Top(q.data, m) == Top(q.data, q.len) * Pow2(m - q.len)
  {
    var h := 32 - q.len;
    ShrIs(q.data, h);
    ShlIs(Shr(q.data, h), h);
    LeadIs(q.data, q.len);
    Pow2At32();
    Pow2Add(q.len, h);
    Pow2Add(q.len, m - q.len);
    TailDigits(q.data, Pow2(q.len), h, Pow2(h), Pow2(m - q.len));
  }

  lemma TailDigits(d: nat, k: nat, h: nat, j: nat, t: nat)
    requires k * j == WORD && j > 0 && d < WORD && ((d / j) * j) % WORD == d
    ensures (d * (k * t)) / WORD == (d / j) * t
  {
    hide *;
    var e := d / j;
    assert e * j <= d;
    DivUnique(e * j, WORD, 0, e * j);
    assert d == e * j;
    MulAssoc(e, j, k * t);
    MulAssoc(j, k, t);
    assert d * (k * t) == (e * t) * WORD by { Regroup(e, j, k, t); }
    DivUnique(d * (k * t), WORD, e * t, 0);
  }

  lemma Regroup(e: nat, j: nat, k: nat, t: nat)
    ensures (e * j) * (k * t) == (e * t) * (k * j)
  {
    MulAssoc(e, j, k * t);
    MulAssoc(j, k, t);
    MulAssoc(e, t, k * j);
    assert j * (k * t) == t * (k * j);
  }

  /** A short base starts its span at a multiple of the span. */
  lemma SpanStart(base: seq<Base>, np: nat, b: nat, x: nat)
    requires x < |base| && b <= 32 && Canonical(base[x].AsNet()) && np < base[x].len
    ensures Slot(base, np, b, x) % Span(base, np, b, x) == 0
    ensures Slot(base, np, b, x) + Span(base, np, b, x) <= Pow2(b)
  {
    hide Top, Extract, Pow2, Canonical;
    var q := base[x].AsNet();
    TopSplit(q.data, np, b);
    if q.len < np + b {
      var l := q.len - np;
      CanonicalTail(q, np + b);
      TopSplit(q.data, np, l);
      Pow2Add(l, b - l);
      SpanDigits(Top(q.data, np), Pow2(l), Extract(np, l, q.data), Pow2(b - l), Slot(base, np, b, x));
    }
  }

  lemma SpanDigits(t: nat, k: nat, e: nat, w: nat, slot: nat)
    requires w > 0 && e < k && (t * k + e) * w == t * (k * w) + slot
    ensures slot % w == 0 && slot + w <= k * w
  {
    hide *;
    Digits(t, e, k, 0, w);
    assert slot == e * w;
    DivUnique(slot, w, e, 0);
    MulMono(e + 1, k, w);
    MulDist(e, 1, w);
  }

  lemma SameBlock(a: nat, c: nat, w: nat)
    requires w > 0 && a % w == 0
    ensures a <= c < a + w <==> c / w == a / w
  {
    hide *;
    var q := a / w;
    assert a == q * w;
    if a <= c < a + w { DivUnique(c, w, q, c - a); }
    if c / w == q { assert c == q * w + c % w; }
  }

  /** s starts with base x exactly when its slot is in the span of x. */
  lemma InSpan(base: seq<Base>, np: nat, b: nat, x: nat, s: Word)
    requires x < |base| && b <= 32 && Canonical(base[x].AsNet()) && np < base[x].len <= np + b && Agree(base[x].str, s, np)
    ensures Slot(base, np, b, x) <= Extract(np, b, s) < Slot(base, np, b, x) + Span(base, np, b, x)
            <==> Agree(base[x].str, s, base[x].len)
  {
    var l := base[x].len - np;
    var w := Pow2(b - l);
    assert Span(base, np, b, x) == w;
    SpanStart(base, np, b, x);
    SameBlock(Slot(base, np, b, x), Extract(np, b, s), w);
    ExtractFewer(np, l, b, s);
    ExtractFewer(np, l, b, base[x].str);
    AgreeExtract(base[x].str, s, np, l);
  }

  /** The bases after p lie beyond the span of p. */
  lemma AfterSpan(base: seq<Base>, first: nat, n: nat, np: nat, b: nat, p: nat, y: nat)
    requires first + n <= |base| && SortedPrefixFree(base) && SharePrefix(base, first, n, np) && b <= 32
    requires first <= p < y < first + n && Canonical(base[p].AsNet()) && np < base[p].len <= np + b && base[y].len <= 32
    ensures Slot(base, np, b, p) + Span(base, np, b, p) <= Slot(base, np, b, y)
  {
    SlotOrder(base, first, n, np, b, p, y);
    InSpan(base, np, b, p, base[y].str);
    if Agree(base[p].str, base[y].str, base[p].len) {
      if base[p].len <= base[y].len {
        assert Covers(base[p].AsNet(), base[y].AsNet());
      } else {
        AgreeShorter(base[y].str, base[p].str, base[y].len, base[p].len);
      }
    }
  }

  /** A slot filled by a short base: s starts with that base, so no best match is below it. */
  lemma ShortFilled(rs: seq<Route>, base: seq<Base>, first: nat, n: nat, np: nat, b: nat, p: nat, q: Net, s: Word)
    requires first + n <= |base| && BaseVector(rs, base) && SharePrefix(base, first, n, np) && b <= 32
    requires first <= p < first + n && np < base[p].len <= np + b
    requires Slot(base, np, b, p) <= Extract(np, b, s) < Slot(base, np, b, p) + Span(base, np, b, p)
    requires q.len > np && IsBest(rs, q, s) && Touches(base, first, n, q)
    ensures Covers(q, base[p].AsNet())
  {
    var u := base[p].AsNet();
    LongBest(base, first, n, np, q, s, p);
    assert base[p].AsRoute() in rs;
    BaseCanonical(rs, base, p);
    InSpan(base, np, b, p, s);
    MatchesNested(u, q, s);
    var y :| first <= y < first + n && Covers(q, base[y].AsNet());
    CoversTrans(u, q, base[y].AsNet());
    SameBase(base, p, y);
  }

  // ---- empty slots ----

  /** The builder's test on a prefix of length l of a base whose slot is not c. */
  predicate PatternHit(str: Word, np: nat, b: nat, c: nat, l: nat)
    requires b <= 32 && c < WORD
  {
    np < l <= 32 && Extract(np, l - np, str) == Extract(32 - b, l - np, c)
  }

  /** The test says whether the first l bits of str start s, for every s in slot c. */
  lemma PatternAgrees(str: Word, np: nat, b: nat, c: nat, l: nat, s: Word)
    requires b <= 32 && c < Pow2(b) && c < WORD && np < l <= 32
    requires Agree(str, s, np) && Extract(np, b, s) == c && Extract(np, b, str) != c
    ensures PatternHit(str, np, b, c, l) <==> Agree(str, s, l)
  {
    hide Extract, Agree, Pow2;
    var m := l - np;
    ExtractPattern(b, m, c);
    AgreeExtract(str, s, np, m);
    AgreeExtract(str, s, np, b);
    if m <= b {
      ExtractFewer(np, m, b, s);
    } else {
      if PatternHit(str, np, b, c, l) {
        ExtractFewer(np, b, m, str);
        DivUnique(c * Pow2(m - b), Pow2(m - b), c, 0);
      }
      if Agree(str, s, l) { AgreeShorter(str, s, np + b, l); }
    }
  }

  /** `best` is the length of the longest proper cover of base x passing the test, 0 if none does. */
  ghost predicate LongestHit(rs: seq<Route>, base: seq<Base>, np: nat, b: nat, c: nat, x: nat, best: nat)
    requires b <= 32 && c < WORD && x < |base|
  {
    && (best != 0 ==> PatternHit(base[x].str, np, b, c, best) &&
                      exists r :: r in rs && ProperlyCovers(r.net, base[x].AsNet()) && r.net.len == best)
    && (forall r :: r in rs && ProperlyCovers(r.net, base[x].AsNet()) && PatternHit(base[x].str, np, b, c, r.net.len) ==>
          r.net.len <= best)
  }

  /** A hit at x is a route that matches s, so it is no longer than the best match. */
  lemma HitMatches(rs: seq<Route>, base: seq<Base>, np: nat, b: nat, c: nat, x: nat, best: nat, q: Net, s: Word)
    requires b <= 32 && c < Pow2(b) && c < WORD && x < |base| && LongestHit(rs, base, np, b, c, x, best) && best != 0
    requires Agree(base[x].str, s, np) && Extract(np, b, s) == c && Slot(base, np, b, x) != c && AllCanonical(rs)
    requires IsBest(rs, q, s)
    ensures best <= q.len
    ensures best == q.len ==> Covers(q, base[x].AsNet())
  {
    var r :| r in rs && ProperlyCovers(r.net, base[x].AsNet()) && r.net.len == best;
    PatternAgrees(base[x].str, np, b, c, best, s);
    assert Matches(r.net, s);
    if best == q.len {
      var r' :| r' in rs && r'.net == q;
      MatchesNested(r.net, q, s);
      assert Canonical(r.net) && Canonical(r'.net);
      CanonicalSame(r.net, q);
    }
  }

  /** A best match over x, if s is in an empty slot, passes the test at x. */
  lemma BestHits(rs: seq<Route>, base: seq<Base>, np: nat, b: nat, c: nat, x: nat, best: nat, q: Net, s: Word)
    requires b <= 32 && c < Pow2(b) && c < WORD && x < |base| && LongestHit(rs, base, np, b, c, x, best)
    requires BaseVector(rs, base) && base[x].len > np
    requires Agree(base[x].str, s, np) && Extract(np, b, s) == c
    requires c < Slot(base, np, b, x) || Slot(base, np, b, x) + Span(base, np, b, x) <= c
    requires IsBest(rs, q, s) && q.len > np && Covers(q, base[x].AsNet())
    ensures q.len <= best
  {
    assert Span(base, np, b, x) >= 1;
    PatternAgrees(base[x].str, np, b, c, q.len, s);
    assert Agree(base[x].str, s, q.len);
    if q == base[x].AsNet() {
      BaseCanonical(rs, base, x);
      if q.len <= np + b {
        InSpan(base, np, b, x, s);
      } else {
        AgreeShorter(base[x].str, s, np + b, q.len);
        AgreeExtract(base[x].str, s, np, b);
      }
    }
    var r :| r in rs && r.net == q;
    assert ProperlyCovers(r.net, base[x].AsNet());
  }

  /** An empty slot between base p-1 and base p: either neighbour may be missing, but a base
      under the best match is next to the slot. */
  lemma NeighbourTouched(base: seq<Base>, first: nat, n: nat, np: nat, b: nat, p: nat, q: Net, s: Word)
    requires first + n <= |base| && SortedPrefixFree(base) && SharePrefix(base, first, n, np) && b <= 32
    requires first <= p <= first + n && forall x :: 0 <= x < |base| ==> base[x].len <= 32
    requires forall x :: first <= x < p ==> Slot(base, np, b, x) < Extract(np, b, s)
    requires forall x :: p <= x < first + n ==> Extract(np, b, s) < Slot(base, np, b, x)
    requires q.len > np && Matches(q, s) && Touches(base, first, n, q)
    ensures (p > first && Covers(q, base[p - 1].AsNet())) || (p < first + n && Covers(q, base[p].AsNet()))
  {
    hide Extract, Lead, Top;
    var y :| first <= y < first + n && Covers(q, base[y].AsNet());
    LongBest(base, first, n, np, q, s, y);
    AgreeExtract(s, base[y].str, np, b);
    AgreeExtract(base[y].str, s, np, b);
    var z := if y < p then p - 1 else p;
    LongBest(base, first, n, np, q, s, z);
    AgreeExtract(s, base[z].str, np, b);
    AgreeExtract(base[z].str, s, np, b);
    if y < p {
      assert Slot(base, np, b, y) < Extract(np, b, s) && Slot(base, np, b, z) < Extract(np, b, s);
      assert base[y].str <= base[z].str;
      AgreeBetween(base[y].str, base[z].str, s, q.len);
    } else {
      assert Extract(np, b, s) < Slot(base, np, b, y) && Extract(np, b, s) < Slot(base, np, b, z);
      assert base[z].str <= base[y].str;
      AgreeBetween(s, base[z].str, base[y].str, q.len);
    }
    if base[z].len < q.len {
      AgreeShorter(base[y].str, base[z].str, base[z].len, q.len);
      SameBase(base, z, y);
    }
  }
}
