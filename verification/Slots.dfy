/** The slots of one node under construction. */
module Slots {
  import opened Bits
  import opened Nets
  import opened Prefixes
  import opened Layout
  import opened Delivery
  import opened Branching

  /** Slot c of a node over [first, first+n) delivers through t. */
  ghost predicate SlotDelivers(rs: seq<Route>, base: seq<Base>, first: nat, n: nat, np: nat, b: nat, c: nat, t: Trie)
    requires first + n <= |base| && b <= 32
  {
    forall s: Word :: Extract(np, b, s) == c ==> DeliversFor(rs, base, first, n, s, Walk(t, np + b, s))
  }

  /** The range of a node: at least two bases, sharing the first np bits. */
  ghost predicate NodeRange(rs: seq<Route>, base: seq<Base>, first: nat, n: nat, np: nat, b: nat) {
    && first + n <= |base| && n >= 2 && 1 <= b < 32
    && BaseVector(rs, base) && SharePrefix(base, first, n, np)
  }

  /** Everything placed so far: slots below `upto` are served, bases below p are placed. */
  ghost predicate Divided(base: seq<Base>, first: nat, n: nat, np: nat, b: nat, p: nat, upto: nat)
    requires first + n <= |base| && b <= 32
  {
    && first <= p <= first + n
    && (forall x {:trigger Slot(base, np, b, x)} :: first <= x < p ==> Slot(base, np, b, x) + Span(base, np, b, x) <= upto)
    && (forall x {:trigger Slot(base, np, b, x)} :: p <= x < first + n ==> upto <= Slot(base, np, b, x))
  }

  lemma NodeLens(rs: seq<Route>, base: seq<Base>, first: nat, n: nat, np: nat, b: nat, x: nat)
    requires NodeRange(rs, base, first, n, np, b) && first <= x < first + n
    ensures np < base[x].len <= 32 && Canonical(base[x].AsNet()) && base[x].AsRoute() in rs
  {
    LongerThanPrefix(base, first, n, np, x);
    BaseCanonical(rs, base, x);
  }

  /** A group of bases with a subtrie of their own. */
  lemma GroupSlot(rs: seq<Route>, base: seq<Base>, first: nat, n: nat, np: nat, b: nat, p: nat, k: nat, c: nat, t: Trie)
    requires NodeRange(rs, base, first, n, np, b) && first <= p < p + k <= first + n
    requires forall x :: first <= x < first + n ==> (Slot(base, np, b, x) == c <==> p <= x < p + k)
    requires Delivers(rs, base, p, k, t, np + b)
    ensures SlotDelivers(rs, base, first, n, np, b, c, t)
  {
    hide Extract, Walk, Slot;
    forall s: Word | Extract(np, b, s) == c ensures DeliversFor(rs, base, first, n, s, Walk(t, np + b, s)) {
      var x := Walk(t, np + b, s);
      assert DeliversFor(rs, base, p, k, s, x);
      forall q | IsBest(rs, q, s) && Touches(base, first, n, q) ensures Covers(q, base[x].AsNet()) {
        if q.len <= np {
          ShortBest(base, first, n, np, q, x);
        } else {
          GroupTouched(base, first, n, np, b, p, k, q, s);
        }
      }
    }
  }

  /** A slot in the span of a short base. */
  lemma ShortSlot(rs: seq<Route>, base: seq<Base>, first: nat, n: nat, np: nat, b: nat, p: nat, c: nat)
    requires NodeRange(rs, base, first, n, np, b) && first <= p < first + n && base[p].len <= np + b
    requires Slot(base, np, b, p) <= c < Slot(base, np, b, p) + Span(base, np, b, p)
    ensures SlotDelivers(rs, base, first, n, np, b, c, Leaf(p))
  {
    hide Extract, Slot, Span;
    NodeLens(rs, base, first, n, np, b, p);
    forall s: Word | Extract(np, b, s) == c ensures DeliversFor(rs, base, first, n, s, p) {
      forall q | IsBest(rs, q, s) && Touches(base, first, n, q) ensures Covers(q, base[p].AsNet()) {
        if q.len <= np {
          ShortBest(base, first, n, np, q, p);
        } else {
          ShortFilled(rs, base, first, n, np, b, p, q, s);
        }
      }
    }
  }

  /** The neighbour an empty slot points to: p-1 if its longest hit is longer or p is missing. */
  function Neighbour(first: nat, n: nat, p: nat, match1: nat, match2: nat): nat
    requires first <= p <= first + n && n >= 1
  {
    if (match1 > match2 && p > first) || p == first + n then p - 1 else p
  }

  ghost predicate Matched(rs: seq<Route>, base: seq<Base>, first: nat, n: nat, np: nat, b: nat, p: nat, c: nat, match1: nat, match2: nat)
    requires first + n <= |base| && b <= 32 && c < WORD
  {
    && first <= p <= first + n
    && (p > first ==> LongestHit(rs, base, np, b, c, p - 1, match1))
    && (p == first ==> match1 == 0)
    && (p < first + n ==> LongestHit(rs, base, np, b, c, p, match2))
    && (p == first + n ==> match2 == 0)
  }

  lemma EmptySlotFor(rs: seq<Route>, base: seq<Base>, first: nat, n: nat, np: nat, b: nat, p: nat, c: nat,
                     match1: nat, match2: nat, q: Net, s: Word)
    requires NodeRange(rs, base, first, n, np, b) && c < Pow2(b) && c < WORD
    requires Divided(base, first, n, np, b, p, c) && (p < first + n ==> Slot(base, np, b, p) != c)
    requires Matched(rs, base, first, n, np, b, p, c, match1, match2)
    requires Extract(np, b, s) == c && IsBest(rs, q, s) && Touches(base, first, n, q) && q.len > np
    ensures Covers(q, base[Neighbour(first, n, p, match1, match2)].AsNet())
  {
    hide Extract, Slot, Span, LongestHit, IsBest, Touches, Covers, BaseVector, SharePrefix, PatternHit;
    assert Matches(q, s) by { BestMatches(rs, q, s); }
    NeighbourFound(rs, base, first, n, np, b, p, c, q, s);
    if p > first {
      SpanPositive(base, np, b, p - 1);
      LongBest(base, first, n, np, q, s, p - 1);
      NodeLens(rs, base, first, n, np, b, p - 1);
      assert Slot(base, np, b, p - 1) + Span(base, np, b, p - 1) <= c;
      if Covers(q, base[p - 1].AsNet()) { BestHits(rs, base, np, b, c, p - 1, match1, q, s); }
      if match1 != 0 { Hit(rs, base, np, b, c, p - 1, match1, q, s); }
    }
    if p < first + n {
      LongBest(base, first, n, np, q, s, p);
      NodeLens(rs, base, first, n, np, b, p);
      assert c < Slot(base, np, b, p);
      if Covers(q, base[p].AsNet()) { BestHits(rs, base, np, b, c, p, match2, q, s); }
      if match2 != 0 { Hit(rs, base, np, b, c, p, match2, q, s); }
    }
  }

  lemma Hit(rs: seq<Route>, base: seq<Base>, np: nat, b: nat, c: nat, x: nat, best: nat, q: Net, s: Word)
    requires b <= 32 && c < Pow2(b) && c < WORD && x < |base| && LongestHit(rs, base, np, b, c, x, best) && best != 0
    requires Agree(base[x].str, s, np) && Extract(np, b, s) == c && Slot(base, np, b, x) != c && BaseVector(rs, base)
    requires IsBest(rs, q, s)
    ensures best <= q.len
    ensures best == q.len ==> Covers(q, base[x].AsNet())
  {
    HitMatches(rs, base, np, b, c, x, best, q, s);
  }

  lemma BestMatches(rs: seq<Route>, q: Net, s: Word)
    requires IsBest(rs, q, s)
    ensures Matches(q, s)
  {}

  lemma SpanPositive(base: seq<Base>, np: nat, b: nat, x: nat)
    requires x < |base|
    ensures Span(base, np, b, x) >= 1
  {}

  lemma NeighbourFound(rs: seq<Route>, base: seq<Base>, first: nat, n: nat, np: nat, b: nat, p: nat, c: nat, q: Net, s: Word)
    requires NodeRange(rs, base, first, n, np, b)
    requires Divided(base, first, n, np, b, p, c) && (p < first + n ==> Slot(base, np, b, p) != c)
    requires Extract(np, b, s) == c && Matches(q, s) && Touches(base, first, n, q) && q.len > np
    ensures (p > first && Covers(q, base[p - 1].AsNet())) || (p < first + n && Covers(q, base[p].AsNet()))
  {
    hide Extract, Slot, Touches, Covers, Matches;
    forall x | first <= x < p ensures Slot(base, np, b, x) < c {
      SpanPositive(base, np, b, x);
    }
    forall x | p <= x < first + n ensures c < Slot(base, np, b, x) {
      SlotOrder(base, first, n, np, b, p, x);
    }
    NeighbourTouched(base, first, n, np, b, p, q, s);
  }

  lemma EmptySlot(rs: seq<Route>, base: seq<Base>, first: nat, n: nat, np: nat, b: nat, p: nat, c: nat, match1: nat, match2: nat)
    requires NodeRange(rs, base, first, n, np, b) && c < Pow2(b) && c < WORD
    requires Divided(base, first, n, np, b, p, c) && (p < first + n ==> Slot(base, np, b, p) != c)
    requires Matched(rs, base, first, n, np, b, p, c, match1, match2)
    ensures SlotDelivers(rs, base, first, n, np, b, c, Leaf(Neighbour(first, n, p, match1, match2)))
  {
    hide Extract, Slot, LongestHit, Covers, IsBest, Touches;
    var z := Neighbour(first, n, p, match1, match2);
    forall s: Word | Extract(np, b, s) == c ensures DeliversFor(rs, base, first, n, s, z) {
      forall q | IsBest(rs, q, s) && Touches(base, first, n, q) ensures Covers(q, base[z].AsNet()) {
        if q.len <= np {
          ShortBest(base, first, n, np, q, z);
        } else {
          EmptySlotFor(rs, base, first, n, np, b, p, c, match1, match2, q, s);
        }
      }
    }
  }

  // ---- moving on ----

  /** The bases of the next slot, if it is not empty. */
  ghost predicate Group(base: seq<Base>, first: nat, n: nat, np: nat, b: nat, p: nat, k: nat, c: nat)
    requires first + n <= |base| && b <= 32
  {
    && first <= p <= p + k <= first + n
    && (forall x :: p <= x < p + k ==> Slot(base, np, b, x) == c)
    && (p + k < first + n ==> Slot(base, np, b, p + k) != c)
  }

  /** The group is everything in slot c, and the split moves past it. */
  lemma GroupExact(rs: seq<Route>, base: seq<Base>, first: nat, n: nat, np: nat, b: nat, p: nat, k: nat, c: nat)
    requires NodeRange(rs, base, first, n, np, b) && Divided(base, first, n, np, b, p, c) && Group(base, first, n, np, b, p, k, c)
    ensures forall x :: first <= x < first + n ==> (Slot(base, np, b, x) == c <==> p <= x < p + k)
    ensures forall x :: p + k <= x < first + n ==> c < Slot(base, np, b, x)
  {
    hide Extract;
    forall x | first <= x < p ensures Slot(base, np, b, x) < c { SpanPositive(base, np, b, x); }
    forall x | p + k <= x < first + n ensures c < Slot(base, np, b, x) {
      SlotOrder(base, first, n, np, b, p + k, x);
    }
  }

  /** Bases that share a slot are not short, so the group's spans end with the slot. */
  lemma GroupSpans(rs: seq<Route>, base: seq<Base>, first: nat, n: nat, np: nat, b: nat, p: nat, k: nat, c: nat)
    requires NodeRange(rs, base, first, n, np, b) && Group(base, first, n, np, b, p, k, c)
    requires k == 1 ==> np + b <= base[p].len
    ensures forall x :: p <= x < p + k ==> Span(base, np, b, x) == 1
  {
    hide Extract;
    forall x | p <= x < p + k ensures Span(base, np, b, x) == 1 {
      if k > 1 && base[x].len < np + b {
        NodeLens(rs, base, first, n, np, b, x);
        if x < p + k - 1 {
          NodeLens(rs, base, first, n, np, b, x + 1);
          AfterSpan(base, first, n, np, b, x, x + 1);
        } else {
          GroupLast(rs, base, first, n, np, b, x - 1, x);
        }
      }
    }
  }

  lemma GroupLast(rs: seq<Route>, base: seq<Base>, first: nat, n: nat, np: nat, b: nat, x: nat, y: nat)
    requires NodeRange(rs, base, first, n, np, b) && first <= x < y < first + n
    requires Slot(base, np, b, x) == Slot(base, np, b, y)
    ensures np + b <= base[y].len
  {
    hide Extract;
    NodeLens(rs, base, first, n, np, b, x);
    NodeLens(rs, base, first, n, np, b, y);
    SlotOrder(base, first, n, np, b, x, y);
    if base[y].len < np + b {
      AgreeShorter(base[y].str, base[x].str, base[y].len, np + b);
      if base[x].len < base[y].len { AgreeShorter(base[x].str, base[y].str, base[x].len, np + b); }
    }
  }
}
