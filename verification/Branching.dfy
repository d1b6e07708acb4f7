/** computeBranch: how many bits a node skips and how many it branches on. */
module Branching {
  import opened Bits
  import opened Nets
  import opened Prefixes
  import opened Delivery

  const ROOTBRANCH: nat := 16
  const ADRSIZE: nat := 32

  /** The number of different slots taken by the first m bases of the range. */
  function Distinct(base: seq<Base>, np: nat, b: nat, first: nat, m: nat): nat
    requires first + m <= |base| && b <= 32
  {
    if m == 0 then 0
    else if m == 1 then 1
    else Distinct(base, np, b, first, m - 1) +
         if Slot(base, np, b, first + m - 1) == Slot(base, np, b, first + m - 2) then 0 else 1
  }

  /** One more group of k bases in a slot of their own. */
  lemma {:induction false} DistinctGroup(base: seq<Base>, np: nat, b: nat, first: nat, m: nat, k: nat)
    requires first + m + k <= |base| && b <= 32 && k >= 1
    requires forall x :: first + m <= x < first + m + k ==> Slot(base, np, b, x) == Slot(base, np, b, first + m)
    requires m > 0 ==> Slot(base, np, b, first + m - 1) != Slot(base, np, b, first + m)
    ensures Distinct(base, np, b, first, m + k) == Distinct(base, np, b, first, m) + 1
    decreases k
  {
    if k > 1 {
      DistinctGroup(base, np, b, first, m, k - 1);
      assert Slot(base, np, b, first + (m + k) - 1) == Slot(base, np, b, first + (m + k) - 2);
    }
  }

  /** A base adds at most one slot. */
  lemma {:induction false} DistinctGap(base: seq<Base>, np: nat, b: nat, first: nat, m: nat, n: nat)
    requires m <= n && first + n <= |base| && b <= 32
    ensures Distinct(base, np, b, first, m) <= Distinct(base, np, b, first, n)
    ensures Distinct(base, np, b, first, n) - Distinct(base, np, b, first, m) <= n - m
    decreases n - m
  {
    if m < n { DistinctGap(base, np, b, first, m, n - 1); }
  }

  lemma {:induction false} DistinctTwo(base: seq<Base>, np: nat, b: nat, first: nat, n: nat)
    requires n >= 1 && first + n <= |base| && b <= 32
    ensures Distinct(base, np, b, first, n) >= 1
    ensures Slot(base, np, b, first) != Slot(base, np, b, first + n - 1) ==> Distinct(base, np, b, first, n) >= 2
    decreases n
  {
    if n > 1 { DistinctTwo(base, np, b, first, n - 1); }
  }

  /** REMOVE(p, str) */
  function Remove(p: nat, s: Word): Word {
    Shr(Shl(s, p), p)
  }

  lemma {:induction false} ShlTwice(x: Word, p: nat, k: nat)
    ensures Shl(Shl(x, p), k) == Shl(x, p + k)
  {
    if k > 0 { ShlTwice(x, p, k - 1); }
  }

  lemma ShlMultiple(x: Word, p: nat)
    requires p <= 32
    ensures Shl(x, p) == (Shl(x, p) / Pow2(p)) * Pow2(p)
  {
    hide *;
    ShlIs(x, p);
    Pow2At32();
    Pow2Add(32 - p, p);
    RemainderMultiple(x, Pow2(p), Pow2(32 - p));
  }

  lemma RemainderMultiple(x: nat, k: nat, h: nat)
    requires k > 0 && h > 0 && h * k == WORD
    ensures (x * k) % WORD == (((x * k) % WORD) / k) * k
  {
    hide *;
    var q := x / h;
    var r := x % h;
    Digits(q, r, h, 0, k);
    DigitsBelow(r, h, 0, k);
    DivUnique(x * k, WORD, q, r * k);
    DivUnique(r * k, k, r, 0);
  }

  /** Removing the first p bits does not change a later bit. */
  lemma RemoveKeepsBit(p: nat, i: nat, s: Word)
    requires p <= i && p <= 32
    ensures Extract(i, 1, Remove(p, s)) == Extract(i, 1, s)
  {
    hide Shl, Shr, Pow2;
    var y := Shl(s, p);
    var z := Remove(p, s);
    ShrIs(y, p);
    ShlMultiple(s, p);
    ShlIs(z, p);
    assert Shl(z, p) == y;
    ShlTwice(z, p, i - p);
    ShlTwice(s, p, i - p);
  }

  /** What computeBranch promises: the range shares exactly newprefix bits; a node below the
      root has at least half of its slots taken. */
  ghost predicate BranchOk(base: seq<Base>, prefix: nat, first: nat, n: nat, branch: nat, newprefix: nat) {
    && first + n <= |base| && n >= 2
    && prefix <= newprefix < 32 && newprefix - prefix < 32
    && SharePrefix(base, first, n, newprefix)
    && !Agree(base[first].str, base[first + n - 1].str, newprefix + 1)
    && 1 <= branch < 32
    && (if n > 2 && prefix == 0 && first == 0 then branch == ROOTBRANCH
        else newprefix + branch <= ADRSIZE && Pow2(branch) <= 2 * Distinct(base, newprefix, branch, first, n))
  }

  /** The ends of the range fall into different slots, whatever the branching factor. */
  lemma EndsDiffer(base: seq<Base>, first: nat, n: nat, np: nat, b: nat)
    requires first + n <= |base| && n >= 2 && SortedPrefixFree(base) && 1 <= b <= 32
    requires SharePrefix(base, first, n, np) && !Agree(base[first].str, base[first + n - 1].str, np + 1)
    ensures Slot(base, np, b, first) != Slot(base, np, b, first + n - 1)
    ensures Distinct(base, np, b, first, n) >= 2
  {
    hide Lead, Extract, Distinct;
    SlotOrder(base, first, n, np, b, first, first + n - 1);
    if Agree(base[first].str, base[first + n - 1].str, np + b) {
      AgreeShorter(base[first].str, base[first + n - 1].str, np + 1, np + b);
    }
    DistinctTwo(base, np, b, first, n);
  }

  method CommonPrefix(base: seq<Base>, prefix: nat, first: nat, n: nat) returns (newprefix: nat)
    requires first + n <= |base| && n >= 2 && SortedPrefixFree(base) && SharePrefix(base, first, n, prefix) && prefix <= 32
    ensures prefix <= newprefix < 32
    ensures SharePrefix(base, first, n, newprefix)
    ensures !Agree(base[first].str, base[first + n - 1].str, newprefix + 1)
  {
    hide Extract, Lead, Remove;
    var a, z := base[first].str, base[first + n - 1].str;
    var high := Remove(prefix, a);
    var low := Remove(prefix, z);
    assert a < z && Agree(a, z, prefix);
    var i := prefix;
    if i >= 32 { AgreeAll(a, z, i); }
    RemoveKeepsBit(prefix, i, a);
    RemoveKeepsBit(prefix, i, z);
    AgreeExtract(a, z, i, 1);
    while Extract(i, 1, low) == Extract(i, 1, high)
      invariant prefix <= i < 32 && Agree(a, z, i)
      invariant Extract(i, 1, low) == Extract(i, 1, high) <==> Agree(a, z, i + 1)
      decreases 32 - i
    {
      i := i + 1;
      if i >= 32 { AgreeAll(a, z, i); }
      RemoveKeepsBit(prefix, i, a);
      RemoveKeepsBit(prefix, i, z);
      AgreeExtract(a, z, i, 1);
    }
    newprefix := i;
    forall x | first <= x < first + n ensures Agree(a, base[x].str, newprefix) {
      assert a <= base[x].str <= z;
      AgreeBetween(a, base[x].str, z, newprefix);
    }
  }

  /** No base lies beyond the last pattern. */
  lemma AllCounted(base: seq<Base>, np: nat, b: nat, first: nat, n: nat, i: nat)
    requires first + n <= |base| && SortedPrefixFree(base) && SharePrefix(base, first, n, np) && b <= 32
    requires first <= i <= first + n
    requires forall x :: i <= x < first + n ==> Pow2(b) <= Slot(base, np, b, x)
    ensures i == first + n
  {
    if i < first + n { SlotOrder(base, first, n, np, b, i, i); }
  }

  /** The counting loop: one pass over the patterns, one over the bases. */
  method CountPatterns(base: seq<Base>, newprefix: nat, b: nat, first: nat, n: nat) returns (count: nat)
    requires first + n <= |base| && SortedPrefixFree(base) && SharePrefix(base, first, n, newprefix) && b <= 32
    ensures count == Distinct(base, newprefix, b, first, n)
  {
    hide Slot, SortedPrefixFree, SharePrefix;
    var i, pat := first, 0;
    count := 0;
    forall x, y | first <= x <= y < first + n
      ensures Slot(base, newprefix, b, x) <= Slot(base, newprefix, b, y) < Pow2(b)
    {
      SlotOrder(base, first, n, newprefix, b, x, y);
    }
    while pat < Pow2(b)
      invariant first <= i <= first + n && pat <= Pow2(b)
      invariant forall x :: first <= x < i ==> Slot(base, newprefix, b, x) < pat
      invariant forall x :: i <= x < first + n ==> pat <= Slot(base, newprefix, b, x)
      invariant count == Distinct(base, newprefix, b, first, i - first)
    {
      var patfound := false;
      ghost var from := i;
      while i < first + n && pat == Slot(base, newprefix, b, i)
        invariant from <= i <= first + n
        invariant patfound <==> from < i
        invariant forall x :: from <= x < i ==> Slot(base, newprefix, b, x) == pat
      {
        i := i + 1;
        patfound := true;
      }
      if patfound {
        assert Slot(base, newprefix, b, from) == pat;
        DistinctGroup(base, newprefix, b, first, from - first, i - from);
        count := count + 1;
      }
      forall x | i <= x < first + n ensures pat + 1 <= Slot(base, newprefix, b, x) {
        assert Slot(base, newprefix, b, i) <= Slot(base, newprefix, b, x);
      }
      pat := pat + 1;
    }
    AllCounted(base, newprefix, b, first, n, i);
  }

  /** FILLFACT is one half: `float64(x) >= FILLFACT * float64(1 << b)`, exact in both types. */
  predicate Fills(x: nat, b: nat) {
    2 * x >= Shl(1, b)
  }

  lemma {:induction false} ShlOne(b: nat)
    requires b < 32
    ensures Shl(1, b) == Pow2(b)
  {
    ShlIs(1, b);
    Pow2Mono(b, 31);
    Pow2At32();
    Pow2Add(31, 1);
  }

  method ComputeBranch(base: seq<Base>, prefix: nat, first: nat, n: nat) returns (branch: nat, newprefix: nat)
    requires first + n <= |base| && n >= 2 && SortedPrefixFree(base) && SharePrefix(base, first, n, prefix) && prefix <= 32
    requires prefix == 0 ==> first == 0
    ensures BranchOk(base, prefix, first, n, branch, newprefix)
  {
    hide SharePrefix, SortedPrefixFree, Agree, Shl;
    newprefix := CommonPrefix(base, prefix, first, n);
    if n == 2 {
      branch := 1;
      EndsDiffer(base, first, n, newprefix, 1);
      return;
    }
    if ROOTBRANCH > 0 && prefix == 0 && first == 0 {
      branch := ROOTBRANCH;
      return;
    }
    var b, count := 1, 0;
    EndsDiffer(base, first, n, newprefix, 1);
    while b == 1 || Fills(count, b)
      invariant 1 <= b && newprefix + b <= ADRSIZE && newprefix >= prefix > 0
      invariant b > 1 ==> count == Distinct(base, newprefix, b, first, n)
      invariant b > 1 ==> Pow2(b - 1) <= 2 * Distinct(base, newprefix, b - 1, first, n)
      decreases 32 - b
    {
      ShlOne(b);
      assert Pow2(b) <= 2 * Distinct(base, newprefix, b, first, n);
      b := b + 1;
      if !Fills(n, b) || newprefix + b > ADRSIZE {
        break;
      }
      count := CountPatterns(base, newprefix, b, first, n);
    }
    branch := b - 1;
  }
}
