/** buildRoutingTable on entry sets whose trie is a leaf or a single node, whatever their host
    bits: what exactly ends up in the table, uint32 wrap-around included. */
module SmallTables {
  import opened Bits
  import opened Nets
  import opened Prefixes
  import opened Packing
  import opened Layout
  import opened Delivery
  import opened Branching
  import opened Builder
  import opened RoutingTable

  // ---- computeBranch at the root ----

  /** The loop that looks for the first bit in which a and z differ. */
  function CommonBits(a: Word, z: Word, i: nat): nat
    requires i <= 32
    decreases 32 - i
  {
    if i < 32 && Extract(i, 1, z) == Extract(i, 1, a) then CommonBits(a, z, i + 1) else i
  }

  lemma {:induction false} CommonBitsIs(a: Word, z: Word, i: nat)
    requires a < z && i <= 32 && Agree(a, z, i)
    ensures var d := CommonBits(a, z, i);
            i <= d < 32 && Agree(a, z, d) && !Agree(a, z, d + 1) && Extract(d, 1, a) == 0 && Extract(d, 1, z) == 1
    decreases 32 - i
  {
    hide Agree, Extract;
    if i == 32 {
      AgreeAll(a, z, 32);
    } else {
      AgreeExtract(a, z, i, 1);
      AgreeExtract(z, a, i, 1) by { AgreeBack(a, z, i); }
      PowerOne();
      if Extract(i, 1, z) == Extract(i, 1, a) { CommonBitsIs(a, z, i + 1); }
    }
  }

  lemma AgreeBack(a: Word, z: Word, i: nat)
    requires Agree(a, z, i)
    ensures Agree(z, a, i)
  {}

  lemma PowerOne()
    ensures Pow2(1) == 2
  {}

  /** Two bases branch on one bit, more at the root on ROOTBRANCH bits. */
  function BranchOf(n: nat): nat { if n == 2 then 1 else ROOTBRANCH }

  function SkipOf(base: seq<Base>): nat
    requires base != []
  {
    CommonBits(base[0].str, base[|base| - 1].str, 0)
  }

  // ---- the slot loop ----

  /** x - y on uint32 */
  function Sub32(x: nat, y: nat): nat { (x as int - y) % WORD }

  /** uint32(base.len) - newprefix < branch */
  predicate Short(len: nat, np: nat, b: nat) { Sub32(len, np) < b }

  /** 1 << (branch - uint32(base.len) + newprefix) */
  function SpanOf(len: nat, np: nat, b: nat): (r: nat)
    ensures r >= 1
  {
    Pow2((b as int - len + np) % WORD)
  }

  lemma SpanBounds(len: nat, np: nat, b: nat)
    requires len <= 32 && np <= 32 && b <= 16 && Short(len, np, b)
    ensures np <= len < np + b && SpanOf(len, np, b) == Pow2(b - (len - np)) && 2 <= SpanOf(len, np, b) <= Pow2(b)
  {
    hide Pow2;
    assert Sub32(len, np) == if len >= np then len - np else len - np + WORD;
    assert (b as int - len + np) % WORD == b - (len - np);
    Pow2Mono(b - (len - np), b);
    Pow2Mono(1, b - (len - np));
    PowerOne();
  }

  /** No two bases in one slot, and no links. */
  ghost predicate Flat(base: seq<Base>, np: nat, b: nat) {
    && base != [] && |base| < ADR_LIMIT && np < 32 && b <= 16
    && (forall x :: 0 <= x < |base| ==> base[x].pre == NOPRE && base[x].len <= 32)
    && (forall x, y {:trigger base[x], base[y]} :: 0 <= x < y < |base| ==> Slot(base, np, b, x) != Slot(base, np, b, y))
  }

  /** Which base slot c gets, when the loop stands at pattern pat and base p. */
  function Owner(base: seq<Base>, np: nat, b: nat, p: nat, pat: nat, c: nat): nat
    requires base != [] && p <= |base| && pat <= c && b <= 32
    decreases c - pat
  {
    if p < |base| && Slot(base, np, b, p) == pat then
      var span := if Short(base[p].len, np, b) then SpanOf(base[p].len, np, b) else 1;
      if c < pat + span then p else Owner(base, np, b, p + 1, pat + span, c)
    else if c == pat then if p == |base| then p - 1 else p
    else Owner(base, np, b, p, pat + 1, c)
  }

  lemma {:induction false} OwnerIsBase(base: seq<Base>, np: nat, b: nat, p: nat, pat: nat, c: nat)
    requires base != [] && p <= |base| && pat <= c && b <= 32
    ensures Owner(base, np, b, p, pat, c) < |base|
    decreases c - pat
  {
    hide Slot, Short, SpanOf;
    if p < |base| && Slot(base, np, b, p) == pat {
      var span := if Short(base[p].len, np, b) then SpanOf(base[p].len, np, b) else 1;
      if c >= pat + span { OwnerIsBase(base, np, b, p + 1, pat + span, c); }
    } else if c != pat {
      OwnerIsBase(base, np, b, p, pat + 1, c);
    }
  }

  /** The span of a short base, one leaf after another. */
  method FillLeaves(tree: array<Word>, at: nat, span: nat, p: nat)
    requires at + span <= tree.Length && p < WORD
    modifies tree
    ensures forall j :: 0 <= j < tree.Length ==> tree[j] == if at <= j < at + span then p else old(tree[j])
  {
    for i := 0 to span
      invariant forall j :: 0 <= j < tree.Length ==> tree[j] == if at <= j < at + i then p else old(tree[j])
    {
      tree[at + i] := p;
    }
  }

  lemma SlotsDiffer(base: seq<Base>, np: nat, b: nat, x: nat, y: nat)
    requires Flat(base, np, b) && x < y < |base|
    ensures Slot(base, np, b, x) != Slot(base, np, b, y)
  {}

  lemma FlatBase(base: seq<Base>, np: nat, b: nat, x: nat)
    requires Flat(base, np, b) && x < |base|
    ensures base[x].pre == NOPRE && base[x].len <= 32
  {}

  /** The base at hand is in the slot at hand: its span is its own. */
  lemma OwnerHit(base: seq<Base>, np: nat, b: nat, p: nat, pat: nat, span: nat, c: nat)
    requires p < |base| && pat <= c && b <= 32 && Slot(base, np, b, p) == pat
    requires span == if Short(base[p].len, np, b) then SpanOf(base[p].len, np, b) else 1
    ensures Owner(base, np, b, p, pat, c) == if c < pat + span then p else Owner(base, np, b, p + 1, pat + span, c)
  {}

  lemma OwnerMiss(base: seq<Base>, np: nat, b: nat, p: nat, pat: nat, c: nat)
    requires base != [] && p <= |base| && pat <= c && b <= 32 && (p < |base| ==> Slot(base, np, b, p) != pat)
    ensures Owner(base, np, b, p, pat, c) == if c == pat then if p == |base| then p - 1 else p else Owner(base, np, b, p, pat + 1, c)
  {}

  /** The slots before pat have their owners; from pat on the loop goes on with base p. */
  ghost predicate Filled(cells: seq<Word>, base: seq<Base>, np: nat, b: nat, p: nat, pat: nat) {
    && base != [] && p <= |base| && b <= 32 && |cells| >= 1 + Pow2(b)
    && (forall c :: 0 <= c < pat && c < Pow2(b) ==> cells[1 + c] == Owner(base, np, b, 0, 0, c))
    && (forall c {:trigger Owner(base, np, b, 0, 0, c)} :: pat <= c < Pow2(b) ==> Owner(base, np, b, 0, 0, c) == Owner(base, np, b, p, pat, c))
  }

  /** After the cells of `span` slots from pat on were set to x. */
  lemma FilledOn(cells: seq<Word>, cells': seq<Word>, base: seq<Base>, np: nat, b: nat, p: nat, pat: nat, x: nat, p': nat, span: nat)
    requires Filled(cells, base, np, b, p, pat) && |cells'| == |cells| && p' <= |base| && span >= 1
    requires forall j :: 0 <= j < |cells| ==> cells'[j] == if 1 + pat <= j < 1 + pat + span then x else cells[j]
    requires forall c {:trigger Owner(base, np, b, p, pat, c)} :: pat <= c < Pow2(b) ==>
               Owner(base, np, b, p, pat, c) == if c < pat + span then x else Owner(base, np, b, p', pat + span, c)
    ensures Filled(cells', base, np, b, p', pat + span)
  {
    hide Owner, Pow2;
  }

  method CountSlot(base: seq<Base>, np: nat, b: nat, p: nat, bitpat: nat) returns (k: nat)
    requires Flat(base, np, b) && p <= |base|
    ensures k <= 1 && (k == 1 <==> p < |base| && Slot(base, np, b, p) == bitpat)
  {
    hide Slot, Flat;
    FlatFits(base, np, b);
    k := 0;
    while p + k < |base| && Slot(base, np, b, p + k) == bitpat
      invariant p + k <= |base| && k <= 1
      invariant k == 1 ==> Slot(base, np, b, p) == bitpat && (p + 1 < |base| ==> Slot(base, np, b, p + 1) != bitpat)
      decreases |base| - k
    {
      if p + 1 < |base| { SlotsDiffer(base, np, b, p, p + 1); }
      k := k + 1;
    }
  }

  /** The slot loop of buildTrie over a flat base vector; every child is a leaf. */
  method FillSlots(base: seq<Base>, np: nat, b: nat, tree: array<Word>)
    requires Flat(base, np, b) && 1 + 2 * Pow2(b) <= tree.Length
    modifies tree
    ensures tree[0] == old(tree[0])
    ensures forall j :: 1 <= j < 1 + Pow2(b) ==> tree[j] == Owner(base, np, b, 0, 0, j - 1)
  {
    FlatFits(base, np, b);
    var p, bitpat := 0, 0;
    assert Filled(tree[..], base, np, b, p, bitpat);
    hide Slot, Pow2, Short, SpanOf, Flat, Filled, Owner;
    while bitpat < Pow2(b)
      invariant p <= |base| && bitpat <= 2 * Pow2(b) && tree[0] == old(tree[0])
      invariant Filled(tree[..], base, np, b, p, bitpat)
      decreases 2 * Pow2(b) - bitpat
    {
      ghost var before := tree[..];
      var k := CountSlot(base, np, b, p, bitpat);
      if k == 0 {
        // no chains, so no match on either side
        var x := if p == |base| then p - 1 else p;
        FillLeaves(tree, 1 + bitpat, 1, x);
        forall c {:trigger Owner(base, np, b, p, bitpat, c)} | bitpat <= c < Pow2(b)
          ensures Owner(base, np, b, p, bitpat, c) == if c < bitpat + 1 then x else Owner(base, np, b, p, bitpat + 1, c)
        {
          OwnerMiss(base, np, b, p, bitpat, c);
        }
        FilledOn(before, tree[..], base, np, b, p, bitpat, x, p, 1);
        bitpat := bitpat + 1;
      } else {
        var span := 1;
        FlatBase(base, np, b, p);
        if Short(base[p].len, np, b) {
          span := SpanOf(base[p].len, np, b);
          SpanBounds(base[p].len, np, b);
        }
        FillLeaves(tree, 1 + bitpat, span, p);
        forall c {:trigger Owner(base, np, b, p, bitpat, c)} | bitpat <= c < Pow2(b)
          ensures Owner(base, np, b, p, bitpat, c) == if c < bitpat + span then p else Owner(base, np, b, p + 1, bitpat + span, c)
        {
          OwnerHit(base, np, b, p, bitpat, span, c);
        }
        FilledOn(before, tree[..], base, np, b, p, bitpat, p, p + 1, span);
        bitpat := bitpat + span;
        p := p + 1;
      }
    }
    FilledEnd(tree[..], base, np, b, p, bitpat);
  }

  lemma FilledEnd(cells: seq<Word>, base: seq<Base>, np: nat, b: nat, p: nat, pat: nat)
    requires Filled(cells, base, np, b, p, pat) && pat >= Pow2(b)
    ensures b <= 32 && base != [] && |cells| >= 1 + Pow2(b)
    ensures forall j :: 1 <= j < 1 + Pow2(b) ==> cells[j] == Owner(base, np, b, 0, 0, j - 1)
  {
    forall j | 1 <= j < 1 + Pow2(b) ensures cells[j] == Owner(base, np, b, 0, 0, j - 1) { assert cells[1 + (j - 1)] == cells[j]; }
  }

  // ---- the table as a value ----

  ghost function OwnerCells(base: seq<Base>, np: nat, b: nat, n: nat): (r: seq<Word>)
    requires base != [] && |base| < ADR_LIMIT && b <= 32
    ensures |r| == n && forall c :: 0 <= c < n ==> r[c] == Owner(base, np, b, 0, 0, c) < |base|
  {
    if n == 0 then []
    else
      OwnerIsBase(base, np, b, 0, 0, n - 1);
      OwnerCells(base, np, b, n - 1) + [Owner(base, np, b, 0, 0, n - 1)]
  }

  ghost function OwnerLeaves(base: seq<Base>, np: nat, b: nat, n: nat): (r: seq<Trie>)
    requires base != [] && b <= 32
    ensures |r| == n && forall c :: 0 <= c < n ==> r[c] == Leaf(Owner(base, np, b, 0, 0, c))
  {
    if n == 0 then [] else OwnerLeaves(base, np, b, n - 1) + [Leaf(Owner(base, np, b, 0, 0, n - 1))]
  }

  /** One base, or a flat vector that a single node can hold. */
  ghost predicate Small(rs: seq<Route>) {
    && rs != []
    && var base := Parted(rs, |rs|).base;
       base != [] && (|base| == 1 || Flat(base, SkipOf(base), BranchOf(|base|)))
  }

  ghost function CellsOf(base: seq<Base>): seq<Word>
    requires base != [] && (|base| == 1 || Flat(base, SkipOf(base), BranchOf(|base|)))
  {
    if |base| == 1 then [0]
    else
      [Pack(BranchOf(|base|), SkipOf(base), 1)] + OwnerCells(base, SkipOf(base), BranchOf(|base|), Pow2(BranchOf(|base|)))
  }

  ghost function RootOf(base: seq<Base>): Trie
    requires base != []
  {
    if |base| == 1 then Leaf(0)
    else
      Node(BranchOf(|base|), SkipOf(base), OwnerLeaves(base, SkipOf(base), BranchOf(|base|), Pow2(BranchOf(|base|))))
  }

  ghost function TableOf(rs: seq<Route>): Table
    requires Small(rs)
  {
    var parts := Parted(rs, |rs|);
    Table(CellsOf(parts.base), parts.base, parts.pre)
  }

  /** The root of the table of rs. */
  ghost function Root(rs: seq<Route>): Trie
    requires Small(rs)
  {
    RootOf(Parted(rs, |rs|).base)
  }

  method CommonPrefixOf(a: Word, z: Word) returns (newprefix: nat)
    requires a < z
    ensures newprefix == CommonBits(a, z, 0)
  {
    hide Extract;
    AgreeNone(a, z);
    CommonBitsIs(a, z, 0);
    var i := 0;
    while Extract(i, 1, z) == Extract(i, 1, a)
      invariant i <= CommonBits(a, z, 0) < 32 && CommonBits(a, z, i) == CommonBits(a, z, 0)
      decreases 32 - i
    {
      i := i + 1;
    }
    newprefix := i;
  }

  /** buildTrie over a base vector that one node can hold. */
  method BuildNode(base: seq<Base>, tree: array<Word>) returns (nextfree: nat)
    requires base != [] && (|base| == 1 || (Flat(base, SkipOf(base), BranchOf(|base|)) && base[0].str < base[|base| - 1].str))
    requires tree.Length >= 200000
    modifies tree
    ensures nextfree <= tree.Length && tree[..nextfree] == CellsOf(base)
  {
    if |base| == 1 {
      tree[0] := 0;
      nextfree := 1;
      assert tree[..1] == [0];
    } else {
      nextfree := BuildRoot(base, tree);
    }
  }

  method BuildRoot(base: seq<Base>, tree: array<Word>) returns (nextfree: nat)
    requires |base| > 1 && Flat(base, SkipOf(base), BranchOf(|base|)) && base[0].str < base[|base| - 1].str
    requires tree.Length >= 200000
    modifies tree
    ensures nextfree <= tree.Length && tree[..nextfree] == CellsOf(base)
  {
    hide Pow2, Flat, Owner, CellsOf, Pack, CommonBits;
    var n := |base|;
    var newprefix := CommonPrefixOf(base[0].str, base[n - 1].str);
    var branch := if n == 2 then 1 else ROOTBRANCH;
    RootRoom(branch);
    FlatFits(base, newprefix, branch);
    tree[0] := Pack(branch, newprefix, 1);
    ghost var node := tree[0];
    nextfree := 1 + Pow2(branch);
    FillSlots(base, newprefix, branch, tree);
    CellsAre(base, newprefix, branch, tree[..nextfree]);
  }

  lemma CellsAre(base: seq<Base>, np: nat, b: nat, cells: seq<Word>)
    requires |base| > 1 && np == SkipOf(base) && b == BranchOf(|base|) && Flat(base, np, b)
    requires b < 32 && np < 32 && |cells| == 1 + Pow2(b) && cells[0] == Pack(b, np, 1)
    requires forall j :: 1 <= j < |cells| ==> cells[j] == Owner(base, np, b, 0, 0, j - 1)
    ensures cells == CellsOf(base)
  {
    FlatFits(base, np, b);
    assert CellsOf(base) == [Pack(b, np, 1)] + OwnerCells(base, np, b, Pow2(b));
    hide Pow2, Owner, Flat, OwnerCells, Pack, CellsOf, SkipOf, BranchOf;
    SameCells(cells, Pack(b, np, 1), OwnerCells(base, np, b, Pow2(b)));
  }

  lemma SameCells(cells: seq<Word>, head: Word, owners: seq<Word>)
    requires |cells| == 1 + |owners| && cells[0] == head
    requires forall j :: 1 <= j < |cells| ==> cells[j] == owners[j - 1]
    ensures cells == [head] + owners
  {}

  lemma FlatFits(base: seq<Base>, np: nat, b: nat)
    requires Flat(base, np, b)
    ensures base != [] && np < 32 && b <= 16 && |base| < ADR_LIMIT
  {}

  lemma RootRoom(b: nat)
    requires b == 1 || b == ROOTBRANCH
    ensures Pow2(b) <= 65536
  {
    assert Pow2(4) == 16;
    Pow2Add(4, 4);
    Pow2Add(8, 8);
  }

  /** Whatever remains of the routes after sorting and deduplication fits one node. */
  ghost predicate AlwaysSmall(all: seq<Route>) {
    forall rs :: Deduplicates(all, rs) ==> Small(rs) && Rising(rs)
  }

  lemma SmallKept(all: seq<Route>, kept: seq<Route>)
    requires AlwaysSmall(all) && Deduplicates(all, kept)
    ensures Small(kept) && Rising(kept)
  {}

  /** The whole build, when one node is enough. */
  method BuildSmallTable(entries: array<Entry>) returns (t: Table, ghost kept: seq<Route>)
    requires entries.Length > 0 && forall k :: 0 <= k < entries.Length ==> entries[k].len <= 32
    requires AlwaysSmall(Routes(entries[..]))
    modifies entries
    ensures Deduplicates(Routes(old(entries[..])), kept) && Small(kept) && t == TableOf(kept)
  {
    hide Deduplicates, Small, Rising, Parted, CellsOf, TableOf, Routes, AlwaysSmall, Flat, SkipOf, BranchOf, Regular, Split;
    ghost var all := Routes(entries[..]);
    var size, base, pre;
    ghost var table;
    size, base, pre, kept, table := Prepare(entries);
    SmallKept(all, kept);
    SmallMeans(kept);
    var tree := new Word[2 * size + 2000000];
    var nextfree := BuildNode(base, tree);
    t := Table(tree[..nextfree], base, pre);
    TableIs(kept, t);
  }

  lemma {:induction false} TableIs(rs: seq<Route>, t: Table)
    requires Small(rs) && t.base == Parted(rs, |rs|).base && t.pre == Parted(rs, |rs|).pre && t.trie == CellsOf(t.base)
    ensures t == TableOf(rs)
  {}

  /** The first and the last base differ. */
  ghost predicate Rising(rs: seq<Route>) {
    var base := Parted(rs, |rs|).base;
    |base| > 1 ==> base[0].str < base[|base| - 1].str
  }

  lemma SmallMeans(rs: seq<Route>)
    requires Small(rs) && Rising(rs)
    ensures var base := Parted(rs, |rs|).base;
            base != [] && (|base| == 1 || (Flat(base, SkipOf(base), BranchOf(|base|)) && base[0].str < base[|base| - 1].str))
  {}

  // ---- searching it ----

  lemma {:induction false} LeavesHaveNoCells(base: seq<Base>, np: nat, b: nat, n: nat, i: nat)
    requires base != [] && b <= 32 && i <= n
    ensures SumCells(OwnerLeaves(base, np, b, n)[..i]) == 0
    decreases n + i
  {
    hide Owner;
    var leaves := OwnerLeaves(base, np, b, n);
    if i > 0 {
      LeavesHaveNoCells(base, np, b, n, i - 1);
      assert leaves[..i] == leaves[..i - 1] + [leaves[i - 1]];
      SumCellsAppend(leaves[..i - 1], leaves[i - 1]);
    }
  }

  lemma LeafLaid(base: seq<Base>, c: nat)
    requires |base| > 1 && Flat(base, SkipOf(base), BranchOf(|base|)) && c < Pow2(BranchOf(|base|))
    ensures var np, b := SkipOf(base), BranchOf(|base|);
            var kids := OwnerLeaves(base, np, b, Pow2(b));
            Laid(CellsOf(base), 1 + c, KidBlock(1, Pow2(b), kids, c), kids[c])
  {
    var np, b := SkipOf(base), BranchOf(|base|);
    FlatFits(base, np, b);
    hide SumCells, Owner, Flat, Pow2, GetAdr, GetBranch, GetSkip, Laid, OwnerLeaves, OwnerCells;
    LeavesHaveNoCells(base, np, b, Pow2(b), c);
    var cells, owners := CellsOf(base), OwnerCells(base, np, b, Pow2(b));
    assert cells == [cells[0]] + owners;
    assert cells[1 + c] == owners[c];
    hide CellsOf;
    LaidLeaf(cells, 1 + c, 1 + Pow2(b), owners[c]);
  }

  /** The cells hold the node and its leaves. */
  lemma NodeLaid(base: seq<Base>)
    requires |base| > 1 && Flat(base, SkipOf(base), BranchOf(|base|))
    ensures Laid(CellsOf(base), 0, 1, RootOf(base))
  {
    var np, b := SkipOf(base), BranchOf(|base|);
    var m := Pow2(b);
    var kids, cells := OwnerLeaves(base, np, b, m), CellsOf(base);
    FlatFits(base, np, b);
    LeavesHaveNoCells(base, np, b, m, m);
    assert kids[..m] == kids;
    forall c | 0 <= c < m ensures Laid(cells, 1 + c, KidBlock(1, m, kids, c), kids[c]) { LeafLaid(base, c); }
    hide SumCells, Owner, Flat, Pow2, GetAdr, GetBranch, GetSkip, KidBlock, OwnerLeaves, OwnerCells;
    assert Cells(RootOf(base)) == m && |cells| == 1 + m;
  }

  lemma OneLaid()
    ensures Laid([0], 0, 1, Leaf(0))
  {
    LaidLeaf([0], 0, 1, 0);
  }

  /** s ends at the owner of its slot. */
  lemma NodeWalk(base: seq<Base>, s: Word)
    requires |base| > 1 && Flat(base, SkipOf(base), BranchOf(|base|))
    ensures Extract(SkipOf(base), BranchOf(|base|), s) < Pow2(BranchOf(|base|))
    ensures Walk(RootOf(base), 0, s) == Owner(base, SkipOf(base), BranchOf(|base|), 0, 0, Extract(SkipOf(base), BranchOf(|base|), s)) < |base|
  {
    var np, b := SkipOf(base), BranchOf(|base|);
    ExtractBound(np, b, s);
    hide Owner, Extract, Pow2;
    OwnerIsBase(base, np, b, 0, 0, Extract(np, b, s));
  }
}
