/** The level-compressed trie as a value, and how it lies in the array of packed nodes. */
module Layout {
  import opened Bits
  import opened Packing

  /** A leaf names a base; an inner node skips bits and then branches on `branch` bits. */
  datatype Trie = Leaf(base: nat) | Node(branch: nat, skip: nat, kids: seq<Trie>)

  /** Cells used below a node's own cell: a block for the children, then their blocks in order. */
  function Cells(t: Trie): nat
    decreases t, 0
  {
    match t
    case Leaf(_) => 0
    case Node(_, _, kids) => |kids| + SumCells(kids)
  }

  function SumCells(kids: seq<Trie>): nat
    decreases kids, 1
  {
    if kids == [] then 0 else SumCells(kids[..|kids| - 1]) + Cells(kids[|kids| - 1])
  }

  lemma SumCellsAppend(kids: seq<Trie>, t: Trie)
    ensures SumCells(kids + [t]) == SumCells(kids) + Cells(t)
  {
    assert (kids + [t])[..|kids|] == kids;
  }

  lemma {:induction false} SumCellsRepeat(kids: seq<Trie>, t: Trie, n: nat)
    requires t.Leaf?
    ensures SumCells(kids + Copies(t, n)) == SumCells(kids)
  {
    if n == 0 {
      assert kids + [] == kids;
    } else {
      hide SumCells;
      SumCellsRepeat(kids, t, n - 1);
      SumCellsAppend(kids + Copies(t, n - 1), t);
      assert kids + Copies(t, n) == (kids + Copies(t, n - 1)) + [t];
    }
  }

  function Copies(t: Trie, n: nat): (r: seq<Trie>)
    ensures |r| == n && forall i :: 0 <= i < n ==> r[i] == t
  {
    if n == 0 then [] else Copies(t, n - 1) + [t]
  }

  lemma {:induction false} SumCellsUpto(kids: seq<Trie>, i: nat)
    requires i < |kids|
    ensures SumCells(kids[..i]) + Cells(kids[i]) <= SumCells(kids)
    decreases |kids|
  {
    var rest := kids[..|kids| - 1];
    if i < |rest| {
      SumCellsUpto(rest, i);
      assert rest[..i] == kids[..i];
    }
  }

  /** Where the block of child i starts, in a node whose `m` children start at adr. */
  function KidBlock(adr: nat, m: nat, kids: seq<Trie>, i: nat): nat
    requires i <= |kids|
  {
    adr + m + SumCells(kids[..i])
  }

  /** Cell `cell` holds t's packed node and [lo, lo + Cells(t)) holds exactly its descendants. */
  ghost predicate Laid(cells: seq<Word>, cell: nat, lo: nat, t: Trie)
    decreases t
  {
    && cell < |cells| && lo + Cells(t) <= |cells|
    && GetAdr(cells[cell]) == (if t.Leaf? then t.base else lo)
    && GetBranch(cells[cell]) == (if t.Leaf? then 0 else t.branch)
    && GetSkip(cells[cell]) == (if t.Leaf? then 0 else t.skip)
    && (t.Node? ==>
          && 1 <= t.branch < 32 && |t.kids| == Pow2(t.branch)
          && forall i :: 0 <= i < |t.kids| ==> Laid(cells, lo + i, KidBlock(lo, |t.kids|, t.kids, i), t.kids[i]))
  }

  lemma {:induction false} LaidFrame(a: seq<Word>, b: seq<Word>, cell: nat, lo: nat, t: Trie)
    requires Laid(a, cell, lo, t) && |b| == |a| && a[cell] == b[cell]
    requires forall i :: lo <= i < lo + Cells(t) ==> a[i] == b[i]
    ensures Laid(b, cell, lo, t)
    decreases t
  {
    if t.Node? {
      forall i | 0 <= i < |t.kids| ensures Laid(b, lo + i, KidBlock(lo, |t.kids|, t.kids, i), t.kids[i]) {
        SumCellsUpto(t.kids, i);
        assert Laid(a, lo + i, KidBlock(lo, |t.kids|, t.kids, i), t.kids[i]);
        LaidFrame(a, b, lo + i, KidBlock(lo, |t.kids|, t.kids, i), t.kids[i]);
      }
    }
  }

  /** The first children of a node of m children, laid out from adr. */
  ghost predicate KidsLaid(cells: seq<Word>, adr: nat, m: nat, kids: seq<Trie>) {
    && |kids| <= m
    && forall i :: 0 <= i < |kids| ==> Laid(cells, adr + i, KidBlock(adr, m, kids, i), kids[i])
  }

  lemma KidLaidFrame(a: seq<Word>, b: seq<Word>, adr: nat, m: nat, kids: seq<Trie>, i: nat)
    requires KidsLaid(a, adr, m, kids) && |b| == |a| && i < |kids| && adr + m + SumCells(kids) <= |a|
    requires forall i :: adr <= i < adr + |kids| ==> a[i] == b[i]
    requires forall i :: adr + m <= i < adr + m + SumCells(kids) ==> a[i] == b[i]
    ensures Laid(b, adr + i, KidBlock(adr, m, kids, i), kids[i])
  {
    hide Laid, SumCells, Cells;
    var lo := KidBlock(adr, m, kids, i);
    SumCellsUpto(kids, i);
    assert adr + m <= lo && lo + Cells(kids[i]) <= adr + m + SumCells(kids);
    LaidFrame(a, b, adr + i, lo, kids[i]);
  }

  /** Writing cells outside the children built so far leaves them laid out. */
  lemma KidsLaidFrame(a: seq<Word>, b: seq<Word>, adr: nat, m: nat, kids: seq<Trie>)
    requires KidsLaid(a, adr, m, kids) && |b| == |a| && adr + m + SumCells(kids) <= |a|
    requires forall i :: adr <= i < adr + |kids| ==> a[i] == b[i]
    requires forall i :: adr + m <= i < adr + m + SumCells(kids) ==> a[i] == b[i]
    ensures KidsLaid(b, adr, m, kids)
  {
    hide Laid, SumCells, Cells, KidBlock;
    forall i | 0 <= i < |kids| ensures Laid(b, adr + i, KidBlock(adr, m, kids, i), kids[i]) {
      KidLaidFrame(a, b, adr, m, kids, i);
    }
  }

  lemma {:induction false} SumCellsConcat(kids: seq<Trie>, more: seq<Trie>)
    ensures SumCells(kids + more) == SumCells(kids) + SumCells(more)
    decreases |more|
  {
    if more == [] {
      assert kids + more == kids;
    } else {
      var rest, last := more[..|more| - 1], more[|more| - 1];
      assert kids + more == (kids + rest) + [last];
      SumCellsConcat(kids, rest);
      SumCellsAppend(kids + rest, last);
    }
  }

  lemma TakeConcat(kids: seq<Trie>, more: seq<Trie>, j: nat)
    requires j <= |more|
    ensures (kids + more)[..|kids| + j] == kids + more[..j]
  {
    hide *;
  }

  lemma KidBlockConcat(adr: nat, m: nat, kids: seq<Trie>, more: seq<Trie>, j: nat)
    requires |kids| <= m && j <= |more|
    ensures KidBlock(adr, m, kids + more, |kids| + j) == KidBlock(adr + |kids|, m - |kids| + SumCells(kids), more, j)
  {
    hide SumCells;
    TakeConcat(kids, more, j);
    SumCellsConcat(kids, more[..j]);
  }

  /** Children laid out after those built so far. */
  lemma KidsLaidConcat(cells: seq<Word>, adr: nat, m: nat, kids: seq<Trie>, more: seq<Trie>)
    requires KidsLaid(cells, adr, m, kids) && |kids| + |more| <= m
    requires KidsLaid(cells, adr + |kids|, m - |kids| + SumCells(kids), more)
    ensures KidsLaid(cells, adr, m, kids + more)
  {
    hide Laid, SumCells, Cells, KidBlock;
    var all := kids + more;
    forall i | 0 <= i < |all| ensures Laid(cells, adr + i, KidBlock(adr, m, all, i), all[i]) {
      if i < |kids| {
        assert KidBlock(adr, m, all, i) == KidBlock(adr, m, kids, i) by { KidBlockFirst(adr, m, kids, more, i); }
      } else {
        KidBlockConcat(adr, m, kids, more, i - |kids|);
        assert all[i] == more[i - |kids|];
      }
    }
  }

  lemma KidBlockFirst(adr: nat, m: nat, kids: seq<Trie>, more: seq<Trie>, i: nat)
    requires i <= |kids|
    ensures KidBlock(adr, m, kids + more, i) == KidBlock(adr, m, kids, i)
  {
    assert (kids + more)[..i] == kids[..i];
  }

  /** The block of one child ends where that of the next begins. */
  lemma BlocksAdjoin(adr: nat, m: nat, kids: seq<Trie>, i: nat)
    requires i < |kids|
    ensures KidBlock(adr, m, kids, i) + Cells(kids[i]) == KidBlock(adr, m, kids, i + 1)
  {
    hide SumCells, Cells;
    assert kids[..i + 1] == kids[..i] + [kids[i]];
    SumCellsAppend(kids[..i], kids[i]);
  }

  predicate InBlock(adr: nat, m: nat, kids: seq<Trie>, i: nat, a: nat)
    requires i < |kids|
  {
    KidBlock(adr, m, kids, i) <= a < KidBlock(adr, m, kids, i) + Cells(kids[i])
  }

  lemma {:induction false} BlocksGrow(adr: nat, m: nat, kids: seq<Trie>, i: nat, j: nat)
    requires i <= j <= |kids|
    ensures KidBlock(adr, m, kids, i) <= KidBlock(adr, m, kids, j)
    decreases j
  {
    hide KidBlock, Cells;
    if i < j {
      BlocksGrow(adr, m, kids, i, j - 1);
      BlocksAdjoin(adr, m, kids, j - 1);
    }
  }

  lemma FirstBlock(adr: nat, m: nat, kids: seq<Trie>)
    ensures KidBlock(adr, m, kids, 0) == adr + m
  {}

  /** Every cell behind the children's own is in the block of exactly one child. */
  lemma {:induction false} InSomeBlock(adr: nat, m: nat, kids: seq<Trie>, a: nat, n: nat) returns (i: nat)
    requires n <= |kids| && adr + m <= a < KidBlock(adr, m, kids, n)
    ensures i < n && InBlock(adr, m, kids, i, a)
    ensures forall j :: 0 <= j < |kids| && InBlock(adr, m, kids, j, a) ==> j == i
    decreases n
  {
    FirstBlock(adr, m, kids);
    assert n > 0;
    if a < KidBlock(adr, m, kids, n - 1) {
      i := InSomeBlock(adr, m, kids, a, n - 1);
    } else {
      i := n - 1;
      BlocksAdjoin(adr, m, kids, i);
      hide KidBlock, Cells;
      forall j | 0 <= j < |kids| && InBlock(adr, m, kids, j, a) ensures j == i {
        BlocksAdjoin(adr, m, kids, j);
        if j < i { BlocksGrow(adr, m, kids, j + 1, i); }
        if j > i { BlocksGrow(adr, m, kids, i + 1, j); }
      }
    }
  }

  /** The cells of a node are the cells of its children and, behind them, the children's
      blocks; no cell is in two of these. */
  lemma CellsPartition(lo: nat, t: Trie, a: nat) returns (i: nat)
    requires t.Node? && lo <= a < lo + Cells(t)
    ensures a < lo + |t.kids| ==> i == a - lo && forall j :: 0 <= j < |t.kids| ==> !InBlock(lo, |t.kids|, t.kids, j, a)
    ensures a >= lo + |t.kids| ==> i < |t.kids| && InBlock(lo, |t.kids|, t.kids, i, a)
    ensures a >= lo + |t.kids| ==> forall j :: 0 <= j < |t.kids| && InBlock(lo, |t.kids|, t.kids, j, a) ==> j == i
  {
    if a < lo + |t.kids| {
      i := a - lo;
    } else {
      assert t.kids[..|t.kids|] == t.kids;
      i := InSomeBlock(lo, |t.kids|, t.kids, a, |t.kids|);
    }
  }

  /** Where the search for s ends, having consumed the first `pos` bits. */
  function Walk(t: Trie, pos: nat, s: Word): nat {
    match t
    case Leaf(b) => b
    case Node(branch, skip, kids) =>
      if branch <= 32 && Extract(pos + skip, branch, s) < |kids|
      then Walk(kids[Extract(pos + skip, branch, s)], pos + skip + branch, s)
      else 0
  }
}
