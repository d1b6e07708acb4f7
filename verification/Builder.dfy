/** buildTrie: packs the base vector into the array of nodes, depth first. */
module Builder {
  import opened Bits
  import opened Nets
  import opened Prefixes
  import opened Packing
  import opened Layout
  import opened Delivery
  import opened Branching
  import opened Slots

  /** The vectors the builder reads, against the routes they came from. */
  ghost predicate Vectors(rs: seq<Route>, base: seq<Base>, pre: seq<Pre>, table: seq<Route>) {
    && BaseVector(rs, base) && |base| < ADR_LIMIT
    && BasesOk(rs, base, table) && PresOk(rs, pre, table)
  }

  // ---- prefix chains ----

  /** A cover of e shorter than the one at `link` is at or behind the next link. */
  lemma ChainStep(rs: seq<Route>, pre: seq<Pre>, table: seq<Route>, e: Net, link: nat, r: Route)
    requires AllCanonical(rs) && PresOk(rs, pre, table) && link < |pre| && ProperlyCovers(table[link].net, e)
    requires r in rs && ProperlyCovers(r.net, e) && r.net.len < table[link].net.len
    ensures pre[link].pre != NOPRE && r.net.len <= table[pre[link].pre].net.len
  {
    MatchesNested(r.net, table[link].net, e.data);
    assert ProperlyCovers(r.net, table[link].net);
    assert Linked(rs, table, table[link].net, pre[link].pre);
  }

  lemma ChainSame(rs: seq<Route>, pre: seq<Pre>, table: seq<Route>, e: Net, link: nat, r: Route)
    requires AllCanonical(rs) && PresOk(rs, pre, table) && link < |pre| && ProperlyCovers(table[link].net, e)
    requires r in rs && ProperlyCovers(r.net, e) && r.net.len == table[link].net.len
    ensures r.net == table[link].net
  {
    assert table[link] in rs;
    MatchesNested(r.net, table[link].net, e.data);
    CanonicalSame(r.net, table[link].net);
  }

  /** Links lead from covers of e to covers of e. */
  lemma ChainNext(rs: seq<Route>, pre: seq<Pre>, table: seq<Route>, e: Net, link: nat)
    requires AllCanonical(rs) && PresOk(rs, pre, table) && link < |pre| && ProperlyCovers(table[link].net, e)
    ensures NOPRE <= pre[link].pre < link
    ensures pre[link].pre != NOPRE ==>
              ProperlyCovers(table[pre[link].pre].net, e) && table[pre[link].pre].net.len < table[link].net.len
  {
    assert Linked(rs, table, table[link].net, pre[link].pre);
    var next := pre[link].pre;
    if next != NOPRE {
      var a, b := table[next].net, table[link].net;
      assert table[next] in rs && table[link] in rs;
      CoversTrans(a, b, e);
      if a.len == b.len { CanonicalSame(a, b); }
    }
  }

  ghost predicate AtOrBehind(rs: seq<Route>, base: seq<Base>, table: seq<Route>, np: nat, b: nat, c: nat, x: nat, link: int)
    requires b <= 32 && c < WORD && x < |base|
  {
    && NOPRE <= link < |table|
    && (link != NOPRE ==> ProperlyCovers(table[link].net, base[x].AsNet()))
    && (forall r :: r in rs && ProperlyCovers(r.net, base[x].AsNet()) && PatternHit(base[x].str, np, b, c, r.net.len) ==>
          link != NOPRE && r.net.len <= table[link].net.len)
  }

  lemma ChainMiss(rs: seq<Route>, base: seq<Base>, pre: seq<Pre>, table: seq<Route>, np: nat, b: nat, c: nat, x: nat, link: nat)
    requires Vectors(rs, base, pre, table) && b <= 32 && c < WORD && x < |base| && link < |pre|
    requires AtOrBehind(rs, base, table, np, b, c, x, link) && !PatternHit(base[x].str, np, b, c, pre[link].len)
    ensures AtOrBehind(rs, base, table, np, b, c, x, pre[link].pre)
  {
    hide PatternHit;
    var e := base[x].AsNet();
    ChainNext(rs, pre, table, e, link);
    forall r | r in rs && ProperlyCovers(r.net, e) && PatternHit(base[x].str, np, b, c, r.net.len)
      ensures pre[link].pre != NOPRE && r.net.len <= table[pre[link].pre].net.len
    {
      ChainStep(rs, pre, table, e, link, r);
    }
  }

  /** The inner search of an empty slot: the longest prefix of base x that agrees with the slot. */
  method LongestMatch(base: seq<Base>, pre: seq<Pre>, x: nat, newprefix: nat, branch: nat, bitpat: nat,
                      ghost rs: seq<Route>, ghost table: seq<Route>)
    returns (match_: nat)
    requires Vectors(rs, base, pre, table) && x < |base| && branch <= 32 && bitpat < WORD
    ensures LongestHit(rs, base, newprefix, branch, bitpat, x, match_)
  {
    hide Extract, Linked, ProperlyCovers, SortedPrefixFree;
    match_ := 0;
    var prep := base[x].pre;
    ChainStart(rs, base, pre, table, newprefix, branch, bitpat, x);
    while prep != NOPRE && match_ == 0
      invariant NOPRE <= prep < |pre|
      invariant match_ == 0 ==> AtOrBehind(rs, base, table, newprefix, branch, bitpat, x, prep)
      invariant match_ != 0 ==> LongestHit(rs, base, newprefix, branch, bitpat, x, match_)
      decreases if match_ == 0 then 1 else 0, prep
    {
      var len := pre[prep].len;
      assert table[prep] in rs && len == table[prep].net.len && table[prep].net.len <= 32;
      if len > newprefix && Extract(newprefix, len - newprefix, base[x].str) == Extract(32 - branch, len - newprefix, bitpat) {
        match_ := len;
      } else {
        ChainMiss(rs, base, pre, table, newprefix, branch, bitpat, x, prep);
        assert pre[prep].pre < prep;
        prep := pre[prep].pre;
      }
    }
  }

  lemma ChainStart(rs: seq<Route>, base: seq<Base>, pre: seq<Pre>, table: seq<Route>, np: nat, b: nat, c: nat, x: nat)
    requires Vectors(rs, base, pre, table) && x < |base| && b <= 32 && c < WORD
    ensures AtOrBehind(rs, base, table, np, b, c, x, base[x].pre)
  {
    assert Linked(rs, table, base[x].AsNet(), base[x].pre);
  }

  // ---- the children of one node ----

  /** Cells the builder may need below a node over n bases. */
  function Need(prefix: nat, first: nat, n: nat): nat {
    if n <= 1 then 0
    else if n > 2 && prefix == 0 && first == 0 then 65536 + 4 * n
    else 4 * (n - 1)
  }

  /** The children built so far: their slots deliver, and they use at most four cells per
      placed base less four per slot taken. */
  ghost predicate KidsOk(rs: seq<Route>, base: seq<Base>, first: nat, n: nat, np: nat, b: nat, p: nat, kids: seq<Trie>) {
    && NodeRange(rs, base, first, n, np, b)
    && |kids| <= Pow2(b)
    && Divided(base, first, n, np, b, p, |kids|)
    && (forall c :: 0 <= c < |kids| ==> SlotDelivers(rs, base, first, n, np, b, c, kids[c]))
    && SumCells(kids) + 4 * Distinct(base, np, b, first, p - first) <= 4 * (p - first)
  }

  lemma KidsEmpty(rs: seq<Route>, base: seq<Base>, first: nat, n: nat, np: nat, b: nat, p: nat, kids: seq<Trie>,
                  match1: nat, match2: nat)
    requires KidsOk(rs, base, first, n, np, b, p, kids) && |kids| < Pow2(b) && |kids| < WORD
    requires p < first + n ==> Slot(base, np, b, p) != |kids|
    requires Matched(rs, base, first, n, np, b, p, |kids|, match1, match2)
    ensures KidsOk(rs, base, first, n, np, b, p, kids + [Leaf(Neighbour(first, n, p, match1, match2))])
  {
    hide Slot, Span, SlotDelivers, NodeRange, Matched, Distinct, SumCells;
    RangeFacts(rs, base, first, n, np, b);
    var t := Leaf(Neighbour(first, n, p, match1, match2));
    var c := |kids|;
    EmptySlot(rs, base, first, n, np, b, p, c, match1, match2);
    SumCellsAppend(kids, t);
    GroupNone(rs, base, first, n, np, b, p, c);
  }

  lemma RangeFacts(rs: seq<Route>, base: seq<Base>, first: nat, n: nat, np: nat, b: nat)
    requires NodeRange(rs, base, first, n, np, b)
    ensures first + n <= |base| && n >= 2 && 1 <= b < 32
  {}

  lemma GroupNone(rs: seq<Route>, base: seq<Base>, first: nat, n: nat, np: nat, b: nat, p: nat, c: nat)
    requires NodeRange(rs, base, first, n, np, b) && Divided(base, first, n, np, b, p, c)
    requires p < first + n ==> Slot(base, np, b, p) != c
    ensures Divided(base, first, n, np, b, p, c + 1)
  {
    GroupExact(rs, base, first, n, np, b, p, 0, c);
  }

  lemma KidsGroup(rs: seq<Route>, base: seq<Base>, first: nat, n: nat, np: nat, b: nat, p: nat, kids: seq<Trie>, k: nat, t: Trie)
    requires KidsOk(rs, base, first, n, np, b, p, kids) && |kids| < Pow2(b)
    requires k >= 1 && Group(base, first, n, np, b, p, k, |kids|) && (k == 1 ==> np + b <= base[p].len)
    requires Delivers(rs, base, p, k, t, np + b) && Cells(t) <= 4 * (k - 1)
    ensures KidsOk(rs, base, first, n, np, b, p + k, kids + [t])
  {
    hide Slot, Span, SlotDelivers, Delivers, Distinct, SumCells, Extract, BaseVector, SharePrefix;
    var c := |kids|;
    GroupExact(rs, base, first, n, np, b, p, k, c);
    GroupSpans(rs, base, first, n, np, b, p, k, c);
    GroupSlot(rs, base, first, n, np, b, p, k, c, t);
    SumCellsAppend(kids, t);
    assert Slot(base, np, b, p) == c;
    DistinctGroup(base, np, b, first, p - first, k);
  }

  lemma KidsShort(rs: seq<Route>, base: seq<Base>, first: nat, n: nat, np: nat, b: nat, p: nat, kids: seq<Trie>)
    requires KidsOk(rs, base, first, n, np, b, p, kids) && |kids| < Pow2(b)
    requires Group(base, first, n, np, b, p, 1, |kids|) && base[p].len < np + b
    ensures KidsOk(rs, base, first, n, np, b, p + 1, kids + Copies(Leaf(p), Span(base, np, b, p)))
  {
    hide Slot, Span, SlotDelivers, Distinct, SumCells, Extract, SortedPrefixFree, SharePrefix, Canonical;
    var c, w := |kids|, Span(base, np, b, p);
    var kids' := kids + Copies(Leaf(p), w);
    NodeLens(rs, base, first, n, np, b, p);
    SpanStart(base, np, b, p);
    assert Slot(base, np, b, p) == c;
    forall i | 0 <= i < |kids'| ensures SlotDelivers(rs, base, first, n, np, b, i, kids'[i]) {
      if i >= c { ShortSlot(rs, base, first, n, np, b, p, i); }
    }
    forall y | p < y < first + n ensures c + w <= Slot(base, np, b, y) {
      NodeLens(rs, base, first, n, np, b, y);
      AfterSpan(base, first, n, np, b, p, y);
    }
    SumCellsRepeat(kids, Leaf(p), w);
    GroupExact(rs, base, first, n, np, b, p, 1, c);
    DistinctGroup(base, np, b, first, p - first, 1);
  }

  /** With all slots built, the node delivers and every base is placed. */
  lemma KidsDone(rs: seq<Route>, base: seq<Base>, prefix: nat, first: nat, n: nat, np: nat, b: nat, p: nat, kids: seq<Trie>)
    requires KidsOk(rs, base, first, n, np, b, p, kids) && |kids| == Pow2(b) && prefix <= np
    ensures p == first + n
    ensures Delivers(rs, base, first, n, Node(b, np - prefix, kids), prefix)
  {
    hide Span, DeliversFor, SortedPrefixFree, SharePrefix;
    AllCounted(base, np, b, first, n, p);
    var t := Node(b, np - prefix, kids);
    forall s: Word ensures DeliversFor(rs, base, first, n, s, Walk(t, prefix, s)) {
      var c := Extract(np, b, s);
      AgreeExtract(s, s, np, b);
      assert SlotDelivers(rs, base, first, n, np, b, c, kids[c]);
      assert Walk(t, prefix, s) == Walk(kids[c], np + b, s);
    }
  }

  // ---- the builder ----

  method CountGroup(base: seq<Base>, first: nat, n: nat, newprefix: nat, branch: nat, p: nat, bitpat: nat) returns (k: nat)
    requires first <= p <= first + n <= |base| && branch <= 32
    ensures Group(base, first, n, newprefix, branch, p, k, bitpat)
  {
    k := 0;
    while p + k < first + n && Extract(newprefix, branch, base[p + k].str) == bitpat
      invariant p + k <= first + n
      invariant forall x :: p <= x < p + k ==> Slot(base, newprefix, branch, x) == bitpat
    {
      k := k + 1;
    }
  }

  /** Nothing but the given cell and block of the array was written. */
  ghost predicate OnlyWrote(a: seq<Word>, b: seq<Word>, cell: nat, cells: nat, lo: nat, hi: nat) {
    && |a| == |b|
    && forall i :: 0 <= i < |a| && !(cell <= i < cell + cells) && !(lo <= i < hi) ==> a[i] == b[i]
  }

  lemma LaidLeaf(cells: seq<Word>, cell: nat, lo: nat, x: nat)
    requires cell < |cells| && lo <= |cells| && x < ADR_LIMIT && cells[cell] == x
    ensures Laid(cells, cell, lo, Leaf(x))
  {
    LeafNode(x);
  }

  method BuildTrie(base: seq<Base>, pre: seq<Pre>, prefix: nat, first: nat, n: nat, pos: nat, nextfree: nat,
                   tree: array<Word>, ghost rs: seq<Route>, ghost table: seq<Route>)
    returns (free: nat, ghost t: Trie)
    requires Vectors(rs, base, pre, table)
    requires n >= 1 && first + n <= |base| && SharePrefix(base, first, n, prefix)
    requires n > 1 ==> prefix <= 32 && (prefix == 0 ==> first == 0)
    requires pos < nextfree && nextfree + Need(prefix, first, n) <= tree.Length
    requires nextfree + Need(prefix, first, n) <= ADR_LIMIT
    modifies tree
    ensures free == nextfree + Cells(t) && Cells(t) <= Need(prefix, first, n)
    ensures n == 1 ==> t == Leaf(first)
    ensures Laid(tree[..], pos, nextfree, t)
    ensures OnlyWrote(old(tree[..]), tree[..], pos, 1, nextfree, free)
    ensures Delivers(rs, base, first, n, t, prefix)
    decreases n, 3
  {
    hide Laid, Vectors, SharePrefix, SortedPrefixFree, BaseVector, Agree, Delivers, KidsOk, KidsLaid, NodeRange,
         Distinct, BranchOk, Pow2, GetAdr, GetBranch, GetSkip, SumCells;
    if n == 1 {
      assert |base| < ADR_LIMIT by { VectorsFit(rs, base, pre, table); }
      tree[pos] := first;
      t, free := Leaf(first), nextfree;
      LaidLeaf(tree[..], pos, nextfree, first);
      OneBase(rs, base, first, prefix);
    } else {
      VectorsFit(rs, base, pre, table);
      var branch, newprefix := ComputeBranch(base, prefix, first, n);
      BranchRange(rs, base, pre, table, prefix, first, n, branch, newprefix);
      var adr := nextfree;
      tree[pos] := Pack(branch, newprefix - prefix, adr);
      ghost var kids;
      free, kids := BuildKids(base, pre, first, n, newprefix, branch, adr, tree, rs, table);
      t := Node(branch, newprefix - prefix, kids);
      KidsDone(rs, base, prefix, first, n, newprefix, branch, first + n, kids);
      KidsCells(rs, base, first, n, newprefix, branch, kids);
      LaidNode(tree[..], pos, adr, t);
    }
  }

  /** A short base, written into every slot of its span. */
  method FillSpan(base: seq<Base>, pre: seq<Pre>, prefix: nat, p: nat, cell: nat, span: nat, nextfree: nat,
                  tree: array<Word>, ghost n: nat, ghost rs: seq<Route>, ghost table: seq<Route>)
    requires Vectors(rs, base, pre, table) && p < |base| && n > 1
    requires cell + span <= nextfree <= tree.Length && nextfree <= ADR_LIMIT
    modifies tree
    ensures KidsLaid(tree[..], cell, nextfree - cell, Copies(Leaf(p), span))
    ensures OnlyWrote(old(tree[..]), tree[..], cell, span, nextfree, nextfree)
    decreases n, 0
  {
    hide Laid, Vectors, Delivers;
    for i := 0 to span
      invariant OnlyWrote(old(tree[..]), tree[..], cell, i, nextfree, nextfree)
      invariant forall j :: cell <= j < cell + i ==> Laid(tree[..], j, nextfree, Leaf(p))
    {
      ghost var before := tree[..];
      ShareOne(base, p, prefix);
      ghost var free, t;
      free, t := BuildTrie(base, pre, prefix, p, 1, cell + i, nextfree, tree, rs, table);
      forall j | cell <= j < cell + i ensures Laid(tree[..], j, nextfree, Leaf(p)) {
        LaidFrame(before, tree[..], j, nextfree, Leaf(p));
      }
    }
    CopiesLaid(tree[..], cell, nextfree, p, span);
  }

  lemma ShareOne(base: seq<Base>, p: nat, np: nat)
    requires p < |base|
    ensures SharePrefix(base, p, 1, np)
  {}

  lemma CopiesLaid(cells: seq<Word>, cell: nat, nextfree: nat, p: nat, span: nat)
    requires cell + span <= nextfree
    requires forall j :: cell <= j < cell + span ==> Laid(cells, j, nextfree, Leaf(p))
    ensures KidsLaid(cells, cell, nextfree - cell, Copies(Leaf(p), span))
  {
    hide Laid;
    var kids := Copies(Leaf(p), span);
    forall i | 0 <= i < span ensures Laid(cells, cell + i, KidBlock(cell, nextfree - cell, kids, i), kids[i]) {
      assert kids[..i] == [] + Copies(Leaf(p), i);
      SumCellsRepeat([], Leaf(p), i);
    }
  }

  /** The bases of a slot agree on its bits, are fewer than the range, and fit the room left. */
  lemma GroupRoom(rs: seq<Route>, base: seq<Base>, first: nat, n: nat, np: nat, b: nat, p: nat, kids: seq<Trie>, k: nat,
                  adr: nat, length: nat)
    requires KidsOk(rs, base, first, n, np, b, p, kids) && k >= 1 && Group(base, first, n, np, b, p, k, |kids|)
    requires !Agree(base[first].str, base[first + n - 1].str, np + 1) && np < 32
    requires KidsRoom(base, first, n, np, b, adr, length)
    ensures k < n && SharePrefix(base, p, k, np + b) && (k > 1 ==> np + b < 32)
    ensures adr + Pow2(b) + SumCells(kids) + 4 * (k - 1) <= length
    ensures adr + Pow2(b) + SumCells(kids) + 4 * (k - 1) <= ADR_LIMIT
  {
    hide Distinct, SumCells, SlotDelivers, Extract, Span, Agree;
    EndsDiffer(base, first, n, np, b);
    forall x | p <= x < p + k ensures Agree(base[p].str, base[x].str, np + b) {
      SlotOrder(base, first, n, np, b, p, x);
    }
    if k > 1 && np + b >= 32 {
      AgreeAll(base[p].str, base[p + 1].str, np + b);
    }
    GroupExact(rs, base, first, n, np, b, p, k, |kids|);
    assert Slot(base, np, b, p) == |kids|;
    DistinctGroup(base, np, b, first, p - first, k);
    DistinctGap(base, np, b, first, p + k - first, n);
  }

  /** One iteration of the slot loop. */
  method BuildSlot(base: seq<Base>, pre: seq<Pre>, first: nat, n: nat, newprefix: nat, branch: nat, adr: nat,
                   p: nat, bitpat: nat, nextfree: nat, tree: array<Word>,
                   ghost kids: seq<Trie>, ghost rs: seq<Route>, ghost table: seq<Route>)
    returns (free: nat, k: nat, slots: nat, ghost added: seq<Trie>)
    requires Vectors(rs, base, pre, table) && KidsOk(rs, base, first, n, newprefix, branch, p, kids)
    requires |kids| == bitpat < Pow2(branch)
    requires !Agree(base[first].str, base[first + n - 1].str, newprefix + 1) && newprefix < 32
    requires KidsRoom(base, first, n, newprefix, branch, adr, tree.Length)
    requires nextfree == adr + Pow2(branch) + SumCells(kids) && nextfree <= tree.Length && nextfree <= ADR_LIMIT
    modifies tree
    ensures slots == |added| >= 1 && KidsOk(rs, base, first, n, newprefix, branch, p + k, kids + added)
    ensures free == nextfree + SumCells(added)
    ensures OnlyWrote(old(tree[..]), tree[..], adr + bitpat, |added|, nextfree, free)
    ensures KidsLaid(tree[..], adr + bitpat, nextfree - adr - bitpat, added)
    decreases n, 1
  {
    hide Laid, Vectors, Delivers, KidsRoom, SlotDelivers, Distinct, SumCells, Agree, Extract, LongestHit, Divided, BaseVector, SharePrefix;
    KidsFacts(rs, base, first, n, newprefix, branch, p, kids);
    k := CountGroup(base, first, n, newprefix, branch, p, bitpat);
    ghost var t;
    if k == 0 {
      var match1, match2 := 0, 0;
      if p > first {
        match1 := LongestMatch(base, pre, p - 1, newprefix, branch, bitpat, rs, table);
      }
      if p < first + n {
        match2 := LongestMatch(base, pre, p, newprefix, branch, bitpat, rs, table);
      }
      var z := if (match1 > match2 && p > first) || p == first + n then p - 1 else p;
      KidsEmpty(rs, base, first, n, newprefix, branch, p, kids, match1, match2);
      ShareOne(base, z, newprefix + branch);
      free, t := BuildTrie(base, pre, newprefix + branch, z, 1, adr + bitpat, nextfree, tree, rs, table);
      added, slots := [t], 1;
      OneKid(tree[..], adr + bitpat, nextfree, t);
    } else {
      GroupRoom(rs, base, first, n, newprefix, branch, p, kids, k, adr, tree.Length);
      KidLens(rs, base, first, n, newprefix, branch, p, kids);
      if k == 1 && base[p].len - newprefix < branch {
        var bits := branch - base[p].len + newprefix;
        KidsShort(rs, base, first, n, newprefix, branch, p, kids);
        KidsFacts(rs, base, first, n, newprefix, branch, p + 1, kids + Copies(Leaf(p), Pow2(bits)));
        slots := Pow2(bits);
        FillSpan(base, pre, newprefix + branch, p, adr + bitpat, slots, nextfree, tree, n, rs, table);
        free, added := nextfree, Copies(Leaf(p), slots);
        NoCells(p, slots);
      } else {
        free, t := BuildTrie(base, pre, newprefix + branch, p, k, adr + bitpat, nextfree, tree, rs, table);
        KidsGroup(rs, base, first, n, newprefix, branch, p, kids, k, t);
        added, slots := [t], 1;
        OneKid(tree[..], adr + bitpat, nextfree, t);
      }
    }
  }

  lemma KidsFacts(rs: seq<Route>, base: seq<Base>, first: nat, n: nat, np: nat, b: nat, p: nat, kids: seq<Trie>)
    requires KidsOk(rs, base, first, n, np, b, p, kids)
    ensures NodeRange(rs, base, first, n, np, b) && first <= p <= first + n <= |base| && n >= 2 && 1 <= b < 32
    ensures |kids| <= Pow2(b) < WORD
  {
    Pow2Mono(b, 31);
    Pow2At32();
    Pow2Add(31, 1);
  }

  lemma KidLens(rs: seq<Route>, base: seq<Base>, first: nat, n: nat, np: nat, b: nat, p: nat, kids: seq<Trie>)
    requires KidsOk(rs, base, first, n, np, b, p, kids) && p < first + n
    ensures np < base[p].len <= 32
  {
    NodeLens(rs, base, first, n, np, b, p);
  }

  lemma OneKid(cells: seq<Word>, cell: nat, nextfree: nat, t: Trie)
    requires cell < nextfree && Laid(cells, cell, nextfree, t)
    ensures KidsLaid(cells, cell, nextfree - cell, [t]) && SumCells([t]) == Cells(t)
  {
    hide Laid;
    SumCellsAppend([], t);
    assert [] + [t] == [t];
  }

  lemma NoCells(p: nat, n: nat)
    ensures SumCells(Copies(Leaf(p), n)) == 0
  {
    SumCellsRepeat([], Leaf(p), n);
    assert [] + Copies(Leaf(p), n) == Copies(Leaf(p), n);
  }

  ghost predicate KidsRoom(base: seq<Base>, first: nat, n: nat, np: nat, b: nat, adr: nat, length: nat)
    requires first + n <= |base| && b <= 32
  {
    && adr + Pow2(b) + 4 * n <= length + 4 * Distinct(base, np, b, first, n)
    && adr + Pow2(b) + 4 * n <= ADR_LIMIT + 4 * Distinct(base, np, b, first, n)
  }

  method BuildKids(base: seq<Base>, pre: seq<Pre>, first: nat, n: nat, newprefix: nat, branch: nat, adr: nat,
                   tree: array<Word>, ghost rs: seq<Route>, ghost table: seq<Route>)
    returns (free: nat, ghost kids: seq<Trie>)
    requires Vectors(rs, base, pre, table) && NodeRange(rs, base, first, n, newprefix, branch)
    requires !Agree(base[first].str, base[first + n - 1].str, newprefix + 1) && newprefix < 32
    requires KidsRoom(base, first, n, newprefix, branch, adr, tree.Length)
    modifies tree
    ensures |kids| == Pow2(branch) && KidsOk(rs, base, first, n, newprefix, branch, first + n, kids)
    ensures free == adr + |kids| + SumCells(kids) && free <= tree.Length
    ensures KidsLaid(tree[..], adr, |kids|, kids)
    ensures OnlyWrote(old(tree[..]), tree[..], adr, 0, adr, free)
    decreases n, 2
  {
    hide Laid, Vectors, SlotDelivers, Distinct, SumCells, Agree, NodeRange, KidsOk, KidsLaid, SortedPrefixFree;
    RangeFacts(rs, base, first, n, newprefix, branch);
    kids := [];
    KidsStart(rs, base, first, n, newprefix, branch, tree[..], adr);
    var p, bitpat := first, 0;
    free := adr + Pow2(branch);
    while bitpat < Pow2(branch)
      invariant |kids| == bitpat <= Pow2(branch)
      invariant KidsOk(rs, base, first, n, newprefix, branch, p, kids)
      invariant free == adr + Pow2(branch) + SumCells(kids)
      invariant KidsLaid(tree[..], adr, Pow2(branch), kids)
      invariant OnlyWrote(old(tree[..]), tree[..], adr, 0, adr, free)
      decreases Pow2(branch) - bitpat
    {
      ghost var before, was := tree[..], free;
      KidsFit(rs, base, first, n, newprefix, branch, p, kids, adr, tree.Length);
      var k, slots;
      ghost var added;
      free, k, slots, added :=
        BuildSlot(base, pre, first, n, newprefix, branch, adr, p, bitpat, free, tree, kids, rs, table);
      KidsFacts(rs, base, first, n, newprefix, branch, p + k, kids + added);
      KidsLaidFrame(before, tree[..], adr, Pow2(branch), kids);
      KidsLaidConcat(tree[..], adr, Pow2(branch), kids, added);
      SumCellsConcat(kids, added);
      kids := kids + added;
      bitpat, p := bitpat + slots, p + k;
    }
    KidsFit(rs, base, first, n, newprefix, branch, p, kids, adr, tree.Length);
    KidsDone(rs, base, 0, first, n, newprefix, branch, p, kids);
  }

  lemma KidsStart(rs: seq<Route>, base: seq<Base>, first: nat, n: nat, np: nat, b: nat, cells: seq<Word>, adr: nat)
    requires NodeRange(rs, base, first, n, np, b)
    ensures KidsOk(rs, base, first, n, np, b, first, []) && KidsLaid(cells, adr, Pow2(b), []) && SumCells([]) == 0
  {}

  /** The cells used so far are within the room of the whole node. */
  lemma KidsFit(rs: seq<Route>, base: seq<Base>, first: nat, n: nat, np: nat, b: nat, p: nat, kids: seq<Trie>, adr: nat, length: nat)
    requires first + n <= |base| && b <= 32
    requires KidsOk(rs, base, first, n, np, b, p, kids) && KidsRoom(base, first, n, np, b, adr, length)
    ensures adr + Pow2(b) + SumCells(kids) <= length && adr + Pow2(b) + SumCells(kids) <= ADR_LIMIT
    ensures NodeRange(rs, base, first, n, np, b)
  {
    hide Distinct, SumCells;
    DistinctGap(base, np, b, first, p - first, n);
  }

  lemma KidsCells(rs: seq<Route>, base: seq<Base>, first: nat, n: nat, np: nat, b: nat, kids: seq<Trie>)
    requires KidsOk(rs, base, first, n, np, b, first + n, kids)
    ensures SumCells(kids) + 4 * Distinct(base, np, b, first, n) <= 4 * n
  {}

  lemma VectorsFit(rs: seq<Route>, base: seq<Base>, pre: seq<Pre>, table: seq<Route>)
    requires Vectors(rs, base, pre, table)
    ensures |base| < ADR_LIMIT && SortedPrefixFree(base) && BaseVector(rs, base)
  {}

  /** A single base is the whole range. */
  lemma OneBase(rs: seq<Route>, base: seq<Base>, first: nat, pos: nat)
    requires first < |base|
    ensures Delivers(rs, base, first, 1, Leaf(first), pos)
  {}

  /** computeBranch opens a range the slot loop can work on, with room for it. */
  lemma BranchRange(rs: seq<Route>, base: seq<Base>, pre: seq<Pre>, table: seq<Route>,
                    prefix: nat, first: nat, n: nat, branch: nat, newprefix: nat)
    requires Vectors(rs, base, pre, table) && BranchOk(base, prefix, first, n, branch, newprefix)
    ensures first + n <= |base| && NodeRange(rs, base, first, n, newprefix, branch)
    ensures 1 <= branch < 32 && prefix <= newprefix < 32
    ensures !Agree(base[first].str, base[first + n - 1].str, newprefix + 1)
    ensures Pow2(branch) + 4 * n <= Need(prefix, first, n) + 4 * Distinct(base, newprefix, branch, first, n)
    ensures Distinct(base, newprefix, branch, first, n) <= n
  {
    hide Distinct, Agree, Slot;
    EndsDiffer(base, first, n, newprefix, branch);
    Pow2At32();
    DistinctGap(base, newprefix, branch, first, 0, n);
    assert Distinct(base, newprefix, branch, first, 0) == 0 by { DistinctNone(base, newprefix, branch, first); }
  }

  lemma DistinctNone(base: seq<Base>, np: nat, b: nat, first: nat)
    requires first <= |base| && b <= 32
    ensures Distinct(base, np, b, first, 0) == 0
  {}

  lemma LaidNode(cells: seq<Word>, cell: nat, lo: nat, t: Trie)
    requires t.Node? && 1 <= t.branch < 32 && |t.kids| == Pow2(t.branch)
    requires cell < |cells| && lo + Cells(t) <= |cells|
    requires GetAdr(cells[cell]) == lo && GetBranch(cells[cell]) == t.branch && GetSkip(cells[cell]) == t.skip
    requires KidsLaid(cells, lo, |t.kids|, t.kids)
    ensures Laid(cells, cell, lo, t)
  {}
}
