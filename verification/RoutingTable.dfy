/** buildRoutingTable and Find: the packed trie answers longest-prefix match (the longest
    match rule, section 5.1 of RFC 4632). */
module RoutingTable {
  import opened Bits
  import opened Nets
  import opened Prefixes
  import opened Packing
  import opened Layout
  import opened Delivery
  import opened Branching
  import opened Builder

  datatype Table = Table(trie: seq<Word>, base: seq<Base>, pre: seq<Pre>)

  const MAX_BASES: nat := 967231

  /** What the build leaves behind for the proof of the search. */
  datatype Witness = Witness(kept: seq<Route>, table: seq<Route>, root: Trie)

  ghost predicate BuiltWith(t: Table, all: seq<Route>, w: Witness) {
    && AllCanonical(w.kept) && Deduplicates(all, w.kept)
    && Split(w.kept, t.base, t.pre, w.table)
    && Laid(t.trie, 0, 1, w.root) && |t.trie| == 1 + Cells(w.root)
    && t.base != [] && Delivers(w.kept, t.base, 0, |t.base|, w.root, 0)
  }

  ghost predicate BuiltFrom(t: Table, all: seq<Route>) {
    exists w :: BuiltWith(t, all, w)
  }

  // ---- how many bases there will be ----

  ghost predicate CoversAnother(all: seq<Route>, q: Net) {
    exists r :: r in all && ProperlyCovers(q, r.net)
  }

  /** The networks that cover no other network of the set: each becomes one base. */
  ghost function Innermost(all: seq<Route>): set<Net> {
    set r | r in all && !CoversAnother(all, r.net) :: r.net
  }

  ghost function BaseNets(base: seq<Base>): set<Net> {
    set k | 0 <= k < |base| :: base[k].AsNet()
  }

  lemma {:induction false} BaseNetsCount(base: seq<Base>)
    requires SortedPrefixFree(base)
    ensures |BaseNets(base)| == |base|
  {
    if base != [] {
      var rest, last := base[..|base| - 1], base[|base| - 1];
      BaseNetsCount(rest);
      assert BaseNets(base) == BaseNets(rest) + {last.AsNet()} by {
        assert forall k :: 0 <= k < |rest| ==> base[k] == rest[k];
      }
      assert last.AsNet() !in BaseNets(rest);
    }
  }

  lemma BaseIsInnermost(all: seq<Route>, kept: seq<Route>, base: seq<Base>, pre: seq<Pre>, table: seq<Route>, k: nat)
    requires Deduplicates(all, kept) && Split(kept, base, pre, table) && AllCanonical(kept) && k < |base|
    ensures base[k].AsNet() in Innermost(all)
  {
    var q := base[k].AsNet();
    assert base[k].AsRoute() in kept && base[k].AsRoute() in all;
    if CoversAnother(all, q) {
      var r :| r in all && ProperlyCovers(q, r.net);
      var j :| 0 <= j < |kept| && kept[j].net == r.net;
      assert kept[j] in kept && UnderSomeBase(base, kept[j].net);
      var y :| 0 <= y < |base| && Covers(kept[j].net, base[y].AsNet());
      CoversTrans(q, r.net, base[y].AsNet());
      SameBase(base, k, y);
      assert Canonical(kept[j].net);
      BasePairSame(kept, base, k, kept[j].net);
    }
  }

  lemma BasePairSame(kept: seq<Route>, base: seq<Base>, k: nat, r: Net)
    requires k < |base| && base[k].AsRoute() in kept && AllCanonical(kept) && Canonical(r)
    requires Covers(base[k].AsNet(), r) && Covers(r, base[k].AsNet())
    ensures r == base[k].AsNet()
  {
    var i :| 0 <= i < |kept| && kept[i] == base[k].AsRoute();
    CanonicalSame(r, kept[i].net);
  }

  lemma BaseCount(all: seq<Route>, kept: seq<Route>, base: seq<Base>, pre: seq<Pre>, table: seq<Route>)
    requires Deduplicates(all, kept) && Split(kept, base, pre, table) && AllCanonical(kept)
    ensures |base| == |Innermost(all)|
  {
    BaseNetsCount(base);
    hide Split, Deduplicates, Innermost, AllCanonical;
    forall q | q in BaseNets(base) ensures q in Innermost(all) {
      var k :| 0 <= k < |base| && q == base[k].AsNet();
      BaseIsInnermost(all, kept, base, pre, table, k);
    }
    forall q | q in Innermost(all) ensures q in BaseNets(base) {
      InnermostIsBase(all, kept, base, pre, table, q);
    }
    assert BaseNets(base) == Innermost(all);
  }

  lemma InnermostIsBase(all: seq<Route>, kept: seq<Route>, base: seq<Base>, pre: seq<Pre>, table: seq<Route>, q: Net)
    requires Deduplicates(all, kept) && Split(kept, base, pre, table) && q in Innermost(all)
    ensures q in BaseNets(base)
  {
    var r :| r in all && r.net == q && !CoversAnother(all, r.net);
    var j :| 0 <= j < |kept| && kept[j].net == r.net;
    assert kept[j] in kept && UnderSomeBase(base, kept[j].net);
    var y :| 0 <= y < |base| && Covers(q, base[y].AsNet());
    assert base[y].AsRoute() in kept && base[y].AsRoute() in all;
    assert !ProperlyCovers(q, base[y].AsRoute().net);
  }

  // ---- the build ----

  lemma KeptCanonical(all: seq<Route>, kept: seq<Route>)
    requires AllCanonical(all) && Deduplicates(all, kept)
    ensures AllCanonical(kept)
  {
    forall i | 0 <= i < |kept| ensures Canonical(kept[i].net) {
      assert kept[i] in kept;
    }
  }

  /** Sorting permutes the routes, so what deduplicates the sorted set deduplicates the given one. */
  lemma PermutedRoutes(a: seq<Entry>, b: seq<Entry>)
    requires multiset(a) == multiset(b)
    ensures forall r :: r in Routes(a) <==> r in Routes(b)
  {
    forall r | r in Routes(a) ensures r in Routes(b) { PermutedRoute(a, b, r); }
    forall r | r in Routes(b) ensures r in Routes(a) { PermutedRoute(b, a, r); }
  }

  lemma PermutedRoute(a: seq<Entry>, b: seq<Entry>, r: Route)
    requires multiset(a) == multiset(b) && r in Routes(a)
    ensures r in Routes(b)
  {
    var i :| 0 <= i < |a| && Routes(a)[i] == r;
    assert a[i] in multiset(a);
    assert a[i] in b;
    var j :| 0 <= j < |b| && b[j] == a[i];
    assert Routes(b)[j] == r;
  }

  lemma DeduplicatesSet(a: seq<Route>, b: seq<Route>, kept: seq<Route>)
    requires Deduplicates(b, kept) && forall r :: r in a <==> r in b
    ensures Deduplicates(a, kept)
  {}

  /** The split is what the trie builder needs. */
  lemma SplitVectors(kept: seq<Route>, base: seq<Base>, pre: seq<Pre>, table: seq<Route>)
    requires AllCanonical(kept) && Split(kept, base, pre, table) && 0 < |base| <= MAX_BASES
    ensures Vectors(kept, base, pre, table) && SharePrefix(base, 0, |base|, 0)
    ensures 1 + Need(0, 0, |base|) <= ADR_LIMIT
    ensures 1 + Need(0, 0, |base|) <= 2 * |kept| + 2000000
  {
    forall k | 0 <= k < |base| ensures base[k].len <= 32 {
      assert base[k].AsRoute() in kept;
      var i :| 0 <= i < |kept| && kept[i] == base[k].AsRoute();
      assert Canonical(kept[i].net);
    }
    forall x | 0 <= x < |base| ensures Agree(base[0].str, base[x].str, 0) {
      AgreeNone(base[0].str, base[x].str);
    }
  }

  lemma AgreeNone(s: Word, t: Word)
    ensures Agree(s, t, 0)
  {
    AgreeIs(s, t, 0);
    TopZero(s);
    TopZero(t);
  }

  /** Sort, remove duplicates, split. */
  method Prepare(entries: array<Entry>)
    returns (size: nat, base: seq<Base>, pre: seq<Pre>, ghost kept: seq<Route>, ghost table: seq<Route>)
    requires entries.Length > 0 && forall k :: 0 <= k < entries.Length ==> entries[k].len <= 32
    modifies entries
    ensures Deduplicates(Routes(old(entries[..])), kept) && |kept| == size
    ensures 0 < size <= entries.Length && base == Parted(kept, |kept|).base && pre == Parted(kept, |kept|).pre
    ensures Regular(kept) ==> base != [] && Split(kept, base, pre, table)
  {
    hide Deduplicates, Parted, Routes, Sorted, Regular, Split, FitLens;
    ghost var given := entries[..];
    ghost var all := Routes(given);
    assert FitLens(all) by { LensGiven(given); }
    SortEntries(entries);
    ghost var sorted := entries[..];
    size := RemoveDuplicates(entries);
    ghost var es := entries[..size];
    kept := Routes(es);
    assert Deduplicates(all, kept) by {
      PermutedRoutes(given, sorted);
      DeduplicatesSet(all, Routes(sorted), kept);
    }
    LensKept(all, kept);
    LensOfEntries(es, kept);
    assert forall k :: 0 <= k < size ==> entries[k] == es[k];
    base, pre, table := SplitPrefixes(entries, size);
  }

  ghost predicate FitLens(rs: seq<Route>) { forall r :: r in rs ==> r.net.len <= 32 }

  lemma LensGiven(es: seq<Entry>)
    requires forall k :: 0 <= k < |es| ==> es[k].len <= 32
    ensures FitLens(Routes(es))
  {}

  lemma LensKept(all: seq<Route>, kept: seq<Route>)
    requires Deduplicates(all, kept) && FitLens(all)
    ensures FitLens(kept)
  {}

  lemma {:induction false} LensOfEntries(es: seq<Entry>, rs: seq<Route>)
    requires rs == Routes(es) && FitLens(rs)
    ensures |rs| == |es| && forall k :: 0 <= k < |es| ==> es[k].len <= 32
  {
    forall k | 0 <= k < |es| ensures es[k].len <= 32 {
      EntryRoute(es, k);
      assert rs[k] in rs;
    }
  }

  method BuildRoutingTable(entries: array<Entry>) returns (t: Table)
    requires entries.Length > 0 && AllCanonical(Routes(entries[..]))
    requires |Innermost(Routes(entries[..]))| <= MAX_BASES
    modifies entries
    ensures BuiltFrom(t, old(Routes(entries[..])))
    ensures |t.base| == |Innermost(old(Routes(entries[..])))|
    ensures |t.trie| <= 65537 + 4 * |t.base|
  {
    hide AllCanonical, Deduplicates, Split, Vectors, SharePrefix, Delivers, Laid, Routes, Innermost, Sorted, OnlyWrote, Regular, Parted;
    ghost var all := Routes(entries[..]);
    CanonicalLens(entries[..], all);
    var size, base, pre;
    ghost var kept, table;
    size, base, pre, kept, table := Prepare(entries);
    KeptCanonical(all, kept);
    KeptRegular(all, kept);
    BaseCount(all, kept, base, pre, table);
    SplitVectors(kept, base, pre, table);
    var tree := new Word[2 * size + 2000000];
    var nextfree;
    ghost var root;
    nextfree, root := BuildTrie(base, pre, 0, 0, |base|, 0, 1, tree, kept, table);
    t := Table(tree[..nextfree], base, pre);
    LaidPrefix(tree[..], nextfree, 0, 1, root);
    assert BuiltWith(t, all, Witness(kept, table, root));
  }

  lemma {:induction false} CanonicalLens(es: seq<Entry>, rs: seq<Route>)
    requires rs == Routes(es) && AllCanonical(rs)
    ensures forall k :: 0 <= k < |es| ==> es[k].len <= 32
  {
    hide Routes;
    forall k | 0 <= k < |es| ensures es[k].len <= 32 {
      EntryRoute(es, k);
      assert rs[k] in rs;
    }
  }

  lemma KeptRegular(all: seq<Route>, kept: seq<Route>)
    requires Deduplicates(all, kept) && AllCanonical(kept)
    ensures Regular(kept)
  {}

  /** Cutting off the unused tail of the array leaves the trie in place. */
  lemma {:induction false} LaidPrefix(cells: seq<Word>, n: nat, cell: nat, lo: nat, t: Trie)
    requires Laid(cells, cell, lo, t) && cell < n <= |cells| && lo + Cells(t) <= n
    ensures Laid(cells[..n], cell, lo, t)
    decreases t
  {
    hide GetAdr, GetBranch, GetSkip, Pow2, SumCells;
    if t.Node? {
      forall i | 0 <= i < |t.kids| ensures Laid(cells[..n], lo + i, KidBlock(lo, |t.kids|, t.kids, i), t.kids[i]) {
        SumCellsUpto(t.kids, i);
        assert Laid(cells, lo + i, KidBlock(lo, |t.kids|, t.kids, i), t.kids[i]);
        LaidPrefix(cells, n, lo + i, KidBlock(lo, |t.kids|, t.kids, i), t.kids[i]);
      }
    }
  }

  // ---- the search ----

  lemma {:induction false} BestExists(rs: seq<Route>, s: Word)
    requires exists r :: r in rs && Matches(r.net, s)
    ensures exists q :: IsBest(rs, q, s)
  {
    var rest, last := rs[..|rs| - 1], rs[|rs| - 1];
    assert rs == rest + [last];
    if exists r :: r in rest && Matches(r.net, s) {
      BestExists(rest, s);
      var q :| IsBest(rest, q, s);
      var q' := if Matches(last.net, s) && last.net.len > q.len then last.net else q;
      assert IsBest(rs, q', s);
    } else {
      assert IsBest(rs, last.net, s);
    }
  }

  /** What remains to be tried: the routes that match s are at or behind `link` on base x's chain. */
  ghost predicate Remaining(kept: seq<Route>, base: seq<Base>, table: seq<Route>, x: nat, s: Word, link: int)
    requires x < |base|
  {
    && NOPRE <= link < |table|
    && (link != NOPRE ==> ProperlyCovers(table[link].net, base[x].AsNet()))
    && (forall r :: r in kept && Matches(r.net, s) ==>
          ProperlyCovers(r.net, base[x].AsNet()) && link != NOPRE && r.net.len <= table[link].net.len)
  }

  /** Every match is a cover of the base the walk ended at. */
  lemma MatchesCoverBase(kept: seq<Route>, base: seq<Base>, x: nat, s: Word, r: Route)
    requires x < |base| && DeliversFor(kept, base, 0, |base|, s, x)
    requires forall r :: r in kept ==> UnderSomeBase(base, r.net)
    requires r in kept && Matches(r.net, s)
    ensures Covers(r.net, base[x].AsNet())
  {
    BestExists(kept, s);
    var q :| IsBest(kept, q, s);
    var b :| b in kept && b.net == q;
    assert UnderSomeBase(base, b.net) && Touches(base, 0, |base|, q);
    MatchesNested(r.net, q, s);
    CoversTrans(r.net, q, base[x].AsNet());
  }

  lemma StartChain(kept: seq<Route>, base: seq<Base>, pre: seq<Pre>, table: seq<Route>, x: nat, s: Word)
    requires Split(kept, base, pre, table) && x < |base| && DeliversFor(kept, base, 0, |base|, s, x)
    requires !Matches(base[x].AsNet(), s)
    ensures Remaining(kept, base, table, x, s, base[x].pre)
  {
    hide DeliversFor, Covers;
    assert Linked(kept, table, base[x].AsNet(), base[x].pre);
    forall r | r in kept && Matches(r.net, s) ensures ProperlyCovers(r.net, base[x].AsNet()) {
      MatchesCoverBase(kept, base, x, s, r);
    }
  }

  lemma NextChain(kept: seq<Route>, base: seq<Base>, pre: seq<Pre>, table: seq<Route>, x: nat, s: Word, link: nat)
    requires AllCanonical(kept) && PresOk(kept, pre, table) && x < |base| && link < |pre|
    requires Remaining(kept, base, table, x, s, link) && !Matches(table[link].net, s)
    ensures NOPRE <= pre[link].pre < link && Remaining(kept, base, table, x, s, pre[link].pre)
  {
    hide Matches, Covers;
    var e := base[x].AsNet();
    ChainNext(kept, pre, table, e, link);
    forall r | r in kept && Matches(r.net, s)
      ensures pre[link].pre != NOPRE && r.net.len <= table[pre[link].pre].net.len
    {
      if r.net.len == table[link].net.len { ChainSame(kept, pre, table, e, link, r); }
      ChainStep(kept, pre, table, e, link, r);
    }
  }

  /** EXTRACT8(0, len, base.str ^ s) == 0 tests the first len bits. */
  lemma MaskTest(str: Word, s: Word, len: nat)
    requires len <= 32
    ensures Xor(str, s) < WORD
    ensures Extract(0, len, Xor(str, s)) == 0 <==> Agree(str, s, len)
  {
    Pow2At32();
    XorBound(str, s, 32);
    XorHigh(str, s, 32 - len);
    ExtractFromStart(len, Xor(str, s));
  }

  /** The answer of longest-prefix match over all routes. */
  ghost predicate LongestMatchAnswer(all: seq<Route>, s: Word, nexthop: nat, found: bool) {
    && (found <==> exists r :: r in all && Matches(r.net, s))
    && (found ==> exists r :: r in all && r.hop == nexthop && IsBest(all, r.net, s))
    && (!found ==> nexthop == 0)
  }

  lemma AnswerFound(all: seq<Route>, kept: seq<Route>, s: Word, r: Route)
    requires Deduplicates(all, kept) && r in kept && IsBest(kept, r.net, s)
    ensures LongestMatchAnswer(all, s, r.hop, true)
  {
    hide Matches;
    assert r in all;
    forall r' | r' in all && Matches(r'.net, s) ensures r'.net.len <= r.net.len {
      var k :| 0 <= k < |kept| && kept[k].net == r'.net;
      assert kept[k] in kept;
    }
    assert Matches(r.net, s);
    assert IsBest(all, r.net, s);
  }

  lemma AnswerNone(all: seq<Route>, kept: seq<Route>, s: Word)
    requires Deduplicates(all, kept) && forall r :: r in kept ==> !Matches(r.net, s)
    ensures LongestMatchAnswer(all, s, 0, false)
  {
    hide Matches;
    forall r | r in all ensures !Matches(r.net, s) {
      var k :| 0 <= k < |kept| && kept[k].net == r.net;
      assert kept[k] in kept;
    }
  }

  /** The trie walk: no skipped bit is looked at, the array is never left, and it ends at the
      base the trie names for s. */
  method WalkTrie(t: Table, s: Word, ghost root: Trie) returns (adr: nat)
    requires Laid(t.trie, 0, 1, root)
    ensures adr == Walk(root, 0, s)
  {
    hide Extract, Pow2, SumCells, Cells, KidBlock, GetAdr, GetBranch, GetSkip;
    var node := t.trie[0];
    var pos: nat := GetSkip(node);
    var branch := GetBranch(node);
    adr := GetAdr(node);
    ghost var cell: nat, lo: nat, at, from: nat := 0, 1, root, 0;
    while branch != 0
      invariant Laid(t.trie, cell, lo, at) && node == t.trie[cell]
      invariant branch == GetBranch(node) && adr == GetAdr(node) && pos == from + GetSkip(node)
      invariant Walk(at, from, s) == Walk(root, 0, s)
      decreases at
    {
      ghost var c := Extract(pos, branch, s);
      assert at.Node?;
      assert c < Pow2(branch) by { ExtractBound(pos, branch, s); }
      assert Laid(t.trie, lo + c, KidBlock(lo, |at.kids|, at.kids, c), at.kids[c]);
      node := t.trie[adr + Extract(pos, branch, s)];
      cell, lo, from, at := lo + c, KidBlock(lo, |at.kids|, at.kids, c), pos + branch, at.kids[c];
      pos := pos + branch + GetSkip(node);
      branch := GetBranch(node);
      adr := GetAdr(node);
    }
  }

  lemma ExtractBound(p: nat, n: nat, s: Word)
    requires n <= 32
    ensures Extract(p, n, s) < Pow2(n)
  {
    AgreeExtract(s, s, p, n);
  }

  // ---- what a search gives, whatever the table was built from ----

  /** Every link leads to an earlier place in the prefix table, and lengths are those of IPv4. */
  ghost predicate Sane(t: Table) {
    && (forall k :: 0 <= k < |t.base| ==> t.base[k].len <= 32 && NOPRE <= t.base[k].pre < |t.pre|)
    && (forall k :: 0 <= k < |t.pre| ==> t.pre[k].len <= 32 && NOPRE <= t.pre[k].pre < k)
  }

  /** The trie lies in the array and leads s to a base. */
  ghost predicate Searchable(t: Table, root: Trie, s: Word) {
    Sane(t) && Laid(t.trie, 0, 1, root) && Walk(root, 0, s) < |t.base|
  }

  datatype Answer = Answer(nexthop: nat, found: bool)

  /** The first link from `link` on whose length of str agrees with s. */
  ghost function ChainAnswer(t: Table, str: Word, s: Word, link: int): Answer
    requires Sane(t) && NOPRE <= link < |t.pre|
    decreases link + 1
  {
    if link == NOPRE then Answer(0, false)
    else if Agree(str, s, t.pre[link].len) then Answer(t.pre[link].nexthop, true)
    else ChainAnswer(t, str, s, t.pre[link].pre)
  }

  /** One comparison with the base the walk ends at, then its chain. */
  ghost function Lookup(t: Table, root: Trie, s: Word): Answer
    requires Searchable(t, root, s)
  {
    var x := t.base[Walk(root, 0, s)];
    if Agree(x.str, s, x.len) then Answer(x.nexthop, true) else ChainAnswer(t, x.str, s, x.pre)
  }

  method Search(t: Table, s: Word, ghost root: Trie) returns (nexthop: nat, found: bool)
    requires Searchable(t, root, s)
    ensures Answer(nexthop, found) == Lookup(t, root, s)
  {
    hide Laid, Extract, Agree, Xor, Walk;
    var adr := WalkTrie(t, s, root);
    MaskTest(t.base[adr].str, s, t.base[adr].len);
    var bitmask := Xor(t.base[adr].str, s);
    if Extract(0, t.base[adr].len, bitmask) == 0 {
      return t.base[adr].nexthop, true;
    }
    var preadr := t.base[adr].pre;
    while preadr != NOPRE
      invariant NOPRE <= preadr < |t.pre|
      invariant ChainAnswer(t, t.base[adr].str, s, preadr) == Lookup(t, root, s)
      decreases preadr
    {
      MaskTest(t.base[adr].str, s, t.pre[preadr].len);
      if Extract(0, t.pre[preadr].len, bitmask) == 0 {
        return t.pre[preadr].nexthop, true;
      }
      preadr := t.pre[preadr].pre;
    }
    return 0, false;
  }

  method Find(t: Table, s: Word, ghost all: seq<Route>) returns (nexthop: nat, found: bool)
    requires BuiltFrom(t, all)
    ensures LongestMatchAnswer(all, s, nexthop, found)
  {
    ghost var w :| BuiltWith(t, all, w);
    BuiltSearchable(t, all, w, s);
    LookupIsLongestMatch(t, all, w, s);
    hide *;
    nexthop, found := Search(t, s, w.root);
  }

  lemma BuiltSearchable(t: Table, all: seq<Route>, w: Witness, s: Word)
    requires BuiltWith(t, all, w)
    ensures Searchable(t, w.root, s)
  {
    hide Laid, Deduplicates, SortedPrefixFree, UnderSomeBase, IsBase, IsBest, Agree;
    assert DeliversFor(w.kept, t.base, 0, |t.base|, s, Walk(w.root, 0, s));
    forall k | 0 <= k < |t.base| ensures t.base[k].len <= 32 && NOPRE <= t.base[k].pre < |t.pre| {
      assert t.base[k].AsRoute() in w.kept && Canonical(t.base[k].AsNet());
      assert Linked(w.kept, w.table, t.base[k].AsNet(), t.base[k].pre);
    }
    forall k | 0 <= k < |t.pre| ensures t.pre[k].len <= 32 && NOPRE <= t.pre[k].pre < k {
      assert w.table[k] in w.kept && Canonical(w.table[k].net);
      assert Linked(w.kept, w.table, w.table[k].net, t.pre[k].pre);
    }
  }

  /** What the search gives on a table built from a route set is a longest-match answer. */
  lemma LookupIsLongestMatch(t: Table, all: seq<Route>, w: Witness, s: Word)
    requires BuiltWith(t, all, w) && Searchable(t, w.root, s)
    ensures var r := Lookup(t, w.root, s); LongestMatchAnswer(all, s, r.nexthop, r.found)
  {
    hide Laid, Deduplicates, Extract, IsBest, Agree, Linked, SortedPrefixFree, UnderSomeBase, IsBase, ProperlyCovers, LongestMatchAnswer;
    var kept, table := w.kept, w.table;
    var adr := Walk(w.root, 0, s);
    assert DeliversFor(kept, t.base, 0, |t.base|, s, adr);
    var b := t.base[adr].AsRoute();
    assert b in kept && Canonical(b.net);
    if Agree(t.base[adr].str, s, t.base[adr].len) {
      BaseIsBest(kept, t.base, t.pre, table, adr, s);
      AnswerFound(all, kept, s, b);
    } else {
      StartChain(kept, t.base, t.pre, table, adr, s);
      hide Split, DeliversFor, Searchable, Walk;
      ChainIsLongestMatch(t, all, kept, table, adr, s, t.base[adr].pre);
    }
  }

  lemma {:induction false} ChainIsLongestMatch(t: Table, all: seq<Route>, kept: seq<Route>, table: seq<Route>, adr: nat, s: Word, link: int)
    requires Sane(t) && AllCanonical(kept) && Deduplicates(all, kept) && PresOk(kept, t.pre, table) && adr < |t.base|
    requires Remaining(kept, t.base, table, adr, s, link)
    ensures NOPRE <= link < |t.pre|
    ensures var r := ChainAnswer(t, t.base[adr].str, s, link); LongestMatchAnswer(all, s, r.nexthop, r.found)
    decreases link + 1
  {
    hide Deduplicates, IsBest, Agree, Linked, ProperlyCovers, LongestMatchAnswer;
    if link == NOPRE {
      AnswerNone(all, kept, s);
    } else {
      var r := table[link];
      assert r in kept && Canonical(r.net) && t.pre[link].len == r.net.len && t.pre[link].nexthop == r.hop;
      LinkTest(r.net, t.base[adr].AsNet(), s);
      if Agree(t.base[adr].str, s, t.pre[link].len) {
        LinkIsBest(kept, t.base, table, adr, s, link);
        AnswerFound(all, kept, s, r);
      } else {
        NextChain(kept, t.base, t.pre, table, adr, s, link);
        hide Remaining, AllCanonical, PresOk, Matches;
        ChainIsLongestMatch(t, all, kept, table, adr, s, t.pre[link].pre);
      }
    }
  }

  lemma LinkTest(r: Net, e: Net, s: Word)
    requires ProperlyCovers(r, e)
    ensures Agree(e.data, s, r.len) <==> Matches(r, s)
  {}

  lemma BaseIsBest(kept: seq<Route>, base: seq<Base>, pre: seq<Pre>, table: seq<Route>, x: nat, s: Word)
    requires Split(kept, base, pre, table) && x < |base| && DeliversFor(kept, base, 0, |base|, s, x)
    requires Matches(base[x].AsNet(), s)
    ensures IsBest(kept, base[x].AsNet(), s)
  {
    hide DeliversFor, Matches;
    assert base[x].AsRoute() in kept;
    forall r | r in kept && Matches(r.net, s) ensures r.net.len <= base[x].len {
      MatchesCoverBase(kept, base, x, s, r);
    }
  }

  lemma LinkIsBest(kept: seq<Route>, base: seq<Base>, table: seq<Route>, x: nat, s: Word, link: nat)
    requires x < |base| && Remaining(kept, base, table, x, s, link)
    requires table[link] in kept && Matches(table[link].net, s)
    ensures IsBest(kept, table[link].net, s)
  {}

  /** Where equal networks carry equal hops, the answer is the hop of the longest match. */
  lemma AnswerUnique(all: seq<Route>, s: Word, nexthop: nat, found: bool, r: Route)
    requires LongestMatchAnswer(all, s, nexthop, found) && AllCanonical(all)
    requires forall a, b :: a in all && b in all && a.net == b.net ==> a.hop == b.hop
    requires r in all && IsBest(all, r.net, s)
    ensures found && nexthop == r.hop
  {
    assert Matches(r.net, s);
    var r' :| r' in all && r'.hop == nexthop && IsBest(all, r'.net, s);
    assert Canonical(r.net) && Canonical(r'.net);
    MatchesNested(r.net, r'.net, s);
    CanonicalSame(r.net, r'.net);
  }
}
