/** The first half of buildRoutingTable: sort, remove duplicates, and split the
    entries into a prefix-free base vector and a linked table of prefixes. */
module Prefixes {
  import opened Bits
  import opened Nets

  const NOPRE := -1

  datatype Entry = Entry(data: Word, pre: int, nexthop: nat, len: nat) {
    function AsNet(): Net { Net(data, len) }
    function AsRoute(): Route { Route(AsNet(), nexthop) }
  }

  datatype Base = Base(str: Word, pre: int, nexthop: nat, len: nat) {
    function AsNet(): Net { Net(str, len) }
    function AsRoute(): Route { Route(AsNet(), nexthop) }
  }

  datatype Pre = Pre(pre: int, nexthop: nat, len: nat)

  /** What an entry says, without the link used during construction. */
  datatype Route = Route(net: Net, hop: nat)

  // ---- entry comparison ----

  predicate IsPrefix(prev: Entry, next: Entry)
    requires prev.len <= 32
  {
    prev.len <= next.len && Extract(0, prev.len, prev.data) == Extract(0, prev.len, next.data)
  }

  lemma IsPrefixCovers(prev: Entry, next: Entry)
    requires prev.len <= 32
    ensures IsPrefix(prev, next) <==> Covers(prev.AsNet(), next.AsNet())
  {
    ExtractFromStart(prev.len, prev.data);
    ExtractFromStart(prev.len, next.data);
  }

  function Compare(a: Entry, b: Entry): int {
    if a.data < b.data then -1
    else if a.data > b.data then 1
    else if a.len < b.len then -1
    else if a.len > b.len then 1
    else 0
  }

  predicate Sorted(es: seq<Entry>) {
    forall i, j :: 0 <= i < j < |es| ==> Compare(es[i], es[j]) <= 0
  }

  predicate StrictlySorted(rs: seq<Route>) {
    forall i, j :: 0 <= i < j < |rs| ==> Before(rs[i].net, rs[j].net)
  }

  predicate AllCanonical(rs: seq<Route>) {
    forall i :: 0 <= i < |rs| ==> Canonical(rs[i].net)
  }

  function Routes(es: seq<Entry>): (rs: seq<Route>)
    ensures |rs| == |es|
    ensures forall i :: 0 <= i < |es| ==> rs[i] == es[i].AsRoute()
  {
    if es == [] then [] else Routes(es[..|es| - 1]) + [es[|es| - 1].AsRoute()]
  }

  // ---- sorting ----

  function Insert(e: Entry, es: seq<Entry>): (r: seq<Entry>)
    ensures |r| == |es| + 1
  {
    if es == [] then [e]
    else if Compare(e, es[0]) <= 0 then [e] + es
    else [es[0]] + Insert(e, es[1..])
  }

  lemma {:induction false} InsertPermutes(e: Entry, es: seq<Entry>)
    ensures multiset(Insert(e, es)) == multiset(es) + multiset{e}
  {
    if es != [] {
      assert es == [es[0]] + es[1..];
      InsertPermutes(e, es[1..]);
    }
  }

  lemma {:induction false} InsertSorts(e: Entry, es: seq<Entry>)
    requires Sorted(es)
    ensures Sorted(Insert(e, es))
    ensures forall x :: x in Insert(e, es) ==> x == e || x in es
  {
    if es != [] && Compare(e, es[0]) > 0 {
      var rest := Insert(e, es[1..]);
      InsertSorts(e, es[1..]);
      forall j | 0 <= j < |rest| ensures Compare(es[0], rest[j]) <= 0 {
        assert rest[j] in rest;
      }
    }
  }

  /** Stands for sort.Stable: callers may use only that the result is some sorted
      permutation, because Less is `<=` and so fixes no order of equal keys. */
  method SortEntries(entries: array<Entry>)
    modifies entries
    ensures Sorted(entries[..])
    ensures multiset(entries[..]) == old(multiset(entries[..]))
  {
    var done: seq<Entry> := [];
    for i := 0 to entries.Length
      invariant entries[..] == old(entries[..])
      invariant Sorted(done) && |done| == i
      invariant multiset(done) == multiset(entries[..i])
    {
      assert entries[..i + 1] == entries[..i] + [entries[i]];
      InsertPermutes(entries[i], done);
      InsertSorts(entries[i], done);
      done := Insert(entries[i], done);
    }
    assert entries[..entries.Length] == entries[..];
    forall i | 0 <= i < entries.Length { entries[i] := done[i]; }
    assert entries[..] == done;
  }

  // ---- duplicate removal ----

  /** `kept` holds each network of `all` once, with the hop of one of its entries. */
  ghost predicate Deduplicates(all: seq<Route>, kept: seq<Route>) {
    && StrictlySorted(kept)
    && (forall r :: r in kept ==> r in all)
    && (forall r :: r in all ==> exists k :: 0 <= k < |kept| && kept[k].net == r.net)
  }

  /** `kept` is what remains of all[..i]: slot k was entry from[k], entry j is kept in slot at[j]. */
  ghost predicate Kept(all: seq<Entry>, i: nat, kept: seq<Entry>, from: seq<nat>, at: seq<nat>) {
    && 0 < i <= |all| && kept != []
    && |from| == |kept| && |at| == i
    && (forall k {:trigger from[k]} :: 0 <= k < |kept| ==> from[k] < |all| && kept[k] == all[from[k]])
    && (forall j {:trigger at[j]} :: 0 <= j < i ==> at[j] < |kept| && kept[at[j]].AsNet() == all[j].AsNet())
    && (forall j, k :: 0 <= j < k < |kept| ==> Before(kept[j].AsNet(), kept[k].AsNet()))
    && kept[|kept| - 1].AsNet() == all[i - 1].AsNet()
  }

  lemma KeptFirst(all: seq<Entry>)
    requires all != []
    ensures Kept(all, 1, [all[0]], [0], [0])
  {}

  lemma KeptGrows(all: seq<Entry>, i: nat, kept: seq<Entry>, from: seq<nat>, at: seq<nat>)
    requires Sorted(all) && i < |all| && Kept(all, i, kept, from, at) && Compare(all[i - 1], all[i]) != 0
    ensures Kept(all, i + 1, kept + [all[i]], from + [i], at + [|kept|])
  {
    assert Before(all[i - 1].AsNet(), all[i].AsNet());
    forall j | 0 <= j < |kept| ensures Before(kept[j].AsNet(), all[i].AsNet()) {
      if j < |kept| - 1 { assert Before(kept[j].AsNet(), kept[|kept| - 1].AsNet()); }
    }
  }

  lemma KeptSame(all: seq<Entry>, i: nat, kept: seq<Entry>, from: seq<nat>, at: seq<nat>)
    requires i < |all| && Kept(all, i, kept, from, at) && Compare(all[i - 1], all[i]) == 0
    ensures Kept(all, i + 1, kept, from, at + [|kept| - 1])
  {}

  lemma KeptAll(all: seq<Entry>, kept: seq<Entry>, from: seq<nat>, at: seq<nat>)
    requires Kept(all, |all|, kept, from, at)
    ensures Deduplicates(Routes(all), Routes(kept))
  {
    var rs := Routes(kept);
    forall r | r in rs ensures r in Routes(all) {
      var k :| 0 <= k < |rs| && rs[k] == r;
      assert r == Routes(all)[from[k]];
    }
    forall r | r in Routes(all) ensures exists k :: 0 <= k < |rs| && rs[k].net == r.net {
      var j :| 0 <= j < |all| && Routes(all)[j] == r;
      assert rs[at[j]].net == r.net;
    }
  }

  method RemoveDuplicates(entries: array<Entry>) returns (size: nat)
    requires entries.Length > 0 && Sorted(entries[..])
    modifies entries
    ensures 0 < size <= entries.Length
    ensures Deduplicates(Routes(old(entries[..])), Routes(entries[..size]))
  {
    hide Kept, Deduplicates, Routes;
    ghost var all := entries[..];
    KeptFirst(all);
    ghost var kept, from: seq<nat>, at: seq<nat> := [all[0]], [0], [0];
    size := 1;
    for i := 1 to entries.Length
      invariant |kept| == size <= i
      invariant entries[..size] == kept && entries[i - 1..] == all[i - 1..]
      invariant Kept(all, i, kept, from, at)
    {
      assert entries[i - 1] == entries[i - 1..][0] && entries[i] == entries[i - 1..][1];
      if Compare(entries[i - 1], entries[i]) != 0 {
        KeptGrows(all, i, kept, from, at);
        entries[size] := entries[i];
        kept, from, at := kept + [all[i]], from + [i], at + [size];
        size := size + 1;
        assert entries[..size] == kept;
      } else {
        KeptSame(all, i, kept, from, at);
        at := at + [size - 1];
      }
      assert entries[i..] == all[i..];
    }
    KeptAll(all, kept, from, at);
  }

  // ---- the split ----

  /** `link` names the longest entry of `rs` that properly covers e, or NOPRE if none does. */
  ghost predicate Linked(rs: seq<Route>, table: seq<Route>, e: Net, link: int) {
    && NOPRE <= link < |table|
    && (link == NOPRE ==> forall r :: r in rs ==> !ProperlyCovers(r.net, e))
    && (link != NOPRE ==>
          && ProperlyCovers(table[link].net, e)
          && forall r :: r in rs && ProperlyCovers(r.net, e) ==> r.net.len <= table[link].net.len)
  }

  ghost predicate BasesOk(rs: seq<Route>, base: seq<Base>, table: seq<Route>) {
    && (forall k :: 0 <= k < |base| ==> base[k].AsRoute() in rs)
    && (forall k :: 0 <= k < |base| ==> Linked(rs, table, base[k].AsNet(), base[k].pre))
  }

  /** The prefix table against the routes it stands for: hops, lengths, links to earlier slots. */
  ghost predicate PresOk(rs: seq<Route>, pre: seq<Pre>, table: seq<Route>) {
    && |table| == |pre|
    && (forall k :: 0 <= k < |pre| ==> table[k] in rs && pre[k].len == table[k].net.len && pre[k].nexthop == table[k].hop)
    && (forall k :: 0 <= k < |pre| ==> pre[k].pre < k && Linked(rs, table, table[k].net, pre[k].pre))
  }

  ghost predicate SortedPrefixFree(base: seq<Base>) {
    forall j, k :: 0 <= j < k < |base| ==>
      base[j].str < base[k].str && !Covers(base[j].AsNet(), base[k].AsNet()) && !Covers(base[k].AsNet(), base[j].AsNet())
  }

  ghost predicate IsBase(base: seq<Base>, r: Route) {
    exists k :: 0 <= k < |base| && base[k].AsRoute() == r
  }

  ghost predicate UnderSomeBase(base: seq<Base>, q: Net) {
    exists k :: 0 <= k < |base| && Covers(q, base[k].AsNet())
  }

  /** Every route is a base or a prefix, never both; every base and prefix is a route; the
      bases are sorted and prefix-free; each link names the next shorter covering route. */
  ghost predicate Split(rs: seq<Route>, base: seq<Base>, pre: seq<Pre>, table: seq<Route>) {
    && |base| + |pre| == |rs|
    && BasesOk(rs, base, table)
    && PresOk(rs, pre, table)
    && SortedPrefixFree(base)
    && (forall r :: r in rs ==> (IsBase(base, r) <==> r !in table))
    && (forall r :: r in rs ==> UnderSomeBase(base, r.net))
  }

  /** The rest of an entry's proper covers come before it, so a link that is right for the
      entries before i is right for all. */
  lemma LinkedAll(rs: seq<Route>, table: seq<Route>, i: nat, link: int)
    requires i < |rs| && StrictlySorted(rs) && AllCanonical(rs)
    requires Linked(rs[..i], table, rs[i].net, link)
    ensures Linked(rs, table, rs[i].net, link)
  {
    forall r | r in rs && ProperlyCovers(r.net, rs[i].net) ensures r in rs[..i] {
      CoversBefore(r.net, rs[i].net);
      var m :| 0 <= m < |rs| && rs[m] == r;
      assert rs[..i][m] == r;
    }
  }

  /** Covering the next entry decides whether any later entry is covered. */
  lemma CoveredRun(rs: seq<Route>, i: nat, j: nat, k: nat)
    requires StrictlySorted(rs) && AllCanonical(rs) && i < j <= k < |rs|
    requires Covers(rs[i].net, rs[k].net)
    ensures Covers(rs[i].net, rs[j].net)
  {
    if j < k { CoversBetween(rs[i].net, rs[j].net, rs[k].net); }
  }

  /** Entry i, once in the table, is the longest so far of the entries it covers. */
  lemma LinkedNew(rs: seq<Route>, table: seq<Route>, i: nat, j: nat)
    requires StrictlySorted(rs) && AllCanonical(rs) && i < j < |rs|
    requires Covers(rs[i].net, rs[j].net)
    ensures Linked(rs[..i + 1], table + [rs[i]], rs[j].net, |table|)
  {
    forall r | r in rs[..i + 1] && ProperlyCovers(r.net, rs[j].net) ensures r.net.len <= rs[i].net.len {
      var m :| 0 <= m <= i && rs[m] == r;
      if rs[i].net.len < r.net.len {
        MatchesNested(rs[i].net, r.net, rs[j].net.data);
        CoversBefore(rs[i].net, r.net);
      }
    }
  }

  /** An entry that does not cover j leaves j's link as it was. */
  lemma LinkedSkip(rs: seq<Route>, table: seq<Route>, table': seq<Route>, i: nat, j: nat, link: int)
    requires i < j < |rs| && !Covers(rs[i].net, rs[j].net)
    requires table <= table' && Linked(rs[..i], table, rs[j].net, link)
    ensures Linked(rs[..i + 1], table', rs[j].net, link)
  {
    assert rs[..i + 1] == rs[..i] + [rs[i]];
  }

  /** Route j covers the next one, so it goes to the prefix table. */
  predicate CoversNext(rs: seq<Route>, j: nat) {
    j + 1 < |rs| && Covers(rs[j].net, rs[j + 1].net)
  }

  /** Where everything went: route j sits in slot[j] of the table if it covers the next route,
      else of the base vector; bases[k] and pres[k] lead back. */
  datatype Places = Places(slot: seq<nat>, bases: seq<nat>, pres: seq<nat>)

  ghost predicate Placed(rs: seq<Route>, i: nat, base: seq<Base>, table: seq<Route>, at: Places) {
    && i <= |rs| && |at.slot| == i && |at.bases| == |base| && |at.pres| == |table|
    && |base| + |table| == i
    && (forall j {:trigger at.slot[j]} :: 0 <= j < i ==>
          if CoversNext(rs, j) then at.slot[j] < |table| && table[at.slot[j]] == rs[j]
          else at.slot[j] < |base| && base[at.slot[j]].AsRoute() == rs[j])
    && (forall k {:trigger at.bases[k]} :: 0 <= k < |base| ==>
          at.bases[k] < i && base[k].AsRoute() == rs[at.bases[k]] && !CoversNext(rs, at.bases[k]))
    && (forall k {:trigger at.pres[k]} :: 0 <= k < |table| ==>
          at.pres[k] < i && table[k] == rs[at.pres[k]] && CoversNext(rs, at.pres[k]))
    && (forall j, k {:trigger at.bases[j], at.bases[k]} :: 0 <= j < k < |base| ==> at.bases[j] < at.bases[k])
  }

  lemma PlaceBase(rs: seq<Route>, i: nat, base: seq<Base>, table: seq<Route>, at: Places, x: Base)
    requires i < |rs| && Placed(rs, i, base, table, at) && !CoversNext(rs, i) && x.AsRoute() == rs[i]
    ensures Placed(rs, i + 1, base + [x], table, Places(at.slot + [|base|], at.bases + [i], at.pres))
  {}

  lemma PlacePrefix(rs: seq<Route>, i: nat, base: seq<Base>, table: seq<Route>, at: Places)
    requires i < |rs| && Placed(rs, i, base, table, at) && CoversNext(rs, i)
    ensures Placed(rs, i + 1, base, table + [rs[i]], Places(at.slot + [|table|], at.bases, at.pres + [i]))
  {}

  /** The entries hold the routes rs and, in their `pre` fields, the given links. */
  ghost predicate Holds(entries: array<Entry>, rs: seq<Route>, links: seq<int>)
    reads entries
  {
    && |rs| == |links| <= entries.Length
    && forall k :: 0 <= k < |rs| ==> entries[k].AsRoute() == rs[k] && entries[k].pre == links[k]
  }

  /** Every route from i on is linked to its longest cover among the first i routes. */
  ghost predicate LinkedFrom(rs: seq<Route>, i: nat, table: seq<Route>, links: seq<int>) {
    && |rs| == |links| && i <= |rs|
    && forall j {:trigger links[j]} :: i <= j < |rs| ==> Linked(rs[..i], table, rs[j].net, links[j])
  }

  function Relink(links: seq<int>, lo: nat, hi: nat, to: int): (r: seq<int>)
    requires lo <= hi <= |links|
    ensures |r| == |links|
    ensures forall k :: 0 <= k < |links| ==> r[k] == if lo <= k < hi then to else links[k]
  {
    links[..lo] + Repeat(to, hi - lo) + links[hi..]
  }

  function Repeat(x: int, n: nat): (r: seq<int>)
    ensures |r| == n && forall k :: 0 <= k < n ==> r[k] == x
  {
    if n == 0 then [] else [x] + Repeat(x, n - 1)
  }

  lemma LinkedStep(rs: seq<Route>, i: nat, hi: nat, table: seq<Route>, links: seq<int>)
    requires StrictlySorted(rs) && AllCanonical(rs) && i < hi <= |rs| && LinkedFrom(rs, i, table, links)
    requires forall k :: i < k < hi ==> Covers(rs[i].net, rs[k].net)
    requires hi < |rs| ==> !Covers(rs[i].net, rs[hi].net)
    ensures LinkedFrom(rs, i + 1, table + [rs[i]], Relink(links, i + 1, hi, |table|))
  {
    var links' := Relink(links, i + 1, hi, |table|);
    forall k {:trigger links'[k]} | i < k < |rs| ensures Linked(rs[..i + 1], table + [rs[i]], rs[k].net, links'[k]) {
      if k < hi {
        LinkedNew(rs, table, i, k);
      } else {
        if Covers(rs[i].net, rs[k].net) { CoveredRun(rs, i, hi, k); }
        assert Linked(rs[..i], table, rs[k].net, links[k]);
        LinkedSkip(rs, table, table + [rs[i]], i, k, links[k]);
      }
    }
  }

  lemma LinkedSkipAll(rs: seq<Route>, i: nat, table: seq<Route>, links: seq<int>)
    requires StrictlySorted(rs) && AllCanonical(rs) && i < |rs| && !CoversNext(rs, i) && LinkedFrom(rs, i, table, links)
    ensures LinkedFrom(rs, i + 1, table, links)
  {
    forall j {:trigger links[j]} | i < j < |rs| ensures Linked(rs[..i + 1], table, rs[j].net, links[j]) {
      NoLaterCover(rs, i, j);
      LinkedSkip(rs, table, table, i, j, links[j]);
    }
  }

  /** The inner loop: entry i becomes the link of every entry it covers. */
  method LinkPrefix(entries: array<Entry>, size: nat, i: nat, nprefs: nat, ghost rs: seq<Route>, ghost links: seq<int>)
    returns (ghost hi: nat)
    requires i < size == |rs| && rs[i].net.len <= 32 && Holds(entries, rs, links)
    modifies entries
    ensures i < hi <= size && Holds(entries, rs, Relink(links, i + 1, hi, nprefs))
    ensures forall k :: i < k < hi ==> Covers(rs[i].net, rs[k].net)
    ensures hi < size ==> !Covers(rs[i].net, rs[hi].net)
  {
    hide Covers, IsPrefix;
    var j := i + 1;
    while j < size && IsPrefix(entries[i], entries[j])
      invariant i < j <= size
      invariant forall k :: 0 <= k < size ==> entries[k].AsRoute() == rs[k]
      invariant forall k :: 0 <= k < size ==> entries[k].pre == if i < k < j then nprefs else links[k]
      invariant forall k :: i < k < j ==> Covers(rs[i].net, rs[k].net)
    {
      IsPrefixCovers(entries[i], entries[j]);
      entries[j] := entries[j].(pre := nprefs);
      j := j + 1;
    }
    if j < size { IsPrefixCovers(entries[i], entries[j]); }
    hi := j;
  }

  lemma AppendBase(rs: seq<Route>, i: nat, base: seq<Base>, table: seq<Route>, x: Base)
    requires i < |rs| && StrictlySorted(rs) && AllCanonical(rs)
    requires BasesOk(rs, base, table)
    requires x.AsRoute() == rs[i] && Linked(rs[..i], table, rs[i].net, x.pre)
    ensures BasesOk(rs, base + [x], table)
  {
    LinkedAll(rs, table, i, x.pre);
  }

  lemma LinkedGrows(rs: seq<Route>, table: seq<Route>, x: Route, e: Net, link: int)
    requires Linked(rs, table, e, link)
    ensures Linked(rs, table + [x], e, link)
  {}

  lemma AppendPrefix(rs: seq<Route>, i: nat, base: seq<Base>, pre: seq<Pre>, table: seq<Route>, x: Pre)
    requires i < |rs| && StrictlySorted(rs) && AllCanonical(rs)
    requires BasesOk(rs, base, table) && PresOk(rs, pre, table)
    requires x.len == rs[i].net.len && x.nexthop == rs[i].hop && Linked(rs[..i], table, rs[i].net, x.pre)
    ensures BasesOk(rs, base, table + [rs[i]]) && PresOk(rs, pre + [x], table + [rs[i]])
  {
    LinkedAll(rs, table, i, x.pre);
    LinkedGrows(rs, table, rs[i], rs[i].net, x.pre);
    forall k | 0 <= k < |base| ensures Linked(rs, table + [rs[i]], base[k].AsNet(), base[k].pre) {
      LinkedGrows(rs, table, rs[i], base[k].AsNet(), base[k].pre);
    }
    forall k | 0 <= k < |pre| ensures Linked(rs, table + [rs[i]], table[k].net, pre[k].pre) {
      LinkedGrows(rs, table, rs[i], table[k].net, pre[k].pre);
    }
  }

  lemma NoLaterCover(rs: seq<Route>, i: nat, k: nat)
    requires StrictlySorted(rs) && AllCanonical(rs) && i < k < |rs|
    requires !Covers(rs[i].net, rs[i + 1].net)
    ensures !Covers(rs[i].net, rs[k].net) && !Covers(rs[k].net, rs[i].net)
    ensures rs[i].net.data < rs[k].net.data
  {
    if Covers(rs[i].net, rs[k].net) { CoveredRun(rs, i, i + 1, k); }
    if Covers(rs[k].net, rs[i].net) { CoversBefore(rs[k].net, rs[i].net); }
  }

  lemma BasesPrefixFree(rs: seq<Route>, base: seq<Base>, table: seq<Route>, at: Places)
    requires StrictlySorted(rs) && AllCanonical(rs) && Placed(rs, |rs|, base, table, at)
    ensures SortedPrefixFree(base)
  {
    forall j, k | 0 <= j < k < |base|
      ensures base[j].str < base[k].str && !Covers(base[j].AsNet(), base[k].AsNet()) && !Covers(base[k].AsNet(), base[j].AsNet())
    {
      NoLaterCover(rs, at.bases[j], at.bases[k]);
    }
  }

  lemma {:induction false} RouteUnderBase(rs: seq<Route>, base: seq<Base>, table: seq<Route>, at: Places, j: nat)
    requires Placed(rs, |rs|, base, table, at) && AllCanonical(rs) && j < |rs|
    ensures UnderSomeBase(base, rs[j].net)
    decreases |rs| - j
  {
    if CoversNext(rs, j) {
      RouteUnderBase(rs, base, table, at, j + 1);
      var k :| 0 <= k < |base| && Covers(rs[j + 1].net, base[k].AsNet());
      CoversTrans(rs[j].net, rs[j + 1].net, base[k].AsNet());
    } else {
      assert Covers(rs[j].net, base[at.slot[j]].AsNet());
    }
  }

  /** A route is in the table exactly when it covers the next route, and a base otherwise. */
  lemma BaseOrPrefix(rs: seq<Route>, base: seq<Base>, table: seq<Route>, at: Places, j: nat)
    requires StrictlySorted(rs) && Placed(rs, |rs|, base, table, at) && j < |rs|
    ensures rs[j] in table <==> CoversNext(rs, j)
    ensures IsBase(base, rs[j]) <==> !CoversNext(rs, j)
  {
    var s := at.slot[j];
    if rs[j] in table {
      var k :| 0 <= k < |table| && table[k] == rs[j];
      assert at.pres[k] == j by { SameIndex(rs, at.pres[k], j); }
    }
    if IsBase(base, rs[j]) {
      var k :| 0 <= k < |base| && base[k].AsRoute() == rs[j];
      assert at.bases[k] == j by { SameIndex(rs, at.bases[k], j); }
    }
  }

  lemma SameIndex(rs: seq<Route>, i: nat, j: nat)
    requires StrictlySorted(rs) && i < |rs| && j < |rs| && rs[i] == rs[j]
    ensures i == j
  {}

  lemma FinishSplit(rs: seq<Route>, base: seq<Base>, pre: seq<Pre>, table: seq<Route>, links: seq<int>, at: Places)
    requires rs != [] && Progress(rs, |rs|, base, pre, table, links, at)
    ensures Split(rs, base, pre, table) && base != []
  {
    BasesPrefixFree(rs, base, table, at);
    forall r | r in rs ensures UnderSomeBase(base, r.net) && (IsBase(base, r) <==> r !in table) {
      var j :| 0 <= j < |rs| && rs[j] == r;
      RouteUnderBase(rs, base, table, at, j);
      BaseOrPrefix(rs, base, table, at, j);
    }
    assert rs[0] in rs;
  }

  lemma EntryRoute(es: seq<Entry>, i: nat)
    requires i < |es|
    ensures Routes(es)[i] == es[i].AsRoute()
  {}

  method InitLinks(entries: array<Entry>, size: nat, ghost rs: seq<Route>)
    requires size == |rs| <= entries.Length && forall k :: 0 <= k < size ==> entries[k].AsRoute() == rs[k]
    modifies entries
    ensures Holds(entries, rs, Repeat(NOPRE, size))
  {
    for i := 0 to size
      invariant forall k :: 0 <= k < size ==> entries[k].AsRoute() == rs[k]
      invariant forall k :: 0 <= k < i ==> entries[k].pre == NOPRE
    {
      entries[i] := entries[i].(pre := NOPRE);
    }
  }

  // ---- what the split gives, whatever the entries ----

  /** Base vector and prefix table so far, and the links of all entries. */
  datatype Parts = Parts(base: seq<Base>, pre: seq<Pre>, links: seq<int>)

  /** The first route from j on that route i does not cover. */
  function RunEnd(rs: seq<Route>, i: nat, j: nat): (r: nat)
    requires i < j <= |rs|
    ensures j <= r <= |rs|
    decreases |rs| - j
  {
    if j < |rs| && Covers(rs[i].net, rs[j].net) then RunEnd(rs, i, j + 1) else j
  }

  lemma {:induction false} RunEndIs(rs: seq<Route>, i: nat, j: nat, hi: nat)
    requires i < j <= hi <= |rs| && (forall k :: j <= k < hi ==> Covers(rs[i].net, rs[k].net))
    requires hi < |rs| ==> !Covers(rs[i].net, rs[hi].net)
    ensures RunEnd(rs, i, j) == hi
    decreases |rs| - j
  {
    hide Covers;
    if j < hi { RunEndIs(rs, i, j + 1, hi); }
  }

  /** One turn of the split loop. */
  function Part(rs: seq<Route>, i: nat, q: Parts): (r: Parts)
    requires i < |rs| == |q.links|
    ensures |r.links| == |rs|
  {
    var e := rs[i];
    if CoversNext(rs, i) then
      Parts(q.base, q.pre + [Pre(q.links[i], e.hop, e.net.len)], Relink(q.links, i + 1, RunEnd(rs, i, i + 1), |q.pre|))
    else
      q.(base := q.base + [Base(e.net.data, q.links[i], e.hop, e.net.len)])
  }

  function Parted(rs: seq<Route>, i: nat): (r: Parts)
    requires i <= |rs|
    ensures |r.links| == |rs|
  {
    if i == 0 then Parts([], [], Repeat(NOPRE, |rs|)) else Part(rs, i - 1, Parted(rs, i - 1))
  }

  method SplitPrefixes(entries: array<Entry>, size: nat) returns (b: seq<Base>, p: seq<Pre>, ghost table: seq<Route>)
    requires 0 < size <= entries.Length
    requires forall k :: 0 <= k < size ==> entries[k].len <= 32
    modifies entries
    ensures var parts := Parted(Routes(old(entries[..size])), size); b == parts.base && p == parts.pre
    ensures Regular(Routes(old(entries[..size]))) ==> b != [] && Split(Routes(old(entries[..size])), b, p, table)
  {
    hide Progress, Split, Linked, Part, Regular;
    ghost var rs := Routes(entries[..size]);
    forall k | 0 <= k < size ensures entries[k].AsRoute() == rs[k] { EntryRoute(entries[..size], k); }
    InitLinks(entries, size, rs);
    b, p, table := [], [], [];
    ghost var links, at := Repeat(NOPRE, size), Places([], [], []);
    if Regular(rs) { ProgressInit(rs); }
    for i := 0 to size
      invariant Holds(entries, rs, links) && |table| == |p|
      invariant Parted(rs, i) == Parts(b, p, links)
      invariant Regular(rs) ==> Progress(rs, i, b, p, table, links, at)
    {
      var e := entries[i];
      assert rs[i] == e.AsRoute() && e.pre == links[i];
      if i < size - 1 { IsPrefixCovers(entries[i], entries[i + 1]); }
      if i < size - 1 && IsPrefix(entries[i], entries[i + 1]) {
        var ptemp := Pre(e.pre, e.nexthop, e.len);
        ghost var hi := LinkPrefix(entries, size, i, |p|, rs, links);
        PartPrefix(rs, i, Parts(b, p, links), hi);
        if Regular(rs) { ProgressPrefix(rs, i, b, p, table, links, at, ptemp, hi); }
        links := Relink(links, i + 1, hi, |p|);
        at := Places(at.slot + [|p|], at.bases, at.pres + [i]);
        p, table := p + [ptemp], table + [rs[i]];
      } else {
        var btemp := Base(e.data, e.pre, e.nexthop, e.len);
        PartBase(rs, i, Parts(b, p, links));
        if Regular(rs) { ProgressBase(rs, i, b, p, table, links, at, btemp); }
        at := Places(at.slot + [|b|], at.bases + [i], at.pres);
        b := b + [btemp];
      }
    }
    if Regular(rs) { FinishSplit(rs, b, p, table, links, at); }
  }

  lemma PartPrefix(rs: seq<Route>, i: nat, q: Parts, hi: nat)
    requires i < hi <= |rs| == |q.links| && CoversNext(rs, i)
    requires forall k :: i < k < hi ==> Covers(rs[i].net, rs[k].net)
    requires hi < |rs| ==> !Covers(rs[i].net, rs[hi].net)
    ensures Part(rs, i, q) == Parts(q.base, q.pre + [Pre(q.links[i], rs[i].hop, rs[i].net.len)], Relink(q.links, i + 1, hi, |q.pre|))
  {
    RunEndIs(rs, i, i + 1, hi);
  }

  lemma PartBase(rs: seq<Route>, i: nat, q: Parts)
    requires i < |rs| == |q.links| && !CoversNext(rs, i)
    ensures Part(rs, i, q) == q.(base := q.base + [Base(rs[i].net.data, q.links[i], rs[i].hop, rs[i].net.len)])
  {}

  /** Sorted, without duplicates, and without host bits. */
  ghost predicate Regular(rs: seq<Route>) {
    StrictlySorted(rs) && AllCanonical(rs)
  }

  ghost predicate Progress(rs: seq<Route>, i: nat, b: seq<Base>, p: seq<Pre>, table: seq<Route>, links: seq<int>, at: Places) {
    && StrictlySorted(rs) && AllCanonical(rs)
    && LinkedFrom(rs, i, table, links)
    && Placed(rs, i, b, table, at)
    && BasesOk(rs, b, table) && PresOk(rs, p, table)
  }

  lemma ProgressInit(rs: seq<Route>)
    requires Regular(rs)
    ensures Progress(rs, 0, [], [], [], Repeat(NOPRE, |rs|), Places([], [], []))
  {}

  lemma ProgressPrefix(rs: seq<Route>, i: nat, b: seq<Base>, p: seq<Pre>, table: seq<Route>, links: seq<int>, at: Places,
                       x: Pre, hi: nat)
    requires i < hi <= |rs| && Progress(rs, i, b, p, table, links, at) && CoversNext(rs, i)
    requires x == Pre(links[i], rs[i].hop, rs[i].net.len)
    requires forall k :: i < k < hi ==> Covers(rs[i].net, rs[k].net)
    requires hi < |rs| ==> !Covers(rs[i].net, rs[hi].net)
    ensures Progress(rs, i + 1, b, p + [x], table + [rs[i]], Relink(links, i + 1, hi, |p|),
                     Places(at.slot + [|p|], at.bases, at.pres + [i]))
  {
    assert Linked(rs[..i], table, rs[i].net, links[i]);
    AppendPrefix(rs, i, b, p, table, x);
    PlacePrefix(rs, i, b, table, at);
    LinkedStep(rs, i, hi, table, links);
  }

  lemma ProgressBase(rs: seq<Route>, i: nat, b: seq<Base>, p: seq<Pre>, table: seq<Route>, links: seq<int>, at: Places, x: Base)
    requires i < |rs| && Progress(rs, i, b, p, table, links, at) && !CoversNext(rs, i)
    requires x.AsRoute() == rs[i] && x.pre == links[i]
    ensures Progress(rs, i + 1, b + [x], p, table, links, Places(at.slot + [|b|], at.bases + [i], at.pres))
  {
    assert Linked(rs[..i], table, rs[i].net, links[i]);
    AppendBase(rs, i, b, table, x);
    PlaceBase(rs, i, b, table, at, x);
    LinkedSkipAll(rs, i, table, links);
  }
}
