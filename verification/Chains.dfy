/** The prefix chains: following `pre` from a base string lists its prefixes, longest first. */
module Chains {
  import opened Bits
  import opened Nets
  import opened Prefixes

  /** Every link of the prefix table leads to an earlier place in it. */
  predicate LinksDown(pre: seq<Pre>) {
    forall k :: 0 <= k < |pre| ==> NOPRE <= pre[k].pre < k
  }

  /** The indices met on the way from link to NOPRE. */
  function Chain(pre: seq<Pre>, link: int): seq<nat>
    requires NOPRE <= link < |pre| && LinksDown(pre)
    decreases link + 1
  {
    if link == NOPRE then [] else [link] + Chain(pre, pre[link].pre)
  }

  lemma TableLinksDown(rs: seq<Route>, pre: seq<Pre>, table: seq<Route>)
    requires PresOk(rs, pre, table)
    ensures LinksDown(pre)
  {
    forall k | 0 <= k < |pre| ensures NOPRE <= pre[k].pre < k { assert Linked(rs, table, table[k].net, pre[k].pre); }
  }

  /** c lists exactly the networks of rs that properly cover e, in strictly decreasing length. */
  ghost predicate Lists(rs: seq<Route>, table: seq<Route>, e: Net, c: seq<nat>) {
    && (forall i :: 0 <= i < |c| ==> c[i] < |table| && ProperlyCovers(table[c[i]].net, e))
    && (forall i, j :: 0 <= i < j < |c| ==> table[c[j]].net.len < table[c[i]].net.len)
    && (forall r :: r in rs && ProperlyCovers(r.net, e) ==> OnChain(table, c, r.net))
  }

  ghost predicate OnChain(table: seq<Route>, c: seq<nat>, q: Net) {
    exists i :: 0 <= i < |c| && c[i] < |table| && table[c[i]].net == q
  }

  /** Two covers of one network are one network, or the shorter properly covers the longer. */
  lemma CoversNested(a: Net, b: Net, e: Net)
    requires Canonical(a) && Canonical(b) && Covers(a, e) && Covers(b, e) && a.len <= b.len
    ensures a == b || (ProperlyCovers(a, b) && a.len < b.len)
  {
    MatchesNested(a, b, e.data);
    if a.len == b.len { CanonicalSame(a, b); }
  }

  /** A proper cover of a proper cover is a shorter proper cover. */
  lemma CoverOfCover(a: Net, b: Net, e: Net)
    requires Canonical(a) && Canonical(b) && ProperlyCovers(a, b) && ProperlyCovers(b, e)
    ensures ProperlyCovers(a, e) && a.len < b.len
  {
    CoversTrans(a, b, e);
    if a.len == b.len { CanonicalSame(a, b); }
  }

  /** In front of the chain of its longest cover, that cover itself: the chain of e. */
  lemma ListsCons(rs: seq<Route>, table: seq<Route>, e: Net, link: nat, d: seq<nat>)
    requires AllCanonical(rs) && Linked(rs, table, e, link) && Lists(rs, table, table[link].net, d)
    requires forall k :: 0 <= k < |table| ==> table[k] in rs
    ensures Lists(rs, table, e, [link] + d)
  {
    var top, c := table[link].net, [link] + d;
    hide Covers, Canonical, OnChain;
    assert table[link] in rs;
    forall i | 0 < i < |c| ensures c[i] < |table| && ProperlyCovers(table[c[i]].net, e) && table[c[i]].net.len < top.len {
      assert c[i] == d[i - 1] && table[d[i - 1]] in rs;
      CoverOfCover(table[d[i - 1]].net, top, e);
    }
    forall i, j | 0 <= i < j < |c| ensures table[c[j]].net.len < table[c[i]].net.len {
      if i > 0 { assert c[i] == d[i - 1] && c[j] == d[j - 1]; }
    }
    forall r | r in rs && ProperlyCovers(r.net, e) ensures OnChain(table, c, r.net) {
      CoversNested(r.net, top, e);
      OnLonger(table, link, d, r.net);
    }
  }

  lemma OnLonger(table: seq<Route>, link: nat, d: seq<nat>, q: Net)
    requires link < |table| && (q == table[link].net || OnChain(table, d, q))
    ensures OnChain(table, [link] + d, q)
  {
    var c := [link] + d;
    if q == table[link].net {
      assert c[0] == link;
    } else {
      var i :| 0 <= i < |d| && d[i] < |table| && table[d[i]].net == q;
      assert c[i + 1] == d[i];
    }
  }

  lemma {:induction false} ChainLists(rs: seq<Route>, pre: seq<Pre>, table: seq<Route>, e: Net, link: int)
    requires AllCanonical(rs) && PresOk(rs, pre, table) && LinksDown(pre) && Linked(rs, table, e, link)
    ensures Lists(rs, table, e, Chain(pre, link))
    decreases link + 1
  {
    if link != NOPRE {
      assert Linked(rs, table, table[link].net, pre[link].pre);
      ChainLists(rs, pre, table, table[link].net, pre[link].pre);
      hide Lists, ProperlyCovers, AllCanonical;
      ListsCons(rs, table, e, link, Chain(pre, pre[link].pre));
    }
  }

  /** Each base's chain lists exactly its proper prefixes, longest first. */
  lemma SplitChains(rs: seq<Route>, base: seq<Base>, pre: seq<Pre>, table: seq<Route>, x: nat)
    requires AllCanonical(rs) && Split(rs, base, pre, table) && x < |base|
    ensures NOPRE <= base[x].pre < |pre| && LinksDown(pre)
    ensures Lists(rs, table, base[x].AsNet(), Chain(pre, base[x].pre))
  {
    TableLinksDown(rs, pre, table);
    assert Linked(rs, table, base[x].AsNet(), base[x].pre);
    hide ProperlyCovers, SortedPrefixFree, UnderSomeBase, Lists, LinksDown, AllCanonical;
    ChainLists(rs, pre, table, base[x].AsNet(), base[x].pre);
  }
}
