/** Why entries must be canonical: an entry with host bits set is sorted behind networks it
    covers, and the table answers not-found for addresses it matches. */
module HostBits {
  import opened Bits
  import opened Nets
  import opened Prefixes
  import opened Layout
  import opened Delivery
  import opened RoutingTable
  import opened SmallTables
  import opened PairTables

  // ---- the companion that shows it ----

  /** The address with the host bits cleared. */
  function Masked(q: Net): Word
    requires q.len <= 32
  {
    Shl(Shr(q.data, 32 - q.len), 32 - q.len)
  }

  lemma MaskedIs(q: Net)
    requires q.len <= 32
    ensures Agree(Masked(q), q.data, q.len) && Masked(q) <= q.data
    ensures Canonical(q) <==> Masked(q) == q.data
    ensures Canonical(Net(Masked(q), 32))
  {
    hide Shl, Shr, Pow2;
    var h := Pow2(32 - q.len);
    Pow2At32();
    Pow2Add(q.len, 32 - q.len);
    ShrIs(q.data, 32 - q.len);
    ShlIs(Shr(q.data, 32 - q.len), 32 - q.len);
    MaskDown(q.data, h);
    assert Masked(q) == (q.data / h) * h;
    ShrIs(Masked(q), 32 - q.len);
    DivUnique(Masked(q), h, q.data / h, 0);
    assert Lead(Masked(q), q.len) == Lead(q.data, q.len);
    FullLength(Masked(q));
  }

  lemma MaskDown(d: Word, h: nat)
    requires h > 0
    ensures (d / h) * h <= d && ((d / h) * h) % WORD == (d / h) * h
  {
    BlockStart(d, h);
    SmallRemainder((d / h) * h);
  }

  lemma FullLength(d: Word)
    ensures Canonical(Net(d, 32))
  {}

  /** The canonical address 32 bits long that starts the network of q. */
  function Companion(q: Net): Net
    requires q.len <= 32
  {
    Net(Masked(q), 32)
  }

  lemma CompanionUnfit(q: Net)
    requires q.len <= 30 && !Canonical(q)
    ensures Before(Companion(q), q) && !Fits(Companion(q), q)
  {
    MaskedIs(q);
    AgreeBack(Masked(q), q.data, q.len);
    hide Masked, Agree, Canonical;
  }

  // ---- the condition, for every length up to 30 ----

  lemma CanonicalPairFits(a: Net, b: Net)
    requires Canonical(a) && Canonical(b) && Before(a, b)
    ensures Fits(a, b)
  {
    if Covers(b, a) { CoversBefore(b, a); }
  }

  lemma BeforeOrNot(a: Net, b: Net)
    ensures a == b || Before(a, b) || Before(b, a)
  {}

  lemma CanonicalRight(c: Route, e: Route)
    requires Canonical(c.net) && Canonical(e.net)
    ensures Right([c, e])
  {
    BeforeOrNot(c.net, e.net);
    hide Right, Fits, Before;
    if c.net == e.net {
      TwiceRight(c, e);
    } else if Before(c.net, e.net) {
      CanonicalPairFits(c.net, e.net);
      PairRightIff(c, e, [c, e]);
    } else {
      CanonicalPairFits(e.net, c.net);
      PairRightIff(e, c, [c, e]);
    }
  }

  /** An entry of at most 30 bits is answered right beside every canonical entry if and only
      if it is canonical itself. */
  lemma CanonicalIff(e: Route)
    requires e.net.len <= 30
    ensures (forall c: Route :: Canonical(c.net) ==> Right([c, e])) <==> Canonical(e.net)
  {
    hide Right, Canonical, Fits;
    if Canonical(e.net) {
      forall c: Route | Canonical(c.net) ensures Right([c, e]) { CanonicalRight(c, e); }
    } else {
      var c := Route(Companion(e.net), e.hop);
      MaskedIs(e.net);
      CompanionUnfit(e.net);
      PairRightIff(c, e, [c, e]);
      assert Canonical(c.net) && !Right([c, e]);
    }
  }

  // ---- 31 bits ----

  /** Beside a single canonical entry, one of 31 bits is always answered right. */
  lemma ThirtyOneFits(c: Net, e: Net)
    requires Canonical(c) && e.len == 31 && c != e
    ensures if Before(c, e) then Fits(c, e) else Fits(e, c)
  {
    hide Canonical;
    if Before(c, e) {
      if Covers(e, c) && !Covers(c, e) {
        LongOnes(c, e);
      }
    } else {
      if Covers(c, e) { CoversBefore(c, e); }
    }
  }

  lemma LongOnes(c: Net, e: Net)
    requires Canonical(c) && e.len == 31 && Covers(e, c) && !Covers(c, e) && Before(c, e)
    ensures c.len == 32 && !Agree(c.data, e.data, 32)
  {
    hide Agree;
    AgreeBack(e.data, c.data, 31);
    assert c.len <= 32 by { CanonicalLen(c); }
    if Agree(c.data, e.data, 32) { AgreeAll(c.data, e.data, 32); }
  }

  lemma CanonicalLen(c: Net)
    requires Canonical(c)
    ensures c.len <= 32
  {}

  lemma ThirtyOneRight(c: Route, e: Route)
    requires Canonical(c.net) && e.net.len == 31
    ensures Right([c, e])
  {
    BeforeOrNot(c.net, e.net);
    CanonicalLen(c.net);
    hide Right, Fits, Before, Canonical;
    if c.net == e.net {
      TwiceRight(c, e);
    } else {
      ThirtyOneFits(c.net, e.net);
      if Before(c.net, e.net) { PairRightIff(c, e, [c, e]); } else { PairRightIff(e, c, [c, e]); }
    }
  }

  // ---- run it ----

  /** The search of s in the table of rs gives not-found. */
  ghost predicate NotFoundAt(rs: seq<Route>, s: Word) {
    Small(rs) && Searchable(TableOf(rs), Root(rs), s) && Lookup(TableOf(rs), Root(rs), s) == Answer(0, false)
  }

  /** An address matched by an entry with host bits, and lost beside its companion. */
  function LostAddress(q: Net): nat
    requires q.len <= 32 && OpenBit(Companion(q), q) < 32
  {
    Turned(Companion(q).data, OpenBit(Companion(q), q))
  }

  lemma CompanionLoses(a: Route, b: Route)
    requires b.net.len <= 30 && !Canonical(b.net) && a.net == Companion(b.net)
    ensures OpenBit(a.net, b.net) < 32 && LostAddress(b.net) < WORD
    ensures Matches(b.net, LostAddress(b.net)) && NotFoundAt([a, b], LostAddress(b.net))
    ensures Before(a.net, b.net) && AlwaysSmall([b, a])
  {
    CompanionUnfit(b.net);
    PairLoses(a, b);
    hide Lookup, Small, Searchable, TableOf, Root, Turned, OpenBit, AlwaysSmall, Canonical, Masked, Before, Covers;
    PairAlwaysSmall(a, b, [b, a]);
  }

  /** Two entries, built and searched: e has host bits and at most 30 bits, c is its companion.
      The answer for an address that e matches is not-found. */
  method LoseRoute(e: Entry, hop: nat) returns (s: Word, nexthop: nat, found: bool)
    requires e.len <= 30 && !Canonical(e.AsNet())
    ensures Matches(e.AsNet(), s) && !found
  {
    var q := e.AsNet();
    var c := Entry(Companion(q).data, NOPRE, hop, 32);
    ghost var a, b := c.AsRoute(), e.AsRoute();
    assert a.net == Companion(q) && b.net == q && c.len == 32;
    hide *;
    CompanionLoses(a, b);
    s := LostAddress(q);
    var t;
    ghost var kept;
    t, kept := BuildPair(e, c);
    PairKept(a, b, [b, a], kept);
    nexthop, found := SearchLost(t, s, kept);
  }

  method BuildPair(x: Entry, y: Entry) returns (t: Table, ghost kept: seq<Route>)
    requires x.len <= 32 && y.len <= 32 && AlwaysSmall([x.AsRoute(), y.AsRoute()])
    ensures Deduplicates([x.AsRoute(), y.AsRoute()], kept) && Small(kept) && t == TableOf(kept)
  {
    hide AlwaysSmall, Deduplicates, Small, TableOf, Routes;
    var entries := new Entry[2](_ => x);
    entries[1] := y;
    assert entries[..] == [x, y];
    TwoRoutes(entries[..], x, y);
    t, kept := BuildSmallTable(entries);
  }

  method SearchLost(t: Table, s: Word, ghost kept: seq<Route>) returns (nexthop: nat, found: bool)
    requires NotFoundAt(kept, s) && t == TableOf(kept)
    ensures !found
  {
    hide Lookup, Small, Searchable, TableOf, Root;
    nexthop, found := Search(t, s, Root(kept));
  }

  lemma TwoRoutes(es: seq<Entry>, x: Entry, y: Entry)
    requires es == [x, y]
    ensures Routes(es) == [x.AsRoute(), y.AsRoute()]
  {}

  lemma PairAlwaysSmall(a: Route, b: Route, all: seq<Route>)
    requires Before(a.net, b.net) && !Covers(a.net, b.net) && a.net.len <= 32 && b.net.len <= 32 && (all == [a, b] || all == [b, a])
    ensures AlwaysSmall(all)
  {
    ApartPair(a, b);
    hide Small, Parted, Before, Covers, Deduplicates;
    forall rs | Deduplicates(all, rs) ensures Small(rs) && Rising(rs) { PairKept(a, b, all, rs); }
  }

  // ---- 31 bits beside two others ----

  /** The address in the low 16 bits, and one that differs from it in the first of these. */
  function Low(x: Word): nat { x % 0x1_0000 }
  function Far(x: Word): Word { x - Low(x) + if Low(x) < 0x8000 then 0xffff else 0 }

  /** Has its host bit set and is not the last address of its /16. */
  predicate Odd31(q: Net) { q.len == 31 && q.data % 2 == 1 && Low(q.data) != 0xffff }

  lemma OddIs(q: Net)
    requires q.len == 31
    ensures !Canonical(q) <==> q.data % 2 == 1
  {
    PowerOne();
    hide Shl, Shr, Pow2;
    ShrIs(q.data, 1);
    ShlIs(Shr(q.data, 1), 1);
    BlockStart(q.data, 2);
    SmallRemainder((q.data / 2) * 2);
  }

  lemma LowIs(x: Word)
    ensures Extract(16, 16, x) == Low(x) && Extract(16, 1, x) == Low(x) / 0x8000 && Top(x, 16) == x / 0x1_0000
  {
    Sixteen();
    TopSplit(x, 16, 16);
    TopZero(x);
    ExtractFewer(16, 1, 16, x);
    hide Extract, Pow2, Top;
    DivUnique(x, 0x1_0000, Top(x, 16), Extract(16, 16, x));
  }

  lemma Sixteen()
    ensures Pow2(16) == 0x1_0000 && Pow2(15) == 0x8000
  {
    assert Pow2(5) == 32;
    Pow2Add(5, 5);
    Pow2Add(10, 5);
    Pow2Add(15, 1);
  }

  lemma SameBlock16(x: Word, y: Word)
    requires x / 0x1_0000 == y / 0x1_0000
    ensures Agree(x, y, 16)
  {
    LowIs(x);
    LowIs(y);
    AgreeIs(x, y, 16);
  }

  /** Addresses of one /16 that lie in different halves of it first differ in bit 16. */
  lemma FirstBit16(x: Word, y: Word)
    requires x < y && x / 0x1_0000 == y / 0x1_0000 && Low(x) < 0x8000 <= Low(y)
    ensures CommonBits(x, y, 0) == 16
  {
    FirstBitIs(x, y);
    SameBlock16(x, y);
    LowIs(x);
    LowIs(y);
    BitOf(x, y, 16);
    hide Extract, Agree, CommonBits;
    var d := FirstBit(x, y);
    if d < 16 { AgreeShorter(x, y, d + 1, 16); }
    if d > 16 { AgreeShorter(x, y, 17, d); }
  }

  /** Next to an odd address there is no other in the same 31-bit network. */
  lemma OddNext(x: Word)
    requires x % 2 == 1 && x + 1 < WORD
    ensures !Agree(x, x + 1, 31) && !Agree(x + 1, x, 31)
  {
    LastBits(x);
    LastBits(x + 1);
    AgreeIs(x, x + 1, 31);
    AgreeIs(x + 1, x, 31);
  }

  lemma LastBits(x: Word)
    ensures Top(x, 31) == x / 2
  {
    PowerOne();
    TopSplit(x, 31, 1);
    TopZero(x);
    hide Extract, Pow2, Top;
    DivUnique(x, 2, Top(x, 31), Extract(31, 1, x));
  }

  /** Without a base in between, the loop comes to the slot of base p. */
  lemma {:induction false} OwnerReach(base: seq<Base>, np: nat, b: nat, p: nat, pat: nat, c: nat)
    requires p < |base| && b <= 32 && pat <= Slot(base, np, b, p) <= c
    ensures Owner(base, np, b, p, pat, c) == Owner(base, np, b, p, Slot(base, np, b, p), c)
    decreases c - pat
  {
    hide Slot, Owner;
    if pat < Slot(base, np, b, p) {
      OwnerMiss(base, np, b, p, pat, c);
      OwnerReach(base, np, b, p, pat + 1, c);
    }
  }

  lemma Spans16()
    ensures Short(31, 16, 16) && SpanOf(31, 16, 16) == 2 && !Short(32, 16, 16)
  {
    assert Sub32(31, 16) == 15 && Sub32(32, 16) == 16;
    SpanBounds(31, 16, 16);
    PowerOne();
  }

  /** The short base takes the slot behind its own as well, whoever that belongs to. */
  lemma TakesNext(base: seq<Base>, p: nat, pat: nat)
    requires p < |base| && base[p].len == 31 && pat <= Slot(base, 16, 16, p)
    ensures Owner(base, 16, 16, p, pat, Slot(base, 16, 16, p) + 1) == p
  {
    hide Slot, Owner, Short, SpanOf;
    var c := Slot(base, 16, 16, p) + 1;
    Spans16();
    OwnerReach(base, 16, 16, p, pat, c);
    OwnerHit(base, 16, 16, p, Slot(base, 16, 16, p), 2, c);
  }

  /** e, its next address, and one far away, in sorted order. */
  function Three(e: Route, hop: nat): seq<Route>
    requires Odd31(e.net)
  {
    var f, g := Route(Net(e.net.data + 1, 32), hop), Route(Net(Far(e.net.data), 32), hop);
    if Low(e.net.data) < 0x8000 then [e, f, g] else [g, e, f]
  }

  function Place(e: Route): nat { if Low(e.net.data) < 0x8000 then 0 else 1 }

  lemma OddRoom(x: Word)
    requires x % 2 == 1 && Low(x) != 0xffff
    ensures x + 1 < WORD && Low(x + 1) == Low(x) + 1 && (x + 1) / 0x1_0000 == x / 0x1_0000
    ensures Far(x) / 0x1_0000 == x / 0x1_0000 && Low(Far(x)) == if Low(x) < 0x8000 then 0xffff else 0
    ensures if Low(x) < 0x8000 then x + 1 < Far(x) else Far(x) < x
  {
    var q := x / 0x1_0000;
    assert x == q * 0x1_0000 + Low(x);
    DivUnique(x + 1, 0x1_0000, q, Low(x) + 1);
    var l := if Low(x) < 0x8000 then 0xffff else 0;
    assert Far(x) == q * 0x1_0000 + l;
    DivUnique(Far(x), 0x1_0000, q, l);
  }

  lemma ThreeApart(e: Route, hop: nat)
    requires Odd31(e.net)
    ensures var rs := Three(e, hop);
            && |rs| == 3 && Place(e) <= 1 && StrictlySorted(rs) && Apart(rs) && (forall k :: 0 <= k < 3 ==> rs[k].net.len == if k == Place(e) then 31 else 32)
            && rs[Place(e)] == e && rs[Place(e) + 1].net == Net(e.net.data + 1, 32)
  {
    var rs := Three(e, hop);
    OddRoom(e.net.data);
    OddNext(e.net.data);
    var p := Place(e);
    hide Agree, Low, Far;
    forall j | 0 <= j < 3 ensures !CoversNext(rs, j) {
      if j + 1 < 3 && rs[j].net.len == 32 { Distinct32(rs[j].net, rs[j + 1].net); }
    }
  }

  lemma Distinct32(a: Net, b: Net)
    requires a.len == 32 && a.data != b.data
    ensures !Covers(a, b)
  {
    if Covers(a, b) { AgreeAll(a.data, b.data, 32); }
  }

  /** The base vector of the three: flat, skipping 16 bits, branching on the other 16. */
  lemma ThreeFlat(e: Route, hop: nat)
    requires Odd31(e.net)
    ensures var rs := Three(e, hop);
            |rs| == 3 &&
            var q := Parted(rs, |rs|);
            && |q.base| == 3 && q.pre == [] && (forall k :: 0 <= k < 3 ==> q.base[k] == BaseOf(rs[k]))
            && q.base[0].str < q.base[2].str
            && SkipOf(q.base) == 16 && BranchOf(3) == 16 && Flat(q.base, 16, 16) && Small(rs)
  {
    hide Parted, Extract, CommonBits, Agree, CoversNext, Low, Far, StrictlySorted;
    var rs := Three(e, hop);
    ThreeApart(e, hop);
    PartedApart(rs, |rs|);
    OddRoom(e.net.data);
    var base := Parted(rs, |rs|).base;
    assert base[0].str < base[2].str && base[0].str / 0x1_0000 == base[2].str / 0x1_0000 && Low(base[0].str) < 0x8000 <= Low(base[2].str);
    FirstBit16(base[0].str, base[2].str);
    forall k | 0 <= k < 3 ensures Slot(base, 16, 16, k) == Low(base[k].str) { LowIs(base[k].str); }
    assert SkipOf(base) == 16;
    hide Slot, SkipOf, BranchOf;
  }

  lemma NextLow(x: Word)
    requires x % 2 == 1 && Low(x) != 0xffff
    ensures x + 1 < WORD && Extract(16, 16, x + 1) == Low(x) + 1 && !Agree(x, x + 1, 31)
  {
    OddRoom(x);
    OddNext(x);
    LowIs(x + 1);
    hide Extract, Agree, Low, Far;
  }

  /** The slot of the next address belongs to e, which it does not match. */
  lemma {:induction false} NextOwner(e: Route, hop: nat, base: seq<Base>)
    requires Odd31(e.net) && |base| == 3 && (forall k :: 0 <= k < 3 ==> base[k] == BaseOf(Three(e, hop)[k]))
    ensures e.net.data + 1 < WORD && Place(e) < 3
    ensures Owner(base, 16, 16, 0, 0, Extract(16, 16, e.net.data + 1)) == Place(e)
    ensures !Agree(base[Place(e)].str, e.net.data + 1, base[Place(e)].len)
  {
    NextLow(e.net.data);
    hide Extract, Agree, Low, Owner, Three, Slot;
    PlacedSlots(e, hop, base);
    OwnerOfNext(base, Place(e), e.net.data);
  }

  /** The search for the next address ends at e's leaf and finds nothing. */
  lemma NextLost(e: Route, hop: nat)
    requires Odd31(e.net)
    ensures e.net.data + 1 < WORD && NotFoundAt(Three(e, hop), e.net.data + 1)
  {
    hide Extract, Agree, Low, Owner, Three, Slot, Parted, Flat, Small, NotFoundAt, SkipOf;
    var rs := Three(e, hop);
    ThreeFlat(e, hop);
    var base := Parted(rs, |rs|).base;
    NextOwner(e, hop, base);
    FlatLoses(rs, base, e.net.data + 1, Place(e));
  }

  lemma FlatLoses(rs: seq<Route>, base: seq<Base>, s: Word, p: nat)
    requires base == Parted(rs, |rs|).base && Parted(rs, |rs|).pre == [] && |base| > 1 && rs != []
    requires Flat(base, SkipOf(base), BranchOf(|base|)) && p < |base| && BranchOf(|base|) <= 32
    requires Owner(base, SkipOf(base), BranchOf(|base|), 0, 0, Extract(SkipOf(base), BranchOf(|base|), s)) == p
    requires !Agree(base[p].str, s, base[p].len)
    ensures NotFoundAt(rs, s)
  {
    hide Parted, Agree, Extract, Owner, Flat, SkipOf, TableOf, Root, Small, Searchable, Lookup;
    FlatLookup(rs, base, s);
  }

  lemma PlacedSlots(e: Route, hop: nat, base: seq<Base>)
    requires Odd31(e.net) && |base| == 3 && forall k :: 0 <= k < 3 ==> base[k] == BaseOf(Three(e, hop)[k])
    ensures var p := Place(e);
            && p <= 1 && base[p].str == e.net.data && base[p].len == 31 && Slot(base, 16, 16, p) == Low(e.net.data)
            && (p == 1 ==> base[0].len == 32 && Slot(base, 16, 16, 0) == 0 && Low(e.net.data) > 0)
  {
    OddRoom(e.net.data);
    ThreeApart(e, hop);
    LowIs(e.net.data);
    LowIs(base[0].str);
    hide Extract, Low;
  }

  lemma OwnerOfNext(base: seq<Base>, p: nat, x: Word)
    requires |base| == 3 && p <= 1 && base[p].str == x && base[p].len == 31 && Slot(base, 16, 16, p) == Low(x)
    requires p == 1 ==> base[0].len == 32 && Slot(base, 16, 16, 0) == 0 && Low(x) > 0
    ensures Owner(base, 16, 16, 0, 0, Low(x) + 1) == p
  {
    hide Slot, Owner, Short, SpanOf;
    if p == 1 {
      Spans16();
      OwnerHit(base, 16, 16, 0, 0, 1, Low(x) + 1);
      TakesNext(base, 1, 1);
    } else {
      TakesNext(base, 0, 0);
    }
  }

  /** Beside two canonical addresses an entry of 31 bits with its host bit set, unless it is
      the last of its /16, makes the table lose the next address. */
  lemma ThirtyOneLoses(e: Route, hop: nat)
    requires e.net.len == 31 && !Canonical(e.net) && Low(e.net.data) != 0xffff
    ensures Odd31(e.net) && !Right(Three(e, hop))
    ensures forall r :: r in Three(e, hop) && r != e ==> Canonical(r.net)
  {
    OddIs(e.net);
    assert Odd31(e.net);
    ThreeCanonical(e, hop);
    hide *;
    NextLost(e, hop);
    NextNotRight(e, hop);
  }

  lemma ThreeCanonical(e: Route, hop: nat)
    requires Odd31(e.net)
    ensures forall r :: r in Three(e, hop) && r != e ==> Canonical(r.net)
  {
    OddRoom(e.net.data);
    FullLength(e.net.data + 1);
    FullLength(Far(e.net.data));
    hide Low, Far, Canonical;
  }

  lemma NextNotRight(e: Route, hop: nat)
    requires Odd31(e.net) && e.net.data + 1 < WORD && NotFoundAt(Three(e, hop), e.net.data + 1)
    ensures !Right(Three(e, hop))
  {
    var rs, s := Three(e, hop), e.net.data + 1;
    ThreeApart(e, hop);
    ThreeKept(rs, rs);
    var f := rs[Place(e) + 1];
    assert f in rs && Matches(f.net, s);
    hide Low, Lookup, Small, Searchable, TableOf, Root, Deduplicates, Matches, Three;
    NotRight(rs, rs, s, f);
  }

  lemma ThreeKept(rs: seq<Route>, all: seq<Route>)
    requires StrictlySorted(rs) && forall r :: r in all <==> r in rs
    ensures Deduplicates(all, rs)
  {
    forall r | r in all ensures exists k :: 0 <= k < |rs| && rs[k].net == r.net {
      var k :| 0 <= k < |rs| && rs[k] == r;
    }
  }
}
