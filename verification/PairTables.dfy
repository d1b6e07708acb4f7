/** The table of two entries, host bits or not: exactly when it answers longest-prefix match. */
module PairTables {
  import opened Bits
  import opened Nets
  import opened Prefixes
  import opened Layout
  import opened Delivery
  import opened RoutingTable
  import opened SmallTables

  // ---- what the split makes of a few routes ----

  function BaseOf(r: Route): Base { Base(r.net.data, NOPRE, r.hop, r.net.len) }

  ghost predicate Apart(rs: seq<Route>) { forall j :: 0 <= j < |rs| ==> !CoversNext(rs, j) }

  /** Where no route covers the next, all become bases without a link. */
  lemma {:induction false} PartedApart(rs: seq<Route>, i: nat)
    requires Apart(rs) && i <= |rs|
    ensures var q := Parted(rs, i);
            |q.base| == i && (forall k :: 0 <= k < i ==> q.base[k] == BaseOf(rs[k])) && q.pre == [] && q.links == Repeat(NOPRE, |rs|)
  {
    hide CoversNext;
    if i > 0 {
      PartedApart(rs, i - 1);
      PartBase(rs, i - 1, Parted(rs, i - 1));
    }
  }

  /** A pair in which the first covers the second: one base, linked to the other. */
  lemma PartedLinked(a: Route, b: Route)
    requires Covers(a.net, b.net)
    ensures Parted([a, b], 2).base == [Base(b.net.data, 0, b.hop, b.net.len)] && Parted([a, b], 2).pre == [Pre(NOPRE, a.hop, a.net.len)]
  {
    hide Covers;
    var rs := [a, b];
    var q0 := Parted(rs, 0);
    assert q0 == Parts([], [], Repeat(NOPRE, 2));
    assert CoversNext(rs, 0) && !CoversNext(rs, 1);
    PartPrefix(rs, 0, q0, 2);
    var q1 := Parted(rs, 1);
    assert q1 == Part(rs, 0, q0) == Parts([], [Pre(NOPRE, a.hop, a.net.len)], Relink(q0.links, 1, 2, 0));
    PartBase(rs, 1, q1);
    assert Parted(rs, 2) == Part(rs, 1, q1);
  }

  // ---- the pair whose first covers the second ----

  lemma LinkedPairLookup(a: Route, b: Route, s: Word)
    requires Covers(a.net, b.net) && b.net.len <= 32
    ensures Small([a, b]) && Searchable(TableOf([a, b]), Root([a, b]), s)
    ensures Lookup(TableOf([a, b]), Root([a, b]), s) ==
            if Agree(b.net.data, s, b.net.len) then Answer(b.hop, true)
            else if Agree(b.net.data, s, a.net.len) then Answer(a.hop, true)
            else Answer(0, false)
  {
    PartedLinked(a, b);
    OneLaid();
    hide Parted, Agree, Laid;
    var t := TableOf([a, b]);
    assert t == Table([0], [Base(b.net.data, 0, b.hop, b.net.len)], [Pre(NOPRE, a.hop, a.net.len)]);
    assert Root([a, b]) == Leaf(0);
    hide TableOf, Root, Small, Covers;
    assert ChainAnswer(t, b.net.data, s, NOPRE) == Answer(0, false);
  }

  // ---- the pair in which neither the first covers the second ----

  /** The first bit in which two addresses differ. */
  function FirstBit(a: Word, b: Word): nat { CommonBits(a, b, 0) }

  lemma FirstBitIs(a: Word, b: Word)
    requires a < b
    ensures var d := FirstBit(a, b); d < 32 && Agree(a, b, d) && !Agree(a, b, d + 1) && Extract(d, 1, a) == 0 && Extract(d, 1, b) == 1
  {
    AgreeNone(a, b);
    CommonBitsIs(a, b, 0);
  }

  lemma ShortOne(len: nat, d: nat)
    requires len <= 32 && d < 32
    ensures Short(len, d, 1) <==> len == d
  {}

  /** Slot 0 is the first one's; slot 1 as well if the first ends before the bit. */
  lemma PairOwner(base: seq<Base>, d: nat, c: nat)
    requires |base| == 2 && d < 32 && base[0].len <= 32 && c < 2
    requires Extract(d, 1, base[0].str) == 0 && Extract(d, 1, base[1].str) == 1
    ensures Owner(base, d, 1, 0, 0, c) == if c == 0 || base[0].len == d then 0 else 1
  {
    ShortOne(base[0].len, d);
    if Short(base[0].len, d, 1) { SpanBounds(base[0].len, d, 1); }
    PowerOne();
    hide Extract, Short, SpanOf, Pow2;
    var span := if Short(base[0].len, d, 1) then SpanOf(base[0].len, d, 1) else 1;
    OwnerHit(base, d, 1, 0, 0, span, c);
    if c >= span {
      var span1 := if Short(base[1].len, d, 1) then SpanOf(base[1].len, d, 1) else 1;
      OwnerHit(base, d, 1, 1, 1, span1, c);
    }
  }

  lemma ApartPair(a: Route, b: Route)
    requires Before(a.net, b.net) && !Covers(a.net, b.net) && a.net.len <= 32 && b.net.len <= 32
    ensures a.net.data < b.net.data && Apart([a, b])
    ensures Parted([a, b], 2).base == [BaseOf(a), BaseOf(b)] && Parted([a, b], 2).pre == []
    ensures Flat([BaseOf(a), BaseOf(b)], FirstBit(a.net.data, b.net.data), 1) && Small([a, b])
  {
    var rs := [a, b];
    assert Apart(rs);
    PartedApart(rs, 2);
    FirstBitIs(a.net.data, b.net.data);
    hide Parted, Agree, Extract;
    assert Parted(rs, 2).base == [BaseOf(a), BaseOf(b)];
  }

  /** A search in a flat table: one comparison with the owner of the slot. */
  lemma FlatLookup(rs: seq<Route>, base: seq<Base>, s: Word)
    requires base == Parted(rs, |rs|).base && Parted(rs, |rs|).pre == [] && |base| > 1 && rs != []
    requires Flat(base, SkipOf(base), BranchOf(|base|))
    ensures Small(rs) && Searchable(TableOf(rs), Root(rs), s)
    ensures var x := Owner(base, SkipOf(base), BranchOf(|base|), 0, 0, Extract(SkipOf(base), BranchOf(|base|), s));
            x < |base| &&
            Lookup(TableOf(rs), Root(rs), s) == if Agree(base[x].str, s, base[x].len) then Answer(base[x].nexthop, true) else Answer(0, false)
  {
    FlatTableIs(rs, base);
    NodeLaid(base);
    NodeWalk(base, s);
    FlatBases(base, SkipOf(base), BranchOf(|base|));
    hide *;
    NoLinksLookup(TableOf(rs), Root(rs), s);
  }

  lemma FlatTableIs(rs: seq<Route>, base: seq<Base>)
    requires base == Parted(rs, |rs|).base && Parted(rs, |rs|).pre == [] && |base| > 1 && rs != []
    requires Flat(base, SkipOf(base), BranchOf(|base|))
    ensures Small(rs) && TableOf(rs) == Table(CellsOf(base), base, []) && Root(rs) == RootOf(base)
  {
    hide Parted, Flat, CellsOf, RootOf, SkipOf, BranchOf;
  }

  /** Without links a search is one comparison. */
  lemma NoLinksLookup(t: Table, root: Trie, s: Word)
    requires Laid(t.trie, 0, 1, root) && Walk(root, 0, s) < |t.base| && t.pre == []
    requires forall x :: 0 <= x < |t.base| ==> t.base[x].pre == NOPRE && t.base[x].len <= 32
    ensures Searchable(t, root, s)
    ensures var x := t.base[Walk(root, 0, s)];
            Lookup(t, root, s) == if Agree(x.str, s, x.len) then Answer(x.nexthop, true) else Answer(0, false)
  {
    hide Laid, Walk, Agree;
  }

  lemma FlatBases(base: seq<Base>, np: nat, b: nat)
    requires Flat(base, np, b)
    ensures forall x :: 0 <= x < |base| ==> base[x].pre == NOPRE && base[x].len <= 32
  {}

  lemma ApartPairLookup(a: Route, b: Route, s: Word)
    requires Before(a.net, b.net) && !Covers(a.net, b.net) && a.net.len <= 32 && b.net.len <= 32
    ensures Small([a, b]) && Searchable(TableOf([a, b]), Root([a, b]), s)
    ensures var d := FirstBit(a.net.data, b.net.data);
            d < 32 &&
            var x := if Extract(d, 1, s) == 0 || a.net.len == d then a else b;
            Lookup(TableOf([a, b]), Root([a, b]), s) == if Agree(x.net.data, s, x.net.len) then Answer(x.hop, true) else Answer(0, false)
  {
    ApartPair(a, b);
    FirstBitIs(a.net.data, b.net.data);
    var base, d := [BaseOf(a), BaseOf(b)], FirstBit(a.net.data, b.net.data);
    assert SkipOf(base) == d && BranchOf(2) == 1;
    ExtractBound(d, 1, s);
    PowerOne();
    PairOwner(base, d, Extract(d, 1, s));
    hide Parted, Agree, Extract, Owner, Flat, FirstBit, Covers, Before, TableOf, Root, Small, Searchable, Lookup, SkipOf, BranchOf;
    FlatLookup([a, b], base, s);
  }

  // ---- is the answer right? ----

  /** The table of kept answers address s as longest-prefix match over all does. */
  ghost predicate RightAt(all: seq<Route>, kept: seq<Route>, s: Word) {
    && Small(kept) && Searchable(TableOf(kept), Root(kept), s)
    && var r := Lookup(TableOf(kept), Root(kept), s);
       LongestMatchAnswer(all, s, r.nexthop, r.found)
  }

  /** Right for every address, whatever sorting and deduplication leave. */
  ghost predicate Right(all: seq<Route>) {
    forall kept, s :: Deduplicates(all, kept) ==> RightAt(all, kept, s)
  }

  lemma LinkedPairRight(a: Route, b: Route, s: Word)
    requires Covers(a.net, b.net) && b.net.len <= 32
    ensures RightAt([a, b], [a, b], s)
  {
    hide Covers, Agree, Lookup, Small, Searchable, TableOf, Root, Matches, LongestMatchAnswer;
    var all := [a, b];
    TwoIn(a, b);
    LinkedPairLookup(a, b, s);
    LinkedAgree(a.net, b.net, s);
    if Matches(b.net, s) { AnswerOfBest(all, b, s); }
    else if Matches(a.net, s) { AnswerOfBest(all, a, s); }
    else { AnswerOfNone(all, s); }
  }

  lemma TwoIn(a: Route, b: Route)
    ensures a in [a, b] && b in [a, b] && forall r :: r in [a, b] ==> r == a || r == b
  {}

  lemma AnswerOfBest(all: seq<Route>, r: Route, s: Word)
    requires r in all && Matches(r.net, s) && forall q :: q in all && Matches(q.net, s) ==> q.net.len <= r.net.len
    ensures LongestMatchAnswer(all, s, r.hop, true)
  {
    hide Matches;
    assert IsBest(all, r.net, s);
  }

  lemma AnswerOfNone(all: seq<Route>, s: Word)
    requires forall q :: q in all ==> !Matches(q.net, s)
    ensures LongestMatchAnswer(all, s, 0, false)
  {
    hide Matches;
  }

  lemma LinkedAgree(a: Net, b: Net, s: Word)
    requires Covers(a, b) && b.len <= 32
    ensures Agree(b.data, s, a.len) <==> Matches(a, s)
    ensures Agree(b.data, s, b.len) <==> Matches(b, s)
    ensures a.len <= b.len
  {}

  /** When the table of two entries a before b is right: one of them is linked to the other, or
      they exclude each other, or b is a's parent network by one bit and a is its lower half. */
  predicate Fits(a: Net, b: Net) {
    Covers(a, b) || !Covers(b, a) || (a.len == b.len + 1 && !Agree(a.data, b.data, b.len + 1))
  }

  /** Which of the two s can be answered from, and that it is the right one. */
  lemma ApartPairChoice(a: Net, b: Net, s: Word)
    requires Before(a, b) && !Covers(a, b) && Fits(a, b) && a.len <= 32 && b.len <= 32 && a.data < b.data
    ensures var d := FirstBit(a.data, b.data);
            d < 32 &&
            var first := Extract(d, 1, s) == 0 || a.len == d;
            && (Matches(a, s) ==> first && (Matches(b, s) ==> b.len <= a.len))
            && (Matches(b, s) && !Matches(a, s) ==> !first)
  {
    FirstBitIs(a.data, b.data);
    var d := FirstBit(a.data, b.data);
    hide FirstBit, Extract, Agree;
    assert d < a.len by {
      if a.len <= d {
        AgreeShorter(a.data, b.data, a.len, d);
        if b.len < a.len { AgreeShorter(a.data, b.data, b.len, d); AgreeBack(a.data, b.data, b.len); }
      }
    }
    BitOf(a.data, s, d);
    if Matches(a, s) { AgreeShorter(a.data, s, d + 1, a.len); }
    if Matches(b, s) {
      if d < b.len {
        BitOf(b.data, s, d);
        AgreeShorter(b.data, s, d + 1, b.len);
      } else {
        // b ends before the bit, so a is its lower half
        AgreeShorter(a.data, b.data, b.len, d);
        AgreeBack(a.data, b.data, b.len);
        HalfOf(a, b, s, d);
      }
    }
  }

  /** Strings that agree up to a bit and in it have the same bit; the other way round as well. */
  lemma BitOf(x: Word, s: Word, d: nat)
    ensures Agree(x, s, d + 1) ==> Agree(x, s, d) && Extract(d, 1, x) == Extract(d, 1, s)
    ensures Agree(x, s, d) && Extract(d, 1, x) == Extract(d, 1, s) ==> Agree(x, s, d + 1)
  {
    if Agree(x, s, d + 1) { AgreeShorter(x, s, d, d + 1); }
    if Agree(x, s, d) { AgreeExtract(x, s, d, 1); }
  }

  lemma HalfOf(a: Net, b: Net, s: Word, d: nat)
    requires d < 32 && Agree(a.data, b.data, d) && !Agree(a.data, b.data, d + 1) && Extract(d, 1, a.data) == 0
    requires b.len <= d < a.len <= 32 && a.len == b.len + 1 && Matches(b, s)
    ensures !Matches(a, s) ==> Extract(d, 1, s) != 0
  {
    hide Extract, Agree;
    assert d == b.len;
    AgreeBack(a.data, b.data, d);
    AgreeTrans(a.data, b.data, s, d);
    BitOf(a.data, s, d);
  }

  lemma AgreeTrans(x: Word, y: Word, z: Word, n: nat)
    requires Agree(x, y, n) && Agree(y, z, n)
    ensures Agree(x, z, n)
  {}

  lemma ApartPairRight(a: Route, b: Route, s: Word)
    requires Before(a.net, b.net) && !Covers(a.net, b.net) && Fits(a.net, b.net) && a.net.len <= 32 && b.net.len <= 32
    ensures RightAt([a, b], [a, b], s)
  {
    ApartData(a, b);
    hide Covers, Agree, Lookup, Small, Searchable, TableOf, Root, Extract, FirstBit, Fits, Before, Matches, LongestMatchAnswer;
    var all := [a, b];
    TwoIn(a, b);
    ApartPairLookup(a, b, s);
    ApartPairChoice(a.net, b.net, s);
    MatchesIs(a.net, s);
    MatchesIs(b.net, s);
    if Matches(a.net, s) { AnswerOfBest(all, a, s); }
    else if Matches(b.net, s) { AnswerOfBest(all, b, s); }
    else { AnswerOfNone(all, s); }
  }

  lemma ApartData(a: Route, b: Route)
    requires Before(a.net, b.net) && !Covers(a.net, b.net) && a.net.len <= 32 && b.net.len <= 32
    ensures a.net.data < b.net.data
  {}

  lemma MatchesIs(q: Net, s: Word)
    requires q.len <= 32
    ensures Agree(q.data, s, q.len) <==> Matches(q, s)
  {}

  // ---- an address that gets lost ----

  /** The first m bits of x, then the other bit, then zeros. */
  function Turned(x: Word, m: nat): nat
    requires m < 32
  {
    (Top(x, m) * 2 + OtherBit(x, m)) * Pow2(31 - m)
  }

  function OtherBit(x: Word, m: nat): nat { if Extract(m, 1, x) == 0 then 1 else 0 }

  lemma TopOfMultiple(q: nat, m: nat, k: nat)
    requires m <= 31 && k <= 31 - m
    ensures Top(q * Pow2(31 - m), m + 1 + k) == q * Pow2(k)
  {
    hide Pow2;
    Pow2Add(31 - m, m + 1);
    Pow2Add(m + 1, k);
    Pow2At32();
    var h, j, p := Pow2(31 - m), Pow2(m + 1), Pow2(k);
    assert h * j == WORD;
    assert (q * h) * (j * p) == (q * p) * WORD by { Rearrange(q, h, j, p); }
    DivUnique((q * p) * WORD, WORD, q * p, 0);
  }

  lemma Rearrange(q: nat, h: nat, j: nat, p: nat)
    ensures (q * h) * (j * p) == (q * p) * (h * j)
  {
    MulAssoc(q, h, j * p);
    MulAssoc(h, j, p);
    MulAssoc(q, p, h * j);
    assert h * (j * p) == p * (h * j);
  }

  lemma TurnedIs(x: Word, m: nat)
    requires m < 32
    ensures var s := Turned(x, m);
            s < WORD && Agree(x, s, m) && !Agree(x, s, m + 1)
            && (forall i :: m < i < 32 ==> Extract(i, 1, s) == 0)
  {
    hide Agree, Extract, Pow2, Top;
    var bit := Extract(m, 1, x);
    PowerOne();
    TopSplit(x, m, 1);
    var q := Top(x, m) * 2 + OtherBit(x, m);
    var s := Turned(x, m);
    assert s == q * Pow2(31 - m);
    TurnedFits(x, m, q);
    TopOfMultiple(q, m, 0);
    PowerZero();
    assert Top(s, m + 1) == q;
    TopSplit(s, m, 1);
    assert Top(s, m) == Top(x, m) && Extract(m, 1, s) == 1 - bit;
    AgreeIs(x, s, m);
    AgreeIs(x, s, m + 1);
    forall i | m < i < 32 ensures Extract(i, 1, s) == 0 { TurnedZeros(q, m, i); }
  }

  lemma PowerZero()
    ensures Pow2(0) == 1
  {}

  lemma TurnedFits(x: Word, m: nat, q: nat)
    requires m < 32 && q < Top(x, m) * 2 + 2
    ensures q * Pow2(31 - m) < WORD
  {
    hide Extract, Pow2, Top;
    TopSplit(x, 0, m);
    TopZero(x);
    PowerOne();
    Pow2Add(m, 1);
    Pow2Add(m + 1, 31 - m);
    Pow2At32();
    assert q + 1 <= Pow2(m + 1);
    MulMono(q + 1, Pow2(m + 1), Pow2(31 - m));
    MulDist(q, 1, Pow2(31 - m));
  }

  lemma TurnedZeros(q: nat, m: nat, i: nat)
    requires m < i < 32 && q * Pow2(31 - m) < WORD
    ensures Extract(i, 1, q * Pow2(31 - m)) == 0
  {
    hide Extract, Pow2, Top;
    var s := q * Pow2(31 - m);
    PowerOne();
    TopOfMultiple(q, m, i - m - 1);
    TopOfMultiple(q, m, i - m);
    Pow2Add(i - m - 1, 1);
    MulAssoc(q, Pow2(i - m - 1), 2);
    TopSplit(s, i, 1);
  }

  /** A bit that the first entry of an unfit pair fixes and the second leaves open. */
  function OpenBit(a: Net, b: Net): nat {
    if b.len == FirstBit(a.data, b.data) then b.len + 1 else b.len
  }

  lemma OpenBitIs(a: Net, b: Net)
    requires Before(a, b) && !Fits(a, b) && a.len <= 32 && b.len <= 32 && a.data < b.data
    ensures b.len <= OpenBit(a, b) < a.len && OpenBit(a, b) != FirstBit(a.data, b.data) && b.len <= FirstBit(a.data, b.data)
  {
    FirstBitIs(a.data, b.data);
    var d := FirstBit(a.data, b.data);
    hide FirstBit, Extract, Agree;
    AgreeBack(b.data, a.data, b.len);
    assert a.len > b.len by {
      if a.len <= b.len { AgreeShorter(a.data, b.data, a.len, b.len); }
    }
    if d < b.len { AgreeShorter(a.data, b.data, d + 1, b.len); }
    if a.len == b.len + 1 { AgreeBack(a.data, b.data, b.len + 1); }
  }

  lemma LostBits(a: Net, b: Net)
    requires Before(a, b) && !Fits(a, b) && a.len <= 32 && b.len <= 32 && a.data < b.data
    ensures OpenBit(a, b) < 32
    ensures var s := Turned(a.data, OpenBit(a, b));
            s < WORD && Extract(FirstBit(a.data, b.data), 1, s) == 0 && !Agree(a.data, s, a.len) && Matches(b, s)
  {
    FirstBitIs(a.data, b.data);
    OpenBitIs(a, b);
    assert Agree(b.data, a.data, b.len);
    hide FirstBit, Extract, Agree, Turned, OpenBit;
    var d, m := FirstBit(a.data, b.data), OpenBit(a, b);
    TurnedIs(a.data, m);
    var s := Turned(a.data, m);
    assert Extract(d, 1, s) == 0 by {
      if d < m {
        AgreeShorter(a.data, s, d + 1, m);
        BitOf(a.data, s, d);
      }
    }
    assert !Agree(a.data, s, a.len) by {
      if Agree(a.data, s, a.len) { AgreeShorter(a.data, s, m + 1, a.len); }
    }
    AgreeShorter(a.data, s, b.len, m);
    AgreeTrans(b.data, a.data, s, b.len);
  }

  /** In an unfit pair: this address is matched by b, but walks to a's leaf and fails there. */
  lemma PairLoses(a: Route, b: Route)
    requires Before(a.net, b.net) && !Fits(a.net, b.net) && a.net.len <= 32 && b.net.len <= 32
    ensures a.net.data < b.net.data && OpenBit(a.net, b.net) < 32
    ensures var s := Turned(a.net.data, OpenBit(a.net, b.net));
            s < WORD && Matches(b.net, s)
            && Small([a, b]) && Searchable(TableOf([a, b]), Root([a, b]), s)
            && Lookup(TableOf([a, b]), Root([a, b]), s) == Answer(0, false)
  {
    ApartData(a, b);
    hide FirstBit, Extract, Agree, Lookup, TableOf, Root, Small, Searchable, Turned, OpenBit, Matches, Covers, Before;
    LostBits(a.net, b.net);
    ApartPairLookup(a, b, Turned(a.net.data, OpenBit(a.net, b.net)));
  }

  // ---- the condition ----

  /** Two strictly sorted sequences of the same routes are one sequence. */
  lemma {:induction false} SortedUnique(x: seq<Route>, y: seq<Route>)
    requires StrictlySorted(x) && StrictlySorted(y) && (forall r :: r in x <==> r in y)
    ensures x == y
    decreases |x|
  {
    if x == [] {
      HeadIn(y);
    } else {
      assert x[0] in y;
      var j :| 0 <= j < |y| && y[j] == x[0];
      assert y[0] in x;
      var i :| 0 <= i < |x| && x[i] == y[0];
      assert i == 0 && j == 0;
      forall r ensures r in x[1..] <==> r in y[1..] {
        if r in x[1..] { TailHas(x, y, r); }
        if r in y[1..] { TailHas(y, x, r); }
      }
      SortedUnique(x[1..], y[1..]);
      assert x == [x[0]] + x[1..] && y == [y[0]] + y[1..];
    }
  }

  lemma HeadIn(y: seq<Route>)
    ensures y == [] || y[0] in y
  {}

  lemma TailHas(x: seq<Route>, y: seq<Route>, r: Route)
    requires x != [] && y != [] && x[0] == y[0] && StrictlySorted(x) && (forall q :: q in x <==> q in y) && r in x[1..]
    ensures r in y[1..]
  {
    var i :| 0 <= i < |x| - 1 && x[1..][i] == r;
    assert x[i + 1] == r && r in x && r != x[0];
    var j :| 0 <= j < |y| && y[j] == r;
    assert y[1..][j - 1] == r;
  }

  /** Where all networks differ, deduplication keeps every route. */
  lemma KeptIs(all: seq<Route>, kept: seq<Route>, sorted: seq<Route>)
    requires Deduplicates(all, kept) && StrictlySorted(sorted) && (forall r :: r in all <==> r in sorted)
    ensures kept == sorted
  {
    forall r | r in sorted ensures r in kept {
      var k :| 0 <= k < |kept| && kept[k].net == r.net;
      assert kept[k] in all && kept[k] in sorted;
      var i :| 0 <= i < |sorted| && sorted[i] == r;
      var j :| 0 <= j < |sorted| && sorted[j] == kept[k];
      assert i == j;
    }
    hide Before;
    SortedUnique(kept, sorted);
  }

  /** What the answers for a set depend on. */
  lemma SameSet(all: seq<Route>, rs: seq<Route>, kept: seq<Route>, s: Word)
    requires forall r :: r in all <==> r in rs
    ensures RightAt(all, kept, s) <==> RightAt(rs, kept, s)
  {
    hide Lookup, Small, Searchable, TableOf, Root;
    if Small(kept) && Searchable(TableOf(kept), Root(kept), s) {
      var r := Lookup(TableOf(kept), Root(kept), s);
      if LongestMatchAnswer(all, s, r.nexthop, r.found) { SameAnswer(all, rs, s, r.nexthop, r.found); }
      if LongestMatchAnswer(rs, s, r.nexthop, r.found) { SameAnswer(rs, all, s, r.nexthop, r.found); }
    }
  }

  lemma SameAnswer(all: seq<Route>, rs: seq<Route>, s: Word, nexthop: nat, found: bool)
    requires (forall r :: r in all <==> r in rs) && LongestMatchAnswer(all, s, nexthop, found)
    ensures LongestMatchAnswer(rs, s, nexthop, found)
  {
    hide Matches;
    if found {
      var r :| r in all && r.hop == nexthop && IsBest(all, r.net, s);
      assert IsBest(rs, r.net, s);
    }
  }

  lemma PairKept(a: Route, b: Route, all: seq<Route>, kept: seq<Route>)
    requires Before(a.net, b.net) && Deduplicates(all, kept) && (all == [a, b] || all == [b, a])
    ensures kept == [a, b]
  {
    var sorted := [a, b];
    assert forall r :: r in all <==> r in sorted;
    hide Before, Deduplicates;
    assert StrictlySorted(sorted);
    KeptIs(all, kept, sorted);
  }

  lemma PairSorted(a: Route, b: Route, all: seq<Route>)
    requires Before(a.net, b.net) && (forall r :: r in all <==> r in [a, b])
    ensures Deduplicates(all, [a, b])
  {
    var sorted := [a, b];
    hide Before;
    assert StrictlySorted(sorted);
    hide StrictlySorted;
    forall r | r in all ensures exists k :: 0 <= k < |sorted| && sorted[k].net == r.net {
      var k :| 0 <= k < |sorted| && sorted[k] == r;
    }
  }

  lemma FitPairRight(a: Route, b: Route, all: seq<Route>)
    requires Before(a.net, b.net) && a.net.len <= 32 && b.net.len <= 32 && (all == [a, b] || all == [b, a]) && Fits(a.net, b.net)
    ensures Right(all)
  {
    var sorted := [a, b];
    assert forall r :: r in all <==> r in sorted;
    hide RightAt, Before, Deduplicates, Covers;
    forall kept, s | Deduplicates(all, kept) ensures RightAt(all, kept, s) {
      PairKept(a, b, all, kept);
      if Covers(a.net, b.net) { LinkedPairRight(a, b, s); } else { ApartPairRight(a, b, s); }
      SameSet(all, sorted, kept, s);
    }
  }

  lemma UnfitPairWrong(a: Route, b: Route, all: seq<Route>)
    requires Before(a.net, b.net) && a.net.len <= 32 && b.net.len <= 32 && (all == [a, b] || all == [b, a]) && !Fits(a.net, b.net)
    ensures !Right(all)
  {
    var sorted := [a, b];
    assert forall r :: r in all <==> r in sorted;
    assert all[0] == b || all[1] == b;
    hide Lookup, Small, Searchable, TableOf, Root, Turned, OpenBit, Covers, Before, Deduplicates, Matches, Fits;
    PairLoses(a, b);
    PairSorted(a, b, all);
    NotRight(all, sorted, Turned(a.net.data, OpenBit(a.net, b.net)), b);
  }

  /** A matched address for which the search gives not-found. */
  lemma NotRight(all: seq<Route>, kept: seq<Route>, s: Word, r: Route)
    requires r in all && Matches(r.net, s) && Deduplicates(all, kept)
    requires Small(kept) && Searchable(TableOf(kept), Root(kept), s) && Lookup(TableOf(kept), Root(kept), s) == Answer(0, false)
    ensures !Right(all)
  {
    hide Lookup, Small, Searchable, TableOf, Root, Deduplicates, Matches;
    assert !LongestMatchAnswer(all, s, 0, false);
    assert !RightAt(all, kept, s);
  }

  /** The table of two entries with different networks is right for every address exactly when
      they fit. */
  lemma PairRightIff(a: Route, b: Route, all: seq<Route>)
    requires Before(a.net, b.net) && a.net.len <= 32 && b.net.len <= 32 && (all == [a, b] || all == [b, a])
    ensures Right(all) <==> Fits(a.net, b.net)
  {
    hide Right, Fits, Before;
    if Fits(a.net, b.net) { FitPairRight(a, b, all); } else { UnfitPairWrong(a, b, all); }
  }

  // ---- one network twice ----

  lemma OneRight(r: Route, all: seq<Route>, s: Word)
    requires r in all && (forall q :: q in all ==> q.net == r.net) && r.net.len <= 32
    ensures RightAt(all, [r], s)
  {
    PartedApart([r], 1);
    OneLaid();
    MatchesIs(r.net, s);
    hide Parted, Laid;
    var t := TableOf([r]);
    assert Parted([r], 1).base == [BaseOf(r)];
    assert t == Table([0], [BaseOf(r)], []) && Root([r]) == Leaf(0);
    hide TableOf, Root, Small, Agree;
    if Matches(r.net, s) { assert IsBest(all, r.net, s); }
  }

  lemma TwiceKept(x: Route, y: Route, kept: seq<Route>)
    requires x.net == y.net && Deduplicates([x, y], kept)
    ensures kept == [x] || kept == [y]
  {
    var all := [x, y];
    assert all[0] == x && x in all;
    var k :| 0 <= k < |kept| && kept[k].net == x.net;
    forall i | 0 <= i < |kept| ensures kept[i].net == x.net && (kept[i] == x || kept[i] == y) {
      assert kept[i] in kept && kept[i] in all;
    }
    hide Deduplicates;
    assert |kept| == 1 by { NoTwo(kept, x.net); }
  }

  lemma NoTwo(kept: seq<Route>, q: Net)
    requires StrictlySorted(kept) && forall i :: 0 <= i < |kept| ==> kept[i].net == q
    ensures |kept| <= 1
  {
    assert |kept| > 1 ==> Before(kept[0].net, kept[1].net);
  }

  lemma TwiceRight(x: Route, y: Route)
    requires x.net == y.net && x.net.len <= 32
    ensures Right([x, y])
  {
    var all := [x, y];
    assert x in all && y in all && forall r :: r in all ==> r == x || r == y;
    forall kept, s | Deduplicates(all, kept) ensures RightAt(all, kept, s) {
      TwiceKept(x, y, kept);
      OneRight(kept[0], all, s);
    }
  }
}
