/** ConnPool: the tunnels of a multiplexer and the rank-based choice among them. */
module ConnPool {
  const SELECT_DECREASE: int := -100000
  const INITIAL_RANK: int := 1000000000

  // ---- the arithmetic of selection, on ranks alone ----

  predicate IsMax(ranks: seq<int>, i: nat) {
    i < |ranks| && forall j :: 0 <= j < |ranks| ==> ranks[j] <= ranks[i]
  }

  function AfterPick(ranks: seq<int>, i: nat): (r: seq<int>)
    requires i < |ranks|
    ensures |r| == |ranks|
  {
    ranks[i := ranks[i] + SELECT_DECREASE]
  }

  /** Each pick is some tunnel of the highest rank; nothing else about the choice is known. */
  ghost predicate IsRun(states: seq<seq<int>>, picks: seq<nat>) {
    && |states| == |picks| + 1
    && forall k {:trigger picks[k]} :: 0 <= k < |picks| ==> IsMax(states[k], picks[k]) && states[k + 1] == AfterPick(states[k], picks[k])
  }

  function Count(picks: seq<nat>, i: nat): nat {
    if picks == [] then 0 else Count(picks[..|picks| - 1], i) + if picks[|picks| - 1] == i then 1 else 0
  }

  ghost predicate SpreadWithin(ranks: seq<int>, d: int) {
    forall i, j :: 0 <= i < |ranks| && 0 <= j < |ranks| ==> ranks[i] - ranks[j] <= d
  }

  lemma {:induction false} RunSize(states: seq<seq<int>>, picks: seq<nat>, k: nat)
    requires IsRun(states, picks) && k < |states|
    ensures |states[k]| == |states[0]|
  {
    if k > 0 {
      RunSize(states, picks, k - 1);
      assert IsMax(states[k - 1], picks[k - 1]);
    }
  }

  /** The spread never exceeds the larger of what it was and one decrement. */
  lemma {:induction false} SpreadBounded(states: seq<seq<int>>, picks: seq<nat>, k: nat, d: int)
    requires IsRun(states, picks) && k < |states| && SpreadWithin(states[0], d)
    ensures SpreadWithin(states[k], if d < -SELECT_DECREASE then -SELECT_DECREASE else d)
  {
    if k > 0 {
      SpreadBounded(states, picks, k - 1, d);
      assert IsMax(states[k - 1], picks[k - 1]);
    }
  }

  /** Whatever the ranks were, a tunnel once picked stays within one decrement of the top. */
  lemma {:induction false} PickedStaysClose(states: seq<seq<int>>, picks: seq<nat>, k: nat, m: nat, j: nat)
    requires IsRun(states, picks) && m < k < |states| && picks[m] < |states[k]| && j < |states[k]|
    ensures states[k][j] <= states[k][picks[m]] - SELECT_DECREASE
    decreases k
  {
    assert IsMax(states[k - 1], picks[k - 1]) && states[k] == AfterPick(states[k - 1], picks[k - 1]);
    if m < k - 1 {
      PickedStaysClose(states, picks, k - 1, m, j);
      PickedStaysClose(states, picks, k - 1, m, picks[k - 1]);
    }
  }

  lemma {:induction false} RankIsCount(states: seq<seq<int>>, picks: seq<nat>, k: nat, i: nat)
    requires IsRun(states, picks) && k < |states| && i < |states[0]|
    ensures |states[k]| == |states[0]|
    ensures states[k][i] == states[0][i] + SELECT_DECREASE * Count(picks[..k], i)
  {
    RunSize(states, picks, k);
    if k > 0 {
      RankIsCount(states, picks, k - 1, i);
      assert IsMax(states[k - 1], picks[k - 1]);
      assert picks[..k][..k - 1] == picks[..k - 1];
    }
  }

  /** From equal ranks, any two tunnels have been chosen equally often, give or take one. */
  lemma Fair(states: seq<seq<int>>, picks: seq<nat>, k: nat, i: nat, j: nat)
    requires IsRun(states, picks) && k < |states| && i < |states[0]| && j < |states[0]| && SpreadWithin(states[0], 0)
    ensures Count(picks[..k], i) <= Count(picks[..k], j) + 1
  {
    SpreadBounded(states, picks, k, 0);
    RankIsCount(states, picks, k, i);
    RankIsCount(states, picks, k, j);
  }

  // ---- the pool ----

  class Conn {
    var rank: int

    constructor ()
      ensures rank == INITIAL_RANK
    {
      rank := INITIAL_RANK;
    }
  }

  ghost predicate Descending(pool: seq<Conn>)
    reads pool
  {
    forall i, j :: 0 <= i < j < |pool| ==> pool[i].rank >= pool[j].rank
  }

  lemma InsertSplits(s: seq<Conn>, j: nat, c: Conn)
    requires j <= |s|
    ensures multiset(s[..j] + [c] + s[j..]) == multiset(s + [c])
  {
    assert s == s[..j] + s[j..];
  }

  method InsertByRank(s: seq<Conn>, c: Conn) returns (r: seq<Conn>)
    requires Descending(s)
    ensures Descending(r) && multiset(r) == multiset(s + [c])
  {
    var j := 0;
    while j < |s| && s[j].rank >= c.rank
      invariant j <= |s|
      invariant forall m :: 0 <= m < j ==> s[m].rank >= c.rank
    {
      j := j + 1;
    }
    InsertSplits(s, j, c);
    Inserted(s, j, c);
    r := s[..j] + [c] + s[j..];
  }

  lemma Inserted(s: seq<Conn>, j: nat, c: Conn)
    requires Descending(s) && j <= |s| && (forall m :: 0 <= m < j ==> s[m].rank >= c.rank) && (j < |s| ==> s[j].rank < c.rank)
    ensures Descending(s[..j] + [c] + s[j..])
  {
    var r := s[..j] + [c] + s[j..];
    assert forall m :: 0 <= m < |r| ==> r[m] == if m < j then s[m] else if m == j then c else s[m - 1];
  }

  /** Some order by descending rank; callers know nothing about equal ranks. */
  method SortByRank(pool: seq<Conn>) returns (sorted: seq<Conn>)
    ensures multiset(sorted) == multiset(pool) && |sorted| == |pool|
    ensures Descending(sorted)
  {
    hide Descending;
    sorted := [];
    assert Descending(sorted) by { NothingToSort(); }
    var i := 0;
    while i < |pool|
      invariant i <= |pool| && multiset(sorted) == multiset(pool[..i])
      invariant Descending(sorted)
    {
      assert pool[..i + 1] == pool[..i] + [pool[i]];
      sorted := InsertByRank(sorted, pool[i]);
      i := i + 1;
    }
    assert pool[..i] == pool;
    assert |multiset(sorted)| == |sorted| && |multiset(pool)| == |pool|;
  }

  lemma NothingToSort()
    ensures Descending([])
  {}

  /** The first place of c, or -1. */
  method IndexOf(pool: seq<Conn>, c: Conn) returns (x: int)
    ensures -1 <= x < |pool|
    ensures x < 0 ==> c !in pool
    ensures x >= 0 ==> pool[x] == c && c !in pool[..x]
  {
    x := -1;
    var i := 0;
    while i < |pool|
      invariant i <= |pool| && x == -1 && c !in pool[..i]
    {
      if pool[i] == c {
        x := i;
        break;
      }
      i := i + 1;
    }
    assert pool[..|pool|] == pool;
  }

  class ConnPool {
    var pool: seq<Conn>

    constructor ()
      ensures pool == []
    {
      pool := [];
    }

    method Push(x: Conn)
      modifies this
      ensures pool == old(pool) + [x]
    {
      pool := pool + [x];
    }

    /** The first occurrence goes and the rest keep their order; false and no change if there
        is none. */
    method Remove(c: Conn) returns (ok: bool)
      modifies this
      ensures ok <==> c in old(pool)
      ensures !ok ==> pool == old(pool)
      ensures ok ==> exists x :: 0 <= x < |old(pool)| && old(pool)[x] == c && c !in old(pool)[..x] &&
                       pool == old(pool)[..x] + old(pool)[x + 1..]
    {
      var n := |pool|;
      var x := IndexOf(pool, c);
      if x < 0 {
        return false;
      }
      ghost var rest := pool[..x] + pool[x + 1..];
      if x == 0 {
        pool := pool[1..];
      } else if x == n - 1 {
        pool := pool[..x];
      } else {
        pool := pool[..x] + pool[x + 1..];
      }
      assert pool == rest;
      return true;
    }

    /** The choice has the highest rank and pays one decrement; the pool is only reordered. */
    method Select() returns (selected: Conn?)
      modifies this, multiset(pool)
      ensures selected == null <==> old(pool) == []
      ensures multiset(pool) == multiset(old(pool))
      ensures selected != null ==>
                && selected in old(pool)
                && (forall c :: c in old(pool) ==> old(c.rank) <= old(selected.rank))
                && selected.rank == old(selected.rank) + SELECT_DECREASE
                && (forall c :: c in old(pool) && c != selected ==> c.rank == old(c.rank))
    {
      if |pool| < 1 {
        return null;
      }
      ghost var was := pool;
      pool := SortByRank(pool);
      SameElements(was, pool);
      selected := pool[0];
      assert selected in pool && selected in multiset(was);
      assert forall c :: c in pool ==> c.rank <= selected.rank;
      selected.rank := selected.rank + SELECT_DECREASE;
    }
  }

  lemma SameElements(a: seq<Conn>, b: seq<Conn>)
    requires multiset(a) == multiset(b)
    ensures forall c :: c in a <==> c in b
  {
    forall c ensures c in a <==> c in b {
      assert c in a <==> c in multiset(a);
      assert c in b <==> c in multiset(b);
    }
  }

  ghost function Ranks(conns: seq<Conn>): (r: seq<int>)
    reads conns
    ensures |r| == |conns| && forall i :: 0 <= i < |conns| ==> r[i] == conns[i].rank
  {
    if conns == [] then [] else Ranks(conns[..|conns| - 1]) + [conns[|conns| - 1].rank]
  }

  lemma MaxThere(ranks: seq<int>, i: nat)
    requires i < |ranks| && forall j :: 0 <= j < |ranks| ==> ranks[j] <= ranks[i]
    ensures IsMax(ranks, i)
  {}

  lemma PickedThere(before: seq<int>, after: seq<int>, i: nat)
    requires i < |before| == |after| && after[i] == before[i] + SELECT_DECREASE
    requires forall j :: 0 <= j < |before| && j != i ==> after[j] == before[j]
    ensures after == AfterPick(before, i)
  {}

  /** One call of Select is one pick, numbering the tunnels as in conns. */
  method SelectOne(p: ConnPool, ghost conns: seq<Conn>) returns (c: Conn, ghost i: nat)
    requires conns != [] && multiset(p.pool) == multiset(conns)
    requires forall i, j :: 0 <= i < j < |conns| ==> conns[i] != conns[j]
    modifies p, multiset(conns)
    ensures multiset(p.pool) == multiset(conns) && i < |conns| && c == conns[i]
    ensures IsMax(old(Ranks(conns)), i) && Ranks(conns) == AfterPick(old(Ranks(conns)), i)
  {
    hide Ranks, IsMax, AfterPick;
    SameElements(p.pool, conns);
    assert conns[0] in p.pool;
    ghost var before := Ranks(conns);
    assert forall j :: 0 <= j < |conns| ==> conns[j] in p.pool;
    var r := p.Select();
    c := r;
    i :| 0 <= i < |conns| && conns[i] == c;
    MaxThere(before, i);
    assert forall j :: 0 <= j < |conns| && j != i ==> conns[j].rank == old(conns[j].rank);
    PickedThere(before, Ranks(conns), i);
  }

  lemma RunExtends(states: seq<seq<int>>, picks: seq<nat>, i: nat)
    requires IsRun(states, picks) && IsMax(states[|picks|], i)
    ensures IsRun(states + [AfterPick(states[|picks|], i)], picks + [i])
  {
    hide IsMax, AfterPick;
  }

  lemma FairAtEnd(states: seq<seq<int>>, picks: seq<nat>)
    requires IsRun(states, picks) && SpreadWithin(states[0], 0)
    ensures forall i, j :: 0 <= i < |states[0]| && 0 <= j < |states[0]| ==> Count(picks, i) <= Count(picks, j) + 1
  {
    hide IsMax, AfterPick, Count, SpreadWithin;
    forall i, j | 0 <= i < |states[0]| && 0 <= j < |states[0]| ensures Count(picks, i) <= Count(picks, j) + 1 {
      assert picks[..|picks|] == picks;
      Fair(states, picks, |picks|, i, j);
    }
  }

  /** chosen names the tunnels that picks numbers. */
  ghost predicate Numbers(conns: seq<Conn>, chosen: seq<Conn>, picks: seq<nat>) {
    |chosen| == |picks| && forall k :: 0 <= k < |picks| ==> picks[k] < |conns| && chosen[k] == conns[picks[k]]
  }

  lemma NumbersMore(conns: seq<Conn>, chosen: seq<Conn>, picks: seq<nat>, i: nat)
    requires Numbers(conns, chosen, picks) && i < |conns|
    ensures Numbers(conns, chosen + [conns[i]], picks + [i])
  {}

  /** n calls of Select on distinct tunnels of equal rank: no tunnel is chosen two times more
      often than another. */
  method SelectRepeatedly(p: ConnPool, n: nat) returns (chosen: seq<Conn>, ghost picks: seq<nat>)
    requires p.pool != []
    requires forall i, j :: 0 <= i < j < |p.pool| ==> p.pool[i] != p.pool[j]
    requires forall c, d :: c in p.pool && d in p.pool ==> c.rank == d.rank
    modifies p, multiset(p.pool)
    ensures |chosen| == |picks| == n
    ensures Numbers(old(p.pool), chosen, picks)
    ensures forall i, j :: 0 <= i < |old(p.pool)| && 0 <= j < |old(p.pool)| ==> Count(picks, i) <= Count(picks, j) + 1
  {
    ghost var conns := p.pool;
    chosen, picks := [], [];
    ghost var states := [Ranks(conns)];
    assert IsRun(states, picks);
    assert SpreadWithin(states[0], 0);
    hide IsRun, IsMax, AfterPick, Count, Numbers, SpreadWithin;
    while |chosen| < n
      invariant |chosen| == |picks| <= n && multiset(p.pool) == multiset(conns)
      invariant Numbers(conns, chosen, picks)
      invariant |states| == |picks| + 1 && IsRun(states, picks) && states[|picks|] == Ranks(conns) && states[0] == old(Ranks(conns))
      decreases n - |chosen|
    {
      var c;
      ghost var i;
      c, i := SelectOne(p, conns);
      RunExtends(states, picks, i);
      NumbersMore(conns, chosen, picks, i);
      chosen := chosen + [c];
      picks, states := picks + [i], states + [Ranks(conns)];
    }
    FairAtEnd(states, picks);
  }
}
