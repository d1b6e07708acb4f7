/** edgeConn.closed: a load and a compare-and-swap are separate steps, a forced close stores
    both bits.  Each bit is won at most once, in every interleaving. */
module CloseBits {
  /** TCP_CLOSE_R or TCP_CLOSE_W */
  datatype Mask = R | W

  datatype Bits = Bits(r: bool, w: bool)

  /** A caller of bitwiseCompareAndSet that has loaded and is about to swap. */
  datatype Caller = Ready | Loaded(mask: Mask, seen: Bits)

  datatype State = State(closed: Bits, callers: map<nat, Caller>, wins: seq<(nat, Mask)>)

  datatype Action = Load(c: nat, mask: Mask) | Swap(c: nat) | Force

  const Start: State := State(Bits(false, false), map[], [])

  predicate Has(b: Bits, m: Mask) { if m.R? then b.r else b.w }
  function With(b: Bits, m: Mask): Bits { if m.R? then b.(r := true) else b.(w := true) }
  function CallerOf(s: State, c: nat): Caller { if c in s.callers then s.callers[c] else Ready }

  predicate Enabled(s: State, a: Action) {
    match a
    case Load(c, _) => CallerOf(s, c).Ready?
    case Swap(c) => CallerOf(s, c).Loaded?
    case Force => true
  }

  function Apply(s: State, a: Action): State
    requires Enabled(s, a)
  {
    match a
    case Load(c, m) => if Has(s.closed, m) then s else s.(callers := s.callers[c := Loaded(m, s.closed)])
    case Swap(c) =>
      var x := CallerOf(s, c);
      var s1 := s.(callers := s.callers[c := Ready]);
      if s.closed == x.seen then s1.(closed := With(x.seen, x.mask), wins := s.wins + [(c, x.mask)]) else s1
    case Force => s.(closed := Bits(true, true))
  }

  ghost predicate IsRun(states: seq<State>, acts: seq<Action>) {
    && |states| == |acts| + 1 && states[0] == Start
    && forall i {:trigger acts[i]} :: 0 <= i < |acts| ==> Enabled(states[i], acts[i]) && states[i + 1] == Apply(states[i], acts[i])
  }

  ghost predicate Inv(s: State) {
    && (forall c :: c in s.callers && s.callers[c].Loaded? ==> !Has(s.callers[c].seen, s.callers[c].mask))
    && (forall i :: 0 <= i < |s.wins| ==> Has(s.closed, s.wins[i].1))
    && (forall i, j :: 0 <= i < j < |s.wins| ==> s.wins[i].1 != s.wins[j].1)
  }

  lemma InvKept(s: State, a: Action)
    requires Inv(s) && Enabled(s, a)
    ensures Inv(Apply(s, a))
  {}

  lemma {:induction false} RunInv(states: seq<State>, acts: seq<Action>, i: nat)
    requires IsRun(states, acts) && i < |states|
    ensures Inv(states[i])
  {
    hide Inv, Enabled, Apply;
    if i == 0 {
      StartInv();
    } else {
      RunInv(states, acts, i - 1);
      assert Enabled(states[i - 1], acts[i - 1]);
      InvKept(states[i - 1], acts[i - 1]);
    }
  }

  lemma StartInv()
    ensures Inv(Start)
  {}

  /** Each bit is won by at most one caller in a run, so relay sends at most one CLOSE_W for an
      edge and sendLoop at most one CLOSE_R. */
  lemma WonOnce(states: seq<State>, acts: seq<Action>, i: nat, a: nat, b: nat)
    requires IsRun(states, acts) && i < |states| && a < |states[i].wins| && b < |states[i].wins|
    requires states[i].wins[a].1 == states[i].wins[b].1
    ensures a == b
  {
    RunInv(states, acts, i);
  }

  /** Bits are never cleared. */
  lemma {:induction false} BitsGrow(states: seq<State>, acts: seq<Action>, i: nat, j: nat, m: Mask)
    requires IsRun(states, acts) && i <= j < |states| && Has(states[i].closed, m)
    ensures Has(states[j].closed, m)
    decreases j
  {
    hide Enabled;
    if i < j {
      BitsGrow(states, acts, i, j - 1, m);
      assert Enabled(states[j - 1], acts[j - 1]);
    }
  }

  /** Step k wins a bit, or is a forced close that sets one. */
  predicate Stores(s: State, a: Action)
    requires Enabled(s, a)
  {
    match a
    case Load(_, _) => false
    case Swap(c) => s.closed == CallerOf(s, c).seen
    case Force => !(s.closed.r && s.closed.w)
  }

  ghost predicate StoreAt(states: seq<State>, acts: seq<Action>, k: nat)
    requires k < |acts| && k < |states|
  {
    Enabled(states[k], acts[k]) && Stores(states[k], acts[k])
  }

  lemma StoreChanges(s: State, a: Action)
    requires Inv(s) && Enabled(s, a)
    ensures Stores(s, a) <==> Apply(s, a).closed != s.closed
    ensures Apply(s, a).wins == if a.Swap? && Stores(s, a) then s.wins + [(a.c, CallerOf(s, a.c).mask)] else s.wins
  {}

  /** Caller c loads mask m at step i, finds it clear, and its next step is the swap at j. */
  ghost predicate LoadThenSwap(states: seq<State>, acts: seq<Action>, i: nat, j: nat, c: nat, m: Mask)
    requires IsRun(states, acts)
  {
    && i < j < |acts| && acts[i] == Load(c, m) && acts[j] == Swap(c) && !Has(states[i].closed, m)
    && (forall k :: i < k < j ==> acts[k].Force? || acts[k].c != c)
  }

  /** Until the swap, c keeps what it saw. */
  lemma {:induction false} StillLoaded(states: seq<State>, acts: seq<Action>, i: nat, j: nat, c: nat, m: Mask, k: nat)
    requires IsRun(states, acts) && LoadThenSwap(states, acts, i, j, c, m) && i < k <= j
    ensures CallerOf(states[k], c) == Loaded(m, states[i].closed)
    decreases k
  {
    assert Enabled(states[k - 1], acts[k - 1]) && states[k] == Apply(states[k - 1], acts[k - 1]);
    if k - 1 > i { StillLoaded(states, acts, i, j, c, m, k - 1); }
  }

  /** The bits stay what they are exactly as long as nothing is stored. */
  lemma {:induction false} SameBits(states: seq<State>, acts: seq<Action>, i: nat, j: nat)
    requires IsRun(states, acts) && i <= j < |states|
    ensures states[j].closed == states[i].closed <==> forall k: nat :: i <= k < j ==> !StoreAt(states, acts, k)
    decreases j
  {
    hide Enabled, Apply, Stores, Inv;
    if i < j {
      SameBits(states, acts, i, j - 1);
      assert Enabled(states[j - 1], acts[j - 1]);
      RunInv(states, acts, j - 1);
      StoreChanges(states[j - 1], acts[j - 1]);
      assert StoreAt(states, acts, j - 1) <==> states[j].closed != states[j - 1].closed;
      if Has(states[j - 1].closed, R) { BitsGrow(states, acts, j - 1, j, R); }
      if Has(states[j - 1].closed, W) { BitsGrow(states, acts, j - 1, j, W); }
      if Has(states[i].closed, R) { BitsGrow(states, acts, i, j - 1, R); }
      if Has(states[i].closed, W) { BitsGrow(states, acts, i, j - 1, W); }
    }
  }

  /** In every run a swap wins its bit exactly when no step between its load and itself stored:
      no other swap won, no forced close set a bit. */
  lemma SwapWinsIff(states: seq<State>, acts: seq<Action>, i: nat, j: nat, c: nat, m: Mask)
    requires IsRun(states, acts) && LoadThenSwap(states, acts, i, j, c, m)
    ensures states[j + 1].wins == states[j].wins + [(c, m)] <==>
            forall k: nat :: i < k < j ==> !StoreAt(states, acts, k)
  {
    assert Enabled(states[j], acts[j]);
    assert states[i + 1].closed == states[i].closed by { assert Enabled(states[i], acts[i]); }
    StillLoaded(states, acts, i, j, c, m, j);
    RunInv(states, acts, j);
    StoreChanges(states[j], acts[j]);
    assert Stores(states[j], acts[j]) <==> states[j].closed == states[i].closed;
    hide Enabled, Apply, Stores, Inv, StoreAt, LoadThenSwap;
    SameBits(states, acts, i + 1, j);
  }

  /** So a caller can lose although its own bit is still clear: the other bit was won in between. */
  lemma LosesWithBitClear()
    ensures exists states: seq<State>, acts: seq<Action> :: IsRun(states, acts) && |acts| == 4 && acts[3] == Swap(1) &&
              states[4].wins == [(2, W)] && !Has(states[4].closed, R) && CallerOf(states[4], 1) == Ready
  {
    var s0 := Bits(false, false);
    var acts := [Load(1, R), Load(2, W), Swap(2), Swap(1)];
    var a := Start.(callers := map[1 := Loaded(R, s0)]);
    var b := a.(callers := map[1 := Loaded(R, s0), 2 := Loaded(W, s0)]);
    var c := b.(callers := map[1 := Loaded(R, s0), 2 := Ready], closed := Bits(false, true), wins := [(2, W)]);
    var d := c.(callers := map[1 := Ready, 2 := Ready]);
    assert Apply(Start, acts[0]) == a;
    assert Apply(a, acts[1]) == b;
    assert Apply(b, acts[2]) == c by {
      assert [] + [(2, W)] == [(2, W)];
      assert b.callers[2 := Ready] == c.callers;
    }
    assert Apply(c, acts[3]) == d by { assert c.callers[1 := Ready] == d.callers; }
    var states := [Start, a, b, c, d];
    assert IsRun(states, acts);
  }
}
