/** Reconnection on the client: every interleaving of StartTun goroutines, each atomic load,
    store, add, compare-and-swap and `go` a step of its own. */
module Restart {
  /** Where a goroutine stands in StartTun or in restart. */
  datatype Thread =
    | Spawned(must: bool)               // about to load round
    | Top(must: bool, rn: nat)          // about to compare rn with round
    | Restarting                        // about to load dtCnt, again and again until it is 0
    | Seen                              // loaded 0, about to destroy the old multiplexer
    | Renewing                          // about to make a new one
    | Connecting                        // about to store CLT_WORKING
    | Stored                            // about to add to round
    | Forking(rn: nat, left: nat)       // about to `go StartTun(false)`, that many times
    | AtState(rn: nat, tun: bool)       // about to load the state
    | Creating(rn: nat)                 // in createDataTun
    | Entering(rn: nat)                 // holds a tunnel, about to listen
    | Listening(rn: nat)
    | AtCas                             // was the last to listen
    | Spawning                          // won the swap to CLT_PENDING, about to `go StartTun(true)`

  /** working is state == CLT_WORKING, else it is CLT_PENDING; mux is c.mux != nil; stores
      counts the completed stores of CLT_WORKING. */
  datatype State = State(working: bool, round: nat, dt: int, mux: bool, threads: map<nat, Thread>, stores: nat)

  datatype Action =
    | Load(g: nat) | Check(g: nat)
    | Zero(g: nat) | Destroy(g: nat) | Renew(g: nat) | Store(g: nat) | Add(g: nat, n: nat) | Fork(g: nat, kid: nat)
    | Look(g: nat) | Created(g: nat, ok: bool) | Enter(g: nat) | Leave(g: nat) | Cas(g: nat) | Spawn(g: nat, kid: nat)

  /** The boot: StartTun(true) on a client that says it is working. */
  const Start: State := State(true, 0, 0, false, map[0 := Spawned(true)], 0)

  predicate Enabled(s: State, a: Action) {
    a.g in s.threads &&
    var t := s.threads[a.g];
    match a
    case Load(_) => t.Spawned?
    case Check(_) => t.Top?
    case Zero(_) => t.Restarting? && s.mux && s.dt <= 0
    case Destroy(_) => t.Seen?
    case Renew(_) => t.Renewing? || (t.Restarting? && !s.mux)
    case Store(_) => t.Connecting?
    case Add(_, _) => t.Stored?
    case Fork(_, kid) => t.Forking? && t.left > 0 && kid !in s.threads
    case Look(_) => t.AtState?
    case Created(_, _) => t.Creating?
    case Enter(_) => t.Entering?
    case Leave(_) => t.Listening?
    case Cas(_) => t.AtCas?
    case Spawn(_, kid) => t.Spawning? && kid !in s.threads
  }

  function Move(s: State, g: nat, t: Thread): State { s.(threads := s.threads[g := t]) }
  function Quit(s: State, g: nat): State { s.(threads := s.threads - {g}) }

  /** With n goroutines still to start, or on with the tunnel at hand. */
  function Forks(rn: nat, n: nat): Thread { if n == 0 then AtState(rn, true) else Forking(rn, n) }

  function Apply(s: State, a: Action): State
    requires Enabled(s, a)
  {
    var g := a.g;
    var t := s.threads[g];
    match a
    case Load(_) => Move(s, g, Top(t.must, s.round))
    case Check(_) =>
      if t.rn < s.round then Quit(s, g)
      else if t.must then Move(s, g, Restarting)
      else Move(s, g, AtState(t.rn, false))
    case Zero(_) => Move(s, g, Seen)
    case Destroy(_) => Move(s, g, Renewing)
    case Renew(_) => Move(s, g, Connecting).(mux := true)
    case Store(_) => Move(s, g, Stored).(working := true, stores := s.stores + 1)
    case Add(_, n) => Move(s, g, Forks(s.round + 1, n)).(round := s.round + 1)
    case Fork(_, kid) => Move(Move(s, g, Forks(t.rn, t.left - 1)), kid, Spawned(false))
    case Look(_) =>
      if !s.working then Quit(s, g)
      else if t.tun then Move(s, g, Entering(t.rn))
      else Move(s, g, Creating(t.rn))
    case Created(_, ok) => if ok then Move(s, g, Entering(t.rn)) else Move(s, g, Top(false, t.rn))
    case Enter(_) => Move(s, g, Listening(t.rn)).(dt := s.dt + 1)
    case Leave(_) =>
      if s.dt - 1 <= 0 then Move(s, g, AtCas).(dt := s.dt - 1)
      else Move(s, g, Top(false, t.rn)).(dt := s.dt - 1)
    case Cas(_) => if s.working then Move(s, g, Spawning).(working := false) else Quit(s, g)
    case Spawn(_, kid) => Move(Quit(s, g), kid, Spawned(true))
  }

  ghost predicate IsRun(states: seq<State>, acts: seq<Action>) {
    && |states| == |acts| + 1 && states[0] == Start
    && forall i {:trigger acts[i]} :: 0 <= i < |acts| ==> Enabled(states[i], acts[i]) && states[i + 1] == Apply(states[i], acts[i])
  }

  // ---- at most one restarter ----

  /** From the moment the swap is won to the store of CLT_WORKING. */
  predicate Restarter(t: Thread) {
    (t.Spawned? && t.must) || (t.Top? && t.must) || t.Restarting? || t.Seen? || t.Renewing? || t.Connecting? || t.Spawning?
  }

  predicate Restarts(s: State, g: nat) { g in s.threads && Restarter(s.threads[g]) }

  ghost predicate Inv(s: State) {
    && (forall g, h :: Restarts(s, g) && Restarts(s, h) ==> g == h)
    && (forall g: nat :: Restarts(s, g) && s.working ==> s.round == 0 && s.threads.Keys == {g})
  }

  /** Who is a restarter after a step: the winner of the swap, or who was one and did not
      store or quit; a spawned one takes over from its parent. */
  lemma RestarterStep(s: State, a: Action, h: nat)
    requires Enabled(s, a)
    ensures Restarts(Apply(s, a), h) <==>
            if h == a.g then (a.Cas? && s.working) || (Restarts(s, h) && !a.Store? && !a.Spawn? && !(a.Check? && s.threads[h].rn < s.round))
            else Restarts(s, h) || (a.Spawn? && h == a.kid)
  {}

  lemma InvKept(s: State, a: Action)
    requires Inv(s) && Enabled(s, a)
    ensures Inv(Apply(s, a))
  {
    var s' := Apply(s, a);
    forall g, h | Restarts(s', g) && Restarts(s', h) ensures g == h {
      RestarterStep(s, a, g);
      RestarterStep(s, a, h);
      hide Apply;
      if a.Spawn? { assert Restarts(s, a.g); }
      if a.Cas? && s.working { OthersRestNot(s, a.g, g); OthersRestNot(s, a.g, h); }
    }
    assert a.Store? ==> Restarts(s, a.g);
    forall g: nat | Restarts(s', g) && s'.working ensures s'.round == 0 && s'.threads.Keys == {g} {
      RestarterStep(s, a, g);
      if g != a.g && Restarts(s, g) { OthersRestNot(s, a.g, g); }
    }
  }

  lemma OthersRestNot(s: State, g: nat, h: nat)
    requires Inv(s) && s.working && g in s.threads && !Restarts(s, g)
    ensures !Restarts(s, h)
  {}

  lemma {:induction false} RunInv(states: seq<State>, acts: seq<Action>, i: nat)
    requires IsRun(states, acts) && i < |states|
    ensures Inv(states[i])
  {
    hide Enabled, Apply;
    if i > 0 {
      RunInv(states, acts, i - 1);
      assert Enabled(states[i - 1], acts[i - 1]);
      hide Inv;
      InvKept(states[i - 1], acts[i - 1]);
    }
  }

  /** In every reachable state at most one goroutine is restarting the client. */
  lemma OneRestarter(states: seq<State>, acts: seq<Action>, i: nat, g: nat, h: nat)
    requires IsRun(states, acts) && i < |states| && Restarts(states[i], g) && Restarts(states[i], h)
    ensures g == h
  {
    RunInv(states, acts, i);
  }

  // ---- one round for each restart ----

  function Waiting(s: State): set<nat> { set g | g in s.threads && s.threads[g].Stored? }

  ghost predicate Counted(s: State) { s.stores == s.round + |Waiting(s)| }

  /** Only the moving goroutine and fresh ones change. */
  lemma OthersStay(s: State, a: Action, h: nat)
    requires Enabled(s, a) && h != a.g
    ensures h in s.threads ==> h in Apply(s, a).threads && Apply(s, a).threads[h] == s.threads[h]
    ensures h in Apply(s, a).threads && h !in s.threads ==> Apply(s, a).threads[h].Spawned?
  {}

  lemma WaitingStep(s: State, a: Action, h: nat)
    requires Enabled(s, a)
    ensures h in Waiting(Apply(s, a)) <==> if h == a.g then a.Store? else h in Waiting(s)
  {
    if h != a.g { OthersStay(s, a, h); hide Apply; }
  }

  lemma CountersStep(s: State, a: Action)
    requires Enabled(s, a)
    ensures Apply(s, a).stores == s.stores + if a.Store? then 1 else 0
    ensures Apply(s, a).round == s.round + if a.Add? then 1 else 0
    ensures Apply(s, a).dt == s.dt + if a.Enter? then 1 else if a.Leave? then -1 else 0
    ensures a.g in Waiting(s) <==> a.Add?
  {}

  lemma Tally(l: set<nat>, l': set<nat>, g: nat, comes: bool, goes: bool)
    requires (forall h: nat :: h in l' <==> if h == g then comes else h in l) && (g in l <==> goes) && !(comes && goes)
    ensures |l'| == |l| + (if comes then 1 else 0) - if goes then 1 else 0
  {
    if comes {
      assert l' == l + {g};
    } else if goes {
      assert l' == l - {g};
    } else {
      assert l' == l;
    }
  }

  lemma CountedKept(s: State, a: Action)
    requires Counted(s) && Enabled(s, a)
    ensures Counted(Apply(s, a))
  {
    hide Apply, Enabled;
    var s' := Apply(s, a);
    CountersStep(s, a);
    forall h: nat ensures h in Waiting(s') <==> if h == a.g then a.Store? else h in Waiting(s) { WaitingStep(s, a, h); }
    Tally(Waiting(s), Waiting(s'), a.g, a.Store?, a.Add?);
  }

  /** round is the number of restarts done: those that stored CLT_WORKING, less those whose
      add is still to come. */
  lemma {:induction false} RoundCountsRestarts(states: seq<State>, acts: seq<Action>, i: nat)
    requires IsRun(states, acts) && i < |states|
    ensures Counted(states[i])
  {
    hide Enabled, Apply;
    if i == 0 {
      assert Waiting(Start) == {};
    } else {
      RoundCountsRestarts(states, acts, i - 1);
      assert Enabled(states[i - 1], acts[i - 1]);
      hide Counted;
      CountedKept(states[i - 1], acts[i - 1]);
    }
  }

  // ---- who listens when the old multiplexer is destroyed? ----

  function Listeners(s: State): set<nat> { set g | g in s.threads && s.threads[g].Listening? }

  ghost predicate Tallied(s: State) { s.dt == |Listeners(s)| }

  lemma ListenersStep(s: State, a: Action, h: nat)
    requires Enabled(s, a)
    ensures h in Listeners(Apply(s, a)) <==> if h == a.g then a.Enter? else h in Listeners(s)
    ensures a.g in Listeners(s) <==> a.Leave?
  {
    if h != a.g { OthersStay(s, a, h); hide Apply; }
  }

  lemma TalliedKept(s: State, a: Action)
    requires Tallied(s) && Enabled(s, a)
    ensures Tallied(Apply(s, a))
  {
    hide Apply, Enabled;
    var s' := Apply(s, a);
    CountersStep(s, a);
    forall h: nat ensures h in Listeners(s') <==> if h == a.g then a.Enter? else h in Listeners(s) { ListenersStep(s, a, h); }
    ListenersStep(s, a, a.g);
    Tally(Listeners(s), Listeners(s'), a.g, a.Enter?, a.Leave?);
  }

  lemma {:induction false} RunTallied(states: seq<State>, acts: seq<Action>, i: nat)
    requires IsRun(states, acts) && i < |states|
    ensures Tallied(states[i])
  {
    hide Enabled, Apply;
    if i == 0 {
      assert Listeners(Start) == {};
    } else {
      RunTallied(states, acts, i - 1);
      assert Enabled(states[i - 1], acts[i - 1]);
      hide Tallied;
      TalliedKept(states[i - 1], acts[i - 1]);
    }
  }

  /** The load of dtCnt that ends the wait finds no listener. */
  lemma ZeroMeansNobody(states: seq<State>, acts: seq<Action>, i: nat)
    requires IsRun(states, acts) && i < |acts| && acts[i].Zero?
    ensures Listeners(states[i]) == {}
  {
    assert Enabled(states[i], acts[i]);
    RunTallied(states, acts, i);
  }

  /** h entered after step i and did not leave before step m. */
  ghost predicate EnteredSince(acts: seq<Action>, i: nat, m: nat, h: nat)
    requires i <= m <= |acts|
  {
    exists k: nat :: i <= k < m && acts[k] == Enter(h) && StaysIn(acts, k, m, h)
  }

  predicate StaysIn(acts: seq<Action>, k: nat, m: nat, h: nat)
    requires m <= |acts|
  {
    forall l :: k < l < m ==> acts[l] != Leave(h)
  }

  lemma EnteredStep(acts: seq<Action>, i: nat, m: nat, h: nat)
    requires i <= m < |acts|
    ensures EnteredSince(acts, i, m + 1, h) <==> acts[m] == Enter(h) || (EnteredSince(acts, i, m, h) && acts[m] != Leave(h))
  {
    if acts[m] == Enter(h) { assert StaysIn(acts, m, m + 1, h); }
    if EnteredSince(acts, i, m, h) && acts[m] != Leave(h) {
      var k: nat :| i <= k < m && acts[k] == Enter(h) && StaysIn(acts, k, m, h);
      assert StaysIn(acts, k, m + 1, h);
    }
    if EnteredSince(acts, i, m + 1, h) && acts[m] != Enter(h) {
      var k: nat :| i <= k < m + 1 && acts[k] == Enter(h) && StaysIn(acts, k, m + 1, h);
      assert StaysIn(acts, k, m, h);
    }
  }

  /** Who listens, counted from a moment when nobody did. */
  lemma {:induction false} ListensIff(states: seq<State>, acts: seq<Action>, i: nat, m: nat, h: nat)
    requires IsRun(states, acts) && i <= m < |states| && h !in Listeners(states[i])
    ensures h in Listeners(states[m]) <==> EnteredSince(acts, i, m, h)
    decreases m
  {
    hide Enabled, Apply, Listeners, StaysIn;
    if i < m {
      ListensIff(states, acts, i, m - 1, h);
      var s, a := states[m - 1], acts[m - 1];
      assert Enabled(s, a) && states[m] == Apply(s, a);
      EnteredStep(acts, i, m - 1, h);
      ListenersStep(s, a, h);
      ListenersStep(s, a, a.g);
      ActionIs(a, h);
      hide EnteredSince;
    }
  }

  lemma ActionIs(a: Action, h: nat)
    ensures a == Enter(h) <==> a.Enter? && a.g == h
    ensures a == Leave(h) <==> a.Leave? && a.g == h
  {}

  /** When the old multiplexer is destroyed, a goroutine listens on it exactly if it entered
      after the restarter's last look at dtCnt and has not left. */
  lemma ListenerAtDestroyIff(states: seq<State>, acts: seq<Action>, i: nat, j: nat, g: nat, h: nat)
    requires IsRun(states, acts) && i < j < |acts| && acts[i] == Zero(g) && acts[j] == Destroy(g)
    ensures h in Listeners(states[j]) <==> EnteredSince(acts, i, j, h)
  {
    ZeroMeansNobody(states, acts, i);
    ListensIff(states, acts, i, j, h);
  }

  /** Every destroy has such a look before it, and nothing of the restarter in between. */
  lemma {:induction false} LookedBefore(states: seq<State>, acts: seq<Action>, j: nat, m: nat, g: nat)
    requires IsRun(states, acts) && m <= j < |acts| && acts[j] == Destroy(g) && (forall l :: m <= l < j ==> acts[l].g != g)
    requires g in states[m].threads && states[m].threads[g].Seen?
    ensures exists i :: 0 <= i < m && acts[i] == Zero(g) && forall l :: i < l < j ==> acts[l].g != g
    decreases m
  {
    if m > 0 {
      var s, a := states[m - 1], acts[m - 1];
      assert Enabled(s, a) && states[m] == Apply(s, a);
      SeenComesFrom(s, a, g);
      if a != Zero(g) {
        hide Enabled, Apply;
        LookedBefore(states, acts, j, m - 1, g);
      }
    }
  }

  lemma SeenComesFrom(s: State, a: Action, g: nat)
    requires Enabled(s, a) && g in Apply(s, a).threads && Apply(s, a).threads[g].Seen?
    ensures a == Zero(g) || (a.g != g && g in s.threads && s.threads[g].Seen?)
  {
    if g != a.g { OthersStay(s, a, g); }
  }

  /** Step i is the last thing the restarter did before step j. */
  ghost predicate LastLook(acts: seq<Action>, i: nat, j: nat)
    requires j < |acts|
  {
    i < j && acts[i] == Zero(acts[j].g) && forall l :: i < l < j ==> acts[l].g != acts[j].g
  }

  ghost predicate SomebodyEntered(acts: seq<Action>, i: nat, j: nat)
    requires i <= j <= |acts|
  {
    exists h: nat :: EnteredSince(acts, i, j, h)
  }

  lemma ListenersAtDestroy(states: seq<State>, acts: seq<Action>, i: nat, j: nat)
    requires IsRun(states, acts) && j < |acts| && acts[j].Destroy? && LastLook(acts, i, j)
    ensures Listeners(states[j]) != {} <==> SomebodyEntered(acts, i, j)
  {
    var g := acts[j].g;
    assert acts[j] == Destroy(g);
    forall h: nat ensures h in Listeners(states[j]) <==> EnteredSince(acts, i, j, h) {
      ListenerAtDestroyIff(states, acts, i, j, g, h);
    }
    hide Listeners, EnteredSince, Enabled, Apply, IsRun;
    if Listeners(states[j]) != {} {
      var h :| h in Listeners(states[j]);
      assert EnteredSince(acts, i, j, h);
    }
  }

  /** So in every run: at a destroy somebody listens if and only if somebody entered since the
      restarter's last look and has not left. */
  lemma DestroyedUnderListener(states: seq<State>, acts: seq<Action>, j: nat)
    requires IsRun(states, acts) && j < |acts| && acts[j].Destroy?
    ensures exists i: nat :: LastLook(acts, i, j) && (Listeners(states[j]) != {} <==> SomebodyEntered(acts, i, j))
  {
    var g := acts[j].g;
    assert acts[j] == Destroy(g);
    assert g in states[j].threads && states[j].threads[g].Seen? by { assert Enabled(states[j], acts[j]); }
    LookedBefore(states, acts, j, j, g);
    hide Enabled, Apply, IsRun, Listeners, SomebodyEntered;
    var i: nat :| i < j && acts[i] == Zero(g) && forall l :: i < l < j ==> acts[l].g != g;
    assert LastLook(acts, i, j);
    ListenersAtDestroy(states, acts, i, j);
  }

  // ---- a working client has somebody who serves or reconnects ----

  /** A goroutine of the present round, or one that is bringing about the next. */
  predicate Serves(s: State, g: nat) {
    g in s.threads &&
    match s.threads[g]
    case Stored => true
    case AtCas => true
    case Forking(rn, _) => rn == s.round
    case Top(_, rn) => rn == s.round
    case AtState(rn, _) => rn == s.round
    case Creating(rn) => rn == s.round
    case Entering(rn) => rn == s.round
    case Listening(rn) => rn == s.round
    case Spawned(must) => must
    case Restarting => true
    case Seen => true
    case Renewing => true
    case Connecting => true
    case Spawning => true
  }

  lemma ServesStep(s: State, a: Action, h: nat)
    requires Enabled(s, a) && Serves(s, h) && Apply(s, a).working && s.working
    ensures Serves(Apply(s, a), h) || Serves(Apply(s, a), a.g) || (a.Spawn? && Serves(Apply(s, a), a.kid))
  {}

  lemma StoreServes(s: State, a: Action)
    requires Enabled(s, a) && Apply(s, a).working && !s.working
    ensures Serves(Apply(s, a), a.g)
  {}

  /** In every reachable state in which the client is working, some goroutine serves the
      present round or is about to restart. */
  lemma {:induction false} WorkingIsServed(states: seq<State>, acts: seq<Action>, i: nat)
    requires IsRun(states, acts) && i < |states| && states[i].working
    ensures exists g: nat :: Serves(states[i], g)
  {
    hide Enabled, Apply, Serves;
    if i == 0 {
      assert Serves(Start, 0) by { BootServes(); }
    } else {
      var s, a := states[i - 1], acts[i - 1];
      assert Enabled(s, a) && states[i] == Apply(s, a);
      if s.working {
        WorkingIsServed(states, acts, i - 1);
        var h: nat :| Serves(s, h);
        ServesStep(s, a, h);
      } else {
        StoreServes(s, a);
      }
    }
  }

  lemma BootServes()
    ensures Serves(Start, 0)
  {}

  // ---- can the client stay offline? ----

  /** Pending, and nobody is left to restart. */
  ghost predicate Stuck(s: State) { !s.working && forall g :: !Restarts(s, g) }

  /** A restarter finds that round has moved past the value it loaded, and exits. */
  predicate GivesUp(s: State, a: Action) {
    Enabled(s, a) && a.Check? && s.threads[a.g].must && s.threads[a.g].rn < s.round
  }

  lemma StuckStays(s: State, a: Action)
    requires Stuck(s) && Enabled(s, a)
    ensures Stuck(Apply(s, a))
  {
    var s' := Apply(s, a);
    assert !Restarts(s, a.g);
    forall g: nat ensures !Restarts(s', g) { RestarterStep(s, a, g); }
  }

  lemma GivingUpSticks(s: State, a: Action)
    requires Inv(s) && GivesUp(s, a)
    ensures Stuck(Apply(s, a))
  {
    var s' := Apply(s, a);
    assert Restarts(s, a.g);
    forall g: nat ensures !Restarts(s', g) { RestarterStep(s, a, g); }
  }

  lemma NoOtherWay(s: State, a: Action)
    requires Enabled(s, a) && Stuck(Apply(s, a)) && !GivesUp(s, a)
    ensures Stuck(s)
  {
    var s' := Apply(s, a);
    RestarterStep(s, a, a.g);
    assert !s.working;
    if a.Spawn? { RestarterStep(s, a, a.kid); }
    forall g: nat ensures !Restarts(s, g) { RestarterStep(s, a, g); }
  }

  /** The client is stuck exactly when some restarter has given up. */
  lemma {:induction false} StuckIffGaveUp(states: seq<State>, acts: seq<Action>, n: nat)
    requires IsRun(states, acts) && n < |states|
    ensures Stuck(states[n]) <==> exists j :: 0 <= j < n && GivesUp(states[j], acts[j])
  {
    hide Enabled, Apply, GivesUp, Inv;
    if n == 0 {
      assert Restarts(Start, 0);
    } else {
      StuckIffGaveUp(states, acts, n - 1);
      assert Enabled(states[n - 1], acts[n - 1]);
      RunInv(states, acts, n - 1);
      hide Stuck;
      if Stuck(states[n - 1]) { StuckStays(states[n - 1], acts[n - 1]); }
      else if GivesUp(states[n - 1], acts[n - 1]) { GivingUpSticks(states[n - 1], acts[n - 1]); }
      else if Stuck(states[n]) { NoOtherWay(states[n - 1], acts[n - 1]); }
    }
  }

  // ---- when does a restarter give up? ----

  /** Step i is the load and step j the check of one restarter g. */
  ghost predicate LoadThenCheck(states: seq<State>, acts: seq<Action>, i: nat, j: nat, g: nat)
    requires IsRun(states, acts)
  {
    && i < j < |acts| && acts[i] == Load(g) && acts[j] == Check(g)
    && g in states[i].threads && states[i].threads[g] == Spawned(true)
    && (forall m :: i < m < j ==> acts[m] != Check(g))
  }

  lemma RestarterWaits(s: State, a: Action, g: nat, rn: nat)
    requires Enabled(s, a) && a != Check(g) && g in s.threads && s.threads[g] == Top(true, rn)
    ensures g in Apply(s, a).threads && Apply(s, a).threads[g] == Top(true, rn)
  {
    assert a.g != g;
    OthersStay(s, a, g);
  }

  /** Between its load and its check a restarter keeps the round it loaded. */
  lemma {:induction false} KeepsRound(states: seq<State>, acts: seq<Action>, i: nat, j: nat, g: nat, m: nat)
    requires IsRun(states, acts) && LoadThenCheck(states, acts, i, j, g) && i < m <= j
    ensures g in states[m].threads && states[m].threads[g] == Top(true, states[i].round)
    decreases m
  {
    assert Enabled(states[m - 1], acts[m - 1]) && states[m] == Apply(states[m - 1], acts[m - 1]);
    if m > i + 1 {
      KeepsRound(states, acts, i, j, g, m - 1);
      hide Enabled, Apply;
      RestarterWaits(states[m - 1], acts[m - 1], g, states[i].round);
    }
  }

  /** round moves exactly at the adds. */
  lemma {:induction false} RoundMoves(states: seq<State>, acts: seq<Action>, i: nat, j: nat)
    requires IsRun(states, acts) && i <= j < |states|
    ensures states[i].round <= states[j].round
    ensures states[i].round < states[j].round <==> exists k :: i <= k < j && acts[k].Add?
    decreases j
  {
    hide Enabled, Apply;
    if i < j {
      RoundMoves(states, acts, i, j - 1);
      assert Enabled(states[j - 1], acts[j - 1]);
      CountersStep(states[j - 1], acts[j - 1]);
    }
  }

  /** A restarter gives up exactly when another goroutine's add falls between its load and
      its check. */
  lemma GivesUpIff(states: seq<State>, acts: seq<Action>, i: nat, j: nat, g: nat)
    requires IsRun(states, acts) && LoadThenCheck(states, acts, i, j, g)
    ensures GivesUp(states[j], acts[j]) <==> exists k :: i < k < j && acts[k].Add?
  {
    KeepsRound(states, acts, i, j, g, j);
    RoundMoves(states, acts, i, j);
    assert Enabled(states[j], acts[j]);
    hide Enabled, Apply;
  }

  /** Every restarter at its check has loaded. */
  lemma {:induction false} HasLoaded(states: seq<State>, acts: seq<Action>, j: nat, m: nat, g: nat)
    requires IsRun(states, acts) && m <= j < |acts| && acts[j] == Check(g) && (forall k :: m <= k < j ==> acts[k] != Check(g))
    requires g in states[m].threads && states[m].threads[g].Top? && states[m].threads[g].must
    ensures exists i :: 0 <= i < m && LoadThenCheck(states, acts, i, j, g)
    decreases m
  {
    if m > 0 {
      var s, a := states[m - 1], acts[m - 1];
      assert Enabled(s, a) && states[m] == Apply(s, a);
      if a == Load(g) {
        assert LoadThenCheck(states, acts, m - 1, j, g);
      } else {
        TopComesFrom(s, a, g);
        HasLoaded(states, acts, j, m - 1, g);
      }
    }
  }

  lemma TopComesFrom(s: State, a: Action, g: nat)
    requires Enabled(s, a) && a != Load(g) && g in Apply(s, a).threads
    requires Apply(s, a).threads[g].Top? && Apply(s, a).threads[g].must
    ensures a != Check(g) && g in s.threads && s.threads[g].Top? && s.threads[g].must
  {
    if g != a.g { OthersStay(s, a, g); }
  }

  /** The client goes offline for good exactly when an add falls between the load and the
      check of a restarter. */
  lemma StuckIff(states: seq<State>, acts: seq<Action>, n: nat)
    requires IsRun(states, acts) && n < |states|
    ensures Stuck(states[n]) <==>
            exists i: nat, k: nat, j: nat, g: nat :: k < j < n && LoadThenCheck(states, acts, i, j, g) && i < k && acts[k].Add?
  {
    StuckIffGaveUp(states, acts, n);
    hide Enabled, Apply, Stuck;
    if Stuck(states[n]) {
      var j :| 0 <= j < n && GivesUp(states[j], acts[j]);
      var g := acts[j].g;
      AtCheck(states[j], acts[j]);
      HasLoaded(states, acts, j, j, g);
      var i :| 0 <= i < j && LoadThenCheck(states, acts, i, j, g);
      GivesUpIff(states, acts, i, j, g);
    }
    if i: nat, k: nat, j: nat, g: nat :| k < j < n && LoadThenCheck(states, acts, i, j, g) && i < k && acts[k].Add? {
      GivesUpIff(states, acts, i, j, g);
    }
  }

  lemma AtCheck(s: State, a: Action)
    requires GivesUp(s, a)
    ensures a == Check(a.g) && a.g in s.threads && s.threads[a.g].Top? && s.threads[a.g].must
  {}

  /** So the client comes back whenever no restarter loads while a store waits for its add. */
  lemma NeverStuck(states: seq<State>, acts: seq<Action>, n: nat)
    requires IsRun(states, acts) && n < |states|
    requires forall i :: 0 <= i < |acts| && acts[i].Load? && Restarts(states[i], acts[i].g) ==> Waiting(states[i]) == {}
    ensures !Stuck(states[n])
  {
    StuckIff(states, acts, n);
    hide Enabled, Apply, Stuck;
    if i: nat, k: nat, j: nat, g: nat :| k < j < n && LoadThenCheck(states, acts, i, j, g) && i < k && acts[k].Add? {
      assert Enabled(states[k], acts[k]);
      CountersStep(states[k], acts[k]);
      WaitingSince(states, acts, i, j, g, k, acts[k].g);
      assert false;
    }
  }

  /** While one restarter is between load and check nobody else stores. */
  lemma {:induction false} WaitingSince(states: seq<State>, acts: seq<Action>, i: nat, j: nat, g: nat, m: nat, h: nat)
    requires IsRun(states, acts) && LoadThenCheck(states, acts, i, j, g) && i <= m <= j && h in Waiting(states[m])
    ensures h in Waiting(states[i])
    decreases m
  {
    hide Enabled, Apply;
    if m > i {
      var s, a := states[m - 1], acts[m - 1];
      assert Enabled(s, a) && states[m] == Apply(s, a);
      WaitingStep(s, a, h);
      RunInv(states, acts, m - 1);
      if m - 1 > i { KeepsRound(states, acts, i, j, g, m - 1); }
      assert Restarts(s, g);
      StoreRestarts(s, a);
      assert !(a.Store? && a.g == h);
      WaitingSince(states, acts, i, j, g, m - 1, h);
    }
  }

  lemma StoreRestarts(s: State, a: Action)
    requires Enabled(s, a)
    ensures a.Store? ==> Restarts(s, a.g) && s.threads[a.g].Connecting?
  {}
}
