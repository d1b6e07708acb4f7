/** Two runs of the reconnection: the client goes offline for good, and a restarter destroys a
    multiplexer on which somebody listens. */
module RestartRace {
  import opened Restart

  ghost predicate Leads(s: State, acts: seq<Action>, s': State)
    decreases acts
  {
    if acts == [] then s == s' else Enabled(s, acts[0]) && Leads(Apply(s, acts[0]), acts[1..], s')
  }

  lemma LeadsStep(s: State, a: Action, acts: seq<Action>, s': State)
    requires Enabled(s, a) && Leads(Apply(s, a), acts, s')
    ensures Leads(s, [a] + acts, s')
  {
    hide Enabled, Apply;
    assert ([a] + acts)[1..] == acts;
  }

  lemma {:induction false} LeadsOn(s: State, acts: seq<Action>, mid: State, more: seq<Action>, s': State)
    requires Leads(s, acts, mid) && Leads(mid, more, s')
    ensures Leads(s, acts + more, s')
    decreases acts
  {
    hide Enabled, Apply;
    if acts == [] {
      assert acts + more == more;
    } else {
      LeadsOn(Apply(s, acts[0]), acts[1..], mid, more, s');
      assert (acts + more)[1..] == acts[1..] + more;
    }
  }

  /** Steps that lead somewhere are a run. */
  lemma {:induction false} LeadsIsRun(states: seq<State>, done: seq<Action>, acts: seq<Action>, s': State) returns (all: seq<State>)
    requires IsRun(states, done) && Leads(states[|done|], acts, s')
    ensures IsRun(all, done + acts) && all[|done + acts|] == s'
    decreases acts
  {
    hide Enabled, Apply;
    if acts == [] {
      assert done + acts == done;
      all := states;
    } else {
      var a := acts[0];
      all := LeadsIsRun(states + [Apply(states[|done|], a)], done + [a], acts[1..], s');
      assert done + [a] + acts[1..] == done + acts;
    }
  }

  /** Then the boot goroutine enters restart. */
  const Asked: State := State(true, 0, 0, false, map[0 := Restarting], 0)

  lemma ToAsked()
    ensures Leads(Start, [Load(0), Check(0)], Asked)
  {
    assert Leads(Asked, [], Asked);
    hide Leads;
    var s1 := State(true, 0, 0, false, map[0 := Top(true, 0)], 0);
    assert Apply(Start, Load(0)) == s1;
    assert Apply(s1, Check(0)) == Asked;
    LeadsStep(s1, Check(0), [], Asked);
    LeadsStep(Start, Load(0), [Check(0)], Asked);
    assert [Load(0)] + [Check(0)] == [Load(0), Check(0)];
  }

  /** Then the server is reached. */
  const Reached: State := State(true, 0, 0, true, map[0 := Stored], 1)

  lemma ToReached()
    ensures Leads(Asked, [Renew(0), Store(0)], Reached)
  {
    assert Leads(Reached, [], Reached);
    hide Leads;
    var s1 := State(true, 0, 0, true, map[0 := Connecting], 0);
    assert Apply(Asked, Renew(0)) == s1;
    assert Apply(s1, Store(0)) == Reached;
    LeadsStep(s1, Store(0), [], Reached);
    LeadsStep(Asked, Renew(0), [Store(0)], Reached);
    assert [Renew(0)] + [Store(0)] == [Renew(0), Store(0)];
  }

  /** Then a second data tunnel is asked for. */
  const Booted: State := State(true, 1, 0, true, map[0 := AtState(1, true), 1 := Spawned(false)], 1)

  lemma ToBooted()
    ensures Leads(Reached, [Add(0, 1), Fork(0, 1)], Booted)
  {
    assert Leads(Booted, [], Booted);
    hide Leads;
    var s1 := State(true, 1, 0, true, map[0 := Forking(1, 1)], 1);
    assert Apply(Reached, Add(0, 1)) == s1;
    assert Apply(s1, Fork(0, 1)) == Booted;
    LeadsStep(s1, Fork(0, 1), [], Booted);
    LeadsStep(Reached, Add(0, 1), [Fork(0, 1)], Booted);
    assert [Add(0, 1)] + [Fork(0, 1)] == [Add(0, 1), Fork(0, 1)];
  }

  /** Then the second goroutine starts. */
  const Started: State := State(true, 1, 0, true, map[0 := AtState(1, true), 1 := AtState(1, false)], 1)

  lemma ToStarted()
    ensures Leads(Booted, [Load(1), Check(1)], Started)
  {
    assert Leads(Started, [], Started);
    hide Leads;
    var s1 := State(true, 1, 0, true, map[0 := AtState(1, true), 1 := Top(false, 1)], 1);
    assert Apply(Booted, Load(1)) == s1;
    assert Apply(s1, Check(1)) == Started;
    LeadsStep(s1, Check(1), [], Started);
    LeadsStep(Booted, Load(1), [Check(1)], Started);
    assert [Load(1)] + [Check(1)] == [Load(1), Check(1)];
  }

  /** Then it is creating its tunnel, the first one is there. */
  const Creates: State := State(true, 1, 0, true, map[0 := Entering(1), 1 := Creating(1)], 1)

  lemma ToCreates()
    ensures Leads(Started, [Look(1), Look(0)], Creates)
  {
    assert Leads(Creates, [], Creates);
    hide Leads;
    var s1 := State(true, 1, 0, true, map[0 := AtState(1, true), 1 := Creating(1)], 1);
    assert Apply(Started, Look(1)) == s1;
    assert Apply(s1, Look(0)) == Creates;
    LeadsStep(s1, Look(0), [], Creates);
    LeadsStep(Started, Look(1), [Look(0)], Creates);
    assert [Look(1)] + [Look(0)] == [Look(1), Look(0)];
  }

  /** Then the first tunnel comes and goes. */
  const Lost: State := State(true, 1, 0, true, map[0 := AtCas, 1 := Creating(1)], 1)

  lemma ToLost()
    ensures Leads(Creates, [Enter(0), Leave(0)], Lost)
  {
    assert Leads(Lost, [], Lost);
    hide Leads;
    var s1 := State(true, 1, 1, true, map[0 := Listening(1), 1 := Creating(1)], 1);
    assert Apply(Creates, Enter(0)) == s1;
    assert Apply(s1, Leave(0)) == Lost;
    LeadsStep(s1, Leave(0), [], Lost);
    LeadsStep(Creates, Enter(0), [Leave(0)], Lost);
    assert [Enter(0)] + [Leave(0)] == [Enter(0), Leave(0)];
  }

  /** Then a restarter is spawned. */
  const Pending: State := State(false, 1, 0, true, map[1 := Creating(1), 2 := Spawned(true)], 1)

  lemma ToPending()
    ensures Leads(Lost, [Cas(0), Spawn(0, 2)], Pending)
  {
    assert Leads(Pending, [], Pending);
    hide Leads;
    var s1 := State(false, 1, 0, true, map[0 := Spawning, 1 := Creating(1)], 1);
    assert Apply(Lost, Cas(0)) == s1;
    assert Apply(s1, Spawn(0, 2)) == Pending;
    LeadsStep(s1, Spawn(0, 2), [], Pending);
    LeadsStep(Lost, Cas(0), [Spawn(0, 2)], Pending);
    assert [Cas(0)] + [Spawn(0, 2)] == [Cas(0), Spawn(0, 2)];
  }

  /** Then it enters restart. */
  const Entered: State := State(false, 1, 0, true, map[1 := Creating(1), 2 := Restarting], 1)

  lemma ToEntered()
    ensures Leads(Pending, [Load(2), Check(2)], Entered)
  {
    assert Leads(Entered, [], Entered);
    hide Leads;
    var s1 := State(false, 1, 0, true, map[1 := Creating(1), 2 := Top(true, 1)], 1);
    assert Apply(Pending, Load(2)) == s1;
    assert Apply(s1, Check(2)) == Entered;
    LeadsStep(s1, Check(2), [], Entered);
    LeadsStep(Pending, Load(2), [Check(2)], Entered);
    assert [Load(2)] + [Check(2)] == [Load(2), Check(2)];
  }

  /** Then it sees that nobody listens. */
  const Looked: State := State(false, 1, 0, true, map[1 := Creating(1), 2 := Seen], 1)

  lemma ToLooked()
    ensures Leads(Entered, [Zero(2)], Looked)
  {
    assert Leads(Looked, [], Looked);
    hide Leads;
    assert Apply(Entered, Zero(2)) == Looked;
    LeadsStep(Entered, Zero(2), [], Looked);
    assert [Zero(2)] + [] == [Zero(2)];
  }

  /** Then it replaces the multiplexer. */
  const Renewed: State := State(false, 1, 0, true, map[1 := Creating(1), 2 := Connecting], 1)

  lemma ToRenewed()
    ensures Leads(Looked, [Destroy(2), Renew(2)], Renewed)
  {
    assert Leads(Renewed, [], Renewed);
    hide Leads;
    var s1 := State(false, 1, 0, true, map[1 := Creating(1), 2 := Renewing], 1);
    assert Apply(Looked, Destroy(2)) == s1;
    assert Apply(s1, Renew(2)) == Renewed;
    LeadsStep(s1, Renew(2), [], Renewed);
    LeadsStep(Looked, Destroy(2), [Renew(2)], Renewed);
    assert [Destroy(2)] + [Renew(2)] == [Destroy(2), Renew(2)];
  }

  /** Then it stores, but has not added yet; the tunnel under creation is there. */
  const Reconnected: State := State(true, 1, 0, true, map[1 := Entering(1), 2 := Stored], 2)

  lemma ToReconnected()
    ensures Leads(Renewed, [Store(2), Created(1, true)], Reconnected)
  {
    assert Leads(Reconnected, [], Reconnected);
    hide Leads;
    var s1 := State(true, 1, 0, true, map[1 := Creating(1), 2 := Stored], 2);
    assert Apply(Renewed, Store(2)) == s1;
    assert Apply(s1, Created(1, true)) == Reconnected;
    LeadsStep(s1, Created(1, true), [], Reconnected);
    LeadsStep(Renewed, Store(2), [Created(1, true)], Reconnected);
    assert [Store(2)] + [Created(1, true)] == [Store(2), Created(1, true)];
  }

  /** Then that tunnel comes and goes. */
  const LostAgain: State := State(true, 1, 0, true, map[1 := AtCas, 2 := Stored], 2)

  lemma ToLostAgain()
    ensures Leads(Reconnected, [Enter(1), Leave(1)], LostAgain)
  {
    assert Leads(LostAgain, [], LostAgain);
    hide Leads;
    var s1 := State(true, 1, 1, true, map[1 := Listening(1), 2 := Stored], 2);
    assert Apply(Reconnected, Enter(1)) == s1;
    assert Apply(s1, Leave(1)) == LostAgain;
    LeadsStep(s1, Leave(1), [], LostAgain);
    LeadsStep(Reconnected, Enter(1), [Leave(1)], LostAgain);
    assert [Enter(1)] + [Leave(1)] == [Enter(1), Leave(1)];
  }

  /** Then a second restarter is spawned. */
  const PendingAgain: State := State(false, 1, 0, true, map[2 := Stored, 3 := Spawned(true)], 2)

  lemma ToPendingAgain()
    ensures Leads(LostAgain, [Cas(1), Spawn(1, 3)], PendingAgain)
  {
    assert Leads(PendingAgain, [], PendingAgain);
    hide Leads;
    var s1 := State(false, 1, 0, true, map[1 := Spawning, 2 := Stored], 2);
    assert Apply(LostAgain, Cas(1)) == s1;
    assert Apply(s1, Spawn(1, 3)) == PendingAgain;
    LeadsStep(s1, Spawn(1, 3), [], PendingAgain);
    LeadsStep(LostAgain, Cas(1), [Spawn(1, 3)], PendingAgain);
    assert [Cas(1)] + [Spawn(1, 3)] == [Cas(1), Spawn(1, 3)];
  }

  /** Then the add falls between its load and its check. */
  const Overtaken: State := State(false, 2, 0, true, map[2 := AtState(2, true), 3 := Top(true, 1)], 2)

  lemma ToOvertaken()
    ensures Leads(PendingAgain, [Load(3), Add(2, 0)], Overtaken)
  {
    assert Leads(Overtaken, [], Overtaken);
    hide Leads;
    var s1 := State(false, 1, 0, true, map[2 := Stored, 3 := Top(true, 1)], 2);
    assert Apply(PendingAgain, Load(3)) == s1;
    assert Apply(s1, Add(2, 0)) == Overtaken;
    LeadsStep(s1, Add(2, 0), [], Overtaken);
    LeadsStep(PendingAgain, Load(3), [Add(2, 0)], Overtaken);
    assert [Load(3)] + [Add(2, 0)] == [Load(3), Add(2, 0)];
  }

  /** Then both goroutines exit. */
  const Offline: State := State(false, 2, 0, true, map[], 2)

  lemma ToOffline()
    ensures Leads(Overtaken, [Check(3), Look(2)], Offline)
  {
    assert Leads(Offline, [], Offline);
    hide Leads;
    var s1 := State(false, 2, 0, true, map[2 := AtState(2, true)], 2);
    assert Apply(Overtaken, Check(3)) == s1;
    assert Apply(s1, Look(2)) == Offline;
    LeadsStep(s1, Look(2), [], Offline);
    LeadsStep(Overtaken, Check(3), [Look(2)], Offline);
    assert [Check(3)] + [Look(2)] == [Check(3), Look(2)];
  }

  ghost predicate Reachable(s: State) { exists acts :: Leads(Start, acts, s) }

  lemma StartReachable()
    ensures Reachable(Start)
  {
    assert Leads(Start, [], Start);
  }

  lemma ReachOn(s: State, acts: seq<Action>, s': State)
    requires Reachable(s) && Leads(s, acts, s')
    ensures Reachable(s')
  {
    hide Leads;
    var before :| Leads(Start, before, s);
    LeadsOn(Start, before, s, acts, s');
  }

  lemma RunTo(s: State) returns (states: seq<State>, acts: seq<Action>)
    requires Reachable(s)
    ensures IsRun(states, acts) && states[|acts|] == s
  {
    hide Leads, Enabled, Apply;
    acts :| Leads(Start, acts, s);
    assert IsRun([Start], []);
    states := LeadsIsRun([Start], [], acts, s);
    assert [] + acts == acts;
  }

  lemma ReachLooked()
    ensures Reachable(Looked)
  {
    ToAsked();
    ToReached();
    ToBooted();
    ToStarted();
    ToCreates();
    ToLost();
    ToPending();
    ToEntered();
    ToLooked();
    assert Reachable(Start) by { StartReachable(); }
    hide *;
    ReachOn(Start, [Load(0), Check(0)], Asked);
    ReachOn(Asked, [Renew(0), Store(0)], Reached);
    ReachOn(Reached, [Add(0, 1), Fork(0, 1)], Booted);
    ReachOn(Booted, [Load(1), Check(1)], Started);
    ReachOn(Started, [Look(1), Look(0)], Creates);
    ReachOn(Creates, [Enter(0), Leave(0)], Lost);
    ReachOn(Lost, [Cas(0), Spawn(0, 2)], Pending);
    ReachOn(Pending, [Load(2), Check(2)], Entered);
    ReachOn(Entered, [Zero(2)], Looked);
  }

  lemma ReachOffline()
    requires Reachable(Looked)
    ensures Reachable(Offline)
  {
    ToRenewed();
    ToReconnected();
    ToLostAgain();
    ToPendingAgain();
    ToOvertaken();
    ToOffline();
    hide *;
    ReachOn(Looked, [Destroy(2), Renew(2)], Renewed);
    ReachOn(Renewed, [Store(2), Created(1, true)], Reconnected);
    ReachOn(Reconnected, [Enter(1), Leave(1)], LostAgain);
    ReachOn(LostAgain, [Cas(1), Spawn(1, 3)], PendingAgain);
    ReachOn(PendingAgain, [Load(3), Add(2, 0)], Overtaken);
    ReachOn(Overtaken, [Check(3), Look(2)], Offline);
  }

  /** A legal run after which the client is pending and no goroutine is left. */
  lemma OfflineForGood() returns (states: seq<State>, acts: seq<Action>)
    ensures IsRun(states, acts) && states[|acts|] == Offline && Stuck(Offline) && Offline.threads == map[]
  {
    ReachLooked();
    ReachOffline();
    assert Stuck(Offline) && Offline.threads == map[];
    hide *;
    states, acts := RunTo(Offline);
  }

  /** Or, from there: the goroutine that was creating its tunnel has got it and listens. */
  const Crossed: State := State(false, 1, 1, true, map[1 := Listening(1), 2 := Seen], 1)

  lemma ToCrossed()
    ensures Leads(Looked, [Created(1, true), Enter(1)], Crossed)
  {
    assert Leads(Crossed, [], Crossed);
    hide Leads;
    var s1 := State(false, 1, 0, true, map[1 := Entering(1), 2 := Seen], 1);
    assert Apply(Looked, Created(1, true)) == s1;
    assert Apply(s1, Enter(1)) == Crossed;
    LeadsStep(s1, Enter(1), [], Crossed);
    LeadsStep(Looked, Created(1, true), [Enter(1)], Crossed);
    assert [Created(1, true)] + [Enter(1)] == [Created(1, true), Enter(1)];
  }

  /** After its last look the restarter may find a listener on the multiplexer it destroys. */
  lemma ListenerUnderDestroy() returns (states: seq<State>, acts: seq<Action>)
    ensures IsRun(states, acts) && states[|acts|] == Crossed && Enabled(Crossed, Destroy(2)) && 1 in Listeners(Crossed)
  {
    ReachLooked();
    ToCrossed();
    assert Enabled(Crossed, Destroy(2)) && 1 in Listeners(Crossed);
    hide *;
    ReachOn(Looked, [Created(1, true), Enter(1)], Crossed);
    states, acts := RunTo(Crossed);
  }
}
