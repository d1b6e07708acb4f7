/** The window between getRegistered and preDeliver: what a register in it costs, and exactly
    when the output of an edge has a gap. */
module MuxRace {
  import opened Mux
  import opened MuxSession
  import opened MuxGap
  import opened MuxRuns

  // ---- a lost frame ----

  ghost predicate Missing(v: View, no: nat) {
    no < |SentOf(v)| && forall i :: 0 <= i < |Pipe(v)| ==> Pipe(v)[i].no != no
  }

  lemma MissingStays(v: View, v': View, ch: Change, no: nat)
    requires Missing(v, no) && Changed(v, v', ch)
    ensures Missing(v', no)
  {
    hide Pipe, SentOf;
    match ch
    case Same =>
    case Grown(d) =>
    case Lost(a, b, c) =>
      forall i | 0 <= i < |a + c| ensures (a + c)[i].no != no {
        assert (a + c)[i] == (a + b + c)[if i < |a| then i else i + |b|];
      }
  }

  lemma MissingNotWritten(v: View, no: nat)
    requires Missing(v, no) && v.edge.Some?
    ensures forall i :: 0 <= i < |v.edge.value.written| ==> v.edge.value.written[i].no != no
  {
    var w := v.edge.value.written;
    forall i | 0 <= i < |w| ensures w[i].no != no { assert Pipe(v)[i] == w[i]; }
  }

  /** With a key registered, a frame in the hands of preDeliver lies between those at the edge
      and those on the tunnel; preDeliver takes it out. */
  lemma HeldPipe(v: View)
    requires Shape(v) && Can(v, Act.PreDeliver) && v.edge.Some? && v.pc.msg.Data?
    ensures Pipe(v) == Before(v) + [v.pc.msg.item] + DataOf(v.msgs)
  {
    hide EdgeItems, DataOf;
    assert PreItems(v) == [];
    assert Before(v) + [] == Before(v);
  }

  lemma DroppedPipe(v: View)
    requires Shape(v) && Can(v, Act.PreDeliver) && v.edge.Some? && v.pc.msg.Data?
    ensures Pipe(Do(v, Act.PreDeliver)) == Before(v) + DataOf(v.msgs) && SentOf(Do(v, Act.PreDeliver)) == SentOf(v)
  {
    hide EdgeItems, DataOf;
    var v' := Do(v, Act.PreDeliver);
    assert v' == v.(pc := Idle);
    assert PreItems(v') == [] && PcItems(v'.pc) == [];
    assert Before(v) + [] + [] == Before(v);
  }

  lemma WithoutMiddle(a: seq<Item>, x: Item, d: seq<Item>, sent: seq<seq<int>>)
    requires Selection(a + [x] + d, sent)
    ensures x.no < |sent| && forall i :: 0 <= i < |a + d| ==> (a + d)[i].no != x.no
  {
    var p := a + [x] + d;
    assert p[|a|] == x;
    forall i | 0 <= i < |a + d| ensures (a + d)[i].no != x.no {
      if i < |a| { assert p[i] == (a + d)[i]; } else { assert p[i + 1] == (a + d)[i]; }
    }
  }

  /** The frame preDeliver discards because the key has been registered meanwhile. */
  lemma RaceLosesFrame(v: View)
    requires Can(v, Act.PreDeliver) && Shape(v) && Ordered(v) && v.edge.Some? && v.pc.msg.Data?
    ensures Missing(Do(v, Act.PreDeliver), v.pc.msg.item.no)
  {
    HeldPipe(v);
    DroppedPipe(v);
    hide Pipe, Shape, Do, Before, DataOf, SentOf, Selection;
    WithoutMiddle(Before(v), v.pc.msg.item, DataOf(v.msgs), SentOf(v));
  }

  /** It is never written later, so from then on the edge is gap-free only if it writes nothing
      past the frames before it. */
  lemma {:induction false} LostForever(states: seq<State>, acts: seq<Action>, i: nat, j: nat, k: Key, no: nat)
    requires IsRun(states, acts) && i <= j < |states| == |acts| + 1 && Missing(ViewOf(states[i], k), no)
    ensures Missing(ViewOf(states[j], k), no)
    ensures k in states[j].edges ==>
              forall n :: 0 <= n < |states[j].edges[k].written| ==> states[j].edges[k].written[n].no != no
    decreases j
  {
    hide IsRun, Shape, Missing, Changed, Can, Do;
    if i < j {
      LostForever(states, acts, i, j - 1, k, no);
      var a := RunStep(states, acts, j - 1, k);
      var ch := StepChange(ViewOf(states[j - 1], k), a);
      MissingStays(ViewOf(states[j - 1], k), ViewOf(states[j], k), ch, no);
    }
    if k in states[j].edges { MissingNotWritten(ViewOf(states[j], k), no); }
  }

  /** Frames 0, 1, 2... of the peer, none left out. */
  predicate GapFree(written: seq<Item>) {
    forall n :: 0 <= n < |written| ==> written[n].no == n
  }

  // ---- every raced session loses a frame ----

  /** A register in the window leaves an edge, and either the frame is still in Listen's hands
      or some frame is lost. */
  ghost predicate RacedLost(v: View) {
    v.raced ==> v.edge.Some? && (Window(v.pc) || exists no: nat :: Missing(v, no))
  }

  lemma RegisterRaces(v: View)
    requires Shape(v) && Can(v, Act.Register)
    ensures v.edge.None?
    ensures var v' := Do(v, Act.Register);
            v'.edge.Some? && v'.pc == v.pc && (v'.raced ==> v.raced || Window(v.pc))
  {}

  /** Nothing else touches the mark, and no edge is ever taken away. */
  lemma OthersDoNot(v: View, a: Act)
    requires Shape(v) && Can(v, a) && !a.Register?
    ensures Do(v, a).raced == v.raced && (v.edge.Some? ==> Do(v, a).edge.Some?)
  {
    hide Push, Exit, NewEdge, Closed, Window;
  }

  lemma WindowEnds(v: View, a: Act)
    requires Shape(v) && Can(v, a) && v.edge.Some? && Window(v.pc)
    ensures Window(Do(v, a).pc) || (a.PreDeliver? && v.pc.msg.Data?)
  {}

  lemma RacedLostKept(v: View, a: Act)
    requires Shape(v) && Ordered(v) && Can(v, a) && RacedLost(v)
    ensures RacedLost(Do(v, a))
  {
    if a.Register? { RegisterRaces(v); } else { OthersDoNot(v, a); }
    hide Shape, Ordered, Can, Do, Changed, Missing, Window;
    if Do(v, a).raced && v.raced {
      if no: nat :| Missing(v, no) {
        var ch := StepChange(v, a);
        MissingStays(v, Do(v, a), ch, no);
      } else {
        WindowEnds(v, a);
        if !Window(Do(v, a).pc) { RaceLosesFrame(v); }
      }
    }
  }

  lemma StartRacedLost(k: Key)
    ensures RacedLost(ViewOf(Start, k))
  {}

  lemma {:induction false} RunRacedLost(states: seq<State>, acts: seq<Action>, i: nat, k: Key)
    requires IsRun(states, acts) && i < |states|
    ensures RacedLost(ViewOf(states[i], k)) && Good(ViewOf(states[i], k))
  {
    hide IsRun, Shape, Ordered, Gapless, RacedLost, Can, Do, ViewOf;
    assert |states| == |acts| + 1 && states[0] == Start by { RunEnds(states, acts); }
    RunsAreGood(states, acts, i, k);
    if i == 0 {
      StartRacedLost(k);
    } else {
      RunRacedLost(states, acts, i - 1, k);
      var a := RunStep(states, acts, i - 1, k);
      RacedLostKept(ViewOf(states[i - 1], k), a);
    }
  }

  lemma RunEnds(states: seq<State>, acts: seq<Action>)
    requires IsRun(states, acts)
    ensures |states| == |acts| + 1 && states[0] == Start
  {}

  /** The smallest number of a frame that was sent and is nowhere any more. */
  ghost predicate FirstMissing(v: View, no: nat) {
    Missing(v, no) && forall m: nat :: m < no ==> !Missing(v, m)
  }

  lemma {:induction false} FirstExists(v: View, no: nat) returns (first: nat)
    requires Missing(v, no)
    ensures FirstMissing(v, first)
    decreases no
  {
    hide Missing;
    if m: nat :| m < no && Missing(v, m) {
      first := FirstExists(v, m);
    } else {
      first := no;
    }
  }

  predicate Holds(items: seq<Item>, no: nat) {
    exists i :: 0 <= i < |items| && items[i].no == no
  }

  /** Strictly increasing numbers that miss none below `no` start 0, 1, 2... up to it. */
  lemma {:induction false} CountsUp(items: seq<Item>, sent: seq<seq<int>>, no: nat, n: nat)
    requires Selection(items, sent) && n < no && n < |items| && items[n].no < no
    requires forall m: nat :: m < no ==> Holds(items, m)
    ensures items[n].no == n
    decreases n
  {
    if n > 0 { CountsUp(items, sent, no, n - 1); }
    assert n > 0 ==> items[n - 1].no < items[n].no;
    if items[n].no > n {
      assert Holds(items, n);
      var i :| 0 <= i < |items| && items[i].no == n;
      assert i < n;
      CountsUp(items, sent, no, i);
    }
  }

  lemma WrittenFirst(v: View, n: nat)
    requires v.edge.Some? && n < |v.edge.value.written|
    ensures n < |Pipe(v)| && Pipe(v)[n] == v.edge.value.written[n]
  {}

  /** What is written is gap-free exactly when nothing past the first missing frame is. */
  lemma GapAtFirstMissing(v: View, no: nat)
    requires Ordered(v) && FirstMissing(v, no) && v.edge.Some?
    ensures var w := v.edge.value.written;
            GapFree(w) <==> forall n :: 0 <= n < |w| ==> w[n].no < no
  {
    var w := v.edge.value.written;
    MissingNotWritten(v, no);
    assert GapFree(w) ==> |w| <= no by { assert no < |w| ==> w[no].no != no; }
    if forall n :: 0 <= n < |w| ==> w[n].no < no {
      forall n | 0 <= n < |w| ensures w[n].no == n {
        forall m: nat | m < no ensures Holds(Pipe(v), m) { assert !Missing(v, m); }
        WrittenFirst(v, n);
        hide Pipe;
        NumbersGrow(Pipe(v), SentOf(v), n);
        CountsUp(Pipe(v), SentOf(v), no, n);
      }
    }
  }

  /** Increasing numbers grow at least by one. */
  lemma {:induction false} NumbersGrow(items: seq<Item>, sent: seq<seq<int>>, n: nat)
    requires Selection(items, sent) && n < |items|
    ensures n <= items[n].no
    decreases n
  {
    if n > 0 {
      NumbersGrow(items, sent, n - 1);
      assert items[n - 1].no < items[n].no;
    }
  }

  lemma WindowView(s: State, k: Key)
    ensures Window(ViewOf(s, k).pc) <==> InWindow(s, k)
  {
    hide Only;
  }

  /** The exact condition.  Once Listen is out of the window of a key, either no register fell
      into it and what the edge wrote is a prefix of what the peer sent, or one did; then some
      frame is lost, and the output is gap-free exactly as long as nothing past the first lost
      frame is written. */
  lemma GapExactly(states: seq<State>, acts: seq<Action>, i: nat, k: Key)
    requires IsRun(states, acts) && i < |states| && k in states[i].edges && !InWindow(states[i], k)
    ensures var w := states[i].edges[k].written;
            && (k !in states[i].raced ==> GapFree(w) && k in states[i].sent && Payloads(w) <= states[i].sent[k])
            && (k in states[i].raced ==>
                  exists no: nat :: FirstMissing(ViewOf(states[i], k), no) &&
                                    (GapFree(w) <==> forall n :: 0 <= n < |w| ==> w[n].no < no))
  {
    var v := ViewOf(states[i], k);
    RunRacedLost(states, acts, i, k);
    ViewParts(states[i], k);
    WindowView(states[i], k);
    if k in states[i].raced {
      assert v.raced;
      hide IsRun, ViewOf, Missing, Ordered, Shape, Gapless, Window, FirstMissing;
      var no: nat :| Missing(v, no);
      var first := FirstExists(v, no);
      GapAtFirstMissing(v, first);
    } else {
      assert !v.raced;
      DeliveredWithoutGap(states, acts, i, k);
      GoodCounted(v);
    }
  }

  // ---- the race, step by step ----

  const K: Key := Key(1, 7)

  /** OPEN and one frame sent; Listen has pre-registered the key and looked the frame up. */
  const Halfway: State :=
    State(map[K := [[10]]], {}, map[1 := []], map[1 := Looked(Data(7, Item(0, [10])), false, true)], {}, map[K := []], {K}, map[], {})

  /** Registered in between: the frame in Listen's hands has been dropped. */
  const Dropped: State :=
    State(map[K := [[10]]], {}, map[1 := []], map[1 := Idle], {K}, map[], {}, map[K := Edge(Some([]), [], [], false, false)], {K})

  const Ended: State :=
    State(map[K := [[10], [20]]], {}, map[1 := []], map[1 := Idle], {K}, map[], {},
          map[K := Edge(Some([]), [], [Item(1, [20])], false, false)], {K})

  ghost predicate Leads(s: State, acts: seq<Action>, s': State)
    decreases acts
  {
    if acts == [] then s == s' else Enabled(s, acts[0]) && Leads(Apply(s, acts[0]), acts[1..], s')
  }

  lemma LeadsStep(s: State, a: Action, acts: seq<Action>, s': State)
    requires Enabled(s, a) && Leads(Apply(s, a), acts, s')
    ensures Leads(s, [a] + acts, s')
  {
    hide Enabled, Apply;
    assert ([a] + acts)[1..] == acts;
  }

  /** OPEN and one frame are on the tunnel. */
  const Opened: State :=
    State(map[K := [[10]]], {}, map[1 := [Open(7), Data(7, Item(0, [10]))]], map[], {}, map[], {}, map[], {})

  lemma ToOpened()
    ensures Leads(Start, [Action.StartFast(K), Action.Send(K, [10])], Opened)
  {
    assert Leads(Opened, [], Opened);
    hide Leads;
    var s1 := State(map[K := []], {}, map[1 := [Open(7)]], map[], {}, map[], {}, map[], {});
    assert [] + [Open(7)] == [Open(7)];
    assert Apply(Start, Action.StartFast(K)) == s1;
    assert [] + [[10]] == [[10]];
    assert [Open(7)] + [Data(7, Item(0, [10]))] == [Open(7), Data(7, Item(0, [10]))];
    assert Apply(s1, Action.Send(K, [10])) == Opened;
    LeadsStep(s1, Action.Send(K, [10]), [], Opened);
    LeadsStep(Start, Action.StartFast(K), [Action.Send(K, [10])], Opened);
    assert [Action.StartFast(K)] + [Action.Send(K, [10])] == [Action.StartFast(K), Action.Send(K, [10])];
  }

  lemma ToLooked()
    ensures Leads(Opened, [Action.Take(1), Action.Take(1)], Halfway)
  {
    assert Leads(Halfway, [], Halfway);
    hide Leads;
    var s3 := State(map[K := [[10]]], {}, map[1 := [Data(7, Item(0, [10]))]], map[], {}, map[K := []], {K}, map[], {});
    assert Apply(Opened, Action.Take(1)) == s3;
    assert Apply(s3, Action.Take(1)) == Halfway;
    LeadsStep(s3, Action.Take(1), [], Halfway);
    LeadsStep(Opened, Action.Take(1), [Action.Take(1)], Halfway);
    assert [Action.Take(1)] + [Action.Take(1)] == [Action.Take(1), Action.Take(1)];
  }

  lemma ToHalfway()
    ensures Leads(Start, [Action.StartFast(K), Action.Send(K, [10]), Action.Take(1), Action.Take(1)], Halfway)
  {
    hide Leads, Apply, Enabled;
    ToOpened();
    ToLooked();
    var a, b := [Action.StartFast(K), Action.Send(K, [10])], [Action.Take(1), Action.Take(1)];
    LeadsTo(Start, a, Opened, b, Halfway);
    assert a + b == [Action.StartFast(K), Action.Send(K, [10]), Action.Take(1), Action.Take(1)];
  }

  lemma ToDropped()
    ensures Leads(Halfway, [Action.Register(K), Action.Resolve(1), Action.PreDeliver(1)], Dropped)
  {
    var m := Data(7, Item(0, [10]));
    var e := Edge(Some([]), [], [], false, false);
    var s1 := Apply(Halfway, Action.Register(K));
    assert s1 == State(map[K := [[10]]], {}, map[1 := []], map[1 := Looked(m, false, true)], {K}, map[], {}, map[K := e], {K});
    var s2 := Apply(s1, Action.Resolve(1));
    assert s2 == State(map[K := [[10]]], {}, map[1 := []], map[1 := ToPre(m)], {K}, map[], {}, map[K := e], {K});
    assert Apply(s2, Action.PreDeliver(1)) == Dropped;
    LeadsStep(s2, Action.PreDeliver(1), [], Dropped);
    LeadsStep(s1, Action.Resolve(1), [Action.PreDeliver(1)], Dropped);
  }

  /** The next frame, queued at the edge. */
  const Queued: State :=
    State(map[K := [[10], [20]]], {}, map[1 := []], map[1 := HasEdge(Data(7, Item(1, [20])))], {K}, map[], {},
          map[K := Edge(Some([]), [], [], false, false)], {K})

  /** The next frame is on the tunnel. */
  const Resent: State := Dropped.(sent := map[K := [[10], [20]]], inbox := map[1 := [Data(7, Item(1, [20]))]])

  lemma ToResent()
    ensures Leads(Dropped, [Action.Send(K, [20])], Resent)
  {
    assert Leads(Resent, [], Resent);
    hide Leads;
    var m := Data(7, Item(1, [20]));
    assert [[10]] + [[20]] == [[10], [20]] && [] + [m] == [m];
    assert Apply(Dropped, Action.Send(K, [20])) == Resent;
    LeadsStep(Dropped, Action.Send(K, [20]), [], Resent);
    assert [Action.Send(K, [20])] + [] == [Action.Send(K, [20])];
  }

  lemma ToQueued()
    ensures Leads(Resent, [Action.Take(1), Action.Resolve(1)], Queued)
  {
    assert Leads(Queued, [], Queued);
    hide Leads;
    var m := Data(7, Item(1, [20]));
    var s2 := Resent.(inbox := map[1 := []], listen := map[1 := Looked(m, true, false)]);
    assert Apply(Resent, Action.Take(1)) == s2;
    assert Apply(s2, Action.Resolve(1)) == Queued;
    LeadsStep(s2, Action.Resolve(1), [], Queued);
    LeadsStep(Resent, Action.Take(1), [Action.Resolve(1)], Queued);
    assert [Action.Take(1)] + [Action.Resolve(1)] == [Action.Take(1), Action.Resolve(1)];
  }

  lemma ToEnded()
    ensures Leads(Queued, [Action.Deliver(1), Action.Swap(K), Action.Write(K)], Ended)
  {
    var x := Item(1, [20]);
    var e := Edge(Some([]), [], [], false, false);
    var s4 := Apply(Queued, Action.Deliver(1));
    assert [] + [Frame(x)] == [Frame(x)];
    assert s4.edges == map[K := e.(queue := Some([Frame(x)]))];
    assert s4 == Queued.(listen := map[1 := Idle], edges := map[K := e.(queue := Some([Frame(x)]))]);
    var s5 := Apply(s4, Action.Swap(K));
    assert s5 == s4.(edges := map[K := e.(batch := [Frame(x)])]);
    var s6 := Apply(s5, Action.Write(K));
    assert [] + [x] == [x] && [Frame(x)][1..] == [];
    assert s6.edges == map[K := e.(written := [x])];
    assert s6 == Ended;
    LeadsStep(s5, Action.Write(K), [], Ended);
    LeadsStep(s4, Action.Swap(K), [Action.Write(K)], Ended);
  }

  lemma {:induction false} LeadsTo(s: State, a: seq<Action>, m: State, b: seq<Action>, s': State)
    requires Leads(s, a, m) && Leads(m, b, s')
    ensures Leads(s, a + b, s')
    decreases a
  {
    hide Enabled, Apply;
    if a == [] {
      assert a + b == b;
    } else {
      LeadsTo(Apply(s, a[0]), a[1..], m, b, s');
      LeadsStep(s, a[0], a[1..] + b, s');
      assert a + b == [a[0]] + (a[1..] + b);
    }
  }

  /** In the window the promise fails: the second frame is written, the first never is. */
  lemma RaceLeavesGap()
    ensures exists acts :: Leads(Start, acts, Ended)
    ensures K in Ended.raced && Payloads(Ended.edges[K].written) == [[20]]
    ensures !(Payloads(Ended.edges[K].written) <= Ended.sent[K])
  {
    hide Leads;
    ToHalfway();
    ToDropped();
    ToResent();
    ToQueued();
    ToEnded();
    var a := [Action.StartFast(K), Action.Send(K, [10]), Action.Take(1), Action.Take(1)];
    var b := [Action.Register(K), Action.Resolve(1), Action.PreDeliver(1)];
    var c0 := [Action.Send(K, [20])];
    var c := [Action.Take(1), Action.Resolve(1)];
    var d := [Action.Deliver(1), Action.Swap(K), Action.Write(K)];
    LeadsTo(Start, a, Halfway, b, Dropped);
    LeadsTo(Start, a + b, Dropped, c0, Resent);
    LeadsTo(Start, a + b + c0, Resent, c, Queued);
    LeadsTo(Start, a + b + c0 + c, Queued, d, Ended);
    var p := Payloads(Ended.edges[K].written);
    assert p == [[20]];
    assert p[0] != Ended.sent[K][0];
  }
}
