/** Whole runs of the multiplexer: every interleaving, every session. */
module MuxRuns {
  import opened Mux
  import opened MuxSession
  import opened MuxGap

  /** The frames of one session among those on its tunnel. */
  function Only(ms: seq<Msg>, sid: nat): seq<Msg> {
    if ms == [] then [] else Only(ms[..|ms| - 1], sid) + if ms[|ms| - 1].sid == sid then [ms[|ms| - 1]] else []
  }

  lemma OnlyAppend(ms: seq<Msg>, m: Msg, sid: nat)
    ensures Only(ms + [m], sid) == Only(ms, sid) + if m.sid == sid then [m] else []
  {
    assert (ms + [m])[..|ms|] == ms;
  }

  lemma {:induction false} OnlyHead(ms: seq<Msg>, sid: nat)
    requires ms != []
    ensures Only(ms, sid) == (if ms[0].sid == sid then [ms[0]] else []) + Only(ms[1..], sid)
    decreases |ms|
  {
    if |ms| > 1 {
      var front, last := ms[..|ms| - 1], ms[|ms| - 1];
      OnlyHead(front, sid);
      assert ms[1..] == front[1..] + [last];
      OnlyAppend(front[1..], last, sid);
    }
  }

  function PcFor(s: State, k: Key): Pc {
    var pc := PcOf(s, k.tun);
    if !pc.Idle? && pc.msg.sid == k.sid then pc else Idle
  }

  function Lookup<V>(m: map<Key, V>, k: Key): Option<V> { if k in m then Some(m[k]) else None }

  function ViewOf(s: State, k: Key): View {
    View(k.sid, Lookup(s.sent, k), k in s.ended, Only(Inbox(s, k.tun), k.sid), PcFor(s, k), k in s.registry,
         Lookup(s.pre, k), k in s.dialing, Lookup(s.edges, k), k in s.raced)
  }

  /** What an action means for session k. */
  ghost function Seen(s: State, a: Action, k: Key): Act
    requires Enabled(s, a)
  {
    match a
    case StartFast(j) => if j == k then Act.StartFast else Nothing
    case StartDirect(j) => if j == k then Act.StartDirect else Nothing
    case Send(j, d) => if j == k then Act.Send(d) else Nothing
    case SendCloseW(j) => if j == k then Act.SendCloseW else Nothing
    case Take(t) => if MsgKey(t, Inbox(s, t)[0]) == k then Act.Take else Nothing
    case Resolve(t) => if MsgKey(t, PcOf(s, t).msg) == k then Act.Resolve else Nothing
    case Unregister(t) => if MsgKey(t, PcOf(s, t).msg) == k then Act.Unregister else Nothing
    case Deliver(t) => if MsgKey(t, PcOf(s, t).msg) == k then Act.Deliver else Nothing
    case PreDeliver(t) => if MsgKey(t, PcOf(s, t).msg) == k then Act.PreDeliver else Nothing
    case Register(j) => if j == k then Act.Register else Nothing
    case DialFail(j) => if j == k then Act.DialFail else Nothing
    case Swap(j) => if j == k then Act.Swap else Nothing
    case Write(j) => if j == k then Act.Write else Nothing
    case WriteFail(j) => if j == k then Act.WriteFail else Nothing
    case HitMark(j) => if j == k then Act.HitMark else Nothing
    case Evict(j) => if j == k then Act.Evict else Nothing
    case Clean(j) => if j == k then Act.Clean else Nothing
    case MarkR(j) => if j == k then Act.MarkR else Nothing
    case MarkW(t) => if MsgKey(t, PcOf(s, t).msg) == k then Act.MarkW else Nothing
  }

  ghost predicate Mirrors(s: State, a: Action, k: Key)
    requires Enabled(s, a)
  {
    Can(ViewOf(s, k), Seen(s, a, k)) && ViewOf(Apply(s, a), k) == Do(ViewOf(s, k), Seen(s, a, k))
  }

  // Changing one component of the state changes one component of one session's view.

  lemma EdgeView(s: State, j: Key, e: Edge, k: Key)
    ensures ViewOf(SetEdge(s, j, e), k) == if j == k then ViewOf(s, k).(edge := Some(e)) else ViewOf(s, k)
  {
    hide Only;
  }

  lemma PcView(s: State, t: nat, pc: Pc, k: Key)
    ensures ViewOf(SetPc(s, t, pc), k) ==
            if t == k.tun then ViewOf(s, k).(pc := if !pc.Idle? && pc.msg.sid == k.sid then pc else Idle) else ViewOf(s, k)
  {
    hide Only;
  }

  lemma RegistryView(s: State, j: Key, k: Key)
    ensures ViewOf(s.(registry := s.registry - {j}), k) == if j == k then ViewOf(s, k).(reg := false) else ViewOf(s, k)
  {
    hide Only;
  }

  lemma PreView(s: State, j: Key, b: seq<Item>, k: Key)
    ensures ViewOf(s.(pre := s.pre[j := b]), k) == if j == k then ViewOf(s, k).(pre := Some(b)) else ViewOf(s, k)
  {
    hide Only;
  }

  lemma SendView(s: State, t: nat, m: Msg, k: Key)
    ensures ViewOf(Sends(s, t, m), k) ==
            if MsgKey(t, m) == k then ViewOf(s, k).(msgs := ViewOf(s, k).msgs + [m]) else ViewOf(s, k)
  {
    hide Only;
    OnlyAppend(Inbox(s, t), m, k.sid);
    assert Only(Inbox(s, k.tun), k.sid) + [] == Only(Inbox(s, k.tun), k.sid);
  }

  lemma TakeView(s: State, t: nat, k: Key)
    requires Inbox(s, t) != []
    ensures var m := Inbox(s, t)[0];
            var s1 := s.(inbox := s.inbox[t := Inbox(s, t)[1..]]);
            if MsgKey(t, m) == k then
              ViewOf(s, k).msgs != [] && ViewOf(s, k).msgs[0] == m && ViewOf(s1, k) == ViewOf(s, k).(msgs := ViewOf(s, k).msgs[1..])
            else ViewOf(s1, k) == ViewOf(s, k)
  {
    hide Only;
    var ms := Inbox(s, t);
    OnlyHead(ms, k.sid);
    var rest := Only(ms[1..], k.sid);
    assert [] + rest == rest && ([ms[0]] + rest)[1..] == rest;
  }

  lemma MirrorsOpen(s: State, j: Key, k: Key)
    requires Enabled(s, Action.StartFast(j))
    ensures Mirrors(s, Action.StartFast(j), k)
  {
    hide Only, Sends;
    SendView(s.(sent := s.sent[j := []]), j.tun, Open(j.sid), k);
  }

  lemma MirrorsSend(s: State, j: Key, d: seq<int>, k: Key)
    requires Enabled(s, Action.Send(j, d))
    ensures Mirrors(s, Action.Send(j, d), k)
  {
    hide Only, Sends;
    SendView(s.(sent := s.sent[j := s.sent[j] + [d]]), j.tun, Data(j.sid, Item(|s.sent[j]|, d)), k);
  }

  lemma MirrorsCloseW(s: State, j: Key, k: Key)
    requires Enabled(s, Action.SendCloseW(j))
    ensures Mirrors(s, Action.SendCloseW(j), k)
  {
    hide Only, Sends;
    SendView(s.(ended := s.ended + {j}), j.tun, CloseW(j.sid), k);
  }

  lemma MirrorsDirect(s: State, j: Key, k: Key)
    requires Enabled(s, Action.StartDirect(j))
    ensures Mirrors(s, Action.StartDirect(j), k)
  {
    hide Only, NewEdge;
  }

  lemma ViewParts(s: State, k: Key)
    ensures var v := ViewOf(s, k);
            && v.sid == k.sid && v.reg == (k in s.registry) && v.dial == (k in s.dialing)
            && v.pre == Lookup(s.pre, k) && v.edge == Lookup(s.edges, k) && v.pc == PcFor(s, k)
  {
    hide Only;
  }

  lemma DialView(s: State, j: Key, k: Key)
    ensures ViewOf(s.(pre := s.pre[j := []], dialing := s.dialing + {j}), k) ==
            if j == k then ViewOf(s, k).(pre := Some([]), dial := true) else ViewOf(s, k)
  {
    hide Only;
  }

  lemma TakeIs(s: State, t: nat, k: Key)
    requires Enabled(s, Action.Take(t))
    ensures Inbox(s, t) != [] && PcOf(s, t).Idle?
    ensures var m := Inbox(s, t)[0];
            var j := MsgKey(t, m);
            var s1 := s.(inbox := s.inbox[t := Inbox(s, t)[1..]]);
            && Apply(s, Action.Take(t)) == (if m.Open? then s1.(pre := s1.pre[j := []], dialing := s1.dialing + {j})
                                            else SetPc(s1, t, Looked(m, j in s.registry, j in s.pre)))
            && Seen(s, Action.Take(t), k) == if j == k then Act.Take else Nothing
  {
    hide SetPc;
  }

  lemma TakeDoes(v: View)
    requires v.pc.Idle? && v.msgs != []
    ensures Can(v, Act.Take)
    ensures var v1 := v.(msgs := v.msgs[1..]);
            Do(v, Act.Take) == if v.msgs[0].Open? then v1.(pre := Some([]), dial := true) else v1.(pc := Looked(v.msgs[0], v.reg, v.pre.Some?))
  {}

  lemma MirrorsTake(s: State, t: nat, k: Key)
    requires Enabled(s, Action.Take(t))
    ensures Mirrors(s, Action.Take(t), k)
  {
    hide ViewOf, SetPc, Apply, Seen, Enabled, Can, Do;
    TakeIs(s, t, k);
    var m := Inbox(s, t)[0];
    var j := MsgKey(t, m);
    var s1 := s.(inbox := s.inbox[t := Inbox(s, t)[1..]]);
    ViewParts(s, k);
    TakeView(s, t, k);
    if m.Open? {
      DialView(s1, j, k);
    } else {
      PcView(s1, t, Looked(m, j in s.registry, j in s.pre), k);
    }
    if j == k { TakeDoes(ViewOf(s, k)); } else { NothingDoes(ViewOf(s, k)); }
  }

  function Resolved(s: State, t: nat): Pc
    requires PcOf(s, t).Looked?
  {
    var pc := PcOf(s, t);
    var j := MsgKey(t, pc.msg);
    if pc.edge then (if j in s.edges && Closed(s.edges[j]) then Stale(pc.msg) else HasEdge(pc.msg))
    else if pc.msg.Data? && pc.pre then ToPre(pc.msg) else Idle
  }

  lemma ResolveIs(s: State, t: nat, k: Key)
    requires Enabled(s, Action.Resolve(t))
    ensures PcOf(s, t).Looked? && Apply(s, Action.Resolve(t)) == SetPc(s, t, Resolved(s, t))
    ensures Seen(s, Action.Resolve(t), k) == if MsgKey(t, PcOf(s, t).msg) == k then Act.Resolve else Nothing
  {
    hide SetPc, Closed;
  }

  lemma MirrorsResolve(s: State, t: nat, k: Key)
    requires Enabled(s, Action.Resolve(t))
    ensures Mirrors(s, Action.Resolve(t), k)
  {
    hide ViewOf, SetPc, Closed, Apply, Seen, Enabled, Can, Do;
    ResolveIs(s, t, k);
    var pc := PcOf(s, t);
    ViewParts(s, k);
    PcView(s, t, Resolved(s, t), k);
    var v := ViewOf(s, k);
    if MsgKey(t, pc.msg) == k {
      assert v.pc == pc && v.edge == Lookup(s.edges, k);
      ResolveDoes(v, Resolved(s, t));
    } else {
      NothingDoes(v);
    }
  }

  lemma NothingDoes(v: View)
    ensures Can(v, Nothing) && Do(v, Nothing) == v
  {}

  lemma ResolveDoes(v: View, pc': Pc)
    requires v.pc.Looked?
    requires pc' == if v.pc.edge then (if v.edge.Some? && Closed(v.edge.value) then Stale(v.pc.msg) else HasEdge(v.pc.msg))
                    else if v.pc.msg.Data? && v.pc.pre then ToPre(v.pc.msg) else Idle
    ensures Can(v, Act.Resolve) && Do(v, Act.Resolve) == v.(pc := pc')
  {
    hide Closed;
  }

  lemma MirrorsUnregister(s: State, t: nat, k: Key)
    requires Enabled(s, Action.Unregister(t))
    ensures Mirrors(s, Action.Unregister(t), k)
  {
    var j := MsgKey(t, PcOf(s, t).msg);
    var s1 := s.(registry := s.registry - {j});
    RegistryView(s, j, k);
    PcView(s1, t, Idle, k);
    hide SetPc, Only;
  }

  lemma DeliverIs(s: State, t: nat, k: Key)
    requires Enabled(s, Action.Deliver(t))
    ensures var m := PcOf(s, t).msg;
            var j := MsgKey(t, m);
            && PcOf(s, t).HasEdge? && j in s.edges
            && Apply(s, Action.Deliver(t)) == SetPc(SetEdge(s, j, Push(s.edges[j], if m.Data? then Frame(m.item) else CloseWMark)), t, Idle)
            && Seen(s, Action.Deliver(t), k) == if j == k then Act.Deliver else Nothing
  {
    hide SetPc, SetEdge, Push;
  }

  lemma DeliverDoes(v: View)
    requires v.pc.HasEdge? && v.edge.Some?
    ensures Can(v, Act.Deliver)
    ensures Do(v, Act.Deliver) == v.(edge := Some(Push(v.edge.value, if v.pc.msg.Data? then Frame(v.pc.msg.item) else CloseWMark)), pc := Idle)
  {
    hide Push;
  }

  lemma MirrorsDeliver(s: State, t: nat, k: Key)
    requires Enabled(s, Action.Deliver(t))
    ensures Mirrors(s, Action.Deliver(t), k)
  {
    hide ViewOf, SetPc, SetEdge, Push, Apply, Seen, Enabled, Can, Do;
    DeliverIs(s, t, k);
    var m := PcOf(s, t).msg;
    var j := MsgKey(t, m);
    var e := Push(s.edges[j], if m.Data? then Frame(m.item) else CloseWMark);
    ViewParts(s, k);
    EdgeView(s, j, e, k);
    PcView(SetEdge(s, j, e), t, Idle, k);
    if j == k { DeliverDoes(ViewOf(s, k)); } else { NothingDoes(ViewOf(s, k)); }
  }

  lemma PreDeliverIs(s: State, t: nat, k: Key)
    requires Enabled(s, Action.PreDeliver(t))
    ensures PcOf(s, t).ToPre?
    ensures var m := PcOf(s, t).msg;
            var j := MsgKey(t, m);
            var s1 := SetPc(s, t, Idle);
            && s1.pre == s.pre
            && Apply(s, Action.PreDeliver(t)) == (if j in s.pre && m.Data? then s1.(pre := s1.pre[j := s.pre[j] + [m.item]]) else s1)
            && Seen(s, Action.PreDeliver(t), k) == if j == k then Act.PreDeliver else Nothing
  {}

  lemma PreDeliverDoes(v: View)
    requires v.pc.ToPre?
    ensures Can(v, Act.PreDeliver)
    ensures Do(v, Act.PreDeliver) ==
            if v.pre.Some? && v.pc.msg.Data? then v.(pre := Some(v.pre.value + [v.pc.msg.item]), pc := Idle) else v.(pc := Idle)
  {}

  lemma MirrorsPreDeliver(s: State, t: nat, k: Key)
    requires Enabled(s, Action.PreDeliver(t))
    ensures Mirrors(s, Action.PreDeliver(t), k)
  {
    hide ViewOf, SetPc, Apply, Seen, Enabled, Can, Do;
    PreDeliverIs(s, t, k);
    var m := PcOf(s, t).msg;
    var j := MsgKey(t, m);
    ViewParts(s, k);
    PcView(s, t, Idle, k);
    if j in s.pre && m.Data? { PreView(SetPc(s, t, Idle), j, s.pre[j] + [m.item], k); }
    if j == k { PreDeliverDoes(ViewOf(s, k)); } else { NothingDoes(ViewOf(s, k)); }
  }

  lemma MirrorsDial(s: State, a: Action, k: Key)
    requires Enabled(s, a) && (a.Register? || a.DialFail?)
    ensures Mirrors(s, a, k)
  {
    hide *;
    if a.Register? { MirrorsRegister(s, a.k, k); } else { MirrorsDialFail(s, a.k, k); }
  }

  lemma MirrorsRegister(s: State, j: Key, k: Key)
    requires Enabled(s, Action.Register(j))
    ensures Mirrors(s, Action.Register(j), k)
  {
    hide Only, NewEdge;
    var s' := Apply(s, Action.Register(j));
    assert Inbox(s', k.tun) == Inbox(s, k.tun) && PcOf(s', k.tun) == PcOf(s, k.tun);
    hide Inbox, PcOf;
  }

  lemma MirrorsDialFail(s: State, j: Key, k: Key)
    requires Enabled(s, Action.DialFail(j))
    ensures Mirrors(s, Action.DialFail(j), k)
  {
    hide Only, NewEdge;
    var s' := Apply(s, Action.DialFail(j));
    assert Inbox(s', k.tun) == Inbox(s, k.tun) && PcOf(s', k.tun) == PcOf(s, k.tun);
    hide Inbox, PcOf;
  }

  lemma MirrorsSwap(s: State, j: Key, k: Key)
    requires Enabled(s, Action.Swap(j))
    ensures Mirrors(s, Action.Swap(j), k)
  {
    EdgeView(s, j, s.edges[j].(batch := s.edges[j].queue.value, queue := Some([])), k);
    hide SetEdge, Only;
  }

  lemma MirrorsWrite(s: State, j: Key, k: Key)
    requires Enabled(s, Action.Write(j))
    ensures Mirrors(s, Action.Write(j), k)
  {
    var e := s.edges[j];
    EdgeView(s, j, e.(written := e.written + [e.batch[0].item], batch := e.batch[1..]), k);
    hide SetEdge, Only;
  }

  lemma MirrorsExit(s: State, a: Action, k: Key)
    requires Enabled(s, a) && (a.WriteFail? || a.HitMark?)
    ensures Mirrors(s, a, k)
  {
    var e := s.edges[a.k];
    EdgeView(s, a.k, Exit(e, a.WriteFail? || e.batch[0].CloseMark?), k);
    hide SetEdge, Only, Exit;
  }

  lemma MirrorsMark(s: State, a: Action, k: Key)
    requires Enabled(s, a) && (a.MarkR? || a.MarkW?)
    ensures Mirrors(s, a, k)
  {
    if a.MarkW? {
      var j := MsgKey(a.t, PcOf(s, a.t).msg);
      EdgeView(s, j, s.edges[j].(w := true), k);
    } else {
      EdgeView(s, a.k, s.edges[a.k].(r := true), k);
    }
    hide SetEdge, Only;
  }

  lemma MirrorsEvict(s: State, j: Key, k: Key)
    requires Enabled(s, Action.Evict(j))
    ensures Mirrors(s, Action.Evict(j), k)
  {
    var e := Push(s.edges[j], CloseMark);
    EdgeView(s, j, e, k);
    RegistryView(SetEdge(s, j, e), j, k);
    hide Only, Push;
  }

  lemma MirrorsClean(s: State, j: Key, k: Key)
    requires Enabled(s, Action.Clean(j))
    ensures Mirrors(s, Action.Clean(j), k)
  {
    RegistryView(s, j, k);
    hide Only, Closed;
  }

  /** A step of the whole machine is, for each session, one step of that session or nothing. */
  lemma StepMirrors(s: State, a: Action, k: Key)
    requires Enabled(s, a)
    ensures Mirrors(s, a, k)
  {
    hide Enabled, Mirrors;
    match a
    case StartFast(j) => MirrorsOpen(s, j, k);
    case StartDirect(j) => MirrorsDirect(s, j, k);
    case Send(j, d) => MirrorsSend(s, j, d, k);
    case SendCloseW(j) => MirrorsCloseW(s, j, k);
    case Take(t) => MirrorsTake(s, t, k);
    case Resolve(t) => MirrorsResolve(s, t, k);
    case Unregister(t) => MirrorsUnregister(s, t, k);
    case Deliver(t) => MirrorsDeliver(s, t, k);
    case PreDeliver(t) => MirrorsPreDeliver(s, t, k);
    case Register(_) => MirrorsDial(s, a, k);
    case DialFail(_) => MirrorsDial(s, a, k);
    case Swap(j) => MirrorsSwap(s, j, k);
    case Write(j) => MirrorsWrite(s, j, k);
    case WriteFail(_) => MirrorsExit(s, a, k);
    case HitMark(_) => MirrorsExit(s, a, k);
    case Evict(j) => MirrorsEvict(s, j, k);
    case Clean(j) => MirrorsClean(s, j, k);
    case MarkR(_) => MirrorsMark(s, a, k);
    case MarkW(_) => MirrorsMark(s, a, k);
  }

  ghost predicate Good(v: View) {
    Shape(v) && Ordered(v) && (!v.raced ==> Gapless(v))
  }

  lemma GoodKept(v: View, a: Act)
    requires Good(v) && Can(v, a)
    ensures Good(Do(v, a))
  {
    hide Shape, Ordered, Gapless, Can;
    ShapeKept(v, a);
    var ch := StepChange(v, a);
    OrderedKept(v, Do(v, a), ch);
    if !Do(v, a).raced {
      RacedStays(v, a);
      GaplessKept(v, a);
    }
  }

  lemma RacedStays(v: View, a: Act)
    requires Can(v, a)
    ensures v.raced ==> Do(v, a).raced
  {}

  lemma StartGood(k: Key)
    ensures Good(ViewOf(Start, k))
  {
    assert Pipe(ViewOf(Start, k)) == [];
  }

  /** In every reachable state every session is in order, and gapless unless raced. */
  lemma {:induction false} RunsAreGood(states: seq<State>, acts: seq<Action>, i: nat, k: Key)
    requires IsRun(states, acts) && i < |states|
    ensures Good(ViewOf(states[i], k))
  {
    hide Good, Enabled, Apply;
    if i == 0 {
      StartGood(k);
    } else {
      RunsAreGood(states, acts, i - 1, k);
      assert Enabled(states[i - 1], acts[i - 1]) && states[i] == Apply(states[i - 1], acts[i - 1]);
      StepMirrors(states[i - 1], acts[i - 1], k);
      GoodKept(ViewOf(states[i - 1], k), Seen(states[i - 1], acts[i - 1], k));
    }
  }

  /** Step i of a run, as session k sees it. */
  lemma RunStep(states: seq<State>, acts: seq<Action>, i: nat, k: Key) returns (a: Act)
    requires IsRun(states, acts) && i < |acts|
    ensures Shape(ViewOf(states[i], k)) && Can(ViewOf(states[i], k), a)
    ensures ViewOf(states[i + 1], k) == Do(ViewOf(states[i], k), a)
  {
    hide Enabled, Apply, Shape, Can, Do, ViewOf;
    RunsAreGood(states, acts, i, k);
    assert Enabled(states[i], acts[i]) && states[i + 1] == Apply(states[i], acts[i]);
    StepMirrors(states[i], acts[i], k);
    a := Seen(states[i], acts[i], k);
  }

  // ---- the theorems ----

  function Payloads(items: seq<Item>): (r: seq<seq<int>>)
    ensures |r| == |items| && forall i :: 0 <= i < |items| ==> r[i] == items[i].data
  {
    if items == [] then [] else Payloads(items[..|items| - 1]) + [items[|items| - 1].data]
  }

  lemma WrittenSelected(v: View)
    requires Ordered(v) && v.edge.Some?
    ensures Selection(v.edge.value.written, SentOf(v))
  {
    var w := v.edge.value.written;
    forall i | 0 <= i < |w| ensures Pipe(v)[i] == w[i] {}
  }

  lemma WrittenCounted(v: View)
    requires EdgeGaplessAt(v)
    ensures Counted(v.edge.value.written)
  {
    var e := v.edge.value;
    forall i | 0 <= i < |e.written| ensures e.written[i].no == i { assert Reach(e)[i] == e.written[i]; }
  }

  ghost predicate EdgeGaplessAt(v: View) { v.edge.Some? && EdgeGapless(v) }

  /** What an edge wrote is an in-order, duplicate-free selection of what its peer sent under
      the same key, in every interleaving. */
  lemma DeliveredInOrder(states: seq<State>, acts: seq<Action>, i: nat, k: Key)
    requires IsRun(states, acts) && i < |states| && k in states[i].edges
    ensures k in states[i].sent && Selection(states[i].edges[k].written, states[i].sent[k])
  {
    RunsAreGood(states, acts, i, k);
    WrittenSelected(ViewOf(states[i], k));
  }

  /** Unless a register fell into the window, it is a prefix of what the peer sent: no gap. */
  lemma DeliveredWithoutGap(states: seq<State>, acts: seq<Action>, i: nat, k: Key)
    requires IsRun(states, acts) && i < |states| && k in states[i].edges && k !in states[i].raced
    ensures k in states[i].sent && Payloads(states[i].edges[k].written) <= states[i].sent[k]
  {
    hide Good, Enabled, Apply, Selection, Payloads, Counted;
    DeliveredInOrder(states, acts, i, k);
    RunsAreGood(states, acts, i, k);
    var v := ViewOf(states[i], k);
    ViewParts(states[i], k);
    assert !v.raced;
    GoodCounted(v);
    hide ViewOf;
    CountedPrefix(states[i].edges[k].written, states[i].sent[k]);
  }

  lemma GoodCounted(v: View)
    requires Good(v) && !v.raced && v.edge.Some?
    ensures Counted(v.edge.value.written)
  {
    hide Counted;
    WrittenCounted(v);
  }

  /** Numbered without a gap, a selection is a prefix. */
  lemma CountedPrefix(w: seq<Item>, sent: seq<seq<int>>)
    requires Selection(w, sent) && Counted(w)
    ensures Payloads(w) <= sent
  {
    hide Payloads;
    assert |w| <= |sent| by { if |w| > 0 { assert w[|w| - 1].no == |w| - 1; } }
    forall j | 0 <= j < |w| ensures Payloads(w)[j] == sent[j] { assert w[j].no == j; }
  }

  // ---- nothing after the close ----

  ghost predicate Exited(v: View) { v.edge.Some? && v.edge.value.queue.None? && v.edge.value.batch == [] }

  lemma ExitedKept(v: View, a: Act)
    requires Shape(v) && Exited(v) && Can(v, a)
    ensures Exited(Do(v, a)) && Do(v, a).edge.value.written == v.edge.value.written
  {}

  lemma EdgeOfView(s: State, k: Key)
    requires Exited(ViewOf(s, k))
    ensures k in s.edges && s.edges[k] == ViewOf(s, k).edge.value
  {}

  /** Once sendLoop has met CLOSE, CLOSE_W or a write error, the edge is never written again. */
  lemma {:induction false} NothingAfterClose(states: seq<State>, acts: seq<Action>, i: nat, j: nat, k: Key)
    requires IsRun(states, acts) && i <= j < |states| == |acts| + 1 && Exited(ViewOf(states[i], k))
    ensures Exited(ViewOf(states[j], k)) && k in states[j].edges && k in states[i].edges
    ensures states[j].edges[k].written == states[i].edges[k].written
    decreases j
  {
    hide IsRun, Shape, Exited, ViewOf, Can, Do;
    EdgeOfView(states[i], k);
    if i < j {
      NothingAfterClose(states, acts, i, j - 1, k);
      var a := RunStep(states, acts, j - 1, k);
      ExitedKept(ViewOf(states[j - 1], k), a);
      EdgeOfView(states[j - 1], k);
      EdgeOfView(states[j], k);
    }
  }

  /** The close marks stop sendLoop, whatever is queued behind them. */
  lemma MarkStops(s: State, k: Key)
    requires Enabled(s, Action.HitMark(k))
    ensures Exited(ViewOf(Apply(s, Action.HitMark(k)), k)) && !Enabled(s, Action.Write(k))
  {}
}
