/** When a session's bytes arrive without a gap: as long as `register` does not fall between
    the lookup of a pre-registered key and preDeliver. */
module MuxGap {
  import opened Mux
  import opened MuxSession

  /** The frames ahead of the first close mark: those sendLoop can still write. */
  function Until(es: seq<Entry>): seq<Item> {
    if es == [] || !es[0].Frame? then [] else [es[0].item] + Until(es[1..])
  }

  predicate Marked(es: seq<Entry>) {
    exists i :: 0 <= i < |es| && !es[i].Frame?
  }

  function Reach(e: Edge): seq<Item> { e.written + Until(e.batch + QueueOf(e)) }

  predicate Alive(e: Edge) { e.queue.Some? && !Marked(e.batch + QueueOf(e)) }

  /** Numbered 0, 1, 2, ... without a gap. */
  ghost predicate Counted(items: seq<Item>) {
    forall i :: 0 <= i < |items| ==> items[i].no == i
  }

  /** Nothing sent so far is missing. */
  ghost predicate Full(v: View) { Counted(Pipe(v)) && |Pipe(v)| == |SentOf(v)| }

  ghost predicate EdgeGapless(v: View)
    requires v.edge.Some?
  {
    var e := v.edge.value;
    && Counted(Reach(e))
    && (Alive(e) && HoldsEdge(v.pc) && !v.pc.Stale? && v.pc.msg.Data? ==> v.pc.msg.item.no == |EdgeItems(e)|)
    && (Alive(e) && v.reg ==> Full(v))
    && (v.reg && v.pc.Looked? && v.pc.msg.Data? ==> v.pc.edge)
    && !Window(v.pc)
  }

  ghost predicate WaitGapless(v: View) {
    && (v.dial ==> Full(v) && (v.pc.Idle? || v.pc.ToPre? || (v.pc.Looked? && !v.pc.edge && v.pc.pre)))
    && (v.msgs != [] && v.msgs[0].Open? ==> Full(v))
  }

  ghost predicate Gapless(v: View) {
    if v.edge.Some? then EdgeGapless(v) else WaitGapless(v)
  }

  // ---- list lemmas ----

  lemma {:induction false} UntilAll(es: seq<Entry>)
    requires !Marked(es)
    ensures Until(es) == ItemsOf(es)
  {
    if es != [] {
      assert es[0].Frame?;
      forall i | 0 <= i < |es[1..]| ensures es[1..][i].Frame? { assert es[1..][i] == es[i + 1]; }
      UntilAll(es[1..]);
      ItemsOfHead(es);
    }
  }

  lemma {:induction false} UntilAppend(es: seq<Entry>, x: Entry)
    ensures Until(es + [x]) == Until(es) + if Marked(es) || !x.Frame? then [] else [x.item]
    ensures Marked(es + [x]) <==> Marked(es) || !x.Frame?
  {
    var all := es + [x];
    assert all[|es|] == x;
    if es == [] {
      assert all[1..] == [];
    } else {
      assert all[0] == es[0];
      assert all[1..] == es[1..] + [x];
      UntilAppend(es[1..], x);
      MarkedTail(es);
      MarkedTail(all);
    }
  }

  lemma MarkedTail(es: seq<Entry>)
    requires es != []
    ensures Marked(es) <==> !es[0].Frame? || Marked(es[1..])
  {
    if Marked(es) && es[0].Frame? {
      var i :| 0 <= i < |es| && !es[i].Frame?;
      assert es[1..][i - 1] == es[i];
    }
    if Marked(es[1..]) {
      var i :| 0 <= i < |es[1..]| && !es[1..][i].Frame?;
      assert es[i + 1] == es[1..][i];
    }
  }

  lemma AliveReach(e: Edge)
    requires Alive(e)
    ensures Reach(e) == EdgeItems(e)
  {
    UntilAll(e.batch + QueueOf(e));
  }

  lemma PushReach(e: Edge, x: Entry)
    ensures Reach(Push(e, x)) == if Alive(e) && x.Frame? then Reach(e) + [x.item] else Reach(e)
    ensures Alive(Push(e, x)) <==> Alive(e) && x.Frame?
  {
    if e.queue.Some? {
      var all := e.batch + e.queue.value;
      assert e.batch + (e.queue.value + [x]) == all + [x];
      UntilAppend(all, x);
      if x.Frame? { assert e.written + (Until(all) + [x.item]) == Reach(e) + [x.item]; }
      assert Until(all) + [] == Until(all);
    }
  }

  lemma {:induction false} EntriesFrames(items: seq<Item>)
    ensures !Marked(Entries(items))
  {
    if items != [] {
      var rest := items[..|items| - 1];
      EntriesFrames(rest);
      UntilAppend(Entries(rest), Frame(items[|items| - 1]));
    }
  }

  lemma NewEdgeReach(items: seq<Item>)
    ensures Alive(NewEdge(items)) && Reach(NewEdge(items)) == items && EdgeItems(NewEdge(items)) == items
  {
    EntriesFrames(items);
    ItemsOfEntries(items);
    assert [] + Entries(items) == Entries(items);
    UntilAll(Entries(items));
  }

  lemma WriteReach(e: Edge)
    requires e.batch != [] && e.batch[0].Frame?
    ensures var e' := e.(written := e.written + [e.batch[0].item], batch := e.batch[1..]);
            Reach(e') == Reach(e) && (Alive(e') <==> Alive(e))
  {
    var all := e.batch + QueueOf(e);
    assert all[1..] == e.batch[1..] + QueueOf(e);
    MarkedTail(all);
    assert Until(all) == [all[0].item] + Until(all[1..]);
  }

  lemma SwapReach(e: Edge)
    requires e.batch == [] && e.queue.Some?
    ensures var e' := e.(batch := e.queue.value, queue := Some([])); Reach(e') == Reach(e) && (Alive(e') <==> Alive(e))
  {
    assert [] + e.queue.value == e.queue.value + [] == e.queue.value;
  }

  lemma ExitReach(e: Edge, force: bool)
    requires Counted(Reach(e))
    ensures Counted(Reach(Exit(e, force))) && !Alive(Exit(e, force))
  {
    assert Until([] + []) == [];
    forall i | 0 <= i < |e.written| ensures e.written[i].no == i { assert Reach(e)[i] == e.written[i]; }
  }

  // ---- fullness ----

  lemma FullSame(v: View, v': View)
    requires Full(v) && Changed(v, v', Same)
    ensures Full(v')
  {}

  lemma FullGrown(v: View, v': View, d: seq<int>)
    requires Full(v) && Changed(v, v', Grown(d))
    ensures Full(v')
  {}

  /** In a full pipeline the frame in Listen's hands is the next the edge has not seen. */
  lemma NextInHand(v: View)
    requires Full(v) && v.edge.Some? && v.pre.None? && !v.pc.Idle? && v.pc.msg.Data?
    ensures v.pc.msg.item.no == |EdgeItems(v.edge.value)|
  {
    hide EdgeItems;
    var n := |EdgeItems(v.edge.value)|;
    assert Pipe(v)[n] == v.pc.msg.item;
  }

  // ---- steps ----

  lemma SendGapless(v: View, a: Act)
    requires Shape(v) && Can(v, a) && Gapless(v) && (a.StartFast? || a.Send? || a.SendCloseW?)
    ensures Gapless(Do(v, a))
  {
    hide Pipe, Reach, Alive, EdgeItems, SentOf;
    var v' := Do(v, a);
    var ch := SendChange(v, a);
    if Full(v) {
      if a.Send? { FullGrown(v, v', a.data); } else { FullSame(v, v'); }
    }
    if a.StartFast? { BlankFull(v); }
    if v.msgs != [] { assert v'.msgs[0] == v.msgs[0]; }
  }

  lemma BlankFull(v: View)
    requires Shape(v) && v.sent.None?
    ensures Full(v)
  {
    assert Pipe(v) == [];
  }

  lemma DirectGapless(v: View)
    requires Shape(v) && Can(v, Act.StartDirect)
    ensures Gapless(Do(v, Act.StartDirect))
  {
    hide NewEdge, Pipe, Alive, Reach;
    NewEdgeReach([]);
    DirectChange(v);
    BlankFull(v);
    FullSame(v, Do(v, Act.StartDirect));
  }

  lemma TakeGapless(v: View)
    requires Shape(v) && Can(v, Act.Take) && Gapless(v)
    ensures Gapless(Do(v, Act.Take))
  {
    hide Pipe, Alive, Reach, SentOf, EdgeItems;
    var v' := Do(v, Act.Take);
    TakeChange(v);
    if Full(v) { FullSame(v, v'); }
    if v'.msgs != [] { assert v'.msgs[0] == v.msgs[1]; }
    if v.edge.Some? && Full(v') && !v'.pc.Idle? && v'.pc.msg.Data? { NextInHand(v'); }
  }

  lemma ResolveGapless(v: View)
    requires Shape(v) && Can(v, Act.Resolve) && Gapless(v)
    ensures Gapless(Do(v, Act.Resolve))
  {
    hide Pipe, Alive, Reach, EdgeItems, Closed;
    var v' := Do(v, Act.Resolve);
    if Full(v) && PcItems(v'.pc) == PcItems(v.pc) {
      PipeSame(v, v');
      FullSame(v, v');
    }
  }

  lemma ListenGapless(v: View, a: Act)
    requires Shape(v) && Can(v, a) && Gapless(v) && (a.Unregister? || a.PreDeliver?)
    ensures Gapless(Do(v, a))
  {
    hide Pipe, Alive, Reach, EdgeItems;
    var v' := Do(v, a);
    if a.PreDeliver? && v.dial && v.pc.msg.Data? {
      PreDeliverSame(v);
      FullSame(v, v');
    } else if a.PreDeliver? && !v.pc.msg.Data? && Full(v) {
      PipeSame(v, v');
      FullSame(v, v');
    }
  }

  lemma PreDeliverSame(v: View)
    requires Shape(v) && Can(v, Act.PreDeliver) && v.dial && v.pc.msg.Data?
    ensures Changed(v, Do(v, Act.PreDeliver), Same)
  {
    hide Join, DataOf, EdgeItems;
    Move23(Before(v), PreItems(v), PcItems(v.pc), DataOf(v.msgs));
  }

  lemma DeliverGapless(v: View)
    requires Shape(v) && Can(v, Act.Deliver) && Gapless(v)
    ensures Gapless(Do(v, Act.Deliver))
  {
    hide Pipe, Alive, Reach, SentOf, EdgeItems, Push;
    var v', e := Do(v, Act.Deliver), v.edge.value;
    var x := if v.pc.msg.Data? then Frame(v.pc.msg.item) else CloseWMark;
    PushReach(e, x);
    if Alive(e) {
      AliveReach(e);
      if x.Frame? {
        DeliverSame(v);
        if v.reg { FullSame(v, v'); }
      }
    }
  }

  lemma DeliverSame(v: View)
    requires Shape(v) && Can(v, Act.Deliver) && Alive(v.edge.value)
    ensures Changed(v, Do(v, Act.Deliver), Same)
  {
    hide Join, DataOf, EdgeItems, Push;
    var e, x := v.edge.value, PcItems(v.pc);
    PushItems(e, if v.pc.msg.Data? then Frame(v.pc.msg.item) else CloseWMark);
    assert EdgeItems(e) + [] == EdgeItems(e);
    Move13(EdgeItems(e), x, DataOf(v.msgs));
  }

  lemma DialGapless(v: View, a: Act)
    requires Shape(v) && Can(v, a) && Gapless(v) && (a.Register? || a.DialFail?) && !Do(v, a).raced
    ensures Gapless(Do(v, a))
  {
    hide Pipe, Alive, Reach, SentOf, EdgeItems, NewEdge;
    var v' := Do(v, a);
    if a.Register? {
      NewEdgeReach(v.pre.value);
      RegisterChange(v);
      FullSame(v, v');
      CountedPre(v);
    }
  }

  lemma CountedPre(v: View)
    requires Full(v) && v.edge.None? && v.pre.Some?
    ensures Counted(v.pre.value)
  {
    forall i | 0 <= i < |v.pre.value| ensures v.pre.value[i].no == i { assert Pipe(v)[i] == v.pre.value[i]; }
  }

  /** sendLoop and the registry: what the edge can still write keeps its numbering. */
  lemma EdgeStepReach(v: View, a: Act)
    requires Can(v, a) && v.edge.Some? && Counted(Reach(v.edge.value))
    requires a.Swap? || a.Write? || a.WriteFail? || a.HitMark? || a.Evict? || a.Clean? || a.MarkR? || a.MarkW?
    ensures Do(v, a).edge.Some? && Counted(Reach(Do(v, a).edge.value))
    ensures Alive(Do(v, a).edge.value) ==> Alive(v.edge.value) && !(a.WriteFail? || a.HitMark? || a.Evict?)
  {
    hide Until, Marked, Exit, Push;
    var e := v.edge.value;
    match a
    case Swap => SwapReach(e);
    case Write => WriteReach(e);
    case WriteFail => ExitReach(e, true);
    case HitMark => ExitReach(e, e.batch[0].CloseMark?);
    case Evict => PushReach(e, CloseMark);
    case Clean =>
    case MarkR =>
    case MarkW =>
  }

  lemma EdgeGaplessKept(v: View, a: Act)
    requires Shape(v) && Can(v, a) && Gapless(v)
    requires a.Swap? || a.Write? || a.WriteFail? || a.HitMark? || a.Evict? || a.Clean? || a.MarkR? || a.MarkW?
    ensures Gapless(Do(v, a))
  {
    hide Pipe, Alive, Reach, SentOf, EdgeItems, Push, Exit;
    var v' := Do(v, a);
    EdgeStepReach(v, a);
    EdgeItemsChange(v, a);
    if Alive(v'.edge.value) && v'.reg {
      var ch := EdgeChange(v, a);
      EdgeSame(v, a);
      FullSame(v, v');
    }
  }

  lemma EdgeSame(v: View, a: Act)
    requires Can(v, a) && (a.Swap? || a.Write? || a.Clean? || a.MarkR? || a.MarkW?)
    ensures Changed(v, Do(v, a), Same)
  {
    hide Join, DataOf, EdgeItems;
    EdgeItemsChange(v, a);
  }

  /** Every step that is not the race keeps the session gapless. */
  lemma GaplessKept(v: View, a: Act)
    requires Shape(v) && Can(v, a) && Gapless(v) && !Do(v, a).raced
    ensures Gapless(Do(v, a))
  {
    hide Shape, Can, Do, Gapless;
    if a.StartFast? || a.Send? || a.SendCloseW? { SendGapless(v, a); }
    else if a.StartDirect? { DirectGapless(v); }
    else if a.Take? { TakeGapless(v); }
    else if a.Resolve? { ResolveGapless(v); }
    else if a.Unregister? || a.PreDeliver? { ListenGapless(v, a); }
    else if a.Deliver? { DeliverGapless(v); }
    else if a.Register? || a.DialFail? { DialGapless(v, a); }
    else if a.Nothing? { NothingDone(v); }
    else { EdgeGaplessKept(v, a); }
  }

  lemma NothingDone(v: View)
    ensures Can(v, Nothing) && Do(v, Nothing) == v
  {}
}
