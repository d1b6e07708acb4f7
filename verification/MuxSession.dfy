/** One session of the multiplexer, cut out of the whole machine: the same steps seen from
    one key, and what they keep. */
module MuxSession {
  import opened Mux

  datatype View = View(
    sid: nat,
    sent: Option<seq<seq<int>>>,
    ended: bool,
    msgs: seq<Msg>,
    pc: Pc,
    reg: bool,
    pre: Option<seq<Item>>,
    dial: bool,
    edge: Option<Edge>,
    raced: bool)

  datatype Act =
    | StartFast | StartDirect | Send(data: seq<int>) | SendCloseW
    | Take | Resolve | Unregister | Deliver | PreDeliver
    | Register | DialFail | Swap | Write | WriteFail | HitMark | Evict | Clean | MarkR | MarkW
    | Nothing

  predicate Window(pc: Pc) {
    (pc.ToPre? || (pc.Looked? && !pc.edge && pc.pre)) && pc.msg.Data?
  }

  ghost predicate Can(v: View, a: Act) {
    match a
    case StartFast => v.sent.None?
    case StartDirect => v.sent.None?
    case Send(_) => v.sent.Some? && !v.ended
    case SendCloseW => v.sent.Some? && !v.ended
    case Take => v.pc.Idle? && v.msgs != []
    case Resolve => v.pc.Looked?
    case Unregister => v.pc.Stale?
    case Deliver => v.pc.HasEdge? && v.edge.Some?
    case PreDeliver => v.pc.ToPre?
    case Register => v.dial
    case DialFail => v.dial
    case Swap => v.edge.Some? && v.edge.value.batch == [] && v.edge.value.queue.Some?
    case Write => v.edge.Some? && v.edge.value.batch != [] && v.edge.value.batch[0].Frame?
    case WriteFail => v.edge.Some?
    case HitMark => v.edge.Some? && v.edge.value.batch != [] && !v.edge.value.batch[0].Frame?
    case Evict => v.edge.Some?
    case Clean => v.edge.Some?
    case MarkR => v.edge.Some?
    case MarkW => v.edge.Some?
    case Nothing => true
  }

  ghost function Do(v: View, a: Act): View
    requires Can(v, a)
  {
    match a
    case StartFast => v.(sent := Some([]), msgs := v.msgs + [Open(v.sid)])
    case StartDirect => v.(sent := Some([]), reg := true, edge := Some(NewEdge([])))
    case Send(d) => v.(sent := Some(v.sent.value + [d]), msgs := v.msgs + [Data(v.sid, Item(|v.sent.value|, d))])
    case SendCloseW => v.(ended := true, msgs := v.msgs + [CloseW(v.sid)])
    case Take =>
      var m := v.msgs[0];
      var v1 := v.(msgs := v.msgs[1..]);
      if m.Open? then v1.(pre := Some([]), dial := true) else v1.(pc := Looked(m, v.reg, v.pre.Some?))
    case Resolve =>
      if v.pc.edge then v.(pc := if v.edge.Some? && Closed(v.edge.value) then Stale(v.pc.msg) else HasEdge(v.pc.msg))
      else if v.pc.msg.Data? && v.pc.pre then v.(pc := ToPre(v.pc.msg))
      else v.(pc := Idle)
    case Unregister => v.(reg := false, pc := Idle)
    case Deliver =>
      v.(edge := Some(Push(v.edge.value, if v.pc.msg.Data? then Frame(v.pc.msg.item) else CloseWMark)), pc := Idle)
    case PreDeliver =>
      if v.pre.Some? && v.pc.msg.Data? then v.(pre := Some(v.pre.value + [v.pc.msg.item]), pc := Idle) else v.(pc := Idle)
    case Register =>
      v.(dial := false, pre := None, reg := true, edge := Some(NewEdge(if v.pre.Some? then v.pre.value else [])),
         raced := v.raced || Window(v.pc))
    case DialFail => v.(dial := false, pre := None)
    case Swap => v.(edge := Some(v.edge.value.(batch := v.edge.value.queue.value, queue := Some([]))))
    case Write => var e := v.edge.value; v.(edge := Some(e.(written := e.written + [e.batch[0].item], batch := e.batch[1..])))
    case WriteFail => v.(edge := Some(Exit(v.edge.value, true)))
    case HitMark => v.(edge := Some(Exit(v.edge.value, v.edge.value.batch[0].CloseMark?)))
    case Evict => v.(edge := Some(Push(v.edge.value, CloseMark)), reg := false)
    case Clean => v.(reg := false)
    case MarkR => v.(edge := Some(v.edge.value.(r := true)))
    case MarkW => v.(edge := Some(v.edge.value.(w := true)))
    case Nothing => v
  }

  // ---- the pipeline ----

  function ItemsOf(es: seq<Entry>): seq<Item> {
    if es == [] then [] else ItemsOf(es[..|es| - 1]) + if es[|es| - 1].Frame? then [es[|es| - 1].item] else []
  }

  function DataOf(ms: seq<Msg>): seq<Item> {
    if ms == [] then [] else DataOf(ms[..|ms| - 1]) + if ms[|ms| - 1].Data? then [ms[|ms| - 1].item] else []
  }

  function PcItems(pc: Pc): seq<Item> {
    if !pc.Idle? && pc.msg.Data? then [pc.msg.item] else []
  }

  function QueueOf(e: Edge): seq<Entry> {
    if e.queue.Some? then e.queue.value else []
  }

  function EdgeItems(e: Edge): seq<Item> {
    e.written + ItemsOf(e.batch + QueueOf(e))
  }

  function PreItems(v: View): seq<Item> { if v.pre.Some? then v.pre.value else [] }

  function Before(v: View): seq<Item> { if v.edge.Some? then EdgeItems(v.edge.value) else [] }

  /** Every DATA frame of the session that is still somewhere, written ones first: at the edge,
      in the pre-registration buffer, in the hands of Listen, on the tunnel. */
  function Pipe(v: View): seq<Item> {
    Join(Before(v), PreItems(v), PcItems(v.pc), DataOf(v.msgs))
  }

  function Join(a: seq<Item>, b: seq<Item>, c: seq<Item>, d: seq<Item>): seq<Item> { a + b + c + d }

  function SentOf(v: View): seq<seq<int>> { if v.sent.Some? then v.sent.value else [] }

  /** Numbers strictly increase and every item is what was sent under its number. */
  ghost predicate Selection(items: seq<Item>, sent: seq<seq<int>>) {
    && (forall i :: 0 <= i < |items| ==> items[i].no < |sent| && items[i].data == sent[items[i].no])
    && (forall i, j :: 0 <= i < j < |items| ==> items[i].no < items[j].no)
  }

  ghost predicate Ordered(v: View) { Selection(Pipe(v), SentOf(v)) }

  // ---- list lemmas ----

  lemma {:induction false} ItemsOfConcat(a: seq<Entry>, b: seq<Entry>)
    ensures ItemsOf(a + b) == ItemsOf(a) + ItemsOf(b)
    decreases |b|
  {
    if b == [] {
      assert a + b == a;
    } else {
      var c := b[..|b| - 1];
      assert (a + b)[..|a + b| - 1] == a + c;
      ItemsOfConcat(a, c);
    }
  }

  lemma {:induction false} DataOfConcat(a: seq<Msg>, b: seq<Msg>)
    ensures DataOf(a + b) == DataOf(a) + DataOf(b)
    decreases |b|
  {
    if b == [] {
      assert a + b == a;
    } else {
      var c := b[..|b| - 1];
      assert (a + b)[..|a + b| - 1] == a + c;
      DataOfConcat(a, c);
    }
  }

  lemma ItemsOfOne(x: Entry)
    ensures ItemsOf([x]) == if x.Frame? then [x.item] else []
  {
    assert [x][..0] == [];
  }

  lemma DataOfOne(m: Msg)
    ensures DataOf([m]) == if m.Data? then [m.item] else []
  {
    assert [m][..0] == [];
  }

  lemma {:induction false} ItemsOfEntries(items: seq<Item>)
    ensures ItemsOf(Entries(items)) == items
  {
    if items != [] {
      var rest, last := items[..|items| - 1], items[|items| - 1];
      ItemsOfEntries(rest);
      ItemsOfConcat(Entries(rest), [Frame(last)]);
      ItemsOfOne(Frame(last));
    }
  }

  lemma DataOfHead(ms: seq<Msg>)
    requires ms != []
    ensures DataOf(ms) == (if ms[0].Data? then [ms[0].item] else []) + DataOf(ms[1..])
  {
    assert ms == [ms[0]] + ms[1..];
    DataOfConcat([ms[0]], ms[1..]);
    DataOfOne(ms[0]);
  }

  lemma ItemsOfHead(es: seq<Entry>)
    requires es != []
    ensures ItemsOf(es) == (if es[0].Frame? then [es[0].item] else []) + ItemsOf(es[1..])
  {
    assert es == [es[0]] + es[1..];
    ItemsOfConcat([es[0]], es[1..]);
    ItemsOfOne(es[0]);
  }

  // ---- order ----

  /** Dropping a middle part of a selection leaves a selection. */
  lemma DropMiddle(a: seq<Item>, b: seq<Item>, c: seq<Item>, sent: seq<seq<int>>)
    requires Selection(a + b + c, sent)
    ensures Selection(a + c, sent)
  {
    var all := a + b + c;
    forall i | 0 <= i < |a + c| ensures (a + c)[i] == all[if i < |a| then i else i + |b|] {}
  }

  lemma GrowSelection(a: seq<Item>, sent: seq<seq<int>>, d: seq<int>)
    requires Selection(a, sent)
    ensures Selection(a + [Item(|sent|, d)], sent + [d])
  {}

  /** How a step changes the pipeline: nothing, one new frame at the end, or a part lost. */
  datatype Change = Same | Grown(d: seq<int>) | Lost(a: seq<Item>, b: seq<Item>, c: seq<Item>)

  ghost predicate Changed(v: View, v': View, ch: Change) {
    match ch
    case Same => Pipe(v') == Pipe(v) && SentOf(v') == SentOf(v)
    case Grown(d) => SentOf(v') == SentOf(v) + [d] && Pipe(v') == Pipe(v) + [Item(|SentOf(v)|, d)]
    case Lost(a, b, c) => Pipe(v) == a + b + c && Pipe(v') == a + c && SentOf(v') == SentOf(v)
  }

  lemma OrderedKept(v: View, v': View, ch: Change)
    requires Ordered(v) && Changed(v, v', ch)
    ensures Ordered(v')
  {
    hide Pipe, SentOf;
    match ch
    case Same =>
    case Grown(d) => GrowSelection(Pipe(v), SentOf(v), d);
    case Lost(a, b, c) => DropMiddle(a, b, c, SentOf(v));
  }

  // ---- what every step keeps ----

  predicate HoldsEdge(pc: Pc) {
    pc.HasEdge? || pc.Stale? || (pc.Looked? && pc.edge)
  }

  /** A key is opened once, pre-registered before it is registered, and never both. */
  ghost predicate Shape(v: View) {
    && (v.sent.None? ==> v.msgs == [] && v.pc.Idle? && v.edge.None? && !v.dial && !v.ended)
    && (v.edge.Some? ==> !v.dial)
    && (v.dial <==> v.pre.Some?)
    && (v.reg ==> v.edge.Some?)
    && (HoldsEdge(v.pc) ==> v.edge.Some?)
    && (!v.pc.Idle? ==> !v.pc.msg.Open?)
    && (forall i :: 0 < i < |v.msgs| ==> !v.msgs[i].Open?)
    && (v.msgs != [] && v.msgs[0].Open? ==> v.edge.None? && !v.dial && v.pc.Idle?)
  }

  lemma ShapeKept(v: View, a: Act)
    requires Shape(v) && Can(v, a)
    ensures Shape(Do(v, a))
  {
    if a.Take? {
      TakeShape(v);
    } else if a.StartFast? || a.StartDirect? || a.Send? || a.SendCloseW? || a.Register? || a.DialFail? {
      OuterShape(v, a);
    } else if a.Resolve? || a.Unregister? || a.Deliver? || a.PreDeliver? {
      ListenShape(v, a);
    } else {
      InnerShape(v, a);
    }
  }

  lemma TakeShape(v: View)
    requires Shape(v) && Can(v, Act.Take)
    ensures Shape(Do(v, Act.Take))
  {
    var v' := Do(v, Act.Take);
    forall i | 0 < i < |v'.msgs| ensures !v'.msgs[i].Open? { assert v'.msgs[i] == v.msgs[i + 1]; }
    if v'.msgs != [] { assert v'.msgs[0] == v.msgs[1]; }
  }

  lemma OuterShape(v: View, a: Act)
    requires Shape(v) && Can(v, a)
    requires a.StartFast? || a.StartDirect? || a.Send? || a.SendCloseW? || a.Register? || a.DialFail?
    ensures Shape(Do(v, a))
  {
    hide NewEdge;
  }

  lemma ListenShape(v: View, a: Act)
    requires Shape(v) && Can(v, a) && (a.Resolve? || a.Unregister? || a.Deliver? || a.PreDeliver?)
    ensures Shape(Do(v, a))
  {
    hide Push, Exit, Closed;
  }

  lemma InnerShape(v: View, a: Act)
    requires Shape(v) && Can(v, a)
    requires a.Swap? || a.Write? || a.WriteFail? || a.HitMark? || a.Evict? || a.Clean? || a.MarkR? || a.MarkW? || a.Nothing?
    ensures Shape(Do(v, a))
  {
    hide Push, Exit;
    var v' := Do(v, a);
    assert v' == v.(edge := v'.edge, reg := v'.reg);
  }

  lemma PushItems(e: Edge, x: Entry)
    ensures EdgeItems(Push(e, x)) == EdgeItems(e) + if x.Frame? && e.queue.Some? then [x.item] else []
  {
    if e.queue.Some? {
      assert e.batch + (e.queue.value + [x]) == (e.batch + e.queue.value) + [x];
      ItemsOfConcat(e.batch + e.queue.value, [x]);
      ItemsOfOne(x);
    }
  }

  // Moving the head of one part to the tail of the part before it changes nothing.

  lemma Move12(a: seq<Item>, x: seq<Item>, c: seq<Item>, d: seq<Item>)
    ensures Join(a + x, [], c, d) == Join(a, x, c, d)
  {}

  lemma Move13(a: seq<Item>, x: seq<Item>, d: seq<Item>)
    ensures Join(a + x, [], [], d) == Join(a, [], x, d)
  {}

  lemma Move23(a: seq<Item>, b: seq<Item>, x: seq<Item>, d: seq<Item>)
    ensures Join(a, b + x, [], d) == Join(a, b, x, d)
  {}

  lemma Move34(a: seq<Item>, b: seq<Item>, x: seq<Item>, d: seq<Item>)
    ensures Join(a, b, x, d) == Join(a, b, [], x + d)
  {}

  lemma Grow4(a: seq<Item>, b: seq<Item>, c: seq<Item>, d: seq<Item>, x: seq<Item>)
    ensures Join(a, b, c, d + x) == Join(a, b, c, d) + x
  {}

  lemma Lose1(a: seq<Item>, x: seq<Item>, b: seq<Item>, c: seq<Item>, d: seq<Item>)
    ensures Join(a + x, b, c, d) == a + x + (b + c + d)
    ensures Join(a, b, c, d) == a + (b + c + d)
  {}

  lemma Lose2(x: seq<Item>, c: seq<Item>, d: seq<Item>)
    ensures Join([], x, c, d) == [] + x + (c + d)
    ensures Join([], [], c, d) == [] + (c + d)
  {}

  lemma Lose3(a: seq<Item>, b: seq<Item>, x: seq<Item>, d: seq<Item>)
    ensures Join(a, b, x, d) == (a + b) + x + d
    ensures Join(a, b, [], d) == (a + b) + d
  {}

  lemma SendChange(v: View, a: Act) returns (ch: Change)
    requires Shape(v) && Can(v, a) && (a.StartFast? || a.Send? || a.SendCloseW?)
    ensures Changed(v, Do(v, a), ch)
    ensures ch == if a.Send? then Grown(a.data) else Same
  {
    hide Join, EdgeItems, DataOf, Shape;
    var m := if a.Send? then Data(v.sid, Item(|SentOf(v)|, a.data)) else if a.StartFast? then Open(v.sid) else CloseW(v.sid);
    var x := if a.Send? then [m.item] else [];
    DataOfConcat(v.msgs, [m]);
    DataOfOne(m);
    Grow4(Before(v), PreItems(v), PcItems(v.pc), DataOf(v.msgs), x);
    assert Pipe(v) + [] == Pipe(v);
    ch := if a.Send? then Grown(a.data) else Same;
  }

  lemma DirectChange(v: View)
    requires Shape(v) && Can(v, Act.StartDirect)
    ensures Changed(v, Do(v, Act.StartDirect), Same)
  {
    assert [] + Entries([]) == [];
  }

  lemma TakeChange(v: View)
    requires Shape(v) && Can(v, Act.Take)
    ensures Changed(v, Do(v, Act.Take), Same)
  {
    hide Join, EdgeItems, DataOf;
    var m := v.msgs[0];
    var x := if m.Data? then [m.item] else [];
    DataOfHead(v.msgs);
    Move34(Before(v), PreItems(v), x, DataOf(v.msgs[1..]));
    assert [] + DataOf(v.msgs[1..]) == DataOf(v.msgs[1..]);
  }

  lemma DeliverChange(v: View) returns (ch: Change)
    requires Shape(v) && Can(v, Act.Deliver)
    ensures Changed(v, Do(v, Act.Deliver), ch)
  {
    hide Join, EdgeItems, DataOf, Push;
    var e, x := v.edge.value, PcItems(v.pc);
    PushItems(e, if v.pc.msg.Data? then Frame(v.pc.msg.item) else CloseWMark);
    assert EdgeItems(e) + [] == EdgeItems(e);
    if e.queue.Some? {
      Move13(EdgeItems(e), x, DataOf(v.msgs));
      ch := Same;
    } else {
      Lose3(EdgeItems(e), [], x, DataOf(v.msgs));
      ch := Lost(EdgeItems(e) + [], x, DataOf(v.msgs));
    }
  }

  /** A frame Listen gives up on. */
  lemma GiveUp(v: View, v': View)
    requires SentOf(v') == SentOf(v) && Before(v') == Before(v) && PreItems(v') == PreItems(v) && v'.msgs == v.msgs
    requires v'.pc.Idle?
    ensures Changed(v, v', Lost(Before(v) + PreItems(v), PcItems(v.pc), DataOf(v.msgs)))
  {
    hide Join, EdgeItems, DataOf;
    Lose3(Before(v), PreItems(v), PcItems(v.pc), DataOf(v.msgs));
  }

  lemma ListenChange(v: View, a: Act) returns (ch: Change)
    requires Can(v, a) && (a.Resolve? || a.Unregister?)
    ensures Changed(v, Do(v, a), ch)
  {
    hide Pipe, DataOf, EdgeItems;
    var v' := Do(v, a);
    if v'.pc.Idle? {
      GiveUp(v, v');
      ch := Lost(Before(v) + PreItems(v), PcItems(v.pc), DataOf(v.msgs));
    } else {
      assert Pipe(v) == Pipe(v') by { PipeSame(v, v'); }
      ch := Same;
    }
  }

  lemma PipeSame(v: View, v': View)
    requires v'.edge == v.edge && v'.pre == v.pre && PcItems(v'.pc) == PcItems(v.pc) && v'.msgs == v.msgs
    ensures Pipe(v') == Pipe(v)
  {}

  lemma PreDeliverChange(v: View) returns (ch: Change)
    requires Can(v, Act.PreDeliver)
    ensures Changed(v, Do(v, Act.PreDeliver), ch)
  {
    hide Join, DataOf, EdgeItems;
    var v', x := Do(v, Act.PreDeliver), PcItems(v.pc);
    if v.pre.Some? && v.pc.msg.Data? {
      Move23(Before(v), PreItems(v), x, DataOf(v.msgs));
      ch := Same;
    } else {
      GiveUp(v, v');
      ch := Lost(Before(v) + PreItems(v), x, DataOf(v.msgs));
    }
  }

  lemma RegisterChange(v: View)
    requires Shape(v) && Can(v, Act.Register)
    ensures Changed(v, Do(v, Act.Register), Same)
  {
    hide Join, DataOf, ItemsOf, Entries;
    var x := v.pre.value;
    ItemsOfEntries(x);
    assert [] + Entries(x) == Entries(x) && [] + x == x;
    Move12([], x, PcItems(v.pc), DataOf(v.msgs));
  }

  lemma DialFailChange(v: View) returns (ch: Change)
    requires Shape(v) && Can(v, Act.DialFail)
    ensures Changed(v, Do(v, Act.DialFail), ch)
  {
    hide Join, DataOf, EdgeItems;
    var x := v.pre.value;
    Lose2(x, PcItems(v.pc), DataOf(v.msgs));
    ch := Lost([], x, PcItems(v.pc) + DataOf(v.msgs));
  }

  lemma WriteItems(e: Edge)
    requires e.batch != [] && e.batch[0].Frame?
    ensures EdgeItems(e.(written := e.written + [e.batch[0].item], batch := e.batch[1..])) == EdgeItems(e)
  {
    hide ItemsOf;
    var all := e.batch + QueueOf(e);
    ItemsOfHead(all);
    assert all[1..] == e.batch[1..] + QueueOf(e);
  }

  lemma SwapItems(e: Edge)
    requires e.batch == [] && e.queue.Some?
    ensures EdgeItems(e.(batch := e.queue.value, queue := Some([]))) == EdgeItems(e)
  {
    assert [] + e.queue.value == e.queue.value + [];
  }

  lemma ExitItems(e: Edge, force: bool)
    ensures EdgeItems(Exit(e, force)) == e.written
  {
    assert ItemsOf([] + []) == [];
  }

  /** What sendLoop and the registry do to an edge keeps its items or cuts its end off. */
  lemma EdgeItemsChange(v: View, a: Act)
    requires Can(v, a)
    requires a.Swap? || a.Write? || a.WriteFail? || a.HitMark? || a.Evict? || a.Clean? || a.MarkR? || a.MarkW?
    ensures v.edge.Some? && Do(v, a).edge.Some?
    ensures EdgeItems(Do(v, a).edge.value) ==
            if a.WriteFail? || a.HitMark? then v.edge.value.written else EdgeItems(v.edge.value)
  {
    hide ItemsOf, Push, Exit;
    var e := v.edge.value;
    match a
    case Swap => SwapItems(e);
    case Write => WriteItems(e);
    case WriteFail => ExitItems(e, true);
    case HitMark => ExitItems(e, e.batch[0].CloseMark?);
    case Evict => PushItems(e, CloseMark);
    case Clean =>
    case MarkR =>
    case MarkW =>
  }

  lemma EdgeChange(v: View, a: Act) returns (ch: Change)
    requires Shape(v) && Can(v, a)
    requires a.Swap? || a.Write? || a.WriteFail? || a.HitMark? || a.Evict? || a.Clean? || a.MarkR? || a.MarkW?
    ensures Changed(v, Do(v, a), ch)
  {
    hide Join, DataOf, ItemsOf, Shape, Push;
    EdgeItemsChange(v, a);
    var e := v.edge.value;
    if a.WriteFail? || a.HitMark? {
      var x := ItemsOf(e.batch + QueueOf(e));
      Lose1(e.written, x, PreItems(v), PcItems(v.pc), DataOf(v.msgs));
      ch := Lost(e.written, x, PreItems(v) + PcItems(v.pc) + DataOf(v.msgs));
    } else {
      ch := Same;
    }
  }

  /** Every step moves frames along, loses some, or sends one more; it never reorders. */
  lemma StepChange(v: View, a: Act) returns (ch: Change)
    requires Shape(v) && Can(v, a)
    ensures Changed(v, Do(v, a), ch)
  {
    hide Shape, Do, Can, Changed;
    if a.StartFast? || a.Send? || a.SendCloseW? {
      ch := SendChange(v, a);
    } else if a.StartDirect? {
      ch := Same;
      DirectChange(v);
    } else if a.Take? {
      ch := Same;
      TakeChange(v);
    } else if a.Deliver? {
      ch := DeliverChange(v);
    } else if a.PreDeliver? {
      ch := PreDeliverChange(v);
    } else if a.Resolve? || a.Unregister? {
      ch := ListenChange(v, a);
    } else if a.Register? {
      ch := Same;
      RegisterChange(v);
    } else if a.DialFail? {
      ch := DialFailChange(v);
    } else if a.Nothing? {
      ch := Same;
      NothingChange(v);
    } else {
      ch := EdgeChange(v, a);
    }
  }

  lemma NothingChange(v: View)
    ensures Can(v, Nothing) && Changed(v, Do(v, Nothing), Same)
  {}
}
