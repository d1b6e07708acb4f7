/** One direction of the multiplexer as a step machine: the relays of one endpoint put frames
    on FIFO tunnels, the Listen loops of the other endpoint route them, connectToDest
    registers edges, and one sendLoop per edge drains its queue.  Every lock section or
    atomic operation is one step; steps interleave freely. */
module Mux {
  /** A session: the tunnel it runs over and its id there. */
  datatype Key = Key(tun: nat, sid: nat)

  /** One DATA frame, numbered by its place among the frames its relay sent. */
  datatype Item = Item(no: nat, data: seq<int>)

  datatype Msg =
    | Open(sid: nat)
    | Data(sid: nat, item: Item)
    | CloseW(sid: nat)

  datatype Entry = Frame(item: Item) | CloseWMark | CloseMark

  /** Where a Listen loop stands between two lock sections. */
  datatype Pc =
    | Idle
    | Looked(msg: Msg, edge: bool, pre: bool)   // after the read-locked part of getRegistered
    | Stale(msg: Msg)                            // found closed, about to delete from the registry
    | HasEdge(msg: Msg)                          // about to deliver
    | ToPre(msg: Msg)                            // about to preDeliver

  /** An edge: `queue` is None once its sendLoop has exited; `batch` is sendLoop's own list. */
  datatype Edge = Edge(queue: Option<seq<Entry>>, batch: seq<Entry>, written: seq<Item>, r: bool, w: bool)

  datatype Option<T> = None | Some(value: T)

  datatype State = State(
    sent: map<Key, seq<seq<int>>>,   // what each relay has sent
    ended: set<Key>,                 // relays that sent CLOSE_W
    inbox: map<nat, seq<Msg>>,       // frames on each tunnel
    listen: map<nat, Pc>,
    registry: set<Key>,
    pre: map<Key, seq<Item>>,        // preRegistry
    dialing: set<Key>,               // connectToDest running
    edges: map<Key, Edge>,
    raced: set<Key>)                 // register fell between getRegistered and preDeliver

  datatype Action =
    | StartFast(k: Key)              // client: OPEN sent ahead of the data
    | StartDirect(k: Key)            // receiver registered before the peer may send
    | Send(k: Key, data: seq<int>)
    | SendCloseW(k: Key)
    | Take(t: nat)
    | Resolve(t: nat)
    | Unregister(t: nat)
    | Deliver(t: nat)
    | PreDeliver(t: nat)
    | Register(k: Key)
    | DialFail(k: Key)
    | Swap(k: Key)
    | Write(k: Key)
    | WriteFail(k: Key)
    | HitMark(k: Key)
    | Evict(k: Key)                  // cleanOfTun or destroy
    | Clean(k: Key)
    | MarkR(k: Key)
    | MarkW(t: nat)

  function Inbox(s: State, t: nat): seq<Msg> { if t in s.inbox then s.inbox[t] else [] }
  function PcOf(s: State, t: nat): Pc { if t in s.listen then s.listen[t] else Idle }

  function MsgKey(t: nat, m: Msg): Key { Key(t, m.sid) }

  predicate Closed(e: Edge) { e.r && e.w }

  function NewEdge(items: seq<Item>): Edge {
    Edge(Some(Entries(items)), [], [], false, false)
  }

  function Entries(items: seq<Item>): seq<Entry> {
    if items == [] then [] else Entries(items[..|items| - 1]) + [Frame(items[|items| - 1])]
  }

  function Push(e: Edge, x: Entry): Edge {
    match e.queue
    case None => e
    case Some(q) => e.(queue := Some(q + [x]))
  }

  /** sendLoop's exit: the queue and what is left of the batch are gone. */
  function Exit(e: Edge, force: bool): Edge {
    e.(queue := None, batch := [], r := e.r || force, w := e.w || force)
  }

  // ---- steps ----

  ghost predicate Enabled(s: State, a: Action) {
    match a
    case StartFast(k) => k !in s.sent
    case StartDirect(k) => k !in s.sent
    case Send(k, _) => k in s.sent && k !in s.ended
    case SendCloseW(k) => k in s.sent && k !in s.ended
    case Take(t) => PcOf(s, t).Idle? && Inbox(s, t) != []
    case Resolve(t) => PcOf(s, t).Looked?
    case Unregister(t) => PcOf(s, t).Stale?
    case Deliver(t) => PcOf(s, t).HasEdge? && MsgKey(t, PcOf(s, t).msg) in s.edges
    case PreDeliver(t) => PcOf(s, t).ToPre?
    case Register(k) => k in s.dialing
    case DialFail(k) => k in s.dialing
    case Swap(k) => k in s.edges && s.edges[k].batch == [] && s.edges[k].queue.Some? && s.edges[k].queue.value != []
    case Write(k) => k in s.edges && s.edges[k].batch != [] && s.edges[k].batch[0].Frame?
    case WriteFail(k) => k in s.edges && s.edges[k].batch != [] && s.edges[k].batch[0].Frame?
    case HitMark(k) => k in s.edges && s.edges[k].batch != [] && !s.edges[k].batch[0].Frame?
    case Evict(k) => k in s.registry && k in s.edges
    case Clean(k) => k in s.registry && k in s.edges   // closed both ways, or its socket is gone
    case MarkR(k) => k in s.edges
    case MarkW(t) => PcOf(s, t).HasEdge? && PcOf(s, t).msg.CloseW? && MsgKey(t, PcOf(s, t).msg) in s.edges
  }

  ghost function Sends(s: State, t: nat, m: Msg): State {
    s.(inbox := s.inbox[t := Inbox(s, t) + [m]])
  }

  ghost function SetPc(s: State, t: nat, pc: Pc): State {
    s.(listen := s.listen[t := pc])
  }

  ghost function SetEdge(s: State, k: Key, e: Edge): State {
    s.(edges := s.edges[k := e])
  }

  ghost function TakeStep(s: State, t: nat): State
    requires Enabled(s, Take(t))
  {
    var m := Inbox(s, t)[0];
    var k := MsgKey(t, m);
    var s1 := s.(inbox := s.inbox[t := Inbox(s, t)[1..]]);
    if m.Open? then s1.(pre := s1.pre[k := []], dialing := s1.dialing + {k})
    else SetPc(s1, t, Looked(m, k in s.registry, k in s.pre))
  }

  ghost function ResolveStep(s: State, t: nat): State
    requires Enabled(s, Resolve(t))
  {
    var pc := PcOf(s, t);
    var k := MsgKey(t, pc.msg);
    if pc.edge then
      SetPc(s, t, if k in s.edges && Closed(s.edges[k]) then Stale(pc.msg) else HasEdge(pc.msg))
    else if pc.msg.Data? && pc.pre then SetPc(s, t, ToPre(pc.msg))
    else SetPc(s, t, Idle)
  }

  ghost function DeliverStep(s: State, t: nat): State
    requires Enabled(s, Deliver(t))
  {
    var m := PcOf(s, t).msg;
    var k := MsgKey(t, m);
    SetPc(SetEdge(s, k, Push(s.edges[k], if m.Data? then Frame(m.item) else CloseWMark)), t, Idle)
  }

  ghost function PreDeliverStep(s: State, t: nat): State
    requires Enabled(s, PreDeliver(t))
  {
    var m := PcOf(s, t).msg;
    var k := MsgKey(t, m);
    var s1 := SetPc(s, t, Idle);
    if k in s.pre && m.Data? then s1.(pre := s.pre[k := s.pre[k] + [m.item]]) else s1
  }

  /** The window between the lookup of a pre-registered key and preDeliver. */
  predicate InWindow(s: State, k: Key) {
    var pc := PcOf(s, k.tun);
    (pc.ToPre? || (pc.Looked? && !pc.edge && pc.pre)) && pc.msg.Data? && pc.msg.sid == k.sid
  }

  ghost function RegisterStep(s: State, k: Key): State
    requires Enabled(s, Register(k))
  {
    var buffer := if k in s.pre then s.pre[k] else [];
    s.(dialing := s.dialing - {k}, pre := s.pre - {k}, registry := s.registry + {k},
       edges := s.edges[k := NewEdge(buffer)],
       raced := if InWindow(s, k) then s.raced + {k} else s.raced)
  }

  ghost function Apply(s: State, a: Action): State
    requires Enabled(s, a)
  {
    match a
    case StartFast(k) => Sends(s.(sent := s.sent[k := []]), k.tun, Open(k.sid))
    case StartDirect(k) => s.(sent := s.sent[k := []], registry := s.registry + {k}, edges := s.edges[k := NewEdge([])])
    case Send(k, d) => Sends(s.(sent := s.sent[k := s.sent[k] + [d]]), k.tun, Data(k.sid, Item(|s.sent[k]|, d)))
    case SendCloseW(k) => Sends(s.(ended := s.ended + {k}), k.tun, CloseW(k.sid))
    case Take(t) => TakeStep(s, t)
    case Resolve(t) => ResolveStep(s, t)
    case Unregister(t) => SetPc(s.(registry := s.registry - {MsgKey(t, PcOf(s, t).msg)}), t, Idle)
    case Deliver(t) => DeliverStep(s, t)
    case PreDeliver(t) => PreDeliverStep(s, t)
    case Register(k) => RegisterStep(s, k)
    case DialFail(k) => s.(dialing := s.dialing - {k}, pre := s.pre - {k})
    case Swap(k) => SetEdge(s, k, s.edges[k].(batch := s.edges[k].queue.value, queue := Some([])))
    case Write(k) => SetEdge(s, k, s.edges[k].(written := s.edges[k].written + [s.edges[k].batch[0].item], batch := s.edges[k].batch[1..]))
    case WriteFail(k) => SetEdge(s, k, Exit(s.edges[k], true))
    case HitMark(k) => SetEdge(s, k, Exit(s.edges[k], s.edges[k].batch[0].CloseMark?))
    case Evict(k) => SetEdge(s, k, Push(s.edges[k], CloseMark)).(registry := s.registry - {k})
    case Clean(k) => s.(registry := s.registry - {k})
    case MarkR(k) => SetEdge(s, k, s.edges[k].(r := true))
    case MarkW(t) => var k := MsgKey(t, PcOf(s, t).msg); SetEdge(s, k, s.edges[k].(w := true))
  }

  const Start: State := State(map[], {}, map[], map[], {}, map[], {}, map[], {})

  ghost predicate IsRun(states: seq<State>, acts: seq<Action>) {
    && |states| == |acts| + 1
    && states[0] == Start
    && forall i {:trigger acts[i]} :: 0 <= i < |acts| ==> Enabled(states[i], acts[i]) && states[i + 1] == Apply(states[i], acts[i])
  }
}
