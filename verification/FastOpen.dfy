/** Fast open: the client sends data before the server has dialled, and the server buffers
    it.  One session, both directions, every interleaving: the buffer is bounded. */
module FastOpen {
  const FAST_OPEN_BUF_MAX_SIZE: nat := 0x1_0000
  const MAX_READ: nat := 0xffff - 8
  const BOUND: nat := 0xffff + MAX_READ

  datatype Up = Open | Data(n: nat)
  datatype Answer = Yes | No
  datatype Option<T> = None | Some(value: T)

  /** The client's relay: before OPEN, fast-opening, past OPEN_Y, or over. */
  datatype Relay = Unopened | Fast | Free | Over

  /** The server's Listen loop: between getRegistered and preDeliver it holds a frame. */
  datatype Hand = Empty | Looked(n: nat)

  /** connectToDest: not started, dialling, decided but not yet answered, answered. */
  datatype Dial = Waiting | Dialling | Decided(a: Answer) | Answered

  datatype State = State(
    relay: Relay, tn: nat, ready: Option<Answer>,
    up: seq<Up>, down: seq<Answer>,
    hand: Hand, pre: Option<seq<nat>>, registered: bool, dial: Dial)

  datatype Action =
    | SendOpen | Send(n: nat) | TakeReady | Stop | ReadAnswer
    | Take | Keep | Register | Fail | SendAnswer

  const Start: State := State(Unopened, 0, None, [], [], Empty, None, false, Waiting)

  predicate Enabled(s: State, a: Action) {
    match a
    case SendOpen => s.relay.Unopened?
    case Send(n) => 1 <= n <= MAX_READ && (s.relay.Free? || (s.relay.Fast? && s.tn < FAST_OPEN_BUF_MAX_SIZE))
    case TakeReady => s.relay.Fast? && s.ready.Some?
    case Stop => s.relay.Fast? || s.relay.Free?
    case ReadAnswer => s.down != [] && s.ready.None?
    case Take => s.hand.Empty? && s.up != []
    case Keep => s.hand.Looked?
    case Register => s.dial.Dialling?
    case Fail => s.dial.Dialling?
    case SendAnswer => s.dial.Decided?
  }

  function Apply(s: State, a: Action): State
    requires Enabled(s, a)
  {
    match a
    case SendOpen => s.(relay := Fast, up := s.up + [Open])
    case Send(n) => s.(tn := s.tn + n, up := s.up + [Data(n)])
    case TakeReady => s.(relay := if s.ready.value.Yes? then Free else Over, ready := None)
    case Stop => s.(relay := Over)
    case ReadAnswer => s.(ready := Some(s.down[0]), down := s.down[1..])
    case Take =>
      var s1 := s.(up := s.up[1..]);
      if s.up[0].Open? then s1.(pre := Some([]), dial := Dialling)
      else if !s.registered && s.pre.Some? then s1.(hand := Looked(s.up[0].n))
      else s1   // delivered to the edge, or refused with CLOSE_R
    case Keep =>
      if s.pre.Some? then s.(hand := Empty, pre := Some(s.pre.value + [s.hand.n])) else s.(hand := Empty)
    case Register => s.(pre := None, registered := true, dial := Decided(Yes))
    case Fail => s.(pre := None, dial := Decided(No))
    case SendAnswer => s.(down := s.down + [s.dial.a], dial := Answered)
  }

  function Sum(xs: seq<nat>): nat { if xs == [] then 0 else Sum(xs[..|xs| - 1]) + xs[|xs| - 1] }

  function UpBytes(us: seq<Up>): nat {
    if us == [] then 0 else UpBytes(us[..|us| - 1]) + if us[|us| - 1].Data? then us[|us| - 1].n else 0
  }

  lemma {:induction false} UpBytesHead(us: seq<Up>)
    requires us != []
    ensures UpBytes(us) == (if us[0].Data? then us[0].n else 0) + UpBytes(us[1..])
    decreases |us|
  {
    if |us| > 1 {
      var front := us[..|us| - 1];
      UpBytesHead(front);
      assert us[1..][..|us| - 2] == front[1..];
    }
  }

  function HandBytes(h: Hand): nat { if h.Looked? then h.n else 0 }
  function PreBytes(s: State): nat { if s.pre.Some? then Sum(s.pre.value) else 0 }

  /** OPEN_Y has been sent or is about to be. */
  predicate YesOut(s: State) {
    s.relay.Free? || s.ready == Some(Yes) || Yes in s.down || s.dial == Decided(Yes)
  }

  /** Yes comes after registration; an unregistered session is still within its first bytes;
      no byte is counted twice. */
  ghost predicate Inv(s: State) {
    && (YesOut(s) ==> s.registered)
    && (s.registered ==> s.pre.None? && !s.dial.Dialling? && !s.dial.Waiting?)
    && (s.pre.Some? ==> s.dial.Dialling?)
    && (!s.registered ==> s.tn <= BOUND)
    && PreBytes(s) + HandBytes(s.hand) + UpBytes(s.up) <= s.tn
    && (s.relay.Unopened? ==> s.up == [] && s.dial.Waiting?)
    && (forall i :: 0 <= i < |s.up| && s.up[i].Open? ==> i == 0 && s.dial.Waiting?)
  }

  lemma OpenKept(s: State)
    requires Inv(s) && Enabled(s, SendOpen)
    ensures Inv(Apply(s, SendOpen))
  {
    hide Sum;
    var s' := Apply(s, SendOpen);
    assert s'.up[..|s.up|] == s.up && UpBytes(s'.up) == UpBytes(s.up);
    hide UpBytes;
  }

  lemma UpBytesAppend(us: seq<Up>, n: nat)
    ensures UpBytes(us + [Data(n)]) == UpBytes(us) + n
  {
    assert (us + [Data(n)])[..|us|] == us;
  }

  lemma SendKept(s: State, n: nat)
    requires Inv(s) && Enabled(s, Send(n))
    ensures Inv(Apply(s, Send(n)))
  {
    hide Sum, UpBytes;
    UpBytesAppend(s.up, n);
    var s' := Apply(s, Send(n));
    forall i | 0 <= i < |s'.up| && s'.up[i].Open? ensures i == 0 && s'.dial.Waiting? { assert s'.up[i] == s.up[i]; }
  }

  lemma ClientKept(s: State, a: Action)
    requires Inv(s) && Enabled(s, a) && (a.TakeReady? || a.Stop? || a.ReadAnswer?)
    ensures Inv(Apply(s, a))
  {
    hide Sum, UpBytes;
    var s' := Apply(s, a);
    if a.ReadAnswer? {
      assert s.down[0] in s.down;
      assert forall x :: x in s'.down ==> x in s.down;
    }
  }

  lemma ServerKept(s: State, a: Action)
    requires Inv(s) && Enabled(s, a) && (a.Keep? || a.Register? || a.Fail? || a.SendAnswer?)
    ensures Inv(Apply(s, a))
  {
    hide UpBytes;
    var s' := Apply(s, a);
    if a.Keep? && s.pre.Some? { assert s'.pre.value[..|s.pre.value|] == s.pre.value; }
    if a.SendAnswer? { assert forall x :: x in s'.down ==> x in s.down || x == s.dial.a; }
  }

  lemma TakeKept(s: State)
    requires Inv(s) && Enabled(s, Take)
    ensures Inv(Apply(s, Take))
  {
    UpBytesHead(s.up);
    hide UpBytes;
    var s' := Apply(s, Take);
    forall i | 0 <= i < |s'.up| ensures !s'.up[i].Open? { assert s.up[i + 1] == s'.up[i]; }
  }

  lemma InvKept(s: State, a: Action)
    requires Inv(s) && Enabled(s, a)
    ensures Inv(Apply(s, a))
  {
    hide Inv, Enabled;
    if a.Take? { TakeKept(s); }
    else if a.Keep? || a.Register? || a.Fail? || a.SendAnswer? { ServerKept(s, a); }
    else if a.SendOpen? { OpenKept(s); }
    else if a.Send? { SendKept(s, a.n); }
    else { ClientKept(s, a); }
  }

  ghost predicate IsRun(states: seq<State>, acts: seq<Action>) {
    && |states| == |acts| + 1 && states[0] == Start
    && forall i {:trigger acts[i]} :: 0 <= i < |acts| ==> Enabled(states[i], acts[i]) && states[i + 1] == Apply(states[i], acts[i])
  }

  lemma {:induction false} RunInv(states: seq<State>, acts: seq<Action>, i: nat)
    requires IsRun(states, acts) && i < |states|
    ensures Inv(states[i])
  {
    hide Inv, Enabled, Apply;
    if i == 0 {
      StartInv();
    } else {
      RunInv(states, acts, i - 1);
      assert Enabled(states[i - 1], acts[i - 1]);
      InvKept(states[i - 1], acts[i - 1]);
    }
  }

  lemma StartInv()
    ensures Inv(Start)
  {}

  /** In every reachable state the pre-registration buffer holds at most 65535 + 65527 bytes. */
  lemma BufferBounded(states: seq<State>, acts: seq<Action>, i: nat)
    requires IsRun(states, acts) && i < |states| && states[i].pre.Some?
    ensures Sum(states[i].pre.value) <= BOUND == 131062
  {
    RunInv(states, acts, i);
  }

  // ---- the bound is reached ----

  ghost predicate Leads(s: State, acts: seq<Action>, s': State)
    decreases acts
  {
    if acts == [] then s == s' else Enabled(s, acts[0]) && Leads(Apply(s, acts[0]), acts[1..], s')
  }

  lemma LeadsStep(s: State, a: Action, acts: seq<Action>, s': State)
    requires Enabled(s, a) && Leads(Apply(s, a), acts, s')
    ensures Leads(s, [a] + acts, s')
  {
    hide Enabled, Apply;
    assert ([a] + acts)[1..] == acts;
  }

  const Filled: State :=
    Start.(relay := Fast, tn := BOUND, up := [Open, Data(MAX_READ), Data(8), Data(MAX_READ)])

  const Brimful: State :=
    Filled.(up := [], pre := Some([MAX_READ, 8, MAX_READ]), dial := Dialling)

  lemma ToFilled()
    ensures Leads(Start, [SendOpen, Send(MAX_READ), Send(8), Send(MAX_READ)], Filled)
  {
    var s1 := Start.(relay := Fast, up := [Open]);
    var s2 := s1.(tn := MAX_READ, up := [Open, Data(MAX_READ)]);
    var s3 := s2.(tn := 0xffff, up := [Open, Data(MAX_READ), Data(8)]);
    assert Apply(Start, SendOpen) == s1;
    assert Apply(s1, Send(MAX_READ)) == s2;
    assert Apply(s2, Send(8)) == s3;
    assert Apply(s3, Send(MAX_READ)) == Filled;
    LeadsStep(s3, Send(MAX_READ), [], Filled);
    LeadsStep(s2, Send(8), [Send(MAX_READ)], Filled);
    LeadsStep(s1, Send(MAX_READ), [Send(8), Send(MAX_READ)], Filled);
    LeadsStep(Start, SendOpen, [Send(MAX_READ), Send(8), Send(MAX_READ)], Filled);
    assert [SendOpen] + [Send(MAX_READ), Send(8), Send(MAX_READ)] == [SendOpen, Send(MAX_READ), Send(8), Send(MAX_READ)];
  }

  const Halfway: State :=
    Filled.(up := [Data(8), Data(MAX_READ)], pre := Some([MAX_READ]), dial := Dialling)

  lemma FromHalfway()
    ensures Leads(Halfway, [Take, Keep, Take, Keep], Brimful)
  {
    var s8 := Halfway.(up := [Data(MAX_READ)], hand := Looked(8));
    var s9 := s8.(hand := Empty, pre := Some([MAX_READ, 8]));
    var s10 := s9.(up := [], hand := Looked(MAX_READ));
    assert [MAX_READ] + [8] == [MAX_READ, 8] && [MAX_READ, 8] + [MAX_READ] == [MAX_READ, 8, MAX_READ];
    assert Apply(Halfway, Take) == s8;
    assert Apply(s8, Keep) == s9;
    assert Apply(s9, Take) == s10;
    assert Apply(s10, Keep) == Brimful;
    LeadsStep(s10, Keep, [], Brimful);
    LeadsStep(s9, Take, [Keep], Brimful);
    LeadsStep(s8, Keep, [Take, Keep], Brimful);
    LeadsStep(Halfway, Take, [Keep, Take, Keep], Brimful);
    assert [Take] + [Keep, Take, Keep] == [Take, Keep, Take, Keep];
  }

  lemma ToBrimful()
    ensures Leads(Filled, [Take, Take, Keep, Take, Keep, Take, Keep], Brimful)
  {
    FromHalfway();
    hide Leads;
    var s5 := Filled.(up := [Data(MAX_READ), Data(8), Data(MAX_READ)], pre := Some([]), dial := Dialling);
    var s6 := s5.(up := [Data(8), Data(MAX_READ)], hand := Looked(MAX_READ));
    assert [] + [MAX_READ] == [MAX_READ];
    assert Apply(Filled, Take) == s5;
    assert Apply(s5, Take) == s6;
    assert Apply(s6, Keep) == Halfway;
    var tail := [Take, Keep, Take, Keep];
    LeadsStep(s6, Keep, tail, Brimful);
    LeadsStep(s5, Take, [Keep] + tail, Brimful);
    LeadsStep(Filled, Take, [Take] + ([Keep] + tail), Brimful);
    assert [Take] + ([Take] + ([Keep] + tail)) == [Take, Take, Keep, Take, Keep, Take, Keep];
  }

  lemma SumThree(a: nat, b: nat, c: nat)
    ensures Sum([a, b, c]) == a + b + c
  {
    assert [a, b, c][..2] == [a, b] && [a, b][..1] == [a] && [a][..0] == [];
    assert Sum([a]) == a;
    assert Sum([a, b]) == a + b;
  }

  /** Reads of 65527, 8 and 65527 bytes before the answer fill the buffer to the bound exactly. */
  lemma BoundReached()
    ensures Leads(Start, [SendOpen, Send(MAX_READ), Send(8), Send(MAX_READ)], Filled)
    ensures Leads(Filled, [Take, Take, Keep, Take, Keep, Take, Keep], Brimful)
    ensures Brimful.pre.Some? && Sum(Brimful.pre.value) == BOUND
  {
    hide Leads;
    ToFilled();
    ToBrimful();
    SumThree(MAX_READ, 8, MAX_READ);
  }
}
