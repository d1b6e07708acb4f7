/** The client's token pool: a byte slice that replies are appended to and 20-byte tokens are
    cut from.  getToken, saveTokens and clearTokens hold a lock; the login of a restart stores
    the pool without it, so that store may fall between any two accesses of theirs. */
module TokenPool {
  const TKSZ: nat := 20
  const FRAME_ACTION_TOKEN_REQUEST: bv8 := 0x41
  const FRAME_ACTION_TOKEN_REPLY: bv8 := 0x42

  type Bytes = seq<bv8>

  /** The tokens of one login and what was appended to them since; `gone` bytes have left. */
  datatype Epoch = Epoch(received: Bytes, gone: nat)

  /** A token, by the login it belongs to and its place in what was received under it. */
  datatype Pos = Pos(epoch: nat, offset: nat)

  /** Where the holder of the lock stands: between the length test and the first slice
      expression, between that and the load for the second, or between a load and the store
      that belongs to it. */
  datatype Section =
    | Free
    | Checked
    | Taken(at: Pos)
    | Cut(at: Pos, epoch: nat)
    | Loaded(epoch: nat, tokens: Bytes)

  /** pool is what is left of epoch cur; handed are the tokens taken so far. */
  datatype State = State(epochs: seq<Epoch>, cur: nat, section: Section, handed: seq<Pos>)

  datatype Op =
    | Login(tokens: Bytes)   // c.token = theParam.token
    | Check                  // len(c.token) >= TKSZ
    | Take                   // token = c.token[:TKSZ]
    | LoadRest               // c.token[TKSZ:]
    | StoreRest
    | LoadPool(data: Bytes)  // append(c.token, tokens...)
    | StorePool
    | Drop                   // c.token = nil

  const Start: State := State([Epoch([], 0)], 0, Free, [])

  function Left(e: Epoch): Bytes
    requires e.gone <= |e.received|
  {
    e.received[e.gone..]
  }

  predicate Sound(st: State) {
    && st.cur < |st.epochs|
    && (forall i :: 0 <= i < |st.epochs| ==> st.epochs[i].gone <= |st.epochs[i].received|)
    && (st.section.Checked? ==> |Left(st.epochs[st.cur])| >= TKSZ)
    && (st.section.Taken? ==> |Left(st.epochs[st.cur])| >= TKSZ)
    && (st.section.Cut? ==> st.section.epoch < |st.epochs| && |Left(st.epochs[st.section.epoch])| >= TKSZ)
    && (st.section.Loaded? ==> st.section.epoch < |st.epochs|)
  }

  function Pool(st: State): Bytes
    requires Sound(st)
  {
    Left(st.epochs[st.cur])
  }

  /** The bytes a frame adds: only a reply carries any. */
  function Payload(data: Bytes): Bytes
    requires data != []
  {
    if data[0] == FRAME_ACTION_TOKEN_REPLY then data[1..] else []
  }

  /** The handshake rejects a login with less than one token. */
  predicate Enabled(st: State, op: Op) {
    Sound(st) &&
    match op
    case Login(tokens) => |tokens| >= TKSZ
    case Check => st.section.Free? && |Pool(st)| >= TKSZ
    case Take => st.section.Checked?
    case LoadRest => st.section.Taken?
    case StoreRest => st.section.Cut?
    case LoadPool(data) => st.section.Free? && data != []
    case StorePool => st.section.Loaded?
    case Drop => st.section.Free?
  }

  function Apply(st: State, op: Op): State
    requires Enabled(st, op)
  {
    match op
    case Login(tokens) => st.(epochs := st.epochs + [Epoch(tokens, 0)], cur := |st.epochs|)
    case Check => st.(section := Checked)
    case Take =>
      var at := Pos(st.cur, st.epochs[st.cur].gone);
      st.(section := Taken(at), handed := st.handed + [at])
    case LoadRest => st.(section := Cut(st.section.at, st.cur))
    case StoreRest =>
      var e := st.section.epoch;
      st.(epochs := st.epochs[e := st.epochs[e].(gone := st.epochs[e].gone + TKSZ)], cur := e, section := Free)
    case LoadPool(data) => st.(section := Loaded(st.cur, Payload(data)))
    case StorePool =>
      var e := st.section.epoch;
      st.(epochs := st.epochs[e := st.epochs[e].(received := st.epochs[e].received + st.section.tokens)], cur := e, section := Free)
    case Drop =>
      st.(epochs := st.epochs[st.cur := st.epochs[st.cur].(gone := |st.epochs[st.cur].received|)])
  }

  lemma SoundKept(st: State, op: Op)
    requires Enabled(st, op)
    ensures Sound(Apply(st, op))
  {}

  // ---- the pool itself, access by access ----

  class Client {
    var token: Bytes
    ghost var history: State

    ghost predicate Valid()
      reads this
    {
      Sound(history) && token == Pool(history)
    }

    constructor ()
      ensures Valid() && history == Start
    {
      token, history := [], Start;
    }

    method Login(tokens: Bytes)
      requires Valid() && |tokens| >= TKSZ
      modifies this
      ensures Valid() && history == Apply(old(history), Op.Login(tokens))
    {
      SoundKept(history, Op.Login(tokens));
      token := tokens;
      history := Apply(history, Op.Login(tokens));
    }

    /** False is the wait for more tokens. */
    method CheckPool() returns (ok: bool)
      requires Valid() && history.section.Free?
      modifies this`history
      ensures Valid() && ok == (|token| >= TKSZ)
      ensures history == if ok then Apply(old(history), Check) else old(history)
    {
      ok := |token| >= TKSZ;
      if ok {
        SoundKept(history, Check);
        history := Apply(history, Check);
      }
    }

    method TakeToken() returns (t: Bytes)
      requires Valid() && history.section.Checked?
      modifies this`history
      ensures Valid() && history == Apply(old(history), Take)
      ensures IsToken(history, history.section.at, t)
    {
      t := token[..TKSZ];
      SoundKept(history, Take);
      history := Apply(history, Take);
    }

    method LoadRestOfPool() returns (rest: Bytes)
      requires Valid() && history.section.Taken?
      modifies this`history
      ensures Valid() && history == Apply(old(history), LoadRest)
      ensures rest == token[TKSZ..]
    {
      rest := token[TKSZ..];
      SoundKept(history, LoadRest);
      history := Apply(history, LoadRest);
    }

    /** rest was cut from the pool as it was at the load. */
    method StoreRestOfPool(rest: Bytes)
      requires Valid() && history.section.Cut? && rest == Left(history.epochs[history.section.epoch])[TKSZ..]
      modifies this
      ensures Valid() && history == Apply(old(history), StoreRest)
    {
      SoundKept(history, StoreRest);
      token := rest;
      history := Apply(history, StoreRest);
    }

    method LoadForSave(data: Bytes) returns (joined: Bytes)
      requires Valid() && history.section.Free? && data != []
      modifies this`history
      ensures Valid() && history == Apply(old(history), LoadPool(data))
      ensures joined == token + Payload(data)
    {
      var tokens := if data[0] == FRAME_ACTION_TOKEN_REPLY then data[1..] else [];
      joined := token + tokens;
      SoundKept(history, LoadPool(data));
      history := Apply(history, LoadPool(data));
    }

    method StoreSaved(joined: Bytes)
      requires Valid() && history.section.Loaded?
      requires joined == Left(history.epochs[history.section.epoch]) + history.section.tokens
      modifies this
      ensures Valid() && history == Apply(old(history), StorePool)
    {
      ghost var e := history.epochs[history.section.epoch];
      SoundKept(history, StorePool);
      token := joined;
      assert joined == (e.received + history.section.tokens)[e.gone..];
      history := Apply(history, StorePool);
    }

    /** saveTokens when no login interferes: what a reply carries is appended. */
    method SaveTokens(data: Bytes)
      requires Valid() && history.section.Free? && data != []
      modifies this
      ensures Valid() && history.section.Free? && token == old(token) + Payload(data)
    {
      var joined := LoadForSave(data);
      StoreSaved(joined);
    }

    method ClearTokens()
      requires Valid() && history.section.Free?
      modifies this
      ensures Valid() && history == Apply(old(history), Drop)
    {
      SoundKept(history, Drop);
      token := [];
      history := Apply(history, Drop);
    }

    /** getToken when no login interferes: the first token leaves, the rest stays. */
    method GetToken() returns (ok: bool, t: Bytes)
      requires Valid() && history.section.Free?
      modifies this
      ensures Valid() && history.section.Free? && ok == (|old(token)| >= TKSZ)
      ensures if ok then t + token == old(token) && |t| == TKSZ else token == old(token)
    {
      t := [];
      ok := CheckPool();
      if ok {
        t := TakeToken();
        var rest := LoadRestOfPool();
        StoreRestOfPool(rest);
      }
    }
  }

  ghost predicate IsToken(st: State, at: Pos, t: Bytes) {
    && at.epoch < |st.epochs| && at.offset + TKSZ <= |st.epochs[at.epoch].received|
    && t == st.epochs[at.epoch].received[at.offset..at.offset + TKSZ]
  }

  // ---- every run ----

  ghost predicate IsRun(states: seq<State>, ops: seq<Op>) {
    && |states| == |ops| + 1 && states[0] == Start
    && forall i {:trigger ops[i]} :: 0 <= i < |ops| ==> Enabled(states[i], ops[i]) && states[i + 1] == Apply(states[i], ops[i])
  }

  predicate Earlier(a: Pos, b: Pos) {
    a.epoch < b.epoch || (a.epoch == b.epoch && a.offset + TKSZ <= b.offset)
  }

  /** A load whose store is still to come. */
  predicate Pending(s: Section) { s.Cut? || s.Loaded? }

  /** The login the next token will come from, unless there is another one. */
  function Floor(st: State): nat { if Pending(st.section) then st.section.epoch else st.cur }

  /** Handed out is increasing, and all of it lies before what can be handed out next. */
  ghost predicate Ordered(st: State) {
    && Sound(st) && Floor(st) < |st.epochs|
    && (forall i, j :: 0 <= i < j < |st.handed| ==> Earlier(st.handed[i], st.handed[j]))
    && (forall i :: 0 <= i < |st.handed| ==> st.handed[i].epoch <= Floor(st) && BeforeNext(st, i))
  }

  /** Token i lies before the pool, or it is the one the lock holder is just taking out. */
  ghost predicate BeforeNext(st: State, i: nat)
    requires i < |st.handed| && Floor(st) < |st.epochs|
  {
    var p, e := st.handed[i], Floor(st);
    p.epoch == e ==>
      || p.offset + TKSZ <= st.epochs[e].gone
      || (i == |st.handed| - 1 && p.offset == st.epochs[e].gone && (st.section.Taken? || st.section.Cut?))
  }

  lemma LoginOrdered(st: State, tokens: Bytes)
    requires Ordered(st) && Enabled(st, Op.Login(tokens))
    ensures Ordered(Apply(st, Op.Login(tokens)))
  {
    SoundKept(st, Op.Login(tokens));
  }

  lemma GetOrdered(st: State, op: Op)
    requires Ordered(st) && Enabled(st, op) && (op.Check? || op.Take? || op.LoadRest?)
    ensures Ordered(Apply(st, op))
  {
    SoundKept(st, op);
  }

  lemma StoreOrdered(st: State, op: Op)
    requires Ordered(st) && Enabled(st, op) && (op.StoreRest? || op.LoadPool? || op.StorePool? || op.Drop?)
    ensures Ordered(Apply(st, op))
  {
    SoundKept(st, op);
  }

  lemma {:induction false} RunOrdered(states: seq<State>, ops: seq<Op>, i: nat)
    requires IsRun(states, ops) && i < |states|
    ensures Ordered(states[i])
  {
    hide Ordered, Enabled, Apply;
    if i == 0 {
      StartOrdered();
    } else {
      RunOrdered(states, ops, i - 1);
      var op := ops[i - 1];
      assert Enabled(states[i - 1], op);
      if op.Login? { LoginOrdered(states[i - 1], op.tokens); }
      else if op.Check? || op.Take? || op.LoadRest? { GetOrdered(states[i - 1], op); }
      else { StoreOrdered(states[i - 1], op); }
    }
  }

  lemma StartOrdered()
    ensures Ordered(Start)
  {}

  /** First in, first out, none twice, wherever the stores of logins fall: of two tokens handed
      out, the later one was received under a later login, or behind the other. */
  lemma FirstInFirstOut(states: seq<State>, ops: seq<Op>, n: nat, i: nat, j: nat)
    requires IsRun(states, ops) && n < |states| && i < j < |states[n].handed|
    ensures Earlier(states[n].handed[i], states[n].handed[j])
  {
    RunOrdered(states, ops, n);
  }

  /** The floor never falls. */
  lemma {:induction false} FloorGrows(states: seq<State>, ops: seq<Op>, i: nat, j: nat)
    requires IsRun(states, ops) && i <= j < |states|
    ensures Floor(states[i]) <= Floor(states[j]) && |states[i].epochs| <= |states[j].epochs|
    decreases j
  {
    if i < j {
      FloorGrows(states, ops, i, j - 1);
      assert Enabled(states[j - 1], ops[j - 1]);
      RunOrdered(states, ops, j - 1);
      hide Ordered;
      FloorStep(states[j - 1], ops[j - 1]);
    }
  }

  lemma FloorStep(st: State, op: Op)
    requires Enabled(st, op) && Floor(st) < |st.epochs|
    ensures Floor(st) <= Floor(Apply(st, op)) && |st.epochs| <= |Apply(st, op).epochs|
    ensures op.Login? ==> Floor(Apply(st, op)) == if Pending(st.section) then Floor(st) else |st.epochs|
  {}

  /** A login that finds no store pending takes effect: every token taken afterwards is one of
      its own or of a later login. */
  lemma LoginTakesEffect(states: seq<State>, ops: seq<Op>, i: nat, j: nat)
    requires IsRun(states, ops) && i < j < |ops| && ops[i].Login? && !Pending(states[i].section) && ops[j].Take?
    ensures states[j + 1].section.at.epoch >= |states[i].epochs|
  {
    assert Enabled(states[i], ops[i]) && Enabled(states[j], ops[j]);
    RunOrdered(states, ops, i);
    hide Ordered;
    FloorStep(states[i], ops[i]);
    FloorGrows(states, ops, i + 1, j);
  }

  /** One that does is overwritten by it: none of its tokens is ever handed out, and unless yet
      another login comes first, the next token is one from before. */
  lemma LoginIsLost(states: seq<State>, ops: seq<Op>, i: nat, j: nat)
    requires IsRun(states, ops) && i < j < |ops| && ops[i].Login? && Pending(states[i].section) && ops[j].Take?
    ensures states[j + 1].section.at.epoch != |states[i].epochs|
    ensures (forall k :: i < k < j ==> !ops[k].Login?) ==> states[j + 1].section.at.epoch < |states[i].epochs|
  {
    assert Enabled(states[i], ops[i]) && Enabled(states[j], ops[j]);
    RunOrdered(states, ops, i);
    LostStays(states, ops, i, j);
  }

  /** After an overwritten login L: while the store is pending, the floor is before L; then the
      pool is not L's, and never will be. */
  lemma {:induction false} LostStays(states: seq<State>, ops: seq<Op>, i: nat, j: nat)
    requires IsRun(states, ops) && i < j < |states| && ops[i].Login? && Pending(states[i].section)
    ensures var l := |states[i].epochs|;
            && l < |states[j].epochs| && Floor(states[j]) != l
            && ((forall k :: i < k < j ==> !ops[k].Login?) ==> Floor(states[j]) < l && |states[j].epochs| == l + 1)
    decreases j
  {
    assert Enabled(states[j - 1], ops[j - 1]) && states[j] == Apply(states[j - 1], ops[j - 1]);
    RunOrdered(states, ops, j - 1);
    if j - 1 > i {
      LostStays(states, ops, i, j - 1);
      hide Ordered, IsRun;
    }
  }

  /** The login clause holds exactly when no store is pending: whichever token is taken next,
      it is of this login or of one before it. */
  lemma LoginIff(states: seq<State>, ops: seq<Op>, i: nat, j: nat)
    requires IsRun(states, ops) && i < j < |ops| && ops[i].Login? && ops[j].Take? && (forall k :: i < k < j ==> !ops[k].Login?)
    ensures states[j + 1].section.at.epoch == |states[i].epochs| <==> !Pending(states[i].section)
  {
    assert Enabled(states[j], ops[j]);
    if Pending(states[i].section) {
      LoginIsLost(states, ops, i, j);
    } else {
      LoginTakesEffect(states, ops, i, j);
      OneLogin(states, ops, i, j);
    }
  }

  lemma {:induction false} OneLogin(states: seq<State>, ops: seq<Op>, i: nat, j: nat)
    requires IsRun(states, ops) && i < j < |states| && ops[i].Login? && (forall k :: i < k < j ==> !ops[k].Login?)
    ensures |states[j].epochs| == |states[i].epochs| + 1 && states[j].cur < |states[j].epochs|
    decreases j
  {
    assert Enabled(states[j - 1], ops[j - 1]) && states[j] == Apply(states[j - 1], ops[j - 1]);
    SoundKept(states[j - 1], ops[j - 1]);
    if j - 1 > i { OneLogin(states, ops, i, j - 1); }
  }

  ghost predicate Step(st: State, op: Op, st': State) {
    Enabled(st, op) && Apply(st, op) == st'
  }

  /** The first getToken, up to its last load. */
  function Before(a: Bytes): seq<State> {
    var es := [Epoch([], 0), Epoch(a, 0)];
    [Start, State(es, 1, Free, []), State(es, 1, Checked, []),
     State(es, 1, Taken(Pos(1, 0)), [Pos(1, 0)]), State(es, 1, Cut(Pos(1, 0), 1), [Pos(1, 0)])]
  }

  /** The login of b, the store of the first getToken, and the second one's first token. */
  function After(a: Bytes, b: Bytes): seq<State> {
    var es := [Epoch([], 0), Epoch(a, TKSZ), Epoch(b, 0)];
    [State([Epoch([], 0), Epoch(a, 0), Epoch(b, 0)], 2, Cut(Pos(1, 0), 1), [Pos(1, 0)]),
     State(es, 1, Free, [Pos(1, 0)]), State(es, 1, Checked, [Pos(1, 0)]),
     State(es, 1, Taken(Pos(1, TKSZ)), [Pos(1, 0), Pos(1, TKSZ)])]
  }

  lemma StepsBefore(a: Bytes)
    requires |a| == 2 * TKSZ
    ensures var s := Before(a); Step(s[0], Op.Login(a), s[1]) && Step(s[1], Check, s[2]) && Step(s[2], Take, s[3]) && Step(s[3], LoadRest, s[4])
  {}

  lemma StepsAfter(a: Bytes, b: Bytes)
    requires |a| == 2 * TKSZ && |b| == 2 * TKSZ
    ensures var s, t := Before(a), After(a, b);
            Step(s[4], Op.Login(b), t[0]) && Step(t[0], StoreRest, t[1]) && Step(t[1], Check, t[2]) && Step(t[2], Take, t[3])
  {
    var s, t := Before(a), After(a, b);
    assert s[4].epochs + [Epoch(b, 0)] == t[0].epochs;
    assert t[0].epochs[1 := Epoch(a, TKSZ)] == t[1].epochs;
    assert t[2].handed + [Pos(1, TKSZ)] == t[3].handed;
  }

  /** It happens: a login of b between the load and the store of the first getToken, and the
      second getToken hands out the second token of a. */
  lemma LoginOverwritten(a: Bytes, b: Bytes)
    requires |a| == 2 * TKSZ && |b| == 2 * TKSZ
    ensures var states, ops := Before(a) + After(a, b), [Op.Login(a), Check, Take, LoadRest, Op.Login(b), StoreRest, Check, Take];
            && IsRun(states, ops) && Pending(states[4].section)
            && states[8].handed == [Pos(1, 0), Pos(1, TKSZ)] && IsToken(states[8], Pos(1, TKSZ), a[TKSZ..])
  {
    StepsBefore(a);
    StepsAfter(a, b);
    hide Enabled, Apply;
    assert a[TKSZ..TKSZ + TKSZ] == a[TKSZ..];
  }

  // ---- whole tokens ----

  /** Every delivery holds whole tokens, as the server sends them. */
  predicate Whole(op: Op) {
    match op
    case Login(tokens) => |tokens| % TKSZ == 0
    case LoadPool(data) => data != [] && |Payload(data)| % TKSZ == 0
    case _ => true
  }

  ghost predicate Aligned(st: State) {
    && Sound(st)
    && (forall i :: 0 <= i < |st.epochs| ==> st.epochs[i].gone % TKSZ == 0 && |st.epochs[i].received| % TKSZ == 0)
    && (st.section.Loaded? ==> |st.section.tokens| % TKSZ == 0)
    && (forall i :: 0 <= i < |st.handed| ==> InEpoch(st, st.handed[i]))
  }

  ghost predicate InEpoch(st: State, p: Pos) {
    p.offset % TKSZ == 0 && p.epoch < |st.epochs| && p.offset + TKSZ <= |st.epochs[p.epoch].received|
  }

  lemma SumAligned(m: nat, n: nat)
    requires m % TKSZ == 0 && n % TKSZ == 0
    ensures (m + n) % TKSZ == 0
  {}

  lemma StoreAligned(st: State, op: Op)
    requires Aligned(st) && Enabled(st, op) && (op.StoreRest? || op.StorePool? || op.Drop?)
    ensures Aligned(Apply(st, op))
  {
    SoundKept(st, op);
    var st' := Apply(st, op);
    var e := if op.Drop? then st.cur else st.section.epoch;
    var old_, new_ := st.epochs[e], st'.epochs[e];
    if op.StorePool? {
      SumAligned(|old_.received|, |st.section.tokens|);
      assert |new_.received| == |old_.received| + |st.section.tokens|;
    }
    if op.StoreRest? { SumAligned(old_.gone, TKSZ); }
    assert new_.gone % TKSZ == 0 && |new_.received| % TKSZ == 0 && |new_.received| >= |old_.received|;
    assert st'.epochs == st.epochs[e := new_] && st'.handed == st.handed;
    hide Apply, Enabled;
  }

  lemma OtherAligned(st: State, op: Op)
    requires Aligned(st) && Enabled(st, op) && Whole(op) && (op.Check? || op.Take? || op.LoadRest? || op.LoadPool?)
    ensures Aligned(Apply(st, op))
  {
    SoundKept(st, op);
  }

  lemma LoginAligned(st: State, tokens: Bytes)
    requires Aligned(st) && Enabled(st, Op.Login(tokens)) && |tokens| % TKSZ == 0
    ensures Aligned(Apply(st, Op.Login(tokens)))
  {
    SoundKept(st, Op.Login(tokens));
  }

  lemma AlignedKept(st: State, op: Op)
    requires Aligned(st) && Enabled(st, op) && Whole(op)
    ensures Aligned(Apply(st, op))
  {
    hide Aligned, Enabled, Apply;
    if op.Login? { LoginAligned(st, op.tokens); }
    else if op.StoreRest? || op.StorePool? || op.Drop? { StoreAligned(st, op); }
    else { OtherAligned(st, op); }
  }

  /** Then every token handed out is one of the tokens received: token number offset / 20 of
      its login. */
  lemma {:induction false} HandsOutTokens(states: seq<State>, ops: seq<Op>, n: nat)
    requires IsRun(states, ops) && n < |states| && forall i :: 0 <= i < |ops| ==> Whole(ops[i])
    ensures Aligned(states[n])
  {
    hide Enabled, Apply, Aligned, Whole;
    if n == 0 {
      StartAligned();
    } else {
      HandsOutTokens(states, ops, n - 1);
      assert Enabled(states[n - 1], ops[n - 1]);
      AlignedKept(states[n - 1], ops[n - 1]);
    }
  }

  lemma StartAligned()
    ensures Aligned(Start)
  {}
}
