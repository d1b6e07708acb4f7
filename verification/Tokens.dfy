/** The server's resume tokens: SessionMgr.take, clearTokens and createTokens, each one step
    under the manager's lock, and what holds over every run of them. */
module Tokens {
  const TKSZ: nat := 20

  type Token = seq<bv8>
  datatype Option<T> = None | Some(value: T)

  /** A session is named by a number; one that is absent from tokens has a nil token map.
      born holds every session that was ever made. */
  datatype State = State(container: map<Token, nat>, tokens: map<nat, set<Token>>, born: set<nat>)

  const Start: State := State(map[], map[], {})

  /** One call; draws are the hashes that createTokens comes up with, in order. */
  datatype Op = New(s: nat) | Take(t: Token) | Clear(s: nat) | Create(s: nat, many: nat, draws: seq<Token>)

  /** The first `many` draws that are not in use, each in use from then on; None while the
      retry loop has not found them. */
  function Accepted(used: set<Token>, draws: seq<Token>, many: nat): Option<seq<Token>>
    decreases |draws|
  {
    if many == 0 then Some([])
    else if draws == [] then None
    else if draws[0] in used then Accepted(used, draws[1..], many)
    else
      var rest := Accepted(used + {draws[0]}, draws[1..], many - 1);
      if rest.None? then None else Some([draws[0]] + rest.value)
  }

  /** The tokens accepted are as many as asked for, all distinct and none of them in use. */
  lemma {:induction false} AcceptedFresh(used: set<Token>, draws: seq<Token>, many: nat)
    requires Accepted(used, draws, many).Some?
    ensures var acc := Accepted(used, draws, many).value;
            |acc| == many
            && (forall i :: 0 <= i < many ==> acc[i] !in used && acc[i] in draws)
            && (forall i, j :: 0 <= i < j < many ==> acc[i] != acc[j])
    decreases |draws|
  {
    if many > 0 {
      if draws[0] in used {
        AcceptedFresh(used, draws[1..], many);
      } else {
        AcceptedFresh(used + {draws[0]}, draws[1..], many - 1);
      }
    }
  }

  predicate Enabled(st: State, op: Op) {
    match op
    case New(s) => s !in st.born
    case Create(s, many, draws) => s in st.tokens ==> Accepted(st.container.Keys, draws, many).Some?
    case _ => true
  }

  function Granted(st: State, op: Op): seq<Token>
    requires Enabled(st, op)
  {
    if op.Create? && op.s in st.tokens then Accepted(st.container.Keys, op.draws, op.many).value else []
  }

  function Issued(container: map<Token, nat>, acc: seq<Token>, s: nat): map<Token, nat> {
    container + map t | t in acc :: s
  }

  function Elements(acc: seq<Token>): set<Token> { set t | t in acc }

  function Apply(st: State, op: Op): State
    requires Enabled(st, op)
  {
    match op
    case New(s) => st.(tokens := st.tokens[s := {}], born := st.born + {s})
    case Take(t) =>
      if t !in st.container then st
      else
        var s := st.container[t];
        st.(container := st.container - {t},
            tokens := if s in st.tokens then st.tokens[s := st.tokens[s] - {t}] else st.tokens)
    case Clear(s) =>
      if s !in st.tokens then st
      else st.(container := st.container - st.tokens[s], tokens := st.tokens - {s})
    case Create(s, many, draws) =>
      if s !in st.tokens then st
      else
        var acc := Granted(st, op);
        st.(container := Issued(st.container, acc, s), tokens := st.tokens[s := st.tokens[s] + Elements(acc)])
  }

  // ---- the manager itself ----

  function Bytes(acc: seq<Token>): seq<bv8> {
    if acc == [] then [] else Bytes(acc[..|acc| - 1]) + acc[|acc| - 1]
  }

  class SessionMgr {
    var container: map<Token, nat>
    var tokens: map<nat, set<Token>>
    ghost var born: set<nat>

    ghost function Abs(): State
      reads this
    {
      State(container, tokens, born)
    }

    constructor ()
      ensures Abs() == Start
    {
      container, tokens, born := map[], map[], {};
    }

    method NewSession(s: nat)
      requires s !in born
      modifies this
      ensures Abs() == Apply(old(Abs()), New(s))
    {
      tokens := tokens[s := {}];
      born := born + {s};
    }

    method Take(t: Token) returns (r: Option<nat>)
      modifies this
      ensures Abs() == Apply(old(Abs()), Op.Take(t))
      ensures r == if t in old(container) then Some(old(container)[t]) else None
    {
      r := if t in container then Some(container[t]) else None;
      container := container - {t};
      if r.Some? && r.value in tokens {
        tokens := tokens[r.value := tokens[r.value] - {t}];
      }
    }

    method ClearTokens(s: nat) returns (i: nat)
      modifies this
      ensures Abs() == Apply(old(Abs()), Clear(s))
      ensures i == if s in old(tokens) then |old(tokens)[s]| else 0
    {
      i := 0;
      if s in tokens {
        i := |tokens[s]|;
        var todo := tokens[s];
        ghost var was := container;
        while todo != {}
          invariant tokens == old(tokens) && born == old(born) && todo <= tokens[s]
          invariant container == was - (tokens[s] - todo)
          decreases todo
        {
          var k :| k in todo;
          container := container - {k};
          todo := todo - {k};
          assert container == was - (tokens[s] - todo);
        }
        assert tokens[s] - {} == tokens[s];
        tokens := tokens - {s};
      }
    }

    /** Nothing for a session whose tokens were cleared; else one header byte and the tokens. */
    method CreateTokens(s: nat, many: nat, draws: seq<Token>) returns (r: Option<seq<bv8>>)
      requires Enabled(Abs(), Create(s, many, draws))
      modifies this
      ensures Abs() == Apply(old(Abs()), Create(s, many, draws))
      ensures r == if s in old(tokens) then Some([0] + Bytes(old(Granted(Abs(), Create(s, many, draws))))) else None
    {
      if s !in tokens {
        return None;
      }
      var out;
      ghost var op := Create(s, many, draws);
      assert Granted(Abs(), op) == Accepted(container.Keys, draws, many).value;
      hide Accepted, Issued, Elements, Bytes;
      var mine;
      container, mine, out := DrawTokens(container, tokens[s], s, many, draws);
      tokens := tokens[s := mine];
      r := Some(out);
    }
  }

  /** The loop of createTokens, over the container and the session's own set. */
  method DrawTokens(container: map<Token, nat>, mine: set<Token>, s: nat, many: nat, draws: seq<Token>)
    returns (container': map<Token, nat>, mine': set<Token>, out: seq<bv8>)
    requires Accepted(container.Keys, draws, many).Some?
    ensures var acc := Accepted(container.Keys, draws, many).value;
            container' == Issued(container, acc, s) && mine' == mine + Elements(acc) && out == [0] + Bytes(acc)
  {
    container', mine', out := container, mine, [0];
    var i, j := 0, 0;
    ghost var acc: seq<Token> := [];
    ghost var all := Accepted(container.Keys, draws, many).value;
    assert draws[0..] == draws;
    NoneYet(container, s, mine);
    assert Grown(container, mine, s, acc, container', mine', out);
    assert Pending(container'.Keys, draws[j..], many - i, acc, all);
    hide Accepted, Issued, Elements, Bytes, Grown, Pending;
    while i < many
      invariant i == |acc| <= many && j <= |draws|
      invariant Pending(container'.Keys, draws[j..], many - i, acc, all)
      invariant Grown(container, mine, s, acc, container', mine', out)
      decreases |draws| - j
    {
      PendingStep(container'.Keys, draws, j, many - i, acc, all);
      var token := draws[j];
      j := j + 1;
      if token !in container' {
        GrownStep(container, mine, s, acc, container', mine', out, token);
        container' := container'[token := s];
        mine' := mine' + {token};
        out := out + token;
        acc := acc + [token];
        i := i + 1;
      }
    }
    PendingDone(container'.Keys, draws[j..], acc, all);
    GrownMeans(container, mine, s, acc, container', mine', out);
  }

  ghost predicate Grown(container: map<Token, nat>, mine: set<Token>, s: nat, acc: seq<Token>,
                        container': map<Token, nat>, mine': set<Token>, out: seq<bv8>) {
    container' == Issued(container, acc, s) && mine' == mine + Elements(acc) && out == [0] + Bytes(acc)
  }

  lemma GrownMeans(container: map<Token, nat>, mine: set<Token>, s: nat, acc: seq<Token>,
                   container': map<Token, nat>, mine': set<Token>, out: seq<bv8>)
    requires Grown(container, mine, s, acc, container', mine', out)
    ensures container' == Issued(container, acc, s) && mine' == mine + Elements(acc) && out == [0] + Bytes(acc)
  {}

  lemma GrownStep(container: map<Token, nat>, mine: set<Token>, s: nat, acc: seq<Token>,
                  container': map<Token, nat>, mine': set<Token>, out: seq<bv8>, t: Token)
    requires Grown(container, mine, s, acc, container', mine', out)
    ensures Grown(container, mine, s, acc + [t], container'[t := s], mine' + {t}, out + t)
    ensures container'[t := s].Keys == container'.Keys + {t}
  {
    hide Issued, Elements, Bytes;
    OneMore(container, acc, t, s);
  }

  /** With acc accepted, the draws left over complete it to all. */
  ghost predicate Pending(used: set<Token>, draws: seq<Token>, many: nat, acc: seq<Token>, all: seq<Token>) {
    Accepted(used, draws, many).Some? && all == acc + Accepted(used, draws, many).value
  }

  lemma PendingStep(used: set<Token>, draws: seq<Token>, j: nat, many: nat, acc: seq<Token>, all: seq<Token>)
    requires j <= |draws| && many > 0 && Pending(used, draws[j..], many, acc, all)
    ensures j < |draws|
    ensures draws[j] in used ==> Pending(used, draws[j + 1..], many, acc, all)
    ensures draws[j] !in used ==> Pending(used + {draws[j]}, draws[j + 1..], many - 1, acc + [draws[j]], all)
  {
    assert draws[j..][1..] == draws[j + 1..];
  }

  lemma PendingDone(used: set<Token>, draws: seq<Token>, acc: seq<Token>, all: seq<Token>)
    requires Pending(used, draws, 0, acc, all)
    ensures acc == all
  {}

  lemma NoneYet(c: map<Token, nat>, s: nat, ts: set<Token>)
    ensures Issued(c, [], s) == c && ts + Elements([]) == ts && Bytes([]) == []
  {}

  lemma OneMore(c: map<Token, nat>, acc: seq<Token>, t: Token, s: nat)
    ensures Issued(c, acc + [t], s) == Issued(c, acc, s)[t := s]
    ensures Issued(c, acc + [t], s).Keys == Issued(c, acc, s).Keys + {t}
    ensures Elements(acc + [t]) == Elements(acc) + {t}
    ensures Bytes(acc + [t]) == Bytes(acc) + t
  {
    assert (acc + [t])[..|acc|] == acc;
    forall x ensures x in acc + [t] <==> x in acc || x == t {
      if x == t { assert (acc + [t])[|acc|] == t; }
      if x in acc { var k :| 0 <= k < |acc| && acc[k] == x; assert (acc + [t])[k] == x; }
    }
  }

  // ---- every run ----

  ghost predicate IsRun(states: seq<State>, ops: seq<Op>) {
    && |states| == |ops| + 1 && states[0] == Start
    && forall i {:trigger ops[i]} :: 0 <= i < |ops| ==> Enabled(states[i], ops[i]) && states[i + 1] == Apply(states[i], ops[i])
  }

  /** take(t) would return s. */
  predicate Live(st: State, t: Token, s: nat) { t in st.container && st.container[t] == s }

  /** The container and the sessions' token sets are inverse to each other. */
  ghost predicate Inverse(st: State) {
    && (forall t, s :: Live(st, t, s) <==> s in st.tokens && t in st.tokens[s])
    && (forall s :: s in st.tokens ==> s in st.born)
  }

  predicate Issues(st: State, op: Op, t: Token, s: nat) {
    Enabled(st, op) && op.Create? && op.s == s && t in Granted(st, op)
  }

  predicate Ends(op: Op, t: Token, s: nat) { op == Take(t) || op == Clear(s) }

  /** One step: a token is live for a session just when it was issued now, or was live and
      neither it was taken nor its session cleared. */
  lemma StepLive(st: State, op: Op, t: Token, s: nat)
    requires Inverse(st) && Enabled(st, op)
    ensures Live(Apply(st, op), t, s) <==> Issues(st, op, t, s) || (Live(st, t, s) && !Ends(op, t, s))
  {
    hide Accepted;
    if op.Create? && op.s in st.tokens {
      AcceptedFresh(st.container.Keys, op.draws, op.many);
      assert forall x :: x in Granted(st, op) ==> x !in st.container;
    } else if op.Clear? && op.s in st.tokens {
      assert t in st.tokens[op.s] <==> Live(st, t, op.s);
    }
  }

  /** The token set of a session moves with the container. */
  lemma StepMember(st: State, op: Op, t: Token, s: nat)
    requires Inverse(st) && Enabled(st, op)
    ensures var st' := Apply(st, op);
            s in st'.tokens && t in st'.tokens[s] <==> Issues(st, op, t, s) || (Live(st, t, s) && !Ends(op, t, s))
  {
    hide Accepted;
    assert Live(st, t, s) <==> s in st.tokens && t in st.tokens[s];
    if op.Take? && op.t in st.container { assert Live(st, op.t, st.container[op.t]); }
  }

  lemma InverseKept(st: State, op: Op)
    requires Inverse(st) && Enabled(st, op)
    ensures Inverse(Apply(st, op))
  {
    var st' := Apply(st, op);
    forall t, s ensures Live(st', t, s) <==> s in st'.tokens && t in st'.tokens[s] {
      StepLive(st, op, t, s);
      StepMember(st, op, t, s);
    }
    hide Accepted, Live;
    forall s | s in st'.tokens ensures s in st'.born {}
  }

  lemma {:induction false} RunInverse(states: seq<State>, ops: seq<Op>, i: nat)
    requires IsRun(states, ops) && i < |states|
    ensures Inverse(states[i])
  {
    hide Enabled, Apply;
    if i > 0 {
      RunInverse(states, ops, i - 1);
      assert Enabled(states[i - 1], ops[i - 1]);
      InverseKept(states[i - 1], ops[i - 1]);
    }
  }

  /** Some step k < i issued t to s, and no step from then on took t or cleared s. */
  ghost predicate Outstanding(states: seq<State>, ops: seq<Op>, i: nat, t: Token, s: nat)
    requires IsRun(states, ops) && i < |states|
  {
    exists k :: 0 <= k < i && Issues(states[k], ops[k], t, s) && (forall m :: k < m < i ==> !Ends(ops[m], t, s))
  }

  lemma OutstandingStep(states: seq<State>, ops: seq<Op>, i: nat, t: Token, s: nat)
    requires IsRun(states, ops) && i < |ops|
    ensures Outstanding(states, ops, i + 1, t, s) <==>
            Issues(states[i], ops[i], t, s) || (Outstanding(states, ops, i, t, s) && !Ends(ops[i], t, s))
  {
    hide Issues, Ends, Enabled, Apply;
    if Outstanding(states, ops, i, t, s) && !Ends(ops[i], t, s) {
      var k :| 0 <= k < i && Issues(states[k], ops[k], t, s) && (forall m :: k < m < i ==> !Ends(ops[m], t, s));
      assert forall m :: k < m < i + 1 ==> !Ends(ops[m], t, s);
    }
    if Outstanding(states, ops, i + 1, t, s) && !Issues(states[i], ops[i], t, s) {
      var k :| 0 <= k < i + 1 && Issues(states[k], ops[k], t, s) && (forall m :: k < m < i + 1 ==> !Ends(ops[m], t, s));
      assert !Ends(ops[i], t, s);
    }
  }

  /** In every run: take(t) would return s exactly when t was issued to s and since then was
      not taken and s was not cleared. */
  lemma {:induction false} LiveIff(states: seq<State>, ops: seq<Op>, i: nat, t: Token, s: nat)
    requires IsRun(states, ops) && i < |states|
    ensures Live(states[i], t, s) <==> Outstanding(states, ops, i, t, s)
  {
    hide Enabled, Apply, Issues, Ends, Inverse;
    if i > 0 {
      LiveIff(states, ops, i - 1, t, s);
      RunInverse(states, ops, i - 1);
      assert Enabled(states[i - 1], ops[i - 1]);
      hide Live, Outstanding;
      StepLive(states[i - 1], ops[i - 1], t, s);
      OutstandingStep(states, ops, i - 1, t, s);
    }
  }

  /** Two calls take(t) that both return a session have an issue of t between them. */
  lemma YieldOnce(states: seq<State>, ops: seq<Op>, i: nat, j: nat, t: Token, s: nat)
    requires IsRun(states, ops) && i < j < |ops| && ops[i] == Take(t) && ops[j] == Take(t) && Live(states[j], t, s)
    ensures exists k :: i < k < j && Issues(states[k], ops[k], t, s)
  {
    hide Issues, Live, Enabled, Apply;
    LiveIff(states, ops, j, t, s);
    var k :| 0 <= k < j && Issues(states[k], ops[k], t, s) && (forall m :: k < m < j ==> !Ends(ops[m], t, s));
    assert k != i by { IssueIsCreate(states[k], ops[k], t, s); }
    assert Ends(ops[i], t, s);
  }

  lemma IssueIsCreate(st: State, op: Op, t: Token, s: nat)
    requires Issues(st, op, t, s)
    ensures op.Create?
  {}

  /** A cleared session stays without tokens: none is live for it, none is created for it. */
  lemma {:induction false} AfterClear(states: seq<State>, ops: seq<Op>, i: nat, j: nat, s: nat)
    requires IsRun(states, ops) && i < j < |states| && ops[i] == Clear(s) && s in states[i].born
    ensures s in states[j].born && s !in states[j].tokens
    ensures forall t :: !Live(states[j], t, s)
    ensures j < |ops| && ops[j].Create? && ops[j].s == s ==> states[j + 1] == states[j] && Granted(states[j], ops[j]) == []
    decreases j
  {
    hide Accepted;
    assert Enabled(states[j - 1], ops[j - 1]);
    if i < j - 1 { AfterClear(states, ops, i, j - 1, s); }
    RunInverse(states, ops, j);
  }
}
