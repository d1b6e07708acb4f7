/** sessionKey and cleanOfTun: which edges the end of a tunnel closes.  A session's key is the
    identifier of its tunnel, a dot and the sid; a dying tunnel clears every key that starts
    with its identifier. */
module SessionKeys {
  import Cidr

  /** What sessionKey reads of a tunnel. */
  datatype Tun = Tun(identifier: string, local: string, remote: string)

  function SessionKey(t: Tun, sid: nat): string {
    if t.identifier != "" then t.identifier + "." + Cidr.Decimal(sid)
    else t.local + "_" + t.remote + "_" + Cidr.Decimal(sid)
  }

  /** Everything in the key before the separator and the sid. */
  function Stem(t: Tun): string {
    if t.identifier != "" then t.identifier else t.local + "_" + t.remote
  }

  function Separator(t: Tun): char { if t.identifier != "" then '.' else '_' }

  predicate AllDigits(s: string) { forall i :: 0 <= i < |s| ==> '0' <= s[i] <= '9' }

  lemma {:induction false} DecimalDigits(n: nat)
    ensures Cidr.Decimal(n) != "" && AllDigits(Cidr.Decimal(n))
  {
    if n >= 10 { DecimalDigits(n / 10); }
  }

  lemma DecimalInjective(m: nat, n: nat)
    requires m < 0x1_0000 && n < 0x1_0000 && Cidr.Decimal(m) == Cidr.Decimal(n)
    ensures m == n
  {
    Cidr.RunDecimal(0, m);
    Cidr.RunDecimal(0, n);
  }

  /** The last character that is not a digit cuts a text in one way only. */
  lemma LastCut(s: string, c: char, d: string, s': string, c': char, d': string)
    requires s + [c] + d == s' + [c'] + d' && AllDigits(d) && AllDigits(d') && !('0' <= c <= '9') && !('0' <= c' <= '9')
    ensures s == s' && c == c' && d == d'
  {
    var whole := s + [c] + d;
    assert whole[|s|] == c && whole[|s'|] == c';
    assert forall i :: |s| < i < |whole| ==> '0' <= whole[i] <= '9';
    assert forall i :: |s'| < i < |whole| ==> '0' <= whole[i] <= '9';
    assert |s| == |s'|;
    assert whole[..|s|] == s && whole[..|s|] == s';
    assert whole[|s| + 1..] == d && whole[|s| + 1..] == d';
  }

  /** sessionKey is injective on (identifier, sid), and a named tunnel never shares a key with
      an unnamed one. */
  lemma KeyInjective(t: Tun, sid: nat, t': Tun, sid': nat)
    requires sid < 0x1_0000 && sid' < 0x1_0000
    ensures SessionKey(t, sid) == SessionKey(t', sid') <==>
            sid == sid' && Stem(t) == Stem(t') && (t.identifier == "" <==> t'.identifier == "")
  {
    var d, d' := Cidr.Decimal(sid), Cidr.Decimal(sid');
    assert SessionKey(t, sid) == Stem(t) + [Separator(t)] + d;
    assert SessionKey(t', sid') == Stem(t') + [Separator(t')] + d';
    if SessionKey(t, sid) == SessionKey(t', sid') {
      DecimalDigits(sid);
      DecimalDigits(sid');
      LastCut(Stem(t), Separator(t), d, Stem(t'), Separator(t'), d');
      DecimalInjective(sid, sid');
    }
  }

  // ---- the router ----

  datatype Action = Close | CloseW | Data(payload: seq<bv8>)

  /** edgeConn with its equeue: no queue, an exited one, or one with frames. */
  datatype Queue = Absent | Exited | Holding(frames: seq<Action>)

  class Edge {
    var queue: Queue
    var connClosed: bool

    constructor ()
      ensures queue == Holding([]) && !connClosed
    {
      queue := Holding([]);
      connClosed := false;
    }

    /** What cleanOfTun does to one edge. */
    method Shut()
      modifies this
      ensures queue == Pushed(old(queue), Close)
      ensures connClosed == (old(connClosed) || old(queue).Absent?)
    {
      if queue.Absent? {
        connClosed := true;
      } else {
        queue := Pushed(queue, Close);
      }
    }
  }

  /** _push: dropped once the queue has exited. */
  function Pushed(q: Queue, a: Action): Queue {
    if q.Holding? then Holding(q.frames + [a]) else q
  }

  predicate HasPrefix(s: string, prefix: string) { prefix <= s }

  class Router {
    var registry: map<string, Edge>

    /** Every key has an edge of its own. */
    ghost predicate Valid()
      reads this
    {
      forall k, l :: k in registry && l in registry && registry[k] == registry[l] ==> k == l
    }

    constructor ()
      ensures Valid() && registry == map[]
    {
      registry := map[];
    }

    /** register, when the key is new. */
    method Register(key: string) returns (e: Edge)
      requires Valid() && key !in registry
      modifies this
      ensures Valid() && fresh(e) && registry == old(registry)[key := e]
      ensures e.queue == Holding([]) && !e.connClosed
    {
      e := new Edge();
      assert forall k :: k in registry ==> allocated(registry[k]);
      registry := registry[key := e];
    }

    /** Every edge whose key starts with the identifier leaves the registry, with one CLOSE at
        the end of its queue or its socket closed; no other edge is touched. */
    method CleanOfTun(identifier: string)
      requires Valid()
      modifies this, registry.Values
      ensures Valid()
      ensures registry == map k | k in old(registry) && !HasPrefix(k, identifier) :: old(registry)[k]
      ensures forall k :: k in old(registry) && HasPrefix(k, identifier) ==> WasShut(old(registry)[k])
      ensures forall k :: k in old(registry) && !HasPrefix(k, identifier) ==> Untouched(old(registry)[k])
    {
      hide HasPrefix, Pushed;
      ghost var was := registry;
      var todo := registry.Keys;
      while todo != {}
        invariant todo <= was.Keys
        invariant forall k :: k in registry <==> k in was && (k in todo || !HasPrefix(k, identifier))
        invariant forall k :: k in registry ==> registry[k] == was[k]
        invariant forall k :: k in was && k !in registry ==> WasShut(was[k])
        invariant forall k :: k in registry ==> Untouched(was[k])
        decreases todo
      {
        var k :| k in todo;
        if HasPrefix(k, identifier) {
          var e := registry[k];
          assert forall l :: l in was && l != k ==> was[l] != e;
          e.Shut();
          assert WasShut(e);
          registry := registry - {k};
        }
        todo := todo - {k};
      }
    }
  }

  twostate predicate WasShut(e: Edge)
    reads e
  {
    e.queue == Pushed(old(e.queue), Close) && e.connClosed == (old(e.connClosed) || old(e.queue).Absent?)
  }

  twostate predicate Untouched(e: Edge)
    reads e
  {
    e.queue == old(e.queue) && e.connClosed == old(e.connClosed)
  }

  // ---- whose edges are those? ----

  function Named(id: string, sid: nat): string { SessionKey(Tun(id, "", ""), sid) }

  lemma NamedParts(id: string, sid: nat)
    requires id != ""
    ensures Named(id, sid) == id + ['.'] + Cidr.Decimal(sid)
  {}

  /** The end of tunnel a takes a session of tunnel b exactly when a is a prefix of b, or a is b, a dot and a
      beginning of that session's sid. */
  lemma ForeignCleaned(a: string, b: string, sid: nat)
    requires a != "" && b != ""
    ensures HasPrefix(Named(b, sid), a) <==> a <= b || (b + "." <= a && a[|b| + 1..] <= Cidr.Decimal(sid))
  {
    NamedParts(b, sid);
    var d := Cidr.Decimal(sid);
    var key := b + ['.'] + d;
    if |a| <= |b| {
      assert b == key[..|b|];
      assert HasPrefix(key, a) <==> a == b[..|a|];
    } else {
      PrefixOfConcat(b + ".", d, a);
    }
  }

  lemma PrefixOfConcat(x: string, y: string, a: string)
    requires |x| <= |a|
    ensures a <= x + y <==> x <= a && a[|x|..] <= y
  {
    if a <= x + y {
      assert a[..|x|] == (x + y)[..|x|] == x;
      assert a[|x|..] == (x + y)[|x|..|a|] == y[..|a| - |x|];
    }
    if x <= a && a[|x|..] <= y {
      assert a == x + a[|x|..];
      assert (x + y)[..|a|] == x + y[..|a| - |x|];
    }
  }

  /** SetId: on the server user@host:port, on the client localport:remoteport; either way the
      identifier ends in a colon and a port. */
  ghost predicate EndsInPort(id: string) {
    exists s: string, port: nat :: port < 0x1_0000 && id == s + ":" + Cidr.Decimal(port)
  }

  /** For such identifiers the end of tunnel a takes a session of b exactly when a is a prefix
      of b, whatever the sid. */
  lemma CleanedIffPrefix(a: string, b: string, sid: nat)
    requires EndsInPort(a) && EndsInPort(b)
    ensures HasPrefix(Named(b, sid), a) <==> a <= b
  {
    ForeignCleaned(a, b, sid);
    if b + "." <= a && a[|b| + 1..] <= Cidr.Decimal(sid) {
      var s, port: nat :| port < 0x1_0000 && a == s + ":" + Cidr.Decimal(port);
      DecimalDigits(port);
      DecimalDigits(sid);
      var rest := a[|b| + 1..];
      assert AllDigits(rest) by {
        forall i | 0 <= i < |rest| ensures '0' <= rest[i] <= '9' { assert rest[i] == Cidr.Decimal(sid)[i]; }
      }
      assert a == b + ['.'] + rest;
      assert a == s + [':'] + Cidr.Decimal(port);
      LastCut(b, '.', rest, s, ':', Cidr.Decimal(port));
      assert false;
    }
  }

  /** When no live identifier is a proper prefix of another, cleanOfTun takes a's sessions and
      nobody else's. */
  lemma CleanExact(live: set<string>, a: string, b: string, sid: nat)
    requires a in live && b in live && (forall x :: x in live ==> EndsInPort(x))
    requires forall x, y :: x in live && y in live && x <= y ==> x == y
    ensures HasPrefix(Named(b, sid), a) <==> a == b
  {
    CleanedIffPrefix(a, b, sid);
  }

  /** Two clients behind one address, ports 80 and 8080: the end of the first tunnel closes the
      sessions of the second. */
  lemma PortPrefixCloses(sid: nat)
    ensures var a, b := "u@1.2.3.4:80", "u@1.2.3.4:8080";
            a != b && EndsInPort(a) && EndsInPort(b) && HasPrefix(Named(b, sid), a)
  {
    var a, b := "u@1.2.3.4:80", "u@1.2.3.4:8080";
    assert Cidr.Decimal(80) == "80";
    assert Cidr.Decimal(808) == "808";
    assert Cidr.Decimal(8080) == "8080";
    assert a == "u@1.2.3.4" + ":" + Cidr.Decimal(80);
    assert b == "u@1.2.3.4" + ":" + Cidr.Decimal(8080);
    assert b[..|a|] == a;
    CleanedIffPrefix(a, b, sid);
  }

  function ClientId(localPort: nat, remotePort: nat): string {
    Cidr.Decimal(localPort) + ":" + Cidr.Decimal(remotePort)
  }

  /** On the client all tunnels go to one server port, and there cleanOfTun is always exact. */
  lemma ClientExact(p: nat, q: nat, remote: nat, sid: nat)
    requires p < 0x1_0000 && q < 0x1_0000 && remote < 0x1_0000
    ensures HasPrefix(Named(ClientId(q, remote), sid), ClientId(p, remote)) <==> p == q
  {
    var a, b := ClientId(p, remote), ClientId(q, remote);
    assert EndsInPort(a) && EndsInPort(b);
    CleanedIffPrefix(a, b, sid);
    if a <= b {
      var dp, dq, dr := Cidr.Decimal(p), Cidr.Decimal(q), Cidr.Decimal(remote);
      DecimalDigits(p);
      DecimalDigits(q);
      DecimalDigits(remote);
      assert b[|dp|] == ':' by { assert a[|dp|] == ':'; }
      assert forall i :: 0 <= i < |dq| ==> b[i] == dq[i];
      assert forall i :: |dq| < i < |b| ==> b[i] == dr[i - |dq| - 1];
      assert |dp| == |dq|;
      assert dp == a[..|dp|] == b[..|dp|] == dq;
      DecimalInjective(p, q);
    }
  }
}
