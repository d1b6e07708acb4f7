/** Every interleaving of an honest handshake. */
module HandshakeRuns {
  import opened BigEndian
  import opened Fields
  import opened Wire
  import opened Handshake
  import opened Agreement
  import opened HandshakeSteps
  import Hello

  // ---- every run ----

  lemma OnTrackKept(su: Setup, s: State, s': State)
    requires Honest(su) && Inv(su, s) && (ClientStep(su, s) == Some(s') || ServerStep(su, s) == Some(s'))
    ensures Inv(su, s')
  {
    assert Sane(su);
    hide Inv, ClientStep, ServerStep, Honest, Sane;
    if ClientStep(su, s) == Some(s') {
      if ClientWants(s.client.pc).Some? { ClientReads(su, s, s'); } else { ClientWrites(su, s, s'); }
    } else {
      if ServerWants(s.server).Some? { ServerReads(su, s, s'); } else { ServerWrites(su, s, s'); }
    }
  }

  /** The server has given up on a short read.  It never answered; a new client waits for its
      public key, a resuming one believes to be connected. */
  ghost predicate CutOff(su: Setup, s: State) {
    && s.server.pc.Refused? && (s.server.pc.error.UnrecognizedRequest? || (su.kind.Resumed? && s.server.pc.error.ValidationFailed?))
    && s.down == []
    && if su.kind.New? then s.client.pc.WantPub? else s.client.pc.Ready? || s.client.pc.Sent?
  }

  lemma ShortCuts(su: Setup, s: State, s': State)
    requires Sane(su) && Inv(su, s) && CutShort(su, s, s')
    ensures CutOff(su, s')
    ensures s'.server.pc.error == if s.server.pc.Greeting? then UnrecognizedRequest else ValidationFailed
  {
    hide Sane, Inv, CipherAt, Offset;
    var n: nat :| ShortStep(su, s, n) == Some(s');
    BytesMean(su, s);
    ClientWaits(su, s);
  }

  /** While the server reads its first bytes, a new client waits and a resuming one is through. */
  lemma ClientWaits(su: Setup, s: State)
    requires Sane(su) && Inv(su, s) && (s.server.pc.Greeting? || s.server.pc.WantToken?)
    requires ServerRead(su.kind, s.server.pc) < ClientWrote(su.kind, s.client.pc)
    ensures s.down == [] && (s.server.pc.WantToken? ==> su.kind.Resumed?)
    ensures if su.kind.New? then s.client.pc.WantPub? else s.client.pc.Ready? || s.client.pc.Sent?
  {
    hide Cells, CipherAt, Offset, Key, Iv, Hi, Sane, Refuses, Admitted, Clean, GoodTokens;
    ReadNothing(su, Down, ClientRead(su.kind, s.client.pc));
  }

  lemma RefusedRests(su: Setup, s: State, s': State)
    requires Sane(su) && s.server.pc.Refused?
    ensures ServerStep(su, s).None? && !CutShort(su, s, s')
  {}

  lemma WaitingBlocks(su: Setup, s: State)
    requires Sane(su) && s.client.pc.WantPub? && s.down == []
    ensures ClientStep(su, s).None?
  {
    hide Sane, Recv;
    EmptyBlocks(su.kit, s.client.dec, 1);
  }

  lemma SentRests(su: Setup, s: State)
    requires Sane(su) && s.client.pc.Sent?
    ensures ClientStep(su, s).None?
  {
    hide Sane;
  }

  lemma ReadySends(su: Setup, s: State)
    requires Sane(su) && s.client.pc.Ready?
    ensures ClientStep(su, s).Some?
    ensures var s' := ClientStep(su, s).value;
            s'.client.pc.Sent? && s'.server == s.server && s'.down == s.down && |s'.up| >= |s.up|
  {
    hide Sane, Seal, Ahead;
  }

  /** From then on the server does nothing, the client at most sends. */
  lemma CutStays(su: Setup, s: State, s': State)
    requires Sane(su) && CutOff(su, s) && Next(su, s, s')
    ensures CutOff(su, s') && s'.server == s.server && !CutShort(su, s, s') && |s'.up| >= |s.up|
  {
    hide Sane, ClientStep, ServerStep, CutShort;
    RefusedRests(su, s, s');
    if s.client.pc.WantPub? { WaitingBlocks(su, s); }
    else if s.client.pc.Sent? { SentRests(su, s); }
    else { ReadySends(su, s); }
  }

  lemma StartKept(su: Setup)
    requires Honest(su)
    ensures Inv(su, Start)
  {
    BeforeSwitch(su, Up, 0);
    ReadNothing(su, Up, 0);
    ReadNothing(su, Down, 0);
    ReadNothing(su, Down, 3);
    hide Obf, CipherAt, Cells, Key, Iv, Hi, Offset, Honest;
  }

  /** Some step before the i-th was a short read. */
  ghost predicate ShortBefore(su: Setup, states: seq<State>, i: nat)
    requires i < |states|
  {
    exists k: nat :: k < i && ShortAt(su, states, k)
  }

  ghost predicate ShortAt(su: Setup, states: seq<State>, k: nat)
    requires k + 1 < |states|
  {
    CutShort(su, states[k], states[k + 1])
  }

  lemma ShortSoFar(su: Setup, states: seq<State>, i: nat)
    requires 0 < i < |states|
    ensures ShortBefore(su, states, i) <==> ShortBefore(su, states, i - 1) || ShortAt(su, states, i - 1)
  {
    hide ShortAt;
  }

  /** In every reachable state the two sides are on track, or a read was short and the server
      has given up because of it. */
  lemma {:induction false} RunInv(su: Setup, states: seq<State>, i: nat)
    requires Honest(su) && IsRun(su, states) && i < |states|
    ensures if ShortBefore(su, states, i) then CutOff(su, states[i]) else Inv(su, states[i])
  {
    assert Sane(su);
    hide Inv, Honest, Sane, CutOff, ShortBefore;
    if i == 0 {
      StartKept(su);
      assert !ShortBefore(su, states, 0) by { NoneBeforeStart(su, states); }
    } else {
      RunInv(su, states, i - 1);
      assert StepAt(su, states, i - 1);
      ShortSoFar(su, states, i);
      var s, s' := states[i - 1], states[i];
      hide ClientStep, ServerStep, CutShort;
      assert ShortAt(su, states, i - 1) <==> CutShort(su, s, s');
      if ShortBefore(su, states, i - 1) {
        CutStays(su, s, s');
      } else if CutShort(su, s, s') {
        ShortCuts(su, s, s');
      } else {
        OnTrackKept(su, s, s');
      }
    }
  }

  lemma NoneBeforeStart(su: Setup, states: seq<State>)
    requires |states| > 0
    ensures !ShortBefore(su, states, 0)
  {}

  /** No plaintext byte is decrypted and no ciphertext byte is read raw: in every run, every
      byte a side takes off the wire was written with the cipher state it is read with. */
  lemma SealsMatch(su: Setup, states: seq<State>, i: nat)
    requires Honest(su) && IsRun(su, states) && i + 1 < |states|
    ensures var s, s' := states[i], states[i + 1];
            && (|s'.down| < |s.down| ==> exists used :: s.down == used + s'.down && Matches(s.client.dec, used))
            && (|s'.up| < |s.up| ==> exists used :: s.up == used + s'.up && Matches(s.server.dec, used))
  {
    var s, s' := states[i], states[i + 1];
    RunInv(su, states, i);
    assert Sane(su) && StepAt(su, states, i);
    hide Inv, Honest, Matches, IsRun, Sane, CutOff, ClientStep, ServerStep, CutShort;
    if ShortBefore(su, states, i) {
      CutStays(su, s, s');
      CutDown(su, s);
    } else if ClientStep(su, s) == Some(s') {
      ClientLeavesUp(su, s, s');
      if ClientWants(s.client.pc).Some? { ClientReads(su, s, s'); } else { ClientWrites(su, s, s'); }
    } else if ServerStep(su, s) == Some(s') {
      ServerLeavesDown(su, s, s');
      if ServerWants(s.server).Some? { ServerReads(su, s, s'); } else { ServerWrites(su, s, s'); }
    } else {
      ShortMatches(su, s, s');
    }
  }

  lemma CutDown(su: Setup, s: State)
    requires CutOff(su, s)
    ensures s.down == []
  {}

  /** A short read takes the beginning of the piece. */
  lemma ShortMatches(su: Setup, s: State, s': State)
    requires Honest(su) && Inv(su, s) && CutShort(su, s, s')
    ensures s'.down == s.down
    ensures exists used :: s.up == used + s'.up && Matches(s.server.dec, used)
  {
    assert Sane(su);
    hide Inv, Honest, Sane, ServerWants, Matches, ServerRead, ClientWrote;
    var n: nat :| ShortStep(su, s, n) == Some(s');
    ShortAsks(su, s, n);
    BytesMean(su, s);
    PieceAhead(su, s, ServerRead(su.kind, s.server.pc), ClientWrote(su.kind, s.client.pc), n);
    assert s.up == s.up[..n] + s'.up;
  }

  lemma ShortAsks(su: Setup, s: State, n: nat)
    requires ShortStep(su, s, n).Some?
    ensures ServerWants(s.server).Some? && ServerWants(s.server).value.Raw? && n < ServerWants(s.server).value.n
    ensures s.up != [] && n <= |s.up|
  {}

  /** Bytes on the way are pieces not yet read. */
  lemma BytesMean(su: Setup, s: State)
    requires Sane(su) && Inv(su, s) && s.up != []
    ensures ServerRead(su.kind, s.server.pc) < ClientWrote(su.kind, s.client.pc)
  {
    ReadNothing(su, Up, ServerRead(su.kind, s.server.pc));
    hide ClientOk, ServerOk, Cells, ServerRead, ClientWrote, ServerWrote, ClientRead;
  }

  lemma PieceAhead(su: Setup, s: State, r: nat, w: nat, n: nat)
    requires Honest(su) && Inv(su, s) && ServerWants(s.server).Some? && ServerWants(s.server).value.Raw?
    requires r == ServerRead(su.kind, s.server.pc) < w == ClientWrote(su.kind, s.client.pc)
    requires n <= |s.up| && n < ServerWants(s.server).value.n
    ensures s.up == s.up[..n] + s.up[n..] && Matches(s.server.dec, s.up[..n])
  {
    ServerAsks(su, s.server);
    assert s.up == Cells(su, Up, r, w) && Sane(su);
    hide Inv, Cells, CipherAt, Piece, Ask, Matches, Seal, ServerWants, ServerRead, ClientWrote;
    RawPiece(su, Up, r);
    hide Honest, Sane;
    CellsFirst(su, Up, r, w);
    SealMatches(su.kit, s.server.dec, Piece(su, Up, r));
    PrefixMatches(s.server.dec, Seal(su.kit, s.server.dec, Piece(su, Up, r)), Cells(su, Up, r + 1, w), n);
  }

  lemma RawPiece(su: Setup, d: Dir, i: nat)
    requires Honest(su) && Ask(su, d, i).Raw?
    ensures |Piece(su, d, i)| == Ask(su, d, i).n
  {
    AllFit(su, d, i);
    hide Honest, Ask, Msg;
  }

  lemma PrefixMatches(c: Cipher, p: seq<Cell>, q: seq<Cell>, n: nat)
    requires Matches(c, p) && n <= |p|
    ensures Matches(c, (p + q)[..n])
  {
    assert (p + q)[..n] == p[..n];
  }

  lemma ClientLeavesUp(su: Setup, s: State, s': State)
    requires Sane(su) && ClientStep(su, s) == Some(s')
    ensures |s'.up| >= |s.up|
  {
    hide ClientEmit, ClientHandle, Recv;
  }

  lemma ServerLeavesDown(su: Setup, s: State, s': State)
    requires Sane(su) && ServerStep(su, s) == Some(s')
    ensures |s'.down| >= |s.down|
  {
    hide ServerEmit, ServerHandle, Recv;
  }

  // ---- agreement ----

  /** Both through the handshake, whatever they may have sent since. */
  predicate BothDone(s: State) {
    (s.client.pc.Ready? || s.client.pc.Sent?) && (s.server.pc.Serving? || s.server.pc.Served?)
  }

  lemma {:induction false} CellsMatch(su: Setup, d: Dir, i: nat, j: nat)
    requires Sane(su) && SWITCH <= i <= j
    ensures Matches(CipherAt(su, d, i), Cells(su, d, i, j))
    ensures Ahead(CipherAt(su, d, i), |Cells(su, d, i, j)|) == CipherAt(su, d, j)
    decreases j
  {
    hide CipherAt, Piece, Offset;
    if i < j {
      CellsMatch(su, d, i, j - 1);
      var front := Cells(su, d, i, j - 1);
      assert Cells(su, d, i, j) == front + Seal(su.kit, CipherAt(su, d, j - 1), Piece(su, d, j - 1));
      hide Cells, Matches;
      var c, x := CipherAt(su, d, j - 1), Piece(su, d, j - 1);
      SealMatches(su.kit, c, x);
      hide Seal, Ahead;
      CipherNext(su, d, j - 1);
      MatchesOn(CipherAt(su, d, i), front, Seal(su.kit, c, x));
      AheadTwice(CipherAt(su, d, i), |front|, |x|);
    }
  }

  lemma MatchesOn(c: Cipher, p: seq<Cell>, q: seq<Cell>)
    requires Matches(c, p) && Matches(Ahead(c, |p|), q)
    ensures Matches(c, p + q)
  {
    forall i | |p| <= i < |p + q| ensures (p + q)[i].seal == Ahead(c, i) {
      assert (p + q)[i] == q[i - |p|];
      AheadTwice(c, |p|, i - |p|);
    }
  }

  /** Once both are through, they hold the same key and IV; the client has the parameters and
      tokens of the server, the server the identity of the client; and in each direction the
      reader's cipher stands exactly where the bytes still under way begin. */
  lemma Agree(su: Setup, states: seq<State>, i: nat)
    requires Honest(su) && IsRun(su, states) && i < |states| && BothDone(states[i])
    ensures var c, v := states[i].client, states[i].server;
            && c.key == v.key == Key(su) && c.iv == v.iv == Iv(su)
            && (su.kind.New? ==> c.hello == v.hello && c.ping == su.ping && c.parallels == su.parallels && c.tokens == su.tokens &&
                                 v.identity == Identity(su.user, su.pass))
            && Matches(v.dec, states[i].up) && c.enc == Ahead(v.dec, |states[i].up|)
            && Matches(c.dec, states[i].down) && v.enc == Ahead(c.dec, |states[i].down|)
  {
    RunInv(su, states, i);
    assert Sane(su);
    DoneNotCut(su, states[i]);
    hide Inv, Honest, IsRun, Sane, BothDone, Key, Iv, Matches, Ahead, CutOff;
    DoneKnows(su, states[i]);
    DoneWires(su, states[i]);
  }

  lemma DoneNotCut(su: Setup, s: State)
    requires BothDone(s)
    ensures !CutOff(su, s)
  {}

  lemma DoneKnows(su: Setup, s: State)
    requires Sane(su) && Inv(su, s) && BothDone(s)
    ensures s.client.key == s.server.key == Key(su) && s.client.iv == s.server.iv == Iv(su)
    ensures su.kind.New? ==>
              && s.client.hello == s.server.hello && s.client.ping == su.ping && s.client.parallels == su.parallels
              && s.client.tokens == su.tokens && s.server.identity == Identity(su.user, su.pass)
  {
    hide CipherAt, Cells, Key, Iv, Hi, Offset, Sane;
  }

  lemma DoneCiphers(su: Setup, s: State)
    requires Sane(su) && Inv(su, s) && BothDone(s)
    ensures ServerRead(su.kind, s.server.pc) >= SWITCH && ClientRead(su.kind, s.client.pc) >= SWITCH
    ensures s.client.enc == CipherAt(su, Up, ClientWrote(su.kind, s.client.pc)) && s.server.dec == CipherAt(su, Up, ServerRead(su.kind, s.server.pc))
    ensures s.server.enc == CipherAt(su, Down, ServerWrote(su.kind, s.server.pc)) && s.client.dec == CipherAt(su, Down, ClientRead(su.kind, s.client.pc))
  {
    hide CipherAt, Cells, Key, Iv, Hi, Offset, Sane;
  }

  lemma DoneWires(su: Setup, s: State)
    requires Sane(su) && Inv(su, s) && BothDone(s)
    ensures Matches(s.server.dec, s.up) && s.client.enc == Ahead(s.server.dec, |s.up|)
    ensures Matches(s.client.dec, s.down) && s.server.enc == Ahead(s.client.dec, |s.down|)
  {
    DoneCiphers(su, s);
    hide ClientOk, ServerOk, CipherAt, Cells, Offset, Matches, Ahead, ClientWrote, ClientRead, ServerRead, ServerWrote, Sane;
    CellsMatch(su, Up, ServerRead(su.kind, s.server.pc), ClientWrote(su.kind, s.client.pc));
    CellsMatch(su, Down, ClientRead(su.kind, s.client.pc), ServerWrote(su.kind, s.server.pc));
  }

  /** A side that gives up has one of these reasons, and no other: something in the setup
      speaks against the connection, or the server took too few bytes in one of the reads it
      does once. */
  lemma OnlyThen(su: Setup, states: seq<State>, i: nat)
    requires Honest(su) && IsRun(su, states) && i < |states|
    ensures states[i].client.pc.Stopped? ==> StopsFor(su, states[i].client.pc.error)
    ensures states[i].server.pc.Refused? ==> RefusesFor(su, states[i].server.pc.error) || ShortBefore(su, states, i)
    ensures ShortBefore(su, states, i) ==>
              states[i].server.pc.Refused? && !RefusesFor(su, states[i].server.pc.error) && !states[i].client.pc.Stopped?
  {
    RunInv(su, states, i);
    hide Honest, IsRun, Cells, CipherAt, Offset, Key, Hi, ShortBefore;
  }

  // ---- completion ----

  /** Nothing in the setup speaks against the connection. */
  predicate Fine(su: Setup) {
    su.kind.Resumed? || (!Refuses(su) && Clean(su) && Admitted(su) && GoodTokens(su.tokens))
  }

  lemma ClientBlocked(su: Setup, s: State)
    requires Honest(su) && Inv(su, s) && ClientStep(su, s).None?
    ensures s.client.pc.Sent? || s.client.pc.Stopped? ||
            (ClientWants(s.client.pc).Some? && ClientRead(su.kind, s.client.pc) == ServerWrote(su.kind, s.server.pc))
  {
    var r, w := ClientRead(su.kind, s.client.pc), ServerWrote(su.kind, s.server.pc);
    if ClientWants(s.client.pc).Some? {
      ClientAsks(su, s.client);
      hide ClientOk, ServerOk, Cells, CipherAt, Piece, Ask, Msg, ClientHandle, Matches, Seal, Recv, Honest, Offset;
      if r < w { ReadNext(su, Down, r, w); }
    }
  }

  lemma ServerBlocked(su: Setup, s: State)
    requires Honest(su) && Inv(su, s) && ServerStep(su, s).None?
    ensures s.server.pc.Served? || s.server.pc.Refused? ||
            (ServerWants(s.server).Some? && ServerRead(su.kind, s.server.pc) == ClientWrote(su.kind, s.client.pc))
  {
    var r, w := ServerRead(su.kind, s.server.pc), ClientWrote(su.kind, s.client.pc);
    if ServerWants(s.server).Some? {
      ServerAsks(su, s.server);
      hide ClientOk, ServerOk, Cells, CipherAt, Piece, Ask, Msg, ServerHandle, Matches, Seal, Recv, Honest, Offset;
      if r < w { ReadNext(su, Up, r, w); }
    } else {
      hide CipherAt, Cells, Honest, Offset, Key, Hi;
    }
  }

  /** When neither side can move any more, both have finished if and only if nothing in the
      setup speaks against it and neither of the server's single reads was short: no deadlock,
      no lost byte. */
  lemma Completes(su: Setup, states: seq<State>)
    requires Honest(su) && IsRun(su, states)
    requires ClientStep(su, states[|states| - 1]).None? && ServerStep(su, states[|states| - 1]).None?
    ensures var s := states[|states| - 1];
            s.client.pc.Sent? && s.server.pc.Served? <==> Fine(su) && !ShortBefore(su, states, |states| - 1)
  {
    var s := states[|states| - 1];
    RunInv(su, states, |states| - 1);
    assert Sane(su);
    if ShortBefore(su, states, |states| - 1) {
      assert CutOff(su, s);
    } else {
      hide IsRun, Inv, Fine, ShortBefore;
      ClientBlocked(su, s);
      ServerBlocked(su, s);
      hide ClientStep, ServerStep, Honest, Sane;
      if Fine(su) {
        FineGoesOn(su, s);
        NoDeadlock(su.kind, s.client.pc, s.server);
      }
      if s.client.pc.Sent? && s.server.pc.Served? { DoneIsFine(su, s); }
    }
  }

  lemma DoneIsFine(su: Setup, s: State)
    requires Sane(su) && Inv(su, s) && s.client.pc.Sent? && s.server.pc.Served?
    ensures Fine(su)
  {
    hide Cells, CipherAt, Key, Iv, Hi, Offset, Refuses, Admitted, Clean, GoodTokens;
  }

  lemma FineGoesOn(su: Setup, s: State)
    requires Sane(su) && Inv(su, s) && Fine(su)
    ensures !s.client.pc.Stopped? && !s.server.pc.Refused?
    ensures PcsOf(su.kind, s.client.pc, s.server.pc)
  {
    hide Cells, CipherAt, Key, Iv, Hi, Offset, Refuses, Admitted, Clean, GoodTokens;
  }

  /** Places the two sides can be in together. */
  predicate PcsOf(kind: Kind, c: ClientPc, v: ServerPc) {
    && ServerRead(kind, v) <= ClientWrote(kind, c) && ClientRead(kind, c) <= ServerWrote(kind, v)
    && (if kind.New? then !v.WantToken?
        else (c.Begin? || c.Ready? || c.Sent?) && (v.Greeting? || v.Tail? || v.WantToken? || v.Serving? || v.Served?))
  }

  lemma NoDeadlock(kind: Kind, c: ClientPc, v: Server)
    requires PcsOf(kind, c, v.pc) && !c.Stopped? && !v.pc.Refused?
    requires c.Sent? || (ClientWants(c).Some? && ClientRead(kind, c) == ServerWrote(kind, v.pc))
    requires v.pc.Served? || (ServerWants(v).Some? && ServerRead(kind, v.pc) == ClientWrote(kind, c))
    ensures c.Sent? && v.pc.Served?
  {}

  function ClientRank(pc: ClientPc): nat {
    match pc
    case Begin => 0
    case WantPub => 1
    case WantSign => 2
    case WantRand => 3
    case WantHash => 4
    case WantVersion => 5
    case Login => 6
    case WantResult => 7
    case WantParams => 8
    case WantTokens => 9
    case Ready => 10
    case Sent => 11
    case Stopped(_) => 12
  }

  function ServerRank(pc: ServerPc): nat {
    match pc
    case Greeting => 0
    case Tail => 1
    case WantDh => 2
    case WantToken => 2
    case Answer => 3
    case Switch => 4
    case WantRandHash => 5
    case WantIdentity => 6
    case Grant => 7
    case Serving => 8
    case Served => 9
    case Refused(_) => 10
  }

  lemma StepRises(su: Setup, s: State, s': State)
    requires Sane(su) && Next(su, s, s')
    ensures ClientRank(s'.client.pc) + ServerRank(s'.server.pc) > ClientRank(s.client.pc) + ServerRank(s.server.pc)
  {
    hide ClientStep, ServerStep, ClientRank, ServerRank, CutShort;
    if ClientStep(su, s) == Some(s') { ClientRises(su, s, s'); }
    else if ServerStep(su, s) == Some(s') { ServerRises(su, s, s'); }
    else { ShortRises(su, s, s'); }
  }

  lemma ClientRises(su: Setup, s: State, s': State)
    requires Sane(su) && ClientStep(su, s) == Some(s')
    ensures ClientRank(s'.client.pc) > ClientRank(s.client.pc) && s'.server == s.server
  {
    hide Recv, Seal, Obf, Field, Put, Get, Incompatible, Ahead;
  }

  lemma ServerRises(su: Setup, s: State, s': State)
    requires Sane(su) && ServerStep(su, s) == Some(s')
    ensures ServerRank(s'.server.pc) > ServerRank(s.server.pc) && s'.client == s.client
  {
    hide Recv, Seal, Field, Hello.Trusts, Hello.Hidden, Hello.ExtractKeys, DeserializeIdentity, Put, Get, Ahead;
  }

  lemma ShortRises(su: Setup, s: State, s': State)
    requires CutShort(su, s, s')
    ensures ServerRank(s'.server.pc) > ServerRank(s.server.pc) && s'.client == s.client
  {}

  /** Every run ends: it has at most 22 steps. */
  lemma {:induction false} RunsEnd(su: Setup, states: seq<State>, i: nat)
    requires Sane(su) && IsRun(su, states) && i < |states|
    ensures i <= ClientRank(states[i].client.pc) + ServerRank(states[i].server.pc) <= 22
  {
    hide Next;
    if i > 0 {
      RunsEnd(su, states, i - 1);
      assert StepAt(su, states, i - 1);
      StepRises(su, states[i - 1], states[i]);
    }
  }

  // ---- a segment boundary in the wrong place ----

  /** However fine the setup, if the first read returns n < 264 bytes of the hello the server
      refuses. */
  lemma ShortGreetingRefused(su: Setup, n: nat) returns (states: seq<State>)
    requires Honest(su) && 0 < n < Hello.DPH_P2
    ensures IsRun(su, states) && |states| == 3 && ShortBefore(su, states, 2)
    ensures states[2].server.pc == Refused(UnrecognizedRequest)
  {
    ObfSize(su);
    hide Seal, Obf, Field, Honest;
    var s1 := ClientStep(su, Start).value;
    assert |s1.up| >= Hello.DPH_P2;
    var s2 := ShortStep(su, s1, n).value;
    states := [Start, s1, s2];
    assert ShortAt(su, states, 1);
    assert StepAt(su, states, 0) && StepAt(su, states, 1);
  }

  /** A whole read brings the server to the next piece. */
  lemma ReadsOn(su: Setup, s: State)
    requires Honest(su) && Inv(su, s) && ServerWants(s.server).Some?
    requires ServerRead(su.kind, s.server.pc) < ClientWrote(su.kind, s.client.pc)
    ensures ServerStep(su, s).Some?
    ensures var s' := ServerStep(su, s).value;
            Inv(su, s') && s'.client == s.client && ServerRead(su.kind, s'.server.pc) == ServerRead(su.kind, s.server.pc) + 1
  {
    assert Sane(su);
    var r, w := ServerRead(su.kind, s.server.pc), ClientWrote(su.kind, s.client.pc);
    ServerGets(su, s, r, w);
    assert ServerOk(su, s.server);
    hide Honest, Sane, ServerStep, Inv, ServerOk, ServerHandle, ServerWants, Recv, Cells, Piece, UpMsg, Ahead, ServerRead, ClientWrote;
    ServerStepIs(su, s, r, w);
    ServerHandles(su, s.server);
    AfterReadKept(su, s);
  }

  /** A resumption whose token arrives in two parts is refused as well. */
  lemma ShortTokenRefused(su: Setup, n: nat) returns (states: seq<State>)
    requires Honest(su) && su.kind.Resumed? && 0 < n < TKSZ
    ensures IsRun(su, states) && |states| == 5 && ShortBefore(su, states, 4)
    ensures states[4].server.pc == Refused(ValidationFailed)
  {
    assert Sane(su);
    var s1 := ResumeSent(su);
    hide ClientStep, ServerStep, ShortStep, ServerWants, ServerRead, ClientWrote, Inv, Honest, Sane, ShortBefore, IsRun;
    ReadsOn(su, s1);
    var s2 := ServerStep(su, s1).value;
    AtTail(su, s2);
    TailWaits(su, s2);
    ReadsOn(su, s2);
    var s3 := ServerStep(su, s2).value;
    AtToken(su, s3);
    TokenShort(su, s3, n);
    var s4 := ShortStep(su, s3, n).value;
    states := [Start, s1, s2, s3, s4];
    FourSteps(su, s1, s2, s3, s4, n);
  }

  lemma TokenShort(su: Setup, s: State, n: nat)
    requires s.server.pc.WantToken? && 0 < n < TKSZ <= |s.up|
    ensures ShortStep(su, s, n).Some? && ShortStep(su, s, n).value.server.pc == Refused(ValidationFailed)
  {}

  lemma FourSteps(su: Setup, s1: State, s2: State, s3: State, s4: State, n: nat)
    requires Sane(su) && ClientStep(su, Start) == Some(s1) && ServerStep(su, s1) == Some(s2) && ServerStep(su, s2) == Some(s3)
    requires ShortStep(su, s3, n) == Some(s4)
    ensures IsRun(su, [Start, s1, s2, s3, s4]) && ShortBefore(su, [Start, s1, s2, s3, s4], 4)
  {
    hide ClientStep, ServerStep, ShortStep, Sane;
    var states := [Start, s1, s2, s3, s4];
    assert ShortAt(su, states, 3);
    assert StepAt(su, states, 0) && StepAt(su, states, 1) && StepAt(su, states, 2) && StepAt(su, states, 3);
  }

  lemma ResumeSent(su: Setup) returns (s1: State)
    requires Honest(su) && su.kind.Resumed?
    ensures ClientStep(su, Start) == Some(s1) && Inv(su, s1) && s1.client.pc.Ready? && ServerWants(s1.server).Some?
    ensures ServerRead(su.kind, s1.server.pc) == 0 && ClientWrote(su.kind, s1.client.pc) == 3
  {
    StartKept(su);
    s1 := ClientStep(su, Start).value;
    assert s1.client.pc == Ready && s1.server == NewServer by { hide Seal, Obf; }
    hide ClientStep, ServerStep, Inv, Honest;
    OnTrackKept(su, Start, s1);
  }

  lemma TailWaits(su: Setup, s: State)
    requires s.server.pc.Tail? && s.client.pc.Ready? && su.kind.Resumed?
    ensures ServerWants(s.server).Some? && ServerRead(su.kind, s.server.pc) == 1 && ClientWrote(su.kind, s.client.pc) == 3
  {}

  lemma AtTail(su: Setup, s: State)
    requires Sane(su) && Inv(su, s) && ServerRead(su.kind, s.server.pc) == 1
    ensures s.server.pc.Tail?
  {}

  lemma AtToken(su: Setup, s: State)
    requires Honest(su) && Inv(su, s) && su.kind.Resumed? && ServerRead(su.kind, s.server.pc) == 2 && s.client.pc.Ready?
    ensures s.server.pc.WantToken? && |s.up| == TKSZ
  {
    CellsFirst(su, Up, 2, 3);
    ReadNothing(su, Up, 3);
    hide CipherAt, Seal, Cells, Offset, Obf, Hi, Key;
  }
}
