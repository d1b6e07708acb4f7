/** The steps of an honest handshake: what each side knows and what is on the wire. */
module HandshakeSteps {
  import opened BigEndian
  import opened Fields
  import opened Wire
  import opened Handshake
  import opened Agreement
  import Hello

  // ---- how far each side is ----

  function ClientWrote(kind: Kind, pc: ClientPc): nat {
    match pc
    case Begin => 0
    case Ready => if kind.New? then 5 else 3
    case Sent => if kind.New? then 6 else 4
    case WantResult => 5
    case WantParams => 5
    case WantTokens => 5
    case Stopped(e) => if e.IncompatibleVersion? then 3 else 5
    case _ => 3
  }

  function ClientRead(kind: Kind, pc: ClientPc): nat {
    if kind.Resumed? then 3
    else
      match pc
      case Begin => 0
      case WantPub => 0
      case WantSign => 1
      case WantRand => 2
      case WantHash => 3
      case WantVersion => 4
      case Login => 5
      case WantResult => 5
      case WantParams => 6
      case WantTokens => 7
      case Stopped(e) => if e.IncompatibleVersion? then 5 else if e.AuthFailed? then 6 else 8
      case _ => 8
  }

  function ServerRead(kind: Kind, pc: ServerPc): nat {
    match pc
    case Greeting => 0
    case Tail => 1
    case WantDh => 2
    case WantToken => 2
    case Answer => 3
    case Switch => 3
    case WantRandHash => 3
    case WantIdentity => 4
    case _ => if kind.New? then 5 else 3
  }

  function ServerWrote(kind: Kind, pc: ServerPc): nat {
    if kind.Resumed? then if pc.Served? then 4 else 3
    else
      match pc
      case Switch => 3
      case WantRandHash => 5
      case WantIdentity => 5
      case Grant => 5
      case Serving => 8
      case Served => 9
      case Refused(e) => if e.ValidationFailed? then 6 else 5
      case _ => 0
  }

  // ---- what each side knows ----

  predicate GoodTokens(tokens: Bytes) { |tokens| >= TKSZ && |tokens| % TKSZ == 0 }
  predicate Refuses(su: Setup) { Incompatible(su.serverVersion, su.clientVersion) }
  predicate Admitted(su: Setup) { su.admits(su.user, su.pass) }

  predicate ClientKeyed(pc: ClientPc) {
    !pc.Begin? && !pc.WantPub? && !pc.WantSign? && !pc.WantRand?
  }

  /** A client stops only for a reason that is in the setup. */
  predicate StopsFor(su: Setup, e: Error) {
    su.kind.New? &&
    match e
    case IncompatibleVersion => Refuses(su)
    case AuthFailed => !Admitted(su)
    case IllegalState => !GoodTokens(su.tokens)
    case _ => false
  }

  ghost predicate ClientOk(su: Setup, c: Client)
    requires Sane(su)
  {
    if c.pc.Stopped? then StopsFor(su, c.pc.error)
    else
      && (su.kind.Resumed? ==> c.pc.Begin? || c.pc.Ready? || c.pc.Sent?)
      && c.enc == (if ClientKeyed(c.pc) then CipherAt(su, Up, ClientWrote(su.kind, c.pc)) else Null)
      && c.dec == (if c.pc.Begin? then Null else CipherAt(su, Down, ClientRead(su.kind, c.pc)))
      && (ClientKeyed(c.pc) ==> c.key == Key(su) && c.iv == Iv(su))
      && (su.kind.New? ==>
        && (!c.pc.Begin? ==> c.hello == Hi(su))
        && (c.pc.WantSign? ==> c.dhk == su.cr.pub(su.b))
        && (c.pc.WantRand? ==> c.shared == su.cr.shared(su.a, su.cr.pub(su.b)))
        && (c.pc.WantTokens? || c.pc.Ready? || c.pc.Sent? ==> c.ping == su.ping && c.parallels == su.parallels)
        && (c.pc.Ready? || c.pc.Sent? ==> c.tokens == su.tokens && GoodTokens(su.tokens))
        && (ClientKeyed(c.pc) && !c.pc.WantHash? && !c.pc.WantVersion? ==> !Refuses(su)))
  }

  predicate ServerKeyed(pc: ServerPc) {
    pc.WantRandHash? || pc.WantIdentity? || pc.Grant? || pc.Serving? || pc.Served?
  }

  predicate RefusesFor(su: Setup, e: Error) {
    su.kind.New? &&
    match e
    case ValidationFailed => Clean(su) && !Admitted(su)
    case IllegalState => !Clean(su)
    case _ => false
  }

  ghost predicate ServerOk(su: Setup, v: Server)
    requires Sane(su)
  {
    if v.pc.Refused? then RefusesFor(su, v.pc.error)
    else
      && (if su.kind.New? then !v.pc.WantToken?
          else v.pc.Greeting? || v.pc.Tail? || v.pc.WantToken? || v.pc.Serving? || v.pc.Served?)
      && v.enc == (if ServerKeyed(v.pc) then CipherAt(su, Down, ServerWrote(su.kind, v.pc)) else Null)
      && v.dec == (if v.pc.Answer? || v.pc.Switch? then Null else CipherAt(su, Up, ServerRead(su.kind, v.pc)))
      && (v.pc.Tail? ==> v.first == UpMsg(su, 0) && v.len2 == |UpMsg(su, 1)| &&
                         v.kind == if su.kind.New? then TYPE_NEW else TYPE_RES)
      && (!v.pc.Greeting? && !v.pc.Tail? ==> v.hello == Hi(su))
      && (v.pc.Answer? || v.pc.Switch? ==> v.dhPub == su.cr.pub(su.a))
      && (v.pc.Switch? ==> v.iv == su.sRand)
      && (ServerKeyed(v.pc) ==> v.key == Key(su) && v.iv == Iv(su))
      && (su.kind.New? && (v.pc.Grant? || v.pc.Serving? || v.pc.Served?) ==> v.identity == Identity(su.user, su.pass) && Clean(su))
      && (su.kind.New? && (v.pc.Serving? || v.pc.Served?) ==> Admitted(su))
  }

  ghost predicate Inv(su: Setup, s: State)
    requires Sane(su)
  {
    var wu, ru := ClientWrote(su.kind, s.client.pc), ServerRead(su.kind, s.server.pc);
    var wd, rd := ServerWrote(su.kind, s.server.pc), ClientRead(su.kind, s.client.pc);
    && ClientOk(su, s.client) && ServerOk(su, s.server)
    && ru <= wu && s.up == Cells(su, Up, ru, wu)
    && rd <= wd && s.down == Cells(su, Down, rd, wd)
  }

  // ---- reading ----

  /** The field the client waits for is the next one of the server. */
  lemma ClientAsks(su: Setup, c: Client)
    requires Sane(su) && ClientOk(su, c) && ClientWants(c.pc).Some?
    ensures var r := ClientRead(su.kind, c.pc);
            su.kind.New? && r < 8 && Ask(su, Down, r) == Prefixed(ClientWants(c.pc).value) && c.dec == CipherAt(su, Down, r)
  {}

  lemma VersionBack(n: nat)
    requires n < 0x1_0000_0000
    ensures Put(n, 4)[..4] == Put(n, 4) && Get(Put(n, 4)) == n
  {
    Widths();
    GetPut(n, 4);
  }

  lemma ParamsBack(su: Setup)
    requires su.ping < 0x1_0000 && su.parallels < 0x1_0000
    ensures |Params(su)| == 4 && Get(Params(su)[..2]) == su.ping && Get(Params(su)[2..4]) == su.parallels
  {
    Widths();
    GetPut(su.ping, 2);
    GetPut(su.parallels, 2);
    hide Put, Get, Pow256;
    assert Params(su)[..2] == Put(su.ping, 2) && Params(su)[2..4] == Put(su.parallels, 2);
  }

  /** Handed the message, the client is where it should be. */
  ghost predicate ClientMovesOn(su: Setup, c: Client)
    requires Sane(su) && ClientWants(c.pc).Some?
  {
    var r := ClientRead(su.kind, c.pc);
    var c' := ClientHandle(su, c.(dec := Ahead(c.dec, |Piece(su, Down, r)|)), DownMsg(su, r));
    ClientOk(su, c') && ClientRead(su.kind, c'.pc) == r + 1 && ClientWrote(su.kind, c'.pc) == ClientWrote(su.kind, c.pc)
  }

  lemma ClientHandlesClear(su: Setup, c: Client)
    requires Honest(su) && ClientOk(su, c) && (c.pc.WantPub? || c.pc.WantSign? || c.pc.WantRand?)
    ensures ClientMovesOn(su, c)
  {
    hide Put, Get, Params, Piece, Cells, Hi, Obf, Incompatible;
  }

  lemma MovesOnIf(su: Setup, c: Client, r: nat, c1: Client, c': Client)
    requires Sane(su) && ClientWants(c.pc).Some? && r == ClientRead(su.kind, c.pc)
    requires c1 == c.(dec := Ahead(c.dec, |Piece(su, Down, r)|)) && ClientHandle(su, c1, DownMsg(su, r)) == c'
    requires ClientOk(su, c') && ClientRead(su.kind, c'.pc) == r + 1 && ClientWrote(su.kind, c'.pc) == ClientWrote(su.kind, c.pc)
    ensures ClientMovesOn(su, c)
  {
    hide ClientHandle, ClientOk, ClientRead, ClientWrote, Piece, DownMsg, Ahead;
  }

  lemma ClientHandlesHashLands(su: Setup, c: Client, c1: Client, r: nat)
    requires Sane(su) && ClientOk(su, c) && c.pc.WantHash? && r == ClientRead(su.kind, c.pc) && c1 == c.(dec := CipherAt(su, Down, r + 1))
    ensures ClientOk(su, c1.(pc := WantVersion))
  {
    hide CipherAt, Key, Iv, Hi, Incompatible, Offset;
  }

  lemma ClientHandlesHash(su: Setup, c: Client)
    requires Sane(su) && ClientOk(su, c) && c.pc.WantHash?
    ensures ClientMovesOn(su, c)
  {
    hide CipherAt, Key, Iv, Hi, Piece, Put, Get, Params, Ahead, ClientMovesOn, Offset, Sane;
    ClientAsks(su, c);
    var r := ClientRead(su.kind, c.pc);
    var c1 := c.(dec := CipherAt(su, Down, r + 1));
    ClientHandlesHashLands(su, c, c1, r);
    assert c.hello == Hi(su);
    hide ClientOk;
    CipherNext(su, Down, r);
    assert DownMsg(su, r) == su.cr.hash(Hi(su));
    hide DownMsg;
    assert ClientHandle(su, c1, su.cr.hash(Hi(su))) == c1.(pc := WantVersion);
    hide ClientHandle;
    MovesOnIf(su, c, r, c1, c1.(pc := WantVersion));
  }

  lemma ClientHandlesVersionLands(su: Setup, c: Client, c1: Client, r: nat)
    requires Sane(su) && ClientOk(su, c) && c.pc.WantVersion? && r == ClientRead(su.kind, c.pc) && c1 == c.(dec := CipherAt(su, Down, r + 1))
    ensures ClientOk(su, c1.(pc := if Refuses(su) then Stopped(IncompatibleVersion) else Login))
  {
    hide CipherAt, Key, Iv, Hi, Incompatible, Offset;
  }

  lemma ClientHandlesVersion(su: Setup, c: Client)
    requires Sane(su) && su.serverVersion < 0x1_0000_0000 && ClientOk(su, c) && c.pc.WantVersion?
    ensures ClientMovesOn(su, c)
  {
    hide CipherAt, Key, Iv, Hi, Piece, Put, Get, Params, Ahead, ClientMovesOn, Offset, Sane;
    ClientAsks(su, c);
    var r := ClientRead(su.kind, c.pc);
    var c1 := c.(dec := CipherAt(su, Down, r + 1));
    ClientHandlesVersionLands(su, c, c1, r);
    hide ClientOk;
    CipherNext(su, Down, r);
    VersionBack(su.serverVersion);
    assert DownMsg(su, r) == Put(su.serverVersion, 4);
    hide DownMsg;
    assert ClientHandle(su, c1, Put(su.serverVersion, 4)) == c1.(pc := if Refuses(su) then Stopped(IncompatibleVersion) else Login);
    hide ClientHandle;
    MovesOnIf(su, c, r, c1, c1.(pc := if Refuses(su) then Stopped(IncompatibleVersion) else Login));
  }

  lemma ClientHandlesResultLands(su: Setup, c: Client, c1: Client, r: nat)
    requires Sane(su) && ClientOk(su, c) && c.pc.WantResult? && r == ClientRead(su.kind, c.pc) && c1 == c.(dec := CipherAt(su, Down, r + 1))
    ensures ClientOk(su, c1.(pc := if Admitted(su) then WantParams else Stopped(AuthFailed)))
  {
    hide CipherAt, Key, Iv, Hi, Incompatible, Offset;
  }

  lemma ClientHandlesResult(su: Setup, c: Client)
    requires Sane(su) && ClientOk(su, c) && c.pc.WantResult?
    ensures ClientMovesOn(su, c)
  {
    hide CipherAt, Key, Iv, Hi, Piece, Put, Get, Params, Ahead, ClientMovesOn, Offset, Sane;
    ClientAsks(su, c);
    var r := ClientRead(su.kind, c.pc);
    var c1 := c.(dec := CipherAt(su, Down, r + 1));
    ClientHandlesResultLands(su, c, c1, r);
    hide ClientOk;
    CipherNext(su, Down, r);
    assert DownMsg(su, r) == (if Admitted(su) then [AUTH_PASS] else [0]);
    hide DownMsg;
    assert ClientHandle(su, c1, (if Admitted(su) then [AUTH_PASS] else [0])) == c1.(pc := if Admitted(su) then WantParams else Stopped(AuthFailed));
    hide ClientHandle;
    MovesOnIf(su, c, r, c1, c1.(pc := if Admitted(su) then WantParams else Stopped(AuthFailed)));
  }

  lemma ClientHandlesParamsLands(su: Setup, c: Client, c1: Client, r: nat)
    requires Sane(su) && ClientOk(su, c) && c.pc.WantParams? && r == ClientRead(su.kind, c.pc) && c1 == c.(dec := CipherAt(su, Down, r + 1))
    ensures ClientOk(su, c1.(ping := su.ping, parallels := su.parallels, pc := WantTokens))
  {
    hide CipherAt, Key, Iv, Hi, Incompatible, Offset;
  }

  lemma ClientHandlesParams(su: Setup, c: Client)
    requires Sane(su) && su.ping < 0x1_0000 && su.parallels < 0x1_0000 && ClientOk(su, c) && c.pc.WantParams?
    ensures ClientMovesOn(su, c)
  {
    hide CipherAt, Key, Iv, Hi, Piece, Put, Get, Params, Ahead, ClientMovesOn, Offset, Sane;
    ClientAsks(su, c);
    var r := ClientRead(su.kind, c.pc);
    var c1 := c.(dec := CipherAt(su, Down, r + 1));
    ClientHandlesParamsLands(su, c, c1, r);
    hide ClientOk;
    CipherNext(su, Down, r);
    ParamsBack(su);
    assert DownMsg(su, r) == Params(su);
    hide DownMsg;
    assert ClientHandle(su, c1, Params(su)) == c1.(ping := su.ping, parallels := su.parallels, pc := WantTokens);
    hide ClientHandle;
    MovesOnIf(su, c, r, c1, c1.(ping := su.ping, parallels := su.parallels, pc := WantTokens));
  }

  lemma ClientHandlesTokensLands(su: Setup, c: Client, c1: Client, r: nat)
    requires Sane(su) && ClientOk(su, c) && c.pc.WantTokens? && r == ClientRead(su.kind, c.pc) && c1 == c.(dec := CipherAt(su, Down, r + 1))
    ensures ClientOk(su, (if GoodTokens(su.tokens) then c1.(tokens := su.tokens, pc := Ready) else c1.(pc := Stopped(IllegalState))))
  {
    hide CipherAt, Key, Iv, Hi, Incompatible, Offset;
  }

  lemma ClientHandlesTokens(su: Setup, c: Client)
    requires Sane(su) && ClientOk(su, c) && c.pc.WantTokens?
    ensures ClientMovesOn(su, c)
  {
    hide CipherAt, Key, Iv, Hi, Piece, Put, Get, Params, Ahead, ClientMovesOn, Offset, Sane;
    ClientAsks(su, c);
    var r := ClientRead(su.kind, c.pc);
    var c1 := c.(dec := CipherAt(su, Down, r + 1));
    ClientHandlesTokensLands(su, c, c1, r);
    hide ClientOk;
    CipherNext(su, Down, r);
    assert DownMsg(su, r) == su.tokens;
    hide DownMsg;
    assert ClientHandle(su, c1, su.tokens) == (if GoodTokens(su.tokens) then c1.(tokens := su.tokens, pc := Ready) else c1.(pc := Stopped(IllegalState)));
    hide ClientHandle;
    MovesOnIf(su, c, r, c1, (if GoodTokens(su.tokens) then c1.(tokens := su.tokens, pc := Ready) else c1.(pc := Stopped(IllegalState))));
  }

  lemma ClientHandles(su: Setup, c: Client)
    requires Honest(su) && ClientOk(su, c) && ClientWants(c.pc).Some?
    ensures ClientMovesOn(su, c)
  {
    hide ClientOk, ClientMovesOn, Undoes, Sane, Hello.SixtyFourBits;
    if c.pc.WantPub? || c.pc.WantSign? || c.pc.WantRand? { ClientHandlesClear(su, c); }
    else if c.pc.WantHash? { ClientHandlesHash(su, c); }
    else if c.pc.WantVersion? { ClientHandlesVersion(su, c); }
    else if c.pc.WantResult? { ClientHandlesResult(su, c); }
    else if c.pc.WantParams? { ClientHandlesParams(su, c); }
    else { ClientHandlesTokens(su, c); }
  }

  function AfterClientRead(su: Setup, s: State, r: nat, w: nat): State
    requires Sane(su) && ClientWants(s.client.pc).Some?
  {
    s.(client := ClientHandle(su, s.client.(dec := Ahead(s.client.dec, |Piece(su, Down, r)|)), DownMsg(su, r)),
       down := Cells(su, Down, r + 1, w))
  }

  lemma EmptyBlocks(kit: Kit, c: Cipher, n: nat)
    ensures n >= 1 ==> Recv(kit, c, [], Prefixed(n)).Blocked? && Recv(kit, c, [], Raw(n)).Blocked?
  {}

  lemma ClientHasNext(su: Setup, s: State)
    requires Sane(su) && Inv(su, s) && ClientWants(s.client.pc).Some? && ClientStep(su, s).Some?
    ensures ClientRead(su.kind, s.client.pc) < ServerWrote(su.kind, s.server.pc)
  {
    hide ClientOk, ServerOk, ClientHandle, ClientEmit, ServerEmit, Cells, CipherAt, Offset, Recv,
      ClientRead, ServerWrote, ServerRead, ClientWrote;
    ReadNothing(su, Down, ClientRead(su.kind, s.client.pc));
    EmptyBlocks(su.kit, s.client.dec, ClientWants(s.client.pc).value);
  }

  lemma ClientGets(su: Setup, s: State, r: nat, w: nat)
    requires Honest(su) && Inv(su, s) && ClientWants(s.client.pc).Some?
    requires r == ClientRead(su.kind, s.client.pc) < w == ServerWrote(su.kind, s.server.pc)
    ensures Recv(su.kit, s.client.dec, s.down, Prefixed(ClientWants(s.client.pc).value)) ==
            Got(DownMsg(su, r), Cells(su, Down, r + 1, w), Ahead(s.client.dec, |Piece(su, Down, r)|))
    ensures exists used :: s.down == used + Cells(su, Down, r + 1, w) && Matches(s.client.dec, used)
  {
    ClientAsks(su, s.client);
    DownIs(su, r);
    hide ClientOk, ServerOk, Cells, CipherAt, Offset, Piece, Ask, Msg, DownMsg, Matches, Seal, Recv, ClientWants, Honest, ClientRead, ServerWrote;
    ReadNext(su, Down, r, w);
    var used := Seal(su.kit, CipherAt(su, Down, r), Piece(su, Down, r));
    assert s.down == used + Cells(su, Down, r + 1, w) && Matches(s.client.dec, used);
  }

  lemma ClientStepIs(su: Setup, s: State, r: nat, w: nat)
    requires Sane(su) && ClientWants(s.client.pc).Some?
    requires Recv(su.kit, s.client.dec, s.down, Prefixed(ClientWants(s.client.pc).value)) ==
             Got(DownMsg(su, r), Cells(su, Down, r + 1, w), Ahead(s.client.dec, |Piece(su, Down, r)|))
    ensures ClientStep(su, s) == Some(AfterClientRead(su, s, r, w))
  {
    hide Sane, ClientEmit, ClientHandle, ClientWants, Recv, Cells, Piece, DownMsg, Ahead;
  }

  lemma AfterClientReadKept(su: Setup, s: State)
    requires Honest(su) && Inv(su, s) && ClientWants(s.client.pc).Some?
    requires ClientRead(su.kind, s.client.pc) < ServerWrote(su.kind, s.server.pc)
    ensures Inv(su, AfterClientRead(su, s, ClientRead(su.kind, s.client.pc), ServerWrote(su.kind, s.server.pc)))
  {
    assert Sane(su);
    hide Honest, Sane, ClientHandle, ClientWants, Cells, Piece, DownMsg, Ahead, ClientOk, ServerOk, ServerRead, ServerWrote, ClientRead, ClientWrote;
    ClientHandles(su, s.client);
  }

  /** One read of the client: it stays on track, and every byte it consumes was written with
      the cipher state it is read with. */
  lemma ClientReads(su: Setup, s: State, s': State)
    requires Honest(su) && Inv(su, s) && ClientWants(s.client.pc).Some? && ClientStep(su, s) == Some(s')
    ensures Inv(su, s')
    ensures exists used :: s.down == used + s'.down && Matches(s.client.dec, used)
  {
    assert Sane(su);
    hide Honest, Sane, Inv, ClientStep, ClientWants, Recv, Cells, Piece, DownMsg, Matches, Ahead, ClientHandle, ClientRead, ServerWrote;
    var r, w := ClientRead(su.kind, s.client.pc), ServerWrote(su.kind, s.server.pc);
    ClientHasNext(su, s);
    ClientGets(su, s, r, w);
    ClientStepIs(su, s, r, w);
    AfterClientReadKept(su, s);
  }

  lemma DownIs(su: Setup, i: nat)
    requires Sane(su)
    ensures Msg(su, Down, i) == DownMsg(su, i) && Msg(su, Up, i) == UpMsg(su, i)
  {}

  // ---- the server reads ----

  lemma ServerAsks(su: Setup, v: Server)
    requires Honest(su) && ServerOk(su, v) && ServerWants(v).Some?
    ensures var r := ServerRead(su.kind, v.pc);
            r < 5 && Ask(su, Up, r) == ServerWants(v).value && v.dec == CipherAt(su, Up, r)
  {
    ObfSize(su);
    hide Obf, CipherAt;
  }

  lemma GreetingTrusted(su: Setup)
    requires Honest(su)
    ensures |UpMsg(su, 0)| == Hello.DPH_P2 && Hello.Trusts(UpMsg(su, 0), su.secret, su.tc, su.sip)
    ensures Hello.Hidden(UpMsg(su, 0), Hello.ExtractKeys(su.secret)) == (if su.kind.New? then TYPE_NEW else TYPE_RES, |UpMsg(su, 1)|)
  {
    ObfSize(su);
    Hello.HelloParts(if su.kind.New? then TYPE_NEW else TYPE_RES, su.secret, su.minute, su.sip, su.noise);
    hide Hello.HelloOf, Hello.ExtractKeys, Hello.Hidden, Get;
    var h, first := Obf(su), UpMsg(su, 0);
    assert first == h[..Hello.DPH_P2];
    assert first[..Hello.DPH_LEN1] == h[..Hello.DPH_LEN1];
    assert first[Hello.DPH_LEN1..Hello.DPH_P2] == h[Hello.DPH_LEN1..Hello.DPH_P2];
    var i :| 0 <= i < |su.tc| && su.tc[i] == su.minute;
  }

  ghost predicate ServerMovesOn(su: Setup, v: Server)
    requires Sane(su) && ServerWants(v).Some?
  {
    var r := ServerRead(su.kind, v.pc);
    var v' := ServerHandle(su, v.(dec := Ahead(v.dec, |Piece(su, Up, r)|)), UpMsg(su, r));
    ServerOk(su, v') && ServerRead(su.kind, v'.pc) == r + 1 && ServerWrote(su.kind, v'.pc) == ServerWrote(su.kind, v.pc)
  }

  /** The server once it trusts the greeting. */
  ghost function Greeted(su: Setup, v: Server): Server
    requires Sane(su)
  {
    v.(first := UpMsg(su, 0), kind := if su.kind.New? then TYPE_NEW else TYPE_RES, len2 := |UpMsg(su, 1)|, pc := Tail)
  }

  lemma GreetingHandled(su: Setup, v: Server)
    requires Honest(su) && v.pc.Greeting?
    ensures ServerHandle(su, v, UpMsg(su, 0)) == Greeted(su, v)
  {
    GreetingTrusted(su);
    hide Honest, UpMsg, Hello.Hidden, Hello.Trusts, Hello.ExtractKeys;
  }

  lemma GreetingLands(su: Setup, v: Server)
    requires Sane(su) && ServerOk(su, v) && v.pc.Greeting?
    ensures v.dec == Null && ServerOk(su, Greeted(su, v))
  {
    BeforeSwitch(su, Up, 0);
    BeforeSwitch(su, Up, 1);
    hide UpMsg, Obf, Hi, Offset, Key, Iv, CipherAt;
  }

  lemma ServerHandlesGreeting(su: Setup, v: Server)
    requires Honest(su) && ServerOk(su, v) && v.pc.Greeting?
    ensures ServerMovesOn(su, v)
  {
    GreetingHandled(su, v);
    GreetingLands(su, v);
    hide Honest, UpMsg, Piece, ServerHandle, ServerOk, CipherAt, Ahead;
    NullStays(|Piece(su, Up, ServerRead(su.kind, v.pc))|);
    assert v.(dec := Null) == v;
  }

  lemma TailLands(su: Setup, v: Server)
    requires Sane(su) && ServerOk(su, v) && v.pc.Tail?
    ensures v.dec == Null && ServerOk(su, v.(hello := Hi(su), pc := if su.kind.New? then WantDh else WantToken))
  {
    BeforeSwitch(su, Up, 1);
    BeforeSwitch(su, Up, 2);
    hide UpMsg, Obf, Hi, Offset, Key, Iv, CipherAt;
  }

  lemma ServerHandlesTail(su: Setup, v: Server)
    requires Sane(su) && ServerOk(su, v) && v.pc.Tail?
    ensures ServerMovesOn(su, v)
  {
    var r := ServerRead(su.kind, v.pc);
    assert r == 1 && v.first == UpMsg(su, 0) && v.len2 == |UpMsg(su, 1)| && v.kind == if su.kind.New? then TYPE_NEW else TYPE_RES by {
      hide CipherAt, Key, Iv, Hi, Obf, UpMsg;
    }
    TailLands(su, v);
    TailIsHello(su);
    hide UpMsg, Obf, Hi, Piece, Offset, Key, Iv, Ahead, CipherAt, ServerOk;
    NullStays(|Piece(su, Up, r)|);
    assert ServerHandle(su, v, UpMsg(su, r)) == v.(hello := Hi(su), pc := if su.kind.New? then WantDh else WantToken);
    hide ServerHandle;
    assert v.(dec := Null) == v;
  }

  lemma NullStays(n: nat)
    ensures Ahead(Null, n) == Null
  {}

  /** What the server keeps of the hello is what the client keeps. */
  lemma TailIsHello(su: Setup)
    requires Sane(su)
    ensures Hi(su) == if |UpMsg(su, 1)| > 0 then UpMsg(su, 1) else UpMsg(su, 0)
  {
    ObfSize(su);
    hide Obf;
    var obf := Obf(su);
    assert |obf| == Hello.DPH_P2 ==> obf[..Hello.DPH_P2] == obf;
  }

  lemma ServerHandlesDh(su: Setup, v: Server)
    requires Honest(su) && ServerOk(su, v) && (v.pc.WantDh? || v.pc.WantToken?)
    ensures ServerMovesOn(su, v)
  {
    hide Hi, Obf, Piece;
  }

  lemma ServerHandlesRandHash(su: Setup, v: Server)
    requires Sane(su) && ServerOk(su, v) && v.pc.WantRandHash?
    ensures ServerMovesOn(su, v)
  {
    hide Hi, Obf, Piece, CipherAt, Key, Offset;
    CipherNext(su, Up, ServerRead(su.kind, v.pc));
  }

  lemma ServerHandlesIdentity(su: Setup, v: Server)
    requires Sane(su) && ServerOk(su, v) && v.pc.WantIdentity?
    ensures ServerMovesOn(su, v)
  {
    hide Hi, Obf, Piece, CipherAt, Key, Iv, Offset, DeserializeIdentity;
    CipherNext(su, Up, ServerRead(su.kind, v.pc));
    IdentityRoundTrip(su.user, su.pass);
  }

  lemma ServerHandles(su: Setup, v: Server)
    requires Honest(su) && ServerOk(su, v) && ServerWants(v).Some?
    ensures ServerMovesOn(su, v)
  {
    hide ServerOk, ServerMovesOn, Undoes, Sane, Hello.SixtyFourBits;
    if v.pc.Greeting? { ServerHandlesGreeting(su, v); }
    else if v.pc.Tail? { ServerHandlesTail(su, v); }
    else if v.pc.WantDh? || v.pc.WantToken? { ServerHandlesDh(su, v); }
    else if v.pc.WantRandHash? { ServerHandlesRandHash(su, v); }
    else { ServerHandlesIdentity(su, v); }
  }

  /** Also when it asks for a tail of no bytes, the piece is already written. */
  lemma ServerHasNext(su: Setup, s: State)
    requires Sane(su) && Inv(su, s) && ServerWants(s.server).Some? && ServerStep(su, s).Some?
    ensures ServerRead(su.kind, s.server.pc) < ClientWrote(su.kind, s.client.pc)
  {
    hide ClientOk, ServerOk, ServerHandle, ClientEmit, ServerEmit, Cells, CipherAt, Offset, Open;
    ReadNothing(su, Up, ServerRead(su.kind, s.server.pc));
  }

  lemma ServerGets(su: Setup, s: State, r: nat, w: nat)
    requires Honest(su) && Inv(su, s) && ServerWants(s.server).Some?
    requires r == ServerRead(su.kind, s.server.pc) < w == ClientWrote(su.kind, s.client.pc)
    ensures Recv(su.kit, s.server.dec, s.up, ServerWants(s.server).value) ==
            Got(UpMsg(su, r), Cells(su, Up, r + 1, w), Ahead(s.server.dec, |Piece(su, Up, r)|))
    ensures exists used :: s.up == used + Cells(su, Up, r + 1, w) && Matches(s.server.dec, used)
  {
    ServerAsks(su, s.server);
    DownIs(su, r);
    hide ClientOk, ServerOk, Cells, CipherAt, Offset, Piece, Ask, Msg, UpMsg, Matches, Seal, Recv, ServerWants, Honest, ServerRead, ClientWrote;
    ReadNext(su, Up, r, w);
    var used := Seal(su.kit, CipherAt(su, Up, r), Piece(su, Up, r));
    assert s.up == used + Cells(su, Up, r + 1, w) && Matches(s.server.dec, used);
  }

  function AfterRead(su: Setup, s: State, r: nat, w: nat): State
    requires Sane(su) && ServerWants(s.server).Some?
  {
    s.(server := ServerHandle(su, s.server.(dec := Ahead(s.server.dec, |Piece(su, Up, r)|)), UpMsg(su, r)),
       up := Cells(su, Up, r + 1, w))
  }

  lemma ServerStepIs(su: Setup, s: State, r: nat, w: nat)
    requires Sane(su) && ServerWants(s.server).Some?
    requires Recv(su.kit, s.server.dec, s.up, ServerWants(s.server).value) ==
             Got(UpMsg(su, r), Cells(su, Up, r + 1, w), Ahead(s.server.dec, |Piece(su, Up, r)|))
    ensures ServerStep(su, s) == Some(AfterRead(su, s, r, w))
  {
    hide Sane, ServerEmit, ServerHandle, ServerWants, Recv, Cells, Piece, UpMsg, Ahead;
  }

  lemma AfterReadKept(su: Setup, s: State)
    requires Honest(su) && Inv(su, s) && ServerWants(s.server).Some?
    requires ServerRead(su.kind, s.server.pc) < ClientWrote(su.kind, s.client.pc)
    ensures Inv(su, AfterRead(su, s, ServerRead(su.kind, s.server.pc), ClientWrote(su.kind, s.client.pc)))
  {
    assert Sane(su);
    hide Honest, Sane, ServerHandle, ServerWants, Cells, Piece, UpMsg, Ahead, ClientOk, ServerOk, ServerRead, ServerWrote, ClientRead, ClientWrote;
    ServerHandles(su, s.server);
  }

  lemma ServerReads(su: Setup, s: State, s': State)
    requires Honest(su) && Inv(su, s) && ServerWants(s.server).Some? && ServerStep(su, s) == Some(s')
    ensures Inv(su, s')
    ensures exists used :: s.up == used + s'.up && Matches(s.server.dec, used)
  {
    assert Sane(su);
    hide Honest, Sane, Inv, ServerStep, ServerWants, Recv, Cells, Piece, UpMsg, Matches, Ahead, ServerHandle, ServerRead, ClientWrote;
    var r, w := ServerRead(su.kind, s.server.pc), ClientWrote(su.kind, s.client.pc);
    ServerHasNext(su, s);
    ServerGets(su, s, r, w);
    ServerStepIs(su, s, r, w);
    AfterReadKept(su, s);
  }

  // ---- writing ----

  lemma BeginPieces(su: Setup)
    requires Sane(su)
    ensures Obf(su) + (if su.kind.New? then Field(2, su.cr.pub(su.a)) else su.token) == Piece(su, Up, 0) + Piece(su, Up, 1) + Piece(su, Up, 2)
  {
    ObfSize(su);
    hide Obf, Field;
    var obf := Obf(su);
    assert obf == obf[..Hello.DPH_P2] + obf[Hello.DPH_P2..];
  }

  lemma LoginPieces(su: Setup)
    requires Sane(su) && su.kind.New?
    ensures Field(1, su.cr.hash(su.sRand)) + Field(1, su.user + [0] + su.pass) == Piece(su, Up, 3) + Piece(su, Up, 4)
  {
    hide Field, Obf;
  }

  lemma AnswerPieces(su: Setup)
    requires Sane(su) && su.kind.New?
    ensures Field(1, su.cr.pub(su.b)) + Field(1, su.cr.sign(su.cr.pub(su.b))) + Field(1, su.sRand) ==
            Piece(su, Down, 0) + Piece(su, Down, 1) + Piece(su, Down, 2)
  {
    hide Field;
  }

  lemma SwitchPieces(su: Setup)
    requires Sane(su) && su.kind.New?
    ensures Field(1, su.cr.hash(Hi(su))) + Field(1, Put(su.serverVersion, 4)) == Piece(su, Down, 3) + Piece(su, Down, 4)
  {
    hide Field, Hi, Put;
  }

  lemma GrantPieces(su: Setup)
    requires Sane(su) && su.kind.New?
    ensures Admitted(su) ==> Field(1, [AUTH_PASS]) + Field(2, Params(su)) + Field(2, su.tokens) ==
                             Piece(su, Down, 5) + Piece(su, Down, 6) + Piece(su, Down, 7)
    ensures !Admitted(su) ==> [1, 0] == Piece(su, Down, 5)
  {
    hide Params;
    assert Put(1, 1) == [1] by { assert Put(0, 0) == []; }
    hide Put;
    assert Field(1, [0]) == [1, 0];
    hide Field;
  }

  lemma BeforeSwitch(su: Setup, d: Dir, i: nat)
    requires Sane(su) && i < SWITCH
    ensures CipherAt(su, d, i) == Null
  {}

  lemma AtSwitch(su: Setup)
    requires Sane(su)
    ensures CipherAt(su, Up, SWITCH) == CipherAt(su, Down, SWITCH) == Xor(Key(su), Iv(su), 0)
  {
    hide Key, Iv;
  }

  /** A wire after a write, and nothing else about the states. */
  ghost predicate UpWire(su: Setup, s: State)
    requires Sane(su)
  {
    var wu, ru := ClientWrote(su.kind, s.client.pc), ServerRead(su.kind, s.server.pc);
    ru <= wu && s.up == Cells(su, Up, ru, wu)
  }

  ghost predicate DownWire(su: Setup, s: State)
    requires Sane(su)
  {
    var wd, rd := ServerWrote(su.kind, s.server.pc), ClientRead(su.kind, s.client.pc);
    rd <= wd && s.down == Cells(su, Down, rd, wd)
  }

  lemma ClientBegins(su: Setup, s: State, s': State)
    requires Sane(su) && Inv(su, s) && s.client.pc.Begin? && ClientStep(su, s) == Some(s')
    ensures ClientOk(su, s'.client) && UpWire(su, s')
  {
    hide Obf, Piece, Seal, Cells, CipherAt, Offset, Field, ServerOk, Ahead;
    var r, w := ServerRead(su.kind, s.server.pc), ClientWrote(su.kind, s.client.pc);
    BeginPieces(su);
    BeforeSwitch(su, Up, w);
    BeforeSwitch(su, Down, 0);
    AtSwitch(su);
    WriteThree(su, Up, r, w);
  }

  lemma ClientLogsIn(su: Setup, s: State, s': State)
    requires Sane(su) && |su.user| + 1 + |su.pass| < 0x100
    requires Inv(su, s) && s.client.pc.Login? && ClientStep(su, s) == Some(s')
    ensures ClientOk(su, s'.client) && UpWire(su, s')
  {
    hide Obf, Piece, Seal, Cells, CipherAt, Offset, Field, ServerOk, Key, Hi, Ahead;
    var r, w := ServerRead(su.kind, s.server.pc), ClientWrote(su.kind, s.client.pc);
    LoginPieces(su);
    WriteTwo(su, Up, r, w);
  }

  lemma ClientSends(su: Setup, s: State, s': State)
    requires Sane(su) && Inv(su, s) && s.client.pc.Ready? && ClientStep(su, s) == Some(s')
    ensures ClientOk(su, s'.client) && UpWire(su, s')
  {
    hide Seal, Cells, CipherAt, Offset, Field, ServerOk, Key, Hi, Obf, Ahead;
    var r, w := ServerRead(su.kind, s.server.pc), ClientWrote(su.kind, s.client.pc);
    assert Piece(su, Up, w) == su.laterUp;
    hide Piece;
    WriteOne(su, Up, r, w);
    CipherNext(su, Up, w);
  }

  lemma ClientWrites(su: Setup, s: State, s': State)
    requires Honest(su) && Inv(su, s) && ClientWants(s.client.pc).None? && ClientStep(su, s) == Some(s')
    ensures Inv(su, s') && s'.down == s.down
  {
    hide ClientOk, ServerOk, Cells, Seal, ClientEmit;
    if s.client.pc.Begin? { ClientBegins(su, s, s'); }
    else if s.client.pc.Login? { ClientLogsIn(su, s, s'); }
    else { ClientSends(su, s, s'); }
    SameRead(su, s, s');
  }

  /** Writing does not move the client's reading. */
  lemma SameRead(su: Setup, s: State, s': State)
    requires Honest(su) && ClientOk(su, s.client) && ClientWants(s.client.pc).None? && ClientStep(su, s) == Some(s')
    ensures ClientRead(su.kind, s'.client.pc) == ClientRead(su.kind, s.client.pc) && s'.server == s.server && s'.down == s.down
  {
    hide Seal, CipherAt, Field, Obf, Hi, Key;
  }

  lemma ServerAnswers(su: Setup, s: State, s': State)
    requires Sane(su) && Inv(su, s) && s.server.pc.Answer? && ServerStep(su, s) == Some(s')
    ensures ServerOk(su, s'.server) && DownWire(su, s')
  {
    hide Obf, Piece, Seal, Cells, CipherAt, Offset, Field, ClientOk, Key, Hi, Ahead;
    var r, w := ClientRead(su.kind, s.client.pc), ServerWrote(su.kind, s.server.pc);
    AnswerPieces(su);
    BeforeSwitch(su, Down, w);
    WriteThree(su, Down, r, w);
  }

  lemma ServerSwitches(su: Setup, s: State, s': State)
    requires Sane(su) && su.cr.shared(su.a, su.cr.pub(su.b)) == su.cr.shared(su.b, su.cr.pub(su.a))
    requires Inv(su, s) && s.server.pc.Switch? && ServerStep(su, s) == Some(s')
    ensures ServerOk(su, s'.server) && DownWire(su, s')
  {
    hide Obf, Piece, Seal, Cells, CipherAt, Offset, Field, ClientOk, Hi, Ahead;
    var r, w := ClientRead(su.kind, s.client.pc), ServerWrote(su.kind, s.server.pc);
    SwitchPieces(su);
    AtSwitch(su);
    WriteTwo(su, Down, r, w);
  }

  lemma ServerGrants(su: Setup, s: State, s': State)
    requires Sane(su) && Inv(su, s) && s.server.pc.Grant? && ServerStep(su, s) == Some(s')
    ensures ServerOk(su, s'.server) && DownWire(su, s')
  {
    hide Obf, Piece, Seal, Cells, CipherAt, Offset, Field, ClientOk, Hi, Key, Ahead, Params;
    var r, w := ClientRead(su.kind, s.client.pc), ServerWrote(su.kind, s.server.pc);
    GrantPieces(su);
    if Admitted(su) { WriteThree(su, Down, r, w); } else { WriteOne(su, Down, r, w); }
  }

  lemma ServerSends(su: Setup, s: State, s': State)
    requires Sane(su) && Inv(su, s) && s.server.pc.Serving? && ServerStep(su, s) == Some(s')
    ensures ServerOk(su, s'.server) && DownWire(su, s')
  {
    hide Seal, Cells, CipherAt, Offset, Field, ClientOk, Key, Hi, Obf, Ahead;
    var r, w := ClientRead(su.kind, s.client.pc), ServerWrote(su.kind, s.server.pc);
    assert Piece(su, Down, w) == su.laterDown;
    hide Piece;
    WriteOne(su, Down, r, w);
    CipherNext(su, Down, w);
  }

  lemma ServerWrites(su: Setup, s: State, s': State)
    requires Honest(su) && Inv(su, s) && ServerWants(s.server).None? && ServerStep(su, s) == Some(s')
    ensures Inv(su, s') && s'.up == s.up
  {
    hide ClientOk, ServerOk, Cells, Seal, ServerEmit;
    if s.server.pc.Answer? { ServerAnswers(su, s, s'); }
    else if s.server.pc.Switch? { ServerSwitches(su, s, s'); }
    else if s.server.pc.Grant? { ServerGrants(su, s, s'); }
    else { ServerSends(su, s, s'); }
    SameServerRead(su, s, s');
  }

  lemma SameServerRead(su: Setup, s: State, s': State)
    requires Honest(su) && ServerOk(su, s.server) && ServerWants(s.server).None? && ServerStep(su, s) == Some(s')
    ensures ServerRead(su.kind, s'.server.pc) == ServerRead(su.kind, s.server.pc) && s'.client == s.client && s'.up == s.up
  {
    hide Seal, CipherAt, Field, Obf, Hi, Key;
  }
}
