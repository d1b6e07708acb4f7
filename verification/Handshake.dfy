/** The d5 handshake, full and resumed: d5cman on the client and d5sman on the server as a
    machine of two parties and two byte streams.  Key exchange, signature, hash, key
    derivation and keystream are parameters. */
module Handshake {
  import opened BigEndian
  import opened Fields
  import opened Wire
  import Hello

  const AUTH_PASS: Byte := 0xff
  const TYPE_NEW: Byte := 0xfb
  const TYPE_RES: Byte := 0xf1
  const TKSZ: nat := 20

  datatype Error =
    | UnrecognizedRequest | ValidationFailed | InconsistentHash | IncompatibleVersion
    | AuthFailed | IllegalState | Panic

  /** pub and shared are the key exchange, kdf is NewCipherFactory. */
  datatype Crypto = Crypto(
    pub: nat -> Bytes, shared: (nat, Bytes) -> Bytes,
    sign: Bytes -> Bytes, verify: (Bytes, Bytes) -> bool,
    hash: Bytes -> Bytes, kdf: (Bytes, Bytes) -> Bytes)

  datatype Kind = New | Resumed

  /** Everything the two sides bring along: what they were configured with, what they draw at
      random, and what they will say once connected. */
  datatype Setup = Setup(
    kind: Kind, cr: Crypto, kit: Kit,
    sip: Hello.Sip, secret: Bytes, minute: nat, tc: seq<nat>, noise: Bytes,
    a: nat, b: nat, sRand: Bytes,
    user: Bytes, pass: Bytes, admits: (Bytes, Bytes) -> bool,
    clientVersion: nat, serverVersion: nat,
    ping: nat, parallels: nat, tokens: Bytes,
    token: Bytes, resumeKey: Bytes, sessions: Bytes -> Option<Bytes>,
    laterUp: Bytes, laterDown: Bytes)

  /** The lengths that makeDbcHello and extractKeys take for granted. */
  predicate Sane(su: Setup) {
    |su.secret| >= 10 && Hello.DPH_P2 <= |su.noise| < Hello.DPH_P2 + 256
  }

  // ---- the client ----

  datatype ClientPc =
    | Begin | WantPub | WantSign | WantRand | WantHash | WantVersion | Login
    | WantResult | WantParams | WantTokens | Ready | Sent | Stopped(error: Error)

  datatype Client = Client(
    pc: ClientPc, enc: Cipher, dec: Cipher,
    hello: Bytes, dhk: Bytes, shared: Bytes, key: Bytes, iv: Bytes,
    ping: nat, parallels: nat, tokens: Bytes)

  const NewClient: Client := Client(Begin, Null, Null, [], [], [], [], [], 0, 0, [])

  function Obf(su: Setup): Bytes
    requires |su.secret| >= 10 && Hello.DPH_P2 <= |su.noise| < Hello.DPH_P2 + 256
  {
    Hello.HelloOf(if su.kind.New? then TYPE_NEW else TYPE_RES, su.secret, su.minute, su.sip, su.noise)
  }

  /** The part of the hello that goes into the key. */
  function HelloPart(obf: Bytes): Bytes {
    if |obf| > Hello.DPH_P2 then obf[Hello.DPH_P2..] else obf
  }

  predicate Incompatible(remote: nat, mine: nat) {
    remote > mine && remote / 0x1_0000 != mine / 0x1_0000
  }

  /** The width of the length prefix a client read asks for; None when it is not reading. */
  function ClientWants(pc: ClientPc): Option<nat> {
    match pc
    case WantPub => Some(1)
    case WantSign => Some(1)
    case WantRand => Some(1)
    case WantHash => Some(1)
    case WantVersion => Some(1)
    case WantResult => Some(1)
    case WantParams => Some(2)
    case WantTokens => Some(2)
    case _ => None
  }

  /** What the client does with a field; its dec is already past it. */
  function ClientHandle(su: Setup, c: Client, buf: Bytes): Client
    requires ClientWants(c.pc).Some?
  {
    match c.pc
    case WantPub => c.(dhk := buf, pc := WantSign)
    case WantSign =>
      if !su.cr.verify(buf, c.dhk) then c.(pc := Stopped(ValidationFailed))
      else c.(shared := su.cr.shared(su.a, c.dhk), pc := WantRand)
    case WantRand =>
      var key := su.cr.kdf(c.shared, c.hello);
      c.(iv := buf, key := key, enc := Xor(key, buf, 0), dec := Xor(key, buf, 0), pc := WantHash)
    case WantHash => c.(pc := if buf != su.cr.hash(c.hello) then Stopped(InconsistentHash) else WantVersion)
    case WantVersion =>
      c.(pc := if |buf| < 4 then Stopped(Panic)
               else if Incompatible(Get(buf[..4]), su.clientVersion) then Stopped(IncompatibleVersion)
               else Login)
    case WantResult =>
      c.(pc := if buf == [] then Stopped(Panic) else if buf[0] != AUTH_PASS then Stopped(AuthFailed) else WantParams)
    case WantParams =>
      if |buf| < 4 then c.(pc := Stopped(Panic))
      else c.(ping := Get(buf[..2]), parallels := Get(buf[2..4]), pc := WantTokens)
    case WantTokens =>
      if |buf| < TKSZ || |buf| % TKSZ != 0 then c.(pc := Stopped(IllegalState))
      else c.(tokens := buf, pc := Ready)
  }

  /** What a client that is about to write writes, and what it is afterwards. */
  function ClientEmit(su: Setup, c: Client): (Bytes, Client)
    requires |su.secret| >= 10 && Hello.DPH_P2 <= |su.noise| < Hello.DPH_P2 + 256
    requires c.pc.Begin? || c.pc.Login? || c.pc.Ready?
  {
    match c.pc
    case Begin =>
      var obf := Obf(su);
      if su.kind.New? then
        (obf + Field(2, su.cr.pub(su.a)), c.(hello := HelloPart(obf), pc := WantPub))
      else
        var cipher := Xor(su.resumeKey, su.token, 0);
        (obf + su.token, c.(key := su.resumeKey, iv := su.token, enc := cipher, dec := cipher, pc := Ready))
    case Login =>
      var identity := SerializeIdentity(su.user, su.pass);
      if identity.None? then ([], c.(pc := Stopped(Panic)))
      else
        var plain := Field(1, su.cr.hash(c.iv)) + Field(1, identity.value);
        (plain, c.(enc := Ahead(c.enc, |plain|), pc := WantResult))
    case Ready => (su.laterUp, c.(enc := Ahead(c.enc, |su.laterUp|), pc := Sent))
  }

  // ---- the server ----

  datatype ServerPc =
    | Greeting | Tail | WantDh | Answer | Switch | WantRandHash | WantIdentity | Grant
    | WantToken | Serving | Served | Refused(error: Error)

  datatype Server = Server(
    pc: ServerPc, enc: Cipher, dec: Cipher,
    first: Bytes, kind: Byte, len2: nat, hello: Bytes, dhPub: Bytes, key: Bytes, iv: Bytes, identity: Identity)

  const NewServer: Server := Server(Greeting, Null, Null, [], 0, 0, [], [], [], [], Malformed)

  function ServerWants(v: Server): Option<Demand> {
    match v.pc
    case Greeting => Some(Raw(Hello.DPH_P2))
    case Tail => Some(Raw(v.len2))
    case WantDh => Some(Prefixed(2))
    case WantRandHash => Some(Prefixed(1))
    case WantIdentity => Some(Prefixed(1))
    case WantToken => Some(Raw(TKSZ))
    case _ => None
  }

  function ServerHandle(su: Setup, v: Server, buf: Bytes): Server
    requires |su.secret| >= 10 && ServerWants(v).Some?
  {
    match v.pc
    case Greeting =>
      if |buf| < Hello.DPH_P2 || !Hello.Trusts(buf, su.secret, su.tc, su.sip) then v.(pc := Refused(UnrecognizedRequest))
      else
        var h := Hello.Hidden(buf, Hello.ExtractKeys(su.secret));
        v.(first := buf, kind := h.0, len2 := h.1, pc := Tail)
    case Tail =>
      v.(hello := if v.len2 > 0 then buf else v.first,
         pc := if v.kind == TYPE_NEW then WantDh else if v.kind == TYPE_RES then WantToken else Refused(UnrecognizedRequest))
    case WantDh => v.(dhPub := buf, pc := Answer)
    case WantRandHash => v.(pc := if buf != su.cr.hash(v.iv) then Refused(InconsistentHash) else WantIdentity)
    case WantIdentity =>
      var id := DeserializeIdentity(buf);
      if id.Malformed? then v.(pc := Refused(IllegalState)) else v.(identity := id, pc := Grant)
    case WantToken =>
      var k := su.sessions(buf);
      if k.None? then v.(pc := Refused(ValidationFailed))
      else v.(key := k.value, iv := buf, enc := Xor(k.value, buf, 0), dec := Xor(k.value, buf, 0), pc := Serving)
  }

  function Params(su: Setup): Bytes { Put(su.ping, 2) + Put(su.parallels, 2) }

  /** The cipher the server writes with, what it writes, and what it is afterwards. */
  function ServerEmit(su: Setup, v: Server): (Cipher, Bytes, Server)
    requires v.pc.Answer? || v.pc.Switch? || v.pc.Grant? || v.pc.Serving?
    requires v.pc.Grant? ==> v.identity.Identity?
  {
    match v.pc
    case Answer =>
      var mine := su.cr.pub(su.b);
      (v.enc, Field(1, mine) + Field(1, su.cr.sign(mine)) + Field(1, su.sRand), v.(iv := su.sRand, pc := Switch))
    case Switch =>
      var key := su.cr.kdf(su.cr.shared(su.b, v.dhPub), v.hello);
      var cipher := Xor(key, v.iv, 0);
      var plain := Field(1, su.cr.hash(v.hello)) + Field(1, Put(su.serverVersion, 4));
      (cipher, plain, v.(key := key, dec := cipher, enc := Ahead(cipher, |plain|), pc := WantRandHash))
    case Grant =>
      if !su.admits(v.identity.user, v.identity.pass) then
        (v.enc, [1, 0], v.(enc := Ahead(v.enc, 2), pc := Refused(ValidationFailed)))
      else
        var plain := Field(1, [AUTH_PASS]) + Field(2, Params(su)) + Field(2, su.tokens);
        (v.enc, plain, v.(enc := Ahead(v.enc, |plain|), pc := Serving))
    case Serving => (v.enc, su.laterDown, v.(enc := Ahead(v.enc, |su.laterDown|), pc := Served))
  }

  // ---- the messages as they are written ----

  lemma FromEmpty(x: Bytes, y: Bytes, z: Bytes)
    ensures [] + x + y == x + y && [] + x + y + z == x + y + z
  {
    assert [] + x == x;
  }

  /** requestDHExchange and ResumeSession */
  method WriteGreeting(su: Setup) returns (out: Bytes)
    requires Sane(su)
    ensures out == ClientEmit(su, NewClient).0
  {
    hide Obf, Field;
    var obf := Obf(su);
    FromEmpty(obf, if su.kind.New? then Field(2, su.cr.pub(su.a)) else su.token, []);
    var w := new MsgWriter();
    w.WriteMsg(obf);
    if su.kind.New? {
      w.WriteL2Msg(su.cr.pub(su.a));
    } else {
      w.WriteMsg(su.token);
    }
    out := w.WriteTo();
  }

  /** authThenFinishSetting */
  method WriteLogin(su: Setup, c: Client) returns (out: Bytes)
    requires Sane(su) && c.pc.Login? && SerializeIdentity(su.user, su.pass).Some?
    ensures out == ClientEmit(su, c).0
  {
    hide Field, Sane, SerializeIdentity;
    var identity := SerializeIdentity(su.user, su.pass).value;
    FromEmpty(Field(1, su.cr.hash(c.iv)), Field(1, identity), []);
    var w := new MsgWriter();
    w.WriteL1Msg(su.cr.hash(c.iv));
    w.WriteL1Msg(identity);
    out := w.WriteTo();
  }

  /** finishDHExchange on the server, the answer in the clear */
  method WriteAnswer(su: Setup, v: Server, w: MsgWriter) returns (out: Bytes)
    requires v.pc.Answer? && w.buf == []
    modifies w
    ensures out == ServerEmit(su, v).1 && w.buf == []
  {
    hide Field;
    var mine := su.cr.pub(su.b);
    FromEmpty(Field(1, mine), Field(1, su.cr.sign(mine)), Field(1, su.sRand));
    w.WriteL1Msg(mine);
    w.WriteL1Msg(su.cr.sign(mine));
    w.WriteL1Msg(su.sRand);
    out := w.WriteTo();
  }

  /** then, with the same writer, the first sealed fields */
  method WriteSealed(su: Setup, v: Server, w: MsgWriter) returns (out: Bytes)
    requires v.pc.Switch? && w.buf == []
    modifies w
    ensures out == ServerEmit(su, v).1 && w.buf == []
  {
    hide Field, Put;
    FromEmpty(Field(1, su.cr.hash(v.hello)), Field(1, Put(su.serverVersion, 4)), []);
    w.WriteL1Msg(su.cr.hash(v.hello));
    w.WriteL1Msg(Put(su.serverVersion, 4));
    out := w.WriteTo();
  }

  /** authenticate */
  method WriteGrant(su: Setup, v: Server) returns (out: Bytes)
    requires v.pc.Grant? && v.identity.Identity?
    ensures out == ServerEmit(su, v).1
  {
    if !su.admits(v.identity.user, v.identity.pass) {
      return [1, 0];
    }
    hide Field, Params;
    FromEmpty(Field(1, [AUTH_PASS]), Field(2, Params(su)), Field(2, su.tokens));
    var w := new MsgWriter();
    w.WriteL1Msg([AUTH_PASS]);
    w.WriteL2Msg(Params(su));
    w.WriteL2Msg(su.tokens);
    out := w.WriteTo();
  }

  // ---- both together ----

  datatype State = State(client: Client, server: Server, up: seq<Cell>, down: seq<Cell>)

  const Start: State := State(NewClient, NewServer, [], [])

  /** The client's next step; None while it waits for bytes and when it is through. */
  function ClientStep(su: Setup, s: State): Option<State>
    requires Sane(su)
  {
    var c := s.client;
    if ClientWants(c.pc).Some? then
      var r := Recv(su.kit, c.dec, s.down, Prefixed(ClientWants(c.pc).value));
      if r.Blocked? then None
      else Some(s.(client := ClientHandle(su, c.(dec := r.cipher), r.buf), down := r.rest))
    else if c.pc.Sent? || c.pc.Stopped? then None
    else
      var e := ClientEmit(su, c);
      Some(s.(client := e.1, up := s.up + Seal(su.kit, c.enc, e.0)))
  }

  function ServerStep(su: Setup, s: State): Option<State>
    requires Sane(su)
  {
    var v := s.server;
    if ServerWants(v).Some? then
      var r := Recv(su.kit, v.dec, s.up, ServerWants(v).value);
      if r.Blocked? then None
      else Some(s.(server := ServerHandle(su, v.(dec := r.cipher), r.buf), up := r.rest))
    else if v.pc.Served? || v.pc.Refused? || (v.pc.Grant? && v.identity.Malformed?) then None
    else
      var e := ServerEmit(su, v);
      Some(s.(server := e.2, down := s.down + Seal(su.kit, e.0, e.1)))
  }

  /** The greeting and the resume token are taken with one conn.Read each, which returns what
      has arrived: here n bytes, too few.  (ServerStep is the read that fills the buffer.)
      The server does not try again. */
  function ShortStep(su: Setup, s: State, n: nat): Option<State> {
    var v := s.server;
    if !(v.pc.Greeting? || v.pc.WantToken?) then None
    else if n == 0 || n > |s.up| || n >= ServerWants(v).value.n then None
    else
      var error := if v.pc.Greeting? then UnrecognizedRequest else ValidationFailed;
      Some(s.(server := v.(dec := Ahead(v.dec, n), pc := Refused(error)), up := s.up[n..]))
  }

  /** s' comes from s by a read that returned less than was asked for. */
  ghost predicate CutShort(su: Setup, s: State, s': State) {
    exists n: nat :: ShortStep(su, s, n) == Some(s')
  }

  ghost predicate Next(su: Setup, s: State, s': State)
    requires Sane(su)
  {
    ClientStep(su, s) == Some(s') || ServerStep(su, s) == Some(s') || CutShort(su, s, s')
  }

  ghost predicate StepAt(su: Setup, states: seq<State>, i: nat)
    requires Sane(su) && i + 1 < |states|
  {
    Next(su, states[i], states[i + 1])
  }

  /** Any interleaving of the two sides. */
  ghost predicate IsRun(su: Setup, states: seq<State>)
    requires Sane(su)
  {
    |states| > 0 && states[0] == Start && forall i: nat :: i < |states| - 1 ==> StepAt(su, states, i)
  }
}
