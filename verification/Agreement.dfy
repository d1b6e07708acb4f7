/** What an honest handshake achieves: both sides parse exactly what the other wrote, hold the
    same key and IV, and switch to the cipher at the same byte of each direction. */
module Agreement {
  import opened BigEndian
  import opened Fields
  import opened Wire
  import opened Handshake
  import Hello

  /** Parameters behave like what they stand for, the clocks agree within the window, and
      every field keeps to the length its prefix can express. */
  ghost predicate Honest(su: Setup) {
    && Sane(su) && Hello.SixtyFourBits(su.sip) && su.minute in su.tc
    && Undoes(su.kit)
    && su.cr.shared(su.a, su.cr.pub(su.b)) == su.cr.shared(su.b, su.cr.pub(su.a))
    && (forall m :: su.cr.verify(su.cr.sign(m), m))
    && (forall m :: |su.cr.hash(m)| < 0x100)
    && |su.cr.pub(su.a)| < 0x1_0000 && |su.cr.pub(su.b)| < 0x100 && |su.cr.sign(su.cr.pub(su.b))| < 0x100
    && |su.sRand| < 0x100 && |su.user| + 1 + |su.pass| < 0x100
    && su.serverVersion < 0x1_0000_0000 && su.ping < 0x1_0000 && su.parallels < 0x1_0000 && |su.tokens| < 0x1_0000
    && |su.token| == TKSZ && su.sessions(su.token) == Some(su.resumeKey)
  }

  // ---- what is to be said, in order ----

  datatype Dir = Up | Down

  predicate Clean(su: Setup) { 0 !in su.user && 0 !in su.pass }

  function Hi(su: Setup): Bytes requires Sane(su) { HelloPart(Obf(su)) }

  function Key(su: Setup): Bytes
    requires Sane(su)
  {
    if su.kind.New? then su.cr.kdf(su.cr.shared(su.a, su.cr.pub(su.b)), Hi(su)) else su.resumeKey
  }

  function Iv(su: Setup): Bytes { if su.kind.New? then su.sRand else su.token }

  lemma ObfSize(su: Setup)
    requires Sane(su)
    ensures |Obf(su)| == |su.noise|
  {}

  function UpMsg(su: Setup, i: nat): Bytes
    requires Sane(su)
  {
    ObfSize(su);
    if i == 0 then Obf(su)[..Hello.DPH_P2]
    else if i == 1 then Obf(su)[Hello.DPH_P2..]
    else if su.kind.Resumed? then if i == 2 then su.token else su.laterUp
    else if i == 2 then su.cr.pub(su.a)
    else if i == 3 then su.cr.hash(su.sRand)
    else if i == 4 then su.user + [0] + su.pass
    else su.laterUp
  }

  function UpDemand(su: Setup, i: nat): Demand
    requires Sane(su)
  {
    if su.kind.New? && i == 2 then Prefixed(2)
    else if su.kind.New? && 3 <= i <= 4 then Prefixed(1)
    else Raw(|UpMsg(su, i)|)
  }

  function DownMsg(su: Setup, i: nat): Bytes
    requires Sane(su)
  {
    if su.kind.Resumed? then if i < 3 then [] else su.laterDown
    else if i == 0 then su.cr.pub(su.b)
    else if i == 1 then su.cr.sign(su.cr.pub(su.b))
    else if i == 2 then su.sRand
    else if i == 3 then su.cr.hash(Hi(su))
    else if i == 4 then Put(su.serverVersion, 4)
    else if i == 5 then if su.admits(su.user, su.pass) then [AUTH_PASS] else [0]
    else if i == 6 then Params(su)
    else if i == 7 then su.tokens
    else su.laterDown
  }

  function DownDemand(su: Setup, i: nat): Demand
    requires Sane(su)
  {
    if su.kind.Resumed? || i >= 8 then Raw(|DownMsg(su, i)|)
    else if i < 6 then Prefixed(1)
    else Prefixed(2)
  }

  function Msg(su: Setup, d: Dir, i: nat): Bytes requires Sane(su) { if d.Up? then UpMsg(su, i) else DownMsg(su, i) }
  function Ask(su: Setup, d: Dir, i: nat): Demand requires Sane(su) { if d.Up? then UpDemand(su, i) else DownDemand(su, i) }
  function Piece(su: Setup, d: Dir, i: nat): Bytes requires Sane(su) { Encode(Ask(su, d, i), Msg(su, d, i)) }

  lemma AllFit(su: Setup, d: Dir, i: nat)
    requires Honest(su)
    ensures Fits(Ask(su, d, i), Msg(su, d, i))
  {
    Widths();
    hide Pow256, Obf;
  }

  // ---- the wire ----

  /** The first three pieces of each direction go in the clear. */
  const SWITCH: nat := 3

  function Offset(su: Setup, d: Dir, i: nat): nat
    requires Sane(su)
  {
    if i <= SWITCH then 0 else Offset(su, d, i - 1) + |Piece(su, d, i - 1)|
  }

  function CipherAt(su: Setup, d: Dir, i: nat): Cipher
    requires Sane(su)
  {
    if i < SWITCH then Null else Xor(Key(su), Iv(su), Offset(su, d, i))
  }

  lemma CipherNext(su: Setup, d: Dir, i: nat)
    requires Sane(su) && i + 1 != SWITCH
    ensures Ahead(CipherAt(su, d, i), |Piece(su, d, i)|) == CipherAt(su, d, i + 1)
  {
    hide Piece, Key, Iv;
  }

  /** Pieces i to j - 1 as they lie on the wire. */
  function Cells(su: Setup, d: Dir, i: nat, j: nat): seq<Cell>
    requires Sane(su)
    decreases j
  {
    if j <= i then [] else Cells(su, d, i, j - 1) + Seal(su.kit, CipherAt(su, d, j - 1), Piece(su, d, j - 1))
  }

  lemma {:induction false} CellsFirst(su: Setup, d: Dir, i: nat, j: nat)
    requires Sane(su) && i < j
    ensures Cells(su, d, i, j) == Seal(su.kit, CipherAt(su, d, i), Piece(su, d, i)) + Cells(su, d, i + 1, j)
    decreases j
  {
    hide Seal, CipherAt, Piece;
    if i + 1 == j {
      assert Cells(su, d, i, i) == [] && Cells(su, d, i + 1, j) == [];
    } else {
      CellsFirst(su, d, i, j - 1);
    }
  }

  /** The reader's view: with its cipher where it should be, it gets the next message. */
  lemma ReadNext(su: Setup, d: Dir, i: nat, j: nat)
    requires Honest(su) && i < j
    ensures Recv(su.kit, CipherAt(su, d, i), Cells(su, d, i, j), Ask(su, d, i)) ==
            Got(Msg(su, d, i), Cells(su, d, i + 1, j), Ahead(CipherAt(su, d, i), |Piece(su, d, i)|))
    ensures Matches(CipherAt(su, d, i), Seal(su.kit, CipherAt(su, d, i), Piece(su, d, i)))
    ensures Cells(su, d, i, j) == Seal(su.kit, CipherAt(su, d, i), Piece(su, d, i)) + Cells(su, d, i + 1, j)
  {
    CellsFirst(su, d, i, j);
    AllFit(su, d, i);
    SealMatches(su.kit, CipherAt(su, d, i), Piece(su, d, i));
    hide CipherAt, Cells, Recv, Seal, Ask, Msg, Matches;
    RecvSealed(su.kit, CipherAt(su, d, i), Ask(su, d, i), Msg(su, d, i), Cells(su, d, i + 1, j));
  }

  lemma {:induction false} ReadNothing(su: Setup, d: Dir, i: nat)
    requires Sane(su)
    ensures Cells(su, d, i, i) == []
  {}

  /** One write of one, two or three pieces. */
  lemma WriteOne(su: Setup, d: Dir, i: nat, w: nat)
    requires Sane(su) && i <= w
    ensures Cells(su, d, i, w) + Seal(su.kit, CipherAt(su, d, w), Piece(su, d, w)) == Cells(su, d, i, w + 1)
  {}

  lemma SealOnto(kit: Kit, p: seq<Cell>, c: Cipher, x: Bytes, y: Bytes)
    ensures p + Seal(kit, c, x + y) == p + Seal(kit, c, x) + Seal(kit, Ahead(c, |x|), y)
    ensures Ahead(c, |x + y|) == Ahead(Ahead(c, |x|), |y|)
  {
    hide Seal;
    SealConcat(kit, c, x, y);
  }

  lemma WriteTwo(su: Setup, d: Dir, i: nat, w: nat)
    requires Sane(su) && i <= w && w + 1 != SWITCH
    ensures Cells(su, d, i, w) + Seal(su.kit, CipherAt(su, d, w), Piece(su, d, w) + Piece(su, d, w + 1)) == Cells(su, d, i, w + 2)
    ensures w + 2 != SWITCH ==> Ahead(CipherAt(su, d, w), |Piece(su, d, w) + Piece(su, d, w + 1)|) == CipherAt(su, d, w + 2)
  {
    hide *;
    var c, x, y := CipherAt(su, d, w), Piece(su, d, w), Piece(su, d, w + 1);
    SealOnto(su.kit, Cells(su, d, i, w), c, x, y);
    WriteOne(su, d, i, w);
    CipherNext(su, d, w);
    WriteOne(su, d, i, w + 1);
    if w + 2 != SWITCH { CipherNext(su, d, w + 1); }
  }

  lemma WriteThree(su: Setup, d: Dir, i: nat, w: nat)
    requires Sane(su) && i <= w && w + 1 != SWITCH && w + 2 != SWITCH
    ensures Cells(su, d, i, w) + Seal(su.kit, CipherAt(su, d, w), Piece(su, d, w) + Piece(su, d, w + 1) + Piece(su, d, w + 2)) == Cells(su, d, i, w + 3)
    ensures w + 3 != SWITCH ==>
              Ahead(CipherAt(su, d, w), |Piece(su, d, w) + Piece(su, d, w + 1) + Piece(su, d, w + 2)|) == CipherAt(su, d, w + 3)
  {
    hide *;
    var c, x, y := CipherAt(su, d, w), Piece(su, d, w) + Piece(su, d, w + 1), Piece(su, d, w + 2);
    SealOnto(su.kit, Cells(su, d, i, w), c, x, y);
    WriteTwo(su, d, i, w);
    WriteOne(su, d, i, w + 2);
    if w + 3 != SWITCH { CipherNext(su, d, w + 2); }
  }
}
