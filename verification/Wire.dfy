/** Bytes between two ends of a connection.  A connection starts with the null cipher and is
    switched to a stream cipher in the middle of the byte stream; every byte on the wire
    remembers the cipher state it was written with. */
module Wire {
  import opened BigEndian
  import opened Fields

  type Bytes = seq<Byte>

  /** One direction of a cipherKit: none, or a stream at a position. */
  datatype Cipher = Null | Xor(key: Bytes, iv: Bytes, pos: nat)

  /** The keystream and how it is mixed in. */
  datatype Kit = Kit(stream: (Bytes, Bytes, nat) -> Byte, mix: (Byte, Byte) -> Byte)

  ghost predicate Undoes(kit: Kit) {
    forall x, k :: kit.mix(kit.mix(x, k), k) == x
  }

  /** seal is what the writer's cipher was; no step looks at it. */
  datatype Cell = Cell(value: Byte, seal: Cipher)

  function Ahead(c: Cipher, n: nat): Cipher {
    if c.Null? then Null else c.(pos := c.pos + n)
  }

  function Coded(kit: Kit, c: Cipher, b: Byte): Byte {
    if c.Null? then b else kit.mix(b, kit.stream(c.key, c.iv, c.pos))
  }

  /** Conn.Write */
  function Seal(kit: Kit, c: Cipher, plain: Bytes): (r: seq<Cell>)
    ensures |r| == |plain|
    decreases |plain|
  {
    if plain == [] then [] else [Cell(Coded(kit, c, plain[0]), c)] + Seal(kit, Ahead(c, 1), plain[1..])
  }

  /** Conn.Read */
  function Open(kit: Kit, c: Cipher, cells: seq<Cell>): (r: Bytes)
    ensures |r| == |cells|
    decreases |cells|
  {
    if cells == [] then [] else [Coded(kit, c, cells[0].value)] + Open(kit, Ahead(c, 1), cells[1..])
  }

  /** Every byte is read with the very cipher state it was written with. */
  ghost predicate Matches(c: Cipher, cells: seq<Cell>) {
    forall i :: 0 <= i < |cells| ==> cells[i].seal == Ahead(c, i)
  }

  lemma {:induction false} OpenSeal(kit: Kit, c: Cipher, plain: Bytes)
    requires Undoes(kit)
    ensures Open(kit, c, Seal(kit, c, plain)) == plain
    decreases |plain|
  {
    if plain != [] {
      OpenSeal(kit, Ahead(c, 1), plain[1..]);
      assert Seal(kit, c, plain)[1..] == Seal(kit, Ahead(c, 1), plain[1..]);
    }
  }

  lemma {:induction false} SealMatches(kit: Kit, c: Cipher, plain: Bytes)
    ensures Matches(c, Seal(kit, c, plain))
    decreases |plain|
  {
    if plain != [] {
      SealMatches(kit, Ahead(c, 1), plain[1..]);
      var cells := Seal(kit, c, plain);
      forall i | 0 < i < |cells| ensures cells[i].seal == Ahead(c, i) {
        assert cells[i] == Seal(kit, Ahead(c, 1), plain[1..])[i - 1];
      }
    }
  }

  lemma {:induction false} SealConcat(kit: Kit, c: Cipher, x: Bytes, y: Bytes)
    ensures Seal(kit, c, x + y) == Seal(kit, c, x) + Seal(kit, Ahead(c, |x|), y)
    decreases |x|
  {
    if x == [] {
      assert x + y == y;
    } else {
      assert (x + y)[1..] == x[1..] + y;
      SealConcat(kit, Ahead(c, 1), x[1..], y);
    }
  }

  // ---- one read ----

  /** A fixed number of bytes, or a field with its length in n bytes. */
  datatype Demand = Raw(n: nat) | Prefixed(n: nat)

  function Encode(d: Demand, msg: Bytes): Bytes {
    if d.Raw? then msg else Field(d.n, msg)
  }

  predicate Fits(d: Demand, msg: Bytes) {
    if d.Raw? then |msg| == d.n else |msg| < Pow256(d.n)
  }

  datatype Received = Blocked | Got(buf: Bytes, rest: seq<Cell>, cipher: Cipher)

  function Take(kit: Kit, c: Cipher, wire: seq<Cell>, n: nat): Received {
    if |wire| < n then Blocked else Got(Open(kit, c, wire[..n]), wire[n..], Ahead(c, n))
  }

  /** io.ReadFull or ReadFullByLen on a connection. */
  function Recv(kit: Kit, c: Cipher, wire: seq<Cell>, d: Demand): Received {
    match d
    case Raw(n) => Take(kit, c, wire, n)
    case Prefixed(n) =>
      var head := Take(kit, c, wire, n);
      if head.Blocked? then Blocked else Take(kit, head.cipher, head.rest, Get(head.buf))
  }

  lemma TakeSealed(kit: Kit, c: Cipher, x: Bytes, more: seq<Cell>)
    requires Undoes(kit)
    ensures Take(kit, c, Seal(kit, c, x) + more, |x|) == Got(x, more, Ahead(c, |x|))
  {
    hide Open, Seal;
    var wire := Seal(kit, c, x) + more;
    assert wire[..|x|] == Seal(kit, c, x) && wire[|x|..] == more;
    OpenSeal(kit, c, x);
  }

  lemma AheadTwice(c: Cipher, m: nat, n: nat)
    ensures Ahead(Ahead(c, m), n) == Ahead(c, m + n)
  {}

  /** A message that fits, sealed with the reader's cipher state, is read back whole, and the
      reader is left at the next byte with the next cipher state. */
  lemma RecvSealed(kit: Kit, c: Cipher, d: Demand, msg: Bytes, more: seq<Cell>)
    requires Undoes(kit) && Fits(d, msg)
    ensures Recv(kit, c, Seal(kit, c, Encode(d, msg)) + more, d) == Got(msg, more, Ahead(c, |Encode(d, msg)|))
  {
    hide Seal, Open, Undoes, Put, Get, Pow256, Take;
    if d.Raw? {
      TakeSealed(kit, c, msg, more);
    } else {
      var head := Put(|msg|, d.n);
      var c' := Ahead(c, d.n);
      SealConcat(kit, c, head, msg);
      var wire := Seal(kit, c, Field(d.n, msg)) + more;
      assert wire == Seal(kit, c, head) + (Seal(kit, c', msg) + more);
      TakeSealed(kit, c, head, Seal(kit, c', msg) + more);
      GetPut(|msg|, d.n);
      TakeSealed(kit, c', msg, more);
      AheadTwice(c, d.n, |msg|);
    }
  }
}
