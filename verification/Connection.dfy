/** A tunnel connection: Conn.Write encrypts in place with one stream object, Conn.Read
    decrypts in place whatever the socket returned with another. */
module Connection {
  import opened ChaChaBlock
  import opened ChaChaStream

  // ---- one key, one keystream ----

  lemma LittleEndianInjective(x: Lane, y: Lane)
    requires LittleEndian(x) == LittleEndian(y)
    ensures x == y
  {
    var a, b := LittleEndian(x), LittleEndian(y);
    assert a[0] == b[0] && a[1] == b[1] && a[2] == b[2] && a[3] == b[3];
  }

  lemma CounterZero(g: Grid)
    requires Counter(g) == 0
    ensures g[12] == 0 && g[13] == 0
  {
    JoinZero(g[13], g[12]);
  }

  lemma JoinZero(high: Lane, low: Lane)
    requires Join(high, low) == 0
    ensures high == 0 && low == 0
  {}

  /** Key and nonce determine the grid, so two stream objects share one keystream. */
  lemma SetUpUnique(g: Grid, h: Grid, key: seq<Byte>, nonce: seq<Byte>)
    requires |key| >= 32 && |nonce| >= 8 && IsSetUp(g, key, nonce) && IsSetUp(h, key, nonce)
    ensures g == h
  {
    hide LittleEndian, Counter;
    CounterZero(g);
    CounterZero(h);
    forall j | 4 <= j < 12 ensures g[j] == h[j] { LittleEndianInjective(g[j], h[j]); }
    NonceWords(g[14], g[15], h[14], h[15]);
    assert g == h;
  }

  lemma NonceWords(a: Lane, b: Lane, c: Lane, d: Lane)
    requires LittleEndian(a) + LittleEndian(b) == LittleEndian(c) + LittleEndian(d)
    ensures a == c && b == d
  {
    hide LittleEndian;
    var l, r := LittleEndian(a) + LittleEndian(b), LittleEndian(c) + LittleEndian(d);
    assert l[..4] == LittleEndian(a) && l[4..] == LittleEndian(b);
    assert r[..4] == LittleEndian(c) && r[4..] == LittleEndian(d);
    LittleEndianInjective(a, c);
    LittleEndianInjective(b, d);
  }

  // ---- both ends ----

  method Buffer(data: seq<Byte>) returns (buf: array<Byte>)
    ensures fresh(buf) && buf[..] == data
  {
    buf := new Byte[|data|];
    for i := 0 to |data|
      invariant buf[..i] == data[..i]
    {
      buf[i] := data[i];
    }
  }

  /** One call on a copy of data: the in-place encryption or decryption of a buffer. */
  method RunInPlace(c: ChaCha, data: seq<Byte>) returns (out: seq<Byte>)
    requires c.Valid() && c.pos >= STREAM_SIZE
    modifies c, c.state, c.stream
    ensures c.Valid() && c.pos == old(c.pos) + |data| && c.state == old(c.state) && c.stream == old(c.stream)
    ensures out == Crypt(Keys(c.grid, c.rounds), old(c.pos) - STREAM_SIZE, data)
  {
    hide Crypt, ChaCha.Valid, Mix, Emitted, ChaCha.Emits, Keys;
    ghost var was := c.pos;
    var buf := Buffer(data);
    c.XORKeyStream(buf, buf);
    c.EmitsIsCrypt(was, data, buf[..]);
    out := buf[..];
  }

  function Total(cuts: seq<nat>): nat {
    if cuts == [] then 0 else Total(cuts[..|cuts| - 1]) + cuts[|cuts| - 1]
  }

  lemma {:induction false} TotalUpto(cuts: seq<nat>, i: nat)
    requires i <= |cuts|
    ensures Total(cuts[..i]) <= Total(cuts)
    decreases |cuts|
  {
    if i < |cuts| {
      var rest := cuts[..|cuts| - 1];
      assert rest[..i] == cuts[..i];
      TotalUpto(rest, i);
    } else {
      assert cuts[..i] == cuts;
    }
  }

  method WriteAll(w: ChaCha, sent: seq<seq<Byte>>) returns (wire: seq<Byte>)
    requires w.Valid() && w.pos == STREAM_SIZE
    modifies w, w.state, w.stream
    ensures wire == Crypt(Keys(w.grid, w.rounds), 0, Concat(sent))
  {
    hide Crypt, ChaCha.Valid, Keys, Concat;
    ghost var ks := Keys(w.grid, w.rounds);
    wire := [];
    CryptNothing(ks, 0);
    assert sent[..0] == [] && Concat([]) == [] by { ConcatNone(); }
    for i := 0 to |sent|
      invariant w.Valid() && w.state == old(w.state) && w.stream == old(w.stream)
      invariant w.pos == STREAM_SIZE + |Concat(sent[..i])|
      invariant wire == Crypt(ks, 0, Concat(sent[..i]))
    {
      var buf := RunInPlace(w, sent[i]);
      assert sent[..i + 1] == sent[..i] + [sent[i]];
      ConcatAppend(sent[..i], sent[i]);
      CryptConcat(ks, 0, Concat(sent[..i]), sent[i]);
      wire := wire + buf;
    }
    assert sent[..|sent|] == sent;
  }

  /** Reads of the given sizes take the wire apart at other places than the writes put it together. */
  method ReadAll(r: ChaCha, wire: seq<Byte>, cuts: seq<nat>) returns (got: seq<seq<Byte>>)
    requires r.Valid() && r.pos == STREAM_SIZE && Total(cuts) == |wire|
    modifies r, r.state, r.stream
    ensures |got| == |cuts| && forall i :: 0 <= i < |cuts| ==> |got[i]| == cuts[i]
    ensures Concat(got) == Crypt(Keys(r.grid, r.rounds), 0, wire)
  {
    hide Crypt, ChaCha.Valid, Keys, Concat;
    ghost var ks := Keys(r.grid, r.rounds);
    got := [];
    CryptNothing(ks, 0);
    ConcatNone();
    var at := 0;
    for i := 0 to |cuts|
      invariant r.Valid() && r.state == old(r.state) && r.stream == old(r.stream)
      invariant at == Total(cuts[..i]) <= |wire| && r.pos == STREAM_SIZE + at
      invariant |got| == i && forall k :: 0 <= k < i ==> |got[k]| == cuts[k]
      invariant Concat(got) == Crypt(ks, 0, wire[..at])
    {
      var to := at + cuts[i];
      TotalStep(cuts, i);
      TotalUpto(cuts, i + 1);
      var piece := wire[at..to];
      var buf := RunInPlace(r, piece);
      CryptSize(ks, at, piece);
      OneMorePiece(ks, wire, at, to, got, buf);
      got := got + [buf];
      at := to;
    }
    assert cuts[..|cuts|] == cuts && wire[..at] == wire;
  }

  /** What was read, and the next piece of the wire. */
  lemma OneMorePiece(ks: nat -> Byte, wire: seq<Byte>, at: nat, to: nat, got: seq<seq<Byte>>, buf: seq<Byte>)
    requires at <= to <= |wire| && Concat(got) == Crypt(ks, 0, wire[..at]) && buf == Crypt(ks, at, wire[at..to])
    ensures Concat(got + [buf]) == Crypt(ks, 0, wire[..to])
  {
    hide Crypt, Concat;
    CryptConcat(ks, 0, wire[..at], wire[at..to]);
    assert wire[..at] + wire[at..to] == wire[..to];
    ConcatAppend(got, buf);
  }

  lemma TotalStep(cuts: seq<nat>, i: nat)
    requires i < |cuts|
    ensures Total(cuts[..i + 1]) == Total(cuts[..i]) + cuts[i]
  {
    assert cuts[..i + 1][..i] == cuts[..i];
  }

  lemma ConcatNone()
    ensures Concat([]) == []
  {}

  lemma ConcatAppend(chunks: seq<seq<Byte>>, last: seq<Byte>)
    ensures Concat(chunks + [last]) == Concat(chunks) + last
  {
    assert (chunks + [last])[..|chunks|] == chunks;
  }

  lemma CryptSize(ks: nat -> Byte, pos: nat, data: seq<Byte>)
    ensures |Crypt(ks, pos, data)| == |data|
  {}

  /** A whole connection: whatever was written arrives, wherever the reads cut it. */
  method Exchange(key: seq<Byte>, nonce: seq<Byte>, rounds: nat, sent: seq<seq<Byte>>, cuts: seq<nat>)
    returns (got: seq<seq<Byte>>)
    requires |key| >= 32 && |nonce| >= 8 && Total(cuts) == |Concat(sent)|
    ensures Concat(got) == Concat(sent)
  {
    hide Crypt, IsSetUp;
    var w := new ChaCha(key, nonce, rounds);
    var r := new ChaCha(key, nonce, rounds);
    SetUpUnique(w.grid, r.grid, key, nonce);
    ghost var ks := Keys(w.grid, w.rounds);
    var wire := WriteAll(w, sent);
    CryptSize(ks, 0, Concat(sent));
    got := ReadAll(r, wire, cuts);
    CryptTwice(ks, 0, Concat(sent));
  }
}
