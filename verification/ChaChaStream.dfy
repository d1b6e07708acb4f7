/** The buffered ChaCha stream: a 512-byte buffer and an offset behave like one unbuffered
    keystream, however the calls cut the data. */
module ChaChaStream {
  import opened ChaChaBlock

  const STREAM_SIZE: nat := 512
  const BLOCK_SIZE: nat := 64

  function Mix(x: Byte, k: Byte): Byte { x ^ k }

  lemma MixTwice(x: Byte, k: Byte)
    ensures Mix(Mix(x, k), k) == x
  {}

  /** Byte n of the keystream: byte n mod 64 of the block at counter n div 64. */
  function KeyByte(g: Grid, rounds: nat, n: nat): Byte {
    BlockBytes(GridAt(g, n / BLOCK_SIZE), rounds)[n % BLOCK_SIZE]
  }

  /** The keystream as a function of the position. */
  function Keys(g: Grid, rounds: nat): nat -> Byte {
    (n: nat) => KeyByte(g, rounds, n)
  }

  /** data combined with keystream bytes pos, pos+1, ... */
  function Crypt(ks: nat -> Byte, pos: nat, data: seq<Byte>): (r: seq<Byte>)
    ensures |r| == |data|
    ensures forall i :: 0 <= i < |data| ==> r[i] == Mix(data[i], ks(pos + i))
  {
    if data == [] then [] else Crypt(ks, pos, data[..|data| - 1]) + [Mix(data[|data| - 1], ks(pos + |data| - 1))]
  }

  // ---- chunking and inversion ----

  /** Two calls in a row are one call on the joined data. */
  lemma CryptConcat(ks: nat -> Byte, pos: nat, a: seq<Byte>, b: seq<Byte>)
    ensures Crypt(ks, pos, a + b) == Crypt(ks, pos, a) + Crypt(ks, pos + |a|, b)
  {
    hide Mix;
    var l, r := Crypt(ks, pos, a + b), Crypt(ks, pos, a) + Crypt(ks, pos + |a|, b);
    forall i | 0 <= i < |a + b| ensures l[i] == r[i] {
      if i >= |a| { assert pos + i == (pos + |a|) + (i - |a|); }
    }
  }

  lemma CryptTwice(ks: nat -> Byte, pos: nat, data: seq<Byte>)
    ensures Crypt(ks, pos, Crypt(ks, pos, data)) == data
  {
    hide Mix;
    var c := Crypt(ks, pos, data);
    forall i | 0 <= i < |data| ensures Crypt(ks, pos, c)[i] == data[i] {
      MixTwice(data[i], ks(pos + i));
    }
  }

  function Concat(chunks: seq<seq<Byte>>): seq<Byte> {
    if chunks == [] then [] else Concat(chunks[..|chunks| - 1]) + chunks[|chunks| - 1]
  }

  /** What a stream object returns for a sequence of calls, one result per call. */
  function CryptCalls(ks: nat -> Byte, pos: nat, calls: seq<seq<Byte>>): (r: seq<seq<Byte>>)
    ensures |r| == |calls|
  {
    if calls == [] then [] else
      var rest := calls[..|calls| - 1];
      CryptCalls(ks, pos, rest) + [Crypt(ks, pos + |Concat(rest)|, calls[|calls| - 1])]
  }

  /** The boundaries between calls do not matter. */
  lemma {:induction false} ChunksDoNotMatter(ks: nat -> Byte, pos: nat, calls: seq<seq<Byte>>)
    ensures Concat(CryptCalls(ks, pos, calls)) == Crypt(ks, pos, Concat(calls))
  {
    hide Crypt;
    if calls == [] {
      CryptNothing(ks, pos);
    } else {
      var rest, last := calls[..|calls| - 1], calls[|calls| - 1];
      ChunksDoNotMatter(ks, pos, rest);
      CryptConcat(ks, pos, Concat(rest), last);
      var done := CryptCalls(ks, pos, calls);
      assert done[..|done| - 1] == CryptCalls(ks, pos, rest);
    }
  }

  lemma CryptNothing(ks: nat -> Byte, pos: nat)
    ensures Crypt(ks, pos, []) == []
  {}

  /** A reader that cuts the ciphertext anywhere recovers what the writer's calls joined to. */
  lemma ReaderRecovers(ks: nat -> Byte, pos: nat, sent: seq<seq<Byte>>, received: seq<seq<Byte>>)
    requires Concat(received) == Concat(CryptCalls(ks, pos, sent))
    ensures Concat(CryptCalls(ks, pos, received)) == Concat(sent)
  {
    hide Crypt, CryptCalls;
    ChunksDoNotMatter(ks, pos, sent);
    ChunksDoNotMatter(ks, pos, received);
    CryptTwice(ks, pos, Concat(sent));
  }

  // ---- xor loops ----

  /** dst[at..at+n] was set to a ^ b, nothing else changed. */
  twostate predicate Xored(dst: array<Byte>, at: nat, src: array<Byte>, b: array<Byte>, bat: nat, n: nat)
    reads dst, src, b
  {
    && at + n <= dst.Length == src.Length && bat + n <= b.Length
    && (forall k :: at <= k < at + n ==> dst[k] == Mix(old(src[k]), old(b[bat + k - at])))
    && (forall k :: 0 <= k < dst.Length && !(at <= k < at + n) ==> dst[k] == old(dst[k]))
  }

  /** The same on the contents. */
  ghost predicate XoredSeq(was: seq<Byte>, now: seq<Byte>, at: nat, src: seq<Byte>, b: seq<Byte>, bat: nat, n: nat) {
    && at + n <= |was| == |now| == |src| && bat + n <= |b|
    && (forall k :: at <= k < at + n ==> now[k] == Mix(src[k], b[bat + k - at]))
    && (forall k :: 0 <= k < |was| && !(at <= k < at + n) ==> now[k] == was[k])
  }

  /** safeXORBytes(dst[at:], src[at:], b[bat:]) */
  method SafeXORBytes(dst: array<Byte>, src: array<Byte>, at: nat, b: array<Byte>, bat: nat) returns (n: nat)
    requires at <= dst.Length == src.Length && bat <= b.Length && b != dst
    modifies dst
    ensures n == if b.Length - bat < src.Length - at then b.Length - bat else src.Length - at
    ensures XoredSeq(old(dst[..]), dst[..], at, old(src[..]), b[..], bat, n)
  {
    hide Mix;
    n := src.Length - at;
    if b.Length - bat < n {
      n := b.Length - bat;
    }
    for i := 0 to n
      invariant forall k :: at <= k < at + i ==> dst[k] == Mix(old(src[k]), b[bat + k - at])
      invariant forall k :: 0 <= k < dst.Length && !(at <= k < at + i) ==> dst[k] == old(dst[k])
    {
      dst[at + i] := Mix(src[at + i], b[bat + i]);
    }
  }

  /** Bytes i..i+w of the range in one wide operation. */
  method XorWide(dst: array<Byte>, src: array<Byte>, at: nat, b: array<Byte>, bat: nat, w: nat)
    requires at + w <= dst.Length == src.Length && bat + w <= b.Length && b != dst
    modifies dst
    ensures Xored(dst, at, src, b, bat, w)
  {
    hide Mix;
    forall k | at <= k < at + w { dst[k] := Mix(src[k], b[bat + k - at]); }
  }

  method XorVectors(dst: array<Byte>, src: array<Byte>, at: nat, b: array<Byte>, bat: nat, count: nat)
    requires at + 16 * count <= dst.Length == src.Length && bat + 16 * count <= b.Length && b != dst
    modifies dst
    ensures Xored(dst, at, src, b, bat, 16 * count)
  {
    hide Mix;
    var i: nat, n: nat := 0, count;
    while n > 0
      invariant i + 16 * n == 16 * count && Xored(dst, at, src, b, bat, i)
    {
      XorWide(dst, src, at + i, b, bat + i, 16);
      i, n := i + 16, n - 1;
    }
  }

  method XorTail(dst: array<Byte>, src: array<Byte>, at: nat, b: array<Byte>, bat: nat, count: nat)
    requires at + count <= dst.Length == src.Length && bat + count <= b.Length && b != dst
    modifies dst
    ensures Xored(dst, at, src, b, bat, count)
  {
    hide Mix;
    var i: nat, rem: nat := 0, count;
    while rem > 0
      invariant i + rem == count && Xored(dst, at, src, b, bat, i)
    {
      dst[at + i] := Mix(src[at + i], b[bat + i]);
      i, rem := i + 1, rem - 1;
    }
  }

  /** fastXORBytes: 16 bytes at a time, then 8, then one at a time. */
  method FastXORBytes(dst: array<Byte>, src: array<Byte>, at: nat, b: array<Byte>, bat: nat, total: nat)
    requires at + total <= dst.Length == src.Length && bat + total <= b.Length && b != dst
    modifies dst
    ensures XoredSeq(old(dst[..]), dst[..], at, old(src[..]), b[..], bat, total)
  {
    XorInSteps(dst, src, at, b, bat, total);
    hide Mix;
  }

  method XorInSteps(dst: array<Byte>, src: array<Byte>, at: nat, b: array<Byte>, bat: nat, total: nat)
    requires at + total <= dst.Length == src.Length && bat + total <= b.Length && b != dst
    modifies dst
    ensures Xored(dst, at, src, b, bat, total)
  {
    hide Mix;
    var n := total / 16;
    var i, rem := 16 * n, total - 16 * n;
    XorVectors(dst, src, at, b, bat, n);
    if rem >= 8 {
      XorWide(dst, src, at + i, b, bat + i, 8);
      i, rem := i + 8, rem - 8;
    }
    XorTail(dst, src, at + i, b, bat + i, rem);
  }

  // ---- the stream object ----

  /** What the object emits: the zero buffer it is created with, then the keystream. */
  function Emitted(g: Grid, rounds: nat, n: nat): Byte {
    if n < STREAM_SIZE then 0 else KeyByte(g, rounds, n - STREAM_SIZE)
  }

  /** Byte k of block i of a refill is the next keystream byte. */
  lemma RefillByte(g: Grid, rounds: nat, turn: nat, i: nat, k: nat)
    requires i < 8 && k < BLOCK_SIZE
    ensures BlockBytes(GridAt(g, 8 * turn + i), rounds)[k] ==
            Emitted(g, rounds, STREAM_SIZE * (turn + 1) + i * BLOCK_SIZE + k)
  {
    hide BlockBytes, GridAt;
    var n := STREAM_SIZE * turn + i * BLOCK_SIZE + k;
    assert n / BLOCK_SIZE == 8 * turn + i && n % BLOCK_SIZE == k;
  }

  class ChaCha {
    var state: array<Lane>
    var stream: array<Byte>
    var offset: nat
    const rounds: nat
    ghost const grid: Grid
    ghost var pos: nat

    /** The buffer holds the 512 bytes around pos; the grid stands at the block after them. */
    ghost predicate Valid()
      reads this, state, stream
    {
      && state.Length == 16 && stream.Length == STREAM_SIZE
      && offset == pos % STREAM_SIZE
      && state[..] == GridAt(grid, 8 * (pos / STREAM_SIZE))
      && forall k :: 0 <= k < STREAM_SIZE ==> stream[k] == Emitted(grid, rounds, STREAM_SIZE * (pos / STREAM_SIZE) + k)
    }

    lemma Buffers()
      requires Valid()
      ensures state.Length == 16 && stream.Length == STREAM_SIZE && offset < STREAM_SIZE
    {}

    /** chacha_core: one block into the buffer, and the counter moves on. */
    method Core(at: nat)
      requires state.Length == 16 && at + BLOCK_SIZE <= stream.Length
      modifies state, stream
      ensures stream[at..at + BLOCK_SIZE] == BlockBytes(old(state[..]), rounds)
      ensures forall k :: 0 <= k < stream.Length && !(at <= k < at + BLOCK_SIZE) ==> stream[k] == old(stream[k])
      ensures state[..] == NextGrid(old(state[..]))
    {
      hide ColumnRound, DiagonalRound, WordBytes, NextGrid;
      ghost var g: Grid := state[..];
      var x: Grid := state[..];
      for i := 0 to rounds
        invariant x == Rounds(g, i) && state[..] == g && stream[..] == old(stream[..])
      {
        x := DiagonalRound(ColumnRound(x));
      }
      var bytes := WordBytes(AddGrids(x, state[..]));
      forall k | at <= k < at + BLOCK_SIZE { stream[k] := bytes[k - at]; }
      assert stream[at..at + BLOCK_SIZE] == bytes && state[..] == g;
      Tick(state);
    }

    static method Tick(state: array<Lane>)
      requires state.Length == 16
      modifies state
      ensures state[..] == NextGrid(old(state[..]))
    {
      ghost var g := state[..];
      state[12] := state[12] + 1;
      if state[12] == 0 {
        state[13] := state[13] + 1;
      }
    }

    /** The refill at the end of the buffer: the next eight blocks. */
    method Refill(ghost turn: nat)
      requires state.Length == 16 && stream.Length == STREAM_SIZE && state[..] == GridAt(grid, 8 * turn)
      modifies state, stream
      ensures state[..] == GridAt(grid, 8 * (turn + 1))
      ensures forall k :: 0 <= k < STREAM_SIZE ==> stream[k] == Emitted(grid, rounds, STREAM_SIZE * (turn + 1) + k)
    {
      hide BlockBytes, KeyByte, Emitted, NextGrid;
      for i := 0 to 8
        invariant state[..] == GridAt(grid, 8 * turn + i)
        invariant forall k :: 0 <= k < i * BLOCK_SIZE ==> stream[k] == Emitted(grid, rounds, STREAM_SIZE * (turn + 1) + k)
      {
        ghost var g := state[..];
        Core(i * BLOCK_SIZE);
        ghost var block := stream[i * BLOCK_SIZE..(i + 1) * BLOCK_SIZE];
        forall k | i * BLOCK_SIZE <= k < (i + 1) * BLOCK_SIZE
          ensures stream[k] == Emitted(grid, rounds, STREAM_SIZE * (turn + 1) + k)
        {
          RefillByte(grid, rounds, turn, i, k - i * BLOCK_SIZE);
          assert stream[k] == block[k - i * BLOCK_SIZE];
        }
      }
    }

    /** The stream moved from `was` by n bytes and combined them with data. */
    ghost predicate Emits(was: nat, data: seq<Byte>, out: seq<Byte>)
    {
      && |out| == |data|
      && forall k :: 0 <= k < |data| ==> out[k] == Mix(data[k], Emitted(grid, rounds, was + k))
    }

    /** The first `done` bytes of the output are right, the input from there on is unread. */
    ghost predicate Halfway(was: nat, data: seq<Byte>, out: seq<Byte>, unread: seq<Byte>, done: nat) {
      && |out| == |data| == |unread| && done <= |data|
      && (forall k :: 0 <= k < done ==> out[k] == Mix(data[k], Emitted(grid, rounds, was + k)))
      && (forall k :: done <= k < |data| ==> unread[k] == data[k])
    }

    /** One XOR of the next bytes with the buffer from the offset on. */
    lemma Extended(was: nat, data: seq<Byte>, out: seq<Byte>, unread: seq<Byte>, out': seq<Byte>, unread': seq<Byte>, done: nat, step: nat)
      requires Valid() && pos == was + done && offset + step <= STREAM_SIZE
      requires Halfway(was, data, out, unread, done)
      requires XoredSeq(out, out', done, unread, stream[..], offset, step) && ((unread' == out' && unread == out) || unread' == unread)
      ensures Halfway(was, data, out', unread', done + step)
    {
      hide Mix, Emitted, GridAt;
      var turn := pos / STREAM_SIZE;
      assert STREAM_SIZE * turn + offset == was + done;
      forall k | done <= k < done + step ensures out'[k] == Mix(data[k], Emitted(grid, rounds, was + k)) {
        var m := offset + k - done;
        assert stream[m] == Emitted(grid, rounds, STREAM_SIZE * turn + m);
        assert STREAM_SIZE * turn + m == was + k;
      }
    }

    lemma HalfwayStart(was: nat, data: seq<Byte>, out: seq<Byte>)
      requires |out| == |data|
      ensures Halfway(was, data, out, data, 0)
    {}

    lemma HalfwayEnd(was: nat, data: seq<Byte>, out: seq<Byte>, unread: seq<Byte>)
      requires Halfway(was, data, out, unread, |data|)
      ensures Emits(was, data, out)
    {}

    /** The end of a turn of the loop: move on in the buffer, refill it when it is used up. */
    method Advance(step: nat) returns (j: nat)
      requires Valid() && offset + step <= STREAM_SIZE
      modifies this`offset, this`pos, state, stream
      ensures Valid() && pos == old(pos) + step && j == offset < STREAM_SIZE && state == old(state) && stream == old(stream)
    {
      hide Emitted, GridAt;
      ghost var turn := pos / STREAM_SIZE;
      assert STREAM_SIZE * turn + offset == pos;
      j := offset + step;
      pos := pos + step;
      if j == STREAM_SIZE {
        assert pos == STREAM_SIZE * (turn + 1) && pos / STREAM_SIZE == turn + 1;
        j, offset := 0, 0;
        Refill(turn);
      } else {
        assert pos / STREAM_SIZE == turn && pos % STREAM_SIZE == j;
        offset := j;
      }
    }

    method XORKeyStream(dst: array<Byte>, src: array<Byte>)
      requires Valid() && dst.Length == src.Length && dst != stream && src != stream
      modifies this`offset, this`pos, state, stream, dst
      ensures Valid() && pos == old(pos) + dst.Length && state == old(state) && stream == old(stream)
      ensures Emits(old(pos), old(src[..]), dst[..])
    {
      Buffers();
      HalfwayStart(pos, src[..], dst[..]);
      hide Valid, Halfway, Emits, Mix, XoredSeq;
      var j, inlen, done := offset, dst.Length, 0;
      while inlen > 0
        invariant 0 <= inlen && done + inlen == dst.Length && j == offset < STREAM_SIZE == stream.Length
        invariant Valid() && pos == old(pos) + done && state == old(state) && stream == old(stream)
        invariant Halfway(old(pos), old(src[..]), dst[..], src[..], done)
      {
        var rem := STREAM_SIZE - j;
        var step := if rem <= inlen then rem else inlen;
        inlen := inlen - step;
        ghost var out, unread := dst[..], src[..];
        var n := SafeXORBytes(dst, src, done, stream, j);
        assert n == step;
        Extended(old(pos), old(src[..]), out, unread, dst[..], src[..], done, step);
        done := done + step;
        j := Advance(step);
      }
      HalfwayEnd(old(pos), old(src[..]), dst[..], src[..]);
    }

    /** chacha_xor, the C variant, with the wide XOR loop. */
    method ChaChaXor(dst: array<Byte>, src: array<Byte>)
      requires Valid() && dst.Length == src.Length && dst != stream && src != stream
      modifies this`offset, this`pos, state, stream, dst
      ensures Valid() && pos == old(pos) + dst.Length && state == old(state) && stream == old(stream)
      ensures Emits(old(pos), old(src[..]), dst[..])
    {
      Buffers();
      HalfwayStart(pos, src[..], dst[..]);
      hide Valid, Halfway, Emits, Mix, XoredSeq;
      var j, inlen, done := offset, dst.Length, 0;
      while inlen > 0
        invariant 0 <= inlen && done + inlen == dst.Length && j == offset < STREAM_SIZE == stream.Length
        invariant Valid() && pos == old(pos) + done && state == old(state) && stream == old(stream)
        invariant Halfway(old(pos), old(src[..]), dst[..], src[..], done)
      {
        var rem := STREAM_SIZE - j;
        var step := if rem <= inlen then rem else inlen;
        inlen := inlen - step;
        ghost var out, unread := dst[..], src[..];
        FastXORBytes(dst, src, done, stream, j, step);
        Extended(old(pos), old(src[..]), out, unread, dst[..], src[..], done, step);
        done := done + step;
        j := Advance(step);
      }
      HalfwayEnd(old(pos), old(src[..]), dst[..], src[..]);
    }

    /** NewChaCha: set up the grid, then run the zero buffer through the stream to fill it. */
    constructor (key: seq<Byte>, nonce: seq<Byte>, rounds: nat)
      requires |key| >= 32 && |nonce| >= 8
      ensures Valid() && pos == STREAM_SIZE && this.rounds == rounds / 2
      ensures fresh(state) && fresh(stream)
      ensures IsSetUp(grid, key, nonce)
    {
      var grid := new Lane[16];
      Init(grid, key, nonce);
      var zeros := new Byte[STREAM_SIZE](_ => 0);
      this.rounds := rounds / 2;
      this.state, this.stream, this.offset := grid, zeros, 0;
      this.grid, this.pos := grid[..], 0;
      new;
      var tmp := new Byte[STREAM_SIZE](_ => 0);
      XORKeyStream(tmp, tmp);
    }

    /** From here on, a call is the unbuffered cipher at the position reached so far. */
    lemma EmitsIsCrypt(was: nat, data: seq<Byte>, out: seq<Byte>)
      requires was >= STREAM_SIZE && Emits(was, data, out)
      ensures out == Crypt(Keys(grid, rounds), was - STREAM_SIZE, data)
    {
      hide Mix, KeyByte;
      var c := Crypt(Keys(grid, rounds), was - STREAM_SIZE, data);
      forall k | 0 <= k < |data| ensures out[k] == c[k] {
        assert was + k - STREAM_SIZE == (was - STREAM_SIZE) + k;
      }
    }
  }

  /** The grid chacha_init builds: constants, key words, zero counter, nonce words. */
  ghost predicate IsSetUp(g: Grid, key: seq<Byte>, nonce: seq<Byte>)
    requires |key| >= 32 && |nonce| >= 8
  {
    && g[0] == 0x61707865 && g[1] == 0x3320646e && g[2] == 0x79622d32 && g[3] == 0x6b206574
    && (forall j :: 4 <= j < 12 ==> LittleEndian(g[j]) == key[4 * (j - 4)..4 * (j - 4) + 4])
    && Counter(g) == 0
    && LittleEndian(g[14]) + LittleEndian(g[15]) == nonce[..8]
  }
}
