/** The ChaCha block function (sections 2.1 and 2.3 of RFC 8439) with the 64-bit block
    counter and 64-bit nonce of chacha_init. */
module ChaChaBlock {
  type Byte = bv8
  type Lane = bv32

  /** The 4x4 grid of words. */
  type Grid = g: seq<Lane> | |g| == 16 witness [0, 0, 0, 0, 0, 0, 0, 0, 0, 0, 0, 0, 0, 0, 0, 0]

  function Rotl16(x: Lane): Lane { (x << 16) | (x >> 16) }
  function Rotl12(x: Lane): Lane { (x << 12) | (x >> 20) }
  function Rotl8(x: Lane): Lane { (x << 8) | (x >> 24) }
  function Rotl7(x: Lane): Lane { (x << 7) | (x >> 25) }

  function QuarterRound(a: Lane, b: Lane, c: Lane, d: Lane): (Lane, Lane, Lane, Lane) {
    var a1 := a + b;
    var d1 := Rotl16(d ^ a1);
    var c1 := c + d1;
    var b1 := Rotl12(b ^ c1);
    var a2 := a1 + b1;
    var d2 := Rotl8(d1 ^ a2);
    var c2 := c1 + d2;
    var b2 := Rotl7(b1 ^ c2);
    (a2, b2, c2, d2)
  }

  /** The quarter round test vector of section 2.1.1 of RFC 8439. */
  lemma QuarterRoundVector()
    ensures QuarterRound(0x11111111, 0x01020304, 0x9b8d6f43, 0x01234567) == (0xea2a92f4, 0xcb1cf8ce, 0x4581472e, 0x5881c4bb)
  {}

  /** QUARTERROUND(a, b, c, d) on the grid. */
  function QRound(x: Grid, a: nat, b: nat, c: nat, d: nat): Grid
    requires a < 16 && b < 16 && c < 16 && d < 16
  {
    var (va, vb, vc, vd) := QuarterRound(x[a], x[b], x[c], x[d]);
    x[a := va][b := vb][c := vc][d := vd]
  }

  function ColumnRound(x: Grid): Grid {
    QRound(QRound(QRound(QRound(x, 0, 4, 8, 12), 1, 5, 9, 13), 2, 6, 10, 14), 3, 7, 11, 15)
  }

  function DiagonalRound(x: Grid): Grid {
    QRound(QRound(QRound(QRound(x, 0, 5, 10, 15), 1, 6, 11, 12), 2, 7, 8, 13), 3, 4, 9, 14)
  }

  function Rounds(x: Grid, n: nat): Grid {
    if n == 0 then x else DiagonalRound(ColumnRound(Rounds(x, n - 1)))
  }

  function AddGrids(x: Grid, y: Grid): Grid {
    [x[0] + y[0], x[1] + y[1], x[2] + y[2], x[3] + y[3], x[4] + y[4], x[5] + y[5], x[6] + y[6], x[7] + y[7],
     x[8] + y[8], x[9] + y[9], x[10] + y[10], x[11] + y[11], x[12] + y[12], x[13] + y[13], x[14] + y[14], x[15] + y[15]]
  }

  /** The words of one block: the rounds, added to the grid they started from. */
  function Block(g: Grid, rounds: nat): Grid {
    AddGrids(Rounds(g, rounds), g)
  }

  function LittleEndian(w: Lane): (r: seq<Byte>)
    ensures |r| == 4
  {
    [(w & 0xff) as Byte, ((w >> 8) & 0xff) as Byte, ((w >> 16) & 0xff) as Byte, ((w >> 24) & 0xff) as Byte]
  }

  function WordBytes(ws: seq<Lane>): (r: seq<Byte>)
    ensures |r| == 4 * |ws|
  {
    if ws == [] then [] else WordBytes(ws[..|ws| - 1]) + LittleEndian(ws[|ws| - 1])
  }

  function BlockBytes(g: Grid, rounds: nat): (r: seq<Byte>)
    ensures |r| == 64
  {
    WordBytes(Block(g, rounds))
  }

  // ---- the counter ----

  /** state[12]++, carried into state[13] */
  function NextGrid(g: Grid): Grid {
    var low := g[12] + 1;
    if low == 0 then g[12 := low][13 := g[13] + 1] else g[12 := low]
  }

  function GridAt(g: Grid, j: nat): Grid {
    if j == 0 then g else NextGrid(GridAt(g, j - 1))
  }

  function Join(high: Lane, low: Lane): bv64 {
    (high as bv64 << 32) | low as bv64
  }

  function Counter(g: Grid): bv64 {
    Join(g[13], g[12])
  }

  /** c advanced by j, modulo 2^64 */
  function Advance(c: bv64, j: nat): bv64 {
    if j == 0 then c else Advance(c, j - 1) + 1
  }

  lemma CarryStep(high: Lane, low: Lane)
    ensures low + 1 == 0 ==> Join(high + 1, low + 1) == Join(high, low) + 1
    ensures low + 1 != 0 ==> Join(high, low + 1) == Join(high, low) + 1
  {}

  lemma NextCounter(g: Grid)
    ensures Counter(NextGrid(g)) == Counter(g) + 1
  {
    hide Join, NextGrid;
    var high, low := g[13], g[12];
    NextWords(g, high, low);
    CarryStep(high, low);
  }

  lemma NextWords(g: Grid, high: Lane, low: Lane)
    requires high == g[13] && low == g[12]
    ensures NextGrid(g)[12] == low + 1
    ensures NextGrid(g)[13] == if low + 1 == 0 then high + 1 else high
    ensures forall i :: 0 <= i < 16 && i != 12 && i != 13 ==> NextGrid(g)[i] == g[i]
  {}

  /** Block j runs on the 64-bit counter advanced by j, everything else unchanged. */
  lemma {:induction false} CounterAt(g: Grid, j: nat)
    ensures Counter(GridAt(g, j)) == Advance(Counter(g), j)
    ensures forall i :: 0 <= i < 16 && i != 12 && i != 13 ==> GridAt(g, j)[i] == g[i]
  {
    hide Counter, NextGrid;
    if j > 0 {
      CounterAt(g, j - 1);
      var p := GridAt(g, j - 1);
      NextCounter(p);
      NextWords(p, p[13], p[12]);
    }
  }

  // ---- the grid set up from key and nonce ----

  function Uint32(b: seq<Byte>, at: nat): Lane
    requires at + 4 <= |b|
  {
    b[at] as Lane | (b[at + 1] as Lane << 8) | (b[at + 2] as Lane << 16) | (b[at + 3] as Lane << 24)
  }

  /** Reading a word and writing its bytes are inverse. */
  lemma WordRoundTrip(b: seq<Byte>, at: nat)
    requires at + 4 <= |b|
    ensures LittleEndian(Uint32(b, at)) == b[at..at + 4]
  {
    var r := LittleEndian(Uint32(b, at));
    assert r[0] == b[at] && r[1] == b[at + 1] && r[2] == b[at + 2] && r[3] == b[at + 3];
  }

  method Init(grid: array<Lane>, key: seq<Byte>, nonce: seq<Byte>)
    requires grid.Length == 16 && |key| >= 32 && |nonce| >= 8
    modifies grid
    ensures grid[0] == 0x61707865 && grid[1] == 0x3320646e && grid[2] == 0x79622d32 && grid[3] == 0x6b206574
    ensures forall j :: 4 <= j < 12 ==> LittleEndian(grid[j]) == key[4 * (j - 4)..4 * (j - 4) + 4]
    ensures Counter(grid[..]) == 0
    ensures LittleEndian(grid[14]) + LittleEndian(grid[15]) == nonce[..8]
  {
    hide LittleEndian, Uint32;
    grid[0], grid[1], grid[2], grid[3] := 0x61707865, 0x3320646e, 0x79622d32, 0x6b206574;
    for j := 0 to 8
      invariant grid[0] == 0x61707865 && grid[1] == 0x3320646e && grid[2] == 0x79622d32 && grid[3] == 0x6b206574
      invariant forall i :: 4 <= i < j + 4 ==> LittleEndian(grid[i]) == key[4 * (i - 4)..4 * (i - 4) + 4]
    {
      WordRoundTrip(key, 4 * j);
      grid[j + 4] := Uint32(key, 4 * j);
    }
    grid[12], grid[13] := 0, 0;
    WordRoundTrip(nonce, 0);
    WordRoundTrip(nonce, 4);
    grid[14] := Uint32(nonce, 0);
    grid[15] := Uint32(nonce, 4);
    assert nonce[..8] == nonce[0..4] + nonce[4..8];
  }
}
