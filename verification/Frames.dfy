/** The frame codec of the multiplexer: pack, frameTransform, parse_frame and the read loop
    of Listen. */
module Frames {
  import opened ChaChaBlock
  import opened ChaChaStream
  import opened Connection

  const HEADER_LEN: nat := 8

  datatype Frame = Frame(action: Byte, sid: nat, body: seq<Byte>)

  predicate Sendable(f: Frame) {
    f.sid < 0x1_0000 && |f.body| < 0x1_0000
  }

  // ---- 16-bit fields ----

  /** The byte of value k, put together from its two halves. */
  function Octet(k: nat): Byte
    requires k < 256
  {
    ((k / 16) as Byte << 4) | (k % 16) as Byte
  }

  function High(n: nat): Byte
    requires n < 0x1_0000
  {
    Octet(n / 256)
  }

  function Low(n: nat): Byte { Octet(n % 256) }

  function Uint16(high: Byte, low: Byte): nat { high as int * 256 + low as int }

  lemma HalfRoundTrip(k: nat)
    requires k < 16
    ensures (k as Byte) as int == k && k as Byte < 16
  {}

  lemma JoinHalves(h: Byte, l: Byte)
    requires h < 16 && l < 16
    ensures ((h << 4) | l) as int == 16 * (h as int) + l as int
  {}

  lemma ByteRoundTrip(k: nat)
    requires k < 256
    ensures Octet(k) as int == k
  {
    HalfRoundTrip(k / 16);
    HalfRoundTrip(k % 16);
    JoinHalves((k / 16) as Byte, (k % 16) as Byte);
  }

  lemma Uint16RoundTrip(n: nat)
    requires n < 0x1_0000
    ensures Uint16(High(n), Low(n)) == n
  {
    hide Octet;
    ByteRoundTrip(n / 256);
    ByteRoundTrip(n % 256);
  }

  // ---- the header hash ----

  /** Two FNV-1a steps over a little-endian word and half word, folded to 16 bits. */
  function HashOf(a: Byte, b: Byte, c: Byte, d: Byte, e: Byte, f: Byte): bv32 {
    var u32 := a as bv32 | (b as bv32 << 8) | (c as bv32 << 16) | (d as bv32 << 24);
    var u16 := e as bv32 | (f as bv32 << 8);
    var h := (((2166136261 ^ u32) * 16777619) ^ u16) * 16777619;
    ((h >> 16) ^ h) & 0xffff
  }

  function Hash16Of6(b: seq<Byte>): bv32
    requires |b| >= 6
  {
    HashOf(b[0], b[1], b[2], b[3], b[4], b[5])
  }

  function HashHigh(h: bv32): Byte { ((h >> 8) & 0xff) as Byte }
  function HashLow(h: bv32): Byte { (h & 0xff) as Byte }
  function HashFrom(high: Byte, low: Byte): bv32 { (high as bv32 << 8) | low as bv32 }

  function SetHash(b: seq<Byte>): (r: seq<Byte>)
    requires |b| >= HEADER_LEN
    ensures |r| == |b|
  {
    hide HashOf, HashHigh, HashLow;
    b[6 := HashHigh(Hash16Of6(b))][7 := HashLow(Hash16Of6(b))]
  }

  predicate VerifyHash(b: seq<Byte>)
    requires |b| >= HEADER_LEN
  {
    Hash16Of6(b) == HashFrom(b[6], b[7])
  }

  lemma MaskTwice(h: bv32)
    ensures (((h >> 16) ^ h) & 0xffff) & 0xffff == ((h >> 16) ^ h) & 0xffff
  {}

  lemma HashMasked(a: Byte, b: Byte, c: Byte, d: Byte, e: Byte, f: Byte)
    ensures HashOf(a, b, c, d, e, f) & 0xffff == HashOf(a, b, c, d, e, f)
  {
    var u32 := a as bv32 | (b as bv32 << 8) | (c as bv32 << 16) | (d as bv32 << 24);
    var u16 := e as bv32 | (f as bv32 << 8);
    MaskTwice((((2166136261 ^ u32) * 16777619) ^ u16) * 16777619);
  }

  lemma HashFits(h: bv32)
    requires h & 0xffff == h
    ensures h == HashFrom(HashHigh(h), HashLow(h))
  {}

  /** A frame whose hash was set verifies, whatever follows its header. */
  lemma SetHashVerifies(b: seq<Byte>, input: seq<Byte>)
    requires |b| >= HEADER_LEN && |input| >= HEADER_LEN
    requires forall i :: 0 <= i < 8 ==> input[i] == SetHash(b)[i]
    ensures VerifyHash(input)
  {
    hide HashOf, HashHigh, HashLow, HashFrom;
    HashMasked(b[0], b[1], b[2], b[3], b[4], b[5]);
    HashFits(Hash16Of6(b));
  }

  // ---- writing ----

  /** The bytes pack leaves at the front of the buffer; 6 and 7 are still free. */
  function Packed(f: Frame, spare: seq<Byte>): (r: seq<Byte>)
    requires Sendable(f) && |spare| == 2
    ensures |r| == HEADER_LEN + |f.body|
  {
    [f.action, 0, High(f.sid), Low(f.sid), High(|f.body|), Low(|f.body|)] + spare + f.body
  }

  method CopyBody(buf: array<Byte>, body: seq<Byte>)
    requires HEADER_LEN + |body| <= buf.Length
    modifies buf
    ensures buf[..8] == old(buf[..8]) && buf[8..8 + |body|] == body && buf[8 + |body|..] == old(buf[8 + |body|..])
  {
    for i := 0 to |body|
      invariant buf[..8] == old(buf[..8]) && buf[8..8 + i] == body[..i] && buf[8 + i..] == old(buf[8 + i..])
    {
      assert buf[8 + i] == buf[8 + i..][0];
      buf[8 + i] := body[i];
      assert buf[8..8 + i + 1] == body[..i] + [body[i]];
      assert buf[8 + i + 1..] == old(buf[8 + i..])[1..];
    }
  }

  method WriteHeader(buf: array<Byte>, action: Byte, sid: nat, length: nat)
    requires sid < 0x1_0000 && length < 0x1_0000 && HEADER_LEN <= buf.Length
    modifies buf
    ensures buf[..6] == [action, 0, High(sid), Low(sid), High(length), Low(length)]
    ensures buf[6..] == old(buf[6..])
  {
    hide High, Low;
    buf[0], buf[1] := action, 0;
    buf[2], buf[3] := High(sid), Low(sid);
    buf[4], buf[5] := High(length), Low(length);
  }

  method Pack(buf: array<Byte>, action: Byte, sid: nat, body: seq<Byte>) returns (len: nat)
    requires sid < 0x1_0000 && |body| < 0x1_0000 && HEADER_LEN + |body| <= buf.Length
    modifies buf
    ensures len == HEADER_LEN + |body|
    ensures buf[..len] == Packed(Frame(action, sid, body), old(buf[6..8]))
    ensures buf[len..] == old(buf[len..])
  {
    hide High, Low;
    ghost var was := buf[..];
    len := |body| + HEADER_LEN;
    WriteHeader(buf, action, sid, |body|);
    assert buf[..8] == buf[..6] + was[6..8] by { assert buf[6..][..2] == was[6..][..2]; }
    assert buf[len..] == was[len..] by { assert buf[6..][len - 6..] == was[6..][len - 6..]; }
    CopyBody(buf, body);
    assert buf[..len] == buf[..8] + buf[8..len];
  }

  /** frameTransform: a long frame as it is, a short one with a random tail whose length is in
      byte 1.  `random` stands for the random array of theLen + 256 bytes. */
  function Wire(buf: seq<Byte>, random: seq<Byte>): seq<Byte>
    requires |buf| >= HEADER_LEN && |random| == |buf| + 256
  {
    if |buf| > 32 then SetHash(buf[1 := 0])
    else
      var box := buf + random[|buf|..];
      var vary := box[|box| - 1];
      SetHash(box[1 := vary])[..|buf| + vary as int]
  }

  method FrameTransform(buf: array<Byte>, random: array<Byte>) returns (out: seq<Byte>)
    requires buf.Length >= HEADER_LEN && random.Length == buf.Length + 256 && random != buf
    modifies buf, random
    ensures out == Wire(old(buf[..]), old(random[..]))
  {
    hide Hash16Of6, HashHigh, HashLow;
    var theLen := buf.Length;
    ghost var b, r := buf[..], random[..];
    if theLen > 32 {
      buf[1] := 0;
      ghost var cleared := b[1 := 0];
      assert buf[..] == cleared;
      SetHashAt6(buf);
      out := buf[..];
    } else {
      for i := 0 to theLen
        invariant forall k :: 0 <= k < i ==> random[k] == b[k]
        invariant forall k :: i <= k < random.Length ==> random[k] == r[k]
        invariant buf[..] == b
      {
        random[i] := buf[i];
      }
      ghost var box := b + r[theLen..];
      assert random[..] == box;
      random[1] := random[random.Length - 1];
      var vary := random[1] as int;
      assert random[..] == box[1 := box[|box| - 1]];
      SetHashAt6(random);
      out := random[..theLen + vary];
    }
  }

  method SetHashAt6(data: array<Byte>)
    requires data.Length >= HEADER_LEN
    modifies data
    ensures data[..] == SetHash(old(data[..]))
  {
    hide Hash16Of6, HashHigh, HashLow;
    var h := Hash16Of6(data[..]);
    data[6] := HashHigh(h);
    data[7] := HashLow(h);
  }

  // ---- reading ----

  datatype Read = Got(frame: Frame, rest: seq<Byte>) | Short | Tampered

  /** One turn of the read loop: header, hash, body and tail; the tail is dropped. */
  function ReadFrame(input: seq<Byte>): (r: Read)
    ensures r.Got? ==> |r.rest| < |input|
  {
    hide VerifyHash, Uint16;
    if |input| < HEADER_LEN then Short
    else if !VerifyHash(input) then Tampered
    else
      var length := Uint16(input[4], input[5]);
      var bodyLen := length + input[1] as int;
      if |input| < HEADER_LEN + bodyLen then Short
      else Got(Frame(input[0], Uint16(input[2], input[3]), input[HEADER_LEN..HEADER_LEN + length]),
               input[HEADER_LEN + bodyLen..])
  }

  datatype Decoded = Decoded(frames: seq<Frame>, left: seq<Byte>, end: Read)

  /** All frames the loop delivers before it stops, and what stopped it. */
  function Decode(input: seq<Byte>): Decoded
    decreases |input|
  {
    hide ReadFrame;
    match ReadFrame(input)
    case Got(f, rest) => var d := Decode(rest); Decoded([f] + d.frames, d.left, d.end)
    case other => Decoded([], input, other)
  }

  method Listen(input: seq<Byte>) returns (frames: seq<Frame>, left: seq<Byte>)
    ensures frames == Decode(input).frames && left == Decode(input).left
  {
    hide ReadFrame;
    frames, left := [], input;
    var more := true;
    while more
      invariant more ==> Decode(input) == Decoded(frames + Decode(left).frames, Decode(left).left, Decode(left).end)
      invariant !more ==> frames == Decode(input).frames && left == Decode(input).left
      decreases more, |left|
    {
      match ReadFrame(left)
      case Got(f, rest) =>
        assert frames + Decode(left).frames == (frames + [f]) + Decode(rest).frames;
        frames, left := frames + [f], rest;
      case other =>
        assert frames + [] == frames;
        more := false;
    }
  }

  // ---- round trip ----

  /** The read loop on a stream whose first header, body and tail are as given. */
  lemma ReadParts(input: seq<Byte>, f: Frame, vary: Byte, rest: seq<Byte>)
    requires Sendable(f) && |input| == HEADER_LEN + |f.body| + vary as int + |rest| && VerifyHash(input)
    requires input[..6] == [f.action, vary, High(f.sid), Low(f.sid), High(|f.body|), Low(|f.body|)]
    requires input[8..8 + |f.body|] == f.body && input[8 + |f.body| + vary as int..] == rest
    ensures ReadFrame(input) == Got(f, rest)
  {
    hide High, Low, Uint16, VerifyHash;
    Uint16RoundTrip(f.sid);
    Uint16RoundTrip(|f.body|);
    var h := input[..6];
    assert input[0] == h[0] && input[1] == h[1] && input[2] == h[2];
    assert input[3] == h[3] && input[4] == h[4] && input[5] == h[5];
  }

  /** What frameTransform makes of a packed frame, before the tail is cut. */
  function Boxed(p: seq<Byte>, random: seq<Byte>): (r: seq<Byte>)
    requires |p| >= HEADER_LEN && |random| == |p| + 256
    ensures |r| == if |p| > 32 then |p| else |p| + 256
  {
    if |p| > 32 then p[1 := 0] else (p + random[|p|..])[1 := random[|random| - 1]]
  }

  function VaryOf(p: seq<Byte>, random: seq<Byte>): Byte
    requires |p| >= HEADER_LEN && |random| == |p| + 256
  {
    if |p| > 32 then 0 else random[|random| - 1]
  }

  lemma WireShape(p: seq<Byte>, random: seq<Byte>)
    requires |p| >= HEADER_LEN && |random| == |p| + 256
    ensures |p| + VaryOf(p, random) as int <= |Boxed(p, random)|
    ensures Wire(p, random) == SetHash(Boxed(p, random))[..|p| + VaryOf(p, random) as int]
  {
    hide Hash16Of6, HashHigh, HashLow;
    VaryFits(VaryOf(p, random));
    if |p| <= 32 {
      var box := p + random[|p|..];
      assert box[|box| - 1] == random[|random| - 1];
    }
  }

  lemma SetHashKeeps(b: seq<Byte>, n: nat)
    requires HEADER_LEN <= n <= |b|
    ensures SetHash(b)[..6] == b[..6] && SetHash(b)[8..n] == b[8..n]
  {
    hide Hash16Of6, HashHigh, HashLow;
  }

  lemma PackedShape(f: Frame, spare: seq<Byte>)
    requires Sendable(f) && |spare| == 2
    ensures Packed(f, spare)[..6] == [f.action, 0, High(f.sid), Low(f.sid), High(|f.body|), Low(|f.body|)]
    ensures Packed(f, spare)[8..] == f.body
  {
    hide High, Low;
  }

  lemma BoxedKeeps(p: seq<Byte>, random: seq<Byte>)
    requires |p| >= HEADER_LEN && |random| == |p| + 256
    ensures Boxed(p, random)[..6] == p[..6][1 := VaryOf(p, random)]
    ensures Boxed(p, random)[8..|p|] == p[8..]
  {}

  lemma BoxedShape(f: Frame, spare: seq<Byte>, random: seq<Byte>)
    requires Sendable(f) && |spare| == 2 && |random| == HEADER_LEN + |f.body| + 256
    ensures var p := Packed(f, spare);
            var h := SetHash(Boxed(p, random));
            && h[..6] == [f.action, VaryOf(p, random), High(f.sid), Low(f.sid), High(|f.body|), Low(|f.body|)]
            && h[8..|p|] == f.body
  {
    hide High, Low, SetHash, Boxed, Packed, VaryOf;
    var p := Packed(f, spare);
    PackedShape(f, spare);
    BoxedKeeps(p, random);
    SetHashKeeps(Boxed(p, random), |p|);
  }

  /** What is on the wire for f starts the stream, and reading it gives f back. */
  lemma ReadWire(f: Frame, spare: seq<Byte>, random: seq<Byte>, rest: seq<Byte>)
    requires Sendable(f) && |spare| == 2 && |random| == HEADER_LEN + |f.body| + 256
    ensures ReadFrame(Wire(Packed(f, spare), random) + rest) == Got(f, rest)
  {
    hide High, Low, VerifyHash, SetHash, ReadFrame, Wire, Packed, Boxed, VaryOf;
    var p := Packed(f, spare);
    var vary := VaryOf(p, random);
    WireShape(p, random);
    BoxedShape(f, spare, random);
    var end := |p| + vary as int;
    var input := Wire(p, random) + rest;
    SetHashVerifies(Boxed(p, random), input);
    var h := SetHash(Boxed(p, random));
    assert input[..6] == h[..6] && input[8..|p|] == h[8..|p|];
    assert input[end..] == rest;
    ReadParts(input, f, vary, rest);
  }

  lemma VaryFits(v: Byte)
    ensures v as int <= 255 && (v == 0 ==> v as int == 0)
  {}

  /** One frame with the buffer content and the random array it is sent with. */
  datatype Sent = Sent(frame: Frame, spare: seq<Byte>, random: seq<Byte>)

  predicate WellFormed(s: Sent) {
    Sendable(s.frame) && |s.spare| == 2 && |s.random| == HEADER_LEN + |s.frame.body| + 256
  }

  predicate AllWellFormed(sent: seq<Sent>) {
    forall i :: 0 <= i < |sent| ==> WellFormed(sent[i])
  }

  function FramesOf(sent: seq<Sent>): seq<Frame> {
    if sent == [] then [] else [sent[0].frame] + FramesOf(sent[1..])
  }

  function Writes(sent: seq<Sent>): seq<seq<Byte>>
    requires AllWellFormed(sent)
  {
    if sent == [] then [] else [Wire(Packed(sent[0].frame, sent[0].spare), sent[0].random)] + Writes(sent[1..])
  }

  lemma {:induction false} ConcatFirst(first: seq<Byte>, chunks: seq<seq<Byte>>)
    ensures Concat([first] + chunks) == first + Concat(chunks)
    decreases |chunks|
  {
    if chunks == [] {
      ConcatAppend([], first);
      assert [] + [first] == [first] && [first] + chunks == [first];
      assert first + [] == first && [] + first == first;
    } else {
      var rest, last := chunks[..|chunks| - 1], chunks[|chunks| - 1];
      ConcatFirst(first, rest);
      ConcatAppend([first] + rest, last);
      assert [first] + chunks == ([first] + rest) + [last];
    }
  }

  /** Any sequence of frames, with any random tails, is read back exactly, and nothing is left. */
  lemma {:induction false} CodecRoundTrip(sent: seq<Sent>)
    requires AllWellFormed(sent)
    ensures Decode(Concat(Writes(sent))) == Decoded(FramesOf(sent), [], Short)
  {
    hide ReadFrame, Wire, Packed, Concat;
    if sent == [] {
      ConcatNone();
      ReadNothing();
    } else {
      var s := sent[0];
      CodecRoundTrip(sent[1..]);
      var first := Wire(Packed(s.frame, s.spare), s.random);
      ConcatFirst(first, Writes(sent[1..]));
      ReadWire(s.frame, s.spare, s.random, Concat(Writes(sent[1..])));
    }
  }

  lemma ReadNothing()
    ensures ReadFrame([]) == Short
  {}

  /** Frames written through one end of an encrypted connection and read, in pieces of any
      size, at the other. */
  method Tunnel(key: seq<Byte>, nonce: seq<Byte>, rounds: nat, sent: seq<Sent>, cuts: seq<nat>) returns (frames: seq<Frame>)
    requires |key| >= 32 && |nonce| >= 8 && AllWellFormed(sent)
    requires Total(cuts) == |Concat(Writes(sent))|
    ensures frames == FramesOf(sent)
  {
    hide Wire, Packed, Concat, Decode;
    var got := Exchange(key, nonce, rounds, Writes(sent), cuts);
    CodecRoundTrip(sent);
    var left;
    frames, left := Listen(Concat(got));
  }
}
