/** The obfuscated first packet: makeDbcHello on the client, verifyDbcHello on the server, and
    the list of minutes the server accepts.  SipHash is a parameter. */
module Hello {
  import opened BigEndian

  const DPH_LEN1: nat := 256
  const DPH_P2: nat := 256 + 8
  const DPH_MOD: nat := 65536
  const U64: nat := 0x1_0000_0000_0000_0000

  /** siphash.Hash(hKey, minute, data) */
  type Sip = (nat, nat, seq<Byte>) -> nat

  // ---- the minutes ----

  function Add64(x: nat, d: int): nat { (x + d) % U64 }

  /** Entry i: the present minute, then one back, one ahead, two back, two ahead... */
  function Shift(i: nat): int { if i % 2 == 1 then -((i + 1) / 2) else i / 2 }

  lemma ShiftSteps(i: nat)
    requires i > 0
    ensures Shift(i) == Shift(i - 1) + if i % 2 == 1 then -(i as int) else i as int
  {
    var m := i / 2;
    if i % 2 == 1 {
      assert i == 2 * m + 1 && Shift(i) == -(m + 1) && Shift(i - 1) == m;
    } else {
      assert i == 2 * m && Shift(i) == m && Shift(i - 1) == -m;
    }
  }

  lemma AddTwice(x: nat, a: int, b: int)
    ensures Add64(Add64(x, a), b) == Add64(x, a + b)
  {
    var q := (x + a) / U64;
    assert x + a == q * U64 + Add64(x, a);
    AddWraps(Add64(x, a) + b, q);
  }

  lemma {:induction false} AddWraps(y: int, q: int)
    ensures (y + q * U64) % U64 == y % U64
    decreases if q < 0 then -q else q
  {
    if q > 0 { AddWraps(y, q - 1); assert y + q * U64 == (y + (q - 1) * U64) + U64; }
    if q < 0 { AddWraps(y, q + 1); assert y + (q + 1) * U64 == (y + q * U64) + U64; }
  }

  /** The loop of calculateTimeCounter on 64-bit unsigned numbers. */
  method CalculateTimeCounter(now: nat, error: nat) returns (tc: seq<nat>)
    requires now < U64
    ensures |tc| == 2 * error + 1
    ensures forall i :: 0 <= i < |tc| ==> tc[i] == Add64(now, Shift(i))
  {
    hide Add64, Shift;
    tc := [];
    var cur, last := 0, now;
    for i := 0 to 2 * error + 1
      invariant |tc| == i && cur == 0
      invariant last == if i == 0 then now else Add64(now, Shift(i - 1))
      invariant forall k :: 0 <= k < i ==> tc[k] == Add64(now, Shift(k))
    {
      NextMinute(now, i);
      cur := Add64(cur, last);
      if i > 0 {
        if i % 2 == 1 {
          cur := Add64(cur, -i);
        } else {
          cur := Add64(cur, i);
        }
      }
      tc := tc + [cur];
      last, cur := cur, 0;
    }
  }

  lemma NextMinute(now: nat, i: nat)
    requires now < U64
    ensures i == 0 ==> Add64(0, now) == now == Add64(now, Shift(0))
    ensures i > 0 ==> Add64(Add64(0, Add64(now, Shift(i - 1))), if i % 2 == 1 then -(i as int) else i as int) == Add64(now, Shift(i))
  {
    if i > 0 {
      ShiftSteps(i);
      assert Add64(0, Add64(now, Shift(i - 1))) == Add64(now, Shift(i - 1)) by { hide Shift; }
      hide Add64, Shift;
      AddTwice(now, Shift(i - 1), if i % 2 == 1 then -(i as int) else i as int);
    }
  }

  /** They are exactly the minutes from now - error to now + error, each once. */
  lemma Window(now: nat, error: nat, minute: nat)
    requires error <= now && now + error < U64
    ensures now - error <= minute <= now + error <==> exists i: nat :: i < 2 * error + 1 && Add64(now, Shift(i)) == minute
    ensures forall i, j :: 0 <= i < j < 2 * error + 1 ==> Add64(now, Shift(i)) != Add64(now, Shift(j))
  {
    assert forall i: nat :: i < 2 * error + 1 ==> -(error as int) <= Shift(i) <= error && Add64(now, Shift(i)) == now + Shift(i);
    if now - error <= minute <= now + error {
      var i := if minute < now then 2 * (now - minute) - 1 else 2 * (minute - now);
      assert Shift(i) == minute - now;
      assert Add64(now, Shift(i)) == minute;
    }
  }

  // ---- making and verifying ----

  datatype Keys = Keys(pos: nat, sKey: nat, hKey: nat)

  /** The last ten bytes of the secret. */
  function ExtractKeys(secret: seq<Byte>): (k: Keys)
    requires |secret| >= 10
    ensures k.pos < 255 && k.sKey < DPH_MOD
  {
    var p := |secret| - 10;
    var s := Get(secret[p..p + 2]);
    GetBound(secret[p..p + 2]);
    Widths();
    Keys(s % 0xff, s, Get(secret[p + 2..]))
  }

  /** bs with the bytes x written at place `at`. */
  function Spliced(bs: seq<Byte>, at: nat, x: seq<Byte>): (r: seq<Byte>)
    requires at + |x| <= |bs|
    ensures |r| == |bs| && r[at..at + |x|] == x && r[..at] == bs[..at] && r[at + |x|..] == bs[at + |x|..]
  {
    bs[..at] + x + bs[at + |x|..]
  }

  /** The hello: noise with the type and the tail length hidden at pos and the hash behind. */
  function HelloOf(data: Byte, secret: seq<Byte>, minute: nat, sip: Sip, noise: seq<Byte>): seq<Byte>
    requires |secret| >= 10 && DPH_P2 <= |noise| < DPH_P2 + 256
  {
    var marked := Marked(data, ExtractKeys(secret), noise);
    Spliced(marked, DPH_LEN1, Put(sip(ExtractKeys(secret).hKey, minute, marked[..DPH_LEN1]), 8))
  }

  function Masked(len2: nat, data: Byte, sKey: nat): nat { (len2 * 256 + data + sKey) % DPH_MOD }

  function Marked(data: Byte, k: Keys, noise: seq<Byte>): (r: seq<Byte>)
    requires DPH_P2 <= |noise| < DPH_P2 + 256 && k.pos < 255
    ensures |r| == |noise|
  {
    Spliced(noise, k.pos, Put(Masked(|noise| - DPH_P2, data, k.sKey), 2))
  }

  method PutAt(buf: array<Byte>, at: nat, x: seq<Byte>)
    requires at + |x| <= buf.Length
    modifies buf
    ensures buf[..] == Spliced(old(buf[..]), at, x)
  {
    for i := 0 to |x|
      invariant buf[..] == old(buf[..])[..at] + x[..i] + old(buf[..])[at + i..]
    {
      ghost var was := buf[..];
      buf[at + i] := x[i];
      assert buf[..] == was[at + i := x[i]];
      assert x[..i + 1] == x[..i] + [x[i]];
    }
    assert x[..|x|] == x;
  }

  /** buf comes filled with random bytes. */
  method MakeDbcHello(data: Byte, secret: seq<Byte>, minute: nat, sip: Sip, buf: array<Byte>)
    requires |secret| >= 10 && DPH_P2 <= buf.Length < DPH_P2 + 256
    modifies buf
    ensures buf[..] == HelloOf(data, secret, minute, sip, old(buf[..]))
  {
    hide ExtractKeys, Put, Spliced;
    var k := ExtractKeys(secret);
    ghost var marked := Marked(data, k, buf[..]);
    var f := (buf.Length - DPH_P2) * 256 + data;
    f := (f + k.sKey) % DPH_MOD;
    PutAt(buf, k.pos, Put(f, 2));
    assert buf[..] == marked && buf[..DPH_LEN1] == marked[..DPH_LEN1];
    var sum := sip(k.hKey, minute, buf[..DPH_LEN1]);
    PutAt(buf, DPH_LEN1, Put(sum, 8));
  }

  /** Go's uint64 result */
  ghost predicate SixtyFourBits(sip: Sip) {
    forall k, m, d :: sip(k, m, d) < U64
  }

  /** What the two hidden bytes say once the key is taken off: the type and the tail length. */
  function Hidden(buf: seq<Byte>, k: Keys): (r: (Byte, nat))
    requires |buf| >= DPH_P2 && k.pos < 255 && k.sKey < DPH_MOD
    ensures r.1 < 256
  {
    var at := buf[k.pos..k.pos + 2];
    GetBound(at);
    Widths();
    var z := (Get(at) - k.sKey + DPH_MOD) % DPH_MOD;
    (z % 256, z / 256)
  }

  /** Some listed minute gives the hash that the hello carries. */
  predicate Trusts(buf: seq<Byte>, secret: seq<Byte>, tc: seq<nat>, sip: Sip)
    requires |buf| >= DPH_P2 && |secret| >= 10
  {
    exists i :: 0 <= i < |tc| && sip(ExtractKeys(secret).hKey, tc[i], buf[..DPH_LEN1]) == Get(buf[DPH_LEN1..DPH_P2])
  }

  method VerifyDbcHello(buf: seq<Byte>, secret: seq<Byte>, tc: seq<nat>, sip: Sip) returns (trusted: bool, data: Byte, len2: nat)
    requires |buf| >= DPH_P2 && |secret| >= 10
    ensures trusted <==> Trusts(buf, secret, tc, sip)
    ensures trusted ==> (data, len2) == Hidden(buf, ExtractKeys(secret))
    ensures !trusted ==> data == 0 && len2 == 0
  {
    trusted, data, len2 := false, 0, 0;
    var k := ExtractKeys(secret);
    var p1 := buf[..DPH_LEN1];
    var cltSum := Get(buf[DPH_LEN1..DPH_P2]);
    var i := 0;
    while !trusted && i < |tc|
      invariant i <= |tc|
      invariant trusted <==> exists j :: 0 <= j < i && sip(k.hKey, tc[j], p1) == cltSum
    {
      var sum := sip(k.hKey, tc[i], p1);
      trusted := cltSum == sum;
      i := i + 1;
    }
    if trusted {
      var h := Hidden(buf, k);
      data, len2 := h.0, h.1;
    }
  }

  lemma Unmask(len2: nat, data: nat, sKey: nat)
    requires len2 < 256 && data < 256 && sKey < DPH_MOD
    ensures ((len2 * 256 + data + sKey) % DPH_MOD - sKey + DPH_MOD) % DPH_MOD == len2 * 256 + data
  {}

  /** The first part of a hello carries its own minute's hash and hides its type and length. */
  lemma HelloParts(data: Byte, secret: seq<Byte>, minute: nat, sip: Sip, noise: seq<Byte>)
    requires |secret| >= 10 && DPH_P2 <= |noise| < DPH_P2 + 256 && SixtyFourBits(sip)
    ensures var h := HelloOf(data, secret, minute, sip, noise);
            var k := ExtractKeys(secret);
            && |h| == |noise| && h[DPH_P2..] == noise[DPH_P2..]
            && Get(h[DPH_LEN1..DPH_P2]) == sip(k.hKey, minute, h[..DPH_LEN1])
            && Hidden(h[..DPH_P2], k) == (data, |noise| - DPH_P2)
  {
    hide ExtractKeys, Put, Get, Spliced, Hidden, Masked;
    var k := ExtractKeys(secret);
    var len2 := |noise| - DPH_P2;
    var marked := Marked(data, k, noise);
    var sum := sip(k.hKey, minute, marked[..DPH_LEN1]);
    Slices(noise, k.pos, Put(Masked(len2, data, k.sKey), 2), Put(sum, 8));
    HashFits(sum);
    var h := HelloOf(data, secret, minute, sip, noise);
    hide HelloOf, Marked, SixtyFourBits;
    HiddenIs(h[..DPH_P2], k, data, len2);
  }

  lemma HashFits(sum: nat)
    requires sum < U64
    ensures Get(Put(sum, 8)) == sum
  {
    Widths();
    GetPut(sum, 8);
  }

  /** Where the parts of a hello lie. */
  lemma Slices(noise: seq<Byte>, pos: nat, f: seq<Byte>, sum: seq<Byte>)
    requires |noise| >= DPH_P2 && pos < 255 && |f| == 2 && |sum| == 8
    ensures var marked := Spliced(noise, pos, f);
            var h := Spliced(marked, DPH_LEN1, sum);
            && h[..DPH_LEN1] == marked[..DPH_LEN1] && h[DPH_LEN1..DPH_P2] == sum
            && h[..DPH_P2][pos..pos + 2] == f && h[DPH_P2..] == noise[DPH_P2..]
  {
    hide Spliced;
    var marked := Spliced(noise, pos, f);
    SliceKept(Spliced(marked, DPH_LEN1, sum), marked, pos);
    TailKept(noise, pos, f);
  }

  lemma SliceKept(h: seq<Byte>, m: seq<Byte>, at: nat)
    requires |h| == |m| >= DPH_P2 && at < 255 && h[..DPH_LEN1] == m[..DPH_LEN1]
    ensures h[..DPH_P2][at..at + 2] == m[at..at + 2]
  {
    assert h[..DPH_P2][at..at + 2] == h[..DPH_LEN1][at..at + 2];
    assert m[at..at + 2] == m[..DPH_LEN1][at..at + 2];
  }

  lemma TailKept(bs: seq<Byte>, at: nat, x: seq<Byte>)
    requires |bs| >= DPH_P2 && at + |x| <= DPH_P2
    ensures Spliced(bs, at, x)[DPH_P2..] == bs[DPH_P2..]
  {
    var r := Spliced(bs, at, x);
    assert r[DPH_P2..] == r[at + |x|..][DPH_P2 - at - |x|..];
    assert bs[DPH_P2..] == bs[at + |x|..][DPH_P2 - at - |x|..];
  }

  lemma HiddenIs(h: seq<Byte>, k: Keys, data: Byte, len2: nat)
    requires |h| == DPH_P2 && k.pos < 255 && k.sKey < DPH_MOD && len2 < 256
    requires h[k.pos..k.pos + 2] == Put(Masked(len2, data, k.sKey), 2)
    ensures Hidden(h, k) == (data, len2)
  {
    var f := (len2 * 256 + data + k.sKey) % DPH_MOD;
    Widths();
    GetPut(f, 2);
    Unmask(len2, data, k.sKey);
    hide Get, Put;
    var z := len2 * 256 + data;
    assert z / 256 == len2 && z % 256 == data;
  }

  /** A client whose clock is within the error of the server's: the hello is accepted, and
      the server learns its type and the length of its tail. */
  method HelloAccepted(data: Byte, secret: seq<Byte>, minute: nat, now: nat, error: nat, sip: Sip, noise: seq<Byte>)
    returns (trusted: bool, gotData: Byte, len2: nat)
    requires |secret| >= 10 && DPH_P2 <= |noise| < DPH_P2 + 256 && SixtyFourBits(sip)
    requires error <= now && now + error < U64 && now - error <= minute <= now + error
    ensures trusted && gotData == data && len2 == |noise| - DPH_P2
  {
    HelloParts(data, secret, minute, sip, noise);
    Window(now, error, minute);
    hide Shift, Add64, Hidden, Get;
    var buf := new Byte[|noise|](i requires 0 <= i < |noise| => noise[i]);
    assert buf[..] == noise;
    MakeDbcHello(data, secret, minute, sip, buf);
    var first := buf[..DPH_P2];
    var tc := CalculateTimeCounter(now, error);
    assert first[..DPH_LEN1] == buf[..DPH_LEN1] && first[DPH_LEN1..DPH_P2] == buf[DPH_LEN1..DPH_P2];
    trusted, gotData, len2 := VerifyDbcHello(first, secret, tc, sip);
  }
}
