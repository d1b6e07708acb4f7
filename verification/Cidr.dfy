/** CIDR text: ParseCIDR, RangeCIDR and IPv4Itoa. */
module Cidr {
  import opened Bits
  import opened Nets

  const MASK32: Word := 0xffff_ffff

  /** The parser's two variables; Stopped once it has met a character it rejects. */
  datatype State = Running(ip: Word, m: Word) | Stopped(ip: Word, m: Word)

  function Step(st: State, c: char): State {
    if st.Stopped? then st
    else if '0' <= c <= '9' then Running(st.ip, (st.m * 10 + (c as int - '0' as int)) % WORD)
    else if c == '.' || c == '/' then Running(Or32(Shl(st.ip, 8), st.m), 0)
    else if c == ' ' then st
    else Stopped(st.ip, st.m)
  }

  function Run(st: State, s: string): State {
    if s == "" then st else Step(Run(st, s[..|s| - 1]), s[|s| - 1])
  }

  method ParseCIDR(s: string) returns (ip: Word, m: Word)
    ensures ip == Run(Running(0, 0), s).ip && m == Run(Running(0, 0), s).m
  {
    ip, m := 0, 0;
    for i := 0 to |s|
      invariant Run(Running(0, 0), s[..i]) == Running(ip, m)
    {
      assert s[..i + 1][..i] == s[..i];
      var c := s[i];
      if '0' <= c <= '9' {
        m := (m * 10 + (c as int - '0' as int)) % WORD;
      } else if c == '.' || c == '/' {
        ip, m := Or32(Shl(ip, 8), m), 0;
      } else if c == ' ' {
      } else {
        StoppedStays(Running(0, 0), s, i + 1);
        return;
      }
    }
    assert s[..|s|] == s;
  }

  lemma {:induction false} StoppedStays(st: State, s: string, i: nat)
    requires i <= |s| && Run(st, s[..i]).Stopped?
    ensures Run(st, s) == Run(st, s[..i])
    decreases |s|
  {
    if i == |s| {
      assert s[..i] == s;
    } else {
      var t := s[..|s| - 1];
      assert t[..i] == s[..i];
      StoppedStays(st, t, i);
    }
  }

  lemma {:induction false} OrBound(a: nat, b: nat, k: nat)
    requires a < Pow2(k) && b < Pow2(k)
    ensures Or(a, b) < Pow2(k)
  {
    if k > 0 && (a != 0 || b != 0) { OrBound(a / 2, b / 2, k - 1); }
  }

  function Or32(a: Word, b: Word): Word {
    Pow2At32();
    OrBound(a, b, 32);
    Or(a, b)
  }

  // ---- printing ----

  function Digit(d: nat): char
    requires d < 10
  {
    ('0' as int + d) as char
  }

  function Decimal(n: nat): string {
    if n < 10 then [Digit(n)] else Decimal(n / 10) + [Digit(n % 10)]
  }

  function Octet(i: Word, shift: nat): nat {
    Shr(i, shift) % 256
  }

  /** "%d.%d.%d.%d" */
  function IPv4Itoa(i: Word): string {
    Decimal(Shr(i, 24)) + "." + Decimal(Octet(i, 16)) + "." + Decimal(Octet(i, 8)) + "." + Decimal(Octet(i, 0))
  }

  lemma {:induction false} RunConcat(st: State, s: string, t: string)
    ensures Run(st, s + t) == Run(Run(st, s), t)
    decreases |t|
  {
    if t == "" {
      assert s + t == s;
    } else {
      var t' := t[..|t| - 1];
      assert (s + t)[..|s + t| - 1] == s + t';
      RunConcat(st, s, t');
    }
  }

  lemma {:induction false} RunDecimal(ip: Word, n: nat)
    requires n < WORD
    ensures Run(Running(ip, 0), Decimal(n)) == Running(ip, n)
    decreases n
  {
    if n < 10 {
      assert Decimal(n)[..0] == "";
    } else {
      RunDecimal(ip, n / 10);
      var s := Decimal(n);
      assert s[..|s| - 1] == Decimal(n / 10);
    }
  }

  /** One printed octet and its separator shift the address and add the octet. */
  lemma RunOctet(ip: nat, o: nat, c: char, rest: string)
    requires ip < 0x100_0000 && o < 256 && (c == '.' || c == '/')
    ensures Run(Running(ip, 0), Decimal(o) + [c] + rest) == Run(Running(ip * 256 + o, 0), rest)
  {
    hide Run, Decimal;
    RunConcat(Running(ip, 0), Decimal(o) + [c], rest);
    RunConcat(Running(ip, 0), Decimal(o), [c]);
    RunDecimal(ip, o);
    ShiftIn(ip, o);
    RunOne(Running(ip, o), c);
  }

  lemma RunOne(st: State, c: char)
    ensures Run(st, [c]) == Step(st, c)
  {
    assert [c][..0] == "";
  }

  lemma ShiftIn(ip: nat, o: nat)
    requires ip < 0x100_0000 && o < 256
    ensures Or32(Shl(ip, 8), o) == ip * 256 + o
  {
    hide Shl, Or, Double;
    assert Pow2(8) == 256;
    hide Pow2;
    ShlIs(ip, 8);
    DoubleIs(ip, 8);
    OrDisjoint(ip, o, 8);
  }

  lemma BytesOf(i: Word)
    ensures i / 0x100_0000 < 256
    ensures (((i / 0x100_0000) * 256 + (i / 0x1_0000) % 256) * 256 + (i / 0x100) % 256) * 256 + i % 256 == i
  {
    var a := i / 0x100;
    var b := a / 0x100;
    assert i / 0x1_0000 == b && i / 0x100_0000 == b / 0x100;
    assert b == (b / 0x100) * 256 + b % 256;
    assert a == b * 256 + a % 256;
  }

  lemma Octets(i: Word)
    ensures Shr(i, 24) < 256
    ensures ((Shr(i, 24) * 256 + Octet(i, 16)) * 256 + Octet(i, 8)) * 256 + Octet(i, 0) == i
  {
    hide Shr;
    ShrIs(i, 24);
    ShrIs(i, 16);
    ShrIs(i, 8);
    ShrIs(i, 0);
    Pow2At32();
    assert Pow2(8) == 256 && Pow2(0) == 1;
    Pow2Add(16, 8);
    hide Pow2;
    BytesOf(i);
  }

  /** Printing an address and a length and parsing the text gives both back. */
  lemma PrintParse(ip: Word, len: Word)
    ensures Run(Running(0, 0), IPv4Itoa(ip) + "/" + Decimal(len)) == Running(ip, len)
  {
    hide Run, Decimal, Shr;
    Octets(ip);
    var a, b, c, d := Shr(ip, 24), Octet(ip, 16), Octet(ip, 8), Octet(ip, 0);
    var tail := Decimal(len);
    var t3 := Decimal(d) + ['/'] + tail;
    var t2 := Decimal(c) + ['.'] + t3;
    var t1 := Decimal(b) + ['.'] + t2;
    assert IPv4Itoa(ip) + "/" + tail == Decimal(a) + ['.'] + t1;
    RunOctet(0, a, '.', t1);
    RunOctet(a, b, '.', t2);
    RunOctet(a * 256 + b, c, '.', t3);
    RunOctet((a * 256 + b) * 256 + c, d, '/', tail);
    RunDecimal(ip, len);
  }

  // ---- ranges ----

  function RangeLow(ip: Word, m: nat): Word
    requires m <= 32
  {
    Shl(Shr(ip, 32 - m), 32 - m)
  }

  function RangeHigh(ip: Word, m: nat): Word
    requires m <= 32
  {
    Or32(RangeLow(ip, m), Shr(MASK32, m))
  }

  lemma RangeEnds(ip: Word, m: nat)
    requires m <= 32
    ensures RangeLow(ip, m) == (ip / Pow2(32 - m)) * Pow2(32 - m)
    ensures RangeHigh(ip, m) == RangeLow(ip, m) + Pow2(32 - m) - 1
  {
    var k := 32 - m;
    var h, q := Pow2(k), ip / Pow2(k);
    ShrIs(ip, k);
    ShlIs(Shr(ip, k), k);
    DoubleIs(q, k);
    LowFits(ip, h);
    Pow2At32();
    Pow2Add(m, k);
    ShrIs(MASK32, m);
    LowMask(Pow2(m), h);
    OrDisjoint(q, h - 1, k);
  }

  lemma LowFits(ip: Word, h: nat)
    requires h > 0
    ensures (ip / h) * h <= ip
    ensures ((ip / h) * h) % WORD == (ip / h) * h
  {
    hide *;
    assert ip == (ip / h) * h + ip % h;
    DivUnique((ip / h) * h, WORD, 0, (ip / h) * h);
  }

  lemma LowMask(k: nat, h: nat)
    requires k > 0 && h > 0 && k * h == WORD
    ensures MASK32 / k == h - 1
  {
    MulDist(h - 1, 1, k);
    assert h * k == WORD;
    DivUnique(MASK32, k, h - 1, k - 1);
  }

  /** The range of a CIDR literal holds exactly the addresses its network matches. */
  lemma RangeIsMatch(ip: Word, m: nat, s: Word)
    requires m <= 32
    ensures RangeLow(ip, m) <= s <= RangeHigh(ip, m) <==> Matches(Net(ip, m), s)
  {
    hide Shr, Shl, Or32, Pow2;
    var h := Pow2(32 - m);
    RangeEnds(ip, m);
    ShrIs(ip, 32 - m);
    ShrIs(s, 32 - m);
    BlockOf(ip, s, h);
  }

  lemma BlockOf(a: nat, c: nat, h: nat)
    requires h > 0
    ensures (a / h) * h <= c <= (a / h) * h + h - 1 <==> a / h == c / h
  {
    hide *;
    var q := a / h;
    if q * h <= c <= q * h + h - 1 { DivUnique(c, h, q, c - q * h); }
    assert c == (c / h) * h + c % h;
  }

  lemma RangeLowCanonical(ip: Word, m: nat)
    requires m <= 32
    ensures Canonical(Net(RangeLow(ip, m), m))
  {
    hide Shr, Shl, Pow2;
    var k, h := 32 - m, Pow2(32 - m);
    RangeEnds(ip, m);
    var low := RangeLow(ip, m);
    ShrIs(low, k);
    DivUnique(low, h, ip / h, 0);
    ShrIs(ip, k);
  }
}
