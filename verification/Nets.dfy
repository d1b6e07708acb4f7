/** CIDR networks: the first `len` bits of `data`, and the two relations the routing
    table is about, a network matching an address and a network covering another. */
module Nets {
  import opened Bits

  datatype Net = Net(data: Word, len: nat)

  /** Host bits are zero: masking with `>> (32-len) << (32-len)` changes nothing. */
  predicate Canonical(q: Net) {
    q.len <= 32 && Shl(Shr(q.data, 32 - q.len), 32 - q.len) == q.data
  }

  predicate Matches(q: Net, s: Word) {
    q.len <= 32 && Agree(q.data, s, q.len)
  }

  predicate Covers(q: Net, e: Net) {
    q.len <= e.len && Matches(q, e.data)
  }

  predicate ProperlyCovers(q: Net, e: Net) {
    q != e && Covers(q, e)
  }

  /** The sort order of entries: by data, then by length. */
  predicate Before(a: Net, b: Net) {
    a.data < b.data || (a.data == b.data && a.len < b.len)
  }

  lemma CoversTrans(a: Net, b: Net, c: Net)
    requires Covers(a, b) && Covers(b, c)
    ensures Covers(a, c)
  {
    AgreeShorter(b.data, c.data, a.len, b.len);
  }

  /** Two networks that match one address are nested. */
  lemma MatchesNested(a: Net, b: Net, s: Word)
    requires Matches(a, s) && Matches(b, s) && a.len <= b.len
    ensures Covers(a, b)
  {
    AgreeShorter(b.data, s, a.len, b.len);
  }

  lemma CanonicalLow(q: Net, s: Word)
    requires Canonical(q) && Agree(q.data, s, q.len)
    ensures q.data <= s
  {
    var h := Pow2(32 - q.len);
    ShrIs(q.data, 32 - q.len);
    ShlIs(Shr(q.data, 32 - q.len), 32 - q.len);
    ShrIs(s, 32 - q.len);
    MaskLow(q.data, s, h);
  }

  lemma BlockStart(s: nat, h: nat)
    requires h > 0
    ensures (s / h) * h <= s
  {}

  lemma SmallRemainder(x: nat)
    requires x < WORD
    ensures x % WORD == x
  {}

  lemma MaskLow(d: Word, s: Word, h: nat)
    requires h > 0 && d / h == s / h && ((d / h) * h) % WORD == d
    ensures d <= s
  {
    BlockStart(s, h);
    SmallRemainder((s / h) * h);
  }

  lemma CanonicalSame(a: Net, b: Net)
    requires Canonical(a) && Canonical(b) && a.len == b.len && Agree(a.data, b.data, a.len)
    ensures a == b
  {
    CanonicalLow(a, b.data);
    CanonicalLow(b, a.data);
  }

  lemma CoversBefore(q: Net, e: Net)
    requires Canonical(q) && ProperlyCovers(q, e)
    ensures Before(q, e)
  {
    CanonicalLow(q, e.data);
  }

  /** What a network covers is contiguous in the sort order. */
  lemma CoversBetween(q: Net, m: Net, e: Net)
    requires Canonical(q) && Canonical(m)
    requires Before(q, m) && Before(m, e) && Covers(q, e)
    ensures Covers(q, m)
  {
    AgreeBetween(q.data, m.data, e.data, q.len);
    if m.len < q.len {
      AgreeShorter(q.data, m.data, m.len, q.len);
      CanonicalLow(m, q.data);
    }
  }
}
