/** Unsigned numbers of k bytes, most significant byte first. */
module BigEndian {
  type Byte = x: int | 0 <= x < 256

  function Pow256(k: nat): nat { if k == 0 then 1 else 256 * Pow256(k - 1) }

  /** The low k bytes of n: what a conversion to the narrower type keeps. */
  function Put(n: nat, k: nat): (r: seq<Byte>)
    ensures |r| == k
    decreases k
  {
    if k == 0 then [] else Put(n / 256, k - 1) + [n % 256]
  }

  function Get(bs: seq<Byte>): nat {
    if bs == [] then 0 else Get(bs[..|bs| - 1]) * 256 + bs[|bs| - 1]
  }

  /** Reading back gives n, reduced to k bytes. */
  lemma {:induction false} GetPut(n: nat, k: nat)
    ensures n < Pow256(k) ==> Get(Put(n, k)) == n
    decreases k
  {
    if k > 0 {
      GetPut(n / 256, k - 1);
      var bs := Put(n, k);
      assert bs[..k - 1] == Put(n / 256, k - 1);
    }
  }

  lemma {:induction false} GetBound(bs: seq<Byte>)
    ensures Get(bs) < Pow256(|bs|)
    decreases |bs|
  {
    if bs != [] { GetBound(bs[..|bs| - 1]); }
  }

  lemma Widths()
    ensures Pow256(1) == 0x100 && Pow256(2) == 0x1_0000 && Pow256(4) == 0x1_0000_0000 && Pow256(8) == 0x1_0000_0000_0000_0000
  {
    assert Pow256(3) == 0x100_0000;
    assert Pow256(6) == 0x1_0000_0000_0000;
  }
}
