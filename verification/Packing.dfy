/** One trie node in one uint32: 5 bits of branch, 5 bits of skip, 22 bits of address. */
module Packing {
  import opened Bits

  const ADR_LIMIT: nat := 0x40_0000

  function GetSkip(node: Word): nat { Shr(node, 22) % 32 }
  function SetSkip(skip: Word): Word { Shl(skip, 22) }
  function GetBranch(node: Word): nat { Shr(node, 27) }
  function SetBranch(branch: Word): Word { Shl(branch, 27) }
  function GetAdr(node: Word): nat { node % ADR_LIMIT }

  lemma Pow2Fields()
    ensures Pow2(22) == ADR_LIMIT && Pow2(27) == 32 * ADR_LIMIT && Pow2(5) == 32
  {
    assert Pow2(11) == 2048;
    Pow2Add(11, 11);
    assert Pow2(5) == 32;
    Pow2Add(22, 5);
  }

  lemma ShlField(x: nat, p: nat)
    requires x < WORD && x * Pow2(p) < WORD
    ensures Shl(x, p) == Double(x, p) == x * Pow2(p)
  {
    hide *;
    ShlIs(x, p);
    DoubleIs(x, p);
  }

  lemma PackIs(branch: nat, skip: nat, adr: nat)
    requires branch < 32 && skip < 32 && adr < ADR_LIMIT
    ensures Or(Or(SetBranch(branch), SetSkip(skip)), adr) == (branch * 32 + skip) * ADR_LIMIT + adr
  {
    hide Shl, Or, Double, Pow2;
    Pow2Fields();
    ShlField(branch, 27);
    ShlField(skip, 22);
    DoubleIs(branch * 32 + skip, 22);
    OrDisjoint(branch, SetSkip(skip), 27);
    OrDisjoint(branch * 32 + skip, adr, 22);
  }

  /** `SETBRANCH(branch) | SETSKIP(skip) | adr` */
  function Pack(branch: nat, skip: nat, adr: nat): (node: Word)
    requires branch < 32 && skip < 32 && adr < ADR_LIMIT
    ensures GetBranch(node) == branch && GetSkip(node) == skip && GetAdr(node) == adr
  {
    PackIs(branch, skip, adr);
    Unpack(branch, skip, adr);
    Or(Or(SetBranch(branch), SetSkip(skip)), adr)
  }

  lemma Unpack(branch: nat, skip: nat, adr: nat)
    requires branch < 32 && skip < 32 && adr < ADR_LIMIT
    ensures var node := (branch * 32 + skip) * ADR_LIMIT + adr;
            node < WORD && GetBranch(node) == branch && GetSkip(node) == skip && GetAdr(node) == adr
  {
    hide Shr, Pow2;
    var node := (branch * 32 + skip) * ADR_LIMIT + adr;
    Pow2Fields();
    ShrIs(node, 27);
    ShrIs(node, 22);
    DivUnique(node, ADR_LIMIT, branch * 32 + skip, adr);
    DivUnique(node, 32 * ADR_LIMIT, branch, skip * ADR_LIMIT + adr);
  }

  /** A bare base index reads back as a leaf. */
  lemma LeafNode(index: nat)
    requires index < ADR_LIMIT
    ensures GetBranch(index) == 0 && GetSkip(index) == 0 && GetAdr(index) == index
  {
    Unpack(0, 0, index);
  }
}
