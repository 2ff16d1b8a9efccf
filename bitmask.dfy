/** The completed bitmask of a client: a uint32_t with bit `tid` set when
    timer `tid` of the client has fired since the client last asked. */
module Bitmask {

  /** A bit number below 32 as the shift count of a uint32_t, counted up
      from 0 so that no conversion between integers and bit-vectors is
      needed. */
  function BitIndex(i: nat): bv5
    requires i < 32
  {
    if i == 0 then 0 else BitIndex(i - 1) + 1
  }

  /** The shift count is the bit number. */
  lemma {:induction false} IndexValue(i: nat)
    requires i < 32
    ensures BitIndex(i) as int == i
  {
    if i > 0 {
      IndexValue(i - 1);
    }
  }

  /** The uint32_t with only bit `x` set. */
  function Mask(x: bv5): bv32 {
    (1 as bv32) << x
  }

  /** BIT(i) of a uint32_t mask. */
  function Bit(i: nat): bv32
    requires i < 32
  {
    Mask(BitIndex(i))
  }

  /** Bit `x` of `m` is set. */
  predicate Has(m: bv32, x: bv5) {
    m & Mask(x) != 0
  }

  /** Bit `i` of `m` is set. */
  predicate HasBit(m: bv32, i: nat)
    requires i < 32
  {
    Has(m, BitIndex(i))
  }

  /** Or-ing in BIT(a) sets bit `a` and leaves every other bit as it was. */
  lemma SetBit(m: bv32, a: nat, b: nat)
    requires a < 32 && b < 32
    ensures HasBit(m | Bit(a), b) <==> HasBit(m, b) || a == b
  {
    SameIndex(a, b);
    SetMask(m, BitIndex(a), BitIndex(b));
  }

  /** Distinct bit numbers are distinct shift counts. */
  lemma SameIndex(a: nat, b: nat)
    requires a < 32 && b < 32
    ensures BitIndex(a) == BitIndex(b) <==> a == b
  {
    IndexValue(a);
    IndexValue(b);
  }

  lemma SetMask(m: bv32, x: bv5, y: bv5)
    ensures Has(m | Mask(x), y) <==> Has(m, y) || x == y
  {
    Shifts(m, x, y);
  }

  lemma Shifts(m: bv32, x: bv5, y: bv5)
    ensures (m | Mask(x)) & Mask(y) != 0 <==> m & Mask(y) != 0 || x == y
  {
  }

  /** BIT(i) has bit `i` set and no other. */
  lemma BitAlone(i: nat, j: nat)
    requires i < 32 && j < 32
    ensures HasBit(Bit(i), j) <==> i == j
  {
    SameIndex(i, j);
    Shifts(0, BitIndex(i), BitIndex(j));
  }

  /** `row` is `row0` with exactly the bits numbered in `bits` set in
      addition. */
  ghost predicate Added(row0: bv32, row: bv32, bits: set<nat>) {
    forall b: nat {:trigger HasBit(row, b)} :: b < 32 ==> (HasBit(row, b) <==> HasBit(row0, b) || b in bits)
  }

  /** Or-ing BIT(t) into `row` adds `t` to the bits it holds over `row0`. */
  lemma AddBit(row0: bv32, row: bv32, bits: set<nat>, t: nat)
    requires Added(row0, row, bits) && t < 32
    ensures Added(row0, row | Bit(t), bits + {t})
  {
    forall b: nat | b < 32
      ensures HasBit(row | Bit(t), b) <==> HasBit(row0, b) || b in bits + {t}
    {
      SetBit(row, t, b);
    }
  }
}
