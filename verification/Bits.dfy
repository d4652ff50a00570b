/** Facts about the bits of an int, on their own: they are cheap to decide as long as nothing else is
    around. */
module BitFacts {

  lemma OrMeets(c: bv32, bits: bv32, m: bv32)
    ensures ((c | bits) & m != 0) <==> (c & m != 0) || (bits & m != 0)
  {}

  lemma AndNotMeets(c: bv32, bits: bv32, m: bv32)
    ensures ((c & !bits) & m != 0) <==> c & (m & !bits) != 0
  {}
}

/** Sets of conditions, as the bits of an int. */
module Bits {

  import opened BitFacts

  function SetBits(c: bv32, bits: bv32): bv32 { c | bits }

  function ClearBits(c: bv32, bits: bv32): bv32 { c & !bits }

  /** Some condition of m is in c. */
  predicate Meets(c: bv32, m: bv32) { c & m != 0 }

  lemma MeetsOr(c: bv32, bits: bv32, m: bv32)
    ensures Meets(c | bits, m) <==> Meets(c, m) || Meets(bits, m)
  {
    OrMeets(c, bits, m);
  }

  lemma MeetsSet(c: bv32, bits: bv32, m: bv32)
    ensures Meets(SetBits(c, bits), m) <==> Meets(c, m) || Meets(bits, m)
  {
    hide Meets;
    MeetsOr(c, bits, m);
  }

  lemma MeetsAndNot(c: bv32, bits: bv32, m: bv32)
    ensures Meets(c & !bits, m) <==> Meets(c, m & !bits)
  {
    AndNotMeets(c, bits, m);
  }

  lemma MeetsCleared(c: bv32, bits: bv32, m: bv32)
    ensures Meets(ClearBits(c, bits), m) <==> Meets(c, m & !bits)
  {
    hide Meets;
    MeetsAndNot(c, bits, m);
  }
}
