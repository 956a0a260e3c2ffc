/** The services an announcement offers, one bit each. */
module Services {
  /** The services of two announcements together. */
  function Both(a: bv64, b: bv64): bv64 { a | b }

  /** A service for one of these bits is offered. */
  predicate Offers(services: bv64, bits: bv64) { services & bits != 0 }

  lemma NoneNew(a: bv64, b: bv64, bits: bv64)
    ensures !Offers(a, bits) && !Offers(b, bits) ==> !Offers(Both(a, b), bits)
  {
  }

  lemma FirstKept(a: bv64, b: bv64, bits: bv64)
    ensures !Offers(Both(a, b), bits) ==> !Offers(a, bits)
  {
  }

  lemma SecondKept(a: bv64, b: bv64, bits: bv64)
    ensures !Offers(Both(a, b), bits) ==> !Offers(b, bits)
  {
  }

  /** Together they offer what either does, and no more. */
  lemma BothOffer(a: bv64, b: bv64, bits: bv64)
    ensures Offers(Both(a, b), bits) <==> Offers(a, bits) || Offers(b, bits)
  {
    hide Offers, Both;
    NoneNew(a, b, bits);
    FirstKept(a, b, bits);
    SecondKept(a, b, bits);
  }
}
