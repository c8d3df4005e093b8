/**
 * `Check16`: the Internet checksum of section 4.1 of RFC 1071. 16-bit words
 * are added into a 32-bit accumulator; the checksum folds the carries back
 * into the low 16 bits (ones-complement addition) and inverts the result.
 */
module NetCheck {
  import opened NetTypes

  /**
   * The fold loop of `checksum`: the high half is added to the low half
   * until nothing is left above bit 15. The result is the ones-complement
   * form of `s` modulo 0xFFFF: zero only for zero, and 0xFFFF (the negative
   * zero) for every other multiple of 0xFFFF.
   */
  function Fold(s: nat): (r: u16)
    ensures r == if s == 0 then 0 else if s % 0xFFFF == 0 then 0xFFFF else s % 0xFFFF
    decreases s
  {
    if s < 0x1_0000 then s
    else
      var t := s % 0x1_0000 + s / 0x1_0000;
      FoldStepKeepsResidue(s);
      Fold(t)
  }

  /** A folded value folds to itself, so a second `checksum` returns the same result. */
  lemma FoldIsFolded(s: nat)
    ensures Fold(Fold(s)) == Fold(s)
  {
  }

  /** Adding the high half to the low half keeps the value modulo 0xFFFF, keeps it non-zero, and shrinks it. */
  lemma FoldStepKeepsResidue(s: nat)
    requires s >= 0x1_0000
    ensures var t := s % 0x1_0000 + s / 0x1_0000;
      0 < t < s && t % 0xFFFF == s % 0xFFFF
  {
    var q, r := s / 0x1_0000, s % 0x1_0000;
    assert s == q * 0xFFFF + (q + r);
    ModAddMultiple(q, q + r);
  }

  lemma ModAddMultiple(q: nat, x: nat)
    ensures (q * 0xFFFF + x) % 0xFFFF == x % 0xFFFF
  {
    var n := q * 0xFFFF + x;
    assert n == (q + x / 0xFFFF) * 0xFFFF + x % 0xFFFF;
    DivModUnique(n, q + x / 0xFFFF, x % 0xFFFF);
  }

  lemma DivModUnique(n: int, a: int, b: int)
    requires 0 <= b < 0xFFFF && n == a * 0xFFFF + b
    ensures n % 0xFFFF == b
  {
  }

  class Check16 {
    /** The 32-bit accumulator. */
    var sum: u32

    constructor ()
      ensures sum == 0
    {
      sum := 0;
    }

    method Clear()
      modifies this
      ensures sum == 0
    {
      sum := 0;
    }

    /** `operator+= (u16_t)`: the accumulator wraps at 32 bits. */
    method Add(rhs: u16)
      modifies this
      ensures sum == (old(sum) + rhs) % TwoTo32
    {
      sum := (sum + rhs) % TwoTo32;
    }

    /**
     * `checksum`: fold the accumulator in place, then invert its low 16 bits.
     * The folded value is left in the accumulator.
     */
    method Checksum() returns (c: u16)
      modifies this
      ensures sum == Fold(old(sum))
      ensures c == 0xFFFF - Fold(old(sum))
    {
      while sum >= 0x1_0000  // `sum >> 16` is not zero
        invariant Fold(sum) == Fold(old(sum))
        decreases sum
      {
        FoldStepKeepsResidue(sum);
        sum := sum % 0x1_0000 + sum / 0x1_0000;
      }
      c := 0xFFFF - sum;  // `~((u16_t) sum)`
    }
  }
}
