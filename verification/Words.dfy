/** Operations on 32-bit words, and the laws the hash macros rest on. */
module Words {
  /** Addition modulo 2^32. */
  function Plus(x: bv32, y: bv32): bv32 { x + y }

  /** The choice function of FIPS 180-3, and the forms with one operation less. */
  lemma ChooseBits(x: bv32, y: bv32, z: bv32)
    ensures z ^ (x & (y ^ z)) == (x & y) ^ (!x & z)
    ensures (x & (y ^ z)) ^ z == (x & y) ^ (!x & z)
  {
  }

  /** The majority function, and the two forms the macros use. */
  lemma MajorityBits(x: bv32, y: bv32, z: bv32)
    ensures (x & y) ^ (z & (x ^ y)) == (x & y) ^ (x & z) ^ (y & z)
    ensures ((x | y) & z) | (x & y) == (x & y) ^ (x & z) ^ (y & z)
  {
  }

  lemma PlusTurn(x: bv32, y: bv32)
    ensures Plus(x, y) == Plus(y, x)
  {
  }

  lemma SwapBits(x: bv32, y: bv32, z: bv32)
    ensures (x + y) + z == (x + z) + y
  {
  }

  lemma PlusSwap(x: bv32, y: bv32, z: bv32)
    ensures Plus(Plus(x, y), z) == Plus(Plus(x, z), y)
  {
    calc {
      Plus(Plus(x, y), z);
      Plus(x + y, z);
      (x + y) + z;
      { SwapBits(x, y, z); }
      (x + z) + y;
      Plus(x + z, y);
      Plus(Plus(x, z), y);
    }
  }

  /** The order in which the macros of SHA-1 add is not that of the standard. */
  lemma SumOrder(z: bv32, f: bv32, w: bv32, k: bv32, v: bv32)
    ensures Plus(z, Plus(Plus(Plus(f, w), k), v)) == Plus(Plus(Plus(Plus(v, f), z), k), w)
  {
    hide Plus;
    PlusTurn(z, Plus(Plus(Plus(f, w), k), v));
    PlusTurn(v, f);
    PlusSwap(Plus(f, w), k, v);
    PlusSwap(f, w, v);
    PlusSwap(Plus(Plus(f, v), w), k, z);
    PlusSwap(Plus(f, v), w, z);
    PlusSwap(Plus(Plus(f, v), z), w, k);
  }
}
