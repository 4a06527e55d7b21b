/**
 * Netmasks of `route` directives. A mask of p leading ones becomes the prefix length p, any other
 * mask the length 32; the addresses `route a m` covers are those of the emitted `a/p` exactly when
 * the mask is of the first kind.
 */
module Netmask {
  import opened Powers

  const WORD: nat := 0x1_0000_0000

  // ---------------------------------------------------------------------- the program

  /** Length of the run of ones at the top of a `width`-bit number. */
  function LeadingOnes(bits: nat, width: nat): nat
    requires bits < Pow2(width)
  {
    if width > 0 && bits >= Pow2(width - 1) then 1 + LeadingOnes(bits - Pow2(width - 1), width - 1) else 0
  }

  /** `u32::MAX.checked_shl(n).unwrap_or(0)`: the bits pushed past the top are lost. */
  function ShiftedOnes(n: nat): nat {
    if n >= 32 then 0 else (WORD - 1) * Pow2(n) % WORD
  }

  function NetmaskToPrefix(bits: nat): nat
    requires bits < WORD
  {
    Pow2At32();
    if bits == 0 then 0
    else
      var leading := LeadingOnes(bits, 32);
      LeadingOnesBound(bits, 32);
      if bits == ShiftedOnes(32 - leading) then leading else 32
  }

  // ---------------------------------------------------------------------- what masks mean

  /** The mask of `p` leading ones in a `width`-bit number. */
  function PrefixMask(p: nat, width: nat): nat
    requires p <= width
  {
    Pow2Monotone(width - p, width);
    Pow2(width) - Pow2(width - p)
  }

  predicate Canonical(mask: nat) {
    exists p :: 0 <= p <= 32 && mask == PrefixMask(p, 32)
  }

  /** Bitwise conjunction. */
  function And(x: nat, y: nat): nat {
    if x == 0 || y == 0 then 0 else x % 2 * (y % 2) + 2 * And(x / 2, y / 2)
  }

  /** The kernel routes `x` by `route address mask`. */
  predicate Routed(address: nat, mask: nat, x: nat) {
    And(x, mask) == And(address, mask)
  }

  /** `x` lies in the block `address/p`: the top `p` of the 32 bits agree. */
  predicate InBlock(address: nat, p: nat, x: nat)
    requires p <= 32
  {
    x / Pow2(32 - p) == address / Pow2(32 - p)
  }

  // ---------------------------------------------------------------------- leading ones

  lemma Pow2At32()
    ensures Pow2(32) == WORD
  {
    assert Pow2(8) == 256;
    assert Pow2(16) == 0x1_0000;
    assert Pow2(24) == 0x100_0000;
  }

  lemma {:induction false} LeadingOnesBound(bits: nat, width: nat)
    requires bits < Pow2(width)
    ensures LeadingOnes(bits, width) <= width
  {
    if width > 0 && bits >= Pow2(width - 1) {
      LeadingOnesBound(bits - Pow2(width - 1), width - 1);
    }
  }

  lemma {:induction false} LeadingOnesOfMask(p: nat, width: nat)
    requires p <= width
    ensures PrefixMask(p, width) < Pow2(width)
    ensures LeadingOnes(PrefixMask(p, width), width) == p
  {
    Pow2Monotone(width - p, width);
    if p == 0 {
      assert PrefixMask(0, width) == 0;
    } else {
      Pow2Monotone(width - p, width - 1);
      LeadingOnesOfMask(p - 1, width - 1);
      assert PrefixMask(p, width) - Pow2(width - 1) == PrefixMask(p - 1, width - 1);
    }
  }

  lemma ShiftedOnesIsMask(n: nat)
    requires n <= 32
    ensures ShiftedOnes(n) == PrefixMask(32 - n, 32)
  {
    Pow2At32();
    if n < 32 {
      var k := Pow2(n);
      Pow2Monotone(n, 31);
      assert Pow2(32) == 2 * Pow2(31);
      assert (WORD - 1) * k == WORD * (k - 1) + (WORD - k);
      Remainder(k - 1, WORD - k);
    }
  }

  lemma Remainder(q: nat, r: nat)
    requires r < WORD
    ensures (WORD * q + r) % WORD == r
  {
  }

  /** For every p in 0..32, p leading ones translate back to p. */
  lemma PrefixRoundTrip(p: nat)
    requires p <= 32
    ensures PrefixMask(p, 32) < WORD && NetmaskToPrefix(PrefixMask(p, 32)) == p
  {
    Pow2At32();
    LeadingOnesOfMask(p, 32);
    ShiftedOnesIsMask(32 - p);
    if p > 0 {
      Pow2Monotone(32 - p, 31);
      assert Pow2(32) == 2 * Pow2(31);
    }
  }

  /** Every mask that is not a run of leading ones is taken for a single host. */
  lemma OtherMasksAreHosts(bits: nat)
    requires bits < WORD && !Canonical(bits)
    ensures NetmaskToPrefix(bits) == 32
  {
    Pow2At32();
    LeadingOnesBound(bits, 32);
    ShiftedOnesIsMask(32 - LeadingOnes(bits, 32));
    assert PrefixMask(0, 32) == 0;
  }

  // ---------------------------------------------------------------------- addresses

  lemma {:induction false} AndOnes(x: nat, p: nat)
    requires x < Pow2(p)
    ensures And(x, Pow2(p) - 1) == x
  {
    if p > 0 && x > 0 {
      AndOnes(x / 2, p - 1);
      assert (Pow2(p) - 1) / 2 == Pow2(p - 1) - 1;
    }
  }

  /** `x` shifted `k` bits up. */
  function Up(x: nat, k: nat): nat {
    if k == 0 then x else 2 * Up(x, k - 1)
  }

  /** `x` shifted `k` bits down. */
  function Down(x: nat, k: nat): nat {
    if k == 0 then x else Down(x / 2, k - 1)
  }

  lemma {:induction false} AndUp(x: nat, mask: nat, k: nat)
    ensures And(x, Up(mask, k)) == Up(And(Down(x, k), mask), k)
  {
    if k > 0 {
      AndUp(x / 2, mask, k - 1);
      AndEven(x, Up(mask, k - 1));
    }
  }

  lemma AndEven(x: nat, half: nat)
    ensures And(x, 2 * half) == 2 * And(x / 2, half)
  {
  }

  lemma {:induction false} UpInjective(x: nat, y: nat, k: nat)
    ensures Up(x, k) == Up(y, k) <==> x == y
  {
    if k > 0 {
      UpInjective(x, y, k - 1);
    }
  }

  lemma {:induction false} UpOfOnes(p: nat, k: nat)
    ensures Up(Pow2(p) - 1, k) == Pow2(p + k) - Pow2(k)
  {
    if k > 0 {
      UpOfOnes(p, k - 1);
    }
  }

  lemma {:induction false} DownBound(x: nat, p: nat, k: nat)
    requires x < Pow2(p + k)
    ensures Down(x, k) < Pow2(p)
  {
    if k > 0 {
      DownBound(x / 2, p, k - 1);
    }
  }

  lemma {:induction false} DownIsDivision(x: nat, k: nat)
    ensures Down(x, k) == x / Pow2(k)
  {
    if k > 0 {
      DownIsDivision(x / 2, k - 1);
      DivTwice(x, Pow2(k - 1));
    }
  }

  lemma DivTwice(x: nat, d: nat)
    requires d > 0
    ensures x / 2 / d == x / (2 * d)
  {
    var q, r := x / 2 / d, x / 2 % d;
    assert x / 2 == d * q + r;
    var low := 2 * r + x % 2;
    assert x == 2 * d * q + low by {
      assert x == 2 * (d * q + r) + x % 2;
      assert 2 * (d * q) == 2 * d * q;
    }
    QuotientUnique(x, 2 * d, q, low);
  }

  lemma QuotientUnique(x: nat, d: nat, q: nat, r: nat)
    requires d > 0 && x == d * q + r && r < d
    ensures x / d == q
  {
    var p := x / d;
    assert x == d * p + x % d;
    assert d * (p - q) == d * p - d * q;
    ProductAway(d, p - q);
  }

  lemma ProductAway(d: nat, k: int)
    ensures k >= 1 ==> d * k >= d
    ensures k <= -1 ==> d * k + d <= 0
  {
  }

  /** Masking by `p` leading ones keeps the top `p` bits in place and clears the rest. */
  lemma AndPrefixMask(x: nat, p: nat)
    requires p <= 32 && x < WORD
    ensures And(x, PrefixMask(p, 32)) == Up(Down(x, 32 - p), 32 - p)
  {
    var k := 32 - p;
    Pow2At32();
    UpOfOnes(p, k);
    AndUp(x, Pow2(p) - 1, k);
    DownBound(x, p, k);
    AndOnes(Down(x, k), p);
  }

  /** A canonical directive and the block emitted for it cover the same addresses. */
  lemma CanonicalKeepsAddresses(address: nat, p: nat, x: nat)
    requires p <= 32 && address < WORD && x < WORD
    ensures Routed(address, PrefixMask(p, 32), x) <==> InBlock(address, p, x)
  {
    AndPrefixMask(x, p);
    AndPrefixMask(address, p);
    UpInjective(Down(x, 32 - p), Down(address, 32 - p), 32 - p);
    DownIsDivision(x, 32 - p);
    DownIsDivision(address, 32 - p);
  }

  /** A mask with a zero bit routes some other address along with `address`. */
  lemma {:induction false} AnotherAddress(address: nat, mask: nat, width: nat) returns (x: nat)
    requires address < Pow2(width) && mask < Pow2(width) - 1
    ensures x < Pow2(width) && x != address && And(x, mask) == And(address, mask)
  {
    if mask % 2 == 0 {
      x := address / 2 * 2 + (1 - address % 2);
      assert x / 2 == address / 2;
      AndEven(x, mask / 2);
      AndEven(address, mask / 2);
    } else {
      var high := AnotherAddress(address / 2, mask / 2, width - 1);
      x := 2 * high + address % 2;
      assert x / 2 == high && x % 2 == address % 2;
      AndOdd(x, mask);
      AndOdd(address, mask);
    }
  }

  lemma AndOdd(x: nat, mask: nat)
    requires mask % 2 == 1
    ensures And(x, mask) == x % 2 + 2 * And(x / 2, mask / 2)
  {
  }

  /** The emitted block means what the directive meant, for every address, exactly for canonical masks. */
  lemma AddressesKeptIff(address: nat, mask: nat)
    requires address < WORD && mask < WORD
    ensures NetmaskToPrefix(mask) <= 32
    ensures (forall x :: 0 <= x < WORD ==> (Routed(address, mask, x) <==> InBlock(address, NetmaskToPrefix(mask), x)))
       <==> Canonical(mask)
  {
    if Canonical(mask) {
      var p :| 0 <= p <= 32 && mask == PrefixMask(p, 32);
      PrefixRoundTrip(p);
      forall x | 0 <= x < WORD ensures Routed(address, mask, x) <==> InBlock(address, NetmaskToPrefix(mask), x) {
        CanonicalKeepsAddresses(address, p, x);
      }
    } else {
      OtherMasksAreHosts(mask);
      Pow2At32();
      assert PrefixMask(32, 32) == WORD - 1;
      var x := AnotherAddress(address, mask, 32);
      assert Routed(address, mask, x);
      assert Pow2(32 - 32) == 1;
    }
  }
}
