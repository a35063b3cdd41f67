/**
  Cloud bit decoding of the Sentinel-2 Level-1C `QA60` quality band
  (`ESAcloud`): bit 10 flags opaque cloud, bit 11 flags cirrus.
*/
module CloudBits {

  /** 2 to the power `k`, as `Math.pow(2, k)` for small `k`. */
  function Pow2(k: nat): (p: nat)
    ensures p >= 1
  {
    if k == 0 then 1 else 2 * Pow2(k - 1)
  }

  /** Bitwise AND of two non-negative integers, computed bit by bit from the lowest. */
  function BitAnd(a: nat, b: nat): (r: nat)
    ensures r <= a && r <= b
  {
    if a == 0 || b == 0 then 0
    else 2 * BitAnd(a / 2, b / 2) + (if a % 2 == 1 && b % 2 == 1 then 1 else 0)
  }

  /** Bit `k` of `q` is set (bit 0 is the lowest). */
  predicate TestBit(q: nat, k: nat) {
    if k == 0 then q % 2 == 1 else TestBit(q / 2, k - 1)
  }

  /** `bitwiseAnd` with a single-bit mask `2^k` is that mask when bit `k` is set and zero otherwise. */
  lemma {:induction false} BitAndPow2(q: nat, k: nat)
    ensures BitAnd(q, Pow2(k)) == if TestBit(q, k) then Pow2(k) else 0
  {
    if k > 0 {
      BitAndPow2(q / 2, k - 1);
      assert Pow2(k) / 2 == Pow2(k - 1);
    }
  }

  /** Setting a clear bit `k` leaves every other bit as it was. */
  lemma {:induction false} SetBitKeepsOthers(q: nat, k: nat, j: nat)
    requires !TestBit(q, k) && j != k
    ensures TestBit(q + Pow2(k), j) == TestBit(q, j)
  {
    if k == 0 {
      assert q % 2 == 0;
      if j > 0 {
        assert (q + 1) / 2 == q / 2;
      }
    } else if j == 0 {
      assert (q + Pow2(k)) % 2 == q % 2;
    } else {
      assert (q + Pow2(k)) / 2 == q / 2 + Pow2(k - 1);
      SetBitKeepsOthers(q / 2, k - 1, j - 1);
    }
  }

  /** The two masks the script builds with `Math.pow(2, 10)` and `Math.pow(2, 11)`. */
  const CloudBitMask: nat := Pow2(10)
  const CirrusBitMask: nat := Pow2(11)

  /** `clear`: both flags are zero. */
  function IsClear(qa: nat): (clear: bool)
    ensures clear <==> !TestBit(qa, 10) && !TestBit(qa, 11)
  {
    BitAndPow2(qa, 10);
    BitAndPow2(qa, 11);
    BitAnd(qa, CloudBitMask) == 0 && BitAnd(qa, CirrusBitMask) == 0
  }

  /** `cloud = clear.eq(0)`. */
  function IsCloud(qa: nat): (cloud: bool)
    ensures cloud <==> TestBit(qa, 10) || TestBit(qa, 11)
  {
    !IsClear(qa)
  }

  /** Clear holds exactly when bits 10 and 11 are both zero; cloud exactly when either is set. */
  lemma CloudIffFlagBits(qa: nat)
    ensures IsClear(qa) <==> !TestBit(qa, 10) && !TestBit(qa, 11)
    ensures IsCloud(qa) <==> TestBit(qa, 10) || TestBit(qa, 11)
  {
    BitAndPow2(qa, 10);
    BitAndPow2(qa, 11);
  }

  /** Values that agree on bits 10 and 11 get the same flag, whatever their other bits. */
  lemma FlagDependsOnlyOnBits10And11(qa: nat, qa': nat)
    requires TestBit(qa, 10) == TestBit(qa', 10) && TestBit(qa, 11) == TestBit(qa', 11)
    ensures IsCloud(qa) == IsCloud(qa')
  {
    CloudIffFlagBits(qa);
    CloudIffFlagBits(qa');
  }

  /** Setting any bit other than 10 and 11 never changes the flag. */
  lemma OtherBitsIgnored(qa: nat, k: nat)
    requires !TestBit(qa, k) && k != 10 && k != 11
    ensures IsCloud(qa + Pow2(k)) == IsCloud(qa)
  {
    SetBitKeepsOthers(qa, k, 10);
    SetBitKeepsOthers(qa, k, 11);
    FlagDependsOnlyOnBits10And11(qa, qa + Pow2(k));
  }

  /** The mask values are 1024 and 2048. */
  lemma MaskValues()
    ensures CloudBitMask == 1024 && CirrusBitMask == 2048
  {
  }

  /** Decoding reference values: no flag, cloud only, cirrus only, both, all lower bits, bit 12. */
  lemma DecodeExamples()
    ensures !IsCloud(0)
    ensures IsCloud(1024) && IsCloud(2048) && IsCloud(3072)
    ensures !IsCloud(1023) && !IsCloud(4096)
  {
    CloudIffFlagBits(0);
    CloudIffFlagBits(1024);
    CloudIffFlagBits(2048);
    CloudIffFlagBits(3072);
    CloudIffFlagBits(1023);
    CloudIffFlagBits(4096);
  }
}
