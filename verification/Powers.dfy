/** Powers of two, and logarithms rounded down and up. */
module Powers {
  import opened Arithmetic

  function Pow2(k: nat): (r: int)
    ensures r >= 1
  {
    if k == 0 then 1 else 2 * Pow2(k - 1)
  }

  lemma {:induction false} PowSum(i: nat, j: nat)
    ensures Pow2(i) * Pow2(j) == Pow2(i + j)
  {
    if i > 0 {
      PowSum(i - 1, j);
      Associates(2, Pow2(i - 1), Pow2(j));
    }
  }

  lemma {:induction false} PowMonotone(i: nat, j: nat)
    requires i <= j
    ensures Pow2(i) <= Pow2(j)
  {
    if i < j { PowMonotone(i, j - 1); }
  }

  /** The place of the highest bit of `x`. */
  function FloorLog(x: int): (k: nat)
    requires x >= 1
    ensures Pow2(k) <= x < Pow2(k + 1)
    decreases x
  {
    if x < 2 then 0 else 1 + FloorLog(x / 2)
  }

  /** The least power of two that is not below `x`. */
  function CeilLog(x: int): (k: nat)
    requires x >= 1
    ensures x <= Pow2(k) && (k > 0 ==> Pow2(k - 1) < x)
  {
    var k := FloorLog(x);
    if x == Pow2(k) then k else k + 1
  }
}
