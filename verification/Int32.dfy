/** Bucket indexes as the program keeps them: in 32 bits, wrapping around. */
module Int32 {

  const MIN_INT32: int := -0x8000_0000
  const MAX_INT32: int := 0x7FFF_FFFF

  predicate IsInt32(i: int) { MIN_INT32 <= i <= MAX_INT32 }

  /** An index as 32 bits keep it. */
  function Narrow(i: int): (r: int)
    ensures IsInt32(r)
  {
    (i - MIN_INT32) % 0x1_0000_0000 + MIN_INT32
  }

  lemma NarrowIs(i: int)
    ensures IsInt32(i) ==> Narrow(i) == i
    ensures MAX_INT32 < i <= MAX_INT32 + 0x1_0000_0000 ==> Narrow(i) == i - 0x1_0000_0000
    ensures MIN_INT32 - 0x1_0000_0000 <= i < MIN_INT32 ==> Narrow(i) == i + 0x1_0000_0000
  {
  }

  /** A walk upwards from an index, one at a time: after k steps its distance from the start is still
      k, and one more step is the step after. */
  lemma WalkOn(lo: int, k: nat)
    requires IsInt32(lo) && k < MAX_INT32
    ensures Narrow(Narrow(lo + k) - lo) == k && Narrow(Narrow(lo + k) + 1) == Narrow(lo + k + 1)
  {
    NarrowIs(lo + k);
    NarrowIs(Narrow(lo + k) - lo);
    NarrowIs(lo + k + 1);
  }

  /** The walk's guard compares with the last index, itself kept in 32 bits. A last index below the
      greatest one ends the walk after it; the greatest one never does; and a last index that has
      wrapped ends it before it starts. */
  lemma WalkEnds(lo: int, n: nat, k: nat)
    requires IsInt32(lo) && 0 < n < MAX_INT32 && k < MAX_INT32
    ensures lo + n - 1 < MAX_INT32 && k <= n ==> (Narrow(lo + k) <= Narrow(lo + n - 1) <==> k < n)
    ensures lo + n - 1 == MAX_INT32 ==> Narrow(lo + k) <= Narrow(lo + n - 1)
    ensures lo + n - 1 > MAX_INT32 ==> !(Narrow(lo) <= Narrow(lo + n - 1))
  {
    NarrowIs(lo + k);
    NarrowIs(lo + n - 1);
    NarrowIs(lo);
  }
}
