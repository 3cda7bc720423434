/** How the decoder's array and map storage grows, and how many slots that reserves. */
module Growth {
  import opened Octets

  /** The most slots reserved before any element is read. */
  const PREALLOC_LIMIT: nat := 1024

  function FirstCapacity(count: nat): nat
  {
    Min(count, PREALLOC_LIMIT)
  }

  function NextCapacity(cap: nat, count: nat): nat
  {
    Min(2 * cap, count)
  }

  /** Slots reserved by growing from cap while elements 0 .. attempts - 1 of count are stored. */
  function GrowthSlots(count: nat, cap: nat, attempts: nat): nat
    requires attempts <= count
    requires cap > 0 || count == 0
    decreases count - cap
  {
    if attempts <= cap then 0
    else
      var next := NextCapacity(cap, count);
      next + GrowthSlots(count, next, attempts)
  }

  /** All slots reserved for one array or map that declares count elements and tries to store attempts of them. */
  function ReservedSlots(count: nat, attempts: nat): nat
    requires attempts <= count
  {
    FirstCapacity(count) + GrowthSlots(count, FirstCapacity(count), attempts)
  }

  lemma ReservedFirst(count: nat, attempts: nat)
    requires attempts <= count
    ensures var cap := FirstCapacity(count);
            && cap <= count && (cap > 0 || count == 0)
            && ReservedSlots(count, attempts) == cap + GrowthSlots(count, cap, attempts)
  {
  }

  lemma {:induction false} GrowthPaidByElements(count: nat, cap: nat, attempts: nat)
    requires 0 < cap < attempts <= count
    ensures GrowthSlots(count, cap, attempts) + 2 * cap <= 4 * (attempts - 1)
    decreases count - cap
  {
    var next := NextCapacity(cap, count);
    if attempts > next {
      GrowthPaidByElements(count, next, attempts);
    }
  }

  /** Four slots per element already stored and one initial reservation pay for everything reserved. */
  lemma ReservationPaid(count: nat, attempts: nat)
    requires attempts <= count
    ensures attempts > 0 ==> ReservedSlots(count, attempts) <= 4 * (attempts - 1) + PREALLOC_LIMIT
    ensures attempts == count ==> ReservedSlots(count, attempts) <= 4 * count
  {
    var first := FirstCapacity(count);
    if attempts > first {
      GrowthPaidByElements(count, first, attempts);
    }
  }

  /** The capacity in use once attempts elements have been given room. */
  function FinalCapacity(count: nat, cap: nat, attempts: nat): nat
    requires attempts <= count
    requires cap > 0 || count == 0
    decreases count - cap
  {
    if attempts <= cap then cap else FinalCapacity(count, NextCapacity(cap, count), attempts)
  }

  /** The capacity the last growth step leaves behind; 0 when there is no growth. */
  function LastCapacity(count: nat, cap: nat): nat
    requires cap > 0
    decreases count - cap
  {
    if 2 * cap >= count then cap else LastCapacity(count, 2 * cap)
  }

  lemma {:induction false} CompleteGrowth(count: nat, cap: nat)
    requires 0 < cap < count
    ensures GrowthSlots(count, cap, count) == count + 2 * LastCapacity(count, cap) - 2 * cap
    ensures FinalCapacity(count, cap, count) == count
    ensures cap <= LastCapacity(count, cap) < count <= 2 * LastCapacity(count, cap)
    decreases count - cap
  {
    var next := NextCapacity(cap, count);
    if next < count {
      CompleteGrowth(count, next);
    }
  }

  /** Slots left behind in abandoned copies once all count elements are stored. */
  function AbandonedSlots(count: nat): int
  {
    ReservedSlots(count, count) - count
  }

  /** By how much the declared count cuts short the last doubling. */
  function Clipped(count: nat): int
    requires count > PREALLOC_LIMIT
  {
    2 * LastCapacity(count, PREALLOC_LIMIT) - count
  }

  /**
   * Growth ends with exactly the declared capacity and abandons less than twice the final size. It abandons
   * less than the final size exactly when there is something to store and the count either fits the first
   * reservation or cuts the last doubling short by fewer than 1024 slots.
   */
  lemma GrowthWaste(count: nat)
    ensures count > 0 ==> FinalCapacity(count, FirstCapacity(count), count) == count
    ensures count > 0 ==> AbandonedSlots(count) < 2 * count
    ensures AbandonedSlots(count) < count <==>
            0 < count && (count > PREALLOC_LIMIT ==> Clipped(count) < PREALLOC_LIMIT)
    ensures count > PREALLOC_LIMIT ==>
              var c := LastCapacity(count, PREALLOC_LIMIT);
              c < count <= 2 * c && AbandonedSlots(count) == 2 * c - PREALLOC_LIMIT
  {
    if count > PREALLOC_LIMIT {
      CompleteGrowth(count, PREALLOC_LIMIT);
    }
  }

  /** The source's comment bounds the waste by the final size; 2049 elements abandon 3072 slots. */
  lemma WasteCounterexample()
    ensures AbandonedSlots(2049) == 3072
  {
    assert LastCapacity(2049, 1024) == 2048 by {
      assert LastCapacity(2049, 2048) == 2048;
    }
    hide LastCapacity, ReservedSlots, FinalCapacity;
    GrowthWaste(2049);
  }
}
