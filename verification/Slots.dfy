/** The split of the 65536-slot space over a list of nodes (control/routing.go). */
module Slots {

  const VSLOT_COUNT: int := 65536
  const VSLOT_MAX: int := 65535
  const UINT64_MOD: int := 0x1_0000_0000_0000_0000

  /** `uint64` subtraction of one, with its wrap-around at zero. */
  function Uint64Pred(x: nat): nat {
    if x == 0 then UINT64_MOD - 1 else x - 1
  }

  function CheckedVSlot(value: nat): nat {
    if value > VSLOT_MAX then VSLOT_MAX else value
  }

  /** First slot of the `index`-th of `count` nodes. */
  function SlotStart(index: nat, count: nat): nat
    requires count > 0
  {
    CheckedVSlot(index * VSLOT_COUNT / count)
  }

  /** Last slot of the `index`-th of `count` nodes. */
  function SlotEnd(index: nat, count: nat): nat
    requires count > 0
  {
    CheckedVSlot(Uint64Pred((index + 1) * VSLOT_COUNT / count))
  }

  predicate InRange(index: nat, count: nat, slot: nat)
    requires count > 0
  {
    SlotStart(index, count) <= slot <= SlotEnd(index, count)
  }

  lemma DivBounds(a: nat, n: nat)
    requires n > 0
    ensures (a / n) * n <= a < (a / n) * n + n
  {
  }

  lemma MulStep(x: nat, y: nat, n: nat)
    requires x < y
    ensures x * n + n <= y * n
  {
    assert y * n == x * n + n + (y - x - 1) * n;
  }

  lemma DivUnique(a: nat, n: nat, q: nat)
    requires n > 0 && q * n <= a < q * n + n
    ensures a / n == q
  {
    var d: nat := a / n;
    DivBounds(a, n);
    if d < q {
      MulStep(d, q, n);
    } else if q < d {
      MulStep(q, d, n);
    }
  }

  lemma DivMono(a: nat, b: nat, n: nat)
    requires n > 0 && a <= b
    ensures a / n <= b / n
  {
    var p: nat, q: nat := a / n, b / n;
    DivBounds(a, n);
    DivBounds(b, n);
    if q < p {
      MulStep(q, p, n);
    }
  }

  /** Adding `c` to the dividend adds `c / n` or `c / n + 1` to the quotient. */
  lemma DivStep(a: nat, c: nat, n: nat)
    requires n > 0
    ensures a / n + c / n <= (a + c) / n <= a / n + c / n + 1
  {
    var p: nat, r: nat := a / n, c / n;
    DivBounds(a, n);
    DivBounds(c, n);
    Distribute(p, r, n);
    if a + c < (p + r) * n + n {
      DivUnique(a + c, n, p + r);
    } else {
      Distribute(p + r, 1, n);
      DivUnique(a + c, n, p + r + 1);
    }
  }

  lemma Distribute(p: nat, r: nat, n: nat)
    ensures (p + r) * n == p * n + r * n
  {
  }

  /** For at most 65536 nodes the unclamped boundaries are the ones used. */
  lemma Boundaries(index: nat, count: nat)
    requires index < count <= VSLOT_COUNT
    ensures SlotStart(index, count) == index * VSLOT_COUNT / count
    ensures SlotEnd(index, count) == (index + 1) * VSLOT_COUNT / count - 1
    ensures SlotStart(index, count) <= SlotEnd(index, count) <= VSLOT_MAX
    ensures VSLOT_COUNT / count <= SlotEnd(index, count) - SlotStart(index, count) + 1 <= VSLOT_COUNT / count + 1
  {
    var a := index * VSLOT_COUNT;
    var b := (index + 1) * VSLOT_COUNT;
    assert b == a + VSLOT_COUNT;
    DivStep(a, VSLOT_COUNT, count);
    DivBounds(VSLOT_COUNT, count);
    assert VSLOT_COUNT / count >= 1;
    DivUnique(count * VSLOT_COUNT, count, VSLOT_COUNT);
    assert b <= count * VSLOT_COUNT;
    DivMono(b, count * VSLOT_COUNT, count);
  }

  lemma Contiguous(k: nat, count: nat)
    requires k < count <= VSLOT_COUNT
    ensures SlotStart(0, count) == 0
    ensures k > 0 ==> SlotStart(k, count) == SlotEnd(k - 1, count) + 1
  {
    DivUnique(0, count, 0);
    if k > 0 {
      Boundaries(k - 1, count);
      Boundaries(k, count);
    }
  }

  /** The `n` ranges are contiguous, start at slot 0, end at slot 65535, and any two sizes
      differ by at most one. */
  lemma RangesAreBalanced(count: nat)
    requires 1 <= count <= VSLOT_COUNT
    ensures SlotStart(0, count) == 0
    ensures SlotEnd(count - 1, count) == VSLOT_MAX
    ensures forall i :: 0 <= i < count - 1 ==> SlotStart(i + 1, count) == SlotEnd(i, count) + 1
    ensures forall i, j :: 0 <= i < count && 0 <= j < count ==>
              SlotEnd(i, count) - SlotStart(i, count) <= SlotEnd(j, count) - SlotStart(j, count) + 1
  {
    Contiguous(0, count);
    Boundaries(count - 1, count);
    DivUnique(count * VSLOT_COUNT, count, VSLOT_COUNT);
    forall i | 0 <= i < count - 1 ensures SlotStart(i + 1, count) == SlotEnd(i, count) + 1 {
      Contiguous(i + 1, count);
    }
    forall i, j | 0 <= i < count && 0 <= j < count
      ensures SlotEnd(i, count) - SlotStart(i, count) <= SlotEnd(j, count) - SlotStart(j, count) + 1
    {
      Boundaries(i, count);
      Boundaries(j, count);
    }
  }

  lemma {:induction false} StartsAscend(i: nat, j: nat, count: nat)
    requires i < j < count <= VSLOT_COUNT
    ensures SlotEnd(i, count) < SlotStart(j, count)
  {
    Boundaries(i, count);
    Boundaries(j, count);
    DivMono((i + 1) * VSLOT_COUNT, j * VSLOT_COUNT, count);
  }

  lemma {:induction false} OwnerBelow(slot: nat, k: nat, count: nat) returns (i: nat)
    requires k < count <= VSLOT_COUNT && slot <= SlotEnd(k, count)
    ensures i <= k && InRange(i, count, slot)
  {
    if SlotStart(k, count) <= slot {
      i := k;
    } else {
      Contiguous(k, count);
      i := OwnerBelow(slot, k - 1, count);
    }
  }

  /** Node `i` is the one node whose range holds `slot`. */
  ghost predicate SoleOwner(i: nat, count: nat, slot: nat)
    requires count > 0
  {
    i < count && InRange(i, count, slot) &&
    forall j: nat :: j < count && InRange(j, count, slot) ==> j == i
  }

  lemma SoleOwnerExists(count: nat, slot: nat) returns (i: nat)
    requires 1 <= count <= VSLOT_COUNT && slot <= VSLOT_MAX
    ensures SoleOwner(i, count, slot)
  {
    RangesAreBalanced(count);
    i := OwnerBelow(slot, count - 1, count);
    forall j: nat | j < count && InRange(j, count, slot) ensures j == i {
      if i < j { StartsAscend(i, j, count); }
      if j < i { StartsAscend(j, i, count); }
    }
  }

  ghost predicate Owned(count: nat, slot: nat)
    requires count > 0
  {
    exists i :: SoleOwner(i, count, slot)
  }

  /** Every slot lies in exactly one range precisely when there are at most 65536 nodes:
      beyond that the end of the first range wraps below zero and is clamped to 65535. */
  lemma SlotPartition(count: nat)
    requires count > 0
    ensures (forall slot: nat :: slot <= VSLOT_MAX ==> Owned(count, slot)) <==> count <= VSLOT_COUNT
  {
    if count <= VSLOT_COUNT {
      forall slot: nat | slot <= VSLOT_MAX ensures Owned(count, slot) {
        var i := SoleOwnerExists(count, slot);
      }
    } else {
      OverfullSplit(count);
    }
  }

  lemma OverfullSplit(count: nat)
    requires count > VSLOT_COUNT
    ensures InRange(0, count, VSLOT_MAX) && InRange(count - 1, count, VSLOT_MAX)
    ensures !Owned(count, VSLOT_MAX)
  {
    DivUnique(VSLOT_COUNT, count, 0);
    DivUnique(0, count, 0);
    DivUnique(count * VSLOT_COUNT, count, VSLOT_COUNT);
    DivMono((count - 1) * VSLOT_COUNT, count * VSLOT_COUNT, count);
    assert InRange(0, count, VSLOT_MAX) && InRange(count - 1, count, VSLOT_MAX);
    forall i ensures !SoleOwner(i, count, VSLOT_MAX) { }
  }

  /** With at most 32768 nodes every range holds two slots or more, so none is `[0, 0]`, the
      spelling that route matching reads as "all slots"; with more nodes the first range is it. */
  lemma FirstRangeIsSingleton(count: nat)
    requires 1 <= count <= VSLOT_COUNT
    ensures SlotEnd(0, count) == 0 <==> count > 32768
    ensures count <= 32768 ==>
              forall i :: 0 <= i < count ==> SlotEnd(i, count) >= SlotStart(i, count) + 1
    ensures count <= 32768 ==> forall i :: 0 < i < count ==> SlotStart(i, count) >= 2
  {
    Boundaries(0, count);
    DivBounds(VSLOT_COUNT, count);
    if count > 32768 {
      DivUnique(VSLOT_COUNT, count, 1);
    } else {
      DivMono(2 * count, VSLOT_COUNT, count);
      DivUnique(2 * count, count, 2);
      forall i | 0 <= i < count ensures SlotEnd(i, count) >= SlotStart(i, count) + 1 {
        Boundaries(i, count);
      }
      forall i | 0 < i < count ensures SlotStart(i, count) >= 2 {
        StartsAscend(0, i, count);
      }
    }
  }
}
