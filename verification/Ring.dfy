/** Arithmetic of the 9-bit and 10-bit pointers into the 512-qword rings: each pointer is the low
    part of an unbounded count, and nearby counts can be told apart by it. */
module Ring {
  const RING: nat := 512

  /** The values of a 10-bit pointer: twice the ring, so that full and empty differ. */
  const SPAN: nat := 1024

  /** `a + ~b + 1` in a register of `m` values. */
  function Sub(a: nat, b: nat, m: nat): (d: nat)
    requires a < m && b < m
    ensures d < m
  {
    if a >= b then a - b else a + m - b
  }

  /** `a + b` in a register of `m` values. */
  function Add(a: nat, b: nat, m: nat): (d: nat)
    requires a < m && b <= m
    ensures d < m
  {
    if a + b < m then a + b else a + b - m
  }

  /** The register sizes in use: tag slots, request counters, shared-ring slots, the two ring
      pointers, 32-bit indices. */
  predicate Width(m: nat)
    ensures Width(m) ==> 0 < m
  {
    m == 4 || m == 8 || m == 256 || m == 512 || m == 1024 || m == 0x1_0000_0000
  }

  /** The difference of two pointers is the distance of their counts when that fits the register. */
  lemma SubIsDistance(a: nat, b: nat, m: nat)
    requires Width(m) && b <= a < b + m
    ensures Sub(a % m, b % m, m) == a - b
  {
    AddIsShift(b, a - b, m);
  }

  lemma AddIsShift(a: nat, d: nat, m: nat)
    requires Width(m) && d <= m
    ensures (a + d) % m == Add(a % m, d, m)
  {
    hide Width;
    var q, r := a / m, a % m;
    assert a == q * m + r;
    assert (q + 1) * m == q * m + m;
    Remainder(a + d, if r + d < m then q else q + 1, m);
  }

  /** A number within one register range of a multiple of the width determines the remainder. */
  lemma Remainder(x: nat, k: nat, m: nat)
    requires Width(m) && k * m <= x < k * m + m
    ensures x % m == x - k * m
  {
    if m == 4 {
      assert x / 4 == k;
    } else if m == 8 {
      assert x / 8 == k;
    } else if m == 256 {
      assert x / 256 == k;
    } else if m == 512 {
      assert x / 512 == k;
    } else if m == 1024 {
      assert x / 1024 == k;
    } else {
      assert x / 0x1_0000_0000 == k;
    }
  }

  lemma SlotsDiffer(i: nat, j: nat)
    requires i < j < i + RING
    ensures i % RING != j % RING
  {
    SubIsDistance(j, i, RING);
  }

  /** A count as a 10-bit pointer. */
  function Ptr(count: nat): (p: nat)
    ensures p < SPAN
  {
    count % SPAN
  }

  /** The slot is the low part of a 10-bit pointer. */
  lemma PointerSlot(w: nat)
    ensures Ptr(w) % RING == w % RING
  {
    var k, p := w / SPAN, w % SPAN;
    Remainder(w, if p < RING then 2 * k else 2 * k + 1, RING);
  }

  lemma PointerSum(a: nat, d: nat)
    requires d <= SPAN
    ensures (Ptr(a) + d) % SPAN == Ptr(a + d)
  {
    AddIsShift(a, d, SPAN);
    AddIsShift(a % SPAN, d, SPAN);
  }

  lemma PointerSmall(a: nat)
    requires a < SPAN
    ensures Ptr(a) == a
  {
  }

  /** `ring` holds the stretch of `stream` from `lo` to `hi`. */
  ghost predicate Holds<T>(ring: seq<T>, stream: seq<T>, lo: nat, hi: nat) {
    |ring| == RING && hi <= |stream| && forall i :: lo <= i < hi ==> ring[i % RING] == stream[i]
  }

  /** Writing at count `w` leaves every stretch alone that starts less than a ring before `w`. */
  lemma WriteKeeps<T>(ring: seq<T>, stream: seq<T>, lo: nat, hi: nat, w: nat, x: T)
    requires Holds(ring, stream, lo, hi) && hi <= w < lo + RING
    ensures Holds(ring[w % RING := x], stream, lo, hi)
  {
    forall i | lo <= i < hi ensures ring[w % RING := x][i % RING] == stream[i] {
      SlotsDiffer(i, w);
    }
  }

  /** Neither is a stretch disturbed by a write next to it, as long as both lie in one ring's length. */
  lemma WriteApart<T>(ring: seq<T>, stream: seq<T>, lo: nat, hi: nat, from: nat, w: nat, x: T)
    requires Holds(ring, stream, lo, hi) && from <= lo && hi <= from + RING
    requires from <= w < from + RING && (w < lo || hi <= w)
    ensures Holds(ring[w % RING := x], stream, lo, hi)
  {
    forall i | lo <= i < hi ensures ring[w % RING := x][i % RING] == stream[i] {
      if i < w { SlotsDiffer(i, w); } else { SlotsDiffer(w, i); }
    }
  }
}
