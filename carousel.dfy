/** The index arithmetic shared by the two carousels: modular next and previous steps over
    `count` items, a run of timer ticks, and which indicator is highlighted. */
module Carousel {

  /** `(i + 1) % count` */
  function Next(i: nat, count: nat): (r: nat)
    requires count > 0
    ensures r < count
    ensures i == count - 1 ==> r == 0
    ensures i < count - 1 ==> r == i + 1
  {
    (i + 1) % count
  }

  /** `(i - 1 + count) % count` */
  function Prev(i: nat, count: nat): (r: nat)
    requires count > 0
    ensures r < count
    ensures i == 0 ==> r == count - 1
    ensures 0 < i <= count ==> r == i - 1
  {
    (i - 1 + count) % count
  }

  /** The two steps undo each other on every valid position. */
  lemma PrevUndoesNext(i: nat, count: nat)
    requires i < count
    ensures Prev(Next(i, count), count) == i
    ensures Next(Prev(i, count), count) == i
  {
  }

  /** The position after `ticks` steps forward. */
  function Advance(i: nat, ticks: nat, count: nat): (r: nat)
    requires count > 0
    ensures r < count || (ticks == 0 && r == i)
  {
    if ticks == 0 then i else Next(Advance(i, ticks - 1, count), count)
  }

  lemma {:induction false} AdvanceIsModular(i: nat, ticks: nat, count: nat)
    requires i < count
    ensures Advance(i, ticks, count) == (i + ticks) % count
  {
    if ticks > 0 {
      AdvanceIsModular(i, ticks - 1, count);
      NextOfRemainder(i + ticks - 1, count);
    }
  }

  /** Stepping from `x % n` lands on `(x + 1) % n`. */
  lemma NextOfRemainder(x: nat, n: nat)
    requires n > 0
    ensures ((x % n) + 1) % n == (x + 1) % n
  {
    var q, r := x / n, x % n;
    assert x == q * n + r;
    if r + 1 < n {
      RemainderUnique(x + 1, q, r + 1, n);
    } else {
      assert x + 1 == (q + 1) * n + 0;
      RemainderUnique(x + 1, q + 1, 0, n);
    }
  }

  /** Division with remainder has only one remainder in [0, n). */
  lemma RemainderUnique(a: int, q: int, r: int, n: int)
    requires n > 0 && 0 <= r < n && a == q * n + r
    ensures a % n == r
  {
    var q', r' := a / n, a % n;
    assert (q - q') * n == r' - r;
    if q - q' >= 1 {
      assert false;
    } else if q - q' <= -1 {
      assert false;
    }
  }

  /** After one full cycle of `count` ticks the index is back where it started. */
  lemma FullCycleReturns(i: nat, count: nat)
    requires i < count
    ensures Advance(i, count, count) == i
  {
    AdvanceIsModular(i, count, count);
    RemainderUnique(i + count, 1, i, count);
  }

  /** The indicators drawn as active; exactly one for a valid position. */
  function ActiveIndicators(current: nat, count: nat): (s: set<nat>)
    ensures current < count ==> s == {current}
    ensures current >= count ==> s == {}
  {
    set k: nat | k < count && IsActive(k, current)
  }

  /** The `index === current` test each indicator's style uses. */
  predicate IsActive(index: nat, current: nat)
  {
    index == current
  }
}
