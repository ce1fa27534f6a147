/** Basic entities shared by the listing controller: a performance (an event item
    of the calendar), its UTC day, and the order relations the controller relies on. */
module Listing {

  datatype Option<+T> = None | Some(value: T)

  /** Milliseconds in one UTC calendar day. */
  const MsPerDay: int := 86_400_000

  /** One scheduled performance as the server returns it: a stable id, the title of
      its play and its start instant in milliseconds since the epoch (UTC). */
  datatype Performance = Performance(id: int, title: string, dateTime: int)

  /** The UTC calendar day of an instant, as a day number since the epoch. Two
      instants get the same key exactly when they fall on the same UTC date. */
  function DayKey(t: int): (d: int)
    ensures MsPerDay * d <= t < MsPerDay * d + MsPerDay
  {
    t / MsPerDay
  }

  /** Later instants never fall on an earlier day. */
  lemma DayKeyMonotone(t1: int, t2: int)
    requires t1 <= t2
    ensures DayKey(t1) <= DayKey(t2)
  {
  }

  function Day(p: Performance): int {
    DayKey(p.dateTime)
  }

  /** The list is in the order the server sorts it: ascending start time. */
  ghost predicate SortedByTime(ps: seq<Performance>) {
    forall i, j :: 0 <= i < j < |ps| ==> ps[i].dateTime <= ps[j].dateTime
  }

  /** `a` is `b` with some elements dropped and the rest in their order. */
  predicate IsSubsequence<T(==)>(a: seq<T>, b: seq<T>)
    decreases |b|
  {
    if a == [] then true
    else if b == [] then false
    else if a[0] == b[0] then IsSubsequence(a[1..], b[1..])
    else IsSubsequence(a, b[1..])
  }

  /** A subsequence contains no element its supersequence lacks. */
  lemma {:induction false} SubsequenceMembers<T>(a: seq<T>, b: seq<T>)
    requires IsSubsequence(a, b)
    ensures forall x :: x in a ==> x in b
    decreases |b|
  {
    if a != [] && b != [] {
      if a[0] == b[0] {
        SubsequenceMembers(a[1..], b[1..]);
        forall x | x in a ensures x in b {
          if x != a[0] { assert x in a[1..]; }
        }
      } else {
        SubsequenceMembers(a, b[1..]);
      }
    }
  }

  lemma {:induction false} SubsequenceLength<T>(a: seq<T>, b: seq<T>)
    requires IsSubsequence(a, b)
    ensures |a| <= |b|
    decreases |b|
  {
    if a != [] && b != [] {
      if a[0] == b[0] {
        SubsequenceLength(a[1..], b[1..]);
      } else {
        SubsequenceLength(a, b[1..]);
      }
    }
  }

  lemma {:induction false} SubsequenceRefl<T>(a: seq<T>)
    ensures IsSubsequence(a, a)
    decreases |a|
  {
    if a != [] {
      SubsequenceRefl(a[1..]);
    }
  }

  /** Dropping the last element of `b` (and keeping it in `a` only if it was
      kept) preserves the subsequence relation: the snoc form of the definition. */
  lemma {:induction false} SubsequenceSnoc<T>(a: seq<T>, b: seq<T>, x: T, keep: bool)
    requires IsSubsequence(a, b)
    ensures IsSubsequence(if keep then a + [x] else a, b + [x])
    decreases |b|
  {
    if keep {
      if a == [] {
        SubsequenceSingleton(b, x);
        assert a + [x] == [x];
      } else if b == [] {
        assert false;
      } else {
        assert (a + [x])[1..] == a[1..] + [x];
        assert (b + [x])[1..] == b[1..] + [x];
        if a[0] == b[0] {
          SubsequenceSnoc(a[1..], b[1..], x, true);
        } else {
          SubsequenceSnoc(a, b[1..], x, true);
        }
      }
    } else {
      if a == [] {
      } else if b == [] {
        assert false;
      } else {
        assert (b + [x])[1..] == b[1..] + [x];
        if a[0] == b[0] {
          SubsequenceSnoc(a[1..], b[1..], x, false);
        } else {
          SubsequenceSnoc(a, b[1..], x, false);
        }
      }
    }
  }

  lemma {:induction false} SubsequenceSingleton<T>(b: seq<T>, x: T)
    ensures IsSubsequence([x], b + [x])
    decreases |b|
  {
    if b != [] {
      assert (b + [x])[1..] == b[1..] + [x];
      if b[0] != x {
        SubsequenceSingleton(b[1..], x);
      }
    }
  }
}
