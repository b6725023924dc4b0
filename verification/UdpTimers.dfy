/**
 The timer list as a schedule: sorted by timeout, free of duplicates and holding exactly the
 events that have a deadline.  Inserting, erasing and re-inserting an event keep it so.
 */
module UdpTimers {
  import opened UdpTypes
  import opened UdpNode

  /** The timeout of every event that is to be on the list. */
  type Deadlines = TimerRef -> Option<int>

  ghost predicate NoDuplicates(s: seq<TimerRef>) {
    forall i, j | 0 <= i < j < |s| :: s[i] != s[j]
  }

  ghost predicate Sorted(ts: seq<TimerRef>, d: Deadlines) {
    && (forall r | r in ts :: d(r).Some?)
    && forall i, j | 0 <= i < j < |ts| :: d(ts[i]).value <= d(ts[j]).value
  }

  /** The schedule of every event but ref. */
  ghost predicate ScheduledBut(ts: seq<TimerRef>, d: Deadlines, ref: TimerRef) {
    && NoDuplicates(ts) && Sorted(ts, d)
    && forall r :: r in ts <==> r != ref && d(r).Some?
  }

  ghost predicate Scheduled(ts: seq<TimerRef>, d: Deadlines) {
    && NoDuplicates(ts) && Sorted(ts, d)
    && forall r :: r in ts <==> d(r).Some?
  }

  ghost predicate AgreeBut(d: Deadlines, e: Deadlines, ref: TimerRef) {
    forall r | r != ref :: d(r) == e(r)
  }

  /** Position p is where an event with this timeout belongs. */
  ghost predicate Splits(ts: seq<TimerRef>, d: Deadlines, timeout: int, p: nat)
    requires p <= |ts| && Sorted(ts, d)
  {
    && (forall i | 0 <= i < p :: d(ts[i]).value <= timeout)
    && (forall i | p <= i < |ts| :: timeout < d(ts[i]).value)
  }

  lemma ButFrame(ts: seq<TimerRef>, d: Deadlines, e: Deadlines, ref: TimerRef)
    requires ScheduledBut(ts, d, ref) && AgreeBut(d, e, ref)
    ensures ScheduledBut(ts, e, ref)
  {
    forall i | 0 <= i < |ts| ensures d(ts[i]) == e(ts[i]) {
      assert ts[i] in ts;
    }
  }

  lemma ScheduleFrame(ts: seq<TimerRef>, d: Deadlines, e: Deadlines)
    requires Scheduled(ts, d) && forall r :: d(r) == e(r)
    ensures Scheduled(ts, e)
  {
    forall i | 0 <= i < |ts| ensures d(ts[i]) == e(ts[i]) {
      assert ts[i] in ts;
    }
  }

  lemma ScheduleNone(ts: seq<TimerRef>, d: Deadlines, ref: TimerRef)
    requires d(ref).None?
    ensures Scheduled(ts, d) <==> ScheduledBut(ts, d, ref)
  {
  }

  lemma InsertIndex(s: seq<TimerRef>, p: nat, x: TimerRef)
    requires p <= |s|
    ensures |Insert(s, p, x)| == |s| + 1
    ensures forall i | 0 <= i <= |s| :: Insert(s, p, x)[i] == if i < p then s[i] else if i == p then x else s[i - 1]
  {
  }

  lemma InsertElements(s: seq<TimerRef>, p: nat, x: TimerRef)
    requires p <= |s|
    ensures forall y :: y in Insert(s, p, x) <==> y == x || y in s
  {
    InsertIndex(s, p, x);
    forall y | y in s ensures y in Insert(s, p, x) {
      var i :| 0 <= i < |s| && s[i] == y;
      assert Insert(s, p, x)[if i < p then i else i + 1] == y;
    }
    assert Insert(s, p, x)[p] == x;
  }

  lemma InsertDistinct(s: seq<TimerRef>, p: nat, x: TimerRef)
    requires p <= |s| && NoDuplicates(s) && x !in s
    ensures NoDuplicates(Insert(s, p, x))
  {
    InsertIndex(s, p, x);
  }

  lemma InsertSorted(ts: seq<TimerRef>, d: Deadlines, ref: TimerRef, p: nat)
    requires Sorted(ts, d) && d(ref).Some? && p <= |ts| && Splits(ts, d, d(ref).value, p)
    ensures Sorted(Insert(ts, p, ref), d)
  {
    InsertIndex(ts, p, ref);
    InsertElements(ts, p, ref);
    var us := Insert(ts, p, ref);
    forall i, j | 0 <= i < j < |us| ensures d(us[i]).value <= d(us[j]).value {
      if i == p {
        assert us[j] == ts[j - 1];
      } else if j == p {
        assert us[i] == ts[i];
      }
    }
  }

  /** An event without a place in the schedule is inserted where it belongs. */
  lemma ScheduleInsert(ts: seq<TimerRef>, d: Deadlines, ref: TimerRef, p: nat)
    requires ScheduledBut(ts, d, ref) && d(ref).Some? && p <= |ts| && Splits(ts, d, d(ref).value, p)
    ensures Scheduled(Insert(ts, p, ref), d)
  {
    hide NoDuplicates, Sorted, Splits;
    InsertElements(ts, p, ref);
    InsertDistinct(ts, p, ref);
    InsertSorted(ts, d, ref, p);
  }

  lemma {:induction false} RemoveElements(s: seq<TimerRef>, x: TimerRef)
    requires NoDuplicates(s)
    ensures NoDuplicates(RemoveFirst(s, x))
    ensures forall y :: y in RemoveFirst(s, x) <==> y in s && y != x
  {
    if s != [] {
      var rest := s[1..];
      assert forall i | 0 <= i < |rest| :: rest[i] == s[i + 1];
      assert s[0] !in rest;
      RemoveElements(rest, x);
      assert forall y :: y in s <==> y == s[0] || y in rest;
      if s[0] != x {
        NoDuplicatesCons(s[0], RemoveFirst(rest, x));
      }
    }
  }

  lemma NoDuplicatesCons(x: TimerRef, s: seq<TimerRef>)
    requires NoDuplicates(s) && x !in s
    ensures NoDuplicates([x] + s)
    ensures forall y :: y in [x] + s <==> y == x || y in s
  {
  }

  lemma {:induction false} RemoveSorted(ts: seq<TimerRef>, d: Deadlines, ref: TimerRef)
    requires Sorted(ts, d) && NoDuplicates(ts)
    ensures Sorted(RemoveFirst(ts, ref), d)
  {
    if ts != [] {
      var rest := ts[1..];
      assert forall i | 0 <= i < |rest| :: rest[i] == ts[i + 1];
      assert forall r | r in rest :: r in ts;
      RemoveSorted(rest, d, ref);
      RemoveElements(rest, ref);
      if ts[0] != ref {
        SortedCons(ts[0], RemoveFirst(rest, ref), d);
      }
    }
  }

  lemma SortedCons(r: TimerRef, ts: seq<TimerRef>, d: Deadlines)
    requires Sorted(ts, d) && d(r).Some? && forall x | x in ts :: d(r).value <= d(x).value
    ensures Sorted([r] + ts, d)
  {
  }

  /** Erasing an event leaves the schedule of all the others. */
  lemma ScheduleRemove(ts: seq<TimerRef>, d: Deadlines, ref: TimerRef)
    requires Scheduled(ts, d)
    ensures ScheduledBut(RemoveFirst(ts, ref), d, ref)
  {
    RemoveElements(ts, ref);
    RemoveSorted(ts, d, ref);
  }
}
