/** Aging does not depend on the tick schedule, and nobody overtakes a query that aged to priority 0. */
module AgingTheorems {
  import opened Lists
  import opened MasterModel
  import opened MasterTheorems

  // ---------------------------------------------------------------- the tick keeps the scheduler consistent

  lemma AgeKeepsLinks(b: Qcb, now: nat, interval: nat)
    requires 0 < interval
    ensures var a := Age(b, now, interval);
            a == b.(priority := a.priority, readySince := a.readySince) && a.priority <= b.priority
  {
  }

  lemma TickKeeps(m: Master, now: nat, sorted: seq<int>)
    requires Consistent(m) && 0 < m.agingInterval && SortedForm(m.ready, AgeAll(m, now), sorted)
    ensures Consistent(Tick(m, now, sorted))
  {
    var t := Tick(m, now, sorted);
    forall q | q in m.queries
      ensures t.queries[q] == m.queries[q].(priority := t.queries[q].priority, readySince := t.queries[q].readySince)
    {
      AgeKeepsLinks(m.queries[q], now, m.agingInterval);
    }
    SameElements(m.ready, sorted);
    TickSorted(m, now, sorted);
    hide Ascending, NoDup, Age, ReadySorted, SortedForm, PrioritiesChanged;
    assert t.queries.Keys == m.queries.Keys;
    assert Partitioned(t);
    PartitionedIsLinked(t);
  }

  lemma TickSorted(m: Master, now: nat, sorted: seq<int>)
    requires Consistent(m) && 0 < m.agingInterval && SortedForm(m.ready, AgeAll(m, now), sorted)
    ensures ReadySorted(Tick(m, now, sorted))
  {
    if !PrioritiesChanged(m, now) && m.byPriority {
      forall i | 0 <= i < |m.ready| && m.ready[i] in m.queries
        ensures AgeAll(m, now)[m.ready[i]].priority == m.queries[m.ready[i]].priority
      {
        var q := m.ready[i];
        assert q in m.ready && q in m.queries;
      }
    }
  }

  // ---------------------------------------------------------------- priority as a function of time

  function Max0(x: int): nat {
    if x > 0 then x else 0
  }

  /** The priority after waiting since `since` until `t`, whatever ticks there were. */
  function Aged(priority: nat, since: nat, t: nat, interval: nat): nat
    requires 0 < interval && since <= t
  {
    Max0(priority - (t - since) / interval)
  }

  /** The machine arithmetic of a tick does not overflow: clocks are below 2^64 milliseconds and the wait is
      below 2^31 intervals. */
  predicate InRange(since: nat, t: nat, interval: nat)
    requires 0 < interval
  {
    since <= t < TWO64 && (t - since) / interval < TWO31
  }

  lemma IntervalsAreWhole(since: nat, t: nat, interval: nat)
    requires 0 < interval && InRange(since, t, interval)
    ensures Elapsed(t, since) == t - since && Intervals(t, since, interval) == (t - since) / interval
  {
    assert t - since < TWO64;
  }

  /** Time already counted is not lost: the timestamp advances by whole intervals. */
  lemma WholeIntervals(since: nat, t: nat, interval: nat, n: nat)
    requires 0 < interval && since + n * interval <= t
    ensures (t - since) / interval == n + (t - (since + n * interval)) / interval
  {
    var d := t - (since + n * interval);
    assert t - since == d + n * interval;
    DivAddMultiple(d, n, interval);
  }

  lemma {:induction false} DivAddMultiple(d: nat, n: nat, k: nat)
    requires 0 < k
    ensures (d + n * k) / k == n + d / k
  {
    var q, r := d / k, d % k;
    assert d + n * k == (q + n) * k + r;
    DivUnique(d + n * k, k, q + n, r);
  }

  lemma {:induction false} MulApart(q: nat, r: nat, k: nat)
    requires q < r
    ensures q * k + k <= r * k
    decreases r
  {
    if q + 1 < r {
      MulApart(q, r - 1, k);
    }
    assert r * k == (r - 1) * k + k;
  }

  lemma DivUnique(x: nat, k: nat, q: nat, r: nat)
    requires 0 < k && x == q * k + r && r < k
    ensures x / k == q
  {
    var p := x / k;
    assert x == p * k + x % k;
    if p < q {
      MulApart(p, q, k);
    } else if q < p {
      MulApart(q, p, k);
    }
  }

  lemma TickAges(b: Qcb, t: nat, interval: nat)
    requires 0 < interval && b.state == Ready && 0 < b.readySince && InRange(b.readySince, t, interval)
    ensures var a := Age(b, t, interval);
            && a.state == Ready && a.priority == Aged(b.priority, b.readySince, t, interval)
            && (b.priority > 0 ==>
                  a.readySince == b.readySince + (t - b.readySince) / interval * interval && b.readySince <= a.readySince <= t)
            && (b.priority == 0 ==> a == b)
  {
    IntervalsAreWhole(b.readySince, t, interval);
    var d := t - b.readySince;
    assert d == d / interval * interval + d % interval;
    if d < interval {
      DivUnique(d, interval, 0, d);
    }
  }

  /** The ticks at the given times, one after the other. */
  function AgeTicks(b: Qcb, ticks: seq<nat>, interval: nat): Qcb
    requires 0 < interval
    decreases |ticks|
  {
    if ticks == [] then b else AgeTicks(Age(b, ticks[0], interval), ticks[1..], interval)
  }

  ghost predicate Increasing(ticks: seq<nat>) {
    forall i, j :: 0 <= i < j < |ticks| ==> ticks[i] <= ticks[j]
  }

  lemma {:induction false} ZeroStays(b: Qcb, ticks: seq<nat>, interval: nat)
    requires 0 < interval && b.priority == 0
    ensures AgeTicks(b, ticks, interval).priority == 0
    decreases |ticks|
  {
    if ticks != [] {
      ZeroStays(Age(b, ticks[0], interval), ticks[1..], interval);
    }
  }

  lemma DivMonotone(x: nat, y: nat, k: nat)
    requires 0 < k && x <= y
    ensures x / k <= y / k
  {
    var p, q := x / k, y / k;
    assert x == p * k + x % k && y == q * k + y % k;
    if q < p {
      MulApart(q, p, k);
    }
  }

  lemma AgedNeverRises(priority: nat, since: nat, t: nat, last: nat, interval: nat)
    requires 0 < interval && since <= t <= last && InRange(since, last, interval)
    ensures InRange(since, t, interval) && Aged(priority, since, last, interval) <= Aged(priority, since, t, interval)
  {
    DivMonotone(t - since, last - since, interval);
  }

  /** Counting on from the advanced timestamp gives what counting from the first one gives. */
  lemma AgedOnwards(priority: nat, since: nat, t: nat, last: nat, interval: nat, a: Qcb)
    requires 0 < interval && since <= t <= last && InRange(since, last, interval)
    requires a.readySince == since + (t - since) / interval * interval && since <= a.readySince <= t
    requires a.priority == Aged(priority, since, t, interval) > 0
    ensures InRange(a.readySince, last, interval)
    ensures Aged(a.priority, a.readySince, last, interval) == Aged(priority, since, last, interval)
  {
    WholeIntervals(since, last, interval, (t - since) / interval);
    DivMonotone(last - a.readySince, last - since, interval);
  }

  /** Aging is independent of the tick schedule: only the time of the last tick counts. */
  lemma {:induction false} AgingIsScheduleFree(b: Qcb, ticks: seq<nat>, interval: nat)
    requires 0 < interval && b.state == Ready && 0 < b.readySince && ticks != [] && Increasing(ticks)
    requires b.readySince <= ticks[0] && InRange(b.readySince, ticks[|ticks| - 1], interval)
    ensures AgeTicks(b, ticks, interval).priority == Aged(b.priority, b.readySince, ticks[|ticks| - 1], interval)
    decreases |ticks|
  {
    var t, last := ticks[0], ticks[|ticks| - 1];
    assert b.readySince <= t <= last;
    AgedNeverRises(b.priority, b.readySince, t, last, interval);
    TickAges(b, t, interval);
    hide Age, Aged, InRange;
    var a := Age(b, t, interval);
    var rest := ticks[1..];
    if a.priority == 0 {
      ZeroStays(a, rest, interval);
    } else if rest != [] {
      ZeroPriority(b, t, interval);
      AgedOnwards(b.priority, b.readySince, t, last, interval, a);
      assert a.readySince <= rest[0] && rest[|rest| - 1] == last;
      AgingIsScheduleFree(a, rest, interval);
    }
  }

  lemma ZeroPriority(b: Qcb, t: nat, interval: nat)
    requires 0 < interval && b.readySince <= t && Aged(b.priority, b.readySince, t, interval) > 0
    ensures b.priority > 0
  {
    DivMonotone(0, t - b.readySince, interval);
  }

  // ---------------------------------------------------------------- where the machine arithmetic fails

  /** The conversion to int keeps exactly the counts below 2^31. */
  lemma ToIntIff(n: nat)
    ensures ToInt(n) <= n && (ToInt(n) == n <==> n < TWO31)
  {
    assert n == n / TWO32 * TWO32 + n % TWO32;
  }

  /** One tick after a wait of `n` whole intervals gives the right priority exactly when the count fits in an
      int, or nothing is left to subtract, or what the conversion leaves of the count is still enough. */
  lemma TickAgesIff(b: Qcb, t: nat, interval: nat)
    requires 0 < interval && b.state == Ready && 0 < b.readySince <= t < TWO64
    ensures var n := (t - b.readySince) / interval;
            Age(b, t, interval).priority == Aged(b.priority, b.readySince, t, interval) <==>
            n < TWO31 || b.priority == 0 || ToInt(n) >= b.priority
  {
    var d := t - b.readySince;
    var n := d / interval;
    assert Elapsed(t, b.readySince) == d;
    ToIntIff(n);
    if d < interval {
      DivUnique(d, interval, 0, d);
    } else {
      DivMonotone(interval, d, interval);
      DivUnique(interval, interval, 1, 0);
    }
  }

  /** A tick whose clock was read before the query turned READY must leave it alone. It does so exactly when
      the wrapped-around count is not positive; otherwise it subtracts that count. */
  lemma LateTickIff(b: Qcb, t: nat, interval: nat)
    requires 0 < interval && b.state == Ready && t < b.readySince < TWO64
    ensures Age(b, t, interval) == b <==> b.priority == 0 || Intervals(t, b.readySince, interval) <= 0
    ensures Intervals(t, b.readySince, interval) > 0 ==>
              Age(b, t, interval).priority == Max0(b.priority - Intervals(t, b.readySince, interval))
  {
    var d := Elapsed(t, b.readySince);
    assert d == TWO64 - (b.readySince - t);
    if d < interval {
      DivUnique(d, interval, 0, d);
    }
  }

  /** The tick reads its clock before it takes the lock. A query that became READY in between has waited a
      negative time: with an interval of one second it drops to priority 0 at once. */
  lemma LateTimestampDropsToZero(b: Qcb, now: nat)
    requires b.state == Ready && b.readySince == now + 1 && b.priority < 256
    ensures Age(b, now, 1000).priority == 0
  {
    assert Elapsed(now, b.readySince) == TWO64 - 1;
    assert (TWO64 - 1) / 1000 == 18446744073709551;
    assert ToInt(18446744073709551) == 1271310319;
  }

  /** With an interval of one millisecond the same query is left alone. */
  lemma LateTimestampKept(b: Qcb, now: nat)
    requires b.state == Ready && b.readySince == now + 1
    ensures Age(b, now, 1) == b
  {
    assert Elapsed(now, b.readySince) == TWO64 - 1;
    assert ToInt(TWO64 - 1) == -1;
  }
}
