/** Weighted build times: a sweep over sorted start and stop events charges each
    task its share of the elapsed time. */
module NinjaSweep {

  class Target {
    const start: real
    const end: real
    var targets: seq<string>
    var weightedDuration: real

    constructor (start: real, end: real)
      ensures this.start == start && this.end == end && targets == [] && weightedDuration == 0.0
    {
      this.start, this.end := start, end;
      targets, weightedDuration := [], 0.0;
    }
  }

  ghost predicate Distinct(ts: seq<Target>) {
    forall i, j :: 0 <= i < j < |ts| ==> ts[i] != ts[j]
  }

  ghost predicate Ordered(ts: seq<Target>) {
    forall t :: t in ts ==> t.start <= t.end
  }

  // ---- Events ------------------------------------------------------------------

  datatype Kind = Start | Stop

  datatype Event = Event(time: real, kind: Kind, target: Target)

  function StartOf(t: Target): Event { Event(t.start, Start, t) }
  function StopOf(t: Target): Event { Event(t.end, Stop, t) }

  /** The sort key (time, action): "start" comes before "stop". */
  predicate KeyLeq(a: Event, b: Event) {
    a.time < b.time || (a.time == b.time && (a.kind == Start || b.kind == Stop))
  }

  ghost predicate Sorted(es: seq<Event>) {
    forall i, j :: 0 <= i <= j < |es| ==> KeyLeq(es[i], es[j])
  }

  ghost predicate NoDup(es: seq<Event>) {
    forall i, j :: 0 <= i < j < |es| ==> es[i] != es[j]
  }

  /** The events of the tasks, once each, in key order. Tasks that share a time
      stamp may come in any order. */
  ghost predicate Timeline(ts: seq<Target>, es: seq<Event>) {
    && Distinct(ts) && Sorted(es) && NoDup(es)
    && (forall t :: t in ts ==> StartOf(t) in es && StopOf(t) in es)
    && (forall i :: 0 <= i < |es| ==> es[i].target in ts && (es[i] == StartOf(es[i].target) || es[i] == StopOf(es[i].target)))
  }

  function Insert(es: seq<Event>, e: Event): (r: seq<Event>)
    decreases |es|
  {
    if |es| == 0 || KeyLeq(es[|es|-1], e) then es + [e]
    else Insert(es[..|es|-1], e) + [es[|es|-1]]
  }

  function SortByKey(es: seq<Event>): seq<Event> {
    if |es| == 0 then [] else Insert(SortByKey(es[..|es|-1]), es[|es|-1])
  }

  lemma {:induction false} InsertKeeps(es: seq<Event>, e: Event)
    requires Sorted(es)
    ensures Sorted(Insert(es, e)) && multiset(Insert(es, e)) == multiset(es) + multiset{e}
  {
    if |es| == 0 || KeyLeq(es[|es|-1], e) {
    } else {
      var init, last := es[..|es|-1], es[|es|-1];
      assert es == init + [last];
      InsertKeeps(init, e);
      forall x | x in Insert(init, e) ensures KeyLeq(x, last) {
        assert x in multiset(Insert(init, e));
      }
    }
  }

  /** Sorting yields the same events, in key order. */
  lemma {:induction false} SortKeeps(es: seq<Event>)
    ensures Sorted(SortByKey(es)) && multiset(SortByKey(es)) == multiset(es)
  {
    if |es| > 0 {
      var init, last := es[..|es|-1], es[|es|-1];
      assert es == init + [last];
      SortKeeps(init);
      InsertKeeps(SortByKey(init), last);
    }
  }

  lemma {:induction false} NoDupIsCount(es: seq<Event>)
    ensures NoDup(es) <==> forall e :: e in es ==> multiset(es)[e] == 1
  {
    if |es| > 0 {
      var init, last := es[..|es|-1], es[|es|-1];
      assert es == init + [last];
      NoDupIsCount(init);
      if NoDup(es) {
        assert NoDup(init);
        assert last !in init;
      } else if NoDup(init) {
        var i, j :| 0 <= i < j < |es| && es[i] == es[j];
        assert j == |es| - 1 && init[i] == last;
        assert last in multiset(init);
      } else {
        var e :| e in init && multiset(init)[e] != 1;
        assert e in multiset(init) && e in es;
      }
    }
  }

  // ---- The sweep as a function of the events --------------------------------------

  /** The tasks running after the first k events. */
  ghost function Running(es: seq<Event>, k: nat): set<Target>
    requires k <= |es|
  {
    if k == 0 then {}
    else if es[k-1].kind == Start then Running(es, k - 1) + {es[k-1].target}
    else Running(es, k - 1) - {es[k-1].target}
  }

  /** The weighted time charged to each running task in the gap before event k. */
  ghost function Charge(es: seq<Event>, k: nat): real
    requires k < |es|
  {
    if k == 0 || |Running(es, k)| == 0 then 0.0
    else (es[k].time - es[k-1].time) / (|Running(es, k)| as real)
  }

  /** The accumulated weighted time once the first k events are processed. */
  ghost function Clock(es: seq<Event>, k: nat): real
    requires k <= |es|
  {
    if k == 0 then 0.0 else Clock(es, k - 1) + Charge(es, k - 1)
  }

  /** The sum of the charges of the gaps in which t runs, up to event k. */
  ghost function Share(es: seq<Event>, t: Target, k: nat): real
    requires k <= |es|
  {
    if k == 0 then 0.0
    else Share(es, t, k - 1) + if t in Running(es, k - 1) then Charge(es, k - 1) else 0.0
  }

  /** Total length of the gaps, up to event k, in which something runs. */
  ghost function Busy(es: seq<Event>, k: nat): real
    requires k <= |es|
  {
    if k == 0 then 0.0
    else Busy(es, k - 1) + if k > 1 && Running(es, k - 1) != {} then es[k-1].time - es[k-2].time else 0.0
  }

  // ---- Which tasks run in a gap ------------------------------------------------------

  /** With its start at or before its end, a task does not stop before it starts. */
  lemma StopNotYet(ts: seq<Target>, es: seq<Event>, t: Target, i: nat)
    requires Timeline(ts, es) && t in ts && t.start <= t.end && i < |es| && es[i] == StartOf(t)
    ensures forall j :: 0 <= j <= i ==> es[j] != StopOf(t)
  {
    forall j | 0 <= j <= i ensures es[j] != StopOf(t) { assert KeyLeq(es[j], es[i]); }
  }

  lemma {:induction false} RunningIs(ts: seq<Target>, es: seq<Event>, k: nat, t: Target)
    requires Timeline(ts, es) && Ordered(ts) && k <= |es| && t in ts
    ensures t in Running(es, k) <==> StartOf(t) in es[..k] && StopOf(t) !in es[..k]
  {
    hide Timeline, Ordered;
    if k > 0 {
      RunningIs(ts, es, k - 1, t);
      assert es[..k] == es[..k-1] + [es[k-1]];
      EventIs(ts, es, k - 1, t);
      if es[k-1] == StartOf(t) { NotStopped(ts, es, k, t); }
    }
  }

  lemma EventIs(ts: seq<Target>, es: seq<Event>, k: nat, t: Target)
    requires Timeline(ts, es) && k < |es|
    ensures es[k].target == t ==> es[k] == StartOf(t) || es[k] == StopOf(t)
  {}

  lemma NotStopped(ts: seq<Target>, es: seq<Event>, k: nat, t: Target)
    requires Timeline(ts, es) && Ordered(ts) && 0 < k <= |es| && t in ts && es[k-1] == StartOf(t)
    ensures StopOf(t) !in es[..k]
  {
    hide Timeline;
    StopNotYet(ts, es, t, k - 1);
  }

  /** The tasks whose interval contains [a, b]. */
  ghost function Cover(ts: seq<Target>, a: real, b: real): set<Target> {
    set t | t in ts && t.start <= a && b <= t.end
  }

  /** In a gap between two events the running tasks are those whose interval
      contains the gap. */
  lemma RunningCoversGap(ts: seq<Target>, es: seq<Event>, k: nat)
    requires Timeline(ts, es) && Ordered(ts) && 0 < k < |es| && es[k-1].time < es[k].time
    ensures Running(es, k) == Cover(ts, es[k-1].time, es[k].time)
  {
    forall t | t in ts ensures t in Running(es, k) <==> t in Cover(ts, es[k-1].time, es[k].time) {
      RunningIs(ts, es, k, t);
      var i :| 0 <= i < |es| && es[i] == StartOf(t);
      var j :| 0 <= j < |es| && es[j] == StopOf(t);
      assert StartOf(t) in es[..k] <==> i < k by { Position(es, i, k); }
      assert StopOf(t) in es[..k] <==> j < k by { Position(es, j, k); }
      if i < k { assert KeyLeq(es[i], es[k-1]); } else { assert KeyLeq(es[k], es[i]); }
      if j < k { assert KeyLeq(es[j], es[k-1]); } else { assert KeyLeq(es[k], es[j]); }
    }
    RunningSubset(ts, es, k);
  }

  lemma TimesAscend(ts: seq<Target>, es: seq<Event>, k: nat)
    requires Timeline(ts, es) && 0 < k < |es|
    ensures es[k-1].time <= es[k].time
  {
    assert KeyLeq(es[k-1], es[k]);
  }

  lemma Position(es: seq<Event>, i: nat, k: nat)
    requires NoDup(es) && i < |es| && k <= |es|
    ensures es[i] in es[..k] <==> i < k
  {
    assert i < k ==> es[..k][i] == es[i];
  }

  // ---- Sums over tasks -----------------------------------------------------------------

  ghost function All(ts: seq<Target>): set<Target> { set t | t in ts }

  /** The shares, up to event k, of the tasks in s. */
  ghost function SumShares(ts: seq<Target>, s: set<Target>, es: seq<Event>, k: nat): real
    requires k <= |es|
  {
    if |ts| == 0 then 0.0
    else SumShares(ts[..|ts|-1], s, es, k) + if ts[|ts|-1] in s then Share(es, ts[|ts|-1], k) else 0.0
  }

  lemma {:induction false} SumSharesAdd(ts: seq<Target>, s: set<Target>, t: Target, es: seq<Event>, k: nat)
    requires Distinct(ts) && t in ts && t !in s && k <= |es|
    ensures SumShares(ts, s + {t}, es, k) == SumShares(ts, s, es, k) + Share(es, t, k)
  {
    hide Share;
    var init, last := ts[..|ts|-1], ts[|ts|-1];
    assert ts == init + [last];
    if last == t {
      SumSharesSame(init, s, s + {t}, es, k);
    } else {
      SumSharesAdd(init, s, t, es, k);
    }
  }

  lemma {:induction false} SumSharesSame(ts: seq<Target>, s: set<Target>, s': set<Target>, es: seq<Event>, k: nat)
    requires k <= |es| && forall t :: t in ts ==> (t in s <==> t in s')
    ensures SumShares(ts, s, es, k) == SumShares(ts, s', es, k)
  {
    hide Share;
    if |ts| > 0 { SumSharesSame(ts[..|ts|-1], s, s', es, k); }
  }

  ghost function CountIn(ts: seq<Target>, s: set<Target>): nat {
    if |ts| == 0 then 0 else CountIn(ts[..|ts|-1], s) + if ts[|ts|-1] in s then 1 else 0
  }

  /** A list without repetitions counts every member of a subset once. */
  lemma {:induction false} CountIsSize(ts: seq<Target>, s: set<Target>)
    requires Distinct(ts) && s <= All(ts)
    ensures CountIn(ts, s) == |s|
  {
    if |ts| > 0 {
      var init, last := ts[..|ts|-1], ts[|ts|-1];
      assert ts == init + [last];
      CountIsSize(init, s - {last});
      CountSame(init, s, s - {last});
    } else {
      assert s == {};
    }
  }

  lemma {:induction false} CountSame(ts: seq<Target>, s: set<Target>, s': set<Target>)
    requires forall t :: t in ts ==> (t in s <==> t in s')
    ensures CountIn(ts, s) == CountIn(ts, s')
  {
    if |ts| > 0 { CountSame(ts[..|ts|-1], s, s'); }
  }

  /** One more event charges every running task the same amount. */
  lemma {:induction false} SumSharesStep(ts: seq<Target>, all: set<Target>, es: seq<Event>, k: nat)
    requires 0 < k <= |es| && All(ts) <= all
    ensures SumShares(ts, all, es, k)
         == SumShares(ts, all, es, k - 1) + (CountIn(ts, Running(es, k - 1)) as real) * Charge(es, k - 1)
  {
    hide Running, Charge;
    if |ts| > 0 {
      var init, last := ts[..|ts|-1], ts[|ts|-1];
      assert ts == init + [last];
      SumSharesStep(init, all, es, k);
      var n, c := CountIn(init, Running(es, k - 1)), Charge(es, k - 1);
      assert ((n + 1) as real) * c == (n as real) * c + c;
    }
  }

  /** Up to any event, the shares of all tasks add up to the busy time. */
  lemma {:induction false} SharesAddUp(ts: seq<Target>, es: seq<Event>, k: nat)
    requires Timeline(ts, es) && Ordered(ts) && k <= |es|
    ensures SumShares(ts, All(ts), es, k) == Busy(es, k)
  {
    hide Running, Charge, CountIn, SumShares, Sorted, NoDup;
    if k == 0 {
      NoShares(ts, All(ts), es);
    } else {
      SharesAddUp(ts, es, k - 1);
      var r := Running(es, k - 1);
      RunningSubset(ts, es, k - 1);
      SumSharesStep(ts, All(ts), es, k);
      CountIsSize(ts, r);
      ChargeAll(es, k - 1);
    }
  }

  lemma ChargeAll(es: seq<Event>, k: nat)
    requires k < |es|
    ensures (|Running(es, k)| as real) * Charge(es, k)
         == if k > 0 && Running(es, k) != {} then es[k].time - es[k-1].time else 0.0
  {
    hide Running;
    var n := |Running(es, k)|;
    if k > 0 && n > 0 {
      ShareOf(es[k].time - es[k-1].time, n as real);
    }
  }

  lemma ShareOf(x: real, n: real)
    requires n > 0.0
    ensures n * (x / n) == x
  {}

  lemma {:induction false} NoShares(ts: seq<Target>, s: set<Target>, es: seq<Event>)
    ensures SumShares(ts, s, es, 0) == 0.0
  {
    if |ts| > 0 { NoShares(ts[..|ts|-1], s, es); }
  }

  lemma {:induction false} RunningSubset(ts: seq<Target>, es: seq<Event>, k: nat)
    requires Timeline(ts, es) && k <= |es|
    ensures Running(es, k) <= All(ts)
  {
    if k > 0 { RunningSubset(ts, es, k - 1); }
  }

  // ---- One task's share --------------------------------------------------------------------

  /** The events at which a task starts and stops. */
  ghost predicate Spans(ts: seq<Target>, es: seq<Event>, t: Target, i: nat, j: nat) {
    && Timeline(ts, es) && Ordered(ts) && t in ts
    && i < j < |es| && es[i] == StartOf(t) && es[j] == StopOf(t)
  }

  lemma HasSpan(ts: seq<Target>, es: seq<Event>, t: Target) returns (i: nat, j: nat)
    requires Timeline(ts, es) && Ordered(ts) && t in ts
    ensures Spans(ts, es, t, i, j)
  {
    i :| 0 <= i < |es| && es[i] == StartOf(t);
    j :| 0 <= j < |es| && es[j] == StopOf(t);
    StopNotYet(ts, es, t, i);
  }

  lemma RunsWithin(ts: seq<Target>, es: seq<Event>, t: Target, i: nat, j: nat, k: nat)
    requires Spans(ts, es, t, i, j) && k <= |es|
    ensures t in Running(es, k) <==> i < k <= j
  {
    RunningIs(ts, es, k, t);
    Position(es, i, k);
    Position(es, j, k);
  }

  /** A task's share is the progress of the weighted clock while it runs. */
  lemma {:induction false} ShareIsClock(ts: seq<Target>, es: seq<Event>, t: Target, i: nat, j: nat, k: nat)
    requires Spans(ts, es, t, i, j) && k <= |es|
    ensures k <= i + 1 ==> Share(es, t, k) == 0.0
    ensures i + 1 <= k <= j + 1 ==> Share(es, t, k) == Clock(es, k) - Clock(es, i + 1)
    ensures j + 1 <= k ==> Share(es, t, k) == Clock(es, j + 1) - Clock(es, i + 1)
  {
    hide Timeline, Ordered, Running, Charge;
    if k > 0 {
      ShareIsClock(ts, es, t, i, j, k - 1);
      RunsWithin(ts, es, t, i, j, k - 1);
    }
  }

  /** While a task runs, the weighted clock is no faster than real time. */
  lemma {:induction false} ClockBounds(ts: seq<Target>, es: seq<Event>, t: Target, i: nat, j: nat, k: nat)
    requires Spans(ts, es, t, i, j) && i < k <= j + 1
    ensures 0.0 <= Clock(es, k) - Clock(es, i + 1) <= es[k-1].time - es[i].time
  {
    hide Running, Timeline, Ordered;
    if k > i + 1 {
      ClockBounds(ts, es, t, i, j, k - 1);
      RunsWithin(ts, es, t, i, j, k - 1);
      TimesAscend(ts, es, k - 1);
      assert t in Running(es, k - 1) && |Running(es, k - 1)| > 0;
      Fraction(es[k-1].time - es[k-2].time, |Running(es, k - 1)| as real);
    }
  }

  lemma Fraction(x: real, n: real)
    requires x >= 0.0 && n >= 1.0
    ensures 0.0 <= x / n <= x
  {}

  /** A weighted duration lies between zero and the duration. */
  lemma ShareBounds(ts: seq<Target>, es: seq<Event>, t: Target)
    requires Timeline(ts, es) && Ordered(ts) && t in ts
    ensures 0.0 <= Share(es, t, |es|) <= t.end - t.start
  {
    hide Share, Clock, Timeline, Ordered;
    var i, j := HasSpan(ts, es, t);
    ShareIsClock(ts, es, t, i, j, |es|);
    ClockBounds(ts, es, t, i, j, j + 1);
  }

  // ---- The elementary gaps, without the sweep --------------------------------------------------

  /** The sum, over the gaps that a task's interval contains, of gap length
      divided by the number of tasks whose interval contains the gap. */
  ghost function GapShare(ts: seq<Target>, es: seq<Event>, t: Target, k: nat): real
    requires k <= |es|
  {
    if k <= 1 then 0.0
    else
      var a, b := es[k-2].time, es[k-1].time;
      GapShare(ts, es, t, k - 1)
      + if a < b && t in Cover(ts, a, b) && |Cover(ts, a, b)| > 0 then (b - a) / (|Cover(ts, a, b)| as real) else 0.0
  }

  /** The measure of the union of the task intervals, by elementary gaps. */
  ghost function UnionMeasure(ts: seq<Target>, es: seq<Event>, k: nat): real
    requires k <= |es|
  {
    if k <= 1 then 0.0
    else
      var a, b := es[k-2].time, es[k-1].time;
      UnionMeasure(ts, es, k - 1) + if Cover(ts, a, b) != {} then b - a else 0.0
  }

  lemma {:induction false} ShareIsGapShare(ts: seq<Target>, es: seq<Event>, t: Target, k: nat)
    requires Timeline(ts, es) && Ordered(ts) && t in ts && k <= |es|
    ensures Share(es, t, k) == GapShare(ts, es, t, k)
  {
    hide Running, Cover, Timeline, Ordered;
    if k > 0 {
      ShareIsGapShare(ts, es, t, k - 1);
      if k > 1 {
        TimesAscend(ts, es, k - 1);
        if es[k-2].time < es[k-1].time { RunningCoversGap(ts, es, k - 1); }
      }
    }
  }

  lemma {:induction false} BusyIsUnion(ts: seq<Target>, es: seq<Event>, k: nat)
    requires Timeline(ts, es) && Ordered(ts) && k <= |es|
    ensures Busy(es, k) == UnionMeasure(ts, es, k)
  {
    hide Running, Cover, Timeline, Ordered;
    if k > 1 {
      BusyIsUnion(ts, es, k - 1);
      TimesAscend(ts, es, k - 1);
      if es[k-2].time < es[k-1].time { RunningCoversGap(ts, es, k - 1); }
    }
  }

  /** Conservation: the weighted durations of all tasks add up to the measure of
      the union of their intervals. */
  lemma Conservation(ts: seq<Target>, es: seq<Event>)
    requires Timeline(ts, es) && Ordered(ts)
    ensures SumShares(ts, All(ts), es, |es|) == UnionMeasure(ts, es, |es|)
  {
    SharesAddUp(ts, es, |es|);
    BusyIsUnion(ts, es, |es|);
  }

  /** Total length of the gaps no task covers. */
  ghost function Idle(ts: seq<Target>, es: seq<Event>, k: nat): real
    requires k <= |es|
  {
    if k <= 1 then 0.0
    else
      var a, b := es[k-2].time, es[k-1].time;
      Idle(ts, es, k - 1) + if Cover(ts, a, b) == {} then b - a else 0.0
  }

  /** Busy and idle time make up the whole span, and neither is negative. */
  lemma {:induction false} UnionAndIdle(ts: seq<Target>, es: seq<Event>, k: nat)
    requires Timeline(ts, es) && 0 < k <= |es|
    ensures UnionMeasure(ts, es, k) + Idle(ts, es, k) == es[k-1].time - es[0].time
    ensures UnionMeasure(ts, es, k) >= 0.0 && Idle(ts, es, k) >= 0.0
  {
    hide Timeline, Cover;
    if k > 1 {
      UnionAndIdle(ts, es, k - 1);
      TimesAscend(ts, es, k - 1);
    }
  }

  // ---- Time stamps are whole milliseconds: counting covered ticks ---------------------------------

  ghost predicate Milli(x: real) { (Ms(x) as real) == x * 1000.0 }

  ghost function Ms(x: real): int { (x * 1000.0).Floor }

  ghost predicate AllMilli(ts: seq<Target>) {
    forall t :: t in ts ==> Milli(t.start) && Milli(t.end)
  }

  /** The milliseconds of [lo, hi) during which some task runs. */
  ghost function Ticks(ts: seq<Target>, lo: int, hi: int): set<int> {
    set n | lo <= n < hi && TickCovered(ts, n)
  }

  ghost predicate TickCovered(ts: seq<Target>, n: int) {
    exists t :: t in ts && Ms(t.start) <= n < Ms(t.end)
  }

  ghost function Interval(a: int, b: int): (s: set<int>)
    requires a <= b
    ensures |s| == b - a && forall n :: n in s <==> a <= n < b
    decreases b - a
  {
    if a == b then {} else Interval(a, b - 1) + {b - 1}
  }

  lemma EventMilli(ts: seq<Target>, es: seq<Event>, k: nat)
    requires Timeline(ts, es) && AllMilli(ts) && k < |es|
    ensures Milli(es[k].time)
  {}

  /** No event lies strictly inside the gap before event k. */
  lemma NothingInside(ts: seq<Target>, es: seq<Event>, k: nat, e: Event)
    requires Timeline(ts, es) && 0 < k < |es| && e in es
    ensures e.time <= es[k-1].time || es[k].time <= e.time
  {
    var i :| 0 <= i < |es| && es[i] == e;
    if i < k { assert KeyLeq(es[i], es[k-1]); } else { assert KeyLeq(es[k], es[i]); }
  }

  /** A tick of a gap is covered exactly when the whole gap is. */
  lemma GapTicks(ts: seq<Target>, es: seq<Event>, k: nat, n: int)
    requires Timeline(ts, es) && AllMilli(ts) && 0 < k < |es|
    requires Ms(es[k-1].time) <= n < Ms(es[k].time)
    ensures TickCovered(ts, n) <==> Cover(ts, es[k-1].time, es[k].time) != {}
  {
    var a, b := es[k-1].time, es[k].time;
    EventMilli(ts, es, k - 1);
    EventMilli(ts, es, k);
    forall t | t in ts ensures Ms(t.start) <= n < Ms(t.end) <==> t in Cover(ts, a, b) {
      NothingInside(ts, es, k, StartOf(t));
      NothingInside(ts, es, k, StopOf(t));
    }
    if Cover(ts, a, b) != {} {
      var t :| t in Cover(ts, a, b);
    }
  }

  /** The measure of the union, in milliseconds, is the number of ticks covered. */
  lemma {:induction false} UnionCountsTicks(ts: seq<Target>, es: seq<Event>, k: nat)
    requires Timeline(ts, es) && AllMilli(ts) && 0 < k <= |es|
    ensures UnionMeasure(ts, es, k) * 1000.0 == |Ticks(ts, Ms(es[0].time), Ms(es[k-1].time))| as real
  {
    hide Timeline, AllMilli, Cover, TickCovered;
    var lo := Ms(es[0].time);
    if k == 1 {
      assert Ticks(ts, lo, lo) == {};
    } else {
      UnionCountsTicks(ts, es, k - 1);
      var a, b := Ms(es[k-2].time), Ms(es[k-1].time);
      TimesAscend(ts, es, k - 1);
      EventMilli(ts, es, k - 2);
      EventMilli(ts, es, k - 1);
      FirstIsEarliest(ts, es, k - 2);
      EventMilli(ts, es, 0);
      TickSplit(ts, lo, a, b);
      GapTickCount(ts, es, k - 1);
    }
  }

  lemma {:induction false} FirstIsEarliest(ts: seq<Target>, es: seq<Event>, k: nat)
    requires Timeline(ts, es) && k < |es|
    ensures es[0].time <= es[k].time && Ms(es[0].time) <= Ms(es[k].time)
  {
    assert KeyLeq(es[0], es[k]);
    FloorMonotone(es[0].time * 1000.0, es[k].time * 1000.0);
  }

  lemma FloorMonotone(x: real, y: real)
    requires x <= y
    ensures x.Floor <= y.Floor
  {}

  lemma TickSplit(ts: seq<Target>, lo: int, a: int, b: int)
    requires lo <= a <= b
    ensures |Ticks(ts, lo, b)| == |Ticks(ts, lo, a)| + |Ticks(ts, a, b)|
  {
    hide TickCovered;
    assert Ticks(ts, lo, b) == Ticks(ts, lo, a) + Ticks(ts, a, b);
    assert Ticks(ts, lo, a) !! Ticks(ts, a, b);
  }

  lemma GapTickCount(ts: seq<Target>, es: seq<Event>, k: nat)
    requires Timeline(ts, es) && AllMilli(ts) && 0 < k < |es|
    ensures |Ticks(ts, Ms(es[k-1].time), Ms(es[k].time))|
         == if Cover(ts, es[k-1].time, es[k].time) != {} then Ms(es[k].time) - Ms(es[k-1].time) else 0
  {
    hide Cover, TickCovered, Timeline, AllMilli;
    var a, b := Ms(es[k-1].time), Ms(es[k].time);
    TimesAscend(ts, es, k);
    FloorMonotone(es[k-1].time * 1000.0, es[k].time * 1000.0);
    forall n | a <= n < b ensures TickCovered(ts, n) <==> Cover(ts, es[k-1].time, es[k].time) != {} {
      GapTicks(ts, es, k, n);
    }
    if Cover(ts, es[k-1].time, es[k].time) != {} {
      assert Ticks(ts, a, b) == Interval(a, b);
    } else {
      assert Ticks(ts, a, b) == {};
    }
  }

  // ---- The sweep ----------------------------------------------------------------------------------

  lemma {:induction false} RunningStarted(ts: seq<Target>, es: seq<Event>, k: nat, t: Target)
    requires Timeline(ts, es) && k <= |es| && t in Running(es, k)
    ensures StartOf(t) in es[..k]
  {
    if k > 0 {
      assert es[..k] == es[..k-1] + [es[k-1]];
      if t in Running(es, k - 1) { RunningStarted(ts, es, k - 1, t); }
    }
  }

  /** A stop that finds its task running comes after the start. */
  lemma StopAfterStart(ts: seq<Target>, es: seq<Event>, k: nat)
    requires Timeline(ts, es) && k < |es| && es[k].kind == Stop && es[k].target in Running(es, k)
    ensures es[k].target.start <= es[k].target.end
  {
    var t := es[k].target;
    RunningStarted(ts, es, k, t);
    var i :| 0 <= i < k && es[..k][i] == StartOf(t);
    assert KeyLeq(es[i], es[k]);
  }
}
