/** The report itself: reading a build log into tasks, and the sweep that sets
    their weighted durations. */
module NinjaReport {
  import opened NinjaSweep

  // ---- Collecting the events ------------------------------------------------------

  function EventsOf(ts: seq<Target>): seq<Event> {
    if |ts| == 0 then [] else EventsOf(ts[..|ts|-1]) + [StartOf(ts[|ts|-1]), StopOf(ts[|ts|-1])]
  }

  lemma {:induction false} EventsAre(ts: seq<Target>)
    ensures |EventsOf(ts)| == 2 * |ts|
    ensures forall i :: 0 <= i < |ts| ==>
      EventsOf(ts)[2 * i] == StartOf(ts[i]) && EventsOf(ts)[2 * i + 1] == StopOf(ts[i])
  {
    if |ts| > 0 { EventsAre(ts[..|ts|-1]); }
  }

  lemma {:induction false} EventsNoDup(ts: seq<Target>)
    requires Distinct(ts)
    ensures NoDup(EventsOf(ts))
    ensures forall e :: e in EventsOf(ts) ==> e.target in ts && (e == StartOf(e.target) || e == StopOf(e.target))
  {
    if |ts| > 0 { EventsNoDup(ts[..|ts|-1]); }
  }

  function TimelineOf(ts: seq<Target>): seq<Event> { SortByKey(EventsOf(ts)) }

  /** Sorting the events of the tasks gives a timeline. */
  lemma SortedTimeline(ts: seq<Target>)
    requires Distinct(ts)
    ensures Timeline(ts, TimelineOf(ts)) && |TimelineOf(ts)| == 2 * |ts|
  {
    hide SortByKey, EventsOf;
    var es, sorted := EventsOf(ts), TimelineOf(ts);
    EventsAre(ts);
    EventsNoDup(ts);
    SortKeeps(es);
    SameEvents(es, sorted);
    forall t | t in ts ensures StartOf(t) in sorted && StopOf(t) in sorted {
      var i :| 0 <= i < |ts| && ts[i] == t;
      assert es[2 * i] in es && es[2 * i + 1] in es;
    }
    forall i | 0 <= i < |sorted|
      ensures sorted[i].target in ts && (sorted[i] == StartOf(sorted[i].target) || sorted[i] == StopOf(sorted[i].target))
    {
      assert sorted[i] in multiset(sorted);
      assert sorted[i] in es;
    }
  }

  lemma SameEvents(a: seq<Event>, b: seq<Event>)
    requires multiset(a) == multiset(b) && NoDup(a)
    ensures NoDup(b) && |a| == |b| && forall e :: e in a <==> e in b
  {
    assert |multiset(a)| == |a| && |multiset(b)| == |b|;
    forall e | e in a ensures e in b { assert e in multiset(a); }
    forall e | e in b ensures e in a { assert e in multiset(b); }
    NoDupIsCount(a);
    NoDupIsCount(b);
  }

  /** First loop of the report: the events, the span and the summed durations. */
  method Collect(entries: seq<Target>) returns (events: seq<Event>, earliest: real, latest: real, cpu: real)
    ensures events == EventsOf(entries)
    ensures entries != [] && (forall t :: t in entries ==> 0.0 <= t.start) ==>
      (exists t :: t in entries && earliest == t.start) && forall t :: t in entries ==> earliest <= t.start
    ensures entries != [] && (forall t :: t in entries ==> 0.0 <= t.end) ==>
      (exists t :: t in entries && latest == t.end) && forall t :: t in entries ==> t.end <= latest
    ensures cpu == TotalDuration(entries)
  {
    events, earliest, latest, cpu := [], -1.0, 0.0, 0.0;
    for i := 0 to |entries|
      invariant events == EventsOf(entries[..i])
      invariant cpu == TotalDuration(entries[..i])
      invariant i == 0 ==> earliest == -1.0 && latest == 0.0
      invariant i > 0 && (forall t :: t in entries[..i] ==> 0.0 <= t.start) ==>
        (exists t :: t in entries[..i] && earliest == t.start) && forall t :: t in entries[..i] ==> earliest <= t.start
      invariant 0.0 <= latest && forall t :: t in entries[..i] ==> t.end <= latest
      invariant latest == 0.0 || exists t :: t in entries[..i] && latest == t.end
    {
      var target := entries[i];
      assert entries[..i + 1] == entries[..i] + [target];
      if earliest < 0.0 || target.start < earliest { earliest := target.start; }
      if target.end > latest { latest := target.end; }
      cpu := cpu + (target.end - target.start);
      events := events + [StartOf(target), StopOf(target)];
    }
    assert entries[..|entries|] == entries;
    if entries != [] && latest == 0.0 { assert entries[0] in entries; }
  }

  ghost function TotalDuration(ts: seq<Target>): real {
    if |ts| == 0 then 0.0 else TotalDuration(ts[..|ts|-1]) + (ts[|ts|-1].end - ts[|ts|-1].start)
  }

  // ---- The sweep --------------------------------------------------------------------

  /** The tasks whose stop is among the first k events. */
  ghost function Stopped(ts: seq<Target>, es: seq<Event>, k: nat): set<Target>
    requires k <= |es|
  {
    set t | t in ts && StopOf(t) in es[..k]
  }

  /** Every running task remembers the weighted clock at its start. */
  ghost predicate Remembers(es: seq<Event>, k: nat, running: map<Target, real>)
    requires k <= |es|
  {
    && running.Keys == Running(es, k)
    && forall t :: t in running ==> exists i :: 0 <= i < k && es[i] == StartOf(t) && running[t] == Clock(es, i + 1)
  }

  lemma RunningNext(es: seq<Event>, k: nat)
    requires k < |es|
    ensures Running(es, k + 1)
         == if es[k].kind == Start then Running(es, k) + {es[k].target} else Running(es, k) - {es[k].target}
  {}

  lemma RememberStart(es: seq<Event>, k: nat, running: map<Target, real>)
    requires k < |es| && es[k] == StartOf(es[k].target) && Remembers(es, k, running)
    ensures Remembers(es, k + 1, running[es[k].target := Clock(es, k + 1)])
  {
    hide Clock, Running;
    RunningNext(es, k);
    var next := running[es[k].target := Clock(es, k + 1)];
    assert next.Keys == running.Keys + {es[k].target};
    forall t | t in next
      ensures exists i :: 0 <= i < k + 1 && es[i] == StartOf(t) && next[t] == Clock(es, i + 1)
    {
      if t == es[k].target {
        assert es[k] == StartOf(t);
      } else {
        var i :| 0 <= i < k && es[i] == StartOf(t) && running[t] == Clock(es, i + 1);
      }
    }
  }

  lemma ForgetStop(es: seq<Event>, k: nat, running: map<Target, real>)
    requires k < |es| && es[k].kind == Stop && Remembers(es, k, running)
    ensures Remembers(es, k + 1, running - {es[k].target})
  {
    hide Clock, Running;
    RunningNext(es, k);
    var next := running - {es[k].target};
    forall t | t in next
      ensures exists i :: 0 <= i < k + 1 && es[i] == StartOf(t) && next[t] == Clock(es, i + 1)
    {
      var i :| 0 <= i < k && es[i] == StartOf(t) && running[t] == Clock(es, i + 1);
    }
  }

  /** At a stop, the progress of the weighted clock since the start is the share. */
  lemma StopShare(ts: seq<Target>, es: seq<Event>, k: nat, running: map<Target, real>)
    requires Timeline(ts, es) && Ordered(ts) && k < |es| && es[k].kind == Stop
    requires Remembers(es, k, running) && es[k].target in running
    ensures Clock(es, k + 1) - running[es[k].target] == Share(es, es[k].target, |es|)
  {
    hide Clock, Share;
    var t := es[k].target;
    var i :| 0 <= i < k && es[i] == StartOf(t) && running[t] == Clock(es, i + 1);
    ShareIsClock(ts, es, t, i, k, |es|);
  }

  lemma StopFindsTask(ts: seq<Target>, es: seq<Event>, k: nat)
    requires Timeline(ts, es) && Ordered(ts) && k < |es| && es[k].kind == Stop
    ensures es[k].target in Running(es, k)
  {
    var t := es[k].target;
    var i, j := HasSpan(ts, es, t);
    RunsWithin(ts, es, t, i, j, k);
  }

  lemma StopOnce(ts: seq<Target>, es: seq<Event>, k: nat)
    requires Timeline(ts, es) && k < |es| && es[k].kind == Stop
    ensures es[k].target !in Stopped(ts, es, k)
    ensures Stopped(ts, es, k + 1) == Stopped(ts, es, k) + {es[k].target}
  {
    assert es[..k + 1] == es[..k] + [es[k]];
    Position(es, k, k);
  }

  lemma StartStopsNone(ts: seq<Target>, es: seq<Event>, k: nat)
    requires Timeline(ts, es) && k < |es| && es[k].kind == Start
    ensures Stopped(ts, es, k + 1) == Stopped(ts, es, k)
  {
    assert es[..k + 1] == es[..k] + [es[k]];
  }

  /** What the fields hold once the tasks in `done` have stopped. */
  ghost predicate Recorded(done: set<Target>, es: seq<Event>)
    reads done
  {
    forall t :: t in done ==> t.weightedDuration == Share(es, t, |es|)
  }

  /** The sweep over the sorted events. It fails, on a stop that finds its task
      not running, exactly when some task ends before it starts. */
  method Sweep(entries: seq<Target>, es: seq<Event>) returns (ok: bool, weightedTotal: real)
    requires Timeline(entries, es)
    modifies entries
    ensures ok <==> Ordered(entries)
    ensures ok ==> Recorded(All(entries), es)
    ensures ok ==> weightedTotal == SumShares(entries, All(entries), es, |es|)
  {
    hide Timeline, Ordered, Share, SumShares, Remembers, Stopped, Clock, Running, Recorded;
    weightedTotal := 0.0;
    var running: map<Target, real> := map[];
    var lastTime := if |es| > 0 then es[0].time else 0.0;
    var lastWeighted := 0.0;
    Begin(entries, es);
    for k := 0 to |es|
      invariant Remembers(es, k, running)
      invariant lastWeighted == Clock(es, k)
      invariant k > 0 ==> lastTime == es[k-1].time
      invariant forall j :: 0 <= j < k && es[j].kind == Stop ==> es[j].target in Running(es, j)
      invariant Ordered(entries) ==> Recorded(Stopped(entries, es, k), es)
      invariant Ordered(entries) ==> weightedTotal == SumShares(entries, Stopped(entries, es, k), es, |es|)
    {
      var e := es[k];
      var numRunning := |running|;
      ClockNext(es, k, running);
      if numRunning > 0 {
        lastWeighted := lastWeighted + (e.time - lastTime) / (numRunning as real);
      }
      EventTarget(entries, es, k);
      if e.kind == Start {
        StartStopsNone(entries, es, k);
        RememberStart(es, k, running);
        running := running[e.target := lastWeighted];
      } else {
        if e.target !in running {
          NotOrdered(entries, es, k, running);
          return false, weightedTotal;
        }
        weightedTotal := RecordStop(entries, es, k, running, lastWeighted, weightedTotal);
        ForgetStop(es, k, running);
        running := running - {e.target};
      }
      lastTime := e.time;
    }
    Finish(entries, es, running);
    assert |running| == 0;
    ok := true;
  }

  /** What an event adds to the weighted clock. */
  lemma ClockNext(es: seq<Event>, k: nat, running: map<Target, real>)
    requires k < |es| && Remembers(es, k, running)
    ensures |running| > 0 ==> k > 0 && Clock(es, k + 1) == Clock(es, k) + (es[k].time - es[k-1].time) / (|running| as real)
    ensures |running| == 0 ==> Clock(es, k + 1) == Clock(es, k)
    ensures running.Keys == Running(es, k)
  {
    KeysRun(es, k, running);
  }

  lemma Begin(ts: seq<Target>, es: seq<Event>)
    ensures Remembers(es, 0, map[]) && Stopped(ts, es, 0) == {} && Recorded({}, es) && Clock(es, 0) == 0.0
    ensures SumShares(ts, {}, es, |es|) == 0.0
  {
    EmptySum(ts, es);
  }

  lemma {:induction false} EmptySum(ts: seq<Target>, es: seq<Event>)
    ensures SumShares(ts, {}, es, |es|) == 0.0
  {
    if |ts| > 0 { EmptySum(ts[..|ts|-1], es); }
  }

  lemma KeysRun(es: seq<Event>, k: nat, running: map<Target, real>)
    requires k <= |es| && Remembers(es, k, running)
    ensures running.Keys == Running(es, k) && |running| == |Running(es, k)|
    ensures k == 0 ==> |running| == 0
  {
    assert |running| == |running.Keys|;
  }

  lemma EventTarget(ts: seq<Target>, es: seq<Event>, k: nat)
    requires Timeline(ts, es) && k < |es|
    ensures es[k].target in ts
    ensures es[k].kind == Start ==> es[k] == StartOf(es[k].target)
    ensures es[k].kind == Stop ==> es[k] == StopOf(es[k].target)
  {}

  lemma NotOrdered(ts: seq<Target>, es: seq<Event>, k: nat, running: map<Target, real>)
    requires Timeline(ts, es) && k < |es| && es[k].kind == Stop && Remembers(es, k, running)
    requires es[k].target !in running
    ensures !Ordered(ts)
  {
    if Ordered(ts) { StopFindsTask(ts, es, k); }
  }

  method RecordStop(entries: seq<Target>, es: seq<Event>, k: nat, running: map<Target, real>,
                    lastWeighted: real, total: real)
    returns (weightedTotal: real)
    requires Timeline(entries, es) && k < |es| && es[k].kind == Stop && es[k].target in entries
    requires Remembers(es, k, running) && es[k].target in running && lastWeighted == Clock(es, k + 1)
    requires Ordered(entries) ==> Recorded(Stopped(entries, es, k), es)
    requires Ordered(entries) ==> total == SumShares(entries, Stopped(entries, es, k), es, |es|)
    modifies es[k].target
    ensures Ordered(entries) ==> Recorded(Stopped(entries, es, k + 1), es)
    ensures Ordered(entries) ==> weightedTotal == SumShares(entries, Stopped(entries, es, k + 1), es, |es|)
  {
    hide Share, SumShares, Clock, Stopped;
    var t := es[k].target;
    var weightedDuration := lastWeighted - running[t];
    t.weightedDuration := weightedDuration;
    weightedTotal := total + weightedDuration;
    if Ordered(entries) {
      StopShare(entries, es, k, running);
      StopOnce(entries, es, k);
      SumSharesAdd(entries, Stopped(entries, es, k), t, es, |es|);
    }
  }

  lemma Finish(ts: seq<Target>, es: seq<Event>, running: map<Target, real>)
    requires Timeline(ts, es) && Remembers(es, |es|, running)
    requires forall j :: 0 <= j < |es| && es[j].kind == Stop ==> es[j].target in Running(es, j)
    ensures Ordered(ts) && Stopped(ts, es, |es|) == All(ts) && |running| == 0
  {
    hide Timeline, Ordered, Running, Remembers, Stopped;
    StopsFound(ts, es);
    NoneLeft(ts, es);
    KeysRun(es, |es|, running);
    AllStopped(ts, es);
  }

  lemma AllStopped(ts: seq<Target>, es: seq<Event>)
    requires Timeline(ts, es)
    ensures Stopped(ts, es, |es|) == All(ts)
  {
    assert es[..|es|] == es;
  }

  lemma StopsFound(ts: seq<Target>, es: seq<Event>)
    requires Timeline(ts, es)
    requires forall j :: 0 <= j < |es| && es[j].kind == Stop ==> es[j].target in Running(es, j)
    ensures Ordered(ts)
  {
    forall t | t in ts ensures t.start <= t.end {
      var j :| 0 <= j < |es| && es[j] == StopOf(t);
      StopAfterStart(ts, es, j);
    }
  }

  /** No task is running after the last event. */
  lemma NoneLeft(ts: seq<Target>, es: seq<Event>)
    requires Timeline(ts, es) && Ordered(ts)
    ensures Running(es, |es|) == {}
  {
    hide Running;
    assert es[..|es|] == es;
    forall t | t in ts ensures t !in Running(es, |es|) { RunningIs(ts, es, |es|, t); }
    RunningSubset(ts, es, |es|);
  }

  // ---- The summary ----------------------------------------------------------------------

  /** IndexError on no entries, KeyError on a stop without its start, or the
      figures of the report. */
  datatype Summary =
    | NoEntries
    | StopWithoutStart
    | Summary(length: real, weightedTotal: real, totalCpuTime: real)

  /** `length` reaches from the earliest start to the latest end. */
  ghost predicate SpanIs(ts: seq<Target>, length: real) {
    exists a, b :: a in ts && b in ts && length == b.end - a.start && forall t :: t in ts ==> a.start <= t.start && t.end <= b.end
  }

  ghost predicate NonNegative(ts: seq<Target>) { forall t :: t in ts ==> 0.0 <= t.start }

  method SummarizeEntries(entries: seq<Target>) returns (r: Summary)
    requires Distinct(entries)
    modifies entries
    ensures r.NoEntries? <==> entries == []
    ensures r.Summary? <==> entries != [] && Ordered(entries)
    ensures r.Summary? ==> Recorded(All(entries), TimelineOf(entries))
    ensures r.Summary? ==> r.totalCpuTime == TotalDuration(entries)
    ensures r.Summary? && NonNegative(entries) ==> SpanIs(entries, r.length)
    ensures r.Summary? ==>
      r.weightedTotal == UnionMeasure(entries, TimelineOf(entries), |TimelineOf(entries)|)
    ensures r.Summary? && NonNegative(entries) ==>
      r.length - r.weightedTotal == Idle(entries, TimelineOf(entries), |TimelineOf(entries)|) >= 0.0
  {
    hide SortByKey, EventsOf, Timeline, UnionMeasure, Idle, Recorded, TotalDuration, SpanIs;
    var events, earliest, latest, cpu := Collect(entries);
    var sorted := SortByKey(events);
    SortedTimeline(entries);
    if |entries| == 0 { return NoEntries; }
    var ok, weightedTotal := Sweep(entries, sorted);
    if !ok { return StopWithoutStart; }
    r := Summary(latest - earliest, weightedTotal, cpu);
    Conservation(entries, sorted);
    UnionAndIdle(entries, sorted, |sorted|);
    if NonNegative(entries) {
      assert earliest == sorted[0].time && latest == sorted[|sorted|-1].time by {
        SpanEnds(entries, sorted, earliest, latest);
      }
      SpanFound(entries, earliest, latest);
    }
  }

  lemma SpanFound(ts: seq<Target>, earliest: real, latest: real)
    requires (exists t :: t in ts && earliest == t.start) && forall t :: t in ts ==> earliest <= t.start
    requires (exists t :: t in ts && latest == t.end) && forall t :: t in ts ==> t.end <= latest
    ensures SpanIs(ts, latest - earliest)
  {
    var a :| a in ts && earliest == a.start;
    var b :| b in ts && latest == b.end;
    assert latest - earliest == b.end - a.start;
  }

  /** The first event is the earliest start and the last one the latest end. */
  lemma SpanEnds(ts: seq<Target>, es: seq<Event>, earliest: real, latest: real)
    requires Timeline(ts, es) && Ordered(ts) && |es| > 0
    requires (exists t :: t in ts && earliest == t.start) && forall t :: t in ts ==> earliest <= t.start
    requires (exists t :: t in ts && latest == t.end) && forall t :: t in ts ==> t.end <= latest
    ensures earliest == es[0].time && latest == es[|es|-1].time
  {
    hide Timeline;
    var a :| a in ts && earliest == a.start;
    var b :| b in ts && latest == b.end;
    FirstEvent(ts, es, a);
    LastEvent(ts, es, b);
  }

  lemma FirstEvent(ts: seq<Target>, es: seq<Event>, a: Target)
    requires Timeline(ts, es) && Ordered(ts) && |es| > 0 && a in ts && forall t :: t in ts ==> a.start <= t.start
    ensures es[0].time == a.start
  {
    var i :| 0 <= i < |es| && es[i] == StartOf(a);
    assert KeyLeq(es[0], es[i]) && es[0].target in ts;
  }

  lemma LastEvent(ts: seq<Target>, es: seq<Event>, b: Target)
    requires Timeline(ts, es) && Ordered(ts) && |es| > 0 && b in ts && forall t :: t in ts ==> t.end <= b.end
    ensures es[|es|-1].time == b.end
  {
    var j :| 0 <= j < |es| && es[j] == StopOf(b);
    assert KeyLeq(es[j], es[|es|-1]) && es[|es|-1].target in ts;
  }

  /** For the whole-millisecond stamps of a build log, the reported total is the
      number of milliseconds during which at least one task ran. */
  lemma TotalCountsTicks(ts: seq<Target>, lo: int, hi: int)
    requires Distinct(ts) && Ordered(ts) && AllMilli(ts) && ts != []
    requires forall t :: t in ts ==> lo <= Ms(t.start) && Ms(t.end) <= hi
    ensures UnionMeasure(ts, TimelineOf(ts), |TimelineOf(ts)|) * 1000.0 == |Ticks(ts, lo, hi)| as real
  {
    hide TimelineOf, UnionMeasure, AllMilli;
    SortedTimeline(ts);
    var es := TimelineOf(ts);
    UnionCountsTicks(ts, es, |es|);
    forall t | t in ts ensures Ms(es[0].time) <= Ms(t.start) && Ms(t.end) <= Ms(es[|es|-1].time) {
      var i :| 0 <= i < |es| && es[i] == StartOf(t);
      var j :| 0 <= j < |es| && es[j] == StopOf(t);
      assert KeyLeq(es[0], es[i]) && KeyLeq(es[j], es[|es|-1]);
      FloorMonotone(es[0].time * 1000.0, t.start * 1000.0);
      FloorMonotone(t.end * 1000.0, es[|es|-1].time * 1000.0);
    }
    assert Ticks(ts, lo, hi) == Ticks(ts, Ms(es[0].time), Ms(es[|es|-1].time));
  }

  // ---- Reading the log -------------------------------------------------------------------

  /** A line of five fields; any other line is skipped. */
  datatype Line = Corrupt | Record(start: int, end: int, name: string, cmdhash: string)

  ghost predicate Records(rs: seq<Line>) { forall i :: 0 <= i < |rs| ==> rs[i].Record? }

  function Parsed(log: seq<Line>): (rs: seq<Line>)
    ensures Records(rs)
  {
    if |log| == 0 then []
    else Parsed(log[..|log|-1]) + if log[|log|-1].Record? then [log[|log|-1]] else []
  }

  function Seconds(ms: int): real { (ms as real) / 1000.0 }

  /** Record i cannot belong to the same build as records k to i. */
  ghost predicate NewBuild(rs: seq<Line>, showAll: bool, k: nat, i: nat)
    requires Records(rs) && k <= i < |rs|
  {
    && !showAll
    && (|| rs[i].end < (if i == 0 then 0 else rs[i-1].end)
        || exists j :: k <= j < i && rs[j].cmdhash == rs[i].cmdhash && (rs[j].start != rs[i].start || rs[j].end != rs[i].end))
  }

  /** Where the build that record i - 1 belongs to begins. */
  ghost function BuildStart(rs: seq<Line>, showAll: bool, i: nat): (k: nat)
    requires Records(rs) && i <= |rs|
    ensures k <= i && (i > 0 ==> k < i)
  {
    if i == 0 then 0
    else
      var k := BuildStart(rs, showAll, i - 1);
      if NewBuild(rs, showAll, k, i - 1) then i - 1 else k
  }

  /** The records kept are those of one build: end times never go back, and a
      command seen twice has the same times. */
  lemma {:induction false} OneBuild(rs: seq<Line>, i: nat, a: nat, b: nat)
    requires Records(rs) && i <= |rs| && BuildStart(rs, false, i) <= a <= b < i
    ensures rs[a].end <= rs[b].end
    ensures rs[a].cmdhash == rs[b].cmdhash ==> rs[a].start == rs[b].start && rs[a].end == rs[b].end
  {
    if b < i - 1 {
      OneBuild(rs, i - 1, a, b);
    } else if a < b {
      OneBuild(rs, i - 1, a, b - 1);
    }
  }

  /** A build is cut off only where it must be: its first record, unless it is the
      first of all, ends before the one ahead of it, or disagrees with a record of
      the build before on the times of a command. */
  lemma {:induction false} BuildForced(rs: seq<Line>, i: nat)
    requires Records(rs) && i <= |rs|
    ensures var k := BuildStart(rs, false, i);
      k == 0
      || rs[k].end < rs[k-1].end
      || exists j :: BuildStart(rs, false, k) <= j < k && rs[j].cmdhash == rs[k].cmdhash
                     && (rs[j].start != rs[k].start || rs[j].end != rs[k].end)
  {
    if i > 0 { BuildForced(rs, i - 1); }
  }

  /** With everything shown, no record is thrown away. */
  lemma {:induction false} AllShown(rs: seq<Line>, i: nat)
    requires Records(rs) && i <= |rs|
    ensures BuildStart(rs, true, i) == 0
  {
    if i > 0 { AllShown(rs, i - 1); }
  }

  /** The build of a record depends only on the records before it. */
  lemma {:induction false} BuildStartPrefix(rs: seq<Line>, showAll: bool, i: nat)
    requires Records(rs) && i <= |rs|
    ensures BuildStart(rs, showAll, i) == BuildStart(rs[..i], showAll, i)
    decreases i
  {
    hide NewBuild;
    if i > 0 {
      BuildStartPrefix(rs, showAll, i - 1);
      BuildStartPrefix(rs[..i], showAll, i - 1);
      assert rs[..i][..i-1] == rs[..i-1];
      NewBuildPrefix(rs, showAll, BuildStart(rs, showAll, i - 1), i - 1, i);
    }
  }

  lemma NewBuildPrefix(rs: seq<Line>, showAll: bool, k: nat, i: nat, n: nat)
    requires Records(rs) && k <= i < n <= |rs|
    ensures NewBuild(rs, showAll, k, i) <==> NewBuild(rs[..n], showAll, k, i)
  {
    var init := rs[..n];
    assert forall j :: 0 <= j < n ==> init[j] == rs[j];
  }

  /** The commands of some records, in order of first appearance. */
  function Commands(rs: seq<Line>): seq<string>
    requires Records(rs)
  {
    if |rs| == 0 then []
    else
      var cs, h := Commands(rs[..|rs|-1]), rs[|rs|-1].cmdhash;
      if h in cs then cs else cs + [h]
  }

  /** The outputs of a command, in order. */
  function Names(rs: seq<Line>, h: string): seq<string>
    requires Records(rs)
  {
    if |rs| == 0 then []
    else Names(rs[..|rs|-1], h) + if rs[|rs|-1].cmdhash == h then [rs[|rs|-1].name] else []
  }

  /** The first record of a command. */
  ghost predicate FirstOf(rs: seq<Line>, h: string, j: nat) {
    && j < |rs| && Records(rs) && rs[j].cmdhash == h
    && forall i :: 0 <= i < j ==> rs[i].cmdhash != h
  }

  /** The times of a command are those of its first record. */
  ghost predicate TimesOf(rs: seq<Line>, h: string, start: real, end: real) {
    exists j: nat :: FirstOf(rs, h, j) && start == Seconds(rs[j].start) && end == Seconds(rs[j].end)
  }

  /** A task carries its command's times and all its outputs. */
  ghost predicate Describes(t: Target, rs: seq<Line>, h: string)
    requires Records(rs)
    reads t
  {
    t.targets == Names(rs, h) && TimesOf(rs, h, t.start, t.end)
  }

  /** The dictionary of targets built from the kept records. */
  ghost predicate Grouped(rs: seq<Line>, dict: map<string, Target>)
    requires Records(rs)
    reads dict.Values
  {
    && (forall h :: h in dict <==> h in Commands(rs))
    && (forall h :: h in dict ==> Describes(dict[h], rs, h))
    && (forall h, h' :: h in dict && h' in dict && h != h' ==> dict[h] != dict[h'])
  }

  lemma {:induction false} CommandsHold(rs: seq<Line>, h: string)
    requires Records(rs)
    ensures h in Commands(rs) <==> exists i :: 0 <= i < |rs| && rs[i].cmdhash == h
    ensures h !in Commands(rs) ==> Names(rs, h) == []
    ensures forall i, j :: 0 <= i < j < |Commands(rs)| ==> Commands(rs)[i] != Commands(rs)[j]
  {
    if |rs| > 0 {
      var init := rs[..|rs|-1];
      CommandsHold(init, h);
      CommandsHold(init, rs[|rs|-1].cmdhash);
      assert forall i :: 0 <= i < |init| ==> init[i] == rs[i];
    }
  }

  /** The commands stand in the order of their first records. */
  lemma {:induction false} CommandsInOrder(rs: seq<Line>, i: nat, j: nat, a: nat, b: nat)
    requires Records(rs) && i < j < |Commands(rs)| && FirstOf(rs, Commands(rs)[i], a) && FirstOf(rs, Commands(rs)[j], b)
    ensures a < b
  {
    var init, last := rs[..|rs|-1], rs[|rs|-1].cmdhash;
    CommandsHold(init, last);
    CommandsHold(init, Commands(rs)[i]);
    FirstInInit(rs, Commands(rs)[i], a);
    if j < |Commands(init)| {
      FirstInInit(rs, Commands(rs)[j], b);
      CommandsInOrder(init, i, j, a, b);
    } else {
      assert forall k :: 0 <= k < |init| ==> init[k] == rs[k];
    }
  }

  lemma FirstInInit(rs: seq<Line>, h: string, j: nat)
    requires Records(rs) && FirstOf(rs, h, j) && h in Commands(rs[..|rs|-1])
    ensures FirstOf(rs[..|rs|-1], h, j)
  {
    var init := rs[..|rs|-1];
    CommandsHold(init, h);
    var i :| 0 <= i < |init| && init[i].cmdhash == h;
    assert rs[i].cmdhash == h && j <= i;
  }

  /** The build that the last record belongs to. */
  ghost function Kept(rs: seq<Line>, showAll: bool): (kept: seq<Line>)
    requires Records(rs)
    ensures Records(kept)
  {
    rs[BuildStart(rs, showAll, |rs|)..]
  }

  /** One more record either starts a new build or joins the current one. */
  lemma KeptNext(rs: seq<Line>, showAll: bool, rec: Line)
    requires Records(rs) && rec.Record?
    ensures Records(rs + [rec])
    ensures Kept(rs + [rec], showAll)
         == if NewBuild(rs + [rec], showAll, BuildStart(rs, showAll, |rs|), |rs|) then [rec] else Kept(rs, showAll) + [rec]
  {
    var next := rs + [rec];
    BuildStartPrefix(next, showAll, |rs|);
    assert next[..|rs|] == rs;
  }

  /** The stored times of the command tell whether any kept record disagrees. */
  lemma ConflictWithFirst(rs: seq<Line>, rec: Line, j: nat)
    requires Records(rs) && rec.Record? && FirstOf(Kept(rs, false), rec.cmdhash, j)
    requires |rs| > 0 && rec.end >= rs[|rs|-1].end
    ensures Records(rs + [rec])
    ensures NewBuild(rs + [rec], false, BuildStart(rs, false, |rs|), |rs|)
       <==> (Kept(rs, false)[j].start != rec.start || Kept(rs, false)[j].end != rec.end)
  {
    hide BuildStart, NewBuild, FirstOf, Kept;
    var k := BuildStart(rs, false, |rs|);
    KeptFirst(rs, rec.cmdhash, j);
    forall i | k <= i < |rs| && rs[i].cmdhash == rec.cmdhash ensures SameTimes(rs[i], rs[k + j]) {
      FirstAgrees(rs, rec.cmdhash, j, i);
    }
    NewBuildIff(rs, rec, k, k + j);
  }

  predicate SameTimes(a: Line, b: Line) {
    a.Record? && b.Record? && a.start == b.start && a.end == b.end
  }

  lemma KeptAt(rs: seq<Line>, showAll: bool, j: nat)
    requires Records(rs) && j < |Kept(rs, showAll)|
    ensures BuildStart(rs, showAll, |rs|) + j < |rs|
    ensures Kept(rs, showAll)[j] == rs[BuildStart(rs, showAll, |rs|) + j]
  {
    hide BuildStart, Records;
  }

  lemma KeptLength(rs: seq<Line>, showAll: bool)
    requires Records(rs)
    ensures |Kept(rs, showAll)| == |rs| - BuildStart(rs, showAll, |rs|)
  {
    hide BuildStart, Records;
  }

  lemma FirstIs(rs: seq<Line>, h: string, j: nat)
    requires FirstOf(rs, h, j)
    ensures j < |rs| && rs[j].Record? && rs[j].cmdhash == h
  {}

  lemma FirstIsLeast(rs: seq<Line>, h: string, j: nat, i: nat)
    requires FirstOf(rs, h, j) && i < |rs| && rs[i].Record? && rs[i].cmdhash == h
    ensures j <= i
  {
    hide Records;
  }

  lemma KeptFirst(rs: seq<Line>, h: string, j: nat)
    requires Records(rs) && FirstOf(Kept(rs, false), h, j)
    ensures j < |Kept(rs, false)| && BuildStart(rs, false, |rs|) + j < |rs|
    ensures Kept(rs, false)[j] == rs[BuildStart(rs, false, |rs|) + j]
    ensures rs[BuildStart(rs, false, |rs|) + j].cmdhash == h
  {
    hide BuildStart, Kept, FirstOf;
    FirstIs(Kept(rs, false), h, j);
    KeptAt(rs, false, j);
  }

  /** All kept records of a command have the times of its first one. */
  lemma FirstAgrees(rs: seq<Line>, h: string, j: nat, i: nat)
    requires Records(rs) && FirstOf(Kept(rs, false), h, j)
    requires BuildStart(rs, false, |rs|) <= i < |rs| && rs[i].cmdhash == h
    ensures BuildStart(rs, false, |rs|) + j < |rs| && SameTimes(rs[i], rs[BuildStart(rs, false, |rs|) + j])
  {
    hide BuildStart, Kept, FirstOf;
    var k := BuildStart(rs, false, |rs|);
    KeptFirst(rs, h, j);
    KeptLength(rs, false);
    KeptAt(rs, false, i - k);
    FirstIsLeast(Kept(rs, false), h, j, i - k);
    OneBuild(rs, |rs|, k + j, i);
  }

  lemma NewBuildIff(rs: seq<Line>, rec: Line, k: nat, f: nat)
    requires Records(rs) && rec.Record? && k <= f < |rs| && rs[f].cmdhash == rec.cmdhash && rec.end >= rs[|rs|-1].end
    requires forall i :: k <= i < |rs| && rs[i].cmdhash == rec.cmdhash ==> SameTimes(rs[i], rs[f])
    ensures Records(rs + [rec])
    ensures NewBuild(rs + [rec], false, k, |rs|) <==> !SameTimes(rs[f], rec)
  {
    var next := rs + [rec];
    assert forall i :: 0 <= i < |rs| ==> next[i] == rs[i];
    if !SameTimes(rs[f], rec) {
      assert next[f].cmdhash == next[|rs|].cmdhash && (next[f].start != next[|rs|].start || next[f].end != next[|rs|].end);
    }
  }

  lemma TimesStay(rs: seq<Line>, rec: Line, h: string, start: real, end: real)
    requires rec.Record? && TimesOf(rs, h, start, end)
    ensures TimesOf(rs + [rec], h, start, end)
  {
    var j: nat :| FirstOf(rs, h, j) && start == Seconds(rs[j].start) && end == Seconds(rs[j].end);
    assert FirstOf(rs + [rec], h, j) && (rs + [rec])[j] == rs[j];
  }

  lemma NewFirst(rs: seq<Line>, rec: Line)
    requires Records(rs) && rec.Record? && rec.cmdhash !in Commands(rs)
    ensures Records(rs + [rec]) && Names(rs + [rec], rec.cmdhash) == [rec.name]
    ensures TimesOf(rs + [rec], rec.cmdhash, Seconds(rec.start), Seconds(rec.end))
  {
    CommandsHold(rs, rec.cmdhash);
    assert (rs + [rec])[..|rs|] == rs;
    assert FirstOf(rs + [rec], rec.cmdhash, |rs|);
  }

  /** A command that is already known gets one more output. */
  method AppendName(ghost kept: seq<Line>, rec: Line, dict: map<string, Target>)
    requires Records(kept) && rec.Record? && Grouped(kept, dict) && rec.cmdhash in dict
    modifies dict[rec.cmdhash]
    ensures Records(kept + [rec]) && Grouped(kept + [rec], dict)
    ensures Commands(kept + [rec]) == Commands(kept)
  {
    hide TimesOf;
    ghost var next := kept + [rec];
    assert next[..|kept|] == kept;
    var target := dict[rec.cmdhash];
    forall h | h in dict ensures TimesOf(next, h, dict[h].start, dict[h].end) {
      TimesStay(kept, rec, h, dict[h].start, dict[h].end);
    }
    target.targets := target.targets + [rec.name];
  }

  /** A command seen for the first time gets a target of its own. */
  method AddTarget(ghost kept: seq<Line>, rec: Line, dict0: map<string, Target>) returns (dict: map<string, Target>)
    requires Records(kept) && rec.Record? && Grouped(kept, dict0) && rec.cmdhash !in dict0
    ensures Records(kept + [rec]) && Grouped(kept + [rec], dict)
    ensures Commands(kept + [rec]) == Commands(kept) + [rec.cmdhash]
    ensures forall h :: h in dict ==> (h in dict0 && dict[h] == dict0[h]) || fresh(dict[h])
  {
    hide TimesOf, Seconds;
    ghost var next := kept + [rec];
    assert next[..|kept|] == kept;
    var target := new Target(Seconds(rec.start), Seconds(rec.end));
    target.targets := target.targets + [rec.name];
    dict := dict0[rec.cmdhash := target];
    NewFirst(kept, rec);
    forall h | h in dict0 ensures TimesOf(next, h, dict0[h].start, dict0[h].end) {
      TimesStay(kept, rec, h, dict0[h].start, dict0[h].end);
    }
  }

  ghost function LastEnd(rs: seq<Line>): int
    requires Records(rs)
  {
    if |rs| == 0 then 0 else rs[|rs|-1].end
  }

  /** Whether this record starts a new build, decided from the dictionary alone. */
  method Resets(ghost rs: seq<Line>, showAll: bool, rec: Line, lastEnd: real, dict: map<string, Target>)
    returns (reset: bool)
    requires Records(rs) && rec.Record? && lastEnd == Seconds(LastEnd(rs)) && Grouped(Kept(rs, showAll), dict)
    ensures Records(rs + [rec])
    ensures reset <==> NewBuild(rs + [rec], showAll, BuildStart(rs, showAll, |rs|), |rs|)
  {
    hide BuildStart, Commands, Names;
    var start, end := Seconds(rec.start), Seconds(rec.end);
    assert Seconds(rec.end) < Seconds(LastEnd(rs)) <==> rec.end < LastEnd(rs);
    if !showAll && end < lastEnd { return true; }
    ghost var kept := Kept(rs, showAll);
    if rec.cmdhash in dict {
      var target := dict[rec.cmdhash];
      reset := !showAll && (target.start != start || target.end != end);
      ghost var j: nat :| FirstOf(kept, rec.cmdhash, j) && target.start == Seconds(kept[j].start) && target.end == Seconds(kept[j].end);
      if !showAll { ConflictWithFirst(rs, rec, j); }
    } else {
      reset := false;
      CommandsHold(kept, rec.cmdhash);
      ghost var k := BuildStart(rs, showAll, |rs|);
      assert forall i :: k <= i < |rs| ==> rs[i] == kept[i - k];
    }
  }

  lemma ParsedNone(log: seq<Line>)
    ensures Parsed(log[..0]) == []
  {}

  lemma ParsedNext(log: seq<Line>, n: nat)
    requires n < |log|
    ensures Parsed(log[..n + 1]) == Parsed(log[..n]) + if log[n].Record? then [log[n]] else []
  {
    assert log[..n + 1][..n] == log[..n];
  }

  lemma EmptyBuild(showAll: bool)
    ensures Kept([], showAll) == [] && Commands([]) == []
  {}

  lemma EmptyGroup()
    ensures Grouped([], map[])
  {}

  /** The targets describe the commands of the build, one each. */
  ghost predicate FromLog(ts: seq<Target>, kept: seq<Line>)
    requires Records(kept)
    reads ts
  {
    && |ts| == |Commands(kept)| && Distinct(ts)
    && forall i :: 0 <= i < |ts| ==> Describes(ts[i], kept, Commands(kept)[i])
  }

  /** `ReadTargets`: one target per command of the last build in the log. */
  method ReadTargets(header: string, log: seq<Line>, showAll: bool) returns (ok: bool, r: seq<Target>)
    ensures ok <==> header == "# ninja log v5\n"
    ensures ok ==> FromLog(r, Kept(Parsed(log), showAll)) && forall t :: t in r ==> fresh(t)
  {
    hide Grouped, Commands, Kept, Describes, Parsed;
    if header != "# ninja log v5\n" { return false, []; }
    var dict: map<string, Target>, order: seq<string>, lastEnd := map[], [], 0.0;
    ghost var rs: seq<Line> := [];
    EmptyGroup();
    EmptyBuild(showAll);
    ParsedNone(log);
    for n := 0 to |log|
      invariant rs == Parsed(log[..n])
      invariant Grouped(Kept(rs, showAll), dict) && order == Commands(Kept(rs, showAll))
      invariant lastEnd == Seconds(LastEnd(rs))
      invariant forall h :: h in dict ==> fresh(dict[h])
    {
      ParsedNext(log, n);
      if log[n].Record? {
        dict, order := AddRecord(rs, showAll, log[n], lastEnd, dict, order);
        lastEnd := Seconds(log[n].end);
        rs := rs + [log[n]];
      }
    }
    assert log[..|log|] == log;
    r := Values(Kept(rs, showAll), dict, order);
    ok := true;
  }

  /** The values of the dictionary, in insertion order. */
  method Values(ghost kept: seq<Line>, dict: map<string, Target>, order: seq<string>) returns (r: seq<Target>)
    requires Records(kept) && Grouped(kept, dict) && order == Commands(kept)
    ensures |r| == |order| && Distinct(r)
    ensures forall i :: 0 <= i < |r| ==> Describes(r[i], kept, order[i])
    ensures forall t :: t in r ==> t in dict.Values
  {
    hide Commands, Describes;
    CommandsHold(kept, "");
    r := seq(|order|, i requires 0 <= i < |order| => dict[order[i]]);
  }

  method AddRecord(ghost rs: seq<Line>, showAll: bool, rec: Line, lastEnd: real,
                   dict0: map<string, Target>, order0: seq<string>)
    returns (dict: map<string, Target>, order: seq<string>)
    requires Records(rs) && rec.Record? && lastEnd == Seconds(LastEnd(rs))
    requires Grouped(Kept(rs, showAll), dict0) && order0 == Commands(Kept(rs, showAll))
    modifies dict0.Values
    ensures Records(rs + [rec]) && Grouped(Kept(rs + [rec], showAll), dict)
    ensures order == Commands(Kept(rs + [rec], showAll))
    ensures forall h :: h in dict ==> (h in dict0 && dict[h] == dict0[h]) || fresh(dict[h])
  {
    hide Kept, NewBuild, Describes, Grouped;
    KeptNext(rs, showAll, rec);
    var reset := Resets(rs, showAll, rec, lastEnd, dict0);
    dict, order := dict0, order0;
    ghost var kept := Kept(rs, showAll);
    if reset {
      EmptyGroup();
      dict, order, kept := map[], [], [];
    }
    assert Grouped(kept, dict) && order == Commands(kept) && Kept(rs + [rec], showAll) == kept + [rec];
    if rec.cmdhash in dict {
      AppendName(kept, rec, dict);
    } else {
      dict := AddTarget(kept, rec, dict);
      order := order + [rec.cmdhash];
    }
  }

  // ---- From the log to the report ------------------------------------------------------------

  /** The record that gives a command its times. */
  ghost predicate Timing(kept: seq<Line>, j: nat) {
    j < |kept| && kept[j].Record? && FirstOf(kept, kept[j].cmdhash, j)
  }

  /** No command of the build ends before it starts. */
  ghost predicate Forward(kept: seq<Line>) {
    forall j: nat :: Timing(kept, j) ==> kept[j].start <= kept[j].end
  }

  /** Milliseconds of the log during which some command of the build ran. */
  ghost function LogTicks(kept: seq<Line>, lo: int, hi: int): set<int> {
    set n | lo <= n < hi && LogCovered(kept, n)
  }

  ghost predicate LogCovered(kept: seq<Line>, n: int) {
    exists j: nat :: Timing(kept, j) && kept[j].start <= n < kept[j].end
  }

  ghost predicate Encloses(kept: seq<Line>, lo: int, hi: int) {
    forall j: nat :: Timing(kept, j) ==> lo <= kept[j].start && kept[j].end <= hi
  }

  /** Every target has the times of a timing record, and every timing record
      belongs to a target. */
  lemma TargetHasRecord(ts: seq<Target>, kept: seq<Line>, t: Target) returns (j: nat)
    requires Records(kept) && FromLog(ts, kept) && t in ts
    ensures Timing(kept, j) && t.start == Seconds(kept[j].start) && t.end == Seconds(kept[j].end)
  {
    hide Commands, Names;
    var i :| 0 <= i < |ts| && ts[i] == t;
    j :| FirstOf(kept, Commands(kept)[i], j) && t.start == Seconds(kept[j].start) && t.end == Seconds(kept[j].end);
  }

  lemma RecordHasTarget(ts: seq<Target>, kept: seq<Line>, j: nat) returns (t: Target)
    requires Records(kept) && FromLog(ts, kept) && Timing(kept, j)
    ensures t in ts && t.start == Seconds(kept[j].start) && t.end == Seconds(kept[j].end)
  {
    hide Commands, Names;
    var h := kept[j].cmdhash;
    CommandsHold(kept, h);
    var i :| 0 <= i < |Commands(kept)| && Commands(kept)[i] == h;
    t := ts[i];
    var j': nat :| FirstOf(kept, h, j') && t.start == Seconds(kept[j'].start) && t.end == Seconds(kept[j'].end);
    FirstUnique(kept, h, j, j');
  }

  lemma FirstUnique(rs: seq<Line>, h: string, i: nat, j: nat)
    requires FirstOf(rs, h, i) && FirstOf(rs, h, j)
    ensures i == j
  {
    FirstIs(rs, h, i);
    FirstIs(rs, h, j);
    FirstIsLeast(rs, h, i, j);
    FirstIsLeast(rs, h, j, i);
  }

  lemma StampIsMilli(ms: int)
    ensures Milli(Seconds(ms)) && Ms(Seconds(ms)) == ms
  {
    assert Seconds(ms) * 1000.0 == ms as real;
  }

  /** Targets read from a log carry whole milliseconds; they are ordered exactly when
      no timing record of the build runs backwards; and they cover the log's own
      milliseconds. */
  lemma LogTargets(ts: seq<Target>, kept: seq<Line>, lo: int, hi: int)
    requires Records(kept) && FromLog(ts, kept)
    ensures AllMilli(ts)
    ensures Ordered(ts) <==> Forward(kept)
    ensures Encloses(kept, lo, hi) ==> forall t :: t in ts ==> lo <= Ms(t.start) && Ms(t.end) <= hi
    ensures Ticks(ts, lo, hi) == LogTicks(kept, lo, hi)
  {
    hide FromLog, Seconds, Milli, Ms, FirstOf;
    forall t | t in ts
      ensures Milli(t.start) && Milli(t.end) && (Forward(kept) ==> t.start <= t.end)
      ensures Encloses(kept, lo, hi) ==> lo <= Ms(t.start) && Ms(t.end) <= hi
      ensures forall n :: Ms(t.start) <= n < Ms(t.end) ==> LogCovered(kept, n)
    {
      var j := TargetHasRecord(ts, kept, t);
      RecordStamps(kept[j].start, kept[j].end);
    }
    forall j: nat | Timing(kept, j)
      ensures Ordered(ts) ==> kept[j].start <= kept[j].end
      ensures forall n :: kept[j].start <= n < kept[j].end ==> TickCovered(ts, n)
    {
      var t := RecordHasTarget(ts, kept, j);
      RecordStamps(kept[j].start, kept[j].end);
    }
  }

  lemma RecordStamps(a: int, b: int)
    ensures Milli(Seconds(a)) && Ms(Seconds(a)) == a && Milli(Seconds(b)) && Ms(Seconds(b)) == b
    ensures Seconds(a) <= Seconds(b) <==> a <= b
  {
    StampIsMilli(a);
    StampIsMilli(b);
  }

  /** Summed milliseconds of the commands, each by its first record. */
  ghost function LogDuration(kept: seq<Line>): int
    requires Records(kept)
  {
    if |kept| == 0 then 0
    else
      var init, last := kept[..|kept|-1], kept[|kept|-1];
      LogDuration(init) + if last.cmdhash in Commands(init) then 0 else last.end - last.start
  }

  ghost predicate TimesFrom(ts: seq<Target>, kept: seq<Line>)
    requires Records(kept)
  {
    |ts| == |Commands(kept)| && forall i :: 0 <= i < |ts| ==> TimesOf(kept, Commands(kept)[i], ts[i].start, ts[i].end)
  }

  /** A command known before the last record has its times from before it. */
  lemma TimesBack(kept: seq<Line>, h: string, start: real, end: real)
    requires Records(kept) && |kept| > 0 && h in Commands(kept[..|kept|-1]) && TimesOf(kept, h, start, end)
    ensures TimesOf(kept[..|kept|-1], h, start, end)
  {
    var init := kept[..|kept|-1];
    CommandsHold(init, h);
    var i :| 0 <= i < |init| && init[i].cmdhash == h;
    var j: nat :| FirstOf(kept, h, j) && start == Seconds(kept[j].start) && end == Seconds(kept[j].end);
    assert kept[i].cmdhash == h && j <= i;
    assert FirstOf(init, h, j) && init[j] == kept[j];
  }

  /** A command not known before the last record has its times from it. */
  lemma TimesLast(kept: seq<Line>, start: real, end: real)
    requires Records(kept) && |kept| > 0 && kept[|kept|-1].cmdhash !in Commands(kept[..|kept|-1])
    requires TimesOf(kept, kept[|kept|-1].cmdhash, start, end)
    ensures start == Seconds(kept[|kept|-1].start) && end == Seconds(kept[|kept|-1].end)
  {
    var init, h := kept[..|kept|-1], kept[|kept|-1].cmdhash;
    CommandsHold(init, h);
    var j: nat :| FirstOf(kept, h, j) && start == Seconds(kept[j].start) && end == Seconds(kept[j].end);
    assert forall i :: 0 <= i < |init| ==> init[i] == kept[i];
  }

  lemma SecondsBetween(a: int, b: int)
    ensures (Seconds(b) - Seconds(a)) * 1000.0 == (b - a) as real
  {}

  lemma {:induction false} DurationFromLog(ts: seq<Target>, kept: seq<Line>)
    requires Records(kept) && TimesFrom(ts, kept)
    ensures TotalDuration(ts) * 1000.0 == LogDuration(kept) as real
    decreases |kept|
  {
    hide TimesOf, Seconds;
    if |kept| > 0 {
      var init, last := kept[..|kept|-1], kept[|kept|-1];
      if last.cmdhash in Commands(init) {
        forall i | 0 <= i < |ts| ensures TimesOf(init, Commands(init)[i], ts[i].start, ts[i].end) {
          TimesBack(kept, Commands(kept)[i], ts[i].start, ts[i].end);
        }
        DurationFromLog(ts, init);
      } else {
        var front, t := ts[..|ts|-1], ts[|ts|-1];
        forall i | 0 <= i < |front| ensures TimesOf(init, Commands(init)[i], front[i].start, front[i].end) {
          TimesBack(kept, Commands(kept)[i], ts[i].start, ts[i].end);
        }
        DurationFromLog(front, init);
        TimesLast(kept, t.start, t.end);
        SecondsBetween(last.start, last.end);
      }
    }
  }

  /** `lo` is the earliest start of the build and `hi` its latest end. */
  ghost predicate Spanned(kept: seq<Line>, lo: int, hi: int) {
    && Encloses(kept, lo, hi)
    && (exists i: nat :: Timing(kept, i) && kept[i].start == lo)
    && (exists j: nat :: Timing(kept, j) && kept[j].end == hi)
  }

  lemma SpanFromLog(ts: seq<Target>, kept: seq<Line>, length: real, lo: int, hi: int)
    requires Records(kept) && FromLog(ts, kept) && SpanIs(ts, length) && Spanned(kept, lo, hi)
    ensures length * 1000.0 == (hi - lo) as real
  {
    hide FromLog, FirstOf, Seconds;
    var a, b :| a in ts && b in ts && length == b.end - a.start && forall t :: t in ts ==> a.start <= t.start && t.end <= b.end;
    var i: nat :| Timing(kept, i) && kept[i].start == lo;
    var j: nat :| Timing(kept, j) && kept[j].end == hi;
    var ta := RecordHasTarget(ts, kept, i);
    var tb := RecordHasTarget(ts, kept, j);
    var ra := TargetHasRecord(ts, kept, a);
    var rb := TargetHasRecord(ts, kept, b);
    RecordStamps(lo, kept[ra].start);
    RecordStamps(kept[rb].end, hi);
    SecondsBetween(lo, hi);
  }

  lemma StartsFromLog(ts: seq<Target>, kept: seq<Line>, lo: int, hi: int)
    requires Records(kept) && FromLog(ts, kept) && Encloses(kept, lo, hi) && 0 <= lo
    ensures NonNegative(ts)
  {
    hide FromLog, Timing;
    forall t | t in ts ensures 0.0 <= t.start { var j := TargetHasRecord(ts, kept, t); }
  }

  /** The figures of targets read from a log, in its own milliseconds. */
  lemma LogFigures(ts: seq<Target>, kept: seq<Line>)
    requires Records(kept) && FromLog(ts, kept)
    ensures TotalDuration(ts) * 1000.0 == LogDuration(kept) as real
    ensures forall lo, hi :: Spanned(kept, lo, hi) && 0 <= lo ==> NonNegative(ts)
    ensures forall length, lo, hi :: SpanIs(ts, length) && Spanned(kept, lo, hi) ==> length * 1000.0 == (hi - lo) as real
  {
    hide FromLog, Spanned, NonNegative, SpanIs, TotalDuration, LogDuration;
    FromLogTimes(ts, kept);
    DurationFromLog(ts, kept);
    forall lo, hi | Spanned(kept, lo, hi) && 0 <= lo ensures NonNegative(ts) { SpannedEncloses(kept, lo, hi); StartsFromLog(ts, kept, lo, hi); }
    forall length, lo, hi | SpanIs(ts, length) && Spanned(kept, lo, hi) ensures length * 1000.0 == (hi - lo) as real {
      SpanFromLog(ts, kept, length, lo, hi);
    }
  }

  lemma SpannedEncloses(kept: seq<Line>, lo: int, hi: int)
    requires Spanned(kept, lo, hi)
    ensures Encloses(kept, lo, hi)
  {}

  lemma FromLogTimes(ts: seq<Target>, kept: seq<Line>)
    requires Records(kept) && FromLog(ts, kept)
    ensures TimesFrom(ts, kept)
  {
    hide TimesOf, Names, Commands;
  }

  /** Reading a log and reporting on it: the report exists exactly when the build has
      a command and none runs backwards, and its total, in milliseconds, counts the
      milliseconds of the log in which some command of the build ran. */
  method Report(header: string, log: seq<Line>, showAll: bool) returns (ok: bool, r: Summary)
    ensures ok <==> header == "# ninja log v5\n"
    ensures ok ==> (r.NoEntries? <==> Commands(Kept(Parsed(log), showAll)) == [])
    ensures ok ==> (r.Summary? <==> Commands(Kept(Parsed(log), showAll)) != [] && Forward(Kept(Parsed(log), showAll)))
    ensures ok && r.Summary? ==> forall lo, hi :: Encloses(Kept(Parsed(log), showAll), lo, hi) ==>
      r.weightedTotal * 1000.0 == |LogTicks(Kept(Parsed(log), showAll), lo, hi)| as real
    ensures ok && r.Summary? ==> r.totalCpuTime * 1000.0 == LogDuration(Kept(Parsed(log), showAll)) as real
    ensures ok && r.Summary? ==> forall lo, hi :: Spanned(Kept(Parsed(log), showAll), lo, hi) && 0 <= lo ==>
      r.length * 1000.0 == (hi - lo) as real
  {
    hide Kept, Parsed, Commands, FromLog, Ordered, AllMilli, Forward, Encloses, Ticks, LogTicks, TimelineOf, UnionMeasure, Recorded, Idle,
      TotalDuration, LogDuration, SpanIs, Spanned, NonNegative;
    r := NoEntries;
    var targets;
    ok, targets := ReadTargets(header, log, showAll);
    if !ok { return; }
    assert forall i :: 0 <= i < |targets| ==> targets[i] in targets && fresh(targets[i]);
    ghost var kept := Kept(Parsed(log), showAll);
    LogTargets(targets, kept, 0, 0);
    FromLogFacts(targets, kept);
    forall lo, hi | Encloses(kept, lo, hi) ensures InTicks(targets, kept, lo, hi) {
      LogTargets(targets, kept, lo, hi);
    }
    LogFigures(targets, kept);
    r := SummarizeEntries(targets);
    if r.Summary? {
      forall lo, hi | Encloses(kept, lo, hi)
        ensures r.weightedTotal * 1000.0 == |LogTicks(kept, lo, hi)| as real
      {
        assert InTicks(targets, kept, lo, hi);
        TotalCountsTicks(targets, lo, hi);
      }
    }
  }

  lemma FromLogFacts(ts: seq<Target>, kept: seq<Line>)
    requires Records(kept) && FromLog(ts, kept)
    ensures Distinct(ts) && (ts == [] <==> Commands(kept) == [])
  {
    hide Commands, Describes;
  }

  ghost predicate InTicks(ts: seq<Target>, kept: seq<Line>, lo: int, hi: int) {
    && (forall t :: t in ts ==> lo <= Ms(t.start) && Ms(t.end) <= hi)
    && Ticks(ts, lo, hi) == LogTicks(kept, lo, hi)
  }
}
