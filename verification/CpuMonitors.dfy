/**
 * The two CPU monitors over successive ticks: per-CPU baselines (src/advanced_cpu_monitor.cpp) and
 * the aggregate one (src/cpu_monitor.cpp).
 */
module CpuMonitors {
  import opened Wrappers
  import opened SortedSets
  import opened CpuDelta

  /** The aggregate line of /proc/stat. */
  const AGGREGATE := -1

  /** One parsed line of /proc/stat. */
  datatype Line = Line(id: int, counters: Counters)

  /**
   * What one tick reads: the CPU lines (`None` when /proc/stat cannot be read), and the present and
   * online lists of sysfs.
   */
  datatype Tick = Tick(stat: Option<seq<Line>>, present: seq<nat>, online: Option<seq<nat>>)

  /** The counters by CPU; of two lines for the same CPU the last one counts. */
  function Table(lines: seq<Line>): map<int, Counters> {
    if lines == [] then map[]
    else Table(lines[..|lines| - 1])[lines[|lines| - 1].id := lines[|lines| - 1].counters]
  }

  function CountersOf(t: Tick): map<int, Counters> {
    Table(t.stat.ValueOr([]))
  }

  /** The logical CPUs among the lines. */
  function LogicalIds(lines: seq<Line>): seq<int> {
    if lines == [] then []
    else
      var before, id := LogicalIds(lines[..|lines| - 1]), lines[|lines| - 1].id;
      if id >= 0 then before + [id] else before
  }

  lemma {:induction false} LogicalIdsOfTable(lines: seq<Line>)
    ensures forall id :: id in LogicalIds(lines) <==> id in Table(lines) && id >= 0
  {
    if lines != [] { LogicalIdsOfTable(lines[..|lines| - 1]); }
  }

  datatype CpuStatistics = CpuStatistics(cpuId: int, online: bool, hasSample: bool, delta: Delta)

  const NO_STATISTICS := CpuStatistics(AGGREGATE, false, false, NO_DELTA)

  /** `known` is the ordered set of every CPU ever seen. */
  datatype State = State(previous: map<int, Counters>, known: seq<int>)

  datatype Result = Result(aggregate: CpuStatistics, cpus: seq<CpuStatistics>)

  /** The statistics of one CPU, given its baseline and its counters of this tick. */
  function Statistics(id: int, online: bool, baseline: Option<Counters>, current: Option<Counters>): CpuStatistics {
    if baseline.None? || current.None? || Total(current.value) < Total(baseline.value)
    then CpuStatistics(id, online, false, NO_DELTA)
    else
      var delta := ComputeCpuDelta(baseline.value, current.value);
      CpuStatistics(id, online, delta.valid, delta)
  }

  function Lookup(m: map<int, Counters>, id: int): Option<Counters> {
    if id in m then Some(m[id]) else None
  }

  /** The baselines after a CPU has been looked at. */
  function Rebased(previous: map<int, Counters>, id: int, current: Option<Counters>): map<int, Counters> {
    match current
    case Some(c) => previous[id := c]
    case None => previous - {id}
  }

  function RebasedAll(previous: map<int, Counters>, ids: seq<int>, counters: map<int, Counters>): map<int, Counters> {
    if ids == [] then previous
    else
      var n := |ids| - 1;
      Rebased(RebasedAll(previous, ids[..n], counters), ids[n], Lookup(counters, ids[n]))
  }

  function IsOnline(t: Tick, id: int): bool {
    id in CountersOf(t) || (t.online.Some? && id in t.online.value)
  }

  function StatisticsAll(previous: map<int, Counters>, ids: seq<int>, t: Tick): seq<CpuStatistics> {
    if ids == [] then []
    else
      var n := |ids| - 1;
      var before := RebasedAll(previous, ids[..n], CountersOf(t));
      StatisticsAll(previous, ids[..n], t)
        + [Statistics(ids[n], IsOnline(t, ids[n]), Lookup(before, ids[n]), Lookup(CountersOf(t), ids[n]))]
  }

  /** Every CPU to report, in order: the known ones, those with counters now, and the present ones. */
  function Universe(s: State, t: Tick): seq<int> {
    SortUnique(LESS_INT, s.known + LogicalIds(t.stat.ValueOr([])) + t.present)
  }

  lemma UniverseIs(s: State, t: Tick)
    ensures Increasing(LESS_INT, Universe(s, t))
    ensures forall id :: id in Universe(s, t) <==>
              id in s.known || (id in CountersOf(t) && id >= 0) || id in t.present
  {
    LessIntIsTotal();
    SortUniqueSorts(LESS_INT, s.known + LogicalIds(t.stat.ValueOr([])) + t.present);
    LogicalIdsOfTable(t.stat.ValueOr([]));
  }

  function AfterAggregate(s: State, t: Tick): map<int, Counters> {
    if AGGREGATE in CountersOf(t) then s.previous[AGGREGATE := CountersOf(t)[AGGREGATE]] else s.previous
  }

  /** One refresh. */
  function Read(s: State, t: Tick): (State, Result) {
    var counters := CountersOf(t);
    var aggregate :=
      if AGGREGATE in counters
      then Statistics(AGGREGATE, true, Lookup(s.previous, AGGREGATE), Some(counters[AGGREGATE]))
      else NO_STATISTICS;
    var ids := Universe(s, t);
    var base := AfterAggregate(s, t);
    (State(RebasedAll(base, ids, counters), ids),
     Result(aggregate, StatisticsAll(base, ids, t)))
  }

  // ---- The monitors ----

  class AdvancedCpuMonitor {
    var previous: map<int, Counters>
    var known: seq<int>

    function View(): State
      reads this
    {
      State(previous, known)
    }

    constructor ()
      ensures View() == State(map[], [])
    {
      previous, known := map[], [];
    }

    /** The lambda `finalizeCpu`. */
    method FinalizeCpu(id: int, online: bool, current: Option<Counters>) returns (stat: CpuStatistics)
      modifies this`previous
      ensures previous == Rebased(old(previous), id, current)
      ensures stat == Statistics(id, online, Lookup(old(previous), id), current)
    {
      stat := CpuStatistics(id, online, false, NO_DELTA);
      if current.None? {
        previous := previous - {id};
        return;
      }
      var counters := current.value;
      if id !in previous {
        previous := previous[id := counters];
      } else if Total(counters) < Total(previous[id]) {
        previous := previous[id := counters];
      } else {
        var delta := ComputeCpuDelta(previous[id], counters);
        previous := previous[id := counters];
        stat := stat.(delta := delta, hasSample := delta.valid);
      }
    }

    method ReadTick(t: Tick) returns (result: Result)
      modifies this
      ensures (View(), result) == Read(old(View()), t)
    {
      var counters := CountersOf(t);
      known := Universe(View(), t);
      var aggregate := NO_STATISTICS;
      if AGGREGATE in counters {
        aggregate := FinalizeCpu(AGGREGATE, true, Some(counters[AGGREGATE]));
      }
      ghost var base := previous;
      var ids := known;
      var cpus: seq<CpuStatistics> := [];
      for i := 0 to |ids|
        invariant known == ids
        invariant previous == RebasedAll(base, ids[..i], counters)
        invariant cpus == StatisticsAll(base, ids[..i], t)
      {
        assert ids[..i + 1][..i] == ids[..i];
        var stat := FinalizeCpu(ids[i], IsOnline(t, ids[i]), Lookup(counters, ids[i]));
        cpus := cpus + [stat];
      }
      assert ids[..|ids|] == ids;
      result := Result(aggregate, cpus);
    }
  }

  /** `CpuMonitor::readUsage`: the new baseline and the utilisation since the old one. */
  function Usage(baseline: Option<Counters>, current: Option<Counters>): (Option<Counters>, Option<real>) {
    match (baseline, current)
    case (_, None) => (baseline, None)
    case (None, Some(_)) => (current, None)
    case (Some(b), Some(c)) => (current, CpuUtilization(b, c))
  }

  class CpuMonitor {
    var previous: Option<Counters>

    constructor ()
      ensures previous == None
    {
      previous := None;
    }

    method ReadUsage(current: Option<Counters>) returns (usage: Option<real>)
      modifies this
      ensures (previous, usage) == Usage(old(previous), current)
    {
      if current.None? {
        return None;
      }
      if previous.None? {
        previous := current;
        return None;
      }
      usage := CpuUtilization(previous.value, current.value);
      previous := current;
    }
  }

  // ---- Runs ----

  function Run(ticks: seq<Tick>): State {
    if ticks == [] then State(map[], []) else Read(Run(ticks[..|ticks| - 1]), ticks[|ticks| - 1]).0
  }

  lemma {:induction false} RebasedAllPointwise(previous: map<int, Counters>, ids: seq<int>,
                                               counters: map<int, Counters>, id: int)
    requires Increasing(LESS_INT, ids)
    ensures Lookup(RebasedAll(previous, ids, counters), id)
         == if id in ids then Lookup(counters, id) else Lookup(previous, id)
  {
    if ids != [] {
      var n := |ids| - 1;
      RebasedAllPointwise(previous, ids[..n], counters, id);
      assert ids == ids[..n] + [ids[n]];
    }
  }

  lemma {:induction false} StatisticsAllPointwise(previous: map<int, Counters>, ids: seq<int>, t: Tick,
                                                  stat: CpuStatistics)
    requires Increasing(LESS_INT, ids) && stat in StatisticsAll(previous, ids, t)
    ensures stat.cpuId in ids
    ensures stat == Statistics(stat.cpuId, IsOnline(t, stat.cpuId), Lookup(previous, stat.cpuId),
                               Lookup(CountersOf(t), stat.cpuId))
  {
    var n := |ids| - 1;
    assert ids == ids[..n] + [ids[n]];
    if stat in StatisticsAll(previous, ids[..n], t) {
      StatisticsAllPointwise(previous, ids[..n], t, stat);
    } else {
      RebasedAllPointwise(previous, ids[..n], CountersOf(t), ids[n]);
      assert ids[n] !in ids[..n];
    }
  }

  /** The last counters of the aggregate that any tick of the run had. */
  function LastAggregate(ticks: seq<Tick>): Option<Counters> {
    if ticks == [] then None
    else
      var counters := CountersOf(ticks[|ticks| - 1]);
      if AGGREGATE in counters then Some(counters[AGGREGATE]) else LastAggregate(ticks[..|ticks| - 1])
  }

  /** The counters that the last tick of the run had for a CPU. */
  function LastTick(ticks: seq<Tick>, id: int): Option<Counters> {
    if ticks == [] then None else Lookup(CountersOf(ticks[|ticks| - 1]), id)
  }

  /**
   * Over every run: the baseline of a logical CPU is its counters of the last tick, if it was in
   * them; the aggregate's baseline is the last it ever had, unreadable ticks in between or not.
   */
  lemma {:induction false} BaselinesFollowTicks(ticks: seq<Tick>, id: nat)
    ensures Lookup(Run(ticks).previous, id) == LastTick(ticks, id)
    ensures Lookup(Run(ticks).previous, AGGREGATE) == LastAggregate(ticks)
    ensures LastTick(ticks, id).Some? ==> id in Run(ticks).known
    ensures forall k | k in Run(ticks).known :: k >= 0
  {
    if ticks != [] {
      var front, t := ticks[..|ticks| - 1], ticks[|ticks| - 1];
      BaselinesFollowTicks(front, id);
      var s := Run(front);
      var ids := Universe(s, t);
      UniverseIs(s, t);
      RebasedAllPointwise(AfterAggregate(s, t), ids, CountersOf(t), id);
      RebasedAllPointwise(AfterAggregate(s, t), ids, CountersOf(t), AGGREGATE);
    }
  }

  /** The ids of a list of statistics. */
  function Ids(stats: seq<CpuStatistics>): seq<int> {
    if stats == [] then [] else Ids(stats[..|stats| - 1]) + [stats[|stats| - 1].cpuId]
  }

  lemma {:induction false} IdsOfStatistics(previous: map<int, Counters>, ids: seq<int>, t: Tick)
    ensures Ids(StatisticsAll(previous, ids, t)) == ids
  {
    if ids != [] {
      var n := |ids| - 1;
      IdsOfStatistics(previous, ids[..n], t);
      var all := StatisticsAll(previous, ids, t);
      assert all[..|all| - 1] == StatisticsAll(previous, ids[..n], t);
      assert ids == ids[..n] + [ids[n]];
    }
  }

  /** The reported CPUs are in strict order, and whoever was reported once is reported ever after. */
  lemma ReportedIdsOnlyGrow(ticks: seq<Tick>, t: Tick, next: Tick)
    ensures var now := Ids(Read(Run(ticks), t).1.cpus);
            var later := Ids(Read(Run(ticks + [t]), next).1.cpus);
            && Increasing(LESS_INT, now) && Increasing(LESS_INT, later)
            && forall id | id in now :: id in later
  {
    var s := Run(ticks);
    assert (ticks + [t])[..|ticks|] == ticks;
    var s' := Run(ticks + [t]);
    IdsOfStatistics(AfterAggregate(s, t), Universe(s, t), t);
    IdsOfStatistics(AfterAggregate(s', next), Universe(s', next), next);
    UniverseIs(s, t);
    UniverseIs(s', next);
  }

  /** A line of the tick gives counters for this CPU. */
  ghost predicate HasLine(t: Tick, id: int) {
    t.stat.Some? && exists k :: 0 <= k < |t.stat.value| && t.stat.value[k].id == id
  }

  /** The last line of the tick for this CPU has these counters. */
  ghost predicate LastLine(lines: seq<Line>, id: int, c: Counters) {
    exists k :: 0 <= k < |lines| && lines[k] == Line(id, c) && forall j | k < j < |lines| :: lines[j].id != id
  }

  lemma {:induction false} TableHoldsLastLines(lines: seq<Line>, id: int)
    ensures id in Table(lines) <==> exists k :: 0 <= k < |lines| && lines[k].id == id
    ensures id in Table(lines) ==> LastLine(lines, id, Table(lines)[id])
  {
    if lines != [] {
      var n := |lines| - 1;
      TableHoldsLastLines(lines[..n], id);
      if lines[n].id == id {
        assert lines[n] == Line(id, Table(lines)[id]);
      } else {
        if k :| 0 <= k < |lines| && lines[k].id == id { assert lines[..n][k].id == id; }
        if id in Table(lines[..n]) {
          var c := Table(lines[..n])[id];
          var k :| 0 <= k < n && lines[..n][k] == Line(id, c) && forall j | k < j < n :: lines[..n][j].id != id;
          assert forall j | 0 <= j < n :: lines[..n][j] == lines[j];
          assert lines[k] == Line(id, c);
        }
      }
    }
  }

  lemma CountersAreLines(t: Tick, id: int)
    ensures Lookup(CountersOf(t), id).Some? <==> HasLine(t, id)
    ensures HasLine(t, id) ==> LastLine(t.stat.value, id, Lookup(CountersOf(t), id).value)
  {
    TableHoldsLastLines(t.stat.ValueOr([]), id);
  }

  /** A tick mentions a logical CPU by its counters or in the present list. */
  ghost predicate Mentions(t: Tick, id: int) {
    id in t.present || (id >= 0 && HasLine(t, id))
  }

  lemma {:induction false} KnownAreMentioned(ticks: seq<Tick>, id: int)
    ensures id in Run(ticks).known <==> exists i :: 0 <= i < |ticks| && Mentions(ticks[i], id)
  {
    if ticks != [] {
      var front, t := ticks[..|ticks| - 1], ticks[|ticks| - 1];
      KnownAreMentioned(front, id);
      UniverseIs(Run(front), t);
      CountersAreLines(t, id);
      assert id in Run(ticks).known <==> id in Run(front).known || Mentions(t, id);
      if i :| 0 <= i < |front| && Mentions(front[i], id) { assert Mentions(ticks[i], id); }
      if i :| 0 <= i < |ticks| && Mentions(ticks[i], id) { assert i < |front| ==> Mentions(front[i], id); }
      if Mentions(t, id) { assert Mentions(ticks[|ticks| - 1], id); }
    }
  }

  /** In every run the CPUs reported are exactly those that this tick or an earlier one mentions. */
  lemma ReportedAreMentioned(ticks: seq<Tick>, t: Tick, id: int)
    ensures id in Ids(Read(Run(ticks), t).1.cpus) <==>
              Mentions(t, id) || exists i :: 0 <= i < |ticks| && Mentions(ticks[i], id)
  {
    IdsOfStatistics(AfterAggregate(Run(ticks), t), Universe(Run(ticks), t), t);
    UniverseIs(Run(ticks), t);
    KnownAreMentioned(ticks, id);
    CountersAreLines(t, id);
  }

  /** A sample needs a baseline, counters, and a total that strictly advanced. */
  lemma SampleMeansAdvance(id: int, online: bool, baseline: Option<Counters>, current: Option<Counters>)
    ensures var stat := Statistics(id, online, baseline, current);
            && stat.cpuId == id
            && (stat.hasSample <==>
                  baseline.Some? && current.Some? && Total(current.value) > Total(baseline.value))
            && (stat.hasSample ==> stat.delta == ComputeCpuDelta(baseline.value, current.value))
            && (!stat.hasSample ==> stat.delta == NO_DELTA)
  {
  }

  /**
   * In any run each reported CPU has a sample exactly when it is in the counters of this tick and of
   * the tick just before, and its total strictly advanced; the sample is the delta between the two.
   */
  lemma SampleNeedsTwoTicks(ticks: seq<Tick>, t: Tick, stat: CpuStatistics)
    requires stat in Read(Run(ticks), t).1.cpus
    ensures stat.cpuId >= 0
    ensures var before, now := LastTick(ticks, stat.cpuId), Lookup(CountersOf(t), stat.cpuId);
            && (stat.online <==> HasLine(t, stat.cpuId) || (t.online.Some? && stat.cpuId in t.online.value))
            && (stat.hasSample <==> before.Some? && now.Some? && Total(now.value) > Total(before.value))
            && stat.delta == (if stat.hasSample then ComputeCpuDelta(before.value, now.value) else NO_DELTA)
  {
    var s := Run(ticks);
    CountersAreLines(t, stat.cpuId);
    SampleMeansAdvance(stat.cpuId, IsOnline(t, stat.cpuId), LastTick(ticks, stat.cpuId),
                       Lookup(CountersOf(t), stat.cpuId));
    BaselinesFollowTicks(ticks, 0);
    UniverseIs(s, t);
    StatisticsAllPointwise(AfterAggregate(s, t), Universe(s, t), t, stat);
    BaselinesFollowTicks(ticks, stat.cpuId);
    assert Lookup(AfterAggregate(s, t), stat.cpuId) == Lookup(s.previous, stat.cpuId);
  }

  /**
   * In every run the aggregate has a sample exactly when it has counters now and had some before, in
   * whichever tick last, and its total strictly advanced since.
   */
  lemma AggregateNeedsTwoLines(ticks: seq<Tick>, t: Tick)
    ensures var stat := Read(Run(ticks), t).1.aggregate;
            var before, now := LastAggregate(ticks), Lookup(CountersOf(t), AGGREGATE);
            && stat.cpuId == AGGREGATE && (stat.online <==> HasLine(t, AGGREGATE))
            && (stat.hasSample <==> before.Some? && now.Some? && Total(now.value) > Total(before.value))
            && stat.delta == (if stat.hasSample then ComputeCpuDelta(before.value, now.value) else NO_DELTA)
  {
    BaselinesFollowTicks(ticks, 0);
    CountersAreLines(t, AGGREGATE);
    SampleMeansAdvance(AGGREGATE, true, LastAggregate(ticks), Lookup(CountersOf(t), AGGREGATE));
  }

  // ---- The two monitors side by side ----

  function UsageBaseline(ticks: seq<Tick>): Option<Counters> {
    if ticks == [] then None
    else Usage(UsageBaseline(ticks[..|ticks| - 1]), Lookup(CountersOf(ticks[|ticks| - 1]), AGGREGATE)).0
  }

  lemma {:induction false} UsageBaselineIsLast(ticks: seq<Tick>)
    ensures UsageBaseline(ticks) == LastAggregate(ticks)
  {
    if ticks != [] { UsageBaselineIsLast(ticks[..|ticks| - 1]); }
  }

  /** The figures of the two monitors for one aggregate line after the same earlier ones. */
  function AggregateStatistics(ticks: seq<Tick>, t: Tick): CpuStatistics {
    Read(Run(ticks), t).1.aggregate
  }

  function AggregateUsage(ticks: seq<Tick>, t: Tick): Option<real> {
    Usage(UsageBaseline(ticks), Lookup(CountersOf(t), AGGREGATE)).1
  }

  /** Idle time ran ahead of the clock between two readings. */
  predicate IdleAnomaly(baseline: Option<Counters>, current: Option<Counters>) {
    && baseline.Some? && current.Some?
    && IdleTicks(baseline.value, current.value) > Total(current.value) - Total(baseline.value)
  }

  /**
   * Fed with the same aggregate lines, the two monitors report a figure at the same ticks of every
   * run, and the same figure unless idle time exceeds the elapsed time.
   */
  lemma MonitorsAgree(ticks: seq<Tick>, t: Tick)
    ensures var stat, usage := AggregateStatistics(ticks, t), AggregateUsage(ticks, t);
            var baseline, current := LastAggregate(ticks), Lookup(CountersOf(t), AGGREGATE);
            && (stat.hasSample <==> usage.Some?)
            && (stat.hasSample ==> (stat.delta.busy == usage.value <==> !IdleAnomaly(baseline, current)))
  {
    BaselinesFollowTicks(ticks, 0);
    UsageBaselineIsLast(ticks);
    var baseline, current := LastAggregate(ticks), Lookup(CountersOf(t), AGGREGATE);
    assert AggregateStatistics(ticks, t)
        == if current.None? then NO_STATISTICS else Statistics(AGGREGATE, true, baseline, current);
    SampleMeansAdvance(AGGREGATE, true, baseline, current);
    if current.Some? && baseline.Some? {
      AgreeUnlessIdleExceedsTotal(baseline.value, current.value);
    }
  }
}
