/** Over every run, each ring is the tail of the samples offered to its series, and few series exist. */
module MountHistoryRuns {
  import opened Wrappers
  import opened Sequences
  import opened ResourceHistory
  import opened MountHistory

  function Run(actions: seq<Action>): State {
    if actions == [] then INITIAL else Next(Run(actions[..|actions| - 1]), actions[|actions| - 1])
  }

  /** A real file system, read without an error, with a figure other than its free space alone. */
  predicate CanBePlotted(r: Reading) {
    !(r.isPseudo || r.failed) && !(r.usage.None? && r.available.None? && r.inodes.None?)
  }

  /** What a reading adds to the log of a metric of `id`. */
  function Offer(r: Reading, now: int, id: Key, metric: Metric): seq<Sample> {
    if r.key == id && CanBePlotted(r) && Figure(r, metric).Some?
    then [Sample(now, Figure(r, metric).value)] else []
  }

  /** The samples of one metric that a snapshot offers to one identity. */
  function Samples(readings: seq<Reading>, now: int, id: Key, metric: Metric): seq<Sample> {
    if readings == [] then []
    else
      Samples(readings[..|readings| - 1], now, id, metric) + Offer(readings[|readings| - 1], now, id, metric)
  }

  /**
   * All samples offered to a tracked series since it was created or the bound last changed: those of
   * every snapshot recorded while it was tracked, and of the one that created it.
   */
  function Offered(actions: seq<Action>, id: Key, metric: Metric): seq<Sample> {
    if actions == [] then []
    else
      var front, last := actions[..|actions| - 1], actions[|actions| - 1];
      var s := Run(front);
      if id !in s.histories && !last.Record? then []
      else
        match last
        case Record(readings, now) =>
          if s.paused then Offered(front, id, metric)
          else (if id in s.histories then Offered(front, id, metric) else [])
               + Samples(readings, now, id, metric)
        case SetMaxSamples(max) => if EffectiveMax(max) == s.maxSamples then Offered(front, id, metric) else []
        case SetPaused(_) => Offered(front, id, metric)
        case Clear => []
  }

  // ---- One snapshot ----

  lemma RecordOneGrows(h: map<Key, Series>, r: Reading, now: int, max: nat)
    ensures var h' := RecordOne(h, r, now, max);
            && h.Keys <= h'.Keys <= h.Keys + {r.key}
            && |h| <= |h'| && (|h| <= MAX_SERIES ==> |h'| <= MAX_SERIES)
  {
    var h' := RecordOne(h, r, now, max);
    assert |h'| == |h'.Keys| && |h| == |h.Keys|;
    if r.key in h {
      assert h'.Keys == h.Keys;
    } else if h' != h {
      assert h'.Keys == h.Keys + {r.key};
    }
  }

  lemma {:induction false} SeriesOnlyGrow(h: map<Key, Series>, readings: seq<Reading>, now: int, max: nat)
    ensures var h' := RecordAll(h, readings, now, max);
            && h.Keys <= h'.Keys <= h.Keys + Identities(readings)
            && |h| <= |h'| && (|h| <= MAX_SERIES ==> |h'| <= MAX_SERIES)
  {
    if readings != [] {
      var n := |readings| - 1;
      SeriesOnlyGrow(h, readings[..n], now, max);
      RecordOneGrows(RecordAll(h, readings[..n], now, max), readings[n], now, max);
    }
  }

  /** While there is room, only a mount that offers nothing is left out. */
  lemma {:induction false} LeftOutOfferNothing(h: map<Key, Series>, readings: seq<Reading>, now: int, max: nat,
                                               id: Key, metric: Metric)
    requires id !in RecordAll(h, readings, now, max) && |RecordAll(h, readings, now, max)| < MAX_SERIES
    ensures Samples(readings, now, id, metric) == []
  {
    if readings != [] {
      var n := |readings| - 1;
      var g := RecordAll(h, readings[..n], now, max);
      assert g.Keys <= RecordAll(h, readings, now, max).Keys;
      SubsetCardinality(g.Keys, RecordAll(h, readings, now, max).Keys);
      assert |g| == |g.Keys| <= |RecordAll(h, readings, now, max).Keys| == |RecordAll(h, readings, now, max)|;
      LeftOutOfferNothing(h, readings[..n], now, max, id, metric);
    }
  }

  predicate Holds(ring: Ring<Sample>, log: seq<Sample>, max: nat) {
    ring.maxSamples == max && ring.buffer == Bounded(log, max)
  }

  lemma AddReadingHolds(s: Series, r: Reading, now: int, log: seq<Sample>, metric: Metric, max: nat)
    requires Holds(RingOf(s, metric), log, max)
    ensures var figure := Figure(r, metric);
            Holds(RingOf(AddReading(s, r, now), metric),
                  if figure.Some? then log + [Sample(now, figure.value)] else log, max)
  {
    if Figure(r, metric).Some? {
      AddFollowsLog(RingOf(s, metric), log, Sample(now, Figure(r, metric).value));
    }
  }

  /** If `id` has a series in `h`, its ring for the metric is the tail of `log`. */
  predicate Tails(h: map<Key, Series>, id: Key, metric: Metric, log: seq<Sample>, max: nat) {
    id in h ==> Holds(RingOf(h[id], metric), log, max)
  }

  lemma RecordOneTails(g: map<Key, Series>, r: Reading, now: int, max: nat, id: Key, metric: Metric,
                       log: seq<Sample>)
    requires Tails(g, id, metric, log, max)
    requires id !in g && |g| < MAX_SERIES ==> log == []
    ensures Tails(RecordOne(g, r, now, max), id, metric, log + Offer(r, now, id, metric), max)
  {
    assert log + [] == log;
    if r.key == id && Measurable(r) {
      if id in g {
        AddReadingHolds(g[id], r, now, log, metric, max);
      } else if |g| < MAX_SERIES {
        AddReadingHolds(Fresh(r.key.mountPoint, max), r, now, [], metric, max);
      }
    }
  }

  lemma {:induction false} SnapshotTails(h: map<Key, Series>, readings: seq<Reading>, now: int, max: nat,
                                         id: Key, metric: Metric, log: seq<Sample>)
    requires Tails(h, id, metric, log, max)
    requires id !in h ==> log == []
    ensures Tails(RecordAll(h, readings, now, max), id, metric, log + Samples(readings, now, id, metric), max)
  {
    if readings == [] {
      assert log + [] == log;
    } else {
      var n := |readings| - 1;
      var g := RecordAll(h, readings[..n], now, max);
      var before := Samples(readings[..n], now, id, metric);
      SnapshotTails(h, readings[..n], now, max, id, metric, log);
      if id !in g && |g| < MAX_SERIES {
        LeftOutOfferNothing(h, readings[..n], now, max, id, metric);
        SeriesOnlyGrow(h, readings[..n], now, max);
        assert log + before == [];
      }
      RecordOneTails(g, readings[n], now, max, id, metric, log + before);
      var offer := Offer(readings[n], now, id, metric);
      assert log + (before + offer) == (log + before) + offer;
    }
  }

  // ---- Runs ----

  /** The bound is at least one and the number of series at most eight. */
  lemma {:induction false} BoundsHold(actions: seq<Action>)
    ensures Run(actions).maxSamples >= 1 && |Run(actions).histories| <= MAX_SERIES
  {
    if actions != [] {
      var n := |actions| - 1;
      BoundsHold(actions[..n]);
      var s, s' := Run(actions[..n]), Run(actions);
      match actions[n]
      case Record(readings, now) =>
        if !s.paused {
          SeriesOnlyGrow(s.histories, readings, now, s.maxSamples);
          var full := RecordAll(s.histories, readings, now, s.maxSamples);
          SubsetCardinality(s'.histories.Keys, full.Keys);
          assert |s'.histories| == |s'.histories.Keys| && |full| == |full.Keys|;
        }
      case SetMaxSamples(max) =>
        assert s'.histories.Keys == s.histories.Keys;
        assert |s'.histories| == |s'.histories.Keys| && |s.histories| == |s.histories.Keys|;
      case _ =>
    }
  }

  /**
   * In every state every ring of every tracked mount holds the last `maxSamples` samples offered to
   * it, and so at most that many.
   */
  lemma {:induction false} RingsHoldTails(actions: seq<Action>, id: Key, metric: Metric)
    ensures var s := Run(actions);
            id in s.histories ==>
              && Holds(RingOf(s.histories[id], metric), Offered(actions, id, metric), s.maxSamples)
              && |RingOf(s.histories[id], metric).buffer| <= s.maxSamples
  {
    BoundsHold(actions);
    if actions != [] && id in Run(actions).histories {
      var n := |actions| - 1;
      var front, last := actions[..n], actions[n];
      var s := Run(front);
      RingsHoldTails(front, id, metric);
      if last.Record? && !s.paused {
        var log := if id in s.histories then Offered(front, id, metric) else [];
        SnapshotTails(s.histories, last.readings, last.now, s.maxSamples, id, metric, log);
      }
    }
  }

  /** The mounts of the last snapshot that was recorded. */
  function LastListed(actions: seq<Action>): set<Key> {
    if actions == [] then {}
    else
      var front, last := actions[..|actions| - 1], actions[|actions| - 1];
      if last.Record? && !Run(front).paused then Identities(last.readings) else LastListed(front)
  }

  /** In every state only mounts of the last recorded snapshot are tracked. */
  lemma {:induction false} TrackedAreListed(actions: seq<Action>)
    ensures Run(actions).histories.Keys <= LastListed(actions)
  {
    if actions != [] { TrackedAreListed(actions[..|actions| - 1]); }
  }

  /** The mounts that a snapshot lists. */
  ghost predicate IsListed(readings: seq<Reading>, id: Key) {
    exists k :: 0 <= k < |readings| && readings[k].key == id
  }

  lemma {:induction false} ListedIdentities(readings: seq<Reading>, id: Key)
    ensures IsListed(readings, id) <==> id in Identities(readings)
  {
    if readings != [] {
      var n := |readings| - 1;
      ListedIdentities(readings[..n], id);
      if IsListed(readings[..n], id) {
        var k :| 0 <= k < n && readings[..n][k].key == id;
        assert readings[k].key == id;
      }
      if IsListed(readings, id) {
        var k :| 0 <= k < |readings| && readings[k].key == id;
        assert k < n ==> readings[..n][k].key == id;
      }
    }
  }

  /** The reading at `k` starts a series for a mount without one, because a place is free at its turn. */
  ghost predicate StartsSeries(h: map<Key, Series>, readings: seq<Reading>, now: int, max: nat, k: nat, id: Key) {
    && k < |readings| && readings[k].key == id && CanBePlotted(readings[k])
    && |RecordAll(h, readings[..k], now, max)| < MAX_SERIES
  }

  lemma {:induction false} NewSeriesIsStarted(h: map<Key, Series>, readings: seq<Reading>, now: int, max: nat, id: Key)
    requires id !in h
    ensures id in RecordAll(h, readings, now, max) <==> exists k :: StartsSeries(h, readings, now, max, k, id)
  {
    if readings != [] {
      var n := |readings| - 1;
      NewSeriesIsStarted(h, readings[..n], now, max, id);
      forall k: nat ensures StartsSeries(h, readings, now, max, k, id) <==>
                              if k == n then readings[n].key == id && CanBePlotted(readings[n])
                                             && |RecordAll(h, readings[..n], now, max)| < MAX_SERIES
                              else StartsSeries(h, readings[..n], now, max, k, id)
      {
        if k < n {
          assert readings[..n][k] == readings[k] && readings[..n][..k] == readings[..k];
        }
      }
      if id in RecordAll(h, readings, now, max) && id !in RecordAll(h, readings[..n], now, max) {
        assert StartsSeries(h, readings, now, max, n, id);
      }
      if k :| StartsSeries(h, readings[..n], now, max, k, id) {
        assert StartsSeries(h, readings, now, max, k, id);
      }
    }
  }

  /**
   * After a snapshot a mount has a series exactly when it is listed and had one, or when one of its
   * readings is a real file system's, without error and with a figure, and met a free place among the
   * eight at its turn. So a newcomer never displaces a listed mount.
   */
  lemma NewcomersNeverDisplace(s: State, readings: seq<Reading>, now: int, id: Key)
    requires !s.paused
    ensures id in Next(s, Record(readings, now)).histories <==>
              || (id in s.histories && IsListed(readings, id))
              || (id !in s.histories && exists k :: StartsSeries(s.histories, readings, now, s.maxSamples, k, id))
  {
    ListedIdentities(readings, id);
    SeriesOnlyGrow(s.histories, readings, now, s.maxSamples);
    if id !in s.histories { NewSeriesIsStarted(s.histories, readings, now, s.maxSamples, id); }
  }

  // ---- Where series and samples come from ----

  /** Action `i` recorded a snapshot in which reading `k` of the mount could be plotted. */
  ghost predicate PlottedAt(actions: seq<Action>, i: nat, k: nat, id: Key) {
    && i < |actions| && actions[i].Record? && !Run(actions[..i]).paused
    && k < |actions[i].readings| && actions[i].readings[k].key == id && CanBePlotted(actions[i].readings[k])
  }

  /** From action `i` on nothing was cleared, and every recorded snapshot listed the mount. */
  ghost predicate ListedSince(actions: seq<Action>, i: nat, id: Key) {
    forall j | i <= j < |actions| ::
      && !actions[j].Clear?
      && (actions[j].Record? && !Run(actions[..j]).paused ==> IsListed(actions[j].readings, id))
  }

  lemma SeriesCarriesOn(front: seq<Action>, a: Action, i: nat, k: nat, id: Key)
    requires PlottedAt(front, i, k, id) && ListedSince(front, i, id)
    requires !a.Clear? && (a.Record? && !Run(front).paused ==> IsListed(a.readings, id))
    ensures PlottedAt(front + [a], i, k, id) && ListedSince(front + [a], i, id)
  {
    var longer := front + [a];
    assert forall j | 0 <= j <= |front| :: longer[..j] == front[..j];
    assert front[..|front|] == front;
    assert forall j | 0 <= j < |front| :: longer[j] == front[j];
  }

  /**
   * In every state a mount has a series only if some snapshot recorded since the last clearing, and
   * since the mount was last missing, listed it with a reading that could be plotted.
   */
  lemma {:induction false} SeriesWerePlotted(actions: seq<Action>, id: Key) returns (i: nat, k: nat)
    requires id in Run(actions).histories
    ensures PlottedAt(actions, i, k, id) && ListedSince(actions, i, id)
  {
    var n := |actions| - 1;
    var front, a := actions[..n], actions[n];
    var s := Run(front);
    assert actions == front + [a];
    if a.Record? && !s.paused { NewcomersNeverDisplace(s, a.readings, a.now, id); }
    if id in s.histories {
      i, k := SeriesWerePlotted(front, id);
      SeriesCarriesOn(front, a, i, k, id);
    } else {
      i, k := n, 0;
      k :| StartsSeries(s.histories, a.readings, a.now, s.maxSamples, k, id);
      assert ListedSince(actions, n, id);
    }
  }

  /** A sample is the figure of a reading that could be plotted. */
  ghost predicate IsFigure(actions: seq<Action>, i: nat, k: nat, id: Key, metric: Metric, sample: Sample) {
    && PlottedAt(actions, i, k, id)
    && sample == Sample(actions[i].now, Figure(actions[i].readings[k], metric).ValueOr(sample.value))
    && Figure(actions[i].readings[k], metric).Some?
  }

  lemma {:induction false} SnapshotFigures(readings: seq<Reading>, now: int, id: Key, metric: Metric, sample: Sample)
    returns (k: nat)
    requires sample in Samples(readings, now, id, metric)
    ensures k < |readings| && readings[k].key == id && CanBePlotted(readings[k])
    ensures Figure(readings[k], metric) == Some(sample.value) && sample.at == now
  {
    var n := |readings| - 1;
    if sample in Samples(readings[..n], now, id, metric) {
      k := SnapshotFigures(readings[..n], now, id, metric, sample);
    } else {
      k := n;
    }
  }

  lemma {:induction false} OfferedFigures(actions: seq<Action>, id: Key, metric: Metric, sample: Sample)
    returns (i: nat, k: nat)
    requires sample in Offered(actions, id, metric)
    ensures IsFigure(actions, i, k, id, metric, sample)
  {
    var n := |actions| - 1;
    var front, a := actions[..n], actions[n];
    assert forall j | 0 <= j <= n :: actions[..j] == front[..j];
    if sample in Offered(front, id, metric) {
      i, k := OfferedFigures(front, id, metric, sample);
    } else {
      i := n;
      k := SnapshotFigures(a.readings, a.now, id, metric, sample);
    }
  }

  /** In every state every sample in every ring is a figure of such a reading of its own mount. */
  lemma SamplesAreFigures(actions: seq<Action>, id: Key, metric: Metric, sample: Sample) returns (i: nat, k: nat)
    requires id in Run(actions).histories
    requires sample in RingOf(Run(actions).histories[id], metric).buffer
    ensures IsFigure(actions, i, k, id, metric, sample)
  {
    RingsHoldTails(actions, id, metric);
    i, k := OfferedFigures(actions, id, metric, sample);
  }

  /** A reading of a tracked mount that can be plotted adds one sample per figure, and no other does. */
  lemma ReadingAddsSamples(h: map<Key, Series>, r: Reading, now: int, max: nat, metric: Metric)
    requires r.key in h
    ensures var h' := RecordOne(h, r, now, max);
            && h'.Keys == h.Keys && (forall id | id in h && id != r.key :: h'[id] == h[id])
            && RingOf(h'[r.key], metric) ==
               match Figure(r, metric)
               case None => RingOf(h[r.key], metric)
               case Some(value) =>
                 if CanBePlotted(r) then RingOf(h[r.key], metric).Add(Sample(now, value)) else RingOf(h[r.key], metric)
  {
  }

  // ---- The settings ----

  /** The bound that was asked for last; zero counts as one, and 120 is the default. */
  function LastBound(actions: seq<Action>): nat {
    if actions == [] then 120
    else
      match actions[|actions| - 1]
      case SetMaxSamples(max) => if max == 0 then 1 else max
      case _ => LastBound(actions[..|actions| - 1])
  }

  function LastPause(actions: seq<Action>): bool {
    if actions == [] then false
    else
      match actions[|actions| - 1]
      case SetPaused(paused) => paused
      case _ => LastPause(actions[..|actions| - 1])
  }

  lemma {:induction false} SettingsAreLast(actions: seq<Action>)
    ensures Run(actions).maxSamples == LastBound(actions) && Run(actions).paused == LastPause(actions)
  {
    if actions != [] { SettingsAreLast(actions[..|actions| - 1]); }
  }

  lemma {:induction false} SnapshotLabels(h: map<Key, Series>, readings: seq<Reading>, now: int, max: nat, id: Key)
    requires id in h ==> h[id].mountPoint == id.mountPoint
    ensures var h' := RecordAll(h, readings, now, max);
            id in h' ==> h'[id].mountPoint == id.mountPoint
  {
    if readings != [] { SnapshotLabels(h, readings[..|readings| - 1], now, max, id); }
  }

  /** In every state each series bears the mount point of its own mount. */
  lemma {:induction false} SeriesAreLabelled(actions: seq<Action>, id: Key)
    ensures id in Run(actions).histories ==> Run(actions).histories[id].mountPoint == id.mountPoint
  {
    if actions != [] {
      var front, a := actions[..|actions| - 1], actions[|actions| - 1];
      var s := Run(front);
      SeriesAreLabelled(front, id);
      if a.Record? { SnapshotLabels(s.histories, a.readings, a.now, s.maxSamples, id); }
    }
  }
}
