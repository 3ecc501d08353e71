/** The per-mount time series of `FilesystemMonitor` (src/filesystem_monitor.cpp). */
module MountHistory {
  import opened Wrappers
  import opened Sequences
  import opened ResourceHistory
  import Decimal

  const MAX_SERIES: nat := 8
  const DEFAULT_SAMPLES: nat := 120

  datatype Metric = Usage | Available | Free | Inodes

  /** What the identity text "mountID:mountPoint" is made of; the histories are keyed by it. */
  datatype Key = Key(mountId: int, mountPoint: string)

  /** What one refresh says about one mount; figures that could not be had are `None`. */
  datatype Reading = Reading(key: Key, isPseudo: bool, failed: bool, usage: Option<real>,
                             available: Option<real>, free: Option<real>, inodes: Option<real>)

  datatype Sample = Sample(at: int, value: real)

  datatype Series = Series(mountPoint: string, usage: Ring<Sample>, available: Ring<Sample>,
                           free: Ring<Sample>, inodes: Ring<Sample>)

  function Identity(key: Key): string {
    Decimal.PrintInt(key.mountId) + ":" + key.mountPoint
  }

  /** The text identifies the mount: keying by its parts is keying by the text. */
  lemma IdentityInjective(a: Key, b: Key)
    ensures Identity(a) == Identity(b) <==> a == b
  {
    NoColon(a.mountId);
    NoColon(b.mountId);
    FindInMiddle(Decimal.PrintInt(a.mountId), ':', a.mountPoint);
    FindInMiddle(Decimal.PrintInt(b.mountId), ':', b.mountPoint);
    assert Identity(a) == Decimal.PrintInt(a.mountId) + [':'] + a.mountPoint;
    assert Identity(b) == Decimal.PrintInt(b.mountId) + [':'] + b.mountPoint;
    Decimal.PrintIntInjective(a.mountId, b.mountId);
  }

  lemma NoColon(n: int)
    ensures ':' !in Decimal.PrintInt(n)
  {
    var digits := Decimal.Print(if n < 0 then -n else n);
    assert forall i | 0 <= i < |digits| :: Decimal.IsDigit(digits[i]);
  }

  /** A free-space figure alone does not start or feed a series. */
  predicate Measurable(r: Reading) {
    !r.isPseudo && !r.failed && (r.usage.Some? || r.available.Some? || r.inodes.Some?)
  }

  function Figure(r: Reading, metric: Metric): Option<real> {
    match metric
    case Usage => r.usage
    case Available => r.available
    case Free => r.free
    case Inodes => r.inodes
  }

  function RingOf(s: Series, metric: Metric): Ring<Sample> {
    match metric
    case Usage => s.usage
    case Available => s.available
    case Free => s.free
    case Inodes => s.inodes
  }

  function Fresh(mountPoint: string, max: nat): Series {
    Series(mountPoint, Ring(max, []), Ring(max, []), Ring(max, []), Ring(max, []))
  }

  function AddFigure(ring: Ring<Sample>, figure: Option<real>, now: int): Ring<Sample> {
    if figure.Some? then ring.Add(Sample(now, figure.value)) else ring
  }

  function AddReading(s: Series, r: Reading, now: int): Series {
    Series(r.key.mountPoint, AddFigure(s.usage, r.usage, now), AddFigure(s.available, r.available, now),
           AddFigure(s.free, r.free, now), AddFigure(s.inodes, r.inodes, now))
  }

  // ---- The state ----

  datatype State = State(histories: map<Key, Series>, maxSamples: nat, paused: bool)

  const INITIAL := State(map[], DEFAULT_SAMPLES, false)

  function RecordOne(h: map<Key, Series>, r: Reading, now: int, max: nat): map<Key, Series> {
    var id := r.key;
    if !Measurable(r) then h
    else if id in h then h[id := AddReading(h[id], r, now)]
    else if |h| >= MAX_SERIES then h
    else h[id := AddReading(Fresh(r.key.mountPoint, max), r, now)]
  }

  function RecordAll(h: map<Key, Series>, readings: seq<Reading>, now: int, max: nat): map<Key, Series> {
    if readings == [] then h
    else RecordOne(RecordAll(h, readings[..|readings| - 1], now, max), readings[|readings| - 1], now, max)
  }

  function Identities(readings: seq<Reading>): set<Key> {
    if readings == [] then {}
    else Identities(readings[..|readings| - 1]) + {readings[|readings| - 1].key}
  }

  function Prune(h: map<Key, Series>, present: set<Key>): map<Key, Series> {
    map id | id in h && id in present :: h[id]
  }

  datatype Action =
    | Record(readings: seq<Reading>, now: int)
    | SetMaxSamples(max: nat)
    | SetPaused(paused: bool)
    | Clear

  function EffectiveMax(max: nat): nat {
    if max == 0 then 1 else max
  }

  function Next(s: State, a: Action): State {
    match a
    case Record(readings, now) =>
      if s.paused then s
      else s.(histories := Prune(RecordAll(s.histories, readings, now, s.maxSamples), Identities(readings)))
    case SetMaxSamples(max) =>
      if EffectiveMax(max) == s.maxSamples then s
      else s.(maxSamples := EffectiveMax(max),
              histories := map id | id in s.histories :: Fresh(s.histories[id].mountPoint, EffectiveMax(max)))
    case SetPaused(paused) => s.(paused := paused)
    case Clear => s.(histories := map[])
  }

  // ---- The monitor ----

  class FilesystemMonitor {
    var histories: map<Key, Series>
    var maxSamples: nat
    var paused: bool

    function View(): State
      reads this
    {
      State(histories, maxSamples, paused)
    }

    constructor ()
      ensures View() == INITIAL
    {
      histories, maxSamples, paused := map[], DEFAULT_SAMPLES, false;
    }

    method SetHistoryPaused(pause: bool)
      modifies this`paused
      ensures View() == Next(old(View()), SetPaused(pause))
    {
      paused := pause;
    }

    method ClearHistory()
      modifies this`histories
      ensures View() == Next(old(View()), Clear)
    {
      histories := map[];
    }

    method PruneHistory(present: set<Key>)
      modifies this`histories
      ensures histories == Prune(old(histories), present)
    {
      var vanished := set id | id in histories && id !in present;
      while vanished != {}
        invariant vanished <= histories.Keys <= old(histories).Keys
        invariant forall id | id in vanished :: id !in present
        invariant forall id | id in old(histories) && id !in histories :: id !in present
        invariant forall id | id in histories && id !in present :: id in vanished
        invariant forall id | id in histories :: histories[id] == old(histories)[id]
        decreases vanished
      {
        var id :| id in vanished;
        histories := histories - {id};
        vanished := vanished - {id};
      }
    }

    /** The body of the loop over the mounts of a snapshot. */
    method RecordReading(r: Reading, now: int)
      modifies this`histories
      ensures histories == RecordOne(old(histories), r, now, maxSamples)
    {
      var id := r.key;
      if r.isPseudo || r.failed || (r.usage.None? && r.available.None? && r.inodes.None?) {
        return;
      }
      if id !in histories && |histories| >= MAX_SERIES {
        return;
      }
      var series := if id in histories then histories[id] else Fresh(r.key.mountPoint, maxSamples);
      series := series.(mountPoint := r.key.mountPoint);
      if r.usage.Some? {
        series := series.(usage := series.usage.Add(Sample(now, r.usage.value)));
      }
      if r.available.Some? {
        series := series.(available := series.available.Add(Sample(now, r.available.value)));
      }
      if r.free.Some? {
        series := series.(free := series.free.Add(Sample(now, r.free.value)));
      }
      if r.inodes.Some? {
        series := series.(inodes := series.inodes.Add(Sample(now, r.inodes.value)));
      }
      histories := histories[id := series];
    }

    method RecordHistory(readings: seq<Reading>, now: int)
      modifies this`histories
      ensures View() == Next(old(View()), Record(readings, now))
    {
      if paused {
        return;
      }
      var present: set<Key> := {};
      for i := 0 to |readings|
        invariant histories == RecordAll(old(histories), readings[..i], now, maxSamples)
        invariant present == Identities(readings[..i])
      {
        assert readings[..i + 1][..i] == readings[..i];
        RecordReading(readings[i], now);
        present := present + {readings[i].key};
      }
      assert readings[..|readings|] == readings;
      PruneHistory(present);
    }

    method SetHistoryMaxSamples(max: nat)
      modifies this`histories, this`maxSamples
      ensures View() == Next(old(View()), SetMaxSamples(max))
    {
      var bound := EffectiveMax(max);
      if bound == maxSamples {
        return;
      }
      maxSamples := bound;
      var pending := histories.Keys;
      while pending != {}
        invariant maxSamples == bound
        invariant pending <= histories.Keys == old(histories).Keys
        invariant forall id | id in histories ::
                    histories[id] == if id in pending then old(histories)[id]
                                     else Fresh(old(histories)[id].mountPoint, bound)
        decreases pending
      {
        var id :| id in pending;
        histories := histories[id := Fresh(histories[id].mountPoint, bound)];
        pending := pending - {id};
      }
    }
  }
}
