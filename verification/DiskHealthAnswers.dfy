/**
 * The disk-health monitor against the raw answers of the outside world: what an entry says after each
 * kind of answer, which devices a cycle visits, and which it passes over.
 */
module DiskHealthAnswers {
  import opened Wrappers
  import opened SortedSets
  import opened DiskHealth
  import opened DiskHealthRuns

  // ---- What an entry says ----

  const GONE_TEXT := "The device disappeared or was replaced"
  const UNSUPPORTED_TEXT := "This device does not support readable health data"

  /** The result of reading `name`, answer by answer. */
  ghost predicate Answered(r: Snapshot, name: string, a: Answers) {
    && (a.identity.None? ==>
          r == Snapshot(false, name, "", NO_METADATA, 0, 0, NoSource, Unavailable, DeviceUnavailable, GONE_TEXT,
                        None, []))
    && (a.identity.Some? && a.provider.None? ==>
          r == Snapshot(false, name, "/dev/" + name, a.metadata, a.identity.value.major, a.identity.value.minor,
                        if |name| >= 4 && name[..4] == "nvme" then Nvme else AtaSmart,
                        UnsupportedDevice, Unsupported, UNSUPPORTED_TEXT, None, []))
    && (a.identity.Some? && a.provider.Some? && a.stillSame ==>
          r == a.provider.value.(deviceName := name, major := a.identity.value.major,
                                 minor := a.identity.value.minor, refreshedAt := Some(a.wall)))
    && (a.identity.Some? && a.provider.Some? && !a.stillSame ==>
          r == a.provider.value.(ok := false, deviceName := name, major := a.identity.value.major,
                                 minor := a.identity.value.minor, status := Unavailable,
                                 error := DeviceUnavailable, detail := GONE_TEXT))
  }

  lemma ReadIsAnswered(name: string, a: Answers)
    ensures Answered(ReadOne(name, a), name, a)
  {
  }

  /** What an entry says when `r` is the last result read for it. */
  ghost predicate Tells(e: CacheEntry, name: string, r: Snapshot, a: Answers) {
    && e.deviceName == name && e.lastAttemptAt == Some(a.wall)
    && e.provider == (match r.source case NoSource => "N/A" case AtaSmart => "ATA/SMART" case Nvme => "NVMe")
    && (r.ok ==>
          && e.lastErrorCategory == NoError && e.lastError == ""
          && e.state == r && e.lastSuccess == Some(r) && e.lastSuccessAt == Some(a.wall))
    && (!r.ok ==>
          && e.lastErrorCategory == r.error && e.lastError == r.detail
          && e.state == (if e.lastSuccess.Some? then e.lastSuccess.value.(detail := r.detail) else r))
  }

  lemma {:induction false} OkCommitIsSuccess(log: seq<Item>, name: string)
    requires LastCommitted(log, name).Some? && LastCommitted(log, name).value.result.ok
    ensures LastSucceeded(log, name) == LastCommitted(log, name)
  {
    var n := |log| - 1;
    if !(log[n].Committed? && log[n].name == name) { OkCommitIsSuccess(log[..n], name); }
  }

  lemma EntryTells(s: State, log: seq<Item>, name: string)
    requires EntryIsTrue(s, log, name) && EntryIsDated(s, log, name) && LastCommitted(log, name).Some?
    ensures name in s.results
    ensures var item := LastCommitted(log, name).value;
            Tells(s.results[name], name, item.result, item.answers)
  {
    assert EntryOf(s, name).Some?;
    if LastCommitted(log, name).value.result.ok { OkCommitIsSuccess(log, name); }
  }

  /**
   * In every run: a name that was read since it was listed has an entry, and the entry says what the
   * answers to the last read were.
   */
  lemma EntryTellsAnswers(steps: seq<Step>, name: string)
    requires Possible(steps) && LastCommitted(Run(steps).1, name).Some?
    ensures var (s, log) := Run(steps);
            var a := LastCommitted(log, name).value.answers;
            name in s.results && exists r :: Answered(r, name, a) && Tells(s.results[name], name, r, a)
  {
    RunsAreConsistent(steps);
    var (s, log) := Run(steps);
    var item := LastCommitted(log, name).value;
    assert EntryIsTrue(s, log, name) && EntryIsDated(s, log, name);
    EntryTells(s, log, name);
    var i := CommitIsInLog(log, name);
    assert item.result == ReadOne(name, item.answers);
    ReadIsAnswered(name, item.answers);
  }

  /** The eight categories of failure, as providers report them. */
  lemma FailureStatus(snap: Snapshot, category: ErrorCategory, detail: string)
    ensures var f := FailSnapshot(snap, category, detail);
            && !f.ok && f.error == category
            && (category == NoError ==> f.status == UnknownStatus)
            && (category == Unsupported ==> f.status == UnsupportedDevice)
            && (category == PermissionDenied ==> f.status == AccessDenied)
            && (f.status == Unavailable <==> category !in {NoError, Unsupported, PermissionDenied})
            && (detail != "" ==> f.detail == detail)
            && (category != NoError ==> f.detail != "")
            && f == snap.(ok := false, error := f.error, status := f.status, detail := f.detail)
  {
  }

  /** What the entry of a disk shows while its provider fails and nothing better is on record. */
  lemma EntryShowsFailure(steps: seq<Step>, name: string, snap: Snapshot, category: ErrorCategory, detail: string)
    requires Possible(steps) && LastCommitted(Run(steps).1, name).Some?
    requires LastSucceeded(Run(steps).1, name).None?
    requires var a := LastCommitted(Run(steps).1, name).value.answers;
             a.identity.Some? && a.stillSame && a.provider == Some(FailSnapshot(snap, category, detail))
    ensures var s := Run(steps).0;
            && name in s.results && !s.results[name].state.ok && s.results[name].state.error == category
            && s.results[name].state.status ==
               match category
               case NoError => UnknownStatus
               case Unsupported => UnsupportedDevice
               case PermissionDenied => AccessDenied
               case DeviceUnavailable => Unavailable
               case TransportError => Unavailable
               case ParseError => Unavailable
               case Timeout => Unavailable
               case UnknownError => Unavailable
  {
    EntryTellsAnswers(steps, name);
    FailureStatus(snap, category, detail);
    RunsAreConsistent(steps);
    assert EntryIsTrue(Run(steps).0, Run(steps).1, name);
  }

  // ---- What a cycle visits ----

  /** The names of the last `setDevices`. */
  function LastNames(steps: seq<Step>): seq<string> {
    if steps == [] then []
    else
      match steps[|steps| - 1]
      case SetDevices(names) => names
      case _ => LastNames(steps[..|steps| - 1])
  }

  /** In every run the devices are the names last set, each once, in byte order. */
  lemma {:induction false} DevicesAreLastNames(steps: seq<Step>)
    requires Possible(steps)
    ensures Increasing(LESS_STRING, Run(steps).0.devices)
    ensures forall name :: name in Run(steps).0.devices <==> name in LastNames(steps)
  {
    if steps != [] {
      DevicesAreLastNames(steps[..|steps| - 1]);
      match steps[|steps| - 1]
      case SetDevices(names) =>
        LessStringIsTotal();
        SortUniqueSorts(LESS_STRING, names);
      case _ =>
    }
  }

  /** The cycle in flight: when it began, the devices listed then, and those it has done with. */
  datatype Cycle = Cycle(began: int, devices: seq<string>, done: seq<string>)

  /** A device is done with when its read is committed or when the worker passes it over. */
  ghost function CycleAfter(cycle: Option<Cycle>, s: State, step: Step, stopped: bool): Option<Cycle>
    requires Enabled(s, step)
  {
    match step
    case PickUp(now) => if stopped then None else Some(Cycle(now, s.devices, []))
    case CheckBackoff => if Next(s, step).worker.Reading? then cycle else Passed(cycle, s.worker.todo[0])
    case Commit(_, _) => Passed(cycle, s.worker.name)
    case Finish => None
    case _ => cycle
  }

  function Passed(cycle: Option<Cycle>, name: string): Option<Cycle> {
    if cycle.None? then None else Some(cycle.value.(done := cycle.value.done + [name]))
  }

  ghost function CycleNow(steps: seq<Step>): Option<Cycle>
    requires Possible(steps)
  {
    if steps == [] then None
    else
      var front := steps[..|steps| - 1];
      CycleAfter(CycleNow(front), Run(front).0, steps[|steps| - 1], Stop in front)
  }

  /** The devices that the worker still has before it. */
  function Ahead(w: Worker): seq<string> {
    match w
    case InCycle(todo, _, _) => todo
    case Reading(name, todo, _, _) => [name] + todo
    case _ => []
  }

  function Began(w: Worker): int {
    match w
    case InCycle(_, _, started) => started
    case Reading(_, _, _, started) => started
    case _ => 0
  }

  ghost predicate InStep(w: Worker, cycle: Option<Cycle>) {
    && (cycle.Some? <==> Busy(w))
    && (cycle.Some? ==> cycle.value.devices == cycle.value.done + Ahead(w) && cycle.value.began == Began(w))
  }

  lemma PassedInStep(w: Worker, w': Worker, cycle: Option<Cycle>, name: string)
    requires InStep(w, cycle) && Busy(w) && Busy(w') && Began(w') == Began(w)
    requires Ahead(w) == [name] + Ahead(w')
    ensures InStep(w', Passed(cycle, name))
  {
    var done := cycle.value.done;
    assert done + ([name] + Ahead(w')) == (done + [name]) + Ahead(w');
  }

  lemma CheckInStep(s: State, cycle: Option<Cycle>)
    requires Enabled(s, CheckBackoff) && InStep(s.worker, cycle)
    ensures InStep(Next(s, CheckBackoff).worker, CycleAfter(cycle, s, CheckBackoff, false))
  {
    var todo := s.worker.todo;
    assert todo == [todo[0]] + todo[1..];
    if !Next(s, CheckBackoff).worker.Reading? {
      PassedInStep(s.worker, Next(s, CheckBackoff).worker, cycle, todo[0]);
    }
  }

  lemma InStepNext(s: State, cycle: Option<Cycle>, step: Step)
    requires Enabled(s, step) && InStep(s.worker, cycle)
    ensures InStep(Next(s, step).worker, CycleAfter(cycle, s, step, s.stop))
  {
    match step
    case CheckBackoff => CheckInStep(s, cycle);
    case Commit(_, _) => PassedInStep(s.worker, Next(s, step).worker, cycle, s.worker.name);
    case PickUp(_) => assert [] + s.devices == s.devices;
    case _ =>
  }

  lemma {:induction false} CycleIsInStep(steps: seq<Step>)
    requires Possible(steps)
    ensures Run(steps).0.stop <==> Stop in steps
    ensures InStep(Run(steps).0.worker, CycleNow(steps))
  {
    if steps != [] {
      var front, last := steps[..|steps| - 1], steps[|steps| - 1];
      CycleIsInStep(front);
      assert steps == front + [last];
      InStepNext(Run(front).0, CycleNow(front), last);
    }
  }

  /**
   * In every run: a cycle that ends without a stop is done with every device that was listed when it
   * began, each once and in order; after a stop no cycle begins.
   */
  lemma CyclesVisitAll(steps: seq<Step>)
    requires Possible(steps) && Enabled(Run(steps).0, Finish)
    ensures CycleNow(steps).Some?
    ensures Stop !in steps ==> CycleNow(steps).value.done == CycleNow(steps).value.devices
  {
    CycleIsInStep(steps);
    var cycle := CycleNow(steps).value;
    assert cycle.done + [] == cycle.done;
  }

  /** The disk answered that it cannot be read: it has no provider, or that says so while it stays. */
  predicate Refused(a: Answers) {
    a.identity.Some? &&
    (|| a.provider.None?
     || (a.stillSame && (a.provider.value.error == Unsupported || a.provider.value.error == PermissionDenied)))
  }

  /**
   * In every run the worker passes over the next device exactly when the request was not forced and
   * its last read, less than 30 s before the cycle began, was refused; else it goes on to read it.
   */
  lemma SkippedAfterRefusal(steps: seq<Step>)
    requires Possible(steps) && Enabled(Run(steps).0, CheckBackoff)
    ensures CycleNow(steps).Some?
    ensures var (s, log) := Run(steps);
            var name, rest, last := s.worker.todo[0], s.worker.todo[1..], LastCommitted(log, s.worker.todo[0]);
            Next(s, CheckBackoff).worker ==
              if && !s.worker.force && last.Some? && Refused(last.value.answers)
                 && CycleNow(steps).value.began - last.value.steady < 30000
              then InCycle(rest, s.worker.force, s.worker.started)
              else Reading(name, rest, s.worker.force, s.worker.started)
  {
    BackoffSkipsOnlyRecentRefusals(steps);
    CycleIsInStep(steps);
    RunsAreConsistent(steps);
    var (s, log) := Run(steps);
    var name := s.worker.todo[0];
    if LastCommitted(log, name).Some? {
      var i := CommitIsInLog(log, name);
      ReadIsAnswered(name, log[i].answers);
    }
  }
}
