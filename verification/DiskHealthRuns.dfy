/**
 * What holds of the disk-health protocol over every interleaving of UI calls and worker steps:
 * requests are conserved, the caches have the right keys, and an entry shows only what was read.
 */
module DiskHealthRuns {
  import opened Wrappers
  import opened SortedSets
  import opened DiskHealth

  /** What a run leaves behind besides the state; never forgotten. */
  datatype Item =
    | DevicesSet(devices: seq<string>)
    | Accepted(force: bool)
    | Started(force: bool, devices: seq<string>)
    | Committed(name: string, answers: Answers, result: Snapshot, steady: int)
    | Finished

  function Recorded(s: State, step: Step): seq<Item>
    requires Enabled(s, step)
  {
    match step
    case SetDevices(names) => [DevicesSet(SortUnique(LESS_STRING, names))]
    case RequestRefresh(force) => if Accepts(s) then [Accepted(force)] else []
    case PickUp(_) => if s.stop then [] else [Started(s.forced, s.devices)]
    case Commit(answers, steady) => [Committed(s.worker.name, answers, ReadOne(s.worker.name, answers), steady)]
    case Finish => [Finished]
    case _ => []
  }

  function Elements(s: seq<string>): set<string> {
    set x | x in s
  }

  // ---- Reading the log ----

  function AcceptedForces(log: seq<Item>): seq<bool> {
    if log == [] then []
    else
      var before := AcceptedForces(log[..|log| - 1]);
      if log[|log| - 1].Accepted? then before + [log[|log| - 1].force] else before
  }

  function StartedForces(log: seq<Item>): seq<bool> {
    if log == [] then []
    else
      var before := StartedForces(log[..|log| - 1]);
      if log[|log| - 1].Started? then before + [log[|log| - 1].force] else before
  }

  function FinishedCount(log: seq<Item>): nat {
    if log == [] then 0
    else FinishedCount(log[..|log| - 1]) + if log[|log| - 1].Finished? then 1 else 0
  }

  /** The devices of the cycle in flight. */
  function CycleDevices(log: seq<Item>): set<string> {
    if log == [] then {}
    else
      match log[|log| - 1]
      case Started(_, devices) => Elements(devices)
      case Finished => {}
      case _ => CycleDevices(log[..|log| - 1])
  }

  /** The devices of the cycle that was in flight when the devices were last set. */
  function Overtaken(log: seq<Item>): set<string> {
    if log == [] then {}
    else if log[|log| - 1].DevicesSet? then CycleDevices(log[..|log| - 1])
    else Overtaken(log[..|log| - 1])
  }

  /** The names committed since the devices were last set. */
  function CommittedSince(log: seq<Item>): set<string> {
    if log == [] then {}
    else
      match log[|log| - 1]
      case DevicesSet(_) => {}
      case Committed(name, _, _, _) => CommittedSince(log[..|log| - 1]) + {name}
      case _ => CommittedSince(log[..|log| - 1])
  }

  /** The last commit for a name since its entry was created; unlisting the name ends the entry. */
  function LastCommitted(log: seq<Item>, name: string): (item: Option<Item>)
    ensures item.Some? ==> item.value.Committed? && item.value.name == name
  {
    if log == [] then None
    else
      var front, last := log[..|log| - 1], log[|log| - 1];
      match last
      case Committed(n, _, _, _) => if n == name then Some(last) else LastCommitted(front, name)
      case DevicesSet(devices) => if name in devices then LastCommitted(front, name) else None
      case _ => LastCommitted(front, name)
  }

  /** The last successful one. */
  function LastSucceeded(log: seq<Item>, name: string): (item: Option<Item>)
    ensures item.Some? ==> item.value.Committed? && item.value.name == name && item.value.result.ok
  {
    if log == [] then None
    else
      var front, last := log[..|log| - 1], log[|log| - 1];
      match last
      case Committed(n, _, result, _) => if n == name && result.ok then Some(last) else LastSucceeded(front, name)
      case DevicesSet(devices) => if name in devices then LastSucceeded(front, name) else None
      case _ => LastSucceeded(front, name)
  }

  function LastCommit(log: seq<Item>, name: string): Option<Snapshot> {
    var item := LastCommitted(log, name);
    if item.None? then None else Some(item.value.result)
  }

  function LastSuccess(log: seq<Item>, name: string): Option<Snapshot> {
    var item := LastSucceeded(log, name);
    if item.None? then None else Some(item.value.result)
  }

  /** The disk that the last success was read from. */
  function LastSuccessIdentity(log: seq<Item>, name: string): Option<DeviceIdentity> {
    var item := LastSucceeded(log, name);
    if item.None? then None else item.value.answers.identity
  }

  // ---- The invariant, in four parts ----

  function One(b: bool): nat {
    if b then 1 else 0
  }

  /** Requests: none is lost, none overlaps, and each cycle runs as its own request asked. */
  ghost predicate Requests(s: State, log: seq<Item>) {
    var accepted, started := AcceptedForces(log), StartedForces(log);
    && |accepted| == |started| + One(s.refreshPending)
    && started == accepted[..|started|]
    && |started| == FinishedCount(log) + One(s.refreshing)
    && !(s.refreshPending && s.refreshing)
    && (s.refreshing <==> Busy(s.worker))
    && (if s.refreshPending then s.forced == accepted[|started|] else s.forced)
    && (Busy(s.worker) ==> s.worker.force == started[|started| - 1])
    && (s.worker.Exited? ==> s.stop)
    && Increasing(LESS_STRING, s.devices)
  }

  /** Who has a cache entry: the devices, and what a cycle that `setDevices` overtook commits late. */
  ghost predicate EntryKeys(s: State, log: seq<Item>) {
    && s.results.Keys == Elements(s.devices) + CommittedSince(log)
    && CommittedSince(log) <= Elements(s.devices) + Overtaken(log)
    && (Busy(s.worker) ==>
          && Elements(s.worker.todo) <= CycleDevices(log)
          && (s.worker.Reading? ==> s.worker.name in CycleDevices(log))
          && CycleDevices(log) <= Elements(s.devices) + Overtaken(log))
    && (!Busy(s.worker) ==> CycleDevices(log) == {})
  }

  /** The snapshot to render: the last success, annotated with the last failure, if there is one. */
  function Shown(success: Option<Snapshot>, last: Option<Snapshot>): Snapshot {
    if last.None? then BLANK
    else if success.Some? then success.value.(detail := last.value.detail)
    else last.value
  }

  /** An entry, if there is one, and its back-off category against the last success and commit. */
  predicate EntryMatches(entry: Option<CacheEntry>, category: Option<ErrorCategory>,
                         success: Option<Snapshot>, last: Option<Snapshot>)
  {
    && (entry.None? ==> last.None?)
    && (last.None? ==> success.None?)
    && (success.Some? ==> success.value.ok)
    && (last.Some? && last.value.ok ==> success == last)
    && (entry.Some? ==>
          && entry.value.lastSuccess == success
          && entry.value.state == Shown(success, last)
          && entry.value.lastErrorCategory == (if last.None? || last.value.ok then NoError else last.value.error))
    && category == (if last.None? then None else Some(last.value.error))
  }

  function EntryOf(s: State, name: string): Option<CacheEntry> {
    if name in s.results then Some(s.results[name]) else None
  }

  function RecordedCategory(s: State, name: string): Option<ErrorCategory> {
    if name in s.attemptCategory then Some(s.attemptCategory[name]) else None
  }

  ghost predicate EntryIsTrue(s: State, log: seq<Item>, name: string) {
    && (name in s.attempts <==> name in s.attemptCategory)
    && EntryMatches(EntryOf(s, name), RecordedCategory(s, name), LastSuccess(log, name), LastCommit(log, name))
  }

  /** The times and labels of an entry of `name`, and its back-off time, against its last commits. */
  predicate DatesMatch(name: string, entry: Option<CacheEntry>, attempt: Option<int>, committed: Option<Item>,
                       succeeded: Option<Item>)
    requires committed.Some? ==> committed.value.Committed?
    requires succeeded.Some? ==> succeeded.value.Committed?
  {
    && (entry.None? ==> committed.None? && succeeded.None?)
    && attempt == (if committed.None? then None else Some(committed.value.steady))
    && (entry.Some? ==>
          && entry.value.lastSuccessAt == (if succeeded.None? then None else Some(succeeded.value.answers.wall))
          && (committed.None? ==>
                entry.value.(lastSuccess := None, lastSuccessAt := None, state := BLANK) == NEW_ENTRY)
          && (committed.Some? ==>
                var result := committed.value.result;
                && entry.value.lastAttemptAt == Some(committed.value.answers.wall)
                && entry.value.lastError == (if result.ok then "" else result.detail)
                && entry.value.deviceName == name
                && entry.value.provider == SourceName(result.source)))
  }

  function AttemptOf(s: State, name: string): Option<int> {
    if name in s.attempts then Some(s.attempts[name]) else None
  }

  ghost predicate EntryIsDated(s: State, log: seq<Item>, name: string) {
    DatesMatch(name, EntryOf(s, name), AttemptOf(s, name), LastCommitted(log, name), LastSucceeded(log, name))
  }

  ghost predicate Genuine(log: seq<Item>) {
    forall i | 0 <= i < |log| && log[i].Committed? :: log[i].result == ReadOne(log[i].name, log[i].answers)
  }

  ghost predicate Consistent(s: State, log: seq<Item>) {
    && Requests(s, log)
    && EntryKeys(s, log)
    && (forall name :: EntryIsTrue(s, log, name))
    && (forall name :: EntryIsDated(s, log, name))
    && Genuine(log)
  }

  // ---- Each step keeps it ----

  lemma StepKeepsRequests(s: State, log: seq<Item>, step: Step)
    requires Enabled(s, step) && Requests(s, log)
    ensures Requests(Next(s, step), log + Recorded(s, step))
  {
    var added := Recorded(s, step);
    if added == [] {
      assert log + added == log;
    } else {
      assert (log + added)[..|log|] == log;
    }
    if step.SetDevices? {
      LessStringIsTotal();
      SortUniqueSorts(LESS_STRING, step.names);
    }
  }

  lemma StepKeepsEntryKeys(s: State, log: seq<Item>, step: Step)
    requires Enabled(s, step) && Requests(s, log) && EntryKeys(s, log)
    ensures EntryKeys(Next(s, step), log + Recorded(s, step))
  {
    var added := Recorded(s, step);
    if added == [] {
      assert log + added == log;
    } else {
      assert (log + added)[..|log|] == log;
    }
    if step.CheckBackoff? {
      assert s.worker.todo[0] in s.worker.todo;
      assert Elements(s.worker.todo[1..]) <= Elements(s.worker.todo);
    }
  }

  /** How the log reads one more commit. */
  lemma CommitIsLast(log: seq<Item>, name: string, answers: Answers, steady: int, other: string)
    ensures var item := Committed(name, answers, ReadOne(name, answers), steady);
            && LastCommitted(log + [item], other) == (if other == name then Some(item) else LastCommitted(log, other))
            && LastSucceeded(log + [item], other)
               == (if other == name && item.result.ok then Some(item) else LastSucceeded(log, other))
  {
    assert (log + [Committed(name, answers, ReadOne(name, answers), steady)])[..|log|] == log;
  }

  lemma AbsorbMatches(entry: Option<CacheEntry>, category: Option<ErrorCategory>, success: Option<Snapshot>,
                      last: Option<Snapshot>, name: string, result: Snapshot, wall: int)
    requires EntryMatches(entry, category, success, last)
    ensures EntryMatches(Some(Absorb(entry.ValueOr(NEW_ENTRY), name, result, wall)), Some(result.error),
                         if result.ok then Some(result) else success, Some(result))
  {
  }

  /** A commit changes what is cached under its own name only. */
  lemma CommitSetsEntry(s: State, answers: Answers, steady: int, result: Snapshot, name: string)
    requires Enabled(s, Commit(answers, steady)) && result == ReadOne(s.worker.name, answers)
    ensures var s' := Next(s, Commit(answers, steady));
            && (name in s'.attempts <==> name in s.attempts || name == s.worker.name)
            && (name in s'.attemptCategory <==> name in s.attemptCategory || name == s.worker.name)
            && EntryOf(s', name) == (if name != s.worker.name then EntryOf(s, name)
                                     else Some(Absorb(EntryOf(s, name).ValueOr(NEW_ENTRY), name, result, answers.wall)))
            && RecordedCategory(s', name)
               == (if name != s.worker.name then RecordedCategory(s, name) else Some(result.error))
  {
  }

  lemma CommitKeepsEntry(s: State, log: seq<Item>, answers: Answers, steady: int, name: string)
    requires Enabled(s, Commit(answers, steady)) && EntryIsTrue(s, log, name)
    ensures EntryIsTrue(Next(s, Commit(answers, steady)), log + Recorded(s, Commit(answers, steady)), name)
  {
    var result := ReadOne(s.worker.name, answers);
    CommitIsLast(log, s.worker.name, answers, steady, name);
    CommitSetsEntry(s, answers, steady, result, name);
    AbsorbMatches(EntryOf(s, name), RecordedCategory(s, name), LastSuccess(log, name), LastCommit(log, name),
                  name, result, answers.wall);
  }

  lemma StepKeepsEntry(s: State, log: seq<Item>, step: Step, name: string)
    requires Enabled(s, step) && EntryIsTrue(s, log, name)
    ensures EntryIsTrue(Next(s, step), log + Recorded(s, step), name)
  {
    if step.Commit? {
      CommitKeepsEntry(s, log, step.answers, step.steady, name);
    } else {
      var added := Recorded(s, step);
      if added == [] {
        assert log + added == log;
      } else {
        assert (log + added)[..|log|] == log;
      }
    }
  }

  lemma AbsorbDated(name: string, entry: Option<CacheEntry>, attempt: Option<int>, committed: Option<Item>,
                    succeeded: Option<Item>, item: Item)
    requires committed.Some? ==> committed.value.Committed?
    requires succeeded.Some? ==> succeeded.value.Committed?
    requires DatesMatch(name, entry, attempt, committed, succeeded) && item.Committed?
    ensures DatesMatch(name, Some(Absorb(entry.ValueOr(NEW_ENTRY), name, item.result, item.answers.wall)),
                       Some(item.steady), Some(item), if item.result.ok then Some(item) else succeeded)
  {
  }

  lemma CommitKeepsDates(s: State, log: seq<Item>, answers: Answers, steady: int, name: string)
    requires Enabled(s, Commit(answers, steady)) && EntryIsDated(s, log, name)
    ensures EntryIsDated(Next(s, Commit(answers, steady)), log + Recorded(s, Commit(answers, steady)), name)
  {
    CommitIsLast(log, s.worker.name, answers, steady, name);
    AbsorbDated(name, EntryOf(s, name), AttemptOf(s, name), LastCommitted(log, name), LastSucceeded(log, name),
                Committed(s.worker.name, answers, ReadOne(s.worker.name, answers), steady));
  }

  lemma StepKeepsDates(s: State, log: seq<Item>, step: Step, name: string)
    requires Enabled(s, step) && EntryIsDated(s, log, name)
    ensures EntryIsDated(Next(s, step), log + Recorded(s, step), name)
  {
    if step.Commit? {
      CommitKeepsDates(s, log, step.answers, step.steady, name);
    } else {
      var added := Recorded(s, step);
      if added == [] {
        assert log + added == log;
      } else {
        assert (log + added)[..|log|] == log;
      }
    }
  }

  lemma StepKeepsConsistent(s: State, log: seq<Item>, step: Step)
    requires Enabled(s, step) && Consistent(s, log)
    ensures Consistent(Next(s, step), log + Recorded(s, step))
  {
    StepKeepsRequests(s, log, step);
    StepKeepsEntryKeys(s, log, step);
    forall name ensures EntryIsTrue(Next(s, step), log + Recorded(s, step), name) {
      StepKeepsEntry(s, log, step, name);
    }
    forall name ensures EntryIsDated(Next(s, step), log + Recorded(s, step), name) {
      StepKeepsDates(s, log, step, name);
    }
  }

  // ---- Runs ----

  ghost predicate Possible(steps: seq<Step>)
    decreases |steps|, 0
  {
    steps == [] ||
    (Possible(steps[..|steps| - 1]) && Enabled(Run(steps[..|steps| - 1]).0, steps[|steps| - 1]))
  }

  /** The state and the log after a possible interleaving. */
  ghost function Run(steps: seq<Step>): (State, seq<Item>)
    requires Possible(steps)
    decreases |steps|, 1
  {
    if steps == [] then (INITIAL, [])
    else
      var (s, log) := Run(steps[..|steps| - 1]);
      var step := steps[|steps| - 1];
      (Next(s, step), log + Recorded(s, step))
  }

  /** The invariant holds after every interleaving. */
  lemma {:induction false} RunsAreConsistent(steps: seq<Step>)
    requires Possible(steps)
    ensures var (s, log) := Run(steps); Consistent(s, log)
  {
    if steps != [] {
      var n := |steps| - 1;
      RunsAreConsistent(steps[..n]);
      var (s, log) := Run(steps[..n]);
      StepKeepsConsistent(s, log, steps[n]);
    }
  }

  /** The back-off maps always have the same keys, and all of them have entries. */
  lemma AttemptKeysAgree(steps: seq<Step>)
    requires Possible(steps)
    ensures var (s, log) := Run(steps);
            s.attempts.Keys == s.attemptCategory.Keys <= s.results.Keys
  {
    RunsAreConsistent(steps);
    var (s, log) := Run(steps);
    forall name ensures name in s.attempts ==> name in s.attemptCategory && name in s.results {
      assert EntryIsTrue(s, log, name);
    }
    forall name ensures name in s.attemptCategory ==> name in s.attempts {
      assert EntryIsTrue(s, log, name);
    }
  }

  /**
   * An entry without a listed device can only be a late commit of the cycle that was in flight when
   * the devices were last set; with none in flight then, entries and devices agree until the next time.
   */
  lemma OnlyOvertakenCyclesLeaveStrays(steps: seq<Step>)
    requires Possible(steps)
    ensures var (s, log) := Run(steps);
            && Elements(s.devices) <= s.results.Keys
            && s.results.Keys - Elements(s.devices) <= CommittedSince(log) * Overtaken(log)
            && (Overtaken(log) == {} ==> s.results.Keys == Elements(s.devices))
  {
    RunsAreConsistent(steps);
  }

  /** Such a late commit revives a pruned entry: the keys stay in step exactly when the name is listed. */
  lemma LateCommitRevives(s: State, answers: Answers, steady: int)
    requires s.worker.Reading? && s.results.Keys == Elements(s.devices)
    ensures var s' := Next(s, Commit(answers, steady));
            && s'.results.Keys == s.results.Keys + {s.worker.name}
            && (s'.results.Keys == Elements(s'.devices) <==> s.worker.name in s.devices)
  {
    assert s.worker.name in s.devices <==> s.worker.name in Elements(s.devices);
  }

  lemma Extend(steps: seq<Step>, step: Step)
    requires Possible(steps) && Enabled(Run(steps).0, step)
    ensures Possible(steps + [step])
    ensures var (s, log) := Run(steps);
            Run(steps + [step]) == (Next(s, step), log + Recorded(s, step))
  {
    assert (steps + [step])[..|steps|] == steps;
  }

  lemma CyclePickedUp(name: string) returns (steps: seq<Step>)
    ensures Possible(steps)
    ensures Run(steps).0.worker == InCycle([name], true, 0) && !Run(steps).0.stop
  {
    steps := OneDeviceListed(name);
    Extend(steps, RequestRefresh(true));
    steps := steps + [RequestRefresh(true)];
    Extend(steps, PickUp(0));
    steps := steps + [PickUp(0)];
  }

  lemma ReadingUnlisted(name: string) returns (steps: seq<Step>)
    ensures Possible(steps)
    ensures Run(steps).0.worker.Reading? && Run(steps).0.worker.name == name && Run(steps).0.devices == []
  {
    var before := CyclePickedUp(name);
    Extend(before, CheckBackoff);
    var reading := before + [CheckBackoff];
    Extend(reading, SetDevices([]));
    steps := reading + [SetDevices([])];
  }

  /** And there is such a run: a device is unlisted while it is being read. */
  lemma LateCommitHappens(name: string, answers: Answers)
    ensures exists steps :: Possible(steps) &&
              var s := Run(steps).0; s.devices == [] && name in s.results
  {
    var steps := ReadingUnlisted(name);
    Extend(steps, Commit(answers, 0));
    var late := steps + [Commit(answers, 0)];
    assert Run(late).0.devices == [] && name in Run(late).0.results;
  }

  // ---- What an entry may be believed to say ----

  /** A provider never calls a disk healthy that it could not assess. */
  ghost predicate HonestProviders(log: seq<Item>) {
    forall i | 0 <= i < |log| && log[i].Committed? && log[i].answers.provider.Some? ::
      log[i].answers.provider.value.status == Healthy ==> log[i].answers.provider.value.ok
  }

  /** A result is ok exactly when a device was there, its provider read it, and it was still the same. */
  lemma OkResultIsGenuine(name: string, answers: Answers)
    ensures var r := ReadOne(name, answers);
            && (r.ok <==>
                  && answers.identity.Some? && answers.provider.Some?
                  && answers.provider.value.ok && answers.stillSame)
            && (r.ok ==>
                  && r.major == answers.identity.value.major && r.minor == answers.identity.value.minor
                  && r.status == answers.provider.value.status && r.values == answers.provider.value.values)
  {
  }

  /** The read behind an item of the log. */
  ghost predicate IsRealSuccess(item: Item, name: string, r: Snapshot) {
    && item.Committed? && item.name == name && item.result == r && r.ok
    && item.answers.identity.Some? && item.answers.stillSame
    && item.answers.provider.Some? && item.answers.provider.value.ok
  }

  lemma {:induction false} SuccessIsInLog(log: seq<Item>, name: string) returns (i: nat)
    requires Genuine(log) && LastSucceeded(log, name).Some?
    ensures i < |log| && log[i] == LastSucceeded(log, name).value
    ensures IsRealSuccess(log[i], name, LastSuccess(log, name).value)
    ensures forall j | i < j < |log| :: log[j].DevicesSet? ==> name in log[j].devices
  {
    var n := |log| - 1;
    var item := log[n];
    if item.Committed? && item.name == name && item.result.ok {
      OkResultIsGenuine(name, item.answers);
      i := n;
    } else {
      assert forall k | 0 <= k < n :: log[..n][k] == log[k];
      i := SuccessIsInLog(log[..n], name);
    }
  }

  lemma {:induction false} CommitIsInLog(log: seq<Item>, name: string) returns (i: nat)
    requires LastCommitted(log, name).Some?
    ensures i < |log| && log[i] == LastCommitted(log, name).value
  {
    var n := |log| - 1;
    if log[n].Committed? && log[n].name == name {
      i := n;
    } else {
      i := CommitIsInLog(log[..n], name);
      assert log[..n][i] == log[i];
    }
  }

  lemma FailedReadIsNotHealthy(name: string, answers: Answers)
    requires answers.provider.Some? && answers.provider.value.status == Healthy ==> answers.provider.value.ok
    ensures ReadOne(name, answers).status == Healthy ==> ReadOne(name, answers).ok
  {
  }

  /**
   * What an entry shows is ok exactly when a success is on record, and it is then that success with
   * at most another detail text. With honest providers nothing else is ever shown as healthy.
   */
  lemma HealthyOnlyAfterRealSuccess(steps: seq<Step>, name: string)
    requires Possible(steps) && name in Run(steps).0.results
    ensures var (s, log) := Run(steps);
            var entry := s.results[name];
            && entry.lastSuccess == LastSuccess(log, name)
            && (entry.state.ok <==> entry.lastSuccess.Some?)
            && (entry.lastSuccess.Some? ==>
                  && entry.state.(detail := "") == entry.lastSuccess.value.(detail := "")
                  && exists i :: 0 <= i < |log| && IsRealSuccess(log[i], name, entry.lastSuccess.value))
            && (HonestProviders(log) && entry.state.status == Healthy ==> entry.lastSuccess.Some?)
  {
    RunsAreConsistent(steps);
    var (s, log) := Run(steps);
    assert EntryIsTrue(s, log, name);
    if LastSuccess(log, name).Some? {
      var i := SuccessIsInLog(log, name);
    } else if LastCommit(log, name).Some? && HonestProviders(log) {
      var i := CommitIsInLog(log, name);
      FailedReadIsNotHealthy(name, log[i].answers);
    }
  }

  /** The read whose figures an entry shows: the last success, or the last read if there is none. */
  function ShownRead(log: seq<Item>, name: string): (item: Option<Item>)
    ensures item.Some? ==> item.value.Committed? && item.value.name == name
  {
    if LastSucceeded(log, name).Some? then LastSucceeded(log, name) else LastCommitted(log, name)
  }

  lemma EntryShowsRead(s: State, log: seq<Item>, name: string)
    requires name in s.results && EntryIsTrue(s, log, name) && LastCommitted(log, name).Some?
    ensures ShownRead(log, name).Some?
    ensures s.results[name].state.(detail := "") == ShownRead(log, name).value.result.(detail := "")
  {
    assert EntryOf(s, name) == Some(s.results[name]);
  }

  /**
   * The health shown may be of an earlier disk. In every run, after a commit for a disk that was
   * identified, the entry shows what was read from that disk exactly when this read succeeded (its
   * provider did, and the disk stayed the same), or no success was on record, or the success on
   * record was read from that very disk.
   */
  lemma ReplacedDiskKeepsOldHealth(steps: seq<Step>, answers: Answers, steady: int)
    requires Possible(steps) && Enabled(Run(steps).0, Commit(answers, steady)) && answers.identity.Some?
    ensures Possible(steps + [Commit(answers, steady)])
    ensures var (s, log) := Run(steps);
            var (s', log') := Run(steps + [Commit(answers, steady)]);
            var name := s.worker.name;
            var shown := ShownRead(log', name);
            && shown.Some? && name in s'.results
            && s'.results[name].state.(detail := "") == shown.value.result.(detail := "")
            && (shown.value.answers.identity == answers.identity <==>
                  || (answers.stillSame && answers.provider.Some? && answers.provider.value.ok)
                  || LastSucceeded(log, name).None?
                  || LastSuccessIdentity(log, name) == answers.identity)
  {
    var (s, log) := Run(steps);
    var name := s.worker.name;
    Extend(steps, Commit(answers, steady));
    RunsAreConsistent(steps + [Commit(answers, steady)]);
    var (s', log') := Run(steps + [Commit(answers, steady)]);
    CommitIsLast(log, name, answers, steady, name);
    assert EntryIsTrue(s', log', name);
    EntryShowsRead(s', log', name);
    OkResultIsGenuine(name, answers);
  }

  /** Between cycles, with one device listed and nothing requested. */
  ghost predicate IdleWith(s: State, name: string) {
    s.worker.Waiting? && s.devices == [name] && Accepts(s) && !s.stop
  }

  /** An item that says nothing about what was read. */
  lemma OtherItem(log: seq<Item>, item: Item, name: string)
    requires !item.Committed? && !item.DevicesSet?
    ensures LastCommitted(log + [item], name) == LastCommitted(log, name)
    ensures LastSucceeded(log + [item], name) == LastSucceeded(log, name)
  {
    assert (log + [item])[..|log|] == log;
  }

  lemma QuietExtend(steps: seq<Step>, step: Step, name: string) returns (more: seq<Step>)
    requires Possible(steps) && Enabled(Run(steps).0, step) && !step.Commit? && !step.SetDevices?
    ensures Possible(more) && Run(more).0 == Next(Run(steps).0, step)
    ensures LastCommitted(Run(more).1, name) == LastCommitted(Run(steps).1, name)
    ensures LastSucceeded(Run(more).1, name) == LastSucceeded(Run(steps).1, name)
  {
    more := steps + [step];
    Extend(steps, step);
    var (s, log) := Run(steps);
    if Recorded(s, step) == [] {
      assert log + [] == log;
    } else {
      OtherItem(log, Recorded(s, step)[0], name);
    }
  }

  /** What the log says of a name after one more read of it. */
  ghost predicate ReadNow(log: seq<Item>, log': seq<Item>, item: Item)
    requires item.Committed?
  {
    && LastCommitted(log', item.name) == Some(item)
    && LastSucceeded(log', item.name) == if item.result.ok then Some(item) else LastSucceeded(log, item.name)
  }

  lemma CommitExtend(steps: seq<Step>, item: Item) returns (more: seq<Step>)
    requires item.Committed? && item.result == ReadOne(item.name, item.answers)
    requires Possible(steps) && Run(steps).0.worker == Reading(item.name, [], true, 0)
    ensures Possible(more) && Run(more).0.worker == InCycle([], true, 0)
    ensures var s, s' := Run(steps).0, Run(more).0;
            && s'.devices == s.devices && s'.refreshing == s.refreshing
            && s'.refreshPending == s.refreshPending && s'.stop == s.stop
    ensures ReadNow(Run(steps).1, Run(more).1, item)
  {
    more := steps + [Commit(item.answers, item.steady)];
    Extend(steps, Commit(item.answers, item.steady));
    CommitIsLast(Run(steps).1, item.name, item.answers, item.steady, item.name);
  }

  /** The three steps that bring an idle worker to its read. */
  lemma CycleToReading(s: State, name: string)
    requires IdleWith(s, name)
    ensures var s1 := Next(s, RequestRefresh(true));
            && Enabled(s1, PickUp(0)) && Enabled(Next(s1, PickUp(0)), CheckBackoff)
            && var s3 := Next(Next(s1, PickUp(0)), CheckBackoff);
            && s3.worker == Reading(name, [], true, 0) && s3.devices == [name]
            && s3.refreshing && !s3.refreshPending && !s3.stop
  {
  }

  lemma CycleBegins(steps: seq<Step>, name: string) returns (more: seq<Step>)
    requires Possible(steps) && IdleWith(Run(steps).0, name)
    ensures Possible(more)
    ensures var s := Run(more).0;
            && s.worker == Reading(name, [], true, 0) && s.devices == [name]
            && s.refreshing && !s.refreshPending && !s.stop
    ensures LastSucceeded(Run(more).1, name) == LastSucceeded(Run(steps).1, name)
  {
    CycleToReading(Run(steps).0, name);
    more := QuietExtend(steps, RequestRefresh(true), name);
    more := QuietExtend(more, PickUp(0), name);
    more := QuietExtend(more, CheckBackoff, name);
  }

  lemma CycleFinishes(steps: seq<Step>, name: string) returns (more: seq<Step>)
    requires Possible(steps) && Run(steps).0.worker == InCycle([], true, 0)
    requires var s := Run(steps).0; s.devices == [name] && !s.refreshPending && !s.stop
    ensures Possible(more) && IdleWith(Run(more).0, name)
    ensures LastCommitted(Run(more).1, name) == LastCommitted(Run(steps).1, name)
    ensures LastSucceeded(Run(more).1, name) == LastSucceeded(Run(steps).1, name)
  {
    more := QuietExtend(steps, Finish, name);
  }

  /** One whole forced cycle over one device. */
  lemma CycleReads(steps: seq<Step>, item: Item) returns (more: seq<Step>)
    requires item.Committed? && item.result == ReadOne(item.name, item.answers)
    requires Possible(steps) && IdleWith(Run(steps).0, item.name)
    ensures Possible(more) && IdleWith(Run(more).0, item.name)
    ensures ReadNow(Run(steps).1, Run(more).1, item)
  {
    var reading := CycleBegins(steps, item.name);
    var read := CommitExtend(reading, item);
    more := CycleFinishes(read, item.name);
  }

  lemma OneDeviceListed(name: string) returns (steps: seq<Step>)
    ensures Possible(steps) && IdleWith(Run(steps).0, name)
  {
    assert SortUnique(LESS_STRING, [name]) == [name] by {
      assert [name][..0] == [];
    }
    Extend([], SetDevices([name]));
    steps := [] + [SetDevices([name])];
  }

  /** A run for any two reads of one name: what the first one showed stays, if only the first succeeds. */
  lemma SecondReadKeepsFirst(name: string, first: Answers, second: Answers) returns (steps: seq<Step>)
    requires ReadOne(name, first).ok && !ReadOne(name, second).ok
    ensures Possible(steps)
    ensures var (s, log) := Run(steps);
            && LastCommitted(log, name) == Some(Committed(name, second, ReadOne(name, second), 0))
            && LastSucceeded(log, name) == Some(Committed(name, first, ReadOne(name, first), 0))
            && name in s.results
            && s.results[name].state == ReadOne(name, first).(detail := ReadOne(name, second).detail)
  {
    var listed := OneDeviceListed(name);
    var once := CycleReads(listed, Committed(name, first, ReadOne(name, first), 0));
    steps := CycleReads(once, Committed(name, second, ReadOne(name, second), 0));
    RunsAreConsistent(steps);
    assert EntryIsTrue(Run(steps).0, Run(steps).1, name);
  }

  /**
   * So it happens that a disk is swapped for another one with the same device numbers, the read of
   * the new one fails, and the entry shows the old one as healthy.
   */
  lemma SwappedDiskShownHealthy(name: string, health: Snapshot, major: nat, minor: nat)
    requires health.ok && health.status == Healthy
    ensures exists steps :: Possible(steps) &&
              var (s, log) := Run(steps);
              && name in s.results && s.results[name].state.ok && s.results[name].state.status == Healthy
              && LastSuccessIdentity(log, name) == Some(DeviceIdentity(major, minor, "a"))
              && LastCommitted(log, name).Some?
              && LastCommitted(log, name).value.answers.identity == Some(DeviceIdentity(major, minor, "b"))
  {
    var first := Answers(Some(DeviceIdentity(major, minor, "a")), NO_METADATA, Some(health), true, 0);
    var second := Answers(Some(DeviceIdentity(major, minor, "b")), NO_METADATA, None, true, 0);
    var steps := SecondReadKeepsFirst(name, first, second);
    assert Possible(steps);
  }

  // ---- Requests ----

  /** In every state: accepted requests are the started cycles and at most one pending one, in order. */
  lemma RequestsAreConserved(steps: seq<Step>)
    requires Possible(steps)
    ensures var (s, log) := Run(steps);
            var accepted, started := AcceptedForces(log), StartedForces(log);
            && |accepted| == |started| + One(s.refreshPending)
            && (forall k | 0 <= k < |started| :: started[k] == accepted[k])
            && |started| == FinishedCount(log) + One(Busy(s.worker))
            && (Busy(s.worker) ==> !s.refreshPending && s.worker.force == accepted[|started| - 1])
  {
    RunsAreConsistent(steps);
    var (s, log) := Run(steps);
    var accepted, started := AcceptedForces(log), StartedForces(log);
    assert forall k | 0 <= k < |started| :: accepted[..|started|][k] == accepted[k];
  }

  // ---- Progress ----

  /** How many worker steps the cycle in flight can still take. */
  function StepsLeft(w: Worker): nat {
    match w
    case InCycle(todo, _, _) => 2 * |todo| + 1
    case Reading(_, todo, _, _) => 2 * |todo| + 2
    case _ => 0
  }

  /** A busy worker is never stuck, and only its own steps move it, each towards the end. */
  lemma BusyWorkerAdvances(s: State, step: Step)
    requires Busy(s.worker) && Enabled(s, step)
    ensures if IsWorkerStep(step) then StepsLeft(Next(s, step).worker) < StepsLeft(s.worker)
            else Next(s, step).worker == s.worker
    ensures forall answers, steady ::
              Enabled(s, CheckBackoff) || Enabled(s, Finish) || Enabled(s, Commit(answers, steady))
  {
  }

  function WorkerSteps(steps: seq<Step>): nat {
    if steps == [] then 0 else One(IsWorkerStep(steps[0])) + WorkerSteps(steps[1..])
  }

  ghost predicate Continues(s: State, steps: seq<Step>)
    decreases |steps|
  {
    steps == [] || (Enabled(s, steps[0]) && Continues(Next(s, steps[0]), steps[1..]))
  }

  ghost function Continued(s: State, steps: seq<Step>): State
    requires Continues(s, steps)
    decreases |steps|
  {
    if steps == [] then s else Continued(Next(s, steps[0]), steps[1..])
  }

  /** However the UI interferes, the cycle in flight is over after `StepsLeft` steps of the worker. */
  lemma {:induction false} CyclesEnd(s: State, steps: seq<Step>) returns (n: nat)
    requires Busy(s.worker) && Continues(s, steps)
    requires WorkerSteps(steps) >= StepsLeft(s.worker)
    ensures n <= |steps| && Continues(s, steps[..n])
    ensures Continued(s, steps[..n]).worker.Waiting? && !Continued(s, steps[..n]).refreshing
    decreases |steps|
  {
    BusyWorkerAdvances(s, steps[0]);
    var s' := Next(s, steps[0]);
    if Busy(s'.worker) {
      var k := CyclesEnd(s', steps[1..]);
      n := k + 1;
      assert steps[..n][0] == steps[0] && steps[..n][1..] == steps[1..][..k];
    } else {
      n := 1;
      assert steps[..1][0] == steps[0] && steps[..1][1..] == [];
      assert Continues(s', []) && Continued(s', []) == s';
    }
  }

  // ---- Back-off ----

  /**
   * A device is passed over just when the cycle was not forced and its last read was refused, less
   * than 30 s before the cycle began.
   */
  lemma BackoffSkipsOnlyRecentRefusals(steps: seq<Step>)
    requires Possible(steps) && Enabled(Run(steps).0, CheckBackoff)
    ensures var (s, log) := Run(steps);
            var last := LastCommitted(log, s.worker.todo[0]);
            Next(s, CheckBackoff).worker.InCycle? <==>
              && !s.worker.force && last.Some?
              && (last.value.result.error == Unsupported || last.value.result.error == PermissionDenied)
              && s.worker.started - last.value.steady < RETRY_BACKOFF
  {
    RunsAreConsistent(steps);
    var (s, log) := Run(steps);
    assert EntryIsTrue(s, log, s.worker.todo[0]) && EntryIsDated(s, log, s.worker.todo[0]);
  }
}
