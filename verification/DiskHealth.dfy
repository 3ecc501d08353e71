/**
 * The background disk-health monitor (src/disk_health.cpp). UI threads set the devices and request
 * refreshes; one worker thread runs refresh cycles. Every region under the mutex is one atomic step;
 * the health read itself runs between two of them.
 */
module DiskHealth {
  import opened Wrappers
  import opened SortedSets

  datatype ErrorCategory =
    | NoError | Unsupported | PermissionDenied | DeviceUnavailable
    | TransportError | ParseError | Timeout | UnknownError

  datatype Status =
    | Healthy | Warning | Failing | UnsupportedDevice | AccessDenied | Unavailable | UnknownStatus

  datatype Source = NoSource | AtaSmart | Nvme

  datatype DeviceIdentity = DeviceIdentity(major: nat, minor: nat, sysfsId: string)

  datatype Metadata = Metadata(vendor: string, model: string, firmware: string, serialAvailable: bool)

  /** One health result; `values` stands for all the figures that a health log carries. */
  datatype Snapshot = Snapshot(ok: bool, deviceName: string, devicePath: string, metadata: Metadata,
                               major: nat, minor: nat, source: Source, status: Status,
                               error: ErrorCategory, detail: string, refreshedAt: Option<int>,
                               values: seq<int>)

  const NO_METADATA := Metadata("", "", "", false)
  const BLANK :=
    Snapshot(false, "", "", NO_METADATA, 0, 0, NoSource, UnknownStatus, NoError, "", None, [])

  function StatusForError(category: ErrorCategory): Status {
    match category
    case NoError => UnknownStatus
    case Unsupported => UnsupportedDevice
    case PermissionDenied => AccessDenied
    case _ => Unavailable
  }

  function DetailForCategory(category: ErrorCategory): string {
    match category
    case NoError => ""
    case Unsupported => "This device does not support readable health data"
    case PermissionDenied => "Permission denied (the user needs access to the device node)"
    case DeviceUnavailable => "The device disappeared or was replaced"
    case TransportError => "The device did not answer the health request"
    case ParseError => "The returned health data could not be interpreted"
    case Timeout => "The health request timed out"
    case UnknownError => "The health request failed for an unknown reason"
  }

  function FailSnapshot(snap: Snapshot, category: ErrorCategory, detail: string): Snapshot {
    snap.(ok := false, error := category, status := StatusForError(category),
          detail := if detail == "" then DetailForCategory(category) else detail)
  }

  function SourceForDevice(name: string): Source {
    if "nvme" <= name then Nvme else AtaSmart
  }

  function SourceName(source: Source): string {
    match source
    case NoSource => "N/A"
    case AtaSmart => "ATA/SMART"
    case Nvme => "NVMe"
  }

  /** Milliseconds. */
  const RETRY_BACKOFF := 30000

  predicate WithinRetryBackoff(category: ErrorCategory, lastAttempt: int, now: int) {
    (category == Unsupported || category == PermissionDenied) && now - lastAttempt < RETRY_BACKOFF
  }

  /** What the outside world answers while one device is read. */
  datatype Answers = Answers(identity: Option<DeviceIdentity>, metadata: Metadata, provider: Option<Snapshot>,
                             stillSame: bool, wall: int)

  function ReadOne(name: string, answers: Answers): Snapshot {
    match answers.identity
    case None => FailSnapshot(BLANK.(deviceName := name), DeviceUnavailable, "")
    case Some(identity) =>
      match answers.provider
      case None =>
        var base := BLANK.(deviceName := name, devicePath := "/dev/" + name, major := identity.major,
                           minor := identity.minor, source := SourceForDevice(name),
                           metadata := answers.metadata);
        FailSnapshot(base, Unsupported, "")
      case Some(health) =>
        var result := health.(deviceName := name, major := identity.major, minor := identity.minor);
        if !answers.stillSame then FailSnapshot(result, DeviceUnavailable, "")
        else result.(refreshedAt := Some(answers.wall))
  }

  datatype CacheEntry = CacheEntry(deviceName: string, state: Snapshot, lastSuccess: Option<Snapshot>,
                                   lastSuccessAt: Option<int>, lastAttemptAt: Option<int>,
                                   lastError: string, lastErrorCategory: ErrorCategory, provider: string)

  const NEW_ENTRY := CacheEntry("", BLANK, None, None, None, "", NoError, "")

  /** The cache entry after a result is committed. */
  function Absorb(entry: CacheEntry, name: string, result: Snapshot, wall: int): CacheEntry {
    var e := entry.(deviceName := name, provider := SourceName(result.source), lastAttemptAt := Some(wall));
    if result.ok then
      e.(state := result, lastSuccess := Some(result), lastSuccessAt := Some(wall),
         lastError := "", lastErrorCategory := NoError)
    else
      e.(lastError := result.detail, lastErrorCategory := result.error,
         state := if e.lastSuccess.Some? then e.lastSuccess.value.(detail := result.detail) else result)
  }

  // ---- The protocol ----

  /** Where the worker thread is, with its locals. */
  datatype Worker =
    | Waiting
    | InCycle(todo: seq<string>, force: bool, started: int)
    | Reading(name: string, todo: seq<string>, force: bool, started: int)
    | Exited

  datatype State = State(devices: seq<string>, results: map<string, CacheEntry>, attempts: map<string, int>,
                         attemptCategory: map<string, ErrorCategory>, refreshPending: bool, forced: bool,
                         refreshing: bool, stop: bool, worker: Worker)

  const INITIAL := State([], map[], map[], map[], false, true, false, false, Waiting)

  datatype Step =
    | SetDevices(names: seq<string>)
    | RequestRefresh(force: bool)
    | Stop
    | PickUp(now: int)
    | CheckBackoff
    | Commit(answers: Answers, steady: int)
    | Finish

  predicate IsWorkerStep(step: Step) {
    step.PickUp? || step.CheckBackoff? || step.Commit? || step.Finish?
  }

  predicate Busy(w: Worker) {
    w.InCycle? || w.Reading?
  }

  predicate Enabled(s: State, step: Step) {
    match step
    case SetDevices(_) => true
    case RequestRefresh(_) => true
    case Stop => true
    case PickUp(_) => s.worker.Waiting? && (s.stop || s.refreshPending)
    case CheckBackoff => s.worker.InCycle? && s.worker.todo != [] && !s.stop
    case Commit(_, _) => s.worker.Reading?
    case Finish => s.worker.InCycle? && (s.worker.todo == [] || s.stop)
  }

  function CategoryOf(s: State, name: string): ErrorCategory {
    if name in s.attemptCategory then s.attemptCategory[name] else NoError
  }

  /** The device at the head of a cycle is passed over, because it refused a short while ago. */
  predicate InBackoff(s: State, name: string, force: bool, started: int) {
    !force && name in s.attempts && WithinRetryBackoff(CategoryOf(s, name), s.attempts[name], started)
  }

  function Accepts(s: State): bool {
    !s.refreshing && !s.refreshPending
  }

  function Next(s: State, step: Step): State
    requires Enabled(s, step)
  {
    match step
    case SetDevices(names) =>
      var devices := SortUnique(LESS_STRING, names);
      var stale := set name | name in s.results && name !in devices;
      s.(devices := devices,
         results := map name | name in devices :: if name in s.results then s.results[name] else NEW_ENTRY,
         attempts := s.attempts - stale,
         attemptCategory := s.attemptCategory - stale)
    case RequestRefresh(force) =>
      if Accepts(s) then s.(refreshPending := true, forced := force) else s
    case Stop => s.(stop := true)
    case PickUp(now) =>
      if s.stop then s.(worker := Exited)
      else s.(worker := InCycle(s.devices, s.forced, now), forced := true, refreshPending := false,
              refreshing := true)
    case CheckBackoff =>
      var w := s.worker;
      var name, rest := w.todo[0], w.todo[1..];
      var looked := !w.force && name in s.attempts;
      s.(attemptCategory :=
           if looked then s.attemptCategory[name := CategoryOf(s, name)] else s.attemptCategory,
         worker := if InBackoff(s, name, w.force, w.started) then InCycle(rest, w.force, w.started)
                   else Reading(name, rest, w.force, w.started))
    case Commit(answers, steady) =>
      var w := s.worker;
      var result := ReadOne(w.name, answers);
      var entry := if w.name in s.results then s.results[w.name] else NEW_ENTRY;
      s.(results := s.results[w.name := Absorb(entry, w.name, result, answers.wall)],
         attempts := s.attempts[w.name := steady],
         attemptCategory := s.attemptCategory[w.name := result.error],
         worker := InCycle(w.todo, w.force, w.started))
    case Finish => s.(refreshing := false, worker := Waiting)
  }

  // ---- The monitor, one method per region under the mutex ----

  class DiskHealthMonitor {
    var devices: seq<string>
    var results: map<string, CacheEntry>
    var attempts: map<string, int>
    var attemptCategory: map<string, ErrorCategory>
    var refreshPending: bool
    var forced: bool
    var refreshing: bool
    var stop: bool
    var worker: Worker  // the worker thread's own locals

    function View(): State
      reads this
    {
      State(devices, results, attempts, attemptCategory, refreshPending, forced, refreshing, stop, worker)
    }

    constructor ()
      ensures View() == INITIAL
    {
      devices, results, attempts, attemptCategory := [], map[], map[], map[];
      refreshPending, forced, refreshing, stop, worker := false, true, false, false, Waiting;
    }

    /** Erases the cached data of devices that are no longer listed. */
    method PruneStale(stale: set<string>)
      modifies this`results, this`attempts, this`attemptCategory
      ensures results == old(results) - stale
      ensures attempts == old(attempts) - stale
      ensures attemptCategory == old(attemptCategory) - stale
    {
      var pending := stale;
      while pending != {}
        invariant pending <= stale
        invariant results == old(results) - (stale - pending)
        invariant attempts == old(attempts) - (stale - pending)
        invariant attemptCategory == old(attemptCategory) - (stale - pending)
        decreases pending
      {
        var name :| name in pending;
        results := results - {name};
        attempts := attempts - {name};
        attemptCategory := attemptCategory - {name};
        pending := pending - {name};
      }
    }

    /** Gives every listed device an entry. */
    method EnsureEntries()
      modifies this`results
      ensures results.Keys == old(results).Keys + set name | name in devices
      ensures forall name | name in results ::
                results[name] == if name in old(results) then old(results)[name] else NEW_ENTRY
    {
      for i := 0 to |devices|
        invariant results.Keys == old(results).Keys + set j | 0 <= j < i :: devices[j]
        invariant forall name | name in results ::
                    results[name] == if name in old(results) then old(results)[name] else NEW_ENTRY
      {
        if devices[i] !in results {
          results := results[devices[i] := NEW_ENTRY];
        }
      }
    }

    method SetDevices(names: seq<string>)
      modifies this
      ensures View() == Next(old(View()), Step.SetDevices(names))
    {
      devices := SortUnique(LESS_STRING, names);
      var stale := set name | name in results && name !in devices;
      PruneStale(stale);
      EnsureEntries();
      assert results.Keys == set name | name in devices;
    }

    method RequestRefresh(force: bool) returns (accepted: bool)
      modifies this
      ensures View() == Next(old(View()), Step.RequestRefresh(force))
      ensures accepted == Accepts(old(View()))
    {
      if refreshing || refreshPending {
        return false;
      }
      refreshPending, forced := true, force;
      return true;
    }

    method Shutdown()
      modifies this
      ensures View() == Next(old(View()), Stop)
    {
      stop := true;
    }

    method TakeRequest(now: int)
      requires Enabled(View(), PickUp(now))
      modifies this
      ensures View() == Next(old(View()), PickUp(now))
    {
      if stop {
        worker := Exited;
        return;
      }
      worker := InCycle(devices, forced, now);
      forced, refreshPending, refreshing := true, false, true;
    }

    method LookAtNext()
      requires Enabled(View(), CheckBackoff)
      modifies this
      ensures View() == Next(old(View()), CheckBackoff)
    {
      var name := worker.todo[0];
      if !worker.force && name in attempts {
        if name !in attemptCategory {
          attemptCategory := attemptCategory[name := NoError];
        }
        assert attemptCategory == old(attemptCategory)[name := CategoryOf(old(View()), name)];
        if WithinRetryBackoff(attemptCategory[name], attempts[name], worker.started) {
          worker := InCycle(worker.todo[1..], worker.force, worker.started);
          return;
        }
      }
      worker := Reading(name, worker.todo[1..], worker.force, worker.started);
    }

    method CommitResult(answers: Answers, steady: int)
      requires Enabled(View(), Commit(answers, steady))
      modifies this
      ensures View() == Next(old(View()), Commit(answers, steady))
    {
      var name := worker.name;
      var result := ReadOne(name, answers);
      var entry := if name in results then results[name] else NEW_ENTRY;
      entry := entry.(deviceName := name, provider := SourceName(result.source),
                      lastAttemptAt := Some(answers.wall));
      attempts := attempts[name := steady];
      attemptCategory := attemptCategory[name := result.error];
      if result.ok {
        entry := entry.(state := result, lastSuccess := Some(result), lastSuccessAt := Some(answers.wall),
                        lastError := "", lastErrorCategory := NoError);
      } else {
        entry := entry.(lastError := result.detail, lastErrorCategory := result.error);
        if entry.lastSuccess.Some? {
          entry := entry.(state := entry.lastSuccess.value.(detail := result.detail));
        } else {
          entry := entry.(state := result);
        }
      }
      results := results[name := entry];
      worker := InCycle(worker.todo, worker.force, worker.started);
    }

    method FinishCycle()
      requires Enabled(View(), Finish)
      modifies this
      ensures View() == Next(old(View()), Finish)
    {
      refreshing, worker := false, Waiting;
    }
  }
}
