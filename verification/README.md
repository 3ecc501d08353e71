# Verified models of the system monitor's stateful cores

This project models the parts of the terminal system monitor that carry state from tick to tick, or
that turn kernel text and counters into figures, and proves what they keep over whole runs.

Each stateful class of the source is a Dafny class with the same fields. Its methods are proved
equal to a specification function on values (`Next`, `Updated`, `Applied`, `Read`), and the
theorems are about runs of those functions of any length: sequences of ticks, of operations, or of
interleaved steps of the UI threads and the worker.

| module | source | what it is about |
|---|---|---|
| `DiskHealth`, `DiskHealthRuns`, `DiskHealthAnswers` | src/disk_health.cpp | UI threads and one worker sharing request flags and caches |
| `AlertManager`, `AlertFigures`, `AlertHysteresis` | src/alert_manager.cpp | one severity per subject, a bounded log of transitions, the hysteresis band |
| `LinkState`, `LinkStateTracked`, `LinkStateRuns`, `LinkStateStutter`, `LinkStory` | src/network_link_state.cpp | one life cycle per interface, driving one alert subject each |
| `Eviction` | src/network_link_state.cpp, src/network_interface_hardware.cpp | the retention rule that two monitors share |
| `HardwareCache`, `HardwareCacheRuns`, `HardwareStory` | src/network_interface_hardware.cpp | a cache of sysfs probes against a monitor that probes at every tick |
| `MountInfo`, `MountInfoRoundTrip` | src/filesystem_monitor.cpp | the mountinfo reader and its inverse |
| `ResourceHistory`, `MountHistory`, `MountHistoryRuns` | include/resource_history.hpp, src/filesystem_monitor.cpp | bounded rings refining unbounded logs, keyed by mount |
| `CpuDelta`, `CpuMonitors` | src/advanced_cpu_monitor.cpp, src/cpu_monitor.cpp | 64-bit counter arithmetic done twice, baselines over runs |
| `CpuList` | src/advanced_cpu_monitor.cpp | the sysfs CPU list format and its inverse |
| `Meminfo`, `MeminfoAgreement` | src/advanced_memory_monitor.cpp, src/memory_monitor.cpp | two readers of one text, and when they agree |
| `Netmask` | src/network_interface_details.cpp | netmask bytes to prefix lengths |
| `Wrappers`, `Sequences`, `SortedSets`, `Decimal`, `TextLines` | | shared vocabulary |

## Conventions

- Text is a sequence of characters, one per byte. Times are integers. A `double` is a real, and a
  reading that is not finite is `None`. `std::uint64_t` counters are numbers below 2^64 with the wrap
  written out where the code can wrap.
- What the C++ standard leaves open is an explicit choice: the order in which an `unordered_map` is
  walked (`Choice.order`) and the order in which `std::sort` puts equal time stamps (`gone`). Every
  theorem holds for every choice that the standard allows.
- Reads of files, devices, clocks and providers are arguments: a snapshot, a table of counters, a
  text, the answers that a health read got.
- Logs named `log` are ghost: the unbounded history that the bounded one is compared with.

## Where code and documentation part

The code is what is modelled. The theorems named here state what holds instead.

- The monitor's own user guide (its README.md, line 3017) promises the step from Critical to Warning
  as soon as the value drops below the critical threshold. In the code it happens exactly when the
  value is still at the warning threshold or above; inside the band a subject stays critical and
  nothing is logged (`AlertHysteresis.CriticalStepsDown`, `AlertHysteresis.CriticalCanStayInBand`).
- include/disk_health.hpp:319-321 promises that results of replaced devices are discarded. A success
  of an earlier disk of the same name stays on display after a failed read of the new one, even when
  the two share their device numbers and differ in their sysfs identity only
  (`DiskHealthRuns.ReplacedDiskKeepsOldHealth`, `DiskHealthRuns.SwappedDiskShownHealthy`).
- include/disk_health.hpp:342-343 promises that the caches of vanished devices are pruned. A read that
  `setDevices` overtook commits afterwards and brings the entry back
  (`DiskHealthRuns.LateCommitRevives`, `DiskHealthRuns.LateCommitHappens`).
- include/advanced_cpu_monitor.hpp:119-123 promises an invalid delta whenever a counter decreases.
  Under a growing total the delta is valid whichever counter decreases, and its eight shares then add
  up to more than 100 (`CpuDelta.SharesAddUpExactly`, `CpuDelta.BackwardSharesExceed`). If idle or busy time as a whole runs backwards
  it says 100 % busy while the other computation says 0 % (`CpuDelta.BackwardTimeSplitsThem`).
- src/network_link_state.cpp:479-483, `reset`, forgets every interface without clearing its alert
  (`LinkStateRuns.ResetKeepsAlerts`, `LinkStateRuns.ResetCanLeaveStaleAlert`).
- The guard of the disappearance loop (src/network_link_state.cpp:395) is a comparison of sizes. It is
  right for distinct identities and can miss a removal otherwise
  (`LinkStateTracked.GuardMeansVanished`, `LinkStateTracked.PresenceIsListed`,
  `LinkStateRuns.RemovalCanStayHidden`).
- A temperature sensor whose hardware limit is at or below the recovery threshold has no hysteresis
  band (`AlertHysteresis.HardwareLimitCanRemoveBand`).
- The two meminfo readers differ without MemAvailable and MemTotal: one estimates, one reports zero
  (`MeminfoAgreement.ReadersAgree`, `MeminfoAgreement.EstimateNeedsTotalInOneReaderOnly`).
- A CPU list may end in a comma; `CpuList.ParseRanges` accepts it as the code does.

## Model

| member | source | states |
|---|---|---|
| DiskHealth.DiskHealthMonitor.SetDevices | src/disk_health.cpp:872-898 | Devices become the sorted distinct names; vanished names leave all three caches, new ones get an empty entry, the rest keep theirs; no other field changes. |
| DiskHealth.DiskHealthMonitor.RequestRefresh | src/disk_health.cpp:900-911 | A request is accepted exactly when none is pending and no cycle runs, and then records its own `force`; a refused one changes nothing. |
| DiskHealth.DiskHealthMonitor.TakeRequest | src/disk_health.cpp:964-975 | The worker leaves if stopped, else starts a cycle over the devices and the `force` of that moment and clears the pending flag. |
| DiskHealth.DiskHealthMonitor.LookAtNext | src/disk_health.cpp:1032-1043 | The head of the cycle is skipped or goes to be read, with the map entry that the lookup itself may create. |
| DiskHealth.DiskHealthMonitor.CommitResult | src/disk_health.cpp:1044-1071 | The whole new cache after a read: entry, attempt time and category of that one name, a failure keeping the last success on display. |
| DiskHealth.DiskHealthMonitor.FinishCycle | src/disk_health.cpp:977-981 | The end of a cycle clears `refreshing` only. |
| DiskHealthRuns.RunsAreConsistent | src/disk_health.cpp:872-1073 | After every interleaving of UI steps and worker steps the request, key, entry and time invariants hold together: every field of every cache entry is what the log of commits says. |
| DiskHealthRuns.RequestsAreConserved | src/disk_health.cpp:900-983 | Accepted requests are the started cycles plus at most one pending; started ones are the finished ones plus at most one in flight; the k-th cycle runs with the `force` of the k-th accepted request. |
| DiskHealthRuns.BusyWorkerAdvances | src/disk_health.cpp:1029-1073 | A busy worker always has an enabled step, only worker steps move it, and each one lowers the number of steps left. |
| DiskHealthRuns.CyclesEnd | src/disk_health.cpp:960-983 | Whatever the UI does in between, the cycle in flight is idle again within that many worker steps. |
| DiskHealthRuns.AttemptKeysAgree | src/disk_health.cpp:1046-1053 | In every reachable state the two back-off maps have the same keys, all of them cached names. |
| DiskHealthRuns.OnlyOvertakenCyclesLeaveStrays | src/disk_health.cpp:872-898 | Every device has an entry; an entry without a device is a late commit of the cycle that was in flight at the last `setDevices`; with none in flight then, entries and devices are the same set. |
| DiskHealthRuns.LateCommitRevives | src/disk_health.cpp:1046-1048 | A commit leaves entries and devices in step exactly when the name is still listed. |
| DiskHealthRuns.LateCommitHappens | src/disk_health.cpp:872-898 | For every name and every answer there is a run that ends with no device and an entry for that name. |
| DiskHealthRuns.OkResultIsGenuine | src/disk_health.cpp:985-1027 | A result is ok exactly when a device was identified, its provider read it, and it was the same afterwards; it then carries that identity. |
| DiskHealthRuns.HealthyOnlyAfterRealSuccess | src/disk_health.cpp:1046-1071 | In every reachable state `last_success` is the last ok commit since the entry was created, what is shown equals it but for the detail text, is ok exactly when it exists, and comes from a real read; with honest providers nothing else is shown as healthy. |
| DiskHealthRuns.ReplacedDiskKeepsOldHealth | src/disk_health.cpp:1046-1071 | In every run, after a commit for an identified disk the entry shows what was read from that disk (numbers and sysfs identity) exactly when its provider succeeded and the disk stayed the same, or no success was on record, or the success on record was read from that very disk. |
| DiskHealthRuns.SecondReadKeepsFirst | src/disk_health.cpp:1055-1071 | For any name and any two reads of which only the first succeeds, a possible run ends with the second committed and the first on display. |
| DiskHealthRuns.SwappedDiskShownHealthy | src/disk_health.cpp:1061-1071 | A possible run ends with an entry shown as ok and Healthy from one disk, although the last read identified another one with the same device numbers. |
| DiskHealthRuns.BackoffSkipsOnlyRecentRefusals | src/disk_health.cpp:548-557 | In every reachable state the next device is skipped exactly when the cycle is not forced and its last committed result was an unsupported or permission error, committed under 30 s before the cycle began. |
| DiskHealthAnswers.EntryTellsAnswers | src/disk_health.cpp:985-1071 | In every run the entry of a name that was read says, field by field, what the raw answers to the last read were: no identity is DeviceUnavailable, no provider is Unsupported with path, numbers, metadata and source, a steady disk passes the provider's answer through, a changed one is DeviceUnavailable; a failure keeps the last success on display. |
| DiskHealthAnswers.FailureStatus | src/disk_health.cpp:167-176 | The status, category and text of each of the eight kinds of failure; nothing else of the record changes. |
| DiskHealthAnswers.EntryShowsFailure | src/disk_health.cpp:240-258 | In every run an entry without a success shows the status that belongs to the category its provider failed with, for all eight. |
| DiskHealthAnswers.DevicesAreLastNames | src/disk_health.cpp:872-877 | In every run the devices are the names of the last `setDevices`, each once, in byte order. |
| DiskHealthAnswers.CyclesVisitAll | src/disk_health.cpp:1029-1073 | In every run a cycle that ends without a stop has read or passed over every device that was listed when it began, each once and in order. |
| DiskHealthAnswers.SkippedAfterRefusal | src/disk_health.cpp:1036-1043 | In every run the next device is passed over exactly when the cycle was not forced and its last read, under 30 s before the cycle began, was answered by a disk without provider or by a steady one reporting unsupported or permission denied; otherwise it is read. |
| AlertManager.SubjectKeyInjective | src/alert_manager.cpp:167-169 | Keys of subjects are equal only for equal type and source, whatever bars the source contains. |
| AlertManager.SubjectKeyDecodes | src/alert_manager.cpp:432-439 | Cutting a key at its first bar gives back type and source. |
| AlertManager.AlertManager.Evaluate | src/alert_manager.cpp:178-236 | The whole new state and the event returned, for every branch of the thresholds and for unavailable readings. |
| AlertManager.AlertManager.RecordRuleEvent | src/alert_manager.cpp:356-394 | The whole new state after a rule event, including the reset of the value by a reading that is not finite. |
| AlertManager.AlertManager.Clear | src/alert_manager.cpp:396-402 | Only the severity of that one subject goes to Normal; no event is logged. |
| AlertManager.AlertManager.PushEvent | src/alert_manager.cpp:171-176 | The history is the old one with the event appended and the oldest dropped above the bound. |
| AlertManager.AppliedSubject | src/alert_manager.cpp:178-402 | An operation changes the severity of its own subject only. |
| AlertManager.RunsAreConsistent | src/alert_manager.cpp:167-236 | Over every run the history is the last `max` events of the full log since `reset`, each severity is what the log says, successive events of a subject differ unless a clear or reset came between, and no subject starts with a Normal event. |
| AlertManager.AlertManager.ActiveAlerts | src/alert_manager.cpp:426-445 | Lists exactly the subjects off Normal, each once, with their current figures. |
| AlertFigures.ReadingDecides | src/alert_manager.cpp:192-235 | After any run, whatever the severity before, a finite reading leaves Critical, Warning or Normal exactly by its place against the three thresholds; an event with that severity, value and crossed threshold is logged exactly when the severity changes; the value is kept and no other subject changes. |
| AlertFigures.NoReadingDecidesNothing | src/alert_manager.cpp:186-189 | After any run an unavailable reading changes no severity, figure, log or history. |
| AlertFigures.RuleDecides | src/alert_manager.cpp:356-394 | After any run a rule event sets severity, value and threshold of its subject and is logged exactly when the severity changes; without a finite reading it only resets the value. |
| AlertFigures.ClearDecides | src/alert_manager.cpp:396-402 | After any run clearing sets one severity to Normal, keeps its figures and adds nothing to the history. |
| AlertFigures.ValuesFollowReadings | src/alert_manager.cpp:190 | In every state the value of a subject is the last finite one it was given. |
| AlertFigures.ThresholdsFollowTransitions | src/alert_manager.cpp:229-230 | In every state the threshold of a subject is the one of its last transition or rule event. |
| AlertHysteresis.RecoveriesCostVariation | src/alert_manager.cpp:192-206 | Over every run, with unavailable readings and other subjects interleaved, k recoveries need readings that travel at least 2k - 1 times across the band below the lower alert threshold. |
| AlertHysteresis.RecoveriesCostBand | src/alert_manager.cpp:192-206 | For ordered thresholds that is (2k - 1) times the difference of the warning and recovery thresholds. |
| AlertHysteresis.BandKeepsSeverity | src/alert_manager.cpp:192-201 | A reading keeps the severity whatever it is exactly when it is inside the band. |
| AlertHysteresis.CriticalStepsDown | src/alert_manager.cpp:192-206 | After any run that leaves a subject critical, a reading below `critical` makes it Warning exactly at `warning` or above, and keeps it critical, with no event, exactly inside the band. |
| AlertHysteresis.CriticalCanStayInBand | src/alert_manager.cpp:192-206 | For all such thresholds and readings there is a run that turns critical and then stays so inside the band, one event in all. |
| AlertHysteresis.HardwareLimitCanRemoveBand | src/alert_manager.cpp:447-464 | Arbitrarily small changes can flip a sensor between Normal and Critical exactly when its hardware limit does not exceed the recovery threshold. |
| LinkState.IdentityInjective | src/network_interface_details.cpp:222-227 | Two interfaces share an identity exactly when they share the index, or the name where neither has one. |
| LinkState.NetworkLinkStateMonitor.Process | src/network_link_state.cpp:227-393 | One interface takes the monitor and the alert manager from the old state to the one of its outcome: new, reappeared, unreadable, first baseline, unchanged or changed. |
| LinkState.NetworkLinkStateMonitor.Mark | src/network_link_state.cpp:396-422 | An unlisted present interface is marked gone, its alert cleared and a Disappeared event logged; anything else is left alone. |
| LinkState.NetworkLinkStateMonitor.EvictOverflow | src/network_link_state.cpp:425-448 | Above 64 records the vanished ones are erased oldest change first until the bound holds or none is left. |
| LinkState.NetworkLinkStateMonitor.Update | src/network_link_state.cpp:219-451 | A whole tick equals the specified tick for the choices that the map and the sort made. |
| LinkStateTracked.GuardMeansVanished | src/network_link_state.cpp:395 | The size comparison is equivalent to "a tracked identity is not listed" for distinct identities, and implies it always. |
| LinkStateTracked.PresenceIsListed | src/network_link_state.cpp:395-404 | For any snapshot the records marked present before eviction are exactly the listed ones just when the size comparison holds or nobody who was present is missing. |
| LinkStateTracked.RepeatedIdentityHidesRemoval | src/network_link_state.cpp:395-399 | From every state without vanished records, a snapshot that repeats identities until it is as long as the table of records leaves an unlisted identity marked present. |
| LinkStateRuns.RemovalCanStayHidden | src/network_link_state.cpp:395-399 | For any two interfaces, the run that lists both and then one of them twice is possible and leaves the other marked present. |
| LinkStateTracked.TickKeepsBound | src/network_link_state.cpp:227-448 | After any tick, repeated identities or not, every listed identity has a present record, at most max(64, snapshot size) records are kept, erasure happens only above the bound and takes no record younger than a vanished one that stays. |
| LinkStateTracked.TickTracks | src/network_link_state.cpp:227-448 | After a tick with distinct identities the present records are exactly the listed ones. |
| Eviction.EvictionKeepsBound | src/network_link_state.cpp:425-448 | Live records stay, the bound holds or all that is left is live, and no more goes than is needed. |
| Eviction.EvictionTakesOldest | src/network_interface_hardware.cpp:329-341 | No erased record is younger than a vanished one that is kept. |
| Eviction.SortGone | src/network_interface_hardware.cpp:323-332 | The vanished identities, each once, oldest stamp first. |
| LinkStateRuns.RunsAreConsistent | src/network_link_state.cpp:219-451 | Over every run of ticks, resets and foreign alert operations: each identity's log follows `Appeared StateChanged* (Disappeared Reappeared StateChanged*)* Disappeared?` and restarts only after erasure or reset, each event takes up the link state that the one before ended with unless nothing was known then, `transition_count` is the number of events since Appeared, the alert severity is the verdict of the log, the history is its tail. |
| LinkStateRuns.NoAlertForAbsent | src/network_link_state.cpp:395-407 | Without `reset` no identity that is not present has an active alert. |
| LinkStateRuns.ResetKeepsAlerts | src/network_link_state.cpp:479-483 | After `reset` no stale alert is left exactly when the last verdict on every identity was Normal. |
| LinkStateRuns.ResetCanLeaveStaleAlert | src/network_link_state.cpp:479-483 | A possible run of two ticks and a reset leaves an alert for an identity that is not there. |
| LinkStateStutter.UpdatedSimilar | src/network_link_state.cpp:219-451 | The flag "readable this tick" never influences what a tick logs, alerts, tracks or erases. |
| LinkStateStutter.UnreadableTickIsInvisible | src/network_link_state.cpp:310-314 | Inserting after any tick, of any snapshot, the same interfaces with nothing readable leaves the rest of any run possible and its log, alerts, history and records the same but for that flag. |
| LinkStory.StoriesAreTold | src/network_link_state.cpp:219-451 | In every run the record (name, presence, link state, first seen, last change, transitions), the alert and the full list of events of each identity are what a small machine says that hears only the raw operstate text, carrier number and flags of that identity's own listings. |
| LinkStory.AlertsCarryNoFigures | src/network_link_state.cpp:199-217 | The alert of an interface has value and threshold zero. |
| LinkStory.ReadingsDecideAlert | src/network_link_state.cpp:332-393 | In every run an interface last read as `a` and now listed once as `b` has an event exactly if the raw readings differ; a pure loss ends in Warning, a pure gain in Normal with a recovery, anything else leaves the alert. |
| LinkStory.PlainReadings | src/network_link_state.cpp:80-136 | On the plain fields: exactly when pulling or plugging the cable, disabling the interface or leaving "up" is a pure loss or gain, for all operstate texts. |
| HardwareCache.LearnedTwice | src/network_interface_hardware.cpp:188-244 | Learning the same probe twice, failed or not, teaches nothing new. |
| HardwareCache.RefreshedTwice | src/network_interface_hardware.cpp:188-244 | `updateNetworkInterfaceHardware` is idempotent but for the time of reading. |
| HardwareCache.NetworkInterfaceHardwareMonitor.Absorb | src/network_interface_hardware.cpp:264-303 | One listed interface is probed when new, renamed, failed before or due, and otherwise keeps its cached record; no other record changes. |
| HardwareCache.NetworkInterfaceHardwareMonitor.Update | src/network_interface_hardware.cpp:256-315 | A whole tick: every listed interface absorbed, the others marked gone, the overflow erased. |
| HardwareCache.NetworkInterfaceHardwareMonitor.EvictOverflow | src/network_interface_hardware.cpp:317-342 | Exactly the oldest vanished records above the bound are erased. |
| HardwareCacheRuns.UpdateTracksListed | src/network_interface_hardware.cpp:256-315 | After every tick exactly the listed identities are tracked as present, repeated ones included. |
| HardwareCacheRuns.UpdateKeepsBound | src/network_interface_hardware.cpp:317-342 | At most max(64, listed) records are kept. |
| HardwareCacheRuns.UpdateDropsNoMore | src/network_interface_hardware.cpp:317-342 | If a tick drops a record, 64 or more are kept. |
| HardwareCacheRuns.UpdateDropsOldest | src/network_interface_hardware.cpp:329-341 | A dropped record was first seen no later than any vanished one that is kept. |
| HardwareCacheRuns.CachingIsDelaying | src/network_interface_hardware.cpp:264-303 | Over every run, whatever changes under it, the caching monitor holds the records, modulo read and probe times, of a monitor that probes at every tick and is shown the remembered inputs; the same evictions are possible for both. |
| HardwareCacheRuns.DelayIsBounded | src/network_interface_hardware.cpp:281-284 | Those inputs were really listed for that identity, at this tick or less than the reread interval before it. |
| HardwareCacheRuns.CacheIsTransparent | src/network_interface_hardware.cpp:271-303 | If no probe result and type changes between the scheduled probes, the caching monitor holds the same records as one that probes every tick. |
| HardwareStory.RecordsFollowProbes | src/network_interface_hardware.cpp:188-303 | In every run the record of each identity is what its own probes say: the device is that of the last good probe, the driver the last one given unless a good probe since found none without being denied, each state Available, Stale or Unavailable accordingly, the kind by type and path, and the name, presence and times. |
| HardwareStory.FailureKeepsFacts | src/network_interface_hardware.cpp:195-209 | In every run, after a failed probe the device and driver of the last good probes stay and are marked stale. |
| HardwareStory.ClassifyTells | src/network_interface_hardware.cpp:91-122 | Software for the synthetic types and for any path through /devices/virtual/, Physical for the three physical types with a device, Unknown otherwise. |
| MountInfo.SplitMountTokens | src/filesystem_monitor.cpp:27-47 | The maximal runs of characters other than space and tab, in order. |
| Decimal.ParseDigits | src/filesystem_monitor.cpp:49-91 | Accepts exactly the non-empty digit strings whose number does not exceed the limit, and returns that number: the overflow guard is exact. |
| MountInfo.UnescapeMountInfo | src/filesystem_monitor.cpp:168-185 | Each backslash with three octal digits becomes its byte, all else is copied. |
| MountInfo.ParseMountInfoLine | src/filesystem_monitor.cpp:187-243 | The record of a line, or nothing when a number is bad, the separator is missing or too few fields follow it. |
| MountInfo.ReadMountInfo | src/filesystem_monitor.cpp:245-265 | The records of all lines that parse, in order, the others skipped; unreadable and empty when the file cannot be opened. |
| MountInfoRoundTrip.UnescapeUndoesEscape | src/filesystem_monitor.cpp:168-185 | Unescaping undoes octal escaping for every text and every set of escaped bytes that contains blanks, newline and backslash, and an escaped non-empty text is one token. |
| MountInfoRoundTrip.EscapesDenote | src/filesystem_monitor.cpp:168-185 | A backslash and any three octal digits become the byte of their value, cut to eight bits. |
| MountInfoRoundTrip.OthersAreCopied | src/filesystem_monitor.cpp:168-185 | Every other character, a backslash without three octal digits included, stands for itself. |
| MountInfoRoundTrip.SpacedLineParses | src/filesystem_monitor.cpp:187-243 | However blanks and tabs space the tokens of a well-formed record, whatever bytes are escaped and whatever tokens follow, the line yields that record. |
| MountInfoRoundTrip.ParseUndoesPrint | src/filesystem_monitor.cpp:187-243 | Every well-formed record (any paths, any escaping, any optional fields but "-", numbers within their types) is read back from its printed line exactly (section 3.5 of the kernel's Documentation/filesystems/proc.rst). |
| MountInfoRoundTrip.AcceptedIsWellFormed | src/filesystem_monitor.cpp:187-243 | Every accepted line yields a well-formed record, so printing and reading it again is stable. |
| MountInfoRoundTrip.FileRoundTrip | src/filesystem_monitor.cpp:245-265 | A whole mount table survives printing and reading. |
| ResourceHistory.ResourceHistory.AddSample | include/resource_history.hpp:26-31 | The buffer stays the last `max` samples of all that were added. |
| ResourceHistory.AddFollowsLog | include/resource_history.hpp:26-31 | Adding to the ring is adding to the unbounded log and keeping its tail. |
| ResourceHistory.BoundNeedsOne | include/resource_history.hpp:26-31 | The buffer keeps to its bound for every log exactly when the bound is at least 1; a ring built with 0 never drops. |
| MountHistory.IdentityInjective | src/filesystem_monitor.cpp:448-450 | The text key of a series is injective in mount id and mount point. |
| MountHistory.FilesystemMonitor.RecordReading | src/filesystem_monitor.cpp:448-504 | One mount: left out when pseudo, failed, unmeasurable or the eight series are taken; else each available figure is added to its ring. |
| MountHistory.FilesystemMonitor.RecordHistory | src/filesystem_monitor.cpp:440-507 | A snapshot feeds its mounts and drops the series of all others; nothing happens while paused. |
| MountHistory.FilesystemMonitor.PruneHistory | src/filesystem_monitor.cpp:509-521 | Exactly the series of listed mounts stay, unchanged. |
| MountHistory.FilesystemMonitor.SetHistoryMaxSamples | src/filesystem_monitor.cpp:529-547 | A new bound, at least 1, empties every ring and keeps every series; the old bound changes nothing. |
| MountHistory.FilesystemMonitor.SetHistoryPaused | include/filesystem_monitor.hpp:228 | Changes the pause flag and nothing else. |
| MountHistory.FilesystemMonitor.ClearHistory | include/filesystem_monitor.hpp:231 | Drops every series and keeps bound and pause flag. |
| MountHistoryRuns.BoundsHold | src/filesystem_monitor.cpp:466-470 | In every reachable state there are at most 8 series and the bound is at least 1. |
| MountHistoryRuns.RingsHoldTails | src/filesystem_monitor.cpp:440-547 | In every reachable state each ring of each tracked mount is the last `max_samples` samples offered since its series was created or the bound changed. |
| MountHistoryRuns.TrackedAreListed | src/filesystem_monitor.cpp:506-521 | Only mounts of the last recorded snapshot have series. |
| MountHistoryRuns.NewcomersNeverDisplace | src/filesystem_monitor.cpp:466-470 | After a snapshot a mount has a series exactly when it is listed and had one, or when it had none and a reading of it is no pseudo-filesystem's, without error, has usage, available or inodes, and met fewer than eight series at its turn. |
| MountHistoryRuns.SeriesWerePlotted | src/filesystem_monitor.cpp:448-464 | In every state a mount has a series only if a snapshot recorded since the last clearing and since the mount was last missing listed it with such a reading. |
| MountHistoryRuns.SamplesAreFigures | src/filesystem_monitor.cpp:485-503 | In every state every sample of every ring is a figure of such a reading of its own mount, at the time of its snapshot. |
| MountHistoryRuns.ReadingAddsSamples | src/filesystem_monitor.cpp:485-503 | Such a reading of a tracked mount adds exactly one sample per figure present; any other reading adds none, and no other mount changes. |
| MountHistoryRuns.SettingsAreLast | src/filesystem_monitor.cpp:529-536 | In every state the bound is the one last asked for, zero counting as one and 120 the default, and the pause flag the one last set. |
| MountHistoryRuns.SeriesAreLabelled | src/filesystem_monitor.cpp:483 | In every state each series bears its own mount point. |
| CpuDelta.EveryFieldIsPercent | src/advanced_cpu_monitor.cpp:180-220 | For all 64-bit counters, wrapped or not, every figure lies in [0, 100]. |
| CpuDelta.MonotoneSharesAddUp | src/advanced_cpu_monitor.cpp:180-220 | If no counter decreases and no sum wraps, the eight shares add up to 100, busy is 100 - idle - iowait and equals `cpuUtilization`. |
| CpuDelta.MonotoneSharesAreExact | src/advanced_cpu_monitor.cpp:180-220 | For monotone unwrapped counters each of the eight shares is the exact part of the elapsed ticks that its own counter advanced by. |
| CpuDelta.AgreeUnlessIdleExceedsTotal | src/cpu_monitor.cpp:51-70 | For all counters both computations have a figure or neither has; the figures are equal exactly when the idle ticks do not exceed the elapsed ones, and are 100 and 0 otherwise. |
| CpuDelta.SharesAddUpExactly | src/advanced_cpu_monitor.cpp:180-220 | Whenever the total grows and nothing wraps the delta is valid, and its eight shares add up to 100 exactly when no counter decreased. |
| CpuDelta.BackwardTimeSplitsThem | src/advanced_cpu_monitor.cpp:180-220 | Whenever the total grows and nothing wraps, the two computations differ exactly when idle or busy time as a whole decreased; one then says 100 and the other 0. |
| CpuMonitors.AdvancedCpuMonitor.ReadTick | src/advanced_cpu_monitor.cpp:388-454 | One refresh: the new baselines, the new known ids and the statistics of every id. |
| CpuMonitors.AdvancedCpuMonitor.FinalizeCpu | src/advanced_cpu_monitor.cpp:409-434 | The statistics of one CPU from its old baseline; the baseline becomes its counters, or goes when it has none; no other changes. |
| CpuMonitors.CpuMonitor.ReadUsage | src/cpu_monitor.cpp:72-87 | The utilisation since the last readable tick, which the baseline survives unreadable ones for. |
| CpuMonitors.BaselinesFollowTicks | src/advanced_cpu_monitor.cpp:408-451 | Over every run the baseline of a logical CPU is its counters of the last tick, if it was there, and the aggregate's is the last it ever had. |
| CpuMonitors.SampleMeansAdvance | src/advanced_cpu_monitor.cpp:414-424 | There is a sample exactly when there are counters now and before and their total strictly advanced. |
| CpuMonitors.SampleNeedsTwoTicks | src/advanced_cpu_monitor.cpp:443-451 | Over every run a CPU has a sample exactly when it is in the counters of this tick and of the one immediately before, and its total strictly advanced; the sample is the delta of those two; it is online exactly when a line of this tick names it or a readable online list does. |
| CpuMonitors.AggregateNeedsTwoLines | src/advanced_cpu_monitor.cpp:436-441 | Over every run the aggregate has a sample exactly when it has a line now, had one in some earlier tick, and its total strictly advanced since the last of them. |
| CpuMonitors.ReportedAreMentioned | src/advanced_cpu_monitor.cpp:391-406 | Over every run the reported CPUs are exactly those that this tick or an earlier one has counters for or lists as present. |
| CpuMonitors.CountersAreLines | src/advanced_cpu_monitor.cpp:152-169 | The counters of a CPU are those of its last line. |
| CpuMonitors.ReportedIdsOnlyGrow | src/advanced_cpu_monitor.cpp:391-406 | The reported ids are strictly increasing and never shrink. |
| CpuMonitors.MonitorsAgree | src/cpu_monitor.cpp:51-87 | Fed with the same aggregate lines over any run, both monitors report at the same ticks, and the same figure exactly when idle time does not exceed elapsed time. |
| CpuList.ParseCpuListText | src/advanced_cpu_monitor.cpp:222-273 | The loop over commas with push, sort and unique computes the specified list or fails with it, for every text, signs and blanks that `strtoull` takes included. |
| Decimal.PlainToken | src/advanced_cpu_monitor.cpp:34-46 | A token of plain digits is read as its number if 64 bits hold it, and refused otherwise. |
| CpuList.ParsedIsSortedUnion | src/advanced_cpu_monitor.cpp:222-273 | A parsed list is strictly increasing and holds exactly the ids in the union of its items. |
| CpuList.ItemsAreRanges | src/advanced_cpu_monitor.cpp:243-263 | An item is accepted exactly as one id, or as two ids in order around its first dash, none above 2^31 - 1. |
| CpuList.EveryItemDecides | src/advanced_cpu_monitor.cpp:232-268 | A list of non-empty items parses exactly when every item does, with or without a final comma, into their ranges in order. |
| CpuList.EmptyItemRefuses | src/advanced_cpu_monitor.cpp:238-241 | A list whose next item is empty before a comma is refused. |
| Decimal.SignedToken | src/advanced_cpu_monitor.cpp:34-46 | A plus before the digits says nothing, a minus is refused in front and wraps around behind blanks, as `strtoull` has it. |
| CpuList.ParseUndoesPrint | src/advanced_cpu_monitor.cpp:222-273 | Every non-empty set of ids below 2^31 is read back, sorted, from its range text. |
| SortedSets.SortUniqueSorts | src/advanced_cpu_monitor.cpp:270-272 | Sorting and removing duplicates keeps the elements and puts them in strict order. |
| Meminfo.ParseMeminfo | src/advanced_memory_monitor.cpp:110-176 | The table of a text, line by line; the last occurrence of a key wins. |
| Meminfo.ReadMemoryInfo | src/memory_monitor.cpp:37-84 | The simple reader's result for a text, with its fallback summed in 64 bits, and no result without a file. |
| MeminfoAgreement.TableHoldsLast | src/advanced_memory_monitor.cpp:387-399 | For well-formed texts the table gives each of the seven fields the bytes of its last line, or nothing when they do not fit in 64 bits. |
| MeminfoAgreement.SimpleHoldsLast | src/memory_monitor.cpp:48-75 | For well-formed texts the simple reader gives each field the number of its last line, or 0. |
| MeminfoAgreement.TableTellsUnits | src/advanced_memory_monitor.cpp:61-83 | For every text of key, number and unit lines the table has an entry for exactly the keys that occur, with number, unit, bytes and status of the last line, for every unit, none, and unknown ones; an amount beyond 64 bits is malformed. |
| MeminfoAgreement.FieldWithoutNumber | src/advanced_memory_monitor.cpp:126-150 | A line with a key and no number behind its colon makes that field malformed. |
| MeminfoAgreement.SimpleTakesKib | src/memory_monitor.cpp:56-58 | The simple reader takes a line in kB and ignores one in any other unit or in none. |
| MeminfoAgreement.ReadersAgree | src/advanced_memory_monitor.cpp:364-382 | For every well-formed text the two results are equal exactly when every amount is below 2^54 kB and MemAvailable is present, or the estimate is 0, or it fits and MemTotal is not 0. |
| MeminfoAgreement.EstimateNeedsTotalInOneReaderOnly | src/memory_monitor.cpp:77-81 | Without MemTotal and MemAvailable one reader reports the estimate and the other 0. |
| Netmask.ContiguousPrefixLength | src/network_interface_details.cpp:166-184 | Returns n exactly when the bytes are n one bits followed by zero bits only, and nothing for every other byte string. |
| Netmask.MasksAreBuilt | src/network_interface_details.cpp:166-184 | The accepted byte strings are exactly the masks built from a prefix length (section 3.1 of RFC 4632, section 2.3 of RFC 4291). |
| Netmask.PrefixLengthFromMask | src/network_interface_details.cpp:469-487 | Without an address, for an incomplete one and for other families there is no prefix length; an IPv4 address of at least 16 bytes gives that of its 4 mask bytes, an IPv6 one of at least 28 that of its 16. |

## Left out

- LinkState.NetworkLinkStateMonitor.Process: message texts, the alert event sink, and the 64-bit wrap of `transition_count` are not modelled; the wrap needs 2^64 transitions of one interface.
- AlertManager.AlertManager.Evaluate: message texts, time stamps and the notification sink are not modelled.
- DiskHealth.DiskHealthMonitor.CommitResult: the health figures of a result are one opaque sequence, and what a provider does with the record it is given is part of its answer.
- DiskHealth.DiskHealthMonitor.TakeRequest: starting and joining the thread, the condition variable and `waitForIdle` are not modelled; waiting is the step not being enabled, and the unlocked read of `stop_` is one atomic step.
- HardwareCacheRuns.CacheIsTransparent: the steady clock is assumed not to run backwards, as the C++ standard promises; `reset` is a step of the runs.
- MountHistory.FilesystemMonitor.RecordHistory: the histories are keyed by mount id and mount point instead of their joined text, which is shown to be injective.
- Meminfo.ParseMeminfo: the table is complete, but the snapshot built from it carries only the seven fields that `MemoryInfo` needs; the other fields are copied in the same way.
- MeminfoAgreement.ReadersAgree: a well-formed line has a number below 2^64, at least one blank behind the colon, and the unit "kB" for the seven fields; keys hold no blanks and no colon.
- The link counts of the dashboard (`recount`), `describeTransition` and all name tables: display only.
- Threshold tables and the `updateCpu`, `updateMemory`, `updateDiskUsage` and similar wrappers of the alert manager: each is one call of `evaluate`.
- CpuMonitors.AdvancedCpuMonitor.ReadTick: frequency and governor files and the `possible` list are not modelled, and /proc/stat lines come parsed.
- /proc/swaps, the derived memory percentages and their formatting.
- Health providers (libatasmart, NVMe ioctl), sysfs probing, getifaddrs, statvfs and D-Bus: their results are inputs.
- src/network_link_metrics.cpp and the interface histories: the same retention and ring patterns as modelled here.
- Rounding of floating-point numbers: shares and thresholds are reals.
