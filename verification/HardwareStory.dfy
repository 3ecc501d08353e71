/**
 * What the hardware monitor shows of an interface, read off the probes made of it since its record
 * began, over every run of ticks.
 */
module HardwareStory {
  import opened Wrappers
  import opened Sequences
  import opened Eviction
  import opened HardwareCache
  import opened HardwareCacheRuns

  datatype Probe = Probe(link: Link, now: int, at: int)

  datatype Record = Record(name: string, present: bool, firstSeen: int, probes: seq<Probe>)

  // ---- What a sequence of probes says ----

  predicate Good(p: Probe) {
    p.link.read.readOk
  }

  /** The last probe that succeeded. */
  ghost predicate LastGood(probes: seq<Probe>, k: nat) {
    k < |probes| && Good(probes[k]) && forall j | k < j < |probes| :: !Good(probes[j])
  }

  /** The last probe that gave a driver, if since then the driver was at most denied. */
  ghost predicate GaveDriver(probes: seq<Probe>, k: nat) {
    && k < |probes| && Good(probes[k]) && probes[k].link.read.driver.Some?
    && forall j | k < j < |probes| && Good(probes[j]) ::
         probes[j].link.read.accessDenied && probes[j].link.read.driver.None?
  }

  ghost predicate NoneGaveDriver(probes: seq<Probe>) {
    forall k: nat :: !GaveDriver(probes, k)
  }

  ghost predicate OccursAt(text: string, part: string, i: nat) {
    i + |part| <= |text| && text[i..i + |part|] == part
  }

  ghost predicate IsSoftware(kind: InterfaceType, device: Device) {
    || kind == Loopback || kind == Virtual || kind == Bridge || kind == Bond || kind == Tunnel
    || (device.related && exists i: nat :: OccursAt(device.path, "/devices/virtual/", i))
  }

  ghost predicate KindTells(kind: DeviceKind, link: InterfaceType, device: Device) {
    && (kind == Software <==> IsSoftware(link, device))
    && (kind == Physical <==>
          !IsSoftware(link, device) && device.related && (link == Ethernet || link == Wifi || link == InfiniBand))
  }

  ghost predicate DeviceTells(f: Facts, probes: seq<Probe>)
    requires probes != []
  {
    var last := probes[|probes| - 1].link.read;
    && (forall k: nat | LastGood(probes, k) ::
          f.device == if probes[k].link.read.device.related then probes[k].link.read.device else NO_DEVICE)
    && ((forall k | 0 <= k < |probes| :: !Good(probes[k])) ==> f.device == NO_DEVICE)
    && f.deviceState == if !f.device.related then Unavailable else if last.readOk then Available else Stale
  }

  ghost predicate DriverTells(f: Facts, probes: seq<Probe>)
    requires probes != []
  {
    var last := probes[|probes| - 1].link.read;
    && (forall k: nat | GaveDriver(probes, k) :: f.driver == probes[k].link.read.driver.value)
    && (NoneGaveDriver(probes) ==> f.driver == "")
    && f.driverState == if last.readOk && last.driver.Some? then Available
                        else if f.driver != "" then Stale else Unavailable
  }

  /** The metadata after these probes. */
  ghost predicate FactsTell(f: Facts, probes: seq<Probe>) {
    if probes == [] then f == Facts(UnknownKind, NO_DEVICE, NotProbed, "", NotProbed)
    else
      && DeviceTells(f, probes) && DriverTells(f, probes)
      && KindTells(f.kind, probes[|probes| - 1].link.kind, f.device)
  }

  lemma {:induction false} ContainsOccurs(text: string, part: string)
    ensures Contains(text, part) <==> exists i: nat :: OccursAt(text, part, i)
  {
    if |part| <= |text| {
      if text[..|part|] == part {
        assert OccursAt(text, part, 0);
      } else if text != "" {
        ContainsOccurs(text[1..], part);
        if i: nat :| OccursAt(text[1..], part, i) {
          assert text[1..][i..i + |part|] == text[i + 1..i + 1 + |part|];
          assert OccursAt(text, part, i + 1);
        }
        if i: nat :| OccursAt(text, part, i) {
          assert i > 0 ==> text[1..][i - 1..i - 1 + |part|] == text[i..i + |part|];
          assert i > 0 ==> OccursAt(text[1..], part, i - 1);
        }
      }
    }
  }

  lemma ClassifyTells(kind: InterfaceType, device: Device)
    ensures KindTells(ClassifyDeviceKind(kind, device), kind, device)
  {
    ContainsOccurs(device.path, "/devices/virtual/");
  }

  /** How one more probe shifts what was last. */
  lemma LastGoodOneMore(probes: seq<Probe>, p: Probe, k: nat)
    ensures LastGood(probes + [p], k) <==> if Good(p) then k == |probes| else LastGood(probes, k)
  {
    var longer := probes + [p];
    assert longer[|probes|] == p;
    assert forall j | 0 <= j < |probes| :: longer[j] == probes[j];
  }

  lemma GaveDriverOneMore(probes: seq<Probe>, p: Probe, k: nat)
    ensures GaveDriver(probes + [p], k) <==>
              if !Good(p) then GaveDriver(probes, k)
              else if p.link.read.driver.Some? then k == |probes|
              else p.link.read.accessDenied && GaveDriver(probes, k)
  {
    var longer := probes + [p];
    assert longer[|probes|] == p;
    assert forall j | 0 <= j < |probes| :: longer[j] == probes[j];
  }

  lemma ProbeTellsDevice(f: Facts, probes: seq<Probe>, p: Probe)
    requires FactsTell(f, probes)
    ensures DeviceTells(Learned(f, p.link.read, p.link.kind), probes + [p])
  {
    var longer := probes + [p];
    var next := Learned(f, p.link.read, p.link.kind);
    assert longer[|probes|] == p;
    forall k: nat | LastGood(longer, k)
      ensures next.device == if longer[k].link.read.device.related then longer[k].link.read.device else NO_DEVICE
    {
      LastGoodOneMore(probes, p, k);
      if k < |probes| { assert longer[k] == probes[k]; }
    }
    if forall k | 0 <= k < |longer| :: !Good(longer[k]) {
      assert forall k | 0 <= k < |probes| :: longer[k] == probes[k];
    }
  }

  /** Which driver a longer sequence leaves. */
  lemma DriverOneMore(f: Facts, probes: seq<Probe>, p: Probe, driver: string)
    requires probes == [] ==> f.driver == ""
    requires probes != [] ==> DriverTells(f, probes)
    requires driver == if !Good(p) then f.driver
                       else if p.link.read.driver.Some? then p.link.read.driver.value
                       else if p.link.read.accessDenied then f.driver else ""
    ensures forall k: nat | GaveDriver(probes + [p], k) :: driver == (probes + [p])[k].link.read.driver.value
    ensures NoneGaveDriver(probes + [p]) ==> driver == ""
  {
    var longer := probes + [p];
    forall k: nat | GaveDriver(longer, k) ensures driver == longer[k].link.read.driver.value {
      GaveDriverOneMore(probes, p, k);
      if k < |probes| { assert longer[k] == probes[k]; }
    }
    if NoneGaveDriver(longer) {
      GaveDriverOneMore(probes, p, |probes|);
      if f.driver != "" {
        assert !NoneGaveDriver(probes);
        var k: nat :| GaveDriver(probes, k);
        GaveDriverOneMore(probes, p, k);
      }
    }
  }

  lemma DriverLearned(f: Facts, read: HardwareRead, kind: InterfaceType)
    requires f.driver != "" ==> f.driverState == Available || f.driverState == Stale
    ensures var next := Learned(f, read, kind);
            && next.driver == (if !read.readOk then f.driver
                               else if read.driver.Some? then read.driver.value
                               else if read.accessDenied then f.driver else "")
            && next.driverState == (if read.readOk && read.driver.Some? then Available
                                    else if next.driver != "" then Stale else Unavailable)
  {
  }

  lemma ProbeTellsDriver(f: Facts, probes: seq<Probe>, p: Probe)
    requires FactsTell(f, probes)
    ensures DriverTells(Learned(f, p.link.read, p.link.kind), probes + [p])
  {
    var next := Learned(f, p.link.read, p.link.kind);
    DriverLearned(f, p.link.read, p.link.kind);
    DriverOneMore(f, probes, p, next.driver);
    assert (probes + [p])[|probes|] == p;
  }

  /** One more probe makes the metadata say what the longer sequence does. */
  lemma ProbeTells(f: Facts, probes: seq<Probe>, p: Probe)
    requires FactsTell(f, probes)
    ensures FactsTell(Learned(f, p.link.read, p.link.kind), probes + [p])
  {
    ProbeTellsDevice(f, probes, p);
    ProbeTellsDriver(f, probes, p);
    var next := Learned(f, p.link.read, p.link.kind);
    ClassifyTells(p.link.kind, next.device);
  }

  // ---- The story of one identity ----

  function LastProbe(r: Record): Probe
    requires r.probes != []
  {
    r.probes[|r.probes| - 1]
  }

  /** A probe is due for a new name, after a failure, and when the interval has passed. */
  predicate Due(r: Record, link: Link, now: int, interval: int) {
    r.probes == [] || r.name != link.name || !Good(LastProbe(r)) || now - LastProbe(r).now >= interval
  }

  /** One listing of the interface. */
  function Hear(r: Option<Record>, link: Link, now: int, at: int, interval: int): Record {
    match r
    case None => Record(link.name, true, now, [Probe(link, now, at)])
    case Some(r) =>
      if Due(r, link, now, interval) then Record(link.name, true, r.firstSeen, r.probes + [Probe(link, now, at)])
      else Record(link.name, true, r.firstSeen, r.probes)
  }

  function HearAll(r: Option<Record>, links: seq<Link>, now: int, at: int, interval: int, id: string): Option<Record> {
    if links == [] then r
    else
      var before, last := HearAll(r, links[..|links| - 1], now, at, interval, id), links[|links| - 1];
      if last.identity == id then Some(Hear(before, last, now, at, interval)) else before
  }

  ghost predicate IsListed(links: seq<Link>, id: string) {
    exists k :: 0 <= k < |links| && links[k].identity == id
  }

  /** What a run tells of one identity; an erased record begins anew when the identity is listed again. */
  ghost function Told(log: seq<Event>, interval: int, id: string): Option<Record> {
    if log == [] then None
    else
      var front := log[..|log| - 1];
      match log[|log| - 1]
      case WasReset => None
      case Ticked(tick, gone) =>
        var heard := HearAll(Told(front, interval, id), tick.links, tick.now, tick.at, interval, id);
        if heard.None? || id in Evicted(|Listed(After(front, interval), tick, interval)|, gone) then None
        else if IsListed(tick.links, id) then heard
        else Some(heard.value.(present := false))
  }

  // ---- What the monitor holds ----

  ghost predicate Holds(h: Hardware, r: Record) {
    && r.probes != [] && h.name == r.name && h.present == r.present && h.firstSeen == r.firstSeen
    && FactsTell(h.facts, r.probes)
    && h.readOk == Good(LastProbe(r)) && h.lastProbe == LastProbe(r).now
    && (forall k: nat | LastGood(r.probes, k) :: h.lastRead == r.probes[k].at)
    && ((forall p | p in r.probes :: !Good(p)) ==> h.lastRead == 0)
  }

  ghost predicate Matches(tracked: Table, id: string, r: Option<Record>) {
    && (id in tracked <==> r.Some?)
    && (r.Some? ==> Holds(tracked[id], r.value))
  }

  lemma ProbeHolds(h: Hardware, r: Record, link: Link, now: int, at: int)
    requires Holds(h, r)
    ensures Holds(Probed(h, link, now, at), Record(link.name, true, r.firstSeen, r.probes + [Probe(link, now, at)]))
  {
    var p := Probe(link, now, at);
    var longer := r.probes + [p];
    assert longer[|r.probes|] == p && LastProbe(Record(link.name, true, r.firstSeen, longer)) == p;
    ProbeTells(h.facts, r.probes, p);
    forall k: nat ensures LastGood(longer, k) <==> if Good(p) then k == |r.probes| else LastGood(r.probes, k) {
      LastGoodOneMore(r.probes, p, k);
    }
    assert forall q | q in r.probes :: q in longer;
    assert p in longer;
  }

  lemma FirstProbeHolds(link: Link, now: int, at: int)
    ensures Holds(Probed(Newcomer(now), link, now, at), Record(link.name, true, now, [Probe(link, now, at)]))
  {
    var p := Probe(link, now, at);
    ProbeTells(Newcomer(now).facts, [], p);
    assert [] + [p] == [p];
    assert p in [p];
  }

  lemma RelabelHolds(h: Hardware, r: Record, name: string, present: bool)
    requires Holds(h, r)
    ensures Holds(h.(name := name, present := present), r.(name := name, present := present))
  {
  }

  lemma HearHolds(tracked: Table, link: Link, now: int, at: int, interval: int, r: Option<Record>)
    requires Matches(tracked, link.identity, r)
    ensures Holds(Absorbed(tracked, link, now, at, interval), Hear(r, link, now, at, interval))
  {
    match r
    case None => FirstProbeHolds(link, now, at);
    case Some(r) =>
      ProbeHolds(tracked[link.identity], r, link, now, at);
      RelabelHolds(tracked[link.identity], r, link.name, true);
  }

  lemma {:induction false} HearAllHolds(tracked: Table, links: seq<Link>, now: int, at: int, interval: int,
                                        id: string, r: Option<Record>)
    requires Matches(tracked, id, r)
    ensures Matches(AbsorbAll(tracked, links, now, at, interval), id, HearAll(r, links, now, at, interval, id))
  {
    if links != [] {
      var front, last := links[..|links| - 1], links[|links| - 1];
      HearAllHolds(tracked, front, now, at, interval, id, r);
      if last.identity == id {
        HearHolds(AbsorbAll(tracked, front, now, at, interval), last, now, at, interval,
                  HearAll(r, front, now, at, interval, id));
      }
    }
  }

  lemma ListedIdentities(links: seq<Link>, id: string)
    ensures IsListed(links, id) <==> id in Identities(links)
  {
    if k :| 0 <= k < |links| && links[k].identity == id { assert links[k].identity in Identities(links); }
  }

  lemma {:induction false} HeardIsPresent(r: Option<Record>, links: seq<Link>, now: int, at: int, interval: int,
                                          id: string)
    requires IsListed(links, id)
    ensures HearAll(r, links, now, at, interval, id).Some?
    ensures HearAll(r, links, now, at, interval, id).value.present
  {
    var front, last := links[..|links| - 1], links[|links| - 1];
    if last.identity != id {
      var k :| 0 <= k < |links| && links[k].identity == id;
      assert front[k].identity == id;
      HeardIsPresent(r, front, now, at, interval, id);
    }
  }

  lemma TickHolds(tracked: Table, tick: Tick, gone: seq<string>, interval: int, id: string, r: Option<Record>)
    requires Matches(tracked, id, r)
    ensures var heard := HearAll(r, tick.links, tick.now, tick.at, interval, id);
            Matches(Updated(tracked, tick, gone, interval), id,
                    if heard.None? || id in Evicted(|Listed(tracked, tick, interval)|, gone) then None
                    else if IsListed(tick.links, id) then heard
                    else Some(heard.value.(present := false)))
  {
    var heard := HearAll(r, tick.links, tick.now, tick.at, interval, id);
    var all := AbsorbAll(tracked, tick.links, tick.now, tick.at, interval);
    HearAllHolds(tracked, tick.links, tick.now, tick.at, interval, id, r);
    ListedIdentities(tick.links, id);
    if IsListed(tick.links, id) { HeardIsPresent(r, tick.links, tick.now, tick.at, interval, id); }
    if heard.Some? { RelabelHolds(all[id], heard.value, all[id].name, all[id].present && IsListed(tick.links, id)); }
    EvictErases(Listed(tracked, tick, interval), gone);
  }

  /**
   * In every run the record of every identity is what its own probes say: name, presence, times, the
   * device and driver with their states, and the kind.
   */
  lemma {:induction false} RecordsFollowProbes(log: seq<Event>, interval: int, id: string)
    ensures Matches(After(log, interval), id, Told(log, interval, id))
  {
    if log != [] && log[|log| - 1].Ticked? {
      var front, last := log[..|log| - 1], log[|log| - 1];
      RecordsFollowProbes(front, interval, id);
      TickHolds(After(front, interval), last.tick, last.gone, interval, id, Told(front, interval, id));
    }
  }

  ghost predicate KeepsFacts(f: Facts, probes: seq<Probe>) {
    && (forall k: nat | LastGood(probes, k) && probes[k].link.read.device.related ::
          f.device == probes[k].link.read.device && f.deviceState == Stale)
    && (forall k: nat | GaveDriver(probes, k) && probes[k].link.read.driver.value != "" ::
          f.driver == probes[k].link.read.driver.value && f.driverState == Stale)
  }

  lemma FailureTells(f: Facts, probes: seq<Probe>)
    requires probes != [] && FactsTell(f, probes) && !Good(probes[|probes| - 1])
    ensures KeepsFacts(f, probes)
  {
  }

  /**
   * So a probe that fails never takes anything away: device and driver stay as the last good probes
   * gave them and are marked stale.
   */
  lemma FailureKeepsFacts(log: seq<Event>, interval: int, id: string, r: Record)
    requires Told(log, interval, id) == Some(r) && r.probes != [] && !Good(LastProbe(r))
    ensures id in After(log, interval) && KeepsFacts(After(log, interval)[id].facts, r.probes)
  {
    RecordsFollowProbes(log, interval, id);
    FailureTells(After(log, interval)[id].facts, r.probes);
  }
}
