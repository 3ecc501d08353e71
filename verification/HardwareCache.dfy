/** Hardware metadata per interface, probed now and then (src/network_interface_hardware.cpp). */
module HardwareCache {
  import opened Wrappers
  import opened Sequences
  import opened Eviction

  datatype InterfaceType =
    Ethernet | Wifi | Loopback | Tunnel | P2P | Bridge | Bond | InfiniBand | Virtual | OtherType

  datatype Availability = NotProbed | Available | Stale | Unavailable
  datatype DeviceKind = UnknownKind | Physical | Software

  /** What the `device` directory of an interface says. */
  datatype Device = Device(related: bool, path: string, bus: string, id: string, nameAssignType: Option<int>)

  const NO_DEVICE: Device := Device(false, "", "", "", None)

  /** One probe. */
  datatype HardwareRead = HardwareRead(readOk: bool, accessDenied: bool, device: Device, driver: Option<string>)

  /** The metadata that probes fill in. */
  datatype Facts = Facts(kind: DeviceKind, device: Device, deviceState: Availability,
                         driver: string, driverState: Availability)

  datatype Hardware = Hardware(name: string, present: bool, facts: Facts, lastRead: int, readOk: bool,
                               firstSeen: int, lastProbe: int)

  /** An interface as listed, with what a probe of it at that moment returns. */
  datatype Link = Link(identity: string, name: string, kind: InterfaceType, read: HardwareRead)

  /** One `update`: the listing, the steady clock and the wall clock. */
  datatype Tick = Tick(links: seq<Link>, now: int, at: int)

  type Table = map<string, Hardware>

  // ---- One record ----

  predicate Contains(text: string, part: string) {
    |part| <= |text| && (text[..|part|] == part || (text != "" && Contains(text[1..], part)))
  }

  function ClassifyDeviceKind(kind: InterfaceType, device: Device): DeviceKind {
    if kind in {Loopback, Virtual, Bridge, Bond, Tunnel} then Software
    else if device.related && Contains(device.path, "/devices/virtual/") then Software
    else if !device.related then UnknownKind
    else if kind in {Ethernet, Wifi, InfiniBand} then Physical
    else UnknownKind
  }

  /** After a failed probe the last good values stay, marked stale. */
  function KeepStale(f: Facts): Facts {
    f.(deviceState := if f.device.related then Stale else Unavailable,
       driverState := if f.driver == "" || f.driverState == Unavailable then Unavailable else Stale)
  }

  function TakeDevice(f: Facts, device: Device): Facts {
    if device.related then f.(device := device, deviceState := Available)
    else f.(device := NO_DEVICE, deviceState := Unavailable)
  }

  function TakeDriver(f: Facts, read: HardwareRead): Facts {
    match read.driver
    case Some(driver) => f.(driver := driver, driverState := Available)
    case None =>
      if read.accessDenied && f.driver != "" && f.driverState != Unavailable
      then f.(driverState := Stale)
      else f.(driver := "", driverState := Unavailable)
  }

  function Learned(f: Facts, read: HardwareRead, kind: InterfaceType): Facts {
    var next := if read.readOk then TakeDriver(TakeDevice(f, read.device), read) else KeepStale(f);
    next.(kind := ClassifyDeviceKind(kind, next.device))
  }

  /** `updateNetworkInterfaceHardware` */
  function Refreshed(previous: Hardware, link: Link, at: int): Hardware {
    previous.(name := link.name, facts := Learned(previous.facts, link.read, link.kind),
              lastRead := if link.read.readOk then at else previous.lastRead)
  }

  /** A record without the times at which it was read. */
  function Shown(h: Hardware): Hardware {
    h.(lastRead := 0, lastProbe := 0)
  }

  /** Learning the same probe again teaches nothing. */
  lemma LearnedTwice(f: Facts, read: HardwareRead, kind: InterfaceType)
    ensures Learned(Learned(f, read, kind), read, kind) == Learned(f, read, kind)
  {
    var next := if read.readOk then TakeDriver(TakeDevice(f, read.device), read) else KeepStale(f);
    assert ClassifyDeviceKind(kind, next.device) == Learned(f, read, kind).kind;
  }

  /** Absorbing the same probe again changes nothing but the time of reading. */
  lemma RefreshedTwice(previous: Hardware, link: Link, at: int, later: int)
    ensures Shown(Refreshed(Refreshed(previous, link, at), link, later)) == Shown(Refreshed(previous, link, at))
  {
    LearnedTwice(previous.facts, link.read, link.kind);
  }

  // ---- One tick, as the source computes it ----

  function Newcomer(now: int): Hardware {
    Hardware("", true, Facts(UnknownKind, NO_DEVICE, NotProbed, "", NotProbed), 0, false, now, 0)
  }

  predicate NeedsRead(tracked: Table, link: Link, now: int, interval: int) {
    link.identity in tracked ==>
      var h := tracked[link.identity];
      h.name != link.name || !h.readOk || now - h.lastProbe >= interval
  }

  function Probed(base: Hardware, link: Link, now: int, at: int): Hardware {
    Refreshed(base, link, at).(readOk := link.read.readOk, lastProbe := now, present := true)
  }

  function Base(tracked: Table, link: Link, now: int): Hardware {
    if link.identity in tracked then tracked[link.identity] else Newcomer(now)
  }

  function Absorbed(tracked: Table, link: Link, now: int, at: int, interval: int): Hardware {
    var base := Base(tracked, link, now);
    if NeedsRead(tracked, link, now, interval) then Probed(base, link, now, at)
    else base.(name := link.name, present := true)
  }

  function AbsorbAll(tracked: Table, links: seq<Link>, now: int, at: int, interval: int): Table {
    if links == [] then tracked
    else
      var n := |links| - 1;
      var before := AbsorbAll(tracked, links[..n], now, at, interval);
      before[links[n].identity := Absorbed(before, links[n], now, at, interval)]
  }

  ghost function Identities(links: seq<Link>): set<string> {
    set i | 0 <= i < |links| :: links[i].identity
  }

  /** Records of identities that are not listed any more are marked gone. */
  ghost function MarkGone(tracked: Table, listed: set<string>): Table {
    map id | id in tracked :: tracked[id].(present := tracked[id].present && id in listed)
  }

  ghost function Held(tracked: Table): map<string, Retained> {
    map id | id in tracked :: Retained(tracked[id].present, tracked[id].firstSeen)
  }

  /** Everything of a tick but the eviction. */
  ghost function Listed(tracked: Table, tick: Tick, interval: int): Table {
    MarkGone(AbsorbAll(tracked, tick.links, tick.now, tick.at, interval), Identities(tick.links))
  }

  ghost function Evict(tracked: Table, gone: seq<string>): Table {
    map id | id in tracked && id in Survivors(Held(tracked), gone) :: tracked[id]
  }

  /** `gone` is the order in which `std::sort` put the vanished identities. */
  ghost function Updated(tracked: Table, tick: Tick, gone: seq<string>, interval: int): Table {
    Evict(Listed(tracked, tick, interval), gone)
  }

  ghost predicate Possible(tracked: Table, tick: Tick, gone: seq<string>, interval: int) {
    OldestFirst(gone, Held(Listed(tracked, tick, interval)))
  }

  // ---- The monitor ----

  class NetworkInterfaceHardwareMonitor {
    const rereadInterval: int
    var tracked: Table

    constructor (interval: int)
      ensures rereadInterval == interval && tracked == map[]
    {
      rereadInterval := interval;
      tracked := map[];
    }

    /** The body of the listing loop: probes an interface or keeps what is cached. */
    method Absorb(link: Link, now: int, at: int)
      modifies this`tracked
      ensures tracked == old(tracked)[link.identity := Absorbed(old(tracked), link, now, at, rereadInterval)]
    {
      var needRead := link.identity !in tracked;
      var base := Newcomer(now);
      if !needRead {
        base := tracked[link.identity];
        if base.name != link.name {
          needRead := true;
        }
        if !needRead && !base.readOk {
          needRead := true;
        }
        if !needRead && now - base.lastProbe >= rereadInterval {
          needRead := true;
        }
      }
      var next;
      if needRead {
        next := Refreshed(base, link, at).(readOk := link.read.readOk, lastProbe := now);
      } else {
        next := base.(name := link.name);
      }
      tracked := tracked[link.identity := next.(present := true)];
    }

    method MarkVanished(listed: set<string>)
      modifies this`tracked
      ensures tracked == MarkGone(old(tracked), listed)
    {
      var pending := tracked.Keys;
      while pending != {}
        invariant pending <= tracked.Keys == old(tracked).Keys
        invariant forall id | id in pending :: tracked[id] == old(tracked)[id]
        invariant forall id | id in tracked && id !in pending :: tracked[id] == MarkGone(old(tracked), listed)[id]
        decreases pending
      {
        var id :| id in pending;
        if id !in listed {
          tracked := tracked[id := tracked[id].(present := false)];
        }
        pending := pending - {id};
      }
    }

    method EvictOverflow() returns (ghost gone: seq<string>)
      modifies this`tracked
      ensures OldestFirst(gone, Held(old(tracked)))
      ensures tracked == Evict(old(tracked), gone)
    {
      var sorted := SortGone(map id | id in tracked :: Retained(tracked[id].present, tracked[id].firstSeen));
      gone := sorted;
      var erase := Evicted(|tracked|, sorted);
      for i := 0 to |erase|
        invariant tracked == map id | id in old(tracked) && id !in erase[..i] :: old(tracked)[id]
      {
        assert erase[..i + 1] == erase[..i] + [erase[i]];
        tracked := tracked - {erase[i]};
      }
      assert erase[..|erase|] == erase;
      EvictErases(old(tracked), sorted);
    }

    method Update(tick: Tick) returns (ghost gone: seq<string>)
      modifies this`tracked
      ensures Possible(old(tracked), tick, gone, rereadInterval)
      ensures tracked == Updated(old(tracked), tick, gone, rereadInterval)
    {
      var listed: set<string> := {};
      for i := 0 to |tick.links|
        invariant tracked == AbsorbAll(old(tracked), tick.links[..i], tick.now, tick.at, rereadInterval)
        invariant listed == Identities(tick.links[..i])
      {
        var link := tick.links[i];
        assert tick.links[..i + 1][..i] == tick.links[..i];
        assert Identities(tick.links[..i + 1]) == Identities(tick.links[..i]) + {link.identity} by {
          IdentitiesGrow(tick.links[..i], link);
          assert tick.links[..i + 1] == tick.links[..i] + [link];
        }
        listed := listed + {link.identity};
        Absorb(link, tick.now, tick.at);
      }
      assert tick.links[..|tick.links|] == tick.links;
      MarkVanished(listed);
      gone := EvictOverflow();
    }

    method ResetAll()
      modifies this`tracked
      ensures tracked == map[]
    {
      tracked := map[];
    }
  }

  lemma EvictErases(tracked: Table, gone: seq<string>)
    ensures Evict(tracked, gone) == map id | id in tracked && id !in Evicted(|tracked|, gone) :: tracked[id]
  {
    assert Held(tracked).Keys == tracked.Keys;
    assert |Held(tracked)| == |tracked|;
  }

  lemma IdentitiesGrow(links: seq<Link>, link: Link)
    ensures Identities(links + [link]) == Identities(links) + {link.identity}
  {
    var longer := links + [link];
    assert longer[|links|] == link;
    assert forall i | 0 <= i < |links| :: longer[i] == links[i];
  }
}
