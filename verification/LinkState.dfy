/**
 * The link-state monitor (src/network_link_state.cpp): one life cycle per interface identity,
 * driving the alert manager's subject of the same name.
 */
module LinkState {
  import opened Wrappers
  import opened Sequences
  import opened ResourceHistory
  import opened Eviction
  import AM = AlertManager
  import Decimal

  // ---- What one interface reports ----

  datatype OperState = Unknown | Up | Down | Dormant | LowerLayerDown | Testing | NotPresent | Unavailable
  datatype CarrierState = CarrierUnknown | NoCarrier | Carrier
  datatype AdminState = AdminUnknown | AdminDown | AdminUp
  datatype Availability = NotSampled | Connected | Disconnected | Unreadable

  /** The three sub-states that the monitor compares. */
  datatype Link = Link(oper: OperState, carrier: CarrierState, admin: AdminState)

  datatype LinkInfo = LinkInfo(name: string, ifindex: Option<int>, operstate: Option<string>,
                               carrier: Option<int>, flags: Option<nat>, adminUp: bool)

  /** The stable key: the kernel index when known, else the name. */
  function Identity(info: LinkInfo): string {
    match info.ifindex
    case Some(index) => "idx:" + Decimal.PrintInt(index)
    case None => "name:" + info.name
  }

  /** Two interfaces share an identity only if they share the index, or the name when none has one. */
  lemma IdentityInjective(a: LinkInfo, b: LinkInfo)
    ensures Identity(a) == Identity(b) <==>
              a.ifindex == b.ifindex && (a.ifindex.None? ==> a.name == b.name)
  {
    if Identity(a) == Identity(b) {
      assert Identity(a)[0] == Identity(b)[0];
      if a.ifindex.Some? {
        assert Identity(a)[4..] == Decimal.PrintInt(a.ifindex.value);
        assert Identity(b)[4..] == Decimal.PrintInt(b.ifindex.value);
        Decimal.PrintIntInjective(a.ifindex.value, b.ifindex.value);
      } else {
        assert Identity(a)[5..] == a.name && Identity(b)[5..] == b.name;
      }
    }
  }

  function ParseOperState(text: Option<string>): OperState {
    match text
    case None => Unknown
    case Some(value) =>
      if value == "up" then Up
      else if value == "down" then Down
      else if value == "dormant" then Dormant
      else if value == "lowerlayerdown" then LowerLayerDown
      else if value == "testing" then Testing
      else if value == "notpresent" then NotPresent
      else Unknown
  }

  function ParseCarrierState(carrier: Option<int>): CarrierState {
    match carrier
    case None => CarrierUnknown
    case Some(value) => if value > 0 then Carrier else NoCarrier
  }

  function ParseAdminState(flags: Option<nat>, adminUp: bool): AdminState {
    if flags.None? then AdminUnknown else if adminUp then AdminUp else AdminDown
  }

  function Reported(info: LinkInfo): Link {
    Link(ParseOperState(info.operstate), ParseCarrierState(info.carrier), ParseAdminState(info.flags, info.adminUp))
  }

  predicate Readable(info: LinkInfo) {
    info.operstate.Some? || info.carrier.Some? || info.flags.Some?
  }

  function LinkAvailability(known: bool, link: Link): Availability {
    if !known then Unreadable
    else if link.oper == Up then Connected
    else if link.oper == NotPresent then Unreadable
    else if link.oper == Unknown && link.carrier == Carrier && link.admin != AdminDown then Connected
    else if link == Link(Unknown, CarrierUnknown, AdminUnknown) then NotSampled
    else Disconnected
  }

  predicate IsConnected(link: Link) {
    LinkAvailability(true, link) == Connected
  }

  predicate IsLoss(before: Link, after: Link) {
    || (IsConnected(before) && !IsConnected(after))
    || (before.carrier == Carrier && after.carrier != Carrier)
    || (before.admin == AdminUp && after.admin != AdminUp)
  }

  predicate IsGain(before: Link, after: Link) {
    || (!IsConnected(before) && IsConnected(after))
    || (before.carrier != Carrier && after.carrier == Carrier)
  }

  // ---- What is kept and logged ----

  datatype EventKind = StateChanged | Appeared | Disappeared | Reappeared

  datatype LinkEvent = LinkEvent(kind: EventKind, identity: string, name: string, before: Link, after: Link,
                                 isRecovery: bool, transitionCount: nat, at: int)

  const NO_LINK := Link(Unknown, CarrierUnknown, AdminUnknown)

  datatype Tracked = Tracked(name: string, link: Link, hasValidState: bool, linkKnown: bool, present: bool,
                             firstSeen: int, lastChange: int, transitionCount: nat)

  /** One entry of the unbounded log of a run. */
  datatype Item = Logged(event: LinkEvent) | Erased(identity: string) | WasReset

  datatype Monitor = Monitor(tracked: map<string, Tracked>, alerts: AM.State, history: Ring<LinkEvent>,
                             log: seq<Item>)

  function Get(m: Monitor, id: string): Option<Tracked> {
    if id in m.tracked then Some(m.tracked[id]) else None
  }

  function Severity(m: Monitor, id: string): AM.Severity {
    AM.CurrentSeverity(m.alerts, AM.LINK_STATE_CHANGED, id)
  }

  /** The outcome of one interface in one tick: its new record, and an event and an alert if due. */
  datatype Outcome = Outcome(tracked: Tracked, event: Option<LinkEvent>, alert: Option<AM.Severity>)

  /** What a change says to the alert manager, if anything. */
  function ChangeSeverity(lost: bool, gained: bool): Option<AM.Severity> {
    if lost && !gained then Some(AM.Warning)
    else if gained && !lost then Some(AM.Normal)
    else None
  }

  function Observe(previous: Option<Tracked>, info: LinkInfo, now: int): Outcome {
    var id, link, known := Identity(info), Reported(info), Readable(info);
    match previous
    case None =>
      Outcome(Tracked(info.name, link, known, known, true, now, now, 0),
              Some(LinkEvent(Appeared, id, info.name, NO_LINK, link, false, 0, now)), None)
    case Some(prior) =>
      var t := prior.(present := true, linkKnown := known, name := info.name);
      if !prior.present then
        Outcome(t.(link := link, hasValidState := known, lastChange := now,
                   transitionCount := prior.transitionCount + 1),
                Some(LinkEvent(Reappeared, id, info.name, prior.link, link, true, 0, now)), Some(AM.Normal))
      else if !known then Outcome(t, None, None)
      else if !prior.hasValidState then
        Outcome(t.(link := link, hasValidState := true, lastChange := now), None, None)
      else if prior.link == link then Outcome(t, None, None)
      else
        var lost, gained := IsLoss(prior.link, link), IsGain(prior.link, link);
        var count := prior.transitionCount + 1;
        Outcome(t.(link := link, lastChange := now, transitionCount := count),
                Some(LinkEvent(StateChanged, id, info.name, prior.link, link, gained && !lost, count, now)),
                ChangeSeverity(lost, gained))
  }

  /** The one outcome that can warn. */
  lemma ObserveChange(prior: Tracked, info: LinkInfo, now: int)
    requires prior.present && prior.hasValidState && Readable(info) && prior.link != Reported(info)
    ensures var link, count := Reported(info), prior.transitionCount + 1;
            var lost, gained := IsLoss(prior.link, link), IsGain(prior.link, link);
            Observe(Some(prior), info, now) == Outcome(
              Tracked(info.name, link, true, true, true, prior.firstSeen, now, count),
              Some(LinkEvent(StateChanged, Identity(info), info.name, prior.link, link, gained && !lost, count, now)),
              ChangeSeverity(lost, gained))
  {
  }

  function Alerted(alerts: AM.State, id: string, severity: Option<AM.Severity>): AM.State {
    match severity
    case None => alerts
    case Some(s) => AM.Applied(alerts, AM.RecordRule(AM.LINK_STATE_CHANGED, id, s, Some(0.0), 0.0))
  }

  function Added(m: Monitor, event: Option<LinkEvent>): Monitor {
    match event
    case None => m
    case Some(e) => m.(history := m.history.Add(e), log := m.log + [Logged(e)])
  }

  /** One iteration of the interface loop. */
  function ProcessOne(m: Monitor, info: LinkInfo, now: int): Monitor {
    var id := Identity(info);
    var o := Observe(Get(m, id), info, now);
    Added(m, o.event).(tracked := m.tracked[id := o.tracked], alerts := Alerted(m.alerts, id, o.alert))
  }

  function ProcessAll(m: Monitor, infos: seq<LinkInfo>, now: int): Monitor {
    if infos == [] then m
    else ProcessOne(ProcessAll(m, infos[..|infos| - 1], now), infos[|infos| - 1], now)
  }

  function Identities(infos: seq<LinkInfo>): set<string> {
    set i | 0 <= i < |infos| :: Identity(infos[i])
  }

  /** One iteration of the disappearance loop. */
  function MarkOne(m: Monitor, id: string, listed: set<string>, now: int): Monitor {
    if id !in m.tracked || id in listed || !m.tracked[id].present then m
    else
      var prior := m.tracked[id];
      var t := prior.(present := false, lastChange := now, transitionCount := prior.transitionCount + 1);
      var e := LinkEvent(Disappeared, id, t.name, t.link, t.link, false, t.transitionCount, now);
      Added(m, Some(e)).(tracked := m.tracked[id := t],
                         alerts := AM.Applied(m.alerts, AM.ClearSubject(AM.LINK_STATE_CHANGED, id)))
  }

  function MarkAll(m: Monitor, order: seq<string>, listed: set<string>, now: int): Monitor {
    if order == [] then m
    else MarkOne(MarkAll(m, order[..|order| - 1], listed, now), order[|order| - 1], listed, now)
  }

  function EraseOne(m: Monitor, id: string): Monitor {
    m.(tracked := m.tracked - {id}, log := m.log + [Erased(id)])
  }

  function EraseAll(m: Monitor, ids: seq<string>): Monitor {
    if ids == [] then m else EraseOne(EraseAll(m, ids[..|ids| - 1]), ids[|ids| - 1])
  }

  lemma IdentitiesGrow(infos: seq<LinkInfo>, info: LinkInfo)
    ensures Identities(infos + [info]) == Identities(infos) + {Identity(info)}
  {
    var longer := infos + [info];
    assert longer[|infos|] == info;
    assert forall i | 0 <= i < |infos| :: longer[i] == infos[i];
  }

  lemma ProcessOneMore(m: Monitor, infos: seq<LinkInfo>, info: LinkInfo, now: int)
    ensures ProcessAll(m, infos + [info], now) == ProcessOne(ProcessAll(m, infos, now), info, now)
  {
    assert (infos + [info])[..|infos|] == infos;
  }

  lemma EraseOneMore(m: Monitor, ids: seq<string>, id: string)
    ensures EraseAll(m, ids + [id]) == EraseOne(EraseAll(m, ids), id)
  {
    assert (ids + [id])[..|ids|] == ids;
  }

  function Held(m: Monitor): map<string, Retained> {
    map id | id in m.tracked :: Retained(m.tracked[id].present, m.tracked[id].lastChange)
  }

  /** What the code leaves open in a tick: the order of the hash map, and of equal time stamps. */
  datatype Choice = Choice(order: seq<string>, gone: seq<string>)

  function Marked(m: Monitor, infos: seq<LinkInfo>, now: int, choice: Choice): Monitor {
    var p := ProcessAll(m, infos, now);
    if |p.tracked| > |infos| then MarkAll(p, choice.order, Identities(infos), now) else p
  }

  ghost predicate Possible(m: Monitor, infos: seq<LinkInfo>, now: int, choice: Choice) {
    var p := ProcessAll(m, infos, now);
    && Distinct(choice.order)
    && (forall id :: id in choice.order <==> id in p.tracked)
    && OldestFirst(choice.gone, Held(Marked(m, infos, now, choice)))
  }

  /** One whole tick. */
  function Updated(m: Monitor, infos: seq<LinkInfo>, now: int, choice: Choice): Monitor {
    var q := Marked(m, infos, now, choice);
    EraseAll(q, Evicted(|q.tracked|, choice.gone))
  }

  function ResetState(m: Monitor): Monitor {
    Monitor(map[], m.alerts, Ring(m.history.maxSamples, []), m.log + [WasReset])
  }

  // ---- The monitor ----

  /** Some order of a finite set. */
  ghost function AnyOrder(ids: set<string>): (order: seq<string>)
    ensures Distinct(order) && forall id :: id in order <==> id in ids
  {
    if ids == {} then [] else
      var id :| id in ids;
      AnyOrder(ids - {id}) + [id]
  }

  class NetworkLinkStateMonitor {
    const alerts: AM.AlertManager
    var tracked: map<string, Tracked>
    var history: Ring<LinkEvent>
    ghost var log: seq<Item>

    ghost function View(): Monitor
      reads this, alerts
    {
      Monitor(tracked, alerts.View(), history, log)
    }

    constructor (alertManager: AM.AlertManager, maxHistory: nat)
      ensures alerts == alertManager
      ensures View() == Monitor(map[], alertManager.View(), Ring(if maxHistory < 1 then 1 else maxHistory, []), [])
    {
      alerts, tracked, log := alertManager, map[], [];
      history := Ring(if maxHistory < 1 then 1 else maxHistory, []);
    }

    method PushEvent(event: LinkEvent)
      modifies this`history, this`log
      ensures View() == Added(old(View()), Some(event))
    {
      history := history.Add(event);
      log := log + [Logged(event)];
    }

    method RecordAlert(id: string, severity: AM.Severity)
      requires alerts.Valid()
      modifies alerts
      ensures alerts.Valid() && alerts.View() == Alerted(old(alerts.View()), id, Some(severity))
    {
      alerts.RecordRuleEvent(AM.LINK_STATE_CHANGED, id, severity, Some(0.0), 0.0);
    }

    /** An identity that is not tracked yet. */
    method Appear(id: string, info: LinkInfo, now: int)
      requires id == Identity(info) && id !in tracked
      modifies this
      ensures View() == ProcessOne(old(View()), info, now)
    {
      var link := Reported(info);
      var known := Readable(info);
      PushEvent(LinkEvent(Appeared, id, info.name, NO_LINK, link, false, 0, now));
      tracked := tracked[id := Tracked(info.name, link, known, known, true, now, now, 0)];
    }

    /** An identity that had vanished. */
    method Reappear(id: string, info: LinkInfo, now: int)
      requires alerts.Valid()
      requires id == Identity(info) && id in tracked && !tracked[id].present
      modifies this, alerts
      ensures alerts.Valid() && View() == ProcessOne(old(View()), info, now)
    {
      var link := Reported(info);
      var known := Readable(info);
      var t := tracked[id].(present := true, linkKnown := known, name := info.name);
      PushEvent(LinkEvent(Reappeared, id, info.name, t.link, link, true, 0, now));
      tracked := tracked[id := t.(link := link, hasValidState := known, lastChange := now,
                                  transitionCount := t.transitionCount + 1)];
      RecordAlert(id, AM.Normal);
    }

    /** A pure loss warns and a pure gain clears; a mixed change leaves the alert alone. */
    method RecordChange(id: string, lost: bool, gained: bool)
      requires alerts.Valid()
      modifies alerts
      ensures alerts.Valid()
      ensures alerts.View() == Alerted(old(alerts.View()), id, ChangeSeverity(lost, gained))
    {
      if lost && !gained {
        RecordAlert(id, AM.Warning);
      } else if gained && !lost {
        RecordAlert(id, AM.Normal);
      }
    }

    /** A baseline and a new reading that differ. */
    method Change(id: string, info: LinkInfo, now: int)
      requires alerts.Valid()
      requires id == Identity(info) && id in tracked && Readable(info)
      requires tracked[id].present && tracked[id].hasValidState && tracked[id].link != Reported(info)
      modifies this, alerts
      ensures alerts.Valid() && View() == ProcessOne(old(View()), info, now)
    {
      var link := Reported(info);
      var t := tracked[id].(present := true, linkKnown := true, name := info.name);
      var lost := IsLoss(t.link, link);
      var gained := IsGain(t.link, link);
      var count := t.transitionCount + 1;
      ObserveChange(tracked[id], info, now);
      PushEvent(LinkEvent(StateChanged, id, info.name, t.link, link, gained && !lost, count, now));
      tracked := tracked[id := t.(link := link, lastChange := now, transitionCount := count)];
      RecordChange(id, lost, gained);
    }

    /** The body of the interface loop. */
    method Process(info: LinkInfo, now: int)
      requires alerts.Valid()
      modifies this, alerts
      ensures alerts.Valid() && View() == ProcessOne(old(View()), info, now)
    {
      var id := Identity(info);
      if id !in tracked {
        Appear(id, info, now);
        return;
      }
      if !tracked[id].present {
        Reappear(id, info, now);
        return;
      }
      var link := Reported(info);
      var known := Readable(info);
      var t := tracked[id].(present := true, linkKnown := known, name := info.name);
      if !known {
        tracked := tracked[id := t];
      } else if !t.hasValidState {
        tracked := tracked[id := t.(link := link, hasValidState := true, lastChange := now)];
      } else if t.link == link {
        tracked := tracked[id := t];
      } else {
        Change(id, info, now);
      }
    }

    /** The body of the disappearance loop. */
    method Mark(id: string, listed: set<string>, now: int)
      requires alerts.Valid()
      modifies this, alerts
      ensures alerts.Valid() && View() == MarkOne(old(View()), id, listed, now)
      ensures tracked.Keys == old(tracked.Keys)
    {
      if id !in tracked || id in listed || !tracked[id].present {
        return;
      }
      var t := tracked[id];
      t := t.(present := false, lastChange := now, transitionCount := t.transitionCount + 1);
      tracked := tracked[id := t];
      alerts.Clear(AM.LINK_STATE_CHANGED, id);
      PushEvent(LinkEvent(Disappeared, id, t.name, t.link, t.link, false, t.transitionCount, now));
    }

    /** One round of the loop, after `done` and before what is still to come. */
    method ProcessNext(info: LinkInfo, now: int, listed: set<string>, ghost start: Monitor, ghost done: seq<LinkInfo>)
      returns (more: set<string>)
      requires alerts.Valid() && ProcessedSoFar(start, done, now, listed)
      modifies this, alerts
      ensures alerts.Valid() && ProcessedSoFar(start, done + [info], now, more)
    {
      ProcessOneMore(start, done, info, now);
      IdentitiesGrow(done, info);
      Process(info, now);
      more := listed + {Identity(info)};
    }

    ghost predicate ProcessedSoFar(start: Monitor, done: seq<LinkInfo>, now: int, listed: set<string>)
      reads this, alerts
    {
      View() == ProcessAll(start, done, now) && listed == Identities(done)
    }

    method ProcessInterfaces(infos: seq<LinkInfo>, now: int) returns (listed: set<string>)
      requires alerts.Valid()
      modifies this, alerts
      ensures alerts.Valid()
      ensures View() == ProcessAll(old(View()), infos, now) && listed == Identities(infos)
    {
      listed := {};
      ghost var start := View();
      for i := 0 to |infos|
        invariant alerts.Valid()
        invariant ProcessedSoFar(start, infos[..i], now, listed)
      {
        listed := ProcessNext(infos[i], now, listed, start, infos[..i]);
        assert infos[..i + 1] == infos[..i] + [infos[i]];
      }
      assert infos[..|infos|] == infos;
    }

    /** Visits the tracked identities in the map's own order, which it reports. */
    method MarkVanished(listed: set<string>, now: int) returns (ghost order: seq<string>)
      requires alerts.Valid()
      modifies this, alerts
      ensures alerts.Valid()
      ensures Distinct(order) && forall id :: id in order <==> id in old(tracked)
      ensures View() == MarkAll(old(View()), order, listed, now)
    {
      order := [];
      var pending := tracked.Keys;
      while pending != {}
        invariant alerts.Valid()
        invariant tracked.Keys == old(tracked.Keys) && pending <= tracked.Keys
        invariant Distinct(order)
        invariant forall id :: id in order <==> id in tracked && id !in pending
        invariant View() == MarkAll(old(View()), order, listed, now)
        decreases pending
      {
        var id :| id in pending;
        pending := pending - {id};
        ghost var before := order;
        order := order + [id];
        assert order[..|before|] == before;
        Mark(id, listed, now);
      }
    }

    method Erase(id: string)
      modifies this`tracked, this`log
      ensures View() == EraseOne(old(View()), id)
    {
      tracked := tracked - {id};
      log := log + [Erased(id)];
    }

    method EraseListed(ids: seq<string>)
      modifies this`tracked, this`log
      ensures View() == EraseAll(old(View()), ids)
    {
      ghost var done: seq<string> := [];
      for i := 0 to |ids|
        invariant done == ids[..i]
        invariant View() == EraseAll(old(View()), done)
      {
        Erase(ids[i]);
        EraseOneMore(old(View()), done, ids[i]);
        done := done + [ids[i]];
      }
      assert done == ids;
    }

    method EvictOverflow() returns (ghost gone: seq<string>)
      modifies this`tracked, this`log
      ensures OldestFirst(gone, Held(old(View())))
      ensures View() == EraseAll(old(View()), Evicted(|old(tracked)|, gone))
    {
      var sorted := SortGone(map id | id in tracked :: Retained(tracked[id].present, tracked[id].lastChange));
      gone := sorted;
      EraseListed(Evicted(|tracked|, sorted));
    }

    method Update(infos: seq<LinkInfo>, now: int) returns (ghost choice: Choice)
      requires alerts.Valid()
      modifies this, alerts
      ensures alerts.Valid()
      ensures Possible(old(View()), infos, now, choice)
      ensures View() == Updated(old(View()), infos, now, choice)
    {
      ghost var m := View();
      var listed := ProcessInterfaces(infos, now);
      ghost var p := View();
      ghost var order := AnyOrder(tracked.Keys);
      if |tracked| > |infos| {
        order := MarkVanished(listed, now);
      }
      ghost var q := View();
      assert forall gone :: Marked(m, infos, now, Choice(order, gone)) == q;
      ghost var gone := EvictOverflow();
      choice := Choice(order, gone);
    }

    method ResetAll()
      modifies this
      ensures View() == ResetState(old(View()))
    {
      tracked, history, log := map[], Ring(history.maxSamples, []), log + [WasReset];
    }
  }
}
