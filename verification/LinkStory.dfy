/**
 * The life of one interface, told from its raw readings alone: the operstate text, the carrier number
 * and the flags of its own listings. Every run of the monitor holds, for each identity, what this
 * story says: its record, its alert and its events.
 */
module LinkStory {
  import opened Wrappers
  import opened Sequences
  import opened Eviction
  import opened LinkState
  import opened LinkStateTracked
  import opened LinkStateRuns
  import AM = AlertManager

  // ---- Raw readings ----

  predicate Powered(i: LinkInfo) {
    i.carrier.Some? && i.carrier.value > 0
  }

  predicate Enabled(i: LinkInfo) {
    i.flags.Some? && i.adminUp
  }

  predicate Disabled(i: LinkInfo) {
    i.flags.Some? && !i.adminUp
  }

  /** The operstate texts that mean something by themselves; "unknown" is not one of them. */
  predicate Recognised(i: LinkInfo) {
    i.operstate.Some? &&
    (i.operstate.value == "up" || i.operstate.value == "down" || i.operstate.value == "dormant"
     || i.operstate.value == "lowerlayerdown" || i.operstate.value == "testing"
     || i.operstate.value == "notpresent")
  }

  predicate Online(i: LinkInfo) {
    i.operstate == Some("up") || (!Recognised(i) && Powered(i) && !Disabled(i))
  }

  predicate SameState(a: LinkInfo, b: LinkInfo) {
    && (Recognised(a) || Recognised(b) ==> a.operstate == b.operstate)
    && Powered(a) == Powered(b) && a.carrier.Some? == b.carrier.Some?
    && Enabled(a) == Enabled(b) && a.flags.Some? == b.flags.Some?
  }

  predicate Lost(a: LinkInfo, b: LinkInfo) {
    (Online(a) && !Online(b)) || (Powered(a) && !Powered(b)) || (Enabled(a) && !Enabled(b))
  }

  predicate Gained(a: LinkInfo, b: LinkInfo) {
    (!Online(a) && Online(b)) || (!Powered(a) && Powered(b))
  }

  /** A listing, if any of its three fields could be read. */
  function Reading(i: LinkInfo): Option<LinkInfo> {
    if i.operstate.Some? || i.carrier.Some? || i.flags.Some? then Some(i) else None
  }

  // ---- The story ----

  /** `base` is the last readable listing since the interface last came up in the lists. */
  datatype Record = Record(name: string, present: bool, known: bool, base: Option<LinkInfo>,
                           firstSeen: int, changed: int, transitions: nat)

  datatype Note = Note(kind: EventKind, name: string, before: Option<LinkInfo>, after: Option<LinkInfo>,
                       isRecovery: bool, transitions: nat, at: int)

  datatype Life = Life(record: Option<Record>, severity: AM.Severity, notes: seq<Note>)

  const UNBORN := Life(None, AM.Normal, [])

  function Appear(l: Life, i: LinkInfo, now: int): Life {
    Life(Some(Record(i.name, true, Reading(i).Some?, Reading(i), now, now, 0)), l.severity,
         l.notes + [Note(Appeared, i.name, None, Reading(i), false, 0, now)])
  }

  function Return(l: Life, r: Record, i: LinkInfo, now: int): Life {
    Life(Some(Record(i.name, true, Reading(i).Some?, Reading(i), r.firstSeen, now, r.transitions + 1)), AM.Normal,
         l.notes + [Note(Reappeared, i.name, r.base, Reading(i), true, 0, now)])
  }

  /** From one readable listing to the next: a pure loss warns, a pure gain clears. */
  function Compare(l: Life, r: Record, a: LinkInfo, b: LinkInfo, now: int): Life {
    var next := r.(name := b.name, known := true, base := Some(b));
    if SameState(a, b) then l.(record := Some(next))
    else
      var recovery := Gained(a, b) && !Lost(a, b);
      Life(Some(next.(changed := now, transitions := r.transitions + 1)),
           if Lost(a, b) && !Gained(a, b) then AM.Warning else if recovery then AM.Normal else l.severity,
           l.notes + [Note(StateChanged, b.name, Some(a), Some(b), recovery, r.transitions + 1, now)])
  }

  /** One more listing of the interface. */
  function Hear(l: Life, i: LinkInfo, now: int): Life {
    match l.record
    case None => Appear(l, i, now)
    case Some(r) =>
      if !r.present then Return(l, r, i, now)
      else if Reading(i).None? then l.(record := Some(r.(name := i.name, known := false)))
      else
        match r.base
        case None => l.(record := Some(r.(name := i.name, known := true, base := Some(i), changed := now)))
        case Some(a) => Compare(l, r, a, i, now)
  }

  function HearAll(l: Life, infos: seq<LinkInfo>, now: int, id: string): Life {
    if infos == [] then l
    else
      var before, last := HearAll(l, infos[..|infos| - 1], now, id), infos[|infos| - 1];
      if Identity(last) == id then Hear(before, last, now) else before
  }

  /** The interface is found missing. */
  function Leave(l: Life, now: int): Life {
    match l.record
    case None => l
    case Some(r) =>
      if !r.present then l
      else
        Life(Some(r.(present := false, changed := now, transitions := r.transitions + 1)), AM.Normal,
             l.notes + [Note(Disappeared, r.name, r.base, r.base, false, r.transitions + 1, now)])
  }

  function Forget(l: Life): Life {
    l.(record := None)
  }

  /** One tick: the listings, then perhaps a disappearance, then perhaps an erasure. */
  function TickOf(m: Monitor, l: Life, infos: seq<LinkInfo>, now: int, choice: Choice, id: string): Life {
    var heard := HearAll(l, infos, now, id);
    var missed := |ProcessAll(m, infos, now).tracked| > |infos| && id !in Identities(infos);
    var left := if missed then Leave(heard, now) else heard;
    if id in Evicted(|Marked(m, infos, now, choice).tracked|, choice.gone) then Forget(left) else left
  }

  /** What a run tells of one identity. */
  function Told(start: Monitor, actions: seq<Action>, id: string): Life {
    if actions == [] then UNBORN
    else
      var front := actions[..|actions| - 1];
      var l, m := Told(start, front, id), Run(start, front);
      match actions[|actions| - 1]
      case Foreign(_) => l
      case Reset => Forget(l)
      case Tick(infos, now, choice) => TickOf(m, l, infos, now, choice, id)
  }

  // ---- What the monitor holds ----

  /** A parsed link state says what the raw reading does. */
  predicate ShowsReading(x: Link, i: LinkInfo) {
    && (x.oper == Up <==> i.operstate == Some("up"))
    && (x.oper == Down <==> i.operstate == Some("down"))
    && (x.oper == Dormant <==> i.operstate == Some("dormant"))
    && (x.oper == LowerLayerDown <==> i.operstate == Some("lowerlayerdown"))
    && (x.oper == Testing <==> i.operstate == Some("testing"))
    && (x.oper == NotPresent <==> i.operstate == Some("notpresent"))
    && (x.oper == Unknown <==> !Recognised(i))
    && (x.carrier == Carrier <==> Powered(i)) && (x.carrier == CarrierUnknown <==> i.carrier.None?)
    && (x.admin == AdminUp <==> Enabled(i)) && (x.admin == AdminDown <==> Disabled(i))
  }

  predicate Shows(x: Link, base: Option<LinkInfo>) {
    match base
    case None => x == NO_LINK
    case Some(i) => ShowsReading(x, i)
  }

  predicate RecordMatches(t: Tracked, r: Record) {
    && t.name == r.name && t.present == r.present && t.linkKnown == r.known
    && t.hasValidState == r.base.Some? && Shows(t.link, r.base)
    && t.firstSeen == r.firstSeen && t.lastChange == r.changed && t.transitionCount == r.transitions
  }

  predicate EventMatches(e: LinkEvent, n: Note) {
    && e.kind == n.kind && e.name == n.name && e.isRecovery == n.isRecovery
    && e.transitionCount == n.transitions && e.at == n.at
    && Shows(e.before, n.before) && Shows(e.after, n.after)
  }

  /** All events of an identity, resets or not. */
  function EventsOf(log: seq<Item>, id: string): seq<LinkEvent> {
    if log == [] then []
    else
      var before := EventsOf(log[..|log| - 1], id);
      match log[|log| - 1]
      case Logged(e) => if e.identity == id then before + [e] else before
      case _ => before
  }

  predicate NotesMatch(events: seq<LinkEvent>, notes: seq<Note>) {
    |events| == |notes| && forall i | 0 <= i < |events| :: EventMatches(events[i], notes[i])
  }

  predicate HoldsRecord(t: Option<Tracked>, r: Option<Record>) {
    t.Some? == r.Some? && (t.Some? ==> RecordMatches(t.value, r.value))
  }

  predicate Matches(m: Monitor, id: string, l: Life) {
    && HoldsRecord(Get(m, id), l.record)
    && Severity(m, id) == l.severity
    && NotesMatch(EventsOf(m.log, id), l.notes)
  }

  // ---- The parsers ----

  lemma ReportedShows(i: LinkInfo)
    ensures ShowsReading(Reported(i), i) && Shows(Reported(i), Reading(i))
    ensures Readable(i) == Reading(i).Some?
  {
  }

  lemma ShownStates(x: Link, a: LinkInfo, y: Link, b: LinkInfo)
    requires ShowsReading(x, a) && ShowsReading(y, b)
    ensures x == y <==> SameState(a, b)
    ensures IsConnected(x) == Online(a)
  {
  }

  lemma ShownChange(x: Link, a: LinkInfo, y: Link, b: LinkInfo)
    requires ShowsReading(x, a) && ShowsReading(y, b)
    ensures IsLoss(x, y) == Lost(a, b) && IsGain(x, y) == Gained(a, b)
  {
    ShownStates(x, a, y, b);
    ShownStates(y, b, x, a);
  }

  /** What one listing does to the record, the events and the alert. */
  ghost predicate Follows(o: Outcome, l: Life, next: Life) {
    && HoldsRecord(Some(o.tracked), next.record)
    && next.severity == o.alert.ValueOr(l.severity)
    && (if o.event.None? then next.notes == l.notes
        else exists n :: next.notes == l.notes + [n] && EventMatches(o.event.value, n))
  }

  lemma NoteFollows(o: Outcome, l: Life, next: Life, n: Note)
    requires HoldsRecord(Some(o.tracked), next.record) && next.severity == o.alert.ValueOr(l.severity)
    requires o.event.Some? && next.notes == l.notes + [n] && EventMatches(o.event.value, n)
    ensures Follows(o, l, next)
  {
  }

  lemma AppearFollows(l: Life, i: LinkInfo, now: int)
    ensures Follows(Observe(None, i, now), l, Appear(l, i, now))
  {
    ReportedShows(i);
    NoteFollows(Observe(None, i, now), l, Appear(l, i, now), Note(Appeared, i.name, None, Reading(i), false, 0, now));
  }

  lemma ReturnFollows(t: Tracked, l: Life, r: Record, i: LinkInfo, now: int)
    requires RecordMatches(t, r) && !r.present
    ensures Follows(Observe(Some(t), i, now), l, Return(l, r, i, now))
  {
    ReportedShows(i);
    NoteFollows(Observe(Some(t), i, now), l, Return(l, r, i, now),
                Note(Reappeared, i.name, r.base, Reading(i), true, 0, now));
  }

  lemma CompareFollows(t: Tracked, l: Life, r: Record, i: LinkInfo, now: int)
    requires RecordMatches(t, r) && r.present && r.base.Some? && Reading(i).Some?
    ensures Follows(Observe(Some(t), i, now), l, Compare(l, r, r.base.value, i, now))
  {
    var a := r.base.value;
    ReportedShows(i);
    ShownStates(t.link, a, Reported(i), i);
    ShownChange(t.link, a, Reported(i), i);
    if !SameState(a, i) {
      ObserveChange(t, i, now);
      NoteFollows(Observe(Some(t), i, now), l, Compare(l, r, a, i, now),
                  Note(StateChanged, i.name, Some(a), Some(i), Gained(a, i) && !Lost(a, i), r.transitions + 1, now));
    }
  }

  lemma HearFollows(t: Option<Tracked>, l: Life, i: LinkInfo, now: int)
    requires HoldsRecord(t, l.record)
    ensures Follows(Observe(t, i, now), l, Hear(l, i, now))
  {
    ReportedShows(i);
    match l.record
    case None => AppearFollows(l, i, now);
    case Some(r) =>
      if !r.present {
        ReturnFollows(t.value, l, r, i, now);
      } else if r.base.Some? && Reading(i).Some? {
        CompareFollows(t.value, l, r, i, now);
      }
  }

  // ---- The steps of a tick ----

  lemma EventsOneMore(log: seq<Item>, item: Item, id: string)
    ensures EventsOf(log + [item], id)
         == if item.Logged? && item.event.identity == id then EventsOf(log, id) + [item.event] else EventsOf(log, id)
  {
    assert (log + [item])[..|log|] == log;
  }

  lemma NotesOneMore(events: seq<LinkEvent>, notes: seq<Note>, e: LinkEvent, n: Note)
    requires NotesMatch(events, notes) && EventMatches(e, n)
    ensures NotesMatch(events + [e], notes + [n])
  {
  }

  /** The outcome of a listing is what happens to the monitor. */
  lemma ProcessGives(m: Monitor, i: LinkInfo, now: int)
    ensures var id, p := Identity(i), ProcessOne(m, i, now);
            var o := Observe(Get(m, id), i, now);
            && Get(p, id) == Some(o.tracked)
            && Severity(p, id) == o.alert.ValueOr(Severity(m, id))
            && (o.event.Some? ==> o.event.value.identity == id)
            && EventsOf(p.log, id)
               == EventsOf(m.log, id) + if o.event.Some? then [o.event.value] else []
  {
    var id := Identity(i);
    var o := Observe(Get(m, id), i, now);
    AlertedSubject(m.alerts, id, o.alert, id);
    if o.event.Some? {
      EventsOneMore(m.log, Logged(o.event.value), id);
    } else {
      assert EventsOf(m.log, id) + [] == EventsOf(m.log, id);
    }
  }

  lemma ProcessTells(m: Monitor, i: LinkInfo, now: int, l: Life)
    requires Matches(m, Identity(i), l)
    ensures Matches(ProcessOne(m, i, now), Identity(i), Hear(l, i, now))
  {
    var id := Identity(i);
    var o, next := Observe(Get(m, id), i, now), Hear(l, i, now);
    HearFollows(Get(m, id), l, i, now);
    ProcessGives(m, i, now);
    if o.event.Some? {
      var n :| next.notes == l.notes + [n] && EventMatches(o.event.value, n);
      NotesOneMore(EventsOf(m.log, id), l.notes, o.event.value, n);
    }
  }

  lemma ProcessLeavesOthers(m: Monitor, i: LinkInfo, now: int, id: string, l: Life)
    requires Matches(m, id, l) && id != Identity(i)
    ensures Matches(ProcessOne(m, i, now), id, l)
  {
    var o := Observe(Get(m, Identity(i)), i, now);
    ProcessGives(m, i, now);
    AlertedSubject(m.alerts, Identity(i), o.alert, id);
    if o.event.Some? { EventsOneMore(m.log, Logged(o.event.value), id); }
  }

  lemma {:induction false} ProcessAllTells(m: Monitor, infos: seq<LinkInfo>, now: int, id: string, l: Life)
    requires Matches(m, id, l)
    ensures Matches(ProcessAll(m, infos, now), id, HearAll(l, infos, now, id))
  {
    if infos != [] {
      var front, last := infos[..|infos| - 1], infos[|infos| - 1];
      ProcessAllTells(m, front, now, id, l);
      if Identity(last) == id {
        ProcessTells(ProcessAll(m, front, now), last, now, HearAll(l, front, now, id));
      } else {
        ProcessLeavesOthers(ProcessAll(m, front, now), last, now, id, HearAll(l, front, now, id));
      }
    }
  }

  lemma MarkTells(m: Monitor, id: string, listed: set<string>, now: int, l: Life)
    requires Matches(m, id, l)
    ensures Matches(MarkOne(m, id, listed, now), id, if id in listed then l else Leave(l, now))
  {
    if id !in listed && id in m.tracked && m.tracked[id].present {
      var t := m.tracked[id];
      var e := LinkEvent(Disappeared, id, t.name, t.link, t.link, false, t.transitionCount + 1, now);
      var next := Leave(l, now);
      AM.AppliedSubject(m.alerts, AM.ClearSubject(AM.LINK_STATE_CHANGED, id), AM.LINK_STATE_CHANGED, id);
      EventsOneMore(m.log, Logged(e), id);
      NotesOneMore(EventsOf(m.log, id), l.notes, e, next.notes[|l.notes|]);
    }
  }

  lemma MarkLeavesOthers(m: Monitor, other: string, listed: set<string>, now: int, id: string, l: Life)
    requires Matches(m, id, l) && id != other
    ensures Matches(MarkOne(m, other, listed, now), id, l)
  {
    if other !in listed && other in m.tracked && m.tracked[other].present {
      var p, t := MarkOne(m, other, listed, now), m.tracked[other];
      var e := LinkEvent(Disappeared, other, t.name, t.link, t.link, false, t.transitionCount + 1, now);
      AM.AppliedSubject(m.alerts, AM.ClearSubject(AM.LINK_STATE_CHANGED, other), AM.LINK_STATE_CHANGED, id);
      EventsOneMore(m.log, Logged(e), id);
      assert Get(p, id) == Get(m, id) && Severity(p, id) == Severity(m, id);
      assert EventsOf(p.log, id) == EventsOf(m.log, id);
    }
  }

  lemma {:induction false} MarkAllTells(m: Monitor, order: seq<string>, listed: set<string>, now: int, id: string,
                                        l: Life)
    requires Matches(m, id, l)
    ensures Matches(MarkAll(m, order, listed, now), id, if id in order && id !in listed then Leave(l, now) else l)
  {
    if order != [] {
      var front, last := order[..|order| - 1], order[|order| - 1];
      assert order == front + [last];
      MarkAllTells(m, front, listed, now, id, l);
      var before := if id in front && id !in listed then Leave(l, now) else l;
      if last == id {
        MarkTells(MarkAll(m, front, listed, now), id, listed, now, before);
      } else {
        MarkLeavesOthers(MarkAll(m, front, listed, now), last, listed, now, id, before);
      }
    }
  }

  lemma EraseTells(m: Monitor, gone: string, id: string, l: Life)
    requires Matches(m, id, l)
    ensures Matches(EraseOne(m, gone), id, if gone == id then Forget(l) else l)
  {
    EventsOneMore(m.log, Erased(gone), id);
  }

  lemma {:induction false} EraseAllTells(m: Monitor, ids: seq<string>, id: string, l: Life)
    requires Matches(m, id, l)
    ensures Matches(EraseAll(m, ids), id, if id in ids then Forget(l) else l)
  {
    if ids != [] {
      var front, last := ids[..|ids| - 1], ids[|ids| - 1];
      assert ids == front + [last];
      EraseAllTells(m, front, id, l);
      EraseTells(EraseAll(m, front), last, id, if id in front then Forget(l) else l);
    }
  }

  // ---- Runs ----

  lemma UntrackedLeave(m: Monitor, id: string, l: Life, now: int)
    requires Matches(m, id, l) && id !in m.tracked
    ensures Leave(l, now) == l
  {
  }

  lemma TickTells(m: Monitor, infos: seq<LinkInfo>, now: int, choice: Choice, id: string, l: Life)
    requires Matches(m, id, l) && Possible(m, infos, now, choice)
    ensures Matches(Updated(m, infos, now, choice), id, TickOf(m, l, infos, now, choice, id))
  {
    var p, heard := ProcessAll(m, infos, now), HearAll(l, infos, now, id);
    ProcessAllTells(m, infos, now, id, l);
    var q, listed := Marked(m, infos, now, choice), Identities(infos);
    var left := if |p.tracked| > |infos| && id !in listed then Leave(heard, now) else heard;
    assert Matches(q, id, left) by {
      if |p.tracked| > |infos| {
        MarkAllTells(p, choice.order, listed, now, id, heard);
        if id !in choice.order { UntrackedLeave(p, id, heard, now); }
      }
    }
    EraseAllTells(q, Evicted(|q.tracked|, choice.gone), id, left);
  }

  /** In every run the record, the alert and the events of every identity are what its story tells. */
  lemma {:induction false} StoriesAreTold(maxHistory: nat, maxAlerts: nat, actions: seq<Action>, id: string)
    requires RunAllowed(Initial(maxHistory, maxAlerts), actions)
    ensures var start := Initial(maxHistory, maxAlerts);
            Matches(Run(start, actions), id, Told(start, actions, id))
  {
    var start := Initial(maxHistory, maxAlerts);
    if actions != [] {
      var front, last := actions[..|actions| - 1], actions[|actions| - 1];
      var m, l := Run(start, front), Told(start, front, id);
      StoriesAreTold(maxHistory, maxAlerts, front, id);
      match last
      case Tick(infos, now, choice) => TickTells(m, infos, now, choice, id, l);
      case Foreign(operation) => AM.AppliedSubject(m.alerts, operation, AM.LINK_STATE_CHANGED, id);
      case Reset => EventsOneMore(m.log, WasReset, id);
    }
  }

  /** The alerts of interfaces carry no figures. */
  lemma AlertsCarryNoFigures(alerts: AM.State, id: string, severity: AM.Severity)
    ensures AM.Lookup(Alerted(alerts, id, Some(severity)), AM.LINK_STATE_CHANGED, id) == AM.Subject(severity, 0.0, 0.0)
  {
  }

  // ---- Plain consequences ----

  ghost predicate ListedOnce(infos: seq<LinkInfo>, k: nat) {
    k < |infos| && forall j | 0 <= j < |infos| && j != k :: Identity(infos[j]) != Identity(infos[k])
  }

  lemma {:induction false} UnlistedIsUnheard(l: Life, infos: seq<LinkInfo>, now: int, id: string)
    requires forall j | 0 <= j < |infos| :: Identity(infos[j]) != id
    ensures HearAll(l, infos, now, id) == l
  {
    if infos != [] { UnlistedIsUnheard(l, infos[..|infos| - 1], now, id); }
  }

  lemma {:induction false} HeardOnce(l: Life, infos: seq<LinkInfo>, now: int, k: nat, id: string)
    requires ListedOnce(infos, k) && id == Identity(infos[k])
    ensures HearAll(l, infos, now, id) == Hear(l, infos[k], now)
  {
    var front := infos[..|infos| - 1];
    assert forall j | 0 <= j < |front| :: front[j] == infos[j];
    if k == |front| {
      UnlistedIsUnheard(l, front, now, id);
    } else {
      HeardOnce(l, front, now, k, id);
    }
  }

  /** A listed identity is not erased, so a tick tells of it what its listings do. */
  lemma ListedTick(m: Monitor, l: Life, infos: seq<LinkInfo>, now: int, choice: Choice, k: nat)
    requires Possible(m, infos, now, choice) && ListedOnce(infos, k)
    ensures TickOf(m, l, infos, now, choice, Identity(infos[k])) == Hear(l, infos[k], now)
  {
    var id, q := Identity(infos[k]), Marked(m, infos, now, choice);
    assert id in Identities(infos);
    HeardOnce(l, infos, now, k, id);
    MarkedTracks(m, infos, now, choice);
    assert id !in choice.gone by { assert Here(q, id); }
    assert forall x | x in Evicted(|q.tracked|, choice.gone) :: x in choice.gone;
  }

  /** What the last readable listing of a present interface was, in this run. */
  predicate LastRead(start: Monitor, actions: seq<Action>, id: string, a: LinkInfo) {
    var r := Told(start, actions, id).record;
    r.Some? && r.value.present && r.value.base == Some(a)
  }

  /** What follows for the alert and the events from a listing `b` after `a`. */
  ghost predicate Decided(m: Monitor, m': Monitor, id: string, a: LinkInfo, b: LinkInfo, now: int) {
    var before, after := EventsOf(m.log, id), EventsOf(m'.log, id);
    && Severity(m', id) == (if Lost(a, b) && !Gained(a, b) then AM.Warning
                            else if Gained(a, b) && !Lost(a, b) then AM.Normal
                            else Severity(m, id))
    && |after| == |before| + (if SameState(a, b) then 0 else 1)
    && (!SameState(a, b) ==>
          && after[|before|].kind == StateChanged && after[|before|].at == now
          && (after[|before|].isRecovery <==> Gained(a, b) && !Lost(a, b)))
  }

  lemma HearDecides(m: Monitor, m': Monitor, id: string, l: Life, r: Record, a: LinkInfo, b: LinkInfo, now: int)
    requires l.record == Some(r) && r.present && r.base == Some(a) && Reading(b).Some?
    requires Matches(m, id, l) && Matches(m', id, Hear(l, b, now))
    ensures Decided(m, m', id, a, b, now)
  {
    assert Hear(l, b, now) == Compare(l, r, a, b, now);
    if SameState(a, b) {
      UnchangedNeither(a, b);
    } else {
      assert EventMatches(EventsOf(m'.log, id)[|l.notes|], Hear(l, b, now).notes[|l.notes|]);
    }
  }

  /**
   * In every run: an interface that was last read as `a` and is now listed, once, as `b` has an event
   * exactly if the readings differ; a pure loss ends in Warning, a pure gain in Normal, and anything
   * else leaves the alert as it was.
   */
  lemma ReadingsDecideAlert(maxHistory: nat, maxAlerts: nat, actions: seq<Action>, infos: seq<LinkInfo>, now: int,
                            choice: Choice, k: nat, a: LinkInfo)
    requires RunAllowed(Initial(maxHistory, maxAlerts), actions) && ListedOnce(infos, k)
    requires Possible(Run(Initial(maxHistory, maxAlerts), actions), infos, now, choice)
    requires LastRead(Initial(maxHistory, maxAlerts), actions, Identity(infos[k]), a) && Reading(infos[k]).Some?
    ensures var m := Run(Initial(maxHistory, maxAlerts), actions);
            Decided(m, Updated(m, infos, now, choice), Identity(infos[k]), a, infos[k], now)
  {
    var start, id := Initial(maxHistory, maxAlerts), Identity(infos[k]);
    var m, l := Run(start, actions), Told(start, actions, id);
    StoriesAreTold(maxHistory, maxAlerts, actions, id);
    TickTells(m, infos, now, choice, id, l);
    ListedTick(m, l, infos, now, choice, k);
    HearDecides(m, Updated(m, infos, now, choice), id, l, l.record.value, a, infos[k], now);
  }

  lemma UnchangedNeither(a: LinkInfo, b: LinkInfo)
    requires SameState(a, b)
    ensures !Lost(a, b) && !Gained(a, b)
  {
  }

  /**
   * The same on the plain fields, for two readable listings. Pulling the cable warns unless the
   * interface comes online by it; plugging it in clears unless something is lost; disabling warns
   * unless something is gained; leaving "up" warns unless the carrier rises or the new text means
   * nothing and there is carrier and no disabling.
   */
  lemma PlainReadings(a: LinkInfo, b: LinkInfo)
    ensures a.carrier.Some? && a.carrier.value > 0 && b.carrier.Some? && b.carrier.value <= 0 ==>
              (Lost(a, b) && !Gained(a, b) <==> b.operstate != Some("up") || Online(a))
    ensures a.carrier.Some? && a.carrier.value <= 0 && b.carrier.Some? && b.carrier.value > 0 ==>
              (Gained(a, b) && !Lost(a, b) <==>
                 && !(a.operstate == Some("up") && !Online(b))
                 && !(a.flags.Some? && a.adminUp && !(b.flags.Some? && b.adminUp)))
    ensures a.flags.Some? && a.adminUp && b.flags.Some? && !b.adminUp ==>
              (Lost(a, b) && !Gained(a, b) <==>
                 && !(b.operstate == Some("up") && !Online(a))
                 && (b.carrier.Some? && b.carrier.value > 0 ==> a.carrier.Some? && a.carrier.value > 0))
    ensures a.operstate == Some("up") && b.operstate != Some("up") ==>
              (Lost(a, b) && !Gained(a, b) <==>
                 if b.carrier.Some? && b.carrier.value > 0 then
                   && a.carrier.Some? && a.carrier.value > 0
                   && (|| b.operstate == Some("down") || b.operstate == Some("dormant")
                       || b.operstate == Some("lowerlayerdown") || b.operstate == Some("testing")
                       || b.operstate == Some("notpresent")
                       || (b.flags.Some? && !b.adminUp)
                       || (a.flags.Some? && a.adminUp && b.flags.None?))
                 else true)
  {
  }
}
