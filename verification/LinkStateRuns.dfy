/**
 * What holds of the link-state monitor over every run: the grammar of its event log, what the log
 * says about each record and each alert, and which records are kept.
 */
module LinkStateRuns {
  import opened Wrappers
  import opened Sequences
  import opened ResourceHistory
  import opened Eviction
  import opened LinkState
  import opened LinkStateTracked
  import AM = AlertManager

  // ---- Reading the log ----

  /** The last thing that the log says about an identity. */
  datatype Mark = NoMark | Of(kind: EventKind) | Gone

  predicate Owns(item: Item, id: string) {
    match item
    case Logged(e) => e.identity == id
    case Erased(i) => i == id
    case WasReset => true
  }

  function LastMark(log: seq<Item>, id: string): Mark {
    if log == [] then NoMark
    else
      var item := log[|log| - 1];
      if !Owns(item, id) then LastMark(log[..|log| - 1], id)
      else
        match item
        case Logged(e) => Of(e.kind)
        case Erased(_) => Gone
        case WasReset => NoMark
  }

  /** The events of an identity since it last appeared, that event not counted. */
  function Transitions(log: seq<Item>, id: string): nat {
    if log == [] then 0
    else
      var item := log[|log| - 1];
      if !Owns(item, id) then Transitions(log[..|log| - 1], id)
      else if item.Logged? && item.event.kind != Appeared then Transitions(log[..|log| - 1], id) + 1
      else 0
  }

  /** The link state that the last event of an identity ended with. */
  function LastLink(log: seq<Item>, id: string): Link {
    if log == [] then NO_LINK
    else
      var item := log[|log| - 1];
      if !Owns(item, id) then LastLink(log[..|log| - 1], id)
      else if item.Logged? then item.event.after
      else NO_LINK
  }

  /** An event takes up where the last one ended, unless that one ended with nothing known. */
  predicate TakesUp(log: seq<Item>, id: string, before: Link) {
    before == LastLink(log, id) || LastLink(log, id) == NO_LINK
  }

  /** What an event means for the alert of its identity; `None` leaves it alone. */
  function Verdict(e: LinkEvent): Option<AM.Severity> {
    match e.kind
    case Appeared => None
    case Reappeared => Some(AM.Normal)
    case Disappeared => Some(AM.Normal)
    case StateChanged =>
      var lost, gained := IsLoss(e.before, e.after), IsGain(e.before, e.after);
      if lost && !gained then Some(AM.Warning)
      else if gained && !lost then Some(AM.Normal)
      else None
  }

  /** The verdict of the last event of an identity that has one; resets of the monitor do not count. */
  function AlertAfter(log: seq<Item>, id: string): AM.Severity {
    if log == [] then AM.Normal
    else
      var item := log[|log| - 1];
      if item.Logged? && item.event.identity == id && Verdict(item.event).Some?
      then Verdict(item.event).value
      else AlertAfter(log[..|log| - 1], id)
  }

  function EventsSinceReset(log: seq<Item>): seq<LinkEvent> {
    if log == [] then []
    else
      match log[|log| - 1]
      case WasReset => []
      case Erased(_) => EventsSinceReset(log[..|log| - 1])
      case Logged(e) => EventsSinceReset(log[..|log| - 1]) + [e]
  }

  /**
   * The grammar of one identity's log,
   * `Appeared StateChanged* (Disappeared Reappeared StateChanged*)* Disappeared?`,
   * begun again only after an erasure or a reset: which item may come next. An event takes up the
   * link state that the one before ended with, and counts as a recovery just when it clears the alert.
   */
  predicate MayFollow(log: seq<Item>, item: Item) {
    match item
    case WasReset => true
    case Erased(id) => LastMark(log, id) == Of(Disappeared)
    case Logged(e) =>
      var last := LastMark(log, e.identity);
      match e.kind
      case Appeared => (last == NoMark || last == Gone) && e.before == NO_LINK && !e.isRecovery
      case Reappeared => last == Of(Disappeared) && e.isRecovery && e.before == LastLink(log, e.identity)
      case Disappeared =>
        && last.Of? && last.kind != Disappeared && !e.isRecovery
        && e.before == e.after && TakesUp(log, e.identity, e.before)
        && e.transitionCount == Transitions(log, e.identity) + 1
      case StateChanged =>
        && last.Of? && last.kind != Disappeared
        && e.before != e.after && TakesUp(log, e.identity, e.before)
        && (e.isRecovery <==> Verdict(e) == Some(AM.Normal))
        && e.transitionCount == Transitions(log, e.identity) + 1
  }

  ghost predicate Grammatical(log: seq<Item>) {
    forall i | 0 <= i < |log| :: MayFollow(log[..i], log[i])
  }

  // ---- The invariant ----

  /** The record of an identity is what the log says. */
  ghost predicate Standing(m: Monitor, id: string) {
    match LastMark(m.log, id)
    case NoMark => id !in m.tracked
    case Gone => id !in m.tracked
    case Of(kind) =>
      && id in m.tracked
      && m.tracked[id].present == (kind != Disappeared)
      && m.tracked[id].transitionCount == Transitions(m.log, id)
      && TakesUp(m.log, id, m.tracked[id].link)
      && (!m.tracked[id].present ==> m.tracked[id].link == LastLink(m.log, id))
      && (!m.tracked[id].hasValidState ==> m.tracked[id].link == NO_LINK == LastLink(m.log, id))
  }

  /** The alert of an identity is what the log says, and without a reset no absent identity has one. */
  ghost predicate Warned(m: Monitor, id: string) {
    && Severity(m, id) == AlertAfter(m.log, id)
    && (WasReset !in m.log && !Here(m, id) ==> AlertAfter(m.log, id) == AM.Normal)
  }

  ghost predicate Consistent(m: Monitor) {
    && (forall id :: Standing(m, id))
    && (forall id :: Warned(m, id))
    && Grammatical(m.log)
    && m.history.buffer == Bounded(EventsSinceReset(m.log), m.history.maxSamples)
  }

  /** A step that changes one identity's record only, and logs nothing. */
  lemma SilentStep(m: Monitor, m': Monitor, id: string)
    requires Consistent(m)
    requires m'.log == m.log && m'.alerts == m.alerts && m'.history == m.history
    requires forall other | other != id :: Get(m', other) == Get(m, other)
    requires id in m.tracked && id in m'.tracked
    requires m'.tracked[id].present == m.tracked[id].present
    requires m'.tracked[id].transitionCount == m.tracked[id].transitionCount
    requires m'.tracked[id].link == m.tracked[id].link || LastLink(m.log, id) == NO_LINK
    requires m.tracked[id].present
    requires !m'.tracked[id].hasValidState ==> !m.tracked[id].hasValidState && m'.tracked[id].link == m.tracked[id].link
    ensures Consistent(m')
  {
    forall other ensures Standing(m', other) && Warned(m', other) {
      assert Standing(m, other) && Warned(m, other);
      if other != id {
        assert Get(m', other) == Get(m, other);
      }
    }
  }

  /** A step that logs one item of one identity. */
  lemma LoggedStep(m: Monitor, m': Monitor, id: string, item: Item)
    requires Consistent(m)
    requires item != WasReset && Owns(item, id) && m'.log == m.log + [item]
    requires MayFollow(m.log, item)
    requires m'.history == if item.Logged? then m.history.Add(item.event) else m.history
    requires forall other | other != id :: Get(m', other) == Get(m, other)
    requires forall other | other != id :: Severity(m', other) == Severity(m, other)
    requires Standing(m', id) && Warned(m', id)
    ensures Consistent(m')
  {
    assert m'.log[..|m.log|] == m.log;
    forall other ensures Standing(m', other) && Warned(m', other) {
      if other != id {
        assert Get(m', other) == Get(m, other);
        assert Standing(m, other) && Warned(m, other);
        assert WasReset in m.log <==> WasReset in m'.log;
      }
    }
    forall i | 0 <= i < |m'.log| ensures MayFollow(m'.log[..i], m'.log[i]) {
      assert m'.log[..i] == m.log[..i];
    }
    if item.Logged? {
      AddFollowsLog(m.history, EventsSinceReset(m.log), item.event);
    }
  }

  lemma AlertedSubject(alerts: AM.State, id: string, severity: Option<AM.Severity>, other: string)
    ensures AM.CurrentSeverity(Alerted(alerts, id, severity), AM.LINK_STATE_CHANGED, other)
         == if other == id && severity.Some? then severity.value
            else AM.CurrentSeverity(alerts, AM.LINK_STATE_CHANGED, other)
  {
    if severity.Some? {
      AM.AppliedSubject(alerts, AM.RecordRule(AM.LINK_STATE_CHANGED, id, severity.value, Some(0.0), 0.0),
                        AM.LINK_STATE_CHANGED, other);
    }
  }

  /** The event of an outcome is one that the grammar allows next. */
  lemma OutcomeMayFollow(m: Monitor, info: LinkInfo, now: int)
    requires Standing(m, Identity(info))
    ensures var event := Observe(Get(m, Identity(info)), info, now).event;
            event.Some? ==> MayFollow(m.log, Logged(event.value)) && event.value.identity == Identity(info)
  {
  }

  lemma OutcomeStanding(m: Monitor, m': Monitor, info: LinkInfo, now: int)
    requires Standing(m, Identity(info))
    requires var o := Observe(Get(m, Identity(info)), info, now);
             o.event.Some? && m'.log == m.log + [Logged(o.event.value)] && Get(m', Identity(info)) == Some(o.tracked)
    ensures Standing(m', Identity(info)) && Here(m', Identity(info))
  {
    assert m'.log[..|m.log|] == m.log;
  }

  /** The alert of an outcome is the verdict on its event. */
  lemma OutcomeVerdict(previous: Option<Tracked>, info: LinkInfo, now: int)
    ensures var o := Observe(previous, info, now);
            (o.event.None? ==> o.alert.None?) && (o.event.Some? ==> o.alert == Verdict(o.event.value))
  {
  }

  lemma OutcomeAlert(log: seq<Item>, e: LinkEvent)
    ensures AlertAfter(log + [Logged(e)], e.identity) == Verdict(e).ValueOr(AlertAfter(log, e.identity))
  {
    assert (log + [Logged(e)])[..|log|] == log;
  }

  lemma ProcessLogged(m: Monitor, info: LinkInfo, now: int)
    requires Consistent(m) && Observe(Get(m, Identity(info)), info, now).event.Some?
    ensures Consistent(ProcessOne(m, info, now))
  {
    var id := Identity(info);
    var o := Observe(Get(m, id), info, now);
    var m' := ProcessOne(m, info, now);
    assert Standing(m, id) && Warned(m, id);
    OutcomeMayFollow(m, info, now);
    OutcomeStanding(m, m', info, now);
    OutcomeVerdict(Get(m, id), info, now);
    OutcomeAlert(m.log, o.event.value);
    forall other ensures Severity(m', other)
        == if other == id && o.alert.Some? then o.alert.value else Severity(m, other)
    {
      AlertedSubject(m.alerts, id, o.alert, other);
    }
    LoggedStep(m, m', id, Logged(o.event.value));
  }

  lemma ProcessSilent(m: Monitor, info: LinkInfo, now: int)
    requires Consistent(m) && Observe(Get(m, Identity(info)), info, now).event.None?
    ensures Consistent(ProcessOne(m, info, now))
  {
    OutcomeVerdict(Get(m, Identity(info)), info, now);
    assert Standing(m, Identity(info));
    SilentStep(m, ProcessOne(m, info, now), Identity(info));
  }

  lemma ProcessConsistent(m: Monitor, info: LinkInfo, now: int)
    requires Consistent(m)
    ensures Consistent(ProcessOne(m, info, now))
  {
    if Observe(Get(m, Identity(info)), info, now).event.None? {
      ProcessSilent(m, info, now);
    } else {
      ProcessLogged(m, info, now);
    }
  }

  lemma MarkConsistent(m: Monitor, id: string, listed: set<string>, now: int)
    requires Consistent(m)
    ensures Consistent(MarkOne(m, id, listed, now))
  {
    var m' := MarkOne(m, id, listed, now);
    if m' != m {
      assert Standing(m, id) && Warned(m, id);
      forall other ensures Severity(m', other) == if other == id then AM.Normal else Severity(m, other) {
        AM.AppliedSubject(m.alerts, AM.ClearSubject(AM.LINK_STATE_CHANGED, id), AM.LINK_STATE_CHANGED, other);
      }
      assert m'.log[..|m.log|] == m.log;
      LoggedStep(m, m', id, m'.log[|m.log|]);
    }
  }

  lemma EraseConsistent(m: Monitor, id: string)
    requires Consistent(m)
    requires id in m.tracked && !m.tracked[id].present
    ensures Consistent(EraseOne(m, id))
  {
    var m' := EraseOne(m, id);
    assert Standing(m, id) && Warned(m, id);
    assert m'.log[..|m.log|] == m.log;
    LoggedStep(m, m', id, Erased(id));
  }

  lemma ResetConsistent(m: Monitor)
    requires Consistent(m)
    ensures Consistent(ResetState(m))
  {
    var m' := ResetState(m);
    assert m'.log[|m.log|] == WasReset && m'.log[..|m.log|] == m.log;
    forall id ensures Standing(m', id) && Warned(m', id) {
      assert Warned(m, id);
      assert WasReset in m'.log;
    }
    forall i | 0 <= i < |m'.log| ensures MayFollow(m'.log[..i], m'.log[i]) {
      assert m'.log[..i] == m.log[..i];
    }
  }

  // ---- Whole ticks ----

  lemma {:induction false} ProcessAllConsistent(m: Monitor, infos: seq<LinkInfo>, now: int)
    requires Consistent(m)
    ensures Consistent(ProcessAll(m, infos, now))
  {
    if infos != [] {
      var n := |infos| - 1;
      ProcessAllConsistent(m, infos[..n], now);
      ProcessConsistent(ProcessAll(m, infos[..n], now), infos[n], now);
    }
  }

  lemma {:induction false} MarkAllConsistent(m: Monitor, order: seq<string>, listed: set<string>, now: int)
    requires Consistent(m)
    ensures Consistent(MarkAll(m, order, listed, now))
  {
    if order != [] {
      var n := |order| - 1;
      MarkAllConsistent(m, order[..n], listed, now);
      MarkConsistent(MarkAll(m, order[..n], listed, now), order[n], listed, now);
    }
  }

  lemma {:induction false} EraseAllConsistent(m: Monitor, ids: seq<string>)
    requires Consistent(m) && Distinct(ids)
    requires forall id | id in ids :: id in m.tracked && !m.tracked[id].present
    ensures Consistent(EraseAll(m, ids))
  {
    if ids != [] {
      var n := |ids| - 1;
      assert ids == ids[..n] + [ids[n]];
      EraseAllConsistent(m, ids[..n]);
      EraseAllTracks(m, ids[..n]);
      EraseConsistent(EraseAll(m, ids[..n]), ids[n]);
    }
  }

  lemma TickConsistent(m: Monitor, infos: seq<LinkInfo>, now: int, choice: Choice)
    requires Consistent(m) && Possible(m, infos, now, choice)
    ensures Consistent(Updated(m, infos, now, choice))
  {
    ProcessAllConsistent(m, infos, now);
    var p := ProcessAll(m, infos, now);
    MarkAllConsistent(p, choice.order, Identities(infos), now);
    var q := Marked(m, infos, now, choice);
    var out := Evicted(|q.tracked|, choice.gone);
    forall id | id in out ensures id in q.tracked && !q.tracked[id].present {
      assert id in choice.gone;
      assert id in Held(q) && !Held(q)[id].present;
    }
    EraseAllConsistent(q, out);
  }

  // ---- Runs ----

  /** A tick, a reset, or an operation of another monitor on the shared alert manager. */
  datatype Action =
    | Tick(infos: seq<LinkInfo>, now: int, choice: Choice)
    | Foreign(operation: AM.Action)
    | Reset

  ghost predicate Allowed(m: Monitor, a: Action) {
    match a
    case Tick(infos, now, choice) => Possible(m, infos, now, choice)
    case Foreign(operation) => !operation.Reset? && operation.kind != AM.LINK_STATE_CHANGED
    case Reset => true
  }

  function After(m: Monitor, a: Action): Monitor {
    match a
    case Tick(infos, now, choice) => Updated(m, infos, now, choice)
    case Foreign(operation) => m.(alerts := AM.Applied(m.alerts, operation))
    case Reset => ResetState(m)
  }

  function Run(m: Monitor, actions: seq<Action>): Monitor {
    if actions == [] then m else After(Run(m, actions[..|actions| - 1]), actions[|actions| - 1])
  }

  /** Each action is possible in the state that it meets. */
  ghost predicate RunAllowed(m: Monitor, actions: seq<Action>) {
    actions == [] ||
    var front, last := actions[..|actions| - 1], actions[|actions| - 1];
    RunAllowed(m, front) && Allowed(Run(m, front), last)
  }

  function Initial(maxHistory: nat, maxAlerts: nat): Monitor {
    Monitor(map[], AM.State(maxAlerts, [], map[]), Ring(if maxHistory < 1 then 1 else maxHistory, []), [])
  }

  lemma InitialConsistent(maxHistory: nat, maxAlerts: nat)
    ensures Consistent(Initial(maxHistory, maxAlerts))
  {
    var m := Initial(maxHistory, maxAlerts);
    forall id ensures Standing(m, id) && Warned(m, id) {
    }
  }

  lemma ForeignConsistent(m: Monitor, a: Action)
    requires Consistent(m) && a.Foreign? && Allowed(m, a)
    ensures Consistent(After(m, a))
  {
    var m' := After(m, a);
    forall id ensures Standing(m', id) && Warned(m', id) {
      assert Standing(m, id) && Warned(m, id);
      AM.AppliedSubject(m.alerts, a.operation, AM.LINK_STATE_CHANGED, id);
    }
  }

  /** The invariant holds in every reachable state, whatever the snapshots and the choices. */
  lemma {:induction false} RunsAreConsistent(maxHistory: nat, maxAlerts: nat, actions: seq<Action>)
    requires RunAllowed(Initial(maxHistory, maxAlerts), actions)
    ensures Consistent(Run(Initial(maxHistory, maxAlerts), actions))
  {
    var m0 := Initial(maxHistory, maxAlerts);
    if actions == [] {
      InitialConsistent(maxHistory, maxAlerts);
    } else {
      var n := |actions| - 1;
      var front := actions[..n];
      RunsAreConsistent(maxHistory, maxAlerts, front);
      var m := Run(m0, front);
      match actions[n]
      case Tick(infos, now, choice) => TickConsistent(m, infos, now, choice);
      case Foreign(_) => ForeignConsistent(m, actions[n]);
      case Reset => ResetConsistent(m);
    }
  }

  lemma {:induction false} ResetsAreLogged(m: Monitor, actions: seq<Action>)
    requires Reset !in actions
    ensures WasReset in Run(m, actions).log ==> WasReset in m.log
  {
    if actions != [] {
      var n := |actions| - 1;
      ResetsAreLogged(m, actions[..n]);
      match actions[n]
      case Tick(infos, now, choice) => TickLogsNoReset(Run(m, actions[..n]), infos, now, choice);
      case _ =>
    }
  }

  lemma TickLogsNoReset(m: Monitor, infos: seq<LinkInfo>, now: int, choice: Choice)
    ensures WasReset in Updated(m, infos, now, choice).log ==> WasReset in m.log
  {
    ProcessLogsNoReset(m, infos, now);
    MarkLogsNoReset(ProcessAll(m, infos, now), choice.order, Identities(infos), now);
    var q := Marked(m, infos, now, choice);
    EraseLogsNoReset(q, Evicted(|q.tracked|, choice.gone));
  }

  lemma {:induction false} ProcessLogsNoReset(m: Monitor, infos: seq<LinkInfo>, now: int)
    ensures WasReset in ProcessAll(m, infos, now).log ==> WasReset in m.log
  {
    if infos != [] { ProcessLogsNoReset(m, infos[..|infos| - 1], now); }
  }

  lemma {:induction false} MarkLogsNoReset(m: Monitor, order: seq<string>, listed: set<string>, now: int)
    ensures WasReset in MarkAll(m, order, listed, now).log ==> WasReset in m.log
  {
    if order != [] { MarkLogsNoReset(m, order[..|order| - 1], listed, now); }
  }

  lemma {:induction false} EraseLogsNoReset(m: Monitor, ids: seq<string>)
    ensures WasReset in EraseAll(m, ids).log ==> WasReset in m.log
  {
    if ids != [] { EraseLogsNoReset(m, ids[..|ids| - 1]); }
  }

  /** In a run without resets, an identity that is not there has no active alert. */
  lemma NoAlertForAbsent(maxHistory: nat, maxAlerts: nat, actions: seq<Action>, id: string)
    requires RunAllowed(Initial(maxHistory, maxAlerts), actions) && Reset !in actions
    ensures var m := Run(Initial(maxHistory, maxAlerts), actions);
            !Here(m, id) ==> Severity(m, id) == AM.Normal
  {
    var m := Run(Initial(maxHistory, maxAlerts), actions);
    RunsAreConsistent(maxHistory, maxAlerts, actions);
    ResetsAreLogged(Initial(maxHistory, maxAlerts), actions);
    assert Warned(m, id);
  }

  /** No identity that is not there has an active alert. */
  ghost predicate NoStaleAlert(m: Monitor) {
    forall id | !Here(m, id) :: Severity(m, id) == AM.Normal
  }

  /**
   * `reset` forgets every identity but clears no alert: no stale alert is left exactly when the last
   * verdict on every identity was Normal.
   */
  lemma ResetKeepsAlerts(m: Monitor)
    requires Consistent(m)
    ensures NoStaleAlert(ResetState(m)) <==> forall id :: AlertAfter(m.log, id) == AM.Normal
  {
    var m' := ResetState(m);
    forall id ensures !Here(m', id) && Severity(m', id) == AlertAfter(m.log, id) {
      assert Warned(m, id);
    }
    if !NoStaleAlert(m') {
      var id :| !Here(m', id) && Severity(m', id) != AM.Normal;
      assert AlertAfter(m.log, id) != AM.Normal;
    }
    if id :| AlertAfter(m.log, id) != AM.Normal {
      assert Severity(m', id) != AM.Normal;
    }
  }

  /** One wired interface with the given operational state and nothing else readable. */
  function Wired(operstate: string): LinkInfo {
    LinkInfo("eth0", Some(2), Some(operstate), None, None, false)
  }

  lemma OneInterfaceTick(m: Monitor, info: LinkInfo, now: int, choice: Choice)
    requires m.tracked.Keys <= {Identity(info)}
    requires forall id | id in m.tracked :: m.tracked[id].present
    requires choice == Choice([Identity(info)], [])
    ensures Possible(m, [info], now, choice)
    ensures Updated(m, [info], now, choice) == ProcessOne(m, info, now)
  {
    var infos := [info];
    assert infos[..0] == [];
    assert Identities(infos) == {Identity(info)} by { assert infos[0] == info; }
    assert m.tracked.Keys + Identities(infos) == {Identity(info)};
    UnmarkedTick(m, infos, now, choice.order);
  }

  lemma WiredGoesDown(m: Monitor)
    requires m.tracked == map[]
    ensures var m' := ProcessOne(ProcessOne(m, Wired("up"), 0), Wired("down"), 1);
            Severity(m', Identity(Wired("up"))) == AM.Warning
  {
    var id := Identity(Wired("up"));
    var m1 := ProcessOne(m, Wired("up"), 0);
    assert m1.tracked[id].link == Reported(Wired("up")) && m1.tracked[id].present && m1.tracked[id].hasValidState;
    AlertedSubject(m1.alerts, id, Some(AM.Warning), id);
  }

  lemma RunOfThree(m: Monitor, a: Action, b: Action, c: Action)
    requires Allowed(m, a) && Allowed(After(m, a), b) && Allowed(After(After(m, a), b), c)
    ensures RunAllowed(m, [a, b, c]) && Run(m, [a, b, c]) == After(After(After(m, a), b), c)
  {
    assert [a, b, c][..2] == [a, b] && [a, b][..1] == [a] && [a][..0] == [];
    assert RunAllowed(m, []) && RunAllowed(m, [a]) && Run(m, [a]) == After(m, a);
    assert RunAllowed(m, [a, b]) && Run(m, [a, b]) == After(After(m, a), b);
  }

  lemma TwoTicksAndReset(m: Monitor, a: LinkInfo, b: LinkInfo) returns (actions: seq<Action>)
    requires m.tracked == map[] && Identity(a) == Identity(b)
    requires Severity(ProcessOne(ProcessOne(m, a, 0), b, 1), Identity(a)) != AM.Normal
    ensures RunAllowed(m, actions) && !NoStaleAlert(Run(m, actions))
  {
    var id := Identity(a);
    var choice := Choice([id], []);
    OneInterfaceTick(m, a, 0, choice);
    var m1 := ProcessOne(m, a, 0);
    OneInterfaceTick(m1, b, 1, choice);
    var m2 := ProcessOne(m1, b, 1);
    actions := [Tick([a], 0, choice), Tick([b], 1, choice), Reset];
    RunOfThree(m, actions[0], actions[1], actions[2]);
    assert !Here(ResetState(m2), id) && Severity(ResetState(m2), id) == Severity(m2, id);
  }

  lemma RunOfTwo(m: Monitor, a: Action, b: Action)
    requires Allowed(m, a) && Allowed(After(m, a), b)
    ensures RunAllowed(m, [a, b]) && Run(m, [a, b]) == After(After(m, a), b)
  {
    assert [a, b][..1] == [a] && [a][..0] == [];
    assert RunAllowed(m, []) && RunAllowed(m, [a]) && Run(m, [a]) == After(m, a);
  }

  /**
   * For any two interfaces the size test misses a removal in this run: both are listed, then one of
   * them twice. The other one stays marked present although the snapshot does not list it.
   */
  lemma RemovalCanStayHidden(maxHistory: nat, maxAlerts: nat, a: LinkInfo, b: LinkInfo)
    returns (actions: seq<Action>)
    requires Identity(a) != Identity(b)
    ensures RunAllowed(Initial(maxHistory, maxAlerts), actions)
    ensures actions != [] && actions[|actions| - 1].Tick?
    ensures Identity(b) !in Identities(actions[|actions| - 1].infos)
    ensures Here(Run(Initial(maxHistory, maxAlerts), actions), Identity(b))
  {
    var m := Initial(maxHistory, maxAlerts);
    var order := [Identity(a), Identity(b)];
    var both, twice := Tick([a, b], 0, Choice(order, [])), Tick([a, a], 1, Choice(order, []));
    PairIdentities(a, b);
    PairIdentities(a, a);
    TwoNewcomers(m, both.infos, 0, order);
    var m' := After(m, both);
    assert |m'.tracked| == |m'.tracked.Keys|;
    RepeatedIdentityHidesRemoval(m', twice.infos, 1, order, Identity(b));
    RunOfTwo(m, both, twice);
    actions := [both, twice];
  }

  /** Such a run exists: a link that goes down, then `reset`, leaves an alert for nobody. */
  lemma ResetCanLeaveStaleAlert()
    ensures exists actions ::
      RunAllowed(Initial(100, 100), actions) && !NoStaleAlert(Run(Initial(100, 100), actions))
  {
    WiredGoesDown(Initial(100, 100));
    var actions := TwoTicksAndReset(Initial(100, 100), Wired("up"), Wired("down"));
  }
}
