/**
 * The alert manager (src/alert_manager.cpp): one severity per (type, source) subject, and a bounded
 * log of severity transitions. A reading is `None` when it is not finite.
 */
module AlertManager {
  import opened Wrappers
  import opened Sequences
  import Decimal

  /** The twenty enumerators of `AlertType`, by their numeric value. */
  newtype AlertType = n: int | 0 <= n < 20

  const LINK_STATE_CHANGED: AlertType := 18

  datatype Severity = Normal | Warning | Critical

  datatype AlertEvent = AlertEvent(kind: AlertType, severity: Severity, source: string, value: real,
                                   threshold: real, isRecovery: bool)

  datatype ActiveAlert = ActiveAlert(kind: AlertType, severity: Severity, source: string,
                                     value: real, threshold: real)

  datatype Subject = Subject(severity: Severity, threshold: real, value: real)

  const NEW_SUBJECT := Subject(Normal, 0.0, 0.0)

  datatype Limits = Limits(warning: real, critical: real, recovery: real)

  function SubjectKey(kind: AlertType, source: string): string {
    Decimal.Print(kind as int) + "|" + source
  }

  /** Splitting a key at its first bar gives back the type and the source, bars in it included. */
  lemma SubjectKeyDecodes(kind: AlertType, source: string)
    ensures var key := SubjectKey(kind, source);
            var sep := Find(key, '|');
            && sep < |key|
            && key[..sep] == Decimal.Print(kind as int)
            && key[sep + 1..] == source
  {
    var digits := Decimal.Print(kind as int);
    assert '|' !in digits by {
      assert forall i | 0 <= i < |digits| :: Decimal.IsDigit(digits[i]);
    }
    FindInMiddle(digits, '|', source);
    assert SubjectKey(kind, source) == digits + ['|'] + source;
  }

  lemma SubjectKeyInjective(k1: AlertType, s1: string, k2: AlertType, s2: string)
    ensures SubjectKey(k1, s1) == SubjectKey(k2, s2) <==> k1 == k2 && s1 == s2
  {
    SubjectKeyDecodes(k1, s1);
    SubjectKeyDecodes(k2, s2);
  }

  // ---- The state and what each operation does to it ----

  datatype State = State(maxHistory: nat, history: seq<AlertEvent>, subjects: map<string, Subject>)

  function Lookup(s: State, kind: AlertType, source: string): Subject {
    var key := SubjectKey(kind, source);
    if key in s.subjects then s.subjects[key] else NEW_SUBJECT
  }

  function CurrentSeverity(s: State, kind: AlertType, source: string): Severity {
    Lookup(s, kind, source).severity
  }

  function NextSeverity(previous: Severity, value: real, limits: Limits): Severity {
    if value >= limits.critical then Critical
    else if value >= limits.warning then Warning
    else if value < limits.recovery then Normal
    else previous
  }

  function CrossedThreshold(next: Severity, limits: Limits): real {
    match next
    case Critical => limits.critical
    case Warning => limits.warning
    case Normal => limits.recovery
  }

  datatype Action =
    | Evaluate(kind: AlertType, source: string, reading: Option<real>, limits: Limits)
    | RecordRule(kind: AlertType, source: string, severity: Severity, reading: Option<real>, threshold: real)
    | ClearSubject(kind: AlertType, source: string)
    | Reset

  /** The event that an action adds to the log, if any. */
  function Emitted(s: State, a: Action): Option<AlertEvent> {
    match a
    case Evaluate(kind, source, Some(value), limits) =>
      var previous := CurrentSeverity(s, kind, source);
      var next := NextSeverity(previous, value, limits);
      if next == previous then None
      else Some(AlertEvent(kind, next, source, value, CrossedThreshold(next, limits), next == Normal))
    case RecordRule(kind, source, severity, Some(value), threshold) =>
      if CurrentSeverity(s, kind, source) == severity then None
      else Some(AlertEvent(kind, severity, source, value, threshold, severity == Normal))
    case _ => None
  }

  /** The subject that an action leaves behind for its key. */
  function Touched(s: State, a: Action): Subject
    requires a.Evaluate? || a.RecordRule?
  {
    var before := Lookup(s, a.kind, a.source);
    match a
    case Evaluate(_, _, None, _) => before
    case Evaluate(_, _, Some(value), _) =>
      (match Emitted(s, a)
       case None => before.(value := value)
       case Some(e) => Subject(e.severity, e.threshold, value))
    case RecordRule(_, _, _, None, _) => before.(value := 0.0)
    case RecordRule(_, _, severity, Some(value), threshold) => Subject(severity, threshold, value)
  }

  function Push(s: State, event: Option<AlertEvent>): seq<AlertEvent> {
    if event.None? then s.history
    else
      var h := s.history + [event.value];
      if |h| > s.maxHistory then h[1..] else h
  }

  function Applied(s: State, a: Action): State {
    match a
    case Reset => State(s.maxHistory, [], map[])
    case ClearSubject(kind, source) =>
      var key := SubjectKey(kind, source);
      if key in s.subjects
      then s.(subjects := s.subjects[key := s.subjects[key].(severity := Normal)])
      else s
    case _ =>
      State(s.maxHistory, Push(s, Emitted(s, a)),
            s.subjects[SubjectKey(a.kind, a.source) := Touched(s, a)])
  }

  // ---- The full log of a run ----

  /** One entry of the unbounded log: an event, or one of the two silent ways back to Normal. */
  datatype Item = Raised(event: AlertEvent) | Cleared(kind: AlertType, source: string) | WasReset

  function Recorded(s: State, a: Action): seq<Item> {
    match a
    case Reset => [WasReset]
    case ClearSubject(kind, source) => [Cleared(kind, source)]
    case _ => if Emitted(s, a).Some? then [Raised(Emitted(s, a).value)] else []
  }

  /** The severity that the log alone gives a subject. */
  function SeverityAfter(log: seq<Item>, kind: AlertType, source: string): Severity {
    if log == [] then Normal
    else
      match log[|log| - 1]
      case WasReset => Normal
      case Raised(e) =>
        if e.kind == kind && e.source == source then e.severity
        else SeverityAfter(log[..|log| - 1], kind, source)
      case Cleared(k, src) =>
        if k == kind && src == source then Normal
        else SeverityAfter(log[..|log| - 1], kind, source)
  }

  /** The events since the last reset, which is all that the bounded history can show. */
  function EventsSinceReset(log: seq<Item>): seq<AlertEvent> {
    if log == [] then []
    else
      match log[|log| - 1]
      case WasReset => []
      case Raised(e) => EventsSinceReset(log[..|log| - 1]) + [e]
      case Cleared(_, _) => EventsSinceReset(log[..|log| - 1])
  }

  /** Every event differs from the severity its subject had: no event repeats, none starts at Normal. */
  ghost predicate NeverRepeats(log: seq<Item>) {
    forall i | 0 <= i < |log| && log[i].Raised? ::
      log[i].event.severity != SeverityAfter(log[..i], log[i].event.kind, log[i].event.source)
  }

  ghost predicate IsSubjectKey(key: string) {
    exists kind, source :: key == SubjectKey(kind, source)
  }

  ghost predicate WellKeyed(subjects: map<string, Subject>) {
    forall key | key in subjects :: IsSubjectKey(key)
  }

  ghost predicate Consistent(s: State, log: seq<Item>) {
    && s.history == LastN(EventsSinceReset(log), s.maxHistory)
    && NeverRepeats(log)
    && WellKeyed(s.subjects)
    && SeveritiesFollow(s, log)
  }

  ghost predicate SeveritiesFollow(s: State, log: seq<Item>) {
    forall kind, source :: CurrentSeverity(s, kind, source) == SeverityAfter(log, kind, source)
  }

  lemma PushKeepsTail(s: State, all: seq<AlertEvent>, e: AlertEvent)
    requires s.history == LastN(all, s.maxHistory)
    ensures Push(s, Some(e)) == LastN(all + [e], s.maxHistory)
  {
    if |all| >= s.maxHistory {
      assert (s.history + [e])[1..] == (all + [e])[|all| + 1 - s.maxHistory..];
    }
  }

  lemma AppliedHistory(s: State, log: seq<Item>, a: Action)
    requires s.history == LastN(EventsSinceReset(log), s.maxHistory)
    ensures Applied(s, a).history == LastN(EventsSinceReset(log + Recorded(s, a)), s.maxHistory)
  {
    var added := Recorded(s, a);
    if added == [] {
      assert log + added == log;
    } else {
      assert (log + added)[..|log|] == log;
      if added[0].Raised? {
        PushKeepsTail(s, EventsSinceReset(log), added[0].event);
      }
    }
  }

  /** An operation touches the severity of its own subject only. */
  lemma AppliedSubject(s: State, a: Action, kind: AlertType, source: string)
    requires !a.Reset?
    ensures CurrentSeverity(Applied(s, a), kind, source)
         == if a.kind != kind || a.source != source then CurrentSeverity(s, kind, source)
            else if a.ClearSubject? then Normal
            else if Emitted(s, a).Some? then Emitted(s, a).value.severity
            else CurrentSeverity(s, kind, source)
  {
    SubjectKeyInjective(a.kind, a.source, kind, source);
  }

  /** The log reads an operation in the same way. */
  lemma RecordedSeverity(s: State, log: seq<Item>, a: Action, kind: AlertType, source: string)
    requires !a.Reset?
    ensures SeverityAfter(log + Recorded(s, a), kind, source)
         == if a.kind != kind || a.source != source then SeverityAfter(log, kind, source)
            else if a.ClearSubject? then Normal
            else if Emitted(s, a).Some? then Emitted(s, a).value.severity
            else SeverityAfter(log, kind, source)
  {
    var added := Recorded(s, a);
    if added == [] {
      assert log + added == log;
    } else {
      assert (log + added)[..|log|] == log;
    }
  }

  lemma AppliedSeverity(s: State, log: seq<Item>, a: Action, kind: AlertType, source: string)
    requires CurrentSeverity(s, kind, source) == SeverityAfter(log, kind, source)
    ensures CurrentSeverity(Applied(s, a), kind, source)
         == SeverityAfter(log + Recorded(s, a), kind, source)
  {
    if a.Reset? {
      assert (log + [WasReset])[|log|] == WasReset;
    } else {
      AppliedSubject(s, a, kind, source);
      RecordedSeverity(s, log, a, kind, source);
    }
  }

  lemma AppliedSeverities(s: State, log: seq<Item>, a: Action)
    requires SeveritiesFollow(s, log)
    ensures SeveritiesFollow(Applied(s, a), log + Recorded(s, a))
  {
    forall kind, source
      ensures CurrentSeverity(Applied(s, a), kind, source)
           == SeverityAfter(log + Recorded(s, a), kind, source)
    {
      AppliedSeverity(s, log, a, kind, source);
    }
  }

  lemma AppliedWellKeyed(s: State, a: Action)
    requires WellKeyed(s.subjects)
    ensures WellKeyed(Applied(s, a).subjects)
  {
  }

  lemma OneMoreNeverRepeats(log: seq<Item>, item: Item)
    requires NeverRepeats(log)
    requires item.Raised? ==> item.event.severity != SeverityAfter(log, item.event.kind, item.event.source)
    ensures NeverRepeats(log + [item])
  {
    var log' := log + [item];
    assert forall i | 0 <= i <= |log| :: log'[..i] == log[..i];
    assert log[..|log|] == log;
  }

  lemma RecordedNeverRepeats(s: State, log: seq<Item>, a: Action)
    requires NeverRepeats(log) && SeveritiesFollow(s, log)
    ensures NeverRepeats(log + Recorded(s, a))
  {
    if Recorded(s, a) == [] {
      assert log + Recorded(s, a) == log;
    } else {
      OneMoreNeverRepeats(log, Recorded(s, a)[0]);
    }
  }

  /** Every operation keeps the index and the bounded history in step with the full log. */
  lemma AppliedConsistent(s: State, log: seq<Item>, a: Action)
    requires Consistent(s, log)
    ensures Consistent(Applied(s, a), log + Recorded(s, a))
  {
    AppliedHistory(s, log, a);
    AppliedSeverities(s, log, a);
    AppliedWellKeyed(s, a);
    RecordedNeverRepeats(s, log, a);
  }

  /** Over any run from an empty manager; `Run` gives the state and the full log it leaves. */
  function Run(maxHistory: nat, actions: seq<Action>): (State, seq<Item>) {
    if actions == [] then (State(maxHistory, [], map[]), [])
    else
      var (s, log) := Run(maxHistory, actions[..|actions| - 1]);
      var a := actions[|actions| - 1];
      (Applied(s, a), log + Recorded(s, a))
  }

  lemma {:induction false} RunsAreConsistent(maxHistory: nat, actions: seq<Action>)
    ensures var (s, log) := Run(maxHistory, actions);
            s.maxHistory == maxHistory && Consistent(s, log)
  {
    if actions == [] {
    } else {
      var n := |actions| - 1;
      RunsAreConsistent(maxHistory, actions[..n]);
      var (s, log) := Run(maxHistory, actions[..n]);
      AppliedConsistent(s, log, actions[n]);
    }
  }

  // ---- The manager ----

  predicate Shows(alert: ActiveAlert, subject: Subject) {
    subject == Subject(alert.severity, alert.threshold, alert.value)
  }

  /** `alert` is what is decoded from an entry off Normal. */
  ghost predicate Decoded(alert: ActiveAlert, key: string, subjects: map<string, Subject>) {
    && key in subjects && SubjectKey(alert.kind, alert.source) == key
    && Shows(alert, subjects[key]) && alert.severity != Normal
  }

  /** A list of alerts with one entry per key off Normal lists each subject off Normal once. */
  lemma ListingIsExact(s: State, alerts: seq<ActiveAlert>, keys: seq<string>)
    requires |alerts| == |keys| && Distinct(keys)
    requires forall i | 0 <= i < |keys| :: Decoded(alerts[i], keys[i], s.subjects)
    requires forall key | key in s.subjects && s.subjects[key].severity != Normal :: key in keys
    ensures forall i, j | 0 <= i < j < |alerts| ::
              alerts[i].kind != alerts[j].kind || alerts[i].source != alerts[j].source
    ensures forall i | 0 <= i < |alerts| ::
              Shows(alerts[i], Lookup(s, alerts[i].kind, alerts[i].source)) && alerts[i].severity != Normal
    ensures forall kind, source | CurrentSeverity(s, kind, source) != Normal ::
              exists i :: 0 <= i < |alerts| && alerts[i].kind == kind && alerts[i].source == source
  {
    forall i, j | 0 <= i < j < |alerts|
      ensures alerts[i].kind != alerts[j].kind || alerts[i].source != alerts[j].source
    {
      assert keys[i] != keys[j];
    }
    forall kind, source | CurrentSeverity(s, kind, source) != Normal
      ensures exists i :: 0 <= i < |alerts| && alerts[i].kind == kind && alerts[i].source == source
    {
      var i :| 0 <= i < |keys| && keys[i] == SubjectKey(kind, source);
      SubjectKeyInjective(kind, source, alerts[i].kind, alerts[i].source);
    }
  }

  class AlertManager {
    const maxHistory: nat
    var history: seq<AlertEvent>
    var subjects: map<string, Subject>

    function View(): State
      reads this
    {
      State(maxHistory, history, subjects)
    }

    ghost predicate Valid()
      reads this
    {
      WellKeyed(subjects)
    }

    constructor (max: nat)
      ensures Valid() && View() == State(max, [], map[])
    {
      maxHistory, history, subjects := max, [], map[];
    }

    method PushEvent(event: AlertEvent)
      modifies this`history
      ensures history == Push(old(View()), Some(event))
    {
      history := history + [event];
      if |history| > maxHistory {
        history := history[1..];
      }
    }

    method Evaluate(kind: AlertType, source: string, reading: Option<real>, limits: Limits)
      returns (event: Option<AlertEvent>)
      requires Valid()
      modifies this
      ensures Valid()
      ensures View() == Applied(old(View()), Action.Evaluate(kind, source, reading, limits))
      ensures event == Emitted(old(View()), Action.Evaluate(kind, source, reading, limits))
    {
      var key := SubjectKey(kind, source);
      var state := if key in subjects then subjects[key] else NEW_SUBJECT;
      var previous := state.severity;
      if reading.None? {
        subjects := subjects[key := state];
        return None;
      }
      var value := reading.value;
      state := state.(value := value);
      var next: Severity;
      if value >= limits.critical {
        next := Critical;
      } else if value >= limits.warning {
        next := Warning;
      } else if value < limits.recovery {
        next := Normal;
      } else {
        next := previous;
      }
      if next == previous {
        subjects := subjects[key := state];
        return None;
      }
      var threshold :=
        if next == Critical then limits.critical
        else if next == Warning then limits.warning else limits.recovery;
      var e := AlertEvent(kind, next, source, value, threshold, next == Normal);
      PushEvent(e);
      subjects := subjects[key := state.(severity := next, threshold := threshold)];
      return Some(e);
    }

    method RecordRuleEvent(kind: AlertType, source: string, severity: Severity, reading: Option<real>,
                           threshold: real)
      requires Valid()
      modifies this
      ensures Valid()
      ensures View() == Applied(old(View()), RecordRule(kind, source, severity, reading, threshold))
    {
      var key := SubjectKey(kind, source);
      var state := if key in subjects then subjects[key] else NEW_SUBJECT;
      if reading.None? {
        subjects := subjects[key := state.(value := 0.0)];
        return;
      }
      state := state.(value := reading.value);
      if state.severity == severity {
        subjects := subjects[key := state.(threshold := threshold)];
        return;
      }
      PushEvent(AlertEvent(kind, severity, source, reading.value, threshold, severity == Normal));
      subjects := subjects[key := state.(severity := severity, threshold := threshold)];
    }

    method Clear(kind: AlertType, source: string)
      requires Valid()
      modifies this
      ensures Valid()
      ensures View() == Applied(old(View()), ClearSubject(kind, source))
    {
      var key := SubjectKey(kind, source);
      if key !in subjects || subjects[key].severity == Normal {
        assert key in subjects ==> subjects[key := subjects[key].(severity := Normal)] == subjects;
        return;
      }
      subjects := subjects[key := subjects[key].(severity := Normal)];
    }

    method ResetAll()
      modifies this
      ensures Valid() && View() == Applied(old(View()), Reset)
    {
      history, subjects := [], map[];
    }

    /** Decodes a "type|source" key. */
    method DecodeAlert(key: string, subject: Subject) returns (alert: ActiveAlert)
      requires IsSubjectKey(key)
      ensures SubjectKey(alert.kind, alert.source) == key && Shows(alert, subject)
    {
      ghost var kind, source :| key == SubjectKey(kind, source);
      SubjectKeyDecodes(kind, source);
      var sep := Find(key, '|');
      alert := ActiveAlert(Decimal.Value(key[..sep]) as AlertType, subject.severity, key[sep + 1..],
                           subject.value, subject.threshold);
    }

    /** Decodes the keys off Normal; the map's order is arbitrary. */
    method ListActive() returns (result: seq<ActiveAlert>, ghost keys: seq<string>)
      requires Valid()
      ensures |keys| == |result| && Distinct(keys)
      ensures forall i | 0 <= i < |keys| :: Decoded(result[i], keys[i], subjects)
      ensures forall key | key in subjects && subjects[key].severity != Normal :: key in keys
    {
      result, keys := [], [];
      var pending := subjects.Keys;
      while pending != {}
        invariant pending <= subjects.Keys
        invariant |keys| == |result| && Distinct(keys)
        invariant forall i | 0 <= i < |keys| :: keys[i] !in pending
        invariant forall i | 0 <= i < |keys| :: Decoded(result[i], keys[i], subjects)
        invariant forall key | key in subjects && key !in pending && subjects[key].severity != Normal :: key in keys
        decreases pending
      {
        var key :| key in pending;
        pending := pending - {key};
        if subjects[key].severity != Normal {
          var alert := DecodeAlert(key, subjects[key]);
          result := result + [alert];
          keys := keys + [key];
        }
      }
    }

    /** The subjects off Normal, each once. */
    method ActiveAlerts() returns (result: seq<ActiveAlert>)
      requires Valid()
      ensures forall i, j | 0 <= i < j < |result| ::
                result[i].kind != result[j].kind || result[i].source != result[j].source
      ensures forall i | 0 <= i < |result| ::
                && Shows(result[i], Lookup(View(), result[i].kind, result[i].source))
                && result[i].severity != Normal
      ensures forall kind, source | CurrentSeverity(View(), kind, source) != Normal ::
                exists i :: 0 <= i < |result| && result[i].kind == kind && result[i].source == source
    {
      ghost var keys;
      result, keys := ListActive();
      ListingIsExact(View(), result, keys);
    }
  }
}
