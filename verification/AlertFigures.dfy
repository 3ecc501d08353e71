/**
 * What each operation of the alert manager leads to, over every run: severity, event and figures of
 * its subject, in terms of the reading and the thresholds.
 */
module AlertFigures {
  import opened Wrappers
  import opened AlertManager

  predicate InBand(value: real, limits: Limits) {
    limits.recovery <= value < limits.warning && value < limits.critical
  }

  /** What a reading makes of a severity. */
  ghost predicate Judged(before: Severity, value: real, limits: Limits, after: Severity) {
    && (after == Critical <==> value >= limits.critical || (before == Critical && InBand(value, limits)))
    && (after == Warning <==>
          || limits.warning <= value < limits.critical
          || (before == Warning && InBand(value, limits)))
    && (after == Normal <==>
          || (value < limits.recovery && value < limits.warning && value < limits.critical)
          || (before == Normal && InBand(value, limits)))
  }

  /** The threshold that stands for a severity. */
  predicate Crossed(severity: Severity, limits: Limits, threshold: real) {
    && (severity == Critical ==> threshold == limits.critical)
    && (severity == Warning ==> threshold == limits.warning)
    && (severity == Normal ==> threshold == limits.recovery)
  }

  ghost predicate OthersKept(s: State, s': State, kind: AlertType, source: string) {
    forall k: AlertType, src: string | k != kind || src != source :: Lookup(s', k, src) == Lookup(s, k, src)
  }

  lemma OtherSubjectsKept(s: State, a: Action)
    requires !a.Reset?
    ensures OthersKept(s, Applied(s, a), a.kind, a.source)
  {
    forall k: AlertType, src: string | k != a.kind || src != a.source
      ensures Lookup(Applied(s, a), k, src) == Lookup(s, k, src)
    {
      SubjectKeyInjective(a.kind, a.source, k, src);
    }
  }

  lemma RunExtends(maxHistory: nat, actions: seq<Action>, a: Action)
    ensures var (s, log) := Run(maxHistory, actions);
            Run(maxHistory, actions + [a]) == (Applied(s, a), log + Recorded(s, a))
  {
    assert (actions + [a])[..|actions|] == actions;
  }

  lemma ReadingIsJudged(before: Severity, value: real, limits: Limits)
    ensures Judged(before, value, limits, NextSeverity(before, value, limits))
    ensures Crossed(NextSeverity(before, value, limits), limits,
                    CrossedThreshold(NextSeverity(before, value, limits), limits))
  {
  }

  /** The effect of a finite reading on its subject and the log. */
  ghost predicate Evaluated(s: State, log: seq<Item>, s': State, log': seq<Item>, kind: AlertType, source: string,
                            value: real, limits: Limits)
  {
    var before, after := Lookup(s, kind, source), Lookup(s', kind, source);
    && Judged(before.severity, value, limits, after.severity)
    && after.value == value
    && (after.severity == before.severity ==>
          after.threshold == before.threshold && log' == log && s'.history == s.history)
    && (after.severity != before.severity ==>
          && Crossed(after.severity, limits, after.threshold)
          && log' == log + [Raised(AlertEvent(kind, after.severity, source, value, after.threshold,
                                              after.severity == Normal))])
    && OthersKept(s, s', kind, source)
  }

  /**
   * After any run, whatever the severity was: a finite reading at `critical` or above ends critical,
   * one from `warning` on in Warning, one below all thresholds in Normal, and one in the band leaves
   * the severity. An event is logged exactly when the severity changes, with the threshold crossed.
   */
  lemma ReadingDecides(maxHistory: nat, actions: seq<Action>, kind: AlertType, source: string, value: real,
                       limits: Limits)
    ensures var (s, log) := Run(maxHistory, actions);
            var (s', log') := Run(maxHistory, actions + [Evaluate(kind, source, Some(value), limits)]);
            Evaluated(s, log, s', log', kind, source, value, limits)
  {
    var a := Evaluate(kind, source, Some(value), limits);
    var (s, log) := Run(maxHistory, actions);
    RunExtends(maxHistory, actions, a);
    ReadingIsJudged(CurrentSeverity(s, kind, source), value, limits);
    OtherSubjectsKept(s, a);
    assert log + [] == log;
  }

  /** An unavailable reading changes nothing that can be seen. */
  lemma NoReadingDecidesNothing(maxHistory: nat, actions: seq<Action>, kind: AlertType, source: string, limits: Limits)
    ensures var (s, log) := Run(maxHistory, actions);
            var (s', log') := Run(maxHistory, actions + [Evaluate(kind, source, None, limits)]);
            && log' == log && s'.history == s.history
            && forall k: AlertType, src: string :: Lookup(s', k, src) == Lookup(s, k, src)
  {
    var a := Evaluate(kind, source, None, limits);
    var (s, log) := Run(maxHistory, actions);
    RunExtends(maxHistory, actions, a);
    OtherSubjectsKept(s, a);
    assert log + [] == log;
  }

  /**
   * After any run: a rule event with a finite reading sets severity, value and threshold of its
   * subject, and is logged exactly when the severity changes; one without only resets the value.
   */
  lemma RuleDecides(maxHistory: nat, actions: seq<Action>, kind: AlertType, source: string, severity: Severity,
                    reading: Option<real>, threshold: real)
    ensures var (s, log) := Run(maxHistory, actions);
            var (s', log') := Run(maxHistory, actions + [RecordRule(kind, source, severity, reading, threshold)]);
            var before, after := Lookup(s, kind, source), Lookup(s', kind, source);
            && OthersKept(s, s', kind, source)
            && (reading.None? ==> after == before.(value := 0.0) && log' == log && s'.history == s.history)
            && (reading.Some? ==> after == Subject(severity, threshold, reading.value))
            && (reading.Some? && severity == before.severity ==> log' == log && s'.history == s.history)
            && (reading.Some? && severity != before.severity ==>
                  log' == log + [Raised(AlertEvent(kind, severity, source, reading.value, threshold,
                                                   severity == Normal))])
  {
    var a := RecordRule(kind, source, severity, reading, threshold);
    var (s, log) := Run(maxHistory, actions);
    RunExtends(maxHistory, actions, a);
    OtherSubjectsKept(s, a);
    assert log + [] == log;
  }

  /** After any run: clearing sets one severity to Normal and keeps the figures; nothing is put in the history. */
  lemma ClearDecides(maxHistory: nat, actions: seq<Action>, kind: AlertType, source: string)
    ensures var (s, log) := Run(maxHistory, actions);
            var (s', log') := Run(maxHistory, actions + [ClearSubject(kind, source)]);
            && Lookup(s', kind, source) == Lookup(s, kind, source).(severity := Normal)
            && OthersKept(s, s', kind, source) && s'.history == s.history
            && log' == log + [Cleared(kind, source)]
  {
    var a := ClearSubject(kind, source);
    RunExtends(maxHistory, actions, a);
    OtherSubjectsKept(Run(maxHistory, actions).0, a);
  }

  /** The last finite value seen for a subject; a rule event without one counts as 0. */
  function LastValue(actions: seq<Action>, kind: AlertType, source: string): real {
    if actions == [] then 0.0
    else
      var before := LastValue(actions[..|actions| - 1], kind, source);
      match actions[|actions| - 1]
      case Reset => 0.0
      case ClearSubject(_, _) => before
      case Evaluate(k, src, reading, _) => if k == kind && src == source then reading.ValueOr(before) else before
      case RecordRule(k, src, _, reading, _) => if k == kind && src == source then reading.ValueOr(0.0) else before
  }

  /** In every state the value of a subject is the last one seen, and zero without any. */
  lemma {:induction false} ValuesFollowReadings(maxHistory: nat, actions: seq<Action>, kind: AlertType, source: string)
    ensures Lookup(Run(maxHistory, actions).0, kind, source).value == LastValue(actions, kind, source)
  {
    if actions != [] {
      var front, a := actions[..|actions| - 1], actions[|actions| - 1];
      ValuesFollowReadings(maxHistory, front, kind, source);
      if !a.Reset? {
        OtherSubjectsKept(Run(maxHistory, front).0, a);
        SubjectKeyInjective(a.kind, a.source, kind, source);
      }
    }
  }

  /** The threshold of the last transition of a subject, or of the last rule event with a reading. */
  function LastThreshold(maxHistory: nat, actions: seq<Action>, kind: AlertType, source: string): real {
    if actions == [] then 0.0
    else
      var front := actions[..|actions| - 1];
      var before := LastThreshold(maxHistory, front, kind, source);
      var was := CurrentSeverity(Run(maxHistory, front).0, kind, source);
      var now := CurrentSeverity(Run(maxHistory, actions).0, kind, source);
      match actions[|actions| - 1]
      case Reset => 0.0
      case ClearSubject(_, _) => before
      case Evaluate(k, src, _, limits) =>
        if k != kind || src != source || now == was then before
        else (match now case Critical => limits.critical case Warning => limits.warning case Normal => limits.recovery)
      case RecordRule(k, src, _, reading, threshold) =>
        if k == kind && src == source && reading.Some? then threshold else before
  }

  lemma {:induction false} ThresholdsFollowTransitions(maxHistory: nat, actions: seq<Action>, kind: AlertType,
                                                       source: string)
    ensures Lookup(Run(maxHistory, actions).0, kind, source).threshold
         == LastThreshold(maxHistory, actions, kind, source)
  {
    if actions != [] {
      var front, a := actions[..|actions| - 1], actions[|actions| - 1];
      ThresholdsFollowTransitions(maxHistory, front, kind, source);
      if !a.Reset? {
        OtherSubjectsKept(Run(maxHistory, front).0, a);
        SubjectKeyInjective(a.kind, a.source, kind, source);
      }
    }
  }
}
