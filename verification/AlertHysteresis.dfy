/**
 * What the hysteresis band of `AlertManager::evaluate` buys: a subject cannot recover often unless
 * its readings travel far.
 */
module AlertHysteresis {
  import opened Wrappers
  import opened AlertManager

  /** The operations that concern one subject. */
  predicate Concerns(a: Action, kind: AlertType, source: string) {
    a.Reset? || (a.kind == kind && a.source == source)
  }

  /** In this run the subject is only ever evaluated, against the same limits; others do as they like. */
  ghost predicate OnlyReadings(actions: seq<Action>, kind: AlertType, source: string, limits: Limits) {
    forall i | 0 <= i < |actions| && Concerns(actions[i], kind, source) ::
      actions[i].Evaluate? && actions[i].limits == limits
  }

  /** The finite readings of the subject, in order. */
  function Readings(actions: seq<Action>, kind: AlertType, source: string): seq<real> {
    if actions == [] then []
    else
      var before := Readings(actions[..|actions| - 1], kind, source);
      var a := actions[|actions| - 1];
      if Concerns(a, kind, source) && a.Evaluate? && a.reading.Some? then before + [a.reading.value] else before
  }

  function Distance(x: real, y: real): real {
    if x < y then y - x else x - y
  }

  /** How far the readings travel in all. */
  function Variation(values: seq<real>): real {
    if |values| < 2 then 0.0
    else Variation(values[..|values| - 1]) + Distance(values[|values| - 2], values[|values| - 1])
  }

  /** How often the full log says that the subject recovered. */
  function Recoveries(log: seq<Item>, kind: AlertType, source: string): nat {
    if log == [] then 0
    else
      var before := Recoveries(log[..|log| - 1], kind, source);
      match log[|log| - 1]
      case Raised(e) => if e.kind == kind && e.source == source && e.isRecovery then before + 1 else before
      case _ => before
  }

  /** `n` times `d`, as the proofs below consume it. */
  function Times(n: nat, d: real): real {
    if n == 0 then 0.0 else Times(n - 1, d) + d
  }

  lemma {:induction false} TimesIsProduct(n: nat, d: real)
    ensures Times(n, d) == n as real * d
  {
    if n > 0 { TimesIsProduct(n - 1, d); }
  }

  /** The lowest reading that can raise the subject from Normal. */
  function Trip(limits: Limits): real {
    if limits.critical < limits.warning then limits.critical else limits.warning
  }

  /** What has been paid for `k` recoveries, given the present severity and the last reading. */
  ghost predicate Paid(severity: Severity, k: nat, values: seq<real>, limits: Limits) {
    var d := Trip(limits) - limits.recovery;
    && Variation(values) >= 0.0
    && (severity == Normal && k >= 1 ==>
          && values != []
          && Variation(values) >= Times(2 * k - 1, d)
          && Variation(values) >= Times(2 * k - 1, d) + values[|values| - 1] - limits.recovery)
    && (severity != Normal ==>
          && values != []
          && Variation(values) >= Times(2 * k, d)
          && Variation(values) >= Times(2 * k, d) + Trip(limits) - values[|values| - 1])
  }

  /** One more reading keeps the account balanced. */
  lemma ReadingPays(severity: Severity, k: nat, values: seq<real>, x: real, limits: Limits)
    requires limits.recovery < Trip(limits)
    requires Paid(severity, k, values, limits)
    ensures var next := NextSeverity(severity, x, limits);
            Paid(next, if severity != Normal && next == Normal then k + 1 else k, values + [x], limits)
  {
    var d := Trip(limits) - limits.recovery;
    var values' := values + [x];
    assert values'[..|values|] == values;
    if values != [] {
      assert Variation(values') == Variation(values) + Distance(values[|values| - 1], x);
    }
    assert Times(2 * k + 1, d) == Times(2 * k, d) + d;
    if k >= 1 {
      assert Times(2 * k, d) == Times(2 * k - 1, d) + d;
    }
  }

  /** What one operation of such a run does to the subject's severity and to its count of recoveries. */
  lemma OperationEffect(s: State, log: seq<Item>, a: Action, kind: AlertType, source: string)
    requires Concerns(a, kind, source) ==> a.Evaluate?
    ensures var before := CurrentSeverity(s, kind, source);
            var after := CurrentSeverity(Applied(s, a), kind, source);
            && after == (if Concerns(a, kind, source) && a.reading.Some?
                         then NextSeverity(before, a.reading.value, a.limits) else before)
            && Recoveries(log + Recorded(s, a), kind, source)
               == Recoveries(log, kind, source) + if before != Normal && after == Normal then 1 else 0
  {
    AppliedSubject(s, a, kind, source);
    var added := Recorded(s, a);
    if added == [] {
      assert log + added == log;
    } else {
      assert (log + added)[..|log|] == log;
    }
  }

  lemma {:induction false} RunPays(maxHistory: nat, actions: seq<Action>, kind: AlertType, source: string,
                                   limits: Limits)
    requires limits.recovery < Trip(limits)
    requires OnlyReadings(actions, kind, source, limits)
    ensures var (s, log) := Run(maxHistory, actions);
            Paid(CurrentSeverity(s, kind, source), Recoveries(log, kind, source),
                 Readings(actions, kind, source), limits)
  {
    if actions != [] {
      var n := |actions| - 1;
      var front, a := actions[..n], actions[n];
      RunPays(maxHistory, front, kind, source, limits);
      var (s, log) := Run(maxHistory, front);
      OperationEffect(s, log, a, kind, source);
      var k := Recoveries(log, kind, source);
      var k' := Recoveries(log + Recorded(s, a), kind, source);
      if Concerns(a, kind, source) && a.reading.Some? {
        var before := CurrentSeverity(s, kind, source);
        var next := NextSeverity(before, a.reading.value, limits);
        ReadingPays(before, k, Readings(front, kind, source), a.reading.value, limits);
        assert k' == if before != Normal && next == Normal then k + 1 else k;
      } else {
        assert k' == k;
      }
    }
  }

  lemma {:induction false} TimesNonPositive(n: nat, d: real)
    requires d <= 0.0
    ensures Times(n, d) <= 0.0
  {
    if n > 0 { TimesNonPositive(n - 1, d); }
  }

  lemma PaidCoversTimes(severity: Severity, k: nat, values: seq<real>, limits: Limits)
    requires k >= 1 && Paid(severity, k, values, limits)
    requires limits.recovery < Trip(limits)
    ensures Variation(values) >= Times(2 * k - 1, Trip(limits) - limits.recovery)
  {
    var d := Trip(limits) - limits.recovery;
    assert Times(2 * k, d) == Times(2 * k - 1, d) + d;
  }

  /**
   * A subject that recovers `k` times makes its readings travel at least `2k - 1` times across the
   * band between the recovery threshold and the lower of the two alert thresholds.
   */
  lemma RecoveriesCostVariation(maxHistory: nat, actions: seq<Action>, kind: AlertType, source: string,
                                limits: Limits, k: nat)
    requires OnlyReadings(actions, kind, source, limits)
    requires k == Recoveries(Run(maxHistory, actions).1, kind, source) && k >= 1
    ensures Variation(Readings(actions, kind, source))
         >= Times(2 * k - 1, Trip(limits) - limits.recovery)
  {
    var values := Readings(actions, kind, source);
    if limits.recovery < Trip(limits) {
      RunPays(maxHistory, actions, kind, source, limits);
      var severity := CurrentSeverity(Run(maxHistory, actions).0, kind, source);
      PaidCoversTimes(severity, k, values, limits);
    } else {
      VariationNonNegative(values);
      TimesNonPositive(2 * k - 1, Trip(limits) - limits.recovery);
    }
  }

  lemma {:induction false} VariationNonNegative(values: seq<real>)
    ensures Variation(values) >= 0.0
  {
    if |values| >= 2 { VariationNonNegative(values[..|values| - 1]); }
  }

  /** For thresholds in order: the first recovery crosses the band once, each later one twice more. */
  lemma RecoveriesCostBand(maxHistory: nat, actions: seq<Action>, kind: AlertType, source: string,
                           limits: Limits, crossings: nat, band: real)
    requires limits.recovery <= limits.warning <= limits.critical && band == limits.warning - limits.recovery
    requires OnlyReadings(actions, kind, source, limits)
    requires crossings == 2 * Recoveries(Run(maxHistory, actions).1, kind, source) - 1
    ensures Variation(Readings(actions, kind, source)) >= crossings as real * band
  {
    RecoveriesCostVariation(maxHistory, actions, kind, source, limits,
                            Recoveries(Run(maxHistory, actions).1, kind, source));
    AtLeastProduct(Variation(Readings(actions, kind, source)), crossings, band);
  }

  lemma AtLeastProduct(x: real, n: nat, d: real)
    requires x >= Times(n, d)
    ensures x >= n as real * d
  {
    TimesIsProduct(n, d);
  }

  /** Inside the band, and only there, the severity is kept whatever it is. */
  lemma BandKeepsSeverity(value: real, limits: Limits)
    requires limits.recovery <= limits.warning <= limits.critical
    ensures limits.recovery <= value < limits.warning <==>
              forall p :: NextSeverity(p, value, limits) == p
  {
    if !(limits.recovery <= value < limits.warning) {
      assert NextSeverity(Normal, value, limits) != Normal || NextSeverity(Warning, value, limits) != Warning;
    }
  }

  lemma RunOneMore(maxHistory: nat, actions: seq<Action>, a: Action)
    ensures var (s, log) := Run(maxHistory, actions);
            Run(maxHistory, actions + [a]) == (Applied(s, a), log + Recorded(s, a))
  {
    assert (actions + [a])[..|actions|] == actions;
  }

  /**
   * After any run that leaves a subject critical, a reading below `critical` steps it down to Warning
   * exactly when it is still at `warning` or above; inside the band the subject stays critical and
   * neither the log nor the history gets an event. (README.md:3017 of the monitor promises the step
   * to Warning below `critical` without that condition.)
   */
  lemma CriticalStepsDown(maxHistory: nat, actions: seq<Action>, kind: AlertType, source: string, value: real,
                          limits: Limits)
    requires limits.recovery <= limits.warning <= limits.critical && value < limits.critical
    requires CurrentSeverity(Run(maxHistory, actions).0, kind, source) == Critical
    ensures var (s, log) := Run(maxHistory, actions);
            var (s', log') := Run(maxHistory, actions + [Evaluate(kind, source, Some(value), limits)]);
            && (CurrentSeverity(s', kind, source) == Warning <==> limits.warning <= value)
            && (CurrentSeverity(s', kind, source) == Critical <==> limits.recovery <= value < limits.warning)
            && (limits.recovery <= value < limits.warning <==> log' == log)
            && (log' == log ==> s'.history == s.history)
  {
    var a := Evaluate(kind, source, Some(value), limits);
    var (s, log) := Run(maxHistory, actions);
    RunOneMore(maxHistory, actions, a);
    AppliedSubject(s, a, kind, source);
    assert |log + Recorded(s, a)| == |log| + |Recorded(s, a)|;
    assert Recorded(s, a) == [] ==> log + Recorded(s, a) == log;
  }

  /** For all such thresholds there is a run that turns critical and stays so far below `critical`. */
  lemma CriticalCanStayInBand(maxHistory: nat, kind: AlertType, source: string, value: real, limits: Limits)
    requires limits.recovery <= value < limits.warning <= limits.critical
    ensures var up := [Evaluate(kind, source, Some(limits.critical), limits)];
            var (s, log) := Run(maxHistory, up + [Evaluate(kind, source, Some(value), limits)]);
            CurrentSeverity(s, kind, source) == Critical && |log| == 1
  {
    var a := Evaluate(kind, source, Some(limits.critical), limits);
    var (s0, log0) := Run(maxHistory, []);
    RunOneMore(maxHistory, [], a);
    assert [] + [a] == [a];
    AppliedSubject(s0, a, kind, source);
    CriticalStepsDown(maxHistory, [a], kind, source, value, limits);
  }

  /** The limits of a temperature sensor: a lower hardware limit replaces `critical`, nothing else. */
  function TemperatureLimits(configured: Limits, hardwareCritical: real): Limits {
    if 0.0 < hardwareCritical < configured.critical
    then configured.(critical := hardwareCritical)
    else configured
  }

  /** At `x` the subject turns critical, and back at any reading below, however close. */
  ghost predicate FlipsAt(x: real, limits: Limits) {
    && NextSeverity(Normal, x, limits) == Critical
    && forall y: real | y < x :: NextSeverity(Critical, y, limits) == Normal
  }

  /**
   * A sensor can flip between Normal and Critical on arbitrarily small changes exactly when its
   * hardware limit does not exceed the recovery threshold: the band is then gone.
   */
  lemma HardwareLimitCanRemoveBand(configured: Limits, hardwareCritical: real)
    requires 0.0 < configured.recovery < configured.warning <= configured.critical
    ensures var limits := TemperatureLimits(configured, hardwareCritical);
            0.0 < hardwareCritical <= configured.recovery <==> exists x :: FlipsAt(x, limits)
  {
    var limits := TemperatureLimits(configured, hardwareCritical);
    if 0.0 < hardwareCritical <= configured.recovery {
      assert FlipsAt(hardwareCritical, limits);
    } else {
      forall x ensures !FlipsAt(x, limits) {
        var y := if x > limits.recovery then limits.recovery else x - 1.0;
        assert y < x;
        assert NextSeverity(Normal, x, limits) != Critical || NextSeverity(Critical, y, limits) != Normal;
      }
    }
  }
}
