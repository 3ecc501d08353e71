/**
 * CPU utilisation from two readings of the 64-bit tick counters, computed twice in the repository:
 * `computeCpuDelta` (src/advanced_cpu_monitor.cpp) and `cpuUtilization` (src/cpu_monitor.cpp).
 */
module CpuDelta {
  import opened Wrappers

  const MODULUS: nat := 0x1_0000_0000_0000_0000

  /** `std::uint64_t`. */
  type U64 = n: int | 0 <= n < MODULUS

  datatype Counters = Counters(user: U64, nice: U64, system: U64, idle: U64, iowait: U64, irq: U64,
                               softirq: U64, steal: U64)

  /** The sum before it is cut to 64 bits. */
  function FullTotal(c: Counters): nat {
    c.user + c.nice + c.system + c.idle + c.iowait + c.irq + c.softirq + c.steal
  }

  function Total(c: Counters): U64 {
    FullTotal(c) % MODULUS
  }

  function IdleTime(c: Counters): U64 {
    if c.idle + c.iowait >= MODULUS then c.idle + c.iowait - MODULUS else c.idle + c.iowait
  }

  /** Unsigned subtraction. */
  function Minus(a: U64, b: U64): U64 {
    if a >= b then a - b else a - b + MODULUS
  }

  datatype Delta = Delta(valid: bool, user: real, nice: real, system: real, idle: real, iowait: real,
                         irq: real, softirq: real, steal: real, busy: real)

  const NO_DELTA := Delta(false, 0.0, 0.0, 0.0, 0.0, 0.0, 0.0, 0.0, 0.0, 0.0)

  function Share(part: U64, total: U64): real
    requires total > 0
  {
    if part >= total then 100.0 else part as real / total as real * 100.0
  }

  /** Busy time is everything that is not idle. */
  function BusyShare(total: U64, idle: U64): real
    requires total > 0
  {
    Share(Minus(total, idle), total)
  }

  function ComputeCpuDelta(previous: Counters, current: Counters): Delta {
    if Total(current) <= Total(previous) then NO_DELTA
    else
      var total := Total(current) - Total(previous);
      Delta(true,
            Share(Minus(current.user, previous.user), total),
            Share(Minus(current.nice, previous.nice), total),
            Share(Minus(current.system, previous.system), total),
            Share(Minus(current.idle, previous.idle), total),
            Share(Minus(current.iowait, previous.iowait), total),
            Share(Minus(current.irq, previous.irq), total),
            Share(Minus(current.softirq, previous.softirq), total),
            Share(Minus(current.steal, previous.steal), total),
            BusyShare(total, Minus(IdleTime(current), IdleTime(previous))))
  }

  function Clamp(x: real, low: real, high: real): real {
    if x < low then low else if x > high then high else x
  }

  /** The same, with the idle ticks capped by the elapsed ones. */
  function BusyRatio(total: U64, idle: U64): real
    requires total > 0
  {
    var counted := if idle < total then idle else total;
    Clamp((total - counted) as real / total as real * 100.0, 0.0, 100.0)
  }

  function CpuUtilization(previous: Counters, current: Counters): Option<real> {
    if Total(current) < Total(previous) then None
    else
      var total := Total(current) - Total(previous);
      if total == 0 then None
      else
        Some(BusyRatio(total, Minus(IdleTime(current), IdleTime(previous))))
  }

  /** The ticks that the code counts as idle between two readings, wrap-around included. */
  function IdleTicks(previous: Counters, current: Counters): U64 {
    Minus(IdleTime(current), IdleTime(previous))
  }

  // ---- Ranges ----

  predicate IsPercent(x: real) {
    0.0 <= x <= 100.0
  }

  lemma RatioBelowOne(part: nat, total: nat)
    requires part <= total && total > 0
    ensures 0.0 <= part as real / total as real <= 1.0
  {
    var q := part as real / total as real;
    assert q * total as real == part as real;
    assert q > 1.0 ==> (q - 1.0) * total as real > 0.0;
    assert q < 0.0 ==> q * total as real < 0.0;
  }

  lemma ShareIsPercent(part: U64, total: U64)
    requires total > 0
    ensures IsPercent(Share(part, total))
  {
    if part < total { RatioBelowOne(part, total); }
  }

  /** For all 2^64 values of every counter, wrapped or not, each figure is a percentage. */
  lemma EveryFieldIsPercent(previous: Counters, current: Counters)
    ensures var d := ComputeCpuDelta(previous, current);
            && IsPercent(d.user) && IsPercent(d.nice) && IsPercent(d.system) && IsPercent(d.idle)
            && IsPercent(d.iowait) && IsPercent(d.irq) && IsPercent(d.softirq) && IsPercent(d.steal)
            && IsPercent(d.busy)
  {
    if Total(current) > Total(previous) {
      var total := Total(current) - Total(previous);
      ShareIsPercent(Minus(current.user, previous.user), total);
      ShareIsPercent(Minus(current.nice, previous.nice), total);
      ShareIsPercent(Minus(current.system, previous.system), total);
      ShareIsPercent(Minus(current.idle, previous.idle), total);
      ShareIsPercent(Minus(current.iowait, previous.iowait), total);
      ShareIsPercent(Minus(current.irq, previous.irq), total);
      ShareIsPercent(Minus(current.softirq, previous.softirq), total);
      ShareIsPercent(Minus(current.steal, previous.steal), total);
      ShareIsPercent(Minus(total, IdleTicks(previous, current)), total);
    }
  }

  // ---- The two computations compared ----

  /** As functions of the elapsed and the idle ticks, they part when idle exceeds elapsed. */
  lemma RatiosCompared(total: U64, idle: U64)
    requires total > 0
    ensures idle <= total ==> BusyShare(total, idle) == BusyRatio(total, idle)
    ensures idle > total ==> BusyShare(total, idle) == 100.0 && BusyRatio(total, idle) == 0.0
  {
    if idle <= total {
      RatioBelowOne(total - idle, total);
      if idle == 0 {
        ExactWhole(total);
        assert (total - idle) as real / total as real * 100.0 == Exact(total, total);
      }
    }
  }

  /**
   * Over all counters the two agree on whether there is a figure, and on the figure exactly when the
   * idle ticks do not exceed the elapsed ticks; otherwise they say 100 and 0.
   */
  lemma AgreeUnlessIdleExceedsTotal(previous: Counters, current: Counters)
    ensures var d, u := ComputeCpuDelta(previous, current), CpuUtilization(previous, current);
            && (d.valid <==> u.Some?)
            && (d.valid <==> Total(current) > Total(previous))
            && (d.valid ==>
                  var total := Total(current) - Total(previous);
                  && (d.busy == u.value <==> IdleTicks(previous, current) <= total)
                  && (d.busy != u.value ==> d.busy == 100.0 && u.value == 0.0))
  {
    if Total(current) > Total(previous) {
      RatiosCompared(Total(current) - Total(previous), IdleTicks(previous, current));
    }
  }

  lemma UnwrappedTotal(c: Counters)
    requires FullTotal(c) < MODULUS
    ensures Total(c) == FullTotal(c) && IdleTime(c) == c.idle + c.iowait
  {
  }

  /** The ticks that are neither idle nor iowait. */
  function BusyTicks(c: Counters): nat {
    FullTotal(c) - c.idle - c.iowait
  }

  /**
   * While the total grows and nothing wraps, the two disagree exactly when idle or busy time runs
   * backwards; they then say 100 and 0. The delta is valid all the same.
   */
  lemma BackwardTimeSplitsThem(previous: Counters, current: Counters)
    requires FullTotal(previous) < FullTotal(current) < 0x1_0000_0000_0000_0000
    ensures var d, u := ComputeCpuDelta(previous, current), CpuUtilization(previous, current);
            && d.valid && u.Some?
            && (d.busy != u.value <==>
                  || current.idle + current.iowait < previous.idle + previous.iowait
                  || BusyTicks(current) < BusyTicks(previous))
            && (d.busy != u.value ==> d.busy == 100.0 && u.value == 0.0)
  {
    UnwrappedTotal(previous);
    UnwrappedTotal(current);
    AgreeUnlessIdleExceedsTotal(previous, current);
  }

  /** No counter decreased and no sum wrapped: how counters behave between two good readings. */
  predicate Monotone(previous: Counters, current: Counters) {
    && FullTotal(current) < 0x1_0000_0000_0000_0000
    && previous.user <= current.user && previous.nice <= current.nice
    && previous.system <= current.system && previous.idle <= current.idle
    && previous.iowait <= current.iowait && previous.irq <= current.irq
    && previous.softirq <= current.softirq && previous.steal <= current.steal
  }

  /** The exact share of a part. */
  function Exact(part: nat, total: nat): real
    requires total > 0
  {
    part as real / total as real * 100.0
  }

  lemma ShareIsExact(part: U64, total: U64)
    requires part <= total && total > 0
    ensures Share(part, total) == Exact(part, total)
  {
    if part == total { ExactWhole(total); }
  }

  lemma ExactAdds(a: nat, b: nat, total: nat)
    requires total > 0
    ensures Exact(a, total) + Exact(b, total) == Exact(a + b, total)
  {
    assert a as real / total as real + b as real / total as real == (a + b) as real / total as real;
  }

  lemma ExactWhole(total: nat)
    requires total > 0
    ensures Exact(total, total) == 100.0
  {
    var x := total as real;
    var q := x / x;
    assert q * x == x;
    assert (q - 1.0) * x == 0.0;
  }

  /** Eight parts of a whole have shares that add up to 100. */
  lemma SharesOfWhole(a: nat, b: nat, c: nat, d: nat, e: nat, f: nat, g: nat, h: nat, total: nat)
    requires total > 0 && a + b + c + d + e + f + g + h == total
    ensures Exact(a, total) + Exact(b, total) + Exact(c, total) + Exact(d, total)
            + Exact(e, total) + Exact(f, total) + Exact(g, total) + Exact(h, total) == 100.0
  {
    ExactAdds(a, b, total);
    ExactAdds(a + b, c, total);
    ExactAdds(a + b + c, d, total);
    ExactAdds(a + b + c + d, e, total);
    ExactAdds(a + b + c + d + e, f, total);
    ExactAdds(a + b + c + d + e + f, g, total);
    ExactAdds(a + b + c + d + e + f + g, h, total);
    ExactWhole(total);
  }

  /** The share of the busy ticks is what idle and iowait leave of the whole. */
  lemma BusyShareIsRest(total: U64, idle: U64, iowait: U64)
    requires total > 0 && idle + iowait <= total
    ensures BusyShare(total, idle + iowait) == 100.0 - Share(idle, total) - Share(iowait, total)
  {
    var rest := total - idle - iowait;
    ShareIsExact(rest, total);
    ShareIsExact(idle, total);
    ShareIsExact(iowait, total);
    ExactAdds(idle, iowait, total);
    ExactAdds(idle + iowait, rest, total);
    ExactWhole(total);
  }

  /** What elapsed between two monotone readings, per counter. */
  function Elapsed(previous: Counters, current: Counters): Counters
    requires Monotone(previous, current)
  {
    Counters(current.user - previous.user, current.nice - previous.nice, current.system - previous.system,
             current.idle - previous.idle, current.iowait - previous.iowait, current.irq - previous.irq,
             current.softirq - previous.softirq, current.steal - previous.steal)
  }

  lemma MonotoneDelta(previous: Counters, current: Counters)
    requires Monotone(previous, current) && FullTotal(previous) < FullTotal(current)
    ensures var e := Elapsed(previous, current);
            var total := FullTotal(e);
            && 0 < total < MODULUS && IdleTicks(previous, current) == e.idle + e.iowait <= total
            && ComputeCpuDelta(previous, current)
               == Delta(true, Share(e.user, total), Share(e.nice, total), Share(e.system, total),
                        Share(e.idle, total), Share(e.iowait, total), Share(e.irq, total),
                        Share(e.softirq, total), Share(e.steal, total), BusyShare(total, e.idle + e.iowait))
  {
    UnwrappedTotal(previous);
    UnwrappedTotal(current);
  }

  lemma SharesOfElapsed(e: Counters)
    requires 0 < FullTotal(e) < MODULUS
    ensures var total := FullTotal(e);
            Share(e.user, total) + Share(e.nice, total) + Share(e.system, total) + Share(e.idle, total)
            + Share(e.iowait, total) + Share(e.irq, total) + Share(e.softirq, total) + Share(e.steal, total)
              == 100.0
  {
    var total := FullTotal(e);
    ShareIsExact(e.user, total);
    ShareIsExact(e.nice, total);
    ShareIsExact(e.system, total);
    ShareIsExact(e.idle, total);
    ShareIsExact(e.iowait, total);
    ShareIsExact(e.irq, total);
    ShareIsExact(e.softirq, total);
    ShareIsExact(e.steal, total);
    SharesOfWhole(e.user, e.nice, e.system, e.idle, e.iowait, e.irq, e.softirq, e.steal, total);
  }

  /** The eight shares together. */
  function ShareSum(d: Delta): real {
    d.user + d.nice + d.system + d.idle + d.iowait + d.irq + d.softirq + d.steal
  }

  function ExactDelta(e: Counters, total: nat, busy: real): Delta
    requires total > 0
  {
    Delta(true, Exact(e.user, total), Exact(e.nice, total), Exact(e.system, total), Exact(e.idle, total),
          Exact(e.iowait, total), Exact(e.irq, total), Exact(e.softirq, total), Exact(e.steal, total), busy)
  }

  lemma SharesAreExact(e: Counters, busy: real)
    requires 0 < FullTotal(e) < MODULUS
    ensures var total := FullTotal(e);
            Delta(true, Share(e.user, total), Share(e.nice, total), Share(e.system, total), Share(e.idle, total),
                  Share(e.iowait, total), Share(e.irq, total), Share(e.softirq, total), Share(e.steal, total), busy)
            == ExactDelta(e, total, busy)
  {
    var total := FullTotal(e);
    ShareIsExact(e.user, total);
    ShareIsExact(e.nice, total);
    ShareIsExact(e.system, total);
    ShareIsExact(e.idle, total);
    ShareIsExact(e.iowait, total);
    ShareIsExact(e.irq, total);
    ShareIsExact(e.softirq, total);
    ShareIsExact(e.steal, total);
  }

  /** Then each share is the exact part of the elapsed ticks that its own counter advanced by. */
  lemma MonotoneSharesAreExact(previous: Counters, current: Counters)
    requires Monotone(previous, current) && FullTotal(previous) < FullTotal(current)
    ensures var d := ComputeCpuDelta(previous, current);
            d == ExactDelta(Elapsed(previous, current), FullTotal(Elapsed(previous, current)), d.busy)
  {
    var e := Elapsed(previous, current);
    MonotoneDelta(previous, current);
    SharesAreExact(e, ComputeCpuDelta(previous, current).busy);
  }

  /** Then the eight shares add up to 100, busy is what idle leaves, and both computations agree. */
  lemma MonotoneSharesAddUp(previous: Counters, current: Counters)
    requires Monotone(previous, current) && FullTotal(previous) < FullTotal(current)
    ensures var d := ComputeCpuDelta(previous, current);
            && d.valid
            && ShareSum(d) == 100.0
            && d.busy == 100.0 - d.idle - d.iowait
            && CpuUtilization(previous, current) == Some(d.busy)
  {
    var e := Elapsed(previous, current);
    MonotoneDelta(previous, current);
    SharesOfElapsed(e);
    BusyShareIsRest(FullTotal(e), e.idle, e.iowait);
    UnwrappedTotal(previous);
    UnwrappedTotal(current);
    AgreeUnlessIdleExceedsTotal(previous, current);
  }

  lemma ExactIsPositive(part: nat, total: nat)
    requires 0 < part && 0 < total
    ensures Exact(part, total) > 0.0
  {
    var q := part as real / total as real;
    assert q * total as real == part as real;
    assert q <= 0.0 ==> q * total as real <= 0.0;
  }

  /** A counter that advanced has a share, and one that ran backwards has all of it. */
  lemma ShareOfCounter(before: U64, after: U64, total: U64)
    requires total > 0 && (after < before ==> before - after + total < MODULUS)
    ensures Share(Minus(after, before), total) >= 0.0
    ensures before < after ==> Share(Minus(after, before), total) > 0.0
    ensures after < before ==> Share(Minus(after, before), total) == 100.0
  {
    ShareIsPercent(Minus(after, before), total);
    if before < after { ExactIsPositive(after - before, total); }
  }

  lemma BackwardSharesExceed(previous: Counters, current: Counters)
    requires FullTotal(previous) < FullTotal(current) < MODULUS && !Monotone(previous, current)
    ensures ShareSum(ComputeCpuDelta(previous, current)) > 100.0
  {
    UnwrappedTotal(previous);
    UnwrappedTotal(current);
    var total := Total(current) - Total(previous);
    ShareOfCounter(previous.user, current.user, total);
    ShareOfCounter(previous.nice, current.nice, total);
    ShareOfCounter(previous.system, current.system, total);
    ShareOfCounter(previous.idle, current.idle, total);
    ShareOfCounter(previous.iowait, current.iowait, total);
    ShareOfCounter(previous.irq, current.irq, total);
    ShareOfCounter(previous.softirq, current.softirq, total);
    ShareOfCounter(previous.steal, current.steal, total);
  }

  /**
   * While the total grows and nothing wraps the delta is valid, whichever counter decreases; its
   * eight shares add up to 100 exactly when none does.
   */
  lemma SharesAddUpExactly(previous: Counters, current: Counters)
    requires FullTotal(previous) < FullTotal(current) < 0x1_0000_0000_0000_0000
    ensures ComputeCpuDelta(previous, current).valid
    ensures ShareSum(ComputeCpuDelta(previous, current)) == 100.0 <==> Monotone(previous, current)
  {
    UnwrappedTotal(previous);
    UnwrappedTotal(current);
    if Monotone(previous, current) {
      MonotoneSharesAddUp(previous, current);
    } else {
      BackwardSharesExceed(previous, current);
    }
  }
}
