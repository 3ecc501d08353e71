/** The bounded sample buffer behind every time series (include/resource_history.hpp). */
module ResourceHistory {
  import opened Sequences

  /** What a buffer of bound `max` should hold of everything ever added: 0 means no bound at all. */
  function Bounded<T>(log: seq<T>, max: nat): seq<T> {
    if max == 0 then log else LastN(log, max)
  }

  /** A ring held by value inside another record, as the per-mount histories hold theirs. */
  datatype Ring<T> = Ring(maxSamples: nat, buffer: seq<T>) {
    function Add(sample: T): Ring<T> {
      if maxSamples != 0 && |buffer| >= maxSamples
      then Ring(maxSamples, buffer[1..] + [sample])
      else Ring(maxSamples, buffer + [sample])
    }
  }

  /** Adding to the ring is adding to the unbounded log and forgetting all but its tail. */
  lemma AddFollowsLog<T>(ring: Ring<T>, log: seq<T>, sample: T)
    requires ring.buffer == Bounded(log, ring.maxSamples)
    ensures ring.Add(sample).buffer == Bounded(log + [sample], ring.maxSamples)
  {
    var n := ring.maxSamples;
    if n != 0 && |log| >= n {
      assert (log + [sample])[|log| + 1 - n..] == log[|log| - n..][1..] + [sample];
    }
  }

  function Repeated<T>(x: T, n: nat): seq<T> {
    seq(n, i => x)
  }

  /** The buffer keeps to its bound whatever is added exactly when the bound is not 0: 0 never drops. */
  lemma BoundNeedsOne<T(!new)>(max: nat, x: T)
    ensures (forall log: seq<T> :: |Bounded(log, max)| <= max) <==> max >= 1
  {
    assert |Bounded(Repeated(x, 1), 0)| == 1;
  }

  class ResourceHistory<T> {
    const maxSamples: nat
    var buffer: seq<T>
    ghost var log: seq<T>  // every sample since construction or the last Clear

    ghost predicate Valid()
      reads this
    {
      buffer == Bounded(log, maxSamples)
    }

    constructor (max: nat)
      ensures Valid() && maxSamples == max && log == []
    {
      maxSamples, buffer, log := max, [], [];
    }

    method AddSample(sample: T)
      requires Valid()
      modifies this
      ensures Valid() && log == old(log) + [sample]
    {
      AddFollowsLog(Ring(maxSamples, buffer), log, sample);
      if maxSamples != 0 && |buffer| >= maxSamples {
        buffer := buffer[1..];
      }
      buffer := buffer + [sample];
      log := log + [sample];
    }

    method Clear()
      modifies this
      ensures Valid() && log == []
    {
      buffer, log := [], [];
    }
  }
}
