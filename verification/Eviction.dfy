/**
 * The retention rule that the link-state and the hardware monitor share: vanished identities are
 * kept, but above 64 records the oldest vanished ones go (src/network_link_state.cpp:395-420,
 * src/network_interface_hardware.cpp:305-342).
 */
module Eviction {
  import opened Sequences

  const CAPACITY: nat := 64

  /** What the rule looks at in a record: is the identity still there, and since when is it as it is. */
  datatype Retained = Retained(present: bool, stamp: int)

  /**
   * The sorted vector of vanished identities. `std::sort` leaves the order of equal stamps open, so
   * this is a predicate and not a function.
   */
  ghost predicate OldestFirst(gone: seq<string>, held: map<string, Retained>) {
    && Distinct(gone)
    && (forall id :: id in gone <==> id in held && !held[id].present)
    && (forall i, j | 0 <= i < j < |gone| :: held[gone[i]].stamp <= held[gone[j]].stamp)
  }

  /** The part of the sorted vector that is erased. */
  function Evicted(size: nat, gone: seq<string>): seq<string> {
    if size <= CAPACITY then []
    else if size - CAPACITY >= |gone| then gone
    else gone[..size - CAPACITY]
  }

  ghost function Survivors(held: map<string, Retained>, gone: seq<string>): set<string> {
    held.Keys - set id | id in Evicted(|held|, gone)
  }

  ghost function Present(held: map<string, Retained>): set<string> {
    set id | id in held && held[id].present
  }

  /** Live records stay; what stays fits the bound or is all live; no more is erased than needed. */
  lemma EvictionKeepsBound(held: map<string, Retained>, gone: seq<string>)
    requires OldestFirst(gone, held)
    ensures Present(held) <= Survivors(held, gone) <= held.Keys
    ensures |Survivors(held, gone)| <= CAPACITY || Survivors(held, gone) == Present(held)
    ensures Survivors(held, gone) == held.Keys || |Survivors(held, gone)| >= CAPACITY
  {
    var out := set id | id in Evicted(|held|, gone);
    DistinctCardinality(Evicted(|held|, gone));
    assert out <= held.Keys;
    assert held.Keys == Survivors(held, gone) + out;
    assert |held| == |held.Keys| == |Survivors(held, gone)| + |out|;
    if |held| > CAPACITY && |held| - CAPACITY >= |gone| {
      assert Survivors(held, gone) == Present(held);
    }
  }

  /** Nothing erased is younger than a vanished record that stays. */
  lemma EvictionTakesOldest(held: map<string, Retained>, gone: seq<string>, out: string, kept: string)
    requires OldestFirst(gone, held)
    requires out in Evicted(|held|, gone)
    requires kept in Survivors(held, gone) && !held[kept].present
    ensures out in held && held[out].stamp <= held[kept].stamp
  {
    var erased := Evicted(|held|, gone);
    var i :| 0 <= i < |erased| && erased[i] == out;
    var j :| 0 <= j < |gone| && gone[j] == kept;
    assert forall k | 0 <= k < |erased| :: erased[k] == gone[k] && erased[k] in erased;
  }

  lemma {:induction false} OldestExists(ids: set<string>, held: map<string, Retained>) returns (oldest: string)
    requires ids != {} && ids <= held.Keys
    ensures oldest in ids && forall id | id in ids :: held[oldest].stamp <= held[id].stamp
  {
    var id :| id in ids;
    if ids == {id} {
      oldest := id;
    } else {
      var rest := OldestExists(ids - {id}, held);
      oldest := if held[id].stamp <= held[rest].stamp then id else rest;
    }
  }

  /** Collects the vanished identities and sorts them. */
  method SortGone(held: map<string, Retained>) returns (gone: seq<string>)
    ensures OldestFirst(gone, held)
  {
    gone := [];
    var pending := set id | id in held && !held[id].present;
    while pending != {}
      invariant pending <= held.Keys
      invariant Distinct(gone)
      invariant forall id :: id in gone || id in pending <==> id in held && !held[id].present
      invariant forall i | 0 <= i < |gone| :: gone[i] !in pending
      invariant forall i, j | 0 <= i < j < |gone| :: held[gone[i]].stamp <= held[gone[j]].stamp
      invariant forall i, id | 0 <= i < |gone| && id in pending :: held[gone[i]].stamp <= held[id].stamp
      decreases pending
    {
      ghost var least := OldestExists(pending, held);
      var oldest :| oldest in pending && forall id | id in pending :: held[oldest].stamp <= held[id].stamp;
      gone := gone + [oldest];
      pending := pending - {oldest};
    }
  }
}
