/**
 * Which identities the link-state monitor holds after a tick, and why the cardinality test that
 * guards the disappearance loop is right for distinct identities and only for them.
 */
module LinkStateTracked {
  import opened Wrappers
  import opened Sequences
  import opened Eviction
  import opened LinkState

  /** No two interfaces of the snapshot share an identity. */
  ghost predicate DistinctIdentities(infos: seq<LinkInfo>) {
    forall i, j | 0 <= i < j < |infos| :: Identity(infos[i]) != Identity(infos[j])
  }

  predicate Here(m: Monitor, id: string) {
    id in m.tracked && m.tracked[id].present
  }

  lemma IdentitiesOfPrefix(infos: seq<LinkInfo>)
    requires infos != []
    ensures Identities(infos) == Identities(infos[..|infos| - 1]) + {Identity(infos[|infos| - 1])}
  {
    var n := |infos| - 1;
    forall id | id in Identities(infos) ensures id in Identities(infos[..n]) + {Identity(infos[n])} {
      var i :| 0 <= i < |infos| && Identity(infos[i]) == id;
      assert i < n ==> Identity(infos[..n][i]) == id;
    }
    forall id | id in Identities(infos[..n]) ensures id in Identities(infos) {
      var i :| 0 <= i < n && Identity(infos[..n][i]) == id;
      assert Identity(infos[i]) == id;
    }
  }

  lemma ProcessOneTracks(m: Monitor, info: LinkInfo, now: int)
    ensures var p := ProcessOne(m, info, now);
            && p.tracked.Keys == m.tracked.Keys + {Identity(info)}
            && p.tracked[Identity(info)].present
            && (forall id | id != Identity(info) :: Get(p, id) == Get(m, id))
  {
  }

  lemma {:induction false} ProcessAllTracks(m: Monitor, infos: seq<LinkInfo>, now: int)
    ensures var p := ProcessAll(m, infos, now);
            && p.tracked.Keys == m.tracked.Keys + Identities(infos)
            && (forall id | id in Identities(infos) :: p.tracked[id].present)
            && (forall id | id !in Identities(infos) :: Get(p, id) == Get(m, id))
  {
    if infos != [] {
      var n := |infos| - 1;
      ProcessAllTracks(m, infos[..n], now);
      var p := ProcessAll(m, infos[..n], now);
      ProcessOneTracks(p, infos[n], now);
      IdentitiesOfPrefix(infos);
      var p' := ProcessAll(m, infos, now);
      forall id | id in Identities(infos) ensures p'.tracked[id].present {
        assert id != Identity(infos[n]) ==> Get(p', id) == Get(p, id);
      }
    }
  }

  lemma {:induction false} MarkAllTracks(m: Monitor, order: seq<string>, listed: set<string>, now: int)
    ensures var q := MarkAll(m, order, listed, now);
            && q.tracked.Keys == m.tracked.Keys
            && (forall id | id in listed || id !in order :: Get(q, id) == Get(m, id))
            && (forall id | id in m.tracked && id in order && id !in listed :: !q.tracked[id].present)
  {
    if order != [] {
      var n := |order| - 1;
      MarkAllTracks(m, order[..n], listed, now);
      assert order == order[..n] + [order[n]];
    }
  }

  lemma {:induction false} IdentityCount(infos: seq<LinkInfo>)
    ensures |Identities(infos)| <= |infos|
    ensures DistinctIdentities(infos) ==> |Identities(infos)| == |infos|
  {
    var ids := seq(|infos|, i requires 0 <= i < |infos| => Identity(infos[i]));
    assert Identities(infos) == set id | id in ids by {
      forall id | id in Identities(infos) ensures id in ids {
        var i :| 0 <= i < |infos| && Identity(infos[i]) == id;
        assert ids[i] == id;
      }
    }
    ElementsAtMostPositions(ids);
    if DistinctIdentities(infos) {
      assert Distinct(ids);
      DistinctCardinality(ids);
    }
  }

  /**
   * The test `tracked_.size() > present.size()` before the loop: for distinct identities it says that
   * someone tracked is not in the snapshot. In general it fires only if that is so.
   */
  lemma GuardMeansVanished(m: Monitor, infos: seq<LinkInfo>, now: int)
    ensures var p := ProcessAll(m, infos, now);
            var vanished := exists id :: id in p.tracked && id !in Identities(infos);
            && (|p.tracked| > |infos| ==> vanished)
            && (DistinctIdentities(infos) ==> (|p.tracked| > |infos| <==> vanished))
  {
    ProcessAllTracks(m, infos, now);
    IdentityCount(infos);
    var p := ProcessAll(m, infos, now);
    SubsetCardinality(Identities(infos), p.tracked.Keys);
    assert |p.tracked| == |p.tracked.Keys|;
  }

  /**
   * For any snapshot, repeated identities or not: a tick leaves exactly the listed identities marked
   * present just when the test fires, or nobody who was present is missing from the snapshot.
   */
  lemma PresenceIsListed(m: Monitor, infos: seq<LinkInfo>, now: int, choice: Choice)
    requires Possible(m, infos, now, choice)
    ensures var p, q := ProcessAll(m, infos, now), Marked(m, infos, now, choice);
            (forall id | id in q.tracked :: q.tracked[id].present <==> id in Identities(infos))
            <==> (|p.tracked| > |infos| || forall id | Here(m, id) :: id in Identities(infos))
  {
    var p, q := ProcessAll(m, infos, now), Marked(m, infos, now, choice);
    ProcessAllTracks(m, infos, now);
    MarkAllTracks(p, choice.order, Identities(infos), now);
    if |p.tracked| > |infos| {
      forall id | id in q.tracked ensures q.tracked[id].present <==> id in Identities(infos) {
        assert id in Identities(infos) ==> Get(q, id) == Get(p, id);
      }
    } else {
      forall id | id in q.tracked && id !in Identities(infos) ensures q.tracked[id].present == Here(m, id) {
        assert Get(q, id) == Get(m, id);
      }
      forall id | Here(m, id) ensures id in q.tracked {
      }
    }
  }

  lemma AllStayPresent(m: Monitor, infos: seq<LinkInfo>, now: int)
    requires forall id | id in m.tracked :: m.tracked[id].present
    ensures var p := ProcessAll(m, infos, now);
            forall id | id in p.tracked :: p.tracked[id].present
  {
    var p := ProcessAll(m, infos, now);
    ProcessAllTracks(m, infos, now);
    forall id | id in p.tracked ensures p.tracked[id].present {
      assert id !in Identities(infos) ==> Get(p, id) == Get(m, id);
    }
  }

  /** A tick that leaves no more records than list positions, all present, marks and erases nobody. */
  lemma UnmarkedTick(m: Monitor, infos: seq<LinkInfo>, now: int, order: seq<string>)
    requires forall id | id in m.tracked :: m.tracked[id].present
    requires Distinct(order) && forall id :: id in order <==> id in m.tracked.Keys + Identities(infos)
    requires |m.tracked.Keys + Identities(infos)| <= |infos| <= CAPACITY
    ensures Possible(m, infos, now, Choice(order, []))
    ensures Updated(m, infos, now, Choice(order, [])) == ProcessAll(m, infos, now)
  {
    var p := ProcessAll(m, infos, now);
    ProcessAllTracks(m, infos, now);
    AllStayPresent(m, infos, now);
    assert |p.tracked| == |p.tracked.Keys|;
    assert Marked(m, infos, now, Choice(order, [])) == p;
    assert OldestFirst([], Held(p));
  }

  lemma PairIdentities(a: LinkInfo, b: LinkInfo)
    ensures Identities([a, b]) == {Identity(a), Identity(b)}
  {
    var infos := [a, b];
    assert infos[0] == a && infos[1] == b;
  }

  lemma TwoNewcomers(m: Monitor, infos: seq<LinkInfo>, now: int, order: seq<string>)
    requires m.tracked == map[] && |infos| == 2 && |Identities(infos)| <= 2
    requires Distinct(order) && forall id :: id in order <==> id in Identities(infos)
    ensures Possible(m, infos, now, Choice(order, []))
    ensures var m' := Updated(m, infos, now, Choice(order, []));
            m'.tracked.Keys == Identities(infos) && forall id | id in m'.tracked :: m'.tracked[id].present
  {
    assert m.tracked.Keys + Identities(infos) == Identities(infos);
    UnmarkedTick(m, infos, now, order);
    ProcessAllTracks(m, infos, now);
    AllStayPresent(m, infos, now);
  }

  /** With a repeated identity the test can miss a vanished interface, which then stays marked present. */
  lemma RepeatedIdentityHidesRemoval(m: Monitor, infos: seq<LinkInfo>, now: int, order: seq<string>, other: string)
    requires forall id | id in m.tracked :: m.tracked[id].present
    requires other in m.tracked && other !in Identities(infos) && Identities(infos) <= m.tracked.Keys
    requires |m.tracked| <= |infos| <= CAPACITY
    requires Distinct(order) && forall id :: id in order <==> id in m.tracked
    ensures Possible(m, infos, now, Choice(order, []))
    ensures Here(Updated(m, infos, now, Choice(order, [])), other)
  {
    assert m.tracked.Keys + Identities(infos) == m.tracked.Keys;
    assert |m.tracked| == |m.tracked.Keys|;
    ProcessAllTracks(m, infos, now);
    AllStayPresent(m, infos, now);
    UnmarkedTick(m, infos, now, order);
  }

  lemma LessOneMore(tracked: map<string, Tracked>, ids: seq<string>, id: string)
    ensures tracked - (set x | x in ids) - {id} == tracked - set x | x in ids + [id]
  {
    assert (set x | x in ids + [id]) == (set x | x in ids) + {id};
  }

  lemma {:induction false} EraseAllTracks(m: Monitor, ids: seq<string>)
    ensures EraseAll(m, ids).tracked == m.tracked - set id | id in ids
  {
    if ids == [] {
      assert (set id | id in ids) == {};
    } else {
      var front, last := ids[..|ids| - 1], ids[|ids| - 1];
      assert ids == front + [last];
      EraseAllTracks(m, front);
      LessOneMore(m.tracked, front, last);
    }
  }

  /**
   * Before eviction: the tracked identities are the old and the new ones, the listed ones present. If
   * the size test fired no other is present, else there are no more of them than list positions.
   */
  lemma MarkedTracks(m: Monitor, infos: seq<LinkInfo>, now: int, choice: Choice)
    requires Possible(m, infos, now, choice)
    ensures var p, q := ProcessAll(m, infos, now), Marked(m, infos, now, choice);
            && q.tracked.Keys == m.tracked.Keys + Identities(infos)
            && (forall id | id in Identities(infos) :: Get(q, id) == Get(p, id) && Here(q, id))
            && (OnlyListed(q, infos) || |q.tracked| <= |infos|)
  {
    var p, q := ProcessAll(m, infos, now), Marked(m, infos, now, choice);
    ProcessAllTracks(m, infos, now);
    MarkAllTracks(p, choice.order, Identities(infos), now);
    if |p.tracked| > |infos| {
      assert OnlyListed(q, infos);
    }
    forall id | id in Identities(infos) ensures Get(q, id) == Get(p, id) && Here(q, id) {
      assert Here(p, id);
    }
  }

  /** Nobody is present but the listed. */
  ghost predicate OnlyListed(m: Monitor, infos: seq<LinkInfo>) {
    forall id | Here(m, id) :: id in Identities(infos)
  }

  /** Erasing the oldest vanished records keeps the present ones and restores the bound if it can. */
  lemma ErasureTracks(q: Monitor, gone: seq<string>)
    requires OldestFirst(gone, Held(q))
    ensures var m' := EraseAll(q, Evicted(|q.tracked|, gone));
            && m'.tracked.Keys <= q.tracked.Keys
            && (forall id | id in m'.tracked :: m'.tracked[id] == q.tracked[id])
            && (forall id | id in q.tracked && q.tracked[id].present :: id in m'.tracked)
            && (|m'.tracked| <= CAPACITY || forall id | id in m'.tracked :: m'.tracked[id].present)
            && (m'.tracked == q.tracked || |m'.tracked| >= CAPACITY)
            && (forall out, kept | out in q.tracked && out !in m'.tracked
                                   && kept in m'.tracked && !m'.tracked[kept].present ::
                  q.tracked[out].lastChange <= m'.tracked[kept].lastChange)
  {
    var held := Held(q);
    var m' := EraseAll(q, Evicted(|q.tracked|, gone));
    assert held.Keys == q.tracked.Keys && |held| == |held.Keys| == |q.tracked.Keys| == |q.tracked|;
    EraseAllTracks(q, Evicted(|q.tracked|, gone));
    assert m'.tracked.Keys == Survivors(held, gone);
    EvictionKeepsBound(held, gone);
    assert |m'.tracked| == |m'.tracked.Keys|;
    forall id | id in q.tracked && q.tracked[id].present ensures id in m'.tracked {
      assert id in Present(held);
    }
    forall out, kept | out in q.tracked && out !in m'.tracked && kept in m'.tracked && !m'.tracked[kept].present
      ensures q.tracked[out].lastChange <= m'.tracked[kept].lastChange
    {
      EvictionTakesOldest(held, gone, out, kept);
    }
  }

  /**
   * After any tick, repeated identities or not: every identity of the snapshot has a record, at most
   * max(64, snapshot size) records are kept, a vanished record goes only when the bound is exceeded,
   * and then no younger than one that stays.
   */
  lemma TickKeepsBound(m: Monitor, infos: seq<LinkInfo>, now: int, choice: Choice)
    requires Possible(m, infos, now, choice)
    ensures var q, m' := Marked(m, infos, now, choice), Updated(m, infos, now, choice);
            && Identities(infos) <= m'.tracked.Keys <= q.tracked.Keys == m.tracked.Keys + Identities(infos)
            && (forall id | id in Identities(infos) :: Here(m', id))
            && (|m'.tracked| <= 64 || |m'.tracked| <= |infos|)
            && (m'.tracked == q.tracked || |m'.tracked| >= 64)
            && (forall out, kept | out in q.tracked && out !in m'.tracked
                                   && kept in m'.tracked && !m'.tracked[kept].present ::
                  q.tracked[out].lastChange <= m'.tracked[kept].lastChange)
  {
    MarkedTracks(m, infos, now, choice);
    ErasureTracks(Marked(m, infos, now, choice), choice.gone);
    KeptAreListed(m, infos, now, choice);
  }

  /** What the next tick meets: nobody unlisted is present, or the records are no more than the list. */
  lemma KeptAreListed(m: Monitor, infos: seq<LinkInfo>, now: int, choice: Choice)
    requires Possible(m, infos, now, choice)
    ensures var m' := Updated(m, infos, now, choice);
            && (OnlyListed(m', infos) || |m'.tracked| <= |infos|)
            && (|m'.tracked| <= CAPACITY || forall id | id in m'.tracked :: m'.tracked[id].present)
            && (|m'.tracked| <= CAPACITY || |m'.tracked| <= |infos|)
  {
    var q, m' := Marked(m, infos, now, choice), Updated(m, infos, now, choice);
    MarkedTracks(m, infos, now, choice);
    ErasureTracks(q, choice.gone);
    IdentityCount(infos);
    if OnlyListed(q, infos) {
      assert OnlyListed(m', infos);
      if |m'.tracked| > CAPACITY { SubsetCardinality(m'.tracked.Keys, Identities(infos)); }
    } else {
      SubsetCardinality(m'.tracked.Keys, q.tracked.Keys);
    }
    assert |m'.tracked| == |m'.tracked.Keys| && |q.tracked| == |q.tracked.Keys|;
  }

  /** After a tick with distinct identities the records present are exactly those of the snapshot. */
  lemma TickTracks(m: Monitor, infos: seq<LinkInfo>, now: int, choice: Choice)
    requires DistinctIdentities(infos) && Possible(m, infos, now, choice)
    ensures var m' := Updated(m, infos, now, choice);
            && (forall id :: Here(m', id) <==> id in Identities(infos))
            && (|m'.tracked| <= 64 || |m'.tracked| == |infos|)
  {
    var m' := Updated(m, infos, now, choice);
    TickKeepsBound(m, infos, now, choice);
    KeptAreListed(m, infos, now, choice);
    IdentityCount(infos);
    SubsetCardinality(Identities(infos), m'.tracked.Keys);
    assert |m'.tracked| == |m'.tracked.Keys|;
  }
}
