/**
 * An unreadable tick is invisible: repeating the interfaces of the tick before it with no readable
 * link field changes nothing that is logged, alerted, tracked or evicted, then or ever after.
 */
module LinkStateStutter {
  import opened Wrappers
  import opened Sequences
  import opened Eviction
  import opened LinkState
  import opened LinkStateTracked
  import opened LinkStateRuns
  import AM = AlertManager

  /** The same interfaces, with none of the three link fields readable. */
  function Blank(info: LinkInfo): LinkInfo {
    info.(operstate := None, carrier := None, flags := None)
  }

  function BlankAll(infos: seq<LinkInfo>): seq<LinkInfo> {
    seq(|infos|, i requires 0 <= i < |infos| => Blank(infos[i]))
  }

  /** Equal but for the display flag "readable this tick". */
  ghost predicate Similar(a: Monitor, b: Monitor) {
    && a.alerts == b.alerts && a.history == b.history && a.log == b.log
    && a.tracked.Keys == b.tracked.Keys
    && forall id | id in a.tracked ::
         a.tracked[id].(linkKnown := false) == b.tracked[id].(linkKnown := false)
  }

  // ---- Similar monitors stay similar ----

  lemma ProcessOneSimilar(a: Monitor, b: Monitor, info: LinkInfo, now: int)
    requires Similar(a, b)
    ensures Similar(ProcessOne(a, info, now), ProcessOne(b, info, now))
  {
    var id := Identity(info);
    if id in a.tracked {
      assert a.tracked[id].(linkKnown := false) == b.tracked[id].(linkKnown := false);
    }
    var x, y := Observe(Get(a, id), info, now), Observe(Get(b, id), info, now);
    assert x == y;
  }

  lemma {:induction false} ProcessAllSimilar(a: Monitor, b: Monitor, infos: seq<LinkInfo>, now: int)
    requires Similar(a, b)
    ensures Similar(ProcessAll(a, infos, now), ProcessAll(b, infos, now))
  {
    if infos != [] {
      var n := |infos| - 1;
      ProcessAllSimilar(a, b, infos[..n], now);
      ProcessOneSimilar(ProcessAll(a, infos[..n], now), ProcessAll(b, infos[..n], now), infos[n], now);
    }
  }

  lemma MarkOneSimilar(a: Monitor, b: Monitor, id: string, listed: set<string>, now: int)
    requires Similar(a, b)
    ensures Similar(MarkOne(a, id, listed, now), MarkOne(b, id, listed, now))
  {
    if id in a.tracked {
      assert a.tracked[id].(linkKnown := false) == b.tracked[id].(linkKnown := false);
    }
  }

  lemma {:induction false} MarkAllSimilar(a: Monitor, b: Monitor, order: seq<string>, listed: set<string>, now: int)
    requires Similar(a, b)
    ensures Similar(MarkAll(a, order, listed, now), MarkAll(b, order, listed, now))
  {
    if order != [] {
      var n := |order| - 1;
      MarkAllSimilar(a, b, order[..n], listed, now);
      MarkOneSimilar(MarkAll(a, order[..n], listed, now), MarkAll(b, order[..n], listed, now), order[n], listed, now);
    }
  }

  lemma {:induction false} EraseAllSimilar(a: Monitor, b: Monitor, ids: seq<string>)
    requires Similar(a, b)
    ensures Similar(EraseAll(a, ids), EraseAll(b, ids))
  {
    if ids != [] {
      EraseAllSimilar(a, b, ids[..|ids| - 1]);
    }
  }

  lemma SimilarHeld(a: Monitor, b: Monitor)
    requires Similar(a, b)
    ensures Held(a) == Held(b) && |a.tracked| == |b.tracked|
  {
    forall id | id in a.tracked ensures Held(a)[id] == Held(b)[id] {
      assert a.tracked[id].(linkKnown := false) == b.tracked[id].(linkKnown := false);
    }
    assert |a.tracked| == |a.tracked.Keys| && |b.tracked| == |b.tracked.Keys|;
  }

  lemma UpdatedSimilar(a: Monitor, b: Monitor, infos: seq<LinkInfo>, now: int, choice: Choice)
    requires Similar(a, b) && Possible(a, infos, now, choice)
    ensures Possible(b, infos, now, choice)
    ensures Similar(Updated(a, infos, now, choice), Updated(b, infos, now, choice))
  {
    var p, p' := ProcessAll(a, infos, now), ProcessAll(b, infos, now);
    ProcessAllSimilar(a, b, infos, now);
    SimilarHeld(p, p');
    MarkAllSimilar(p, p', choice.order, Identities(infos), now);
    var q, q' := Marked(a, infos, now, choice), Marked(b, infos, now, choice);
    assert Similar(q, q');
    SimilarHeld(q, q');
    EraseAllSimilar(q, q', Evicted(|q.tracked|, choice.gone));
  }

  lemma AfterSimilar(a: Monitor, b: Monitor, action: Action)
    requires Similar(a, b) && Allowed(a, action)
    ensures Allowed(b, action) && Similar(After(a, action), After(b, action))
  {
    match action
    case Tick(infos, now, choice) => UpdatedSimilar(a, b, infos, now, choice);
    case _ =>
  }

  lemma {:induction false} RunsSimilar(a: Monitor, b: Monitor, actions: seq<Action>)
    requires Similar(a, b) && RunAllowed(a, actions)
    ensures RunAllowed(b, actions) && Similar(Run(a, actions), Run(b, actions))
  {
    if actions != [] {
      var n := |actions| - 1;
      RunsSimilar(a, b, actions[..n]);
      AfterSimilar(Run(a, actions[..n]), Run(b, actions[..n]), actions[n]);
    }
  }

  // ---- The unreadable tick itself ----

  /** The name under which an identity was listed last, or `name` if it was not listed. */
  function NameAfter(infos: seq<LinkInfo>, id: string, name: string): string {
    if infos == [] then name
    else if Identity(infos[|infos| - 1]) == id then infos[|infos| - 1].name
    else NameAfter(infos[..|infos| - 1], id, name)
  }

  /** The records under the names of a listing. */
  function Renamed(m: Monitor, infos: seq<LinkInfo>): Monitor {
    m.(tracked := map id | id in m.tracked :: m.tracked[id].(name := NameAfter(infos, id, m.tracked[id].name)))
  }

  /** Every listed identity is tracked, present and known under the name it was listed with last. */
  ghost predicate Settled(m: Monitor, infos: seq<LinkInfo>) {
    && (forall id | id in Identities(infos) :: Here(m, id))
    && (forall id | id in m.tracked :: m.tracked[id].name == NameAfter(infos, id, m.tracked[id].name))
  }

  lemma ProcessOneNames(m: Monitor, info: LinkInfo, now: int)
    ensures ProcessOne(m, info, now).tracked[Identity(info)].name == info.name
  {
  }

  lemma {:induction false} ProcessAllNames(m: Monitor, infos: seq<LinkInfo>, now: int, id: string)
    requires id in ProcessAll(m, infos, now).tracked
    ensures var name := ProcessAll(m, infos, now).tracked[id].name;
            name == NameAfter(infos, id, name)
  {
    if infos != [] {
      var front, last := infos[..|infos| - 1], infos[|infos| - 1];
      ProcessOneNames(ProcessAll(m, front, now), last, now);
      if id != Identity(last) {
        ProcessOneTracks(ProcessAll(m, front, now), last, now);
        assert Get(ProcessAll(m, infos, now), id) == Get(ProcessAll(m, front, now), id);
        ProcessAllNames(m, front, now, id);
      }
    }
  }

  lemma {:induction false} UnlistedKeepsName(infos: seq<LinkInfo>, id: string, name: string)
    requires id !in Identities(infos)
    ensures NameAfter(infos, id, name) == name
  {
    if infos != [] {
      var n := |infos| - 1;
      IdentitiesOfPrefix(infos);
      UnlistedKeepsName(infos[..n], id, name);
    }
  }

  lemma TickSettles(m: Monitor, infos: seq<LinkInfo>, now: int, choice: Choice)
    requires Possible(m, infos, now, choice)
    ensures Settled(Updated(m, infos, now, choice), infos)
  {
    var p, q := ProcessAll(m, infos, now), Marked(m, infos, now, choice);
    var m' := Updated(m, infos, now, choice);
    TickKeepsBound(m, infos, now, choice);
    MarkedTracks(m, infos, now, choice);
    ErasureTracks(q, choice.gone);
    forall id | id in m'.tracked ensures m'.tracked[id].name == NameAfter(infos, id, m'.tracked[id].name) {
      if id in Identities(infos) {
        assert Get(q, id) == Get(p, id);
        ProcessAllNames(m, infos, now, id);
      } else {
        UnlistedKeepsName(infos, id, m'.tracked[id].name);
      }
    }
  }

  /** A record under another name, with nothing readable. */
  function Relisted(m: Monitor, id: string, name: string): Monitor
    requires id in m.tracked
  {
    m.(tracked := m.tracked[id := m.tracked[id].(linkKnown := false, name := name)])
  }

  lemma BlankOutcome(p: Monitor, info: LinkInfo, now: int)
    requires Here(p, Identity(info))
    ensures ProcessOne(p, Blank(info), now) == Relisted(p, Identity(info), info.name)
  {
    var id := Identity(info);
    assert Identity(Blank(info)) == id;
    assert p.tracked[id].(present := true) == p.tracked[id];
  }

  lemma RelistedSimilar(p: Monitor, r: Monitor, id: string, name: string)
    requires Similar(p, r) && id in r.tracked
    ensures Similar(Relisted(p, id, name), Relisted(r, id, name))
  {
  }

  lemma RenamedOneMore(m: Monitor, front: seq<LinkInfo>, info: LinkInfo)
    requires Identity(info) in m.tracked
    ensures Similar(Relisted(Renamed(m, front), Identity(info), info.name), Renamed(m, front + [info]))
  {
    var longer := front + [info];
    assert longer[..|front|] == front;
    assert forall id, name | id != Identity(info) :: NameAfter(longer, id, name) == NameAfter(front, id, name);
    assert forall name :: NameAfter(longer, Identity(info), name) == info.name;
  }

  lemma SimilarTwice(a: Monitor, b: Monitor, c: Monitor)
    requires Similar(a, b) && Similar(b, c)
    ensures Similar(a, c)
  {
  }

  lemma HereSimilar(a: Monitor, b: Monitor, id: string)
    requires Similar(a, b)
    ensures Here(a, id) == Here(b, id)
  {
    if id in a.tracked {
      assert a.tracked[id].(linkKnown := false) == b.tracked[id].(linkKnown := false);
    }
  }

  lemma BlankNext(m: Monitor, p: Monitor, front: seq<LinkInfo>, info: LinkInfo, now: int)
    requires Similar(p, Renamed(m, front)) && Here(m, Identity(info))
    ensures Similar(ProcessOne(p, Blank(info), now), Renamed(m, front + [info]))
  {
    var r, id := Renamed(m, front), Identity(info);
    assert Here(r, id);
    HereSimilar(p, r, id);
    BlankOutcome(p, info, now);
    RelistedSimilar(p, r, id, info.name);
    RenamedOneMore(m, front, info);
    SimilarTwice(Relisted(p, id, info.name), Relisted(r, id, info.name), Renamed(m, front + [info]));
  }

  lemma BlankOneMore(m: Monitor, front: seq<LinkInfo>, info: LinkInfo, now: int)
    requires Similar(ProcessAll(m, BlankAll(front), now), Renamed(m, front)) && Here(m, Identity(info))
    ensures Similar(ProcessAll(m, BlankAll(front + [info]), now), Renamed(m, front + [info]))
  {
    BlankNext(m, ProcessAll(m, BlankAll(front), now), front, info, now);
    assert BlankAll(front + [info]) == BlankAll(front) + [Blank(info)];
    ProcessOneMore(m, BlankAll(front), Blank(info), now);
  }

  lemma RenamedByNone(m: Monitor)
    ensures Renamed(m, []) == m
  {
  }

  /** Unreadable listings change names, one by one, and the flag "readable this tick"; nothing else. */
  lemma {:induction false} BlankProcessing(m: Monitor, infos: seq<LinkInfo>, now: int)
    requires forall id | id in Identities(infos) :: Here(m, id)
    ensures Similar(ProcessAll(m, BlankAll(infos), now), Renamed(m, infos))
  {
    if infos == [] {
      RenamedByNone(m);
    } else {
      var front, last := infos[..|infos| - 1], infos[|infos| - 1];
      IdentitiesOfPrefix(infos);
      BlankProcessing(m, front, now);
      BlankOneMore(m, front, last, now);
      assert infos == front + [last];
    }
  }

  lemma {:induction false} NothingToMark(m: Monitor, order: seq<string>, listed: set<string>, now: int)
    requires forall id | id in m.tracked && m.tracked[id].present :: id in listed
    ensures MarkAll(m, order, listed, now) == m
  {
    if order != [] {
      NothingToMark(m, order[..|order| - 1], listed, now);
    }
  }

  lemma BlankIdentities(infos: seq<LinkInfo>)
    ensures Identities(BlankAll(infos)) == Identities(infos)
  {
    var blank := BlankAll(infos);
    assert forall i | 0 <= i < |infos| :: Identity(blank[i]) == Identity(infos[i]);
    forall id | id in Identities(infos) ensures id in Identities(blank) {
      var i :| 0 <= i < |infos| && Identity(infos[i]) == id;
      assert Identity(blank[i]) == id;
    }
  }

  lemma NoneGone(gone: seq<string>, held: map<string, Retained>)
    requires OldestFirst(gone, held) && forall id | id in held :: held[id].present
    ensures gone == []
  {
    DistinctCardinality(gone);
    assert (set id | id in gone) == {};
  }

  /** The guard does not fire, or finds everybody listed: no record is marked. */
  lemma BlankMarking(m: Monitor, p: Monitor, infos: seq<LinkInfo>, now: int, order: seq<string>)
    requires Similar(p, m)
    requires OnlyListed(m, infos) || |m.tracked| <= |infos|
    ensures |p.tracked| > |infos| ==> MarkAll(p, order, Identities(infos), now) == p
  {
    SimilarHeld(p, m);
    if |p.tracked| > |infos| {
      forall id | id in p.tracked && p.tracked[id].present ensures id in Identities(infos) {
        assert p.tracked[id].(linkKnown := false) == m.tracked[id].(linkKnown := false);
        assert Here(m, id);
      }
      NothingToMark(p, order, Identities(infos), now);
    }
  }

  lemma BlankListing(m: Monitor, infos: seq<LinkInfo>, now: int, choice: Choice)
    requires Settled(m, infos)
    requires OnlyListed(m, infos) || |m.tracked| <= |infos|
    ensures var p := ProcessAll(m, BlankAll(infos), now);
            Similar(p, m) && Marked(m, BlankAll(infos), now, choice) == p
  {
    BlankProcessing(m, infos, now);
    assert Renamed(m, infos) == m;
    BlankIdentities(infos);
    BlankMarking(m, ProcessAll(m, BlankAll(infos), now), infos, now, choice.order);
  }

  lemma BlankTick(m: Monitor, infos: seq<LinkInfo>, now: int, choice: Choice)
    requires Settled(m, infos)
    requires OnlyListed(m, infos) || |m.tracked| <= |infos|
    requires |m.tracked| <= CAPACITY || forall id | id in m.tracked :: m.tracked[id].present
    requires Possible(m, BlankAll(infos), now, choice)
    ensures Similar(Updated(m, BlankAll(infos), now, choice), m)
  {
    BlankListing(m, infos, now, choice);
    var p := Marked(m, BlankAll(infos), now, choice);
    SimilarHeld(p, m);
    if |m.tracked| > CAPACITY { NoneGone(choice.gone, Held(p)); }
    assert Evicted(|p.tracked|, choice.gone) == [];
  }

  /**
   * Insert, right after any tick of any run, a tick with the same interfaces and nothing readable.
   * The rest of the run stays possible, with the same choices, and ends in the same log, alerts,
   * history and records, the flag "readable this tick" apart.
   */
  lemma UnreadableTickIsInvisible(m: Monitor, infos: seq<LinkInfo>, now: int, choice: Choice,
                                  later: int, laterChoice: Choice, rest: seq<Action>)
    requires Possible(m, infos, now, choice)
    requires Possible(Updated(m, infos, now, choice), BlankAll(infos), later, laterChoice)
    requires RunAllowed(Updated(m, infos, now, choice), rest)
    ensures var without := Updated(m, infos, now, choice);
            var with := Updated(without, BlankAll(infos), later, laterChoice);
            RunAllowed(with, rest) && Similar(Run(without, rest), Run(with, rest))
  {
    var without := Updated(m, infos, now, choice);
    var with := Updated(without, BlankAll(infos), later, laterChoice);
    TickSettles(m, infos, now, choice);
    KeptAreListed(m, infos, now, choice);
    BlankTick(without, infos, later, laterChoice);
    assert Similar(without, with);
    RunsSimilar(without, with, rest);
  }
}
