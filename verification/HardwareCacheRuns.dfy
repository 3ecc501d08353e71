/**
 * Runs of the hardware monitor. A monitor whose reread interval is 0 probes every listed interface
 * at every tick, because the steady clock does not run backwards; it is the reference here.
 */
module HardwareCacheRuns {
  import opened Wrappers
  import opened Sequences
  import opened Eviction
  import opened HardwareCache

  datatype Event = Ticked(tick: Tick, gone: seq<string>) | WasReset

  ghost function After(log: seq<Event>, interval: int): Table {
    if log == [] then map[]
    else
      match log[|log| - 1]
      case Ticked(tick, gone) => Updated(After(log[..|log| - 1], interval), tick, gone, interval)
      case WasReset => map[]
  }

  /** `now` is not before any tick of the log. */
  ghost predicate NotBefore(log: seq<Event>, now: int) {
    forall i | 0 <= i < |log| && log[i].Ticked? :: log[i].tick.now <= now
  }

  ghost predicate Allowed(log: seq<Event>, interval: int) {
    log == [] ||
    var front, last := log[..|log| - 1], log[|log| - 1];
    && Allowed(front, interval)
    && (last.Ticked? ==>
          NotBefore(front, last.tick.now) && Possible(After(front, interval), last.tick, last.gone, interval))
  }

  // ---- The tracked set ----

  lemma {:induction false} AbsorbAllKeys(tracked: Table, links: seq<Link>, now: int, at: int, interval: int)
    ensures AbsorbAll(tracked, links, now, at, interval).Keys == tracked.Keys + Identities(links)
    ensures forall id | id in Identities(links) :: AbsorbAll(tracked, links, now, at, interval)[id].present
  {
    if links != [] {
      var n := |links| - 1;
      AbsorbAllKeys(tracked, links[..n], now, at, interval);
      IdentitiesGrow(links[..n], links[n]);
      assert links == links[..n] + [links[n]];
    }
  }

  lemma ListedPresence(tracked: Table, tick: Tick, interval: int)
    ensures Present(Held(Listed(tracked, tick, interval))) == Identities(tick.links)
  {
    AbsorbAllKeys(tracked, tick.links, tick.now, tick.at, interval);
  }

  lemma {:induction false} FewIdentities(links: seq<Link>)
    ensures |Identities(links)| <= |links|
  {
    if links != [] {
      var n := |links| - 1;
      FewIdentities(links[..n]);
      IdentitiesGrow(links[..n], links[n]);
      assert links == links[..n] + [links[n]];
    }
  }

  /** After every update the listed identities, and only they, are tracked as present. */
  lemma UpdateTracksListed(tracked: Table, tick: Tick, gone: seq<string>, interval: int)
    requires Possible(tracked, tick, gone, interval)
    ensures var after := Updated(tracked, tick, gone, interval);
            forall id :: id in after && after[id].present <==> id in Identities(tick.links)
  {
    ListedPresence(tracked, tick, interval);
    EvictionKeepsBound(Held(Listed(tracked, tick, interval)), gone);
  }

  lemma EvictSize(listed: Table, gone: seq<string>)
    requires OldestFirst(gone, Held(listed))
    ensures |Evict(listed, gone)| <= CAPACITY || |Evict(listed, gone)| == |Present(Held(listed))|
  {
    EvictionKeepsBound(Held(listed), gone);
    assert Evict(listed, gone).Keys == Survivors(Held(listed), gone);
    assert |Evict(listed, gone)| == |Evict(listed, gone).Keys|;
  }

  /** No more is kept than 64 records or one per listed interface, whichever is more. */
  lemma UpdateKeepsBound(tracked: Table, tick: Tick, gone: seq<string>, interval: int)
    requires Possible(tracked, tick, gone, interval)
    ensures |Updated(tracked, tick, gone, interval)| <= if |tick.links| > 64 then |tick.links| else 64
  {
    ListedPresence(tracked, tick, interval);
    EvictSize(Listed(tracked, tick, interval), gone);
    FewIdentities(tick.links);
  }

  /** And nothing is dropped that need not be: if a record goes, 64 or more are kept. */
  lemma UpdateDropsNoMore(tracked: Table, tick: Tick, gone: seq<string>, interval: int)
    requires Possible(tracked, tick, gone, interval)
    ensures Updated(tracked, tick, gone, interval) == Listed(tracked, tick, interval)
            || |Updated(tracked, tick, gone, interval)| >= 64
  {
    var listed := Listed(tracked, tick, interval);
    EvictionKeepsBound(Held(listed), gone);
    assert Evict(listed, gone).Keys == Survivors(Held(listed), gone);
    assert |Evict(listed, gone)| == |Evict(listed, gone).Keys|;
    assert Held(listed).Keys == listed.Keys;
  }

  /** A record that is dropped was first seen no later than any vanished one that is kept. */
  lemma UpdateDropsOldest(tracked: Table, tick: Tick, gone: seq<string>, interval: int, out: string, kept: string)
    requires Possible(tracked, tick, gone, interval)
    requires out in Listed(tracked, tick, interval) && out !in Updated(tracked, tick, gone, interval)
    requires kept in Updated(tracked, tick, gone, interval) && !Updated(tracked, tick, gone, interval)[kept].present
    ensures Listed(tracked, tick, interval)[out].firstSeen <= Updated(tracked, tick, gone, interval)[kept].firstSeen
  {
    var held := Held(Listed(tracked, tick, interval));
    assert out in held && out !in Survivors(held, gone);
    EvictionTakesOldest(held, gone, out, kept);
  }

  // ---- The inputs that the cache works with ----

  /** The records, and for each identity the listing whose probe they rest on. */
  datatype Cached = Cached(tracked: Table, seen: map<string, Link>)

  /** The interface as the cache sees it: probed now, or as it was when probed last. */
  function Effective(c: Cached, link: Link, now: int, interval: int): Link {
    if NeedsRead(c.tracked, link, now, interval) || link.identity !in c.seen then link
    else link.(kind := c.seen[link.identity].kind, read := c.seen[link.identity].read)
  }

  function Recall(c: Cached, link: Link, now: int, at: int, interval: int): Cached {
    Cached(c.tracked[link.identity := Absorbed(c.tracked, link, now, at, interval)],
           c.seen[link.identity := Effective(c, link, now, interval)])
  }

  function RecallAll(c: Cached, links: seq<Link>, now: int, at: int, interval: int): Cached {
    if links == [] then c
    else Recall(RecallAll(c, links[..|links| - 1], now, at, interval), links[|links| - 1], now, at, interval)
  }

  /** The listing with every interface replaced by what the cache sees of it. */
  function Delayed(c: Cached, links: seq<Link>, now: int, at: int, interval: int): seq<Link> {
    if links == [] then []
    else
      var front, last := links[..|links| - 1], links[|links| - 1];
      Delayed(c, front, now, at, interval) + [Effective(RecallAll(c, front, now, at, interval), last, now, interval)]
  }

  ghost function CacheAfter(log: seq<Event>, interval: int): Cached {
    if log == [] then Cached(map[], map[])
    else
      match log[|log| - 1]
      case Ticked(tick, gone) =>
        var c := CacheAfter(log[..|log| - 1], interval);
        Cached(Updated(c.tracked, tick, gone, interval), RecallAll(c, tick.links, tick.now, tick.at, interval).seen)
      case WasReset => Cached(map[], map[])
  }

  ghost function DelayedTick(c: Cached, tick: Tick, interval: int): Tick {
    tick.(links := Delayed(c, tick.links, tick.now, tick.at, interval))
  }

  /** The run with every listing replaced by what the cache sees of it. */
  ghost function DelayedLog(log: seq<Event>, interval: int): seq<Event> {
    if log == [] then []
    else
      var front, last := log[..|log| - 1], log[|log| - 1];
      DelayedLog(front, interval) +
      [if last.Ticked? then last.(tick := DelayedTick(CacheAfter(front, interval), last.tick, interval)) else last]
  }

  /** Whenever the cache does not probe, a probe would return what the last one did. */
  ghost predicate Quiet(log: seq<Event>, interval: int) {
    log == [] ||
    var front, last := log[..|log| - 1], log[|log| - 1];
    && Quiet(front, interval)
    && (last.Ticked? ==> DelayedTick(CacheAfter(front, interval), last.tick, interval) == last.tick)
  }

  lemma {:induction false} RecallTracks(c: Cached, links: seq<Link>, now: int, at: int, interval: int)
    ensures RecallAll(c, links, now, at, interval).tracked == AbsorbAll(c.tracked, links, now, at, interval)
  {
    if links != [] { RecallTracks(c, links[..|links| - 1], now, at, interval); }
  }

  lemma {:induction false} CacheTracks(log: seq<Event>, interval: int)
    ensures CacheAfter(log, interval).tracked == After(log, interval)
  {
    if log != [] { CacheTracks(log[..|log| - 1], interval); }
  }

  // ---- One interface ----

  ghost predicate Alike(a: Table, b: Table) {
    a.Keys == b.Keys && forall id | id in a :: Shown(a[id]) == Shown(b[id])
  }

  /** A good record is a fixed point of the probe it rests on. */
  predicate RestsOn(h: Hardware, seen: Link) {
    seen.name == h.name && seen.read.readOk && Shown(Refreshed(h, seen, 0)) == Shown(h)
  }

  ghost predicate Settled(c: Cached) {
    forall id | id in c.tracked && c.tracked[id].readOk :: id in c.seen && RestsOn(c.tracked[id], c.seen[id])
  }

  ghost predicate ProbedBy(tracked: Table, now: int) {
    forall id | id in tracked :: tracked[id].lastProbe <= now
  }

  lemma RefreshedRespectsShown(a: Hardware, b: Hardware, link: Link, at: int, later: int)
    requires Shown(a) == Shown(b)
    ensures Shown(Refreshed(a, link, at)) == Shown(Refreshed(b, link, later))
  {
  }

  /** `Refreshed` neither looks at these fields nor changes them. */
  lemma RefreshedIgnoresMarks(h: Hardware, link: Link, at: int, readOk: bool, now: int, present: bool)
    ensures Shown(Refreshed(h.(readOk := readOk, lastProbe := now, present := present), link, at))
            == Shown(Refreshed(h, link, at)).(readOk := readOk, present := present)
  {
  }

  lemma ProbeSettles(base: Hardware, link: Link, now: int, at: int)
    requires link.read.readOk
    ensures RestsOn(Probed(base, link, now, at), link)
  {
    RefreshedTwice(base, link, at, 0);
    RefreshedIgnoresMarks(Refreshed(base, link, at), link, 0, true, now, true);
  }

  /** Keeping a good record is what an unchanged probe would do to its twin. */
  lemma KeepingIsProbing(a: Hardware, b: Hardware, seen: Link, now: int, at: int)
    requires Shown(a) == Shown(b) && a.readOk && RestsOn(a, seen)
    ensures Shown(a.(present := true)) == Shown(Probed(b, seen, now, at))
    ensures RestsOn(a.(present := true), seen)
  {
    RefreshedRespectsShown(a, b, seen, 0, at);
    RefreshedIgnoresMarks(a, seen, 0, a.readOk, a.lastProbe, true);
  }

  lemma InterfaceStep(c: Cached, full: Table, link: Link, now: int, at: int, interval: int)
    requires Settled(c) && Alike(c.tracked, full) && ProbedBy(full, now)
    ensures var eff, next := Effective(c, link, now, interval), Recall(c, link, now, at, interval);
            && Shown(next.tracked[link.identity]) == Shown(Absorbed(full, eff, now, at, 0))
            && (next.tracked[link.identity].readOk ==>
                  RestsOn(next.tracked[link.identity], next.seen[link.identity]))
            && Absorbed(full, eff, now, at, 0).lastProbe <= now
  {
    var id, eff := link.identity, Effective(c, link, now, interval);
    var a, b := Base(c.tracked, link, now), Base(full, link, now);
    assert Absorbed(full, eff, now, at, 0) == Probed(b, eff, now, at);
    if NeedsRead(c.tracked, link, now, interval) {
      RefreshedRespectsShown(a, b, link, at, at);
      if link.read.readOk { ProbeSettles(a, link, now, at); }
    } else {
      assert eff == c.seen[id].(identity := id);
      assert RestsOn(a, eff);
      KeepingIsProbing(a, b, eff, now, at);
    }
  }

  lemma LinkStep(c: Cached, full: Table, link: Link, now: int, at: int, interval: int)
    requires Settled(c) && Alike(c.tracked, full) && ProbedBy(full, now)
    ensures var eff, next := Effective(c, link, now, interval), Recall(c, link, now, at, interval);
            var full' := full[link.identity := Absorbed(full, eff, now, at, 0)];
            Settled(next) && Alike(next.tracked, full') && ProbedBy(full', now)
  {
    InterfaceStep(c, full, link, now, at, interval);
  }

  // ---- One tick ----

  lemma {:induction false} ListingStep(c: Cached, full: Table, links: seq<Link>, now: int, at: int, interval: int)
    requires Settled(c) && Alike(c.tracked, full) && ProbedBy(full, now)
    ensures var next := RecallAll(c, links, now, at, interval);
            var full' := AbsorbAll(full, Delayed(c, links, now, at, interval), now, at, 0);
            Settled(next) && Alike(next.tracked, full') && ProbedBy(full', now)
  {
    if links != [] {
      var front, last := links[..|links| - 1], links[|links| - 1];
      ListingStep(c, full, front, now, at, interval);
      var before := RecallAll(c, front, now, at, interval);
      var delayed := Delayed(c, front, now, at, interval);
      LinkStep(before, AbsorbAll(full, delayed, now, at, 0), last, now, at, interval);
      AbsorbOneMore(full, delayed, Effective(before, last, now, interval), now, at, 0);
    }
  }

  lemma AbsorbOneMore(tracked: Table, links: seq<Link>, link: Link, now: int, at: int, interval: int)
    ensures var before := AbsorbAll(tracked, links, now, at, interval);
            AbsorbAll(tracked, links + [link], now, at, interval)
            == before[link.identity := Absorbed(before, link, now, at, interval)]
  {
    assert (links + [link])[..|links|] == links;
  }

  lemma {:induction false} DelayedSameIdentities(c: Cached, links: seq<Link>, now: int, at: int, interval: int)
    ensures Identities(Delayed(c, links, now, at, interval)) == Identities(links)
  {
    if links != [] {
      var front, last := links[..|links| - 1], links[|links| - 1];
      DelayedSameIdentities(c, front, now, at, interval);
      IdentitiesGrow(front, last);
      IdentitiesGrow(Delayed(c, front, now, at, interval),
                     Effective(RecallAll(c, front, now, at, interval), last, now, interval));
      assert links == front + [last];
    }
  }

  lemma MarkingKeepsAlike(c: Cached, full: Table, ids: set<string>)
    requires Settled(c) && Alike(c.tracked, full)
    ensures Settled(c.(tracked := MarkGone(c.tracked, ids)))
    ensures Alike(MarkGone(c.tracked, ids), MarkGone(full, ids))
    ensures Held(MarkGone(c.tracked, ids)) == Held(MarkGone(full, ids))
  {
    forall id | id in c.tracked ensures
      var a, b := c.tracked[id], full[id];
      Shown(a.(present := a.present && id in ids)) == Shown(b.(present := b.present && id in ids))
    {
    }
    forall id | id in c.tracked && c.tracked[id].readOk
      ensures RestsOn(c.tracked[id].(present := c.tracked[id].present && id in ids), c.seen[id])
    {
      var h := c.tracked[id];
      RefreshedIgnoresMarks(h, c.seen[id], 0, h.readOk, h.lastProbe, h.present && id in ids);
    }
  }

  lemma TickStep(c: Cached, full: Table, tick: Tick, gone: seq<string>, interval: int)
    requires Settled(c) && Alike(c.tracked, full) && ProbedBy(full, tick.now)
    requires Possible(c.tracked, tick, gone, interval)
    ensures var late := DelayedTick(c, tick, interval);
            var full' := Updated(full, late, gone, 0);
            var seen' := RecallAll(c, tick.links, tick.now, tick.at, interval).seen;
            && Possible(full, late, gone, 0)
            && Settled(Cached(Updated(c.tracked, tick, gone, interval), seen'))
            && Alike(Updated(c.tracked, tick, gone, interval), full')
            && ProbedBy(full', tick.now)
  {
    var late := DelayedTick(c, tick, interval);
    var next := RecallAll(c, tick.links, tick.now, tick.at, interval);
    ListingStep(c, full, tick.links, tick.now, tick.at, interval);
    DelayedSameIdentities(c, tick.links, tick.now, tick.at, interval);
    RecallTracks(c, tick.links, tick.now, tick.at, interval);
    MarkingKeepsAlike(next, AbsorbAll(full, late.links, tick.now, tick.at, 0), Identities(tick.links));
  }

  // ---- Whole runs ----

  /** A delayed run has the same ticks at the same times. */
  lemma {:induction false} DelayedTimes(log: seq<Event>, interval: int)
    ensures |DelayedLog(log, interval)| == |log|
    ensures forall i | 0 <= i < |log| ::
              && (DelayedLog(log, interval)[i].Ticked? <==> log[i].Ticked?)
              && (log[i].Ticked? ==> DelayedLog(log, interval)[i].tick.now == log[i].tick.now)
  {
    if log != [] {
      var n := |log| - 1;
      DelayedTimes(log[..n], interval);
      var late := DelayedLog(log, interval);
      assert late[..n] == DelayedLog(log[..n], interval);
      forall i | 0 <= i < n
        ensures late[i].Ticked? <==> log[i].Ticked?
        ensures log[i].Ticked? ==> late[i].tick.now == log[i].tick.now
      {
        assert late[i] == late[..n][i] && log[..n][i] == log[i];
      }
    }
  }

  lemma DelayedNotBefore(log: seq<Event>, interval: int, now: int)
    ensures NotBefore(DelayedLog(log, interval), now) <==> NotBefore(log, now)
  {
    DelayedTimes(log, interval);
    var late := DelayedLog(log, interval);
    assert forall i | 0 <= i < |log| :: late[i].Ticked? <==> log[i].Ticked?;
  }

  /**
   * Caching is delaying: whatever changes under it, the caching monitor holds the records that a
   * monitor probing every tick would hold had it been shown the delayed listings.
   */
  lemma {:induction false} CachingIsDelaying(log: seq<Event>, interval: int)
    requires Allowed(log, interval)
    ensures Allowed(DelayedLog(log, interval), 0)
    ensures Alike(After(log, interval), After(DelayedLog(log, interval), 0))
    ensures Settled(CacheAfter(log, interval))
    ensures forall now | NotBefore(log, now) :: ProbedBy(After(DelayedLog(log, interval), 0), now)
  {
    if log != [] {
      var front, last := log[..|log| - 1], log[|log| - 1];
      CachingIsDelaying(front, interval);
      CacheTracks(front, interval);
      var late := DelayedLog(front, interval);
      assert DelayedLog(log, interval)[..|late|] == late;
      if last.Ticked? {
        DelayedNotBefore(front, interval, last.tick.now);
        LastTickBounds(log);
        TickStep(CacheAfter(front, interval), After(late, 0), last.tick, last.gone, interval);
        assert DelayedLog(log, interval)[|late|] ==
          last.(tick := DelayedTick(CacheAfter(front, interval), last.tick, interval));
      }
    }
  }

  lemma LastTickBounds(log: seq<Event>)
    requires log != [] && log[|log| - 1].Ticked?
    ensures forall now | NotBefore(log, now) :: log[|log| - 1].tick.now <= now
  {
  }

  lemma {:induction false} QuietIsUndelayed(log: seq<Event>, interval: int)
    requires Quiet(log, interval)
    ensures DelayedLog(log, interval) == log
  {
    if log != [] { QuietIsUndelayed(log[..|log| - 1], interval); }
  }

  /** If nothing changes between the scheduled probes, the cache cannot be told from probing always. */
  lemma CacheIsTransparent(log: seq<Event>, interval: int)
    requires Allowed(log, interval) && Quiet(log, interval)
    ensures Allowed(log, 0) && Alike(After(log, interval), After(log, 0))
  {
    CachingIsDelaying(log, interval);
    QuietIsUndelayed(log, interval);
  }

  // ---- How late the cache can be ----

  predicate SameInput(a: Link, b: Link) {
    a.identity == b.identity && a.kind == b.kind && a.read == b.read
  }

  ghost predicate Offers(e: Event, time: int, input: Link) {
    e.Ticked? && e.tick.now == time && exists k | 0 <= k < |e.tick.links| :: SameInput(e.tick.links[k], input)
  }

  /** Some tick at `time` listed this interface with this probe result. */
  ghost predicate Offered(log: seq<Event>, time: int, input: Link) {
    exists j | 0 <= j < |log| :: Offers(log[j], time, input)
  }

  ghost predicate Recent(log: seq<Event>, input: Link, now: int, interval: int) {
    exists time | Offered(log, time, input) :: time <= now && (time == now || now - time < interval)
  }

  ghost predicate AllRecent(log: seq<Event>, inputs: seq<Link>, now: int, interval: int) {
    forall i | 0 <= i < |inputs| :: Recent(log, inputs[i], now, interval)
  }

  /** Every record was probed at `lastProbe`, with the result remembered for it. */
  ghost predicate Sourced(log: seq<Event>, c: Cached) {
    forall id | id in c.tracked ::
      id in c.seen && c.seen[id].identity == id && Offered(log, c.tracked[id].lastProbe, c.seen[id])
  }

  lemma OfferedLater(log: seq<Event>, e: Event, time: int, input: Link)
    requires Offered(log, time, input)
    ensures Offered(log + [e], time, input)
  {
    var j :| 0 <= j < |log| && Offers(log[j], time, input);
    assert Offers((log + [e])[j], time, input);
  }

  lemma InterfaceSourced(log: seq<Event>, c: Cached, k: nat, interval: int)
    requires log != [] && log[|log| - 1].Ticked? && k < |log[|log| - 1].tick.links|
    requires Sourced(log, c) && NotBefore(log, log[|log| - 1].tick.now)
    ensures var tick := log[|log| - 1].tick;
            && Sourced(log, Recall(c, tick.links[k], tick.now, tick.at, interval))
            && Recent(log, Effective(c, tick.links[k], tick.now, interval), tick.now, interval)
  {
    var tick := log[|log| - 1].tick;
    var link := tick.links[k];
    var eff := Effective(c, link, tick.now, interval);
    if NeedsRead(c.tracked, link, tick.now, interval) {
      assert SameInput(link, eff);
      assert Offers(log[|log| - 1], tick.now, eff);
      assert Offered(log, tick.now, eff);
    } else {
      var j :| 0 <= j < |log| && Offers(log[j], c.tracked[link.identity].lastProbe, c.seen[link.identity]);
      assert Offers(log[j], c.tracked[link.identity].lastProbe, eff);
      assert Offered(log, c.tracked[link.identity].lastProbe, eff);
    }
  }

  lemma {:induction false} ListingSourced(log: seq<Event>, c: Cached, n: nat, interval: int)
    requires log != [] && log[|log| - 1].Ticked? && n <= |log[|log| - 1].tick.links|
    requires Sourced(log, c) && NotBefore(log, log[|log| - 1].tick.now)
    ensures var tick := log[|log| - 1].tick;
            var late := Delayed(c, tick.links[..n], tick.now, tick.at, interval);
            && Sourced(log, RecallAll(c, tick.links[..n], tick.now, tick.at, interval))
            && AllRecent(log, late, tick.now, interval)
  {
    if n > 0 {
      var tick := log[|log| - 1].tick;
      ListingSourced(log, c, n - 1, interval);
      assert tick.links[..n][..n - 1] == tick.links[..n - 1];
      InterfaceSourced(log, RecallAll(c, tick.links[..n - 1], tick.now, tick.at, interval), n - 1, interval);
    }
  }

  lemma {:induction false} RecordsAreSourced(log: seq<Event>, interval: int)
    requires Allowed(log, interval)
    ensures Sourced(log, CacheAfter(log, interval))
  {
    if log != [] && log[|log| - 1].Ticked? {
      var front, tick := log[..|log| - 1], log[|log| - 1].tick;
      var c := CacheAfter(front, interval);
      RecordsAreSourced(front, interval);
      assert log == front + [log[|log| - 1]];
      forall id | id in c.tracked ensures Offered(log, c.tracked[id].lastProbe, c.seen[id]) {
        OfferedLater(front, log[|log| - 1], c.tracked[id].lastProbe, c.seen[id]);
      }
      assert NotBefore(log, tick.now);
      ListingSourced(log, c, |tick.links|, interval);
      assert tick.links[..|tick.links|] == tick.links;
      RecallTracks(c, tick.links, tick.now, tick.at, interval);
    }
  }

  /** What the cache sees of an interface is a probe of it less than the reread interval ago. */
  lemma DelayIsBounded(log: seq<Event>, interval: int)
    requires Allowed(log, interval) && log != [] && log[|log| - 1].Ticked?
    ensures var tick := log[|log| - 1].tick;
            var late := DelayedTick(CacheAfter(log[..|log| - 1], interval), tick, interval).links;
            AllRecent(log, late, tick.now, interval)
  {
    var front, tick := log[..|log| - 1], log[|log| - 1].tick;
    var c := CacheAfter(front, interval);
    RecordsAreSourced(front, interval);
    assert log == front + [log[|log| - 1]];
    forall id | id in c.tracked ensures Offered(log, c.tracked[id].lastProbe, c.seen[id]) {
      OfferedLater(front, log[|log| - 1], c.tracked[id].lastProbe, c.seen[id]);
    }
    assert NotBefore(log, tick.now);
    ListingSourced(log, c, |tick.links|, interval);
    assert tick.links[..|tick.links|] == tick.links;
  }
}
