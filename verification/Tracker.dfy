/** The sliding window of task errors (internal/app/taskerrors/tracker.go). */
module TaskErrors {
  import opened Options

  /** One failing task instance. */
  datatype Key = Key(service: nat, slot: int, task: nat)

  /** `since` is the time Swarm stamped on the error, `kind` its classification. */
  datatype Event = Event(key: Key, since: int, kind: nat)

  type Events = map<Key, Event>

  /** Service name -> class -> count. */
  type Counts = map<nat, map<nat, nat>>

  // ----- recording -----

  predicate Oldest(events: Events, k: Key) {
    k in events && forall j :: j in events ==> events[k].since <= events[j].since
  }

  /** Recording one event: known keys are skipped, and at capacity an oldest entry leaves first.
      Which of several oldest entries leaves is up to the map's iteration order. */
  ghost predicate RecordsOne(before: Events, e: Event, cap: nat, after: Events) {
    if e.key in before then after == before
    else if |before| < cap then after == before[e.key := e]
    else if before == map[] then after == map[e.key := e]
    else exists victim :: Oldest(before, victim) && after == (before - {victim})[e.key := e]
  }

  ghost predicate Records(before: Events, batch: seq<Event>, cap: nat, after: Events)
    decreases |batch|
  {
    if batch == [] then after == before
    else
      var n := |batch| - 1;
      exists mid :: Records(before, batch[..n], cap, mid) && RecordsOne(mid, batch[n], cap, after)
  }

  // ----- counting -----

  function CountIn(counts: Counts, service: nat, kind: nat): nat {
    if service in counts && kind in counts[service] then counts[service][kind] else 0
  }

  /** Only what is counted has an entry. */
  predicate NoEmptyEntries(counts: Counts) {
    forall s :: s in counts ==> counts[s] != map[] && forall c :: c in counts[s] ==> counts[s][c] > 0
  }

  function KeysOf(events: Events, service: nat, kind: nat): set<Key> {
    set k | k in events && events[k].key.service == service && events[k].kind == kind
  }

  function Fresh(events: Events, now: int, window: int): Events {
    map k | k in events && now - events[k].since < window :: events[k]
  }

  /** Each service and class has as many counts as events. */
  ghost predicate Tallies(counts: Counts, events: Events) {
    && NoEmptyEntries(counts)
    && forall s, c :: CountIn(counts, s, c) == |KeysOf(events, s, c)|
  }

  function Bump(counts: Counts, service: nat, kind: nat): Counts {
    var inner := if service in counts then counts[service] else map[];
    counts[service := inner[kind := CountIn(counts, service, kind) + 1]]
  }

  /** `all` holds a pair of service and class for every count. */
  ghost predicate Pairs(all: multiset<(nat, nat)>, counts: Counts) {
    forall s, c :: all[(s, c)] == CountIn(counts, s, c)
  }

  lemma BumpCounts(counts: Counts, service: nat, kind: nat)
    ensures forall s, c :: CountIn(Bump(counts, service, kind), s, c)
                             == CountIn(counts, s, c) + if s == service && c == kind then 1 else 0
    ensures NoEmptyEntries(counts) ==> NoEmptyEntries(Bump(counts, service, kind))
  {
  }

  lemma KeysMore(events: Events, k: Key, e: Event, s: nat, c: nat)
    requires k !in events
    ensures |KeysOf(events[k := e], s, c)| == |KeysOf(events, s, c)| + if s == e.key.service && c == e.kind then 1 else 0
  {
    if s == e.key.service && c == e.kind {
      assert KeysOf(events[k := e], s, c) == KeysOf(events, s, c) + {k};
    } else {
      assert KeysOf(events[k := e], s, c) == KeysOf(events, s, c);
    }
  }

  lemma TallyMore(counts: Counts, events: Events, k: Key, e: Event)
    requires Tallies(counts, events) && k !in events
    ensures Tallies(Bump(counts, e.key.service, e.kind), events[k := e])
  {
    BumpCounts(counts, e.key.service, e.kind);
    forall s, c ensures CountIn(Bump(counts, e.key.service, e.kind), s, c) == |KeysOf(events[k := e], s, c)| {
      KeysMore(events, k, e, s, c);
      assert CountIn(counts, s, c) == |KeysOf(events, s, c)|;
    }
  }

  /** The tallies of the events, with a pair for each. */
  ghost predicate Tallied(counts: Counts, events: Events, all: multiset<(nat, nat)>) {
    Tallies(counts, events) && |all| == |events| && Pairs(all, counts)
  }

  lemma TalliedMore(counts: Counts, events: Events, all: multiset<(nat, nat)>, k: Key, e: Event)
    requires Tallied(counts, events, all) && k !in events
    ensures Tallied(Bump(counts, e.key.service, e.kind), events[k := e], all + multiset{(e.key.service, e.kind)})
  {
    TallyMore(counts, events, k, e);
    PairsMore(counts, all, e);
    OneMoreEvent(events, k, e);
  }

  lemma OneMoreEvent(events: Events, k: Key, e: Event)
    requires k !in events
    ensures |events[k := e]| == |events| + 1
  {
    assert events[k := e].Keys == events.Keys + {k};
    assert |events[k := e]| == |events[k := e].Keys|;
  }

  lemma NothingTallied()
    ensures Tallied(map[], map[], multiset{})
  {
    var none: Events := map[];
    assert forall s, c :: KeysOf(none, s, c) == {};
  }

  lemma PairsMore(counts: Counts, all: multiset<(nat, nat)>, e: Event)
    requires Pairs(all, counts)
    ensures Pairs(all + multiset{(e.key.service, e.kind)}, Bump(counts, e.key.service, e.kind))
  {
    BumpCounts(counts, e.key.service, e.kind);
  }

  class Tracker {
    var events: Events
    const cap: nat

    constructor (cap: nat)
      ensures events == map[] && this.cap == cap
    {
      events := map[];
      this.cap := cap;
    }

    /** evictOldestLocked. */
    method EvictOldest()
      modifies this
      ensures old(events) == map[] ==> events == map[]
      ensures old(events) != map[] ==> exists victim :: Oldest(old(events), victim) && events == old(events) - {victim}
    {
      var oldest: Option<Key> := None;
      var todo := events.Keys;
      while todo != {}
        invariant todo <= events.Keys && events == old(events)
        invariant oldest.None? ==> todo == events.Keys
        invariant oldest.Some? ==> && oldest.value in events
                                   && forall j :: j in events.Keys - todo ==> events[oldest.value].since <= events[j].since
      {
        var k :| k in todo;
        if oldest.None? || events[k].since < events[oldest.value].since {
          oldest := Some(k);
        }
        todo := todo - {k};
      }
      if oldest.Some? {
        assert Oldest(events, oldest.value);
        events := events - {oldest.value};
      }
    }

    method RecordOne(e: Event)
      modifies this
      ensures RecordsOne(old(events), e, cap, events)
    {
      if e.key !in events {
        if |events| >= cap {
          EvictOldest();
        }
        events := events[e.key := e];
      }
    }

    method Record(batch: seq<Event>)
      modifies this
      ensures Records(old(events), batch, cap, events)
    {
      for i := 0 to |batch|
        invariant Records(old(events), batch[..i], cap, events)
      {
        ghost var mid := events;
        assert batch[..i + 1][..i] == batch[..i];
        RecordOne(batch[i]);
        assert Records(old(events), batch[..i], cap, mid) && RecordsOne(mid, batch[i], cap, events);
      }
      assert batch[..|batch|] == batch;
    }

    /** Prunes what is out of the window and counts the rest.  `all` holds a pair per event. */
    method WindowSnapshot(now: int, window: int) returns (snapshot: Counts, ghost all: multiset<(nat, nat)>)
      modifies this
      ensures events == Fresh(old(events), now, window)
      ensures forall k :: k in events <==> k in old(events) && now - old(events)[k].since < window
      ensures Tallied(snapshot, events, all)
      ensures forall service, kind :: CountIn(snapshot, service, kind)
                                      == |set k | k in events && events[k].key.service == service && events[k].kind == kind|
    {
      snapshot, all := map[], multiset{};
      var todo := events.Keys;
      ghost var counted: Events := map[];
      NothingTallied();
      while todo != {}
        invariant Windowed(old(events), events, counted, todo, now, window)
        invariant Tallied(snapshot, counted, all)
      {
        var k :| k in todo;
        var e := events[k];
        WindowedStep(old(events), events, counted, todo, now, window, k);
        todo := todo - {k};
        if now - e.since >= window {
          events := events - {k};
        } else {
          TalliedMore(snapshot, counted, all, k, e);
          snapshot := CountOne(snapshot, e);
          counted := counted[k := e];
          all := all + multiset{(e.key.service, e.kind)};
        }
      }
      WindowedEnd(old(events), events, counted, now, window);
      CountsMean(snapshot, events);
    }
  }

  lemma CountsMean(counts: Counts, events: Events)
    requires Tallies(counts, events)
    ensures forall service, kind :: CountIn(counts, service, kind)
                                    == |set k | k in events && events[k].key.service == service && events[k].kind == kind|
  {
    forall service, kind
      ensures CountIn(counts, service, kind) == |set k | k in events && events[k].key.service == service && events[k].kind == kind|
    {
      assert KeysOf(events, service, kind) == set k | k in events && events[k].key.service == service && events[k].kind == kind;
    }
  }

  /** Recording one event within the cap: a known instance changes nothing; a new one is added, and
      one of smallest Since leaves if the tracker is full, and none if it is not. */
  lemma RecordMeans(before: Events, e: Event, cap: nat, after: Events)
    requires cap >= 1 && |before| <= cap && RecordsOne(before, e, cap, after)
    ensures e.key in before ==> after == before
    ensures e.key !in before && |before| < cap ==> after == before[e.key := e]
    ensures e.key !in before && |before| == cap ==>
              exists victim :: && victim in before && (forall j :: j in before ==> before[victim].since <= before[j].since)
                               && after == (before - {victim})[e.key := e]
  {
    if e.key !in before && |before| == cap {
      assert before != map[];
      var victim :| Oldest(before, victim) && after == (before - {victim})[e.key := e];
      assert victim in before;
    }
  }

  lemma WindowedStep(before: Events, events: Events, counted: Events, todo: set<Key>, now: int, window: int, k: Key)
    requires Windowed(before, events, counted, todo, now, window) && k in todo
    ensures k in before && k in events && events[k] == before[k] && k !in counted
    ensures if now - before[k].since >= window then Windowed(before, events - {k}, counted, todo - {k}, now, window)
            else Windowed(before, events, counted[k := before[k]], todo - {k}, now, window)
  {
    assert Get(events, k) == Some(before[k]) && Get(counted, k) == None;
  }

  lemma WindowedEnd(before: Events, events: Events, counted: Events, now: int, window: int)
    requires Windowed(before, events, counted, {}, now, window)
    ensures counted == events == Fresh(before, now, window)
  {
    forall k ensures Get(events, k) == Get(counted, k) == Get(Fresh(before, now, window), k) {
    }
    SameMap(events, Fresh(before, now, window));
    SameMap(counted, Fresh(before, now, window));
  }

  /** The lazily made inner map, then its increment. */
  method CountOne(counts: Counts, e: Event) returns (more: Counts)
    ensures more == Bump(counts, e.key.service, e.kind)
  {
    more := counts;
    if e.key.service !in more {
      more := more[e.key.service := map[]];
    }
    var inner: map<nat, nat> := more[e.key.service];
    var n: nat := if e.kind in inner then inner[e.kind] else 0;
    inner := inner[e.kind := n + 1];
    more := more[e.key.service := inner];
  }

  /** The loop of WindowSnapshot: keys outside `todo` are pruned or counted. */
  ghost predicate Windowed(before: Events, events: Events, counted: Events, todo: set<Key>, now: int, window: int) {
    && events.Keys <= before.Keys && counted.Keys <= before.Keys && todo <= before.Keys
    && forall k :: k in before ==>
         && Get(events, k) == (if k in todo || now - before[k].since < window then Some(before[k]) else None)
         && Get(counted, k) == (if k !in todo && now - before[k].since < window then Some(before[k]) else None)
  }

  // ----- the cap -----

  /** The batch added without evictions: the first event of each new key. */
  function Added(events: Events, batch: seq<Event>): Events {
    if batch == [] then events else AddOne(Added(events, batch[..|batch| - 1]), batch[|batch| - 1])
  }

  /** The size stays within the cap, and an entry that leaves had the smallest Since of those
      held. */
  lemma OneKeepsCap(before: Events, e: Event, cap: nat, after: Events)
    requires cap >= 1 && |before| <= cap && RecordsOne(before, e, cap, after)
    ensures |after| <= cap
    ensures e.key in after && forall k :: k in before && k !in after ==> |before| == cap && Oldest(before, k)
  {
    if e.key !in before {
      if |before| < cap {
        assert after.Keys == before.Keys + {e.key};
      } else {
        var victim :| Oldest(before, victim) && after == (before - {victim})[e.key := e];
        assert after.Keys == (before.Keys - {victim}) + {e.key};
      }
      assert |after| == |after.Keys|;
    }
  }

  lemma {:induction false} BatchKeepsCap(before: Events, batch: seq<Event>, cap: nat, after: Events)
    requires cap >= 1 && |before| <= cap && Records(before, batch, cap, after)
    ensures |after| <= cap
    decreases |batch|
  {
    if batch != [] {
      var n := |batch| - 1;
      var mid :| Records(before, batch[..n], cap, mid) && RecordsOne(mid, batch[n], cap, after);
      BatchKeepsCap(before, batch[..n], cap, mid);
      OneKeepsCap(mid, batch[n], cap, after);
    }
  }

  /** Nothing that left is newer than anything that stays. */
  predicate NoNewerLeft(before: Events, after: Events) {
    forall k, j :: k in before && k !in after && j in after ==> before[k].since <= after[j].since
  }

  /** Eviction makes room before the new event is looked at.  So, with any capacity, recording a
      new event in a full tracker lets go of none that is newer than one it holds afterwards
      exactly if some held event is not newer than the new one. */
  lemma KeepsNewestIff(before: Events, e: Event, cap: nat, after: Events)
    requires 1 <= cap <= |before| && e.key !in before && RecordsOne(before, e, cap, after)
    ensures NoNewerLeft(before, after) <==> exists k :: k in before && before[k].since <= e.since
  {
    assert before != map[];
    var victim :| Oldest(before, victim) && after == (before - {victim})[e.key := e];
    assert victim !in after && e.key in after && after[e.key] == e;
    if NoNewerLeft(before, after) {
      assert before[victim].since <= after[e.key].since;
    }
  }

  function AddOne(events: Events, e: Event): Events {
    if e.key in events then events else events[e.key := e]
  }

  lemma AddOneGrows(events: Events, e: Event)
    ensures |AddOne(events, e)| == |events| + if e.key in events then 0 else 1
  {
    if e.key !in events {
      assert AddOne(events, e).Keys == events.Keys + {e.key};
      assert |AddOne(events, e)| == |AddOne(events, e).Keys|;
    }
  }

  lemma FitsOne(before: Events, e: Event, cap: nat, after: Events)
    requires RecordsOne(before, e, cap, after) && |AddOne(before, e)| <= cap
    ensures after == AddOne(before, e)
  {
    AddOneGrows(before, e);
  }

  /** If the result fits, nothing is evicted on the way. */
  lemma {:induction false} FitsWithoutEviction(before: Events, batch: seq<Event>, cap: nat, after: Events)
    requires Records(before, batch, cap, after) && |Added(before, batch)| <= cap
    ensures after == Added(before, batch)
    decreases |batch|
  {
    if batch != [] {
      var n := |batch| - 1;
      var mid :| Records(before, batch[..n], cap, mid) && RecordsOne(mid, batch[n], cap, after);
      AddOneGrows(Added(before, batch[..n]), batch[n]);
      FitsWithoutEviction(before, batch[..n], cap, mid);
      FitsOne(mid, batch[n], cap, after);
    }
  }

  // ----- pruning is invisible -----

  /** Record, or a reader's snapshot at its time. */
  datatype Op = Recorded(batch: seq<Event>) | Read(now: int)

  ghost predicate Follows(before: Events, op: Op, cap: nat, window: int, after: Events) {
    match op
    case Recorded(batch) => Records(before, batch, cap, after)
    case Read(now) => after == Fresh(before, now, window)
  }

  /** What the tracker may hold after the operations. */
  ghost predicate Reaches(ops: seq<Op>, cap: nat, window: int, events: Events)
    decreases |ops|
  {
    if ops == [] then events == map[]
    else
      var n := |ops| - 1;
      exists mid :: Reaches(ops[..n], cap, window, mid) && Follows(mid, ops[n], cap, window, events)
  }

  lemma FreshIsSmaller(events: Events, now: int, window: int)
    ensures |Fresh(events, now, window)| <= |events|
  {
    assert Fresh(events, now, window).Keys <= events.Keys;
    SubsetSize(Fresh(events, now, window).Keys, events.Keys);
  }

  /** The tracker never holds more than `cap` events. */
  lemma {:induction false} CapIsKept(ops: seq<Op>, cap: nat, window: int, events: Events)
    requires cap >= 1 && Reaches(ops, cap, window, events)
    ensures |events| <= cap
    decreases |ops|
  {
    if ops != [] {
      var n := |ops| - 1;
      var mid :| Reaches(ops[..n], cap, window, mid) && Follows(mid, ops[n], cap, window, events);
      CapIsKept(ops[..n], cap, window, mid);
      match ops[n]
      case Recorded(batch) => BatchKeepsCap(mid, batch, cap, events);
      case Read(now) => FreshIsSmaller(mid, now, window);
    }
  }

  /** The tracker without a cap. */
  function Unbounded(ops: seq<Op>, window: int): Events {
    if ops == [] then map[]
    else
      var front := Unbounded(ops[..|ops| - 1], window);
      match ops[|ops| - 1]
      case Recorded(batch) => Added(front, batch)
      case Read(now) => Fresh(front, now, window)
  }

  predicate NeverFull(ops: seq<Op>, cap: nat, window: int) {
    forall i :: 0 <= i <= |ops| ==> |Unbounded(ops[..i], window)| <= cap
  }

  lemma {:induction false} ReachesUnbounded(ops: seq<Op>, cap: nat, window: int, events: Events)
    requires Reaches(ops, cap, window, events) && NeverFull(ops, cap, window)
    ensures events == Unbounded(ops, window)
    decreases |ops|
  {
    if ops != [] {
      var n := |ops| - 1;
      var mid :| Reaches(ops[..n], cap, window, mid) && Follows(mid, ops[n], cap, window, events);
      assert forall i :: 0 <= i <= n ==> ops[..n][..i] == ops[..i];
      ReachesUnbounded(ops[..n], cap, window, mid);
      assert ops[..|ops|] == ops;
      if ops[n].Recorded? { FitsWithoutEviction(mid, ops[n].batch, cap, events); }
    }
  }

  /** Every event ever recorded. */
  function Ever(ops: seq<Op>): set<Event> {
    if ops == [] then {}
    else Ever(ops[..|ops| - 1]) + match ops[|ops| - 1]
                                  case Recorded(batch) => (set e | e in batch)
                                  case Read(_) => {}
  }

  /** Since and Class depend only on the task instance. */
  predicate OneEventPerKey(events: set<Event>) {
    forall a, b :: a in events && b in events && a.key == b.key ==> a == b
  }

  predicate ClockNeverBack(ops: seq<Op>, now: int) {
    forall i :: 0 <= i < |ops| && ops[i].Read? ==> ops[i].now <= now
  }

  lemma {:induction false} AddedMembers(events: Events, batch: seq<Event>, all: set<Event>)
    requires forall k :: k in events ==> events[k] in all && events[k].key == k
    requires (forall e :: e in batch ==> e in all) && OneEventPerKey(all)
    ensures var r := Added(events, batch);
            && (forall k :: k in r ==> r[k] in all && r[k].key == k)
            && (forall e :: e in batch ==> e.key in r)
            && (forall k :: k in events ==> k in r)
  {
    if batch != [] {
      AddedMembers(events, batch[..|batch| - 1], all);
      assert forall e :: e in batch ==> e in batch[..|batch| - 1] || e == batch[|batch| - 1];
    }
  }

  /** The tracker holds only what was recorded, and whatever it has dropped is out of the window. */
  lemma {:induction false} DroppedIsStale(ops: seq<Op>, window: int, now: int, all: set<Event>)
    requires Ever(ops) <= all && OneEventPerKey(all) && ClockNeverBack(ops, now)
    ensures var r := Unbounded(ops, window);
            && (forall k :: k in r ==> r[k] in Ever(ops) && r[k].key == k)
            && (forall e :: e in Ever(ops) && e.key !in r ==> now - e.since >= window)
  {
    if ops != [] {
      var n := |ops| - 1;
      var before := Unbounded(ops[..n], window);
      DroppedIsStale(ops[..n], window, now, all);
      match ops[n]
      case Recorded(batch) =>
        assert forall e :: e in batch ==> e in Ever(ops);
        AddedMembers(before, batch, Ever(ops));
      case Read(at) =>
        assert at <= now;
        forall e | e in Ever(ops) && e.key !in Fresh(before, at, window) ensures now - e.since >= window {
          if e.key in before { assert before[e.key] == e; }
        }
    }
  }

  /** The keys ever recorded of a service and class that are in the window. */
  function InWindow(ops: seq<Op>, service: nat, kind: nat, now: int, window: int): set<Key> {
    set e | e in Ever(ops) && e.key.service == service && e.kind == kind && now - e.since < window :: e.key
  }

  /** Pruning is invisible: whatever records and readers' snapshots came before, in whatever
      order, a snapshot counts the distinct task instances ever recorded that are in the window. */
  lemma PruningIsInvisible(ops: seq<Op>, cap: nat, window: int, now: int, before: Events, snapshot: Counts, s: nat, c: nat)
    requires Reaches(ops, cap, window, before) && NeverFull(ops, cap, window)
    requires OneEventPerKey(Ever(ops)) && ClockNeverBack(ops, now)
    requires Tallies(snapshot, Fresh(before, now, window))
    ensures CountIn(snapshot, s, c) == |InWindow(ops, s, c, now, window)|
  {
    ReachesUnbounded(ops, cap, window, before);
    DroppedIsStale(ops, window, now, Ever(ops));
    SameKeys(ops, Unbounded(ops, window), window, now, s, c);
  }

  lemma SameKeys(ops: seq<Op>, held: Events, window: int, now: int, s: nat, c: nat)
    requires OneEventPerKey(Ever(ops))
    requires forall k :: k in held ==> held[k] in Ever(ops) && held[k].key == k
    requires forall e :: e in Ever(ops) && e.key !in held ==> now - e.since >= window
    ensures KeysOf(Fresh(held, now, window), s, c) == InWindow(ops, s, c, now, window)
  {
    var kept := Fresh(held, now, window);
    forall k | k in InWindow(ops, s, c, now, window) ensures k in KeysOf(kept, s, c) {
      var e :| e in Ever(ops) && e.key.service == s && e.kind == c && now - e.since < window && e.key == k;
      assert k in held && held[k] == e;
    }
    forall k | k in KeysOf(kept, s, c) ensures k in InWindow(ops, s, c, now, window) {
      assert held[k] in Ever(ops);
    }
  }

  // ----- the newest events, over runs -----

  /** One event recorded, or one reader's snapshot. */
  datatype Move = Insert(e: Event) | See(now: int)

  ghost predicate Runs(moves: seq<Move>, states: seq<Events>, cap: nat, window: int) {
    && |states| == |moves| + 1 && states[0] == map[]
    && forall i :: 0 <= i < |moves| ==> MovesAt(moves, states, cap, window, i)
  }

  ghost predicate MovesAt(moves: seq<Move>, states: seq<Events>, cap: nat, window: int, i: nat)
    requires i < |moves| && |states| == |moves| + 1
  {
    Moves(states[i], moves[i], cap, window, states[i + 1])
  }

  ghost predicate Moves(before: Events, m: Move, cap: nat, window: int, after: Events) {
    match m
    case Insert(e) => RecordsOne(before, e, cap, after)
    case See(now) => after == Fresh(before, now, window)
  }

  /** The events recorded by the first i moves. */
  function SeenBy(moves: seq<Move>, i: nat): set<Event>
    requires i <= |moves|
  {
    if i == 0 then {} else SeenBy(moves, i - 1) + if moves[i - 1].Insert? then {moves[i - 1].e} else {}
  }

  /** The latest time that some reader has seen out of its window. */
  function Floor(moves: seq<Move>, i: nat, window: int): Option<int>
    requires i <= |moves|
  {
    if i == 0 then None
    else if moves[i - 1].Insert? then Floor(moves, i - 1, window)
    else Raise(Floor(moves, i - 1, window), moves[i - 1].now - window)
  }

  function Raise(floor: Option<int>, t: int): Option<int> {
    if floor.Some? && floor.value >= t then floor else Some(t)
  }

  predicate Stale(e: Event, floor: Option<int>) {
    floor.Some? && e.since <= floor.value
  }

  predicate Above(e: Event, held: Events) {
    forall k :: k in held ==> e.since <= held[k].since
  }

  /** Whatever was recorded so far and is not held is out of the window, or not newer than
      anything held. */
  ghost predicate HoldsNewest(seen: set<Event>, floor: Option<int>, held: Events) {
    forall e :: e in seen && e.key !in held ==> Stale(e, floor) || Above(e, held)
  }

  /** The event does not meet a full tracker in which all is newer and in the window. */
  predicate Admits(e: Event, floor: Option<int>, cap: nat, held: Events) {
    e.key !in held && |held| >= cap ==> exists k :: k in held && (held[k].since <= e.since || Stale(held[k], floor))
  }

  /** The invariant behind it: what was let go and is still in the window met a full tracker. */
  ghost predicate NewestInv(seen: set<Event>, floor: Option<int>, cap: nat, held: Events) {
    && |held| <= cap
    && (forall k :: k in held ==> held[k] in seen && held[k].key == k)
    && forall e :: e in seen && e.key !in held ==> LetGo(e, floor, cap, held)
  }

  predicate LetGo(e: Event, floor: Option<int>, cap: nat, held: Events) {
    Stale(e, floor) || (|held| >= cap && Above(e, held))
  }

  lemma SeeKeepsNewest(seen: set<Event>, floor: Option<int>, cap: nat, before: Events, now: int, window: int)
    requires NewestInv(seen, floor, cap, before) && OneEventPerKey(seen)
    ensures NewestInv(seen, Raise(floor, now - window), cap, Fresh(before, now, window))
  {
    var after, up := Fresh(before, now, window), Raise(floor, now - window);
    FreshIsSmaller(before, now, window);
    forall e | e in seen && e.key !in after ensures LetGo(e, up, cap, after) {
      if e.key in before {
        assert before[e.key] == e;
      } else if gone: Key :| gone in before && gone !in after {
        assert LetGo(e, floor, cap, before) && Stale(before[gone], up);
      } else {
        assert after == before && LetGo(e, floor, cap, before);
      }
    }
  }

  lemma KnownKeepsNewest(seen: set<Event>, floor: Option<int>, cap: nat, held: Events, e: Event)
    requires NewestInv(seen, floor, cap, held) && e.key in held
    ensures NewestInv(seen + {e}, floor, cap, held)
  {
  }

  lemma FitKeepsNewest(seen: set<Event>, floor: Option<int>, cap: nat, before: Events, e: Event)
    requires NewestInv(seen, floor, cap, before) && e.key !in before && |before| < cap
    ensures NewestInv(seen + {e}, floor, cap, before[e.key := e])
  {
    var after := before[e.key := e];
    assert after.Keys == before.Keys + {e.key};
    assert |after| == |after.Keys|;
    forall x | x in seen + {e} && x.key !in after ensures LetGo(x, floor, cap, after) {
      assert x in seen && LetGo(x, floor, cap, before);
    }
  }

  function Swap(before: Events, victim: Key, e: Event): Events {
    (before - {victim})[e.key := e]
  }

  lemma SwapFacts(before: Events, victim: Key, e: Event)
    requires victim in before && e.key !in before
    ensures |Swap(before, victim, e)| == |before|
    ensures forall k :: k in Swap(before, victim, e) <==> k == e.key || (k in before && k != victim)
    ensures forall k :: k in Swap(before, victim, e) ==> Swap(before, victim, e)[k] == if k == e.key then e else before[k]
  {
    assert Swap(before, victim, e).Keys == (before.Keys - {victim}) + {e.key};
    assert |Swap(before, victim, e)| == |Swap(before, victim, e).Keys|;
  }

  /** Above what was held, and admitted: above what is held after the swap. */
  lemma AboveAfterSwap(x: Event, floor: Option<int>, cap: nat, before: Events, e: Event, victim: Key)
    requires |before| == cap && e.key !in before && victim in before && Admits(e, floor, cap, before)
    requires Above(x, before) && !Stale(x, floor)
    ensures Above(x, Swap(before, victim, e))
  {
    SwapFacts(before, victim, e);
    var h :| h in before && (before[h].since <= e.since || Stale(before[h], floor));
    assert x.since <= before[h].since;
  }

  /** An admitted event in a full tracker. */
  lemma EvictKeepsNewest(seen: set<Event>, floor: Option<int>, cap: nat, before: Events, e: Event, victim: Key)
    requires NewestInv(seen, floor, cap, before) && OneEventPerKey(seen + {e})
    requires |before| == cap && e.key !in before && Oldest(before, victim) && Admits(e, floor, cap, before)
    ensures NewestInv(seen + {e}, floor, cap, Swap(before, victim, e))
  {
    SwapFacts(before, victim, e);
    forall x | x in seen + {e} && x.key !in Swap(before, victim, e) ensures LetGo(x, floor, cap, Swap(before, victim, e)) {
      assert x in seen && (x.key in before ==> before[x.key] == x && x.key == victim);
      assert x.key !in before ==> LetGo(x, floor, cap, before);
      if !Stale(x, floor) { AboveAfterSwap(x, floor, cap, before, e, victim); }
    }
  }

  lemma InsertKeepsNewest(seen: set<Event>, floor: Option<int>, cap: nat, before: Events, e: Event, after: Events)
    requires cap >= 1 && RecordsOne(before, e, cap, after) && NewestInv(seen, floor, cap, before)
    requires OneEventPerKey(seen + {e}) && Admits(e, floor, cap, before)
    ensures NewestInv(seen + {e}, floor, cap, after)
  {
    if e.key in before {
      KnownKeepsNewest(seen, floor, cap, before, e);
    } else if |before| < cap {
      FitKeepsNewest(seen, floor, cap, before, e);
    } else {
      var victim :| Oldest(before, victim) && after == Swap(before, victim, e);
      EvictKeepsNewest(seen, floor, cap, before, e, victim);
    }
  }

  lemma RefusedLosesNewer(seen: set<Event>, floor: Option<int>, cap: nat, before: Events, e: Event, after: Events)
    requires cap >= 1 && RecordsOne(before, e, cap, after) && NewestInv(seen, floor, cap, before)
    requires !Admits(e, floor, cap, before)
    ensures !HoldsNewest(seen + {e}, floor, after)
  {
    var victim :| Oldest(before, victim) && after == (before - {victim})[e.key := e];
    var lost := before[victim];
    assert lost in seen && lost.key == victim && victim !in after;
    assert after[e.key] == e && lost.since > e.since;
    assert !Stale(lost, floor) && !Above(lost, after);
  }

  predicate AdmitsAt(moves: seq<Move>, states: seq<Events>, cap: nat, window: int, i: nat)
    requires i < |moves| && i < |states|
  {
    moves[i].Insert? ==> Admits(moves[i].e, Floor(moves, i, window), cap, states[i])
  }

  ghost predicate HoldsAt(moves: seq<Move>, states: seq<Events>, window: int, i: nat)
    requires i <= |moves| && i < |states|
  {
    HoldsNewest(SeenBy(moves, i), Floor(moves, i, window), states[i])
  }

  lemma {:induction false} SeenGrows(moves: seq<Move>, i: nat, j: nat)
    requires i <= j <= |moves|
    ensures SeenBy(moves, i) <= SeenBy(moves, j)
  {
    if i < j { SeenGrows(moves, i, j - 1); }
  }

  lemma FewerEvents(a: set<Event>, b: set<Event>)
    requires a <= b && OneEventPerKey(b)
    ensures OneEventPerKey(a)
  {
  }

  ghost predicate NewestAt(moves: seq<Move>, states: seq<Events>, cap: nat, window: int, i: nat)
    requires i <= |moves| && i < |states|
  {
    NewestInv(SeenBy(moves, i), Floor(moves, i, window), cap, states[i])
  }

  lemma SeeMove(moves: seq<Move>, states: seq<Events>, cap: nat, window: int, i: nat)
    requires i < |moves| && moves[i].See? && |states| == |moves| + 1 && MovesAt(moves, states, cap, window, i)
    requires OneEventPerKey(SeenBy(moves, i)) && NewestAt(moves, states, cap, window, i)
    ensures NewestAt(moves, states, cap, window, i + 1)
  {
    assert SeenBy(moves, i + 1) == SeenBy(moves, i);
    assert Floor(moves, i + 1, window) == Raise(Floor(moves, i, window), moves[i].now - window);
    SeeKeepsNewest(SeenBy(moves, i), Floor(moves, i, window), cap, states[i], moves[i].now, window);
  }

  lemma InsertMove(moves: seq<Move>, states: seq<Events>, cap: nat, window: int, i: nat)
    requires cap >= 1 && i < |moves| && moves[i].Insert? && |states| == |moves| + 1 && MovesAt(moves, states, cap, window, i)
    requires OneEventPerKey(SeenBy(moves, i + 1)) && AdmitsAt(moves, states, cap, window, i)
    requires NewestAt(moves, states, cap, window, i)
    ensures NewestAt(moves, states, cap, window, i + 1)
  {
    var e := moves[i].e;
    assert SeenBy(moves, i + 1) == SeenBy(moves, i) + {e};
    assert Floor(moves, i + 1, window) == Floor(moves, i, window);
    InsertKeepsNewest(SeenBy(moves, i), Floor(moves, i, window), cap, states[i], e, states[i + 1]);
  }

  lemma FewerSeen(moves: seq<Move>, i: nat)
    requires i <= |moves| && OneEventPerKey(SeenBy(moves, |moves|))
    ensures OneEventPerKey(SeenBy(moves, i))
  {
    SeenGrows(moves, i, |moves|);
    FewerEvents(SeenBy(moves, i), SeenBy(moves, |moves|));
  }

  lemma {:induction false} AdmittedKeepsNewest(moves: seq<Move>, states: seq<Events>, cap: nat, window: int, i: nat)
    requires cap >= 1 && Runs(moves, states, cap, window) && i <= |moves|
    requires OneEventPerKey(SeenBy(moves, |moves|))
    requires forall j :: 0 <= j < i ==> AdmitsAt(moves, states, cap, window, j)
    ensures NewestAt(moves, states, cap, window, i)
  {
    if i > 0 {
      var j := i - 1;
      AdmittedKeepsNewest(moves, states, cap, window, j);
      FewerSeen(moves, j);
      FewerSeen(moves, i);
      if moves[j].See? {
        SeeMove(moves, states, cap, window, j);
      } else {
        InsertMove(moves, states, cap, window, j);
      }
    }
  }

  /** Over any run of records and reads, from the empty tracker: at every moment all that was let
      go is out of the window or not newer than anything held, exactly if every new event that
      met a full tracker found a held one that is not newer, or is out of the window. */
  lemma NewestAreHeldIff(moves: seq<Move>, states: seq<Events>, cap: nat, window: int)
    requires cap >= 1 && Runs(moves, states, cap, window) && OneEventPerKey(SeenBy(moves, |moves|))
    ensures (forall i :: 0 <= i <= |moves| ==> HoldsAt(moves, states, window, i))
            <==> (forall i :: 0 <= i < |moves| ==> AdmitsAt(moves, states, cap, window, i))
  {
    if forall i :: 0 <= i < |moves| ==> AdmitsAt(moves, states, cap, window, i) {
      forall i | 0 <= i <= |moves| ensures HoldsAt(moves, states, window, i) {
        AdmittedKeepsNewest(moves, states, cap, window, i);
      }
    } else {
      var i := FirstRefused(moves, states, cap, window, 0);
      AdmittedKeepsNewest(moves, states, cap, window, i);
      assert MovesAt(moves, states, cap, window, i);
      RefusedLosesNewer(SeenBy(moves, i), Floor(moves, i, window), cap, states[i], moves[i].e, states[i + 1]);
      assert !HoldsAt(moves, states, window, i + 1);
    }
  }

  lemma FirstRefused(moves: seq<Move>, states: seq<Events>, cap: nat, window: int, from: nat) returns (i: nat)
    requires Runs(moves, states, cap, window) && from <= |moves|
    requires forall j :: 0 <= j < from ==> AdmitsAt(moves, states, cap, window, j)
    requires !forall j :: 0 <= j < |moves| ==> AdmitsAt(moves, states, cap, window, j)
    ensures i < |moves| && !AdmitsAt(moves, states, cap, window, i)
    ensures forall j :: 0 <= j < i ==> AdmitsAt(moves, states, cap, window, j)
    decreases |moves| - from
  {
    if from < |moves| && AdmitsAt(moves, states, cap, window, from) {
      i := FirstRefused(moves, states, cap, window, from + 1);
    } else {
      i := from;
    }
  }

  // ----- batches are such runs -----

  function Inserts(batch: seq<Event>): seq<Move> {
    seq(|batch|, i requires 0 <= i < |batch| => Insert(batch[i]))
  }

  function OpMoves(op: Op): seq<Move> {
    match op
    case Recorded(batch) => Inserts(batch)
    case Read(now) => [See(now)]
  }

  function MovesOf(ops: seq<Op>): seq<Move> {
    if ops == [] then [] else MovesOf(ops[..|ops| - 1]) + OpMoves(ops[|ops| - 1])
  }

  lemma OneMoreMove(moves: seq<Move>, states: seq<Events>, cap: nat, window: int, m: Move, after: Events)
    requires Runs(moves, states, cap, window) && Moves(states[|moves|], m, cap, window, after)
    ensures Runs(moves + [m], states + [after], cap, window)
  {
    var more, all := moves + [m], states + [after];
    forall i | 0 <= i < |more| ensures MovesAt(more, all, cap, window, i) {
      if i < |moves| { assert MovesAt(moves, states, cap, window, i); }
    }
  }

  lemma InsertsLast(moves: seq<Move>, batch: seq<Event>)
    requires batch != []
    ensures moves + Inserts(batch) == (moves + Inserts(batch[..|batch| - 1])) + [Insert(batch[|batch| - 1])]
  {
  }

  /** The run of moves ends in `last`. */
  ghost predicate Leads(moves: seq<Move>, states: seq<Events>, cap: nat, window: int, last: Events) {
    Runs(moves, states, cap, window) && states[|moves|] == last
  }

  lemma LastInsertAsMove(moves: seq<Move>, front: seq<Events>, batch: seq<Event>, cap: nat, window: int,
                         mid: Events, after: Events)
    requires batch != [] && Leads(moves + Inserts(batch[..|batch| - 1]), front, cap, window, mid)
    requires RecordsOne(mid, batch[|batch| - 1], cap, after)
    ensures Leads(moves + Inserts(batch), front + [after], cap, window, after)
  {
    var n := |batch| - 1;
    OneMoreMove(moves + Inserts(batch[..n]), front, cap, window, Insert(batch[n]), after);
    InsertsLast(moves, batch);
  }

  lemma {:induction false} BatchAsMoves(moves: seq<Move>, states: seq<Events>, batch: seq<Event>, cap: nat, window: int,
                                        before: Events, after: Events) returns (all: seq<Events>)
    requires Leads(moves, states, cap, window, before) && Records(before, batch, cap, after)
    ensures Leads(moves + Inserts(batch), all, cap, window, after)
    decreases |batch|
  {
    if batch == [] {
      all := states;
      assert moves + Inserts(batch) == moves;
    } else {
      var n := |batch| - 1;
      var mid :| Records(before, batch[..n], cap, mid) && RecordsOne(mid, batch[n], cap, after);
      var front := BatchAsMoves(moves, states, batch[..n], cap, window, before, mid);
      LastInsertAsMove(moves, front, batch, cap, window, mid, after);
      all := front + [after];
    }
  }

  lemma OpAsMoves(moves: seq<Move>, states: seq<Events>, op: Op, cap: nat, window: int, before: Events, after: Events)
      returns (all: seq<Events>)
    requires Leads(moves, states, cap, window, before) && Follows(before, op, cap, window, after)
    ensures Leads(moves + OpMoves(op), all, cap, window, after)
  {
    match op
    case Recorded(batch) => all := BatchAsMoves(moves, states, batch, cap, window, before, after);
    case Read(now) =>
      OneMoreMove(moves, states, cap, window, See(now), after);
      all := states + [after];
  }

  /** Whatever the tracker may hold after batches and reads is the end of such a run. */
  lemma {:induction false} RunsAsMoves(ops: seq<Op>, cap: nat, window: int, events: Events) returns (states: seq<Events>)
    requires Reaches(ops, cap, window, events)
    ensures Leads(MovesOf(ops), states, cap, window, events)
    decreases |ops|
  {
    if ops == [] {
      states := [map[]];
    } else {
      var n := |ops| - 1;
      var mid :| Reaches(ops[..n], cap, window, mid) && Follows(mid, ops[n], cap, window, events);
      var before := RunsAsMoves(ops[..n], cap, window, mid);
      states := OpAsMoves(MovesOf(ops[..n]), before, ops[n], cap, window, mid, events);
    }
  }
}
