/** The manager's store of agent reports (internal/app/registry/registry.go), its gauge of
    connected agents (internal/adapter/observability/metrics.go), and the metric averaged over a
    snapshot (internal/adapter/metrics/distributed/distributed.go). */
module Agents {
  import opened Options

  /** Node ids; None for the empty string. */
  type Node = nat

  datatype TaskMetric = TaskMetric(service: nat, cpu: real, mem: real)

  datatype Report = Report(node: Option<Node>, tasks: seq<TaskMetric>)

  /** `source` None is the empty string. */
  datatype Entry = Entry(report: Report, lastSeen: int, source: Option<nat>)

  type Entries = map<Node, Entry>

  predicate ByNode(entries: Entries) {
    forall n :: n in entries ==> entries[n].report.node == Some(n)
  }

  predicate IsStale(e: Entry, now: int, stale: int) {
    now - e.lastSeen > stale
  }

  /** What Snapshot keeps. */
  function NotStale(entries: Entries, now: int, stale: int): Entries {
    map n | n in entries && !IsStale(entries[n], now, stale) :: entries[n]
  }

  /** A second agent reports for a node whose entry is still in use. */
  predicate IsDuplicate(entries: Entries, n: Node, source: Option<nat>, now: int, stale: int) {
    && n in entries && entries[n].source.Some? && source.Some? && entries[n].source != source
    && !IsStale(entries[n], now, stale)
  }

  /** `live` lists the reports of the entries, one per node. */
  ghost predicate Lists(live: seq<Report>, entries: Entries) {
    && |live| == |entries|
    && (forall i :: 0 <= i < |live| ==>
          live[i].node.Some? && live[i].node.value in entries && live[i] == entries[live[i].node.value].report)
    && (forall i, j :: 0 <= i < j < |live| ==> live[i].node != live[j].node)
  }

  class Registry {
    var entries: Entries
    const stale: int

    constructor (stale: int)
      ensures entries == map[] && this.stale == stale
    {
      entries := map[];
      this.stale := stale;
    }

    /** The locked part of Ingest; `now` is read before the lock is taken. */
    method Ingest(report: Report, source: Option<nat>, now: int) returns (ok: bool, existed: bool, duplicate: bool)
      requires ByNode(entries)
      modifies this`entries
      ensures ByNode(entries) && ok == report.node.Some?
      ensures !ok ==> entries == old(entries)
      ensures ok ==> && entries == old(entries)[report.node.value := Entry(report, now, source)]
                     && existed == (report.node.value in old(entries))
                     && duplicate == IsDuplicate(old(entries), report.node.value, source, now, stale)
      ensures ok ==> (duplicate <==> && existed && old(entries)[report.node.value].source.Some? && source.Some?
                                     && old(entries)[report.node.value].source.value != source.value
                                     && now - old(entries)[report.node.value].lastSeen <= stale)
    {
      if report.node.None? {
        return false, false, false;
      }
      var n := report.node.value;
      ok, existed, duplicate := true, n in entries, false;
      if existed {
        var prev := entries[n];
        duplicate := prev.source.Some? && source.Some? && prev.source != source && now - prev.lastSeen <= stale;
      }
      entries := entries[n := Entry(report, now, source)];
    }

    /** The locked part of Snapshot. */
    method Snapshot(now: int) returns (live: seq<Report>, evicted: seq<Node>)
      requires ByNode(entries)
      modifies this`entries
      ensures ByNode(entries) && entries == NotStale(old(entries), now, stale)
      ensures forall n :: n in entries <==> n in old(entries) && now - old(entries)[n].lastSeen <= stale
      ensures Lists(live, entries)
      ensures multiset(evicted) == multiset(old(entries).Keys - entries.Keys)
    {
      live, evicted := [], [];
      var todo := entries.Keys;
      ghost var kept: Entries := map[];
      while todo != {}
        invariant Swept(old(entries), entries, kept, todo, now, stale)
        invariant ByNode(entries) && Lists(live, kept)
        invariant multiset(evicted) == multiset(old(entries).Keys - entries.Keys)
      {
        var n :| n in todo;
        var e := entries[n];
        SweptStep(old(entries), entries, kept, todo, now, stale, n);
        todo := todo - {n};
        if now - e.lastSeen > stale {
          EvictOne(old(entries).Keys, entries.Keys, n);
          entries := entries - {n};
          evicted := evicted + [n];
        } else {
          ListsMore(live, kept, n, e);
          live := live + [e.report];
          kept := kept[n := e];
        }
      }
      SweptEnd(old(entries), entries, kept, now, stale);
    }
  }

  /** The loop of Snapshot: nodes outside `todo` are evicted or listed. */
  ghost predicate Swept(before: Entries, entries: Entries, kept: Entries, todo: set<Node>, now: int, stale: int) {
    && entries.Keys <= before.Keys && kept.Keys <= before.Keys && todo <= before.Keys
    && forall n :: n in before ==>
         && Get(entries, n) == (if n in todo || !IsStale(before[n], now, stale) then Some(before[n]) else None)
         && Get(kept, n) == (if n !in todo && !IsStale(before[n], now, stale) then Some(before[n]) else None)
  }

  lemma SweptStep(before: Entries, entries: Entries, kept: Entries, todo: set<Node>, now: int, stale: int, n: Node)
    requires Swept(before, entries, kept, todo, now, stale) && n in todo
    ensures n in before && n in entries && entries[n] == before[n] && n !in kept
    ensures if IsStale(before[n], now, stale) then Swept(before, entries - {n}, kept, todo - {n}, now, stale)
            else Swept(before, entries, kept[n := before[n]], todo - {n}, now, stale)
  {
    assert Get(entries, n) == Some(before[n]) && Get(kept, n) == None;
  }

  lemma SweptEnd(before: Entries, entries: Entries, kept: Entries, now: int, stale: int)
    requires Swept(before, entries, kept, {}, now, stale)
    ensures kept == entries == NotStale(before, now, stale)
  {
    forall n ensures Get(entries, n) == Get(kept, n) == Get(NotStale(before, now, stale), n) {
    }
    SameMap(entries, NotStale(before, now, stale));
    SameMap(kept, NotStale(before, now, stale));
  }

  lemma EvictOne(before: set<Node>, held: set<Node>, n: Node)
    requires held <= before && n in held
    ensures multiset(before - (held - {n})) == multiset(before - held) + multiset{n}
  {
    assert before - (held - {n}) == (before - held) + {n};
  }

  lemma ListsMore(live: seq<Report>, entries: Entries, n: Node, e: Entry)
    requires Lists(live, entries) && n !in entries && e.report.node == Some(n)
    ensures Lists(live + [e.report], entries[n := e])
  {
    assert entries[n := e].Keys == entries.Keys + {n};
    var more := live + [e.report];
    forall i, j | 0 <= i < j < |more| ensures more[i].node != more[j].node {
      assert i < |live| && live[i].node.value in entries;
    }
  }

  // ----- concurrent calls -----

  /** The registry between the locked steps of any number of concurrent calls, with the events
      they still have to emit and those they have emitted. */
  datatype Fleet = Fleet(entries: Entries, connects: multiset<Node>, disconnects: multiset<Node>,
                         connected: multiset<Node>, disconnected: multiset<Node>)

  /** The gauge of connected agents. */
  function Gauge(f: Fleet): int {
    |f.connected| - |f.disconnected|
  }

  datatype Step =
    | IngestLocked(report: Report, source: Option<nat>, now: int)
    | SnapshotLocked(now: int)
    | EmitConnected(n: Node)
    | EmitDisconnected(n: Node)

  predicate Enabled(f: Fleet, st: Step) {
    match st
    case IngestLocked(report, _, _) => report.node.Some?
    case SnapshotLocked(_) => true
    case EmitConnected(n) => n in f.connects
    case EmitDisconnected(n) => n in f.disconnects
  }

  function Next(f: Fleet, st: Step, stale: int): Fleet
    requires Enabled(f, st)
  {
    match st
    case IngestLocked(report, source, now) =>
      var n := report.node.value;
      f.(entries := f.entries[n := Entry(report, now, source)],
         connects := if n in f.entries then f.connects else f.connects + multiset{n})
    case SnapshotLocked(now) =>
      var kept := NotStale(f.entries, now, stale);
      f.(entries := kept, disconnects := f.disconnects + multiset(f.entries.Keys - kept.Keys))
    case EmitConnected(n) => f.(connects := f.connects - multiset{n}, connected := f.connected + multiset{n})
    case EmitDisconnected(n) =>
      f.(disconnects := f.disconnects - multiset{n}, disconnected := f.disconnected + multiset{n})
  }

  function Start(): Fleet {
    Fleet(map[], multiset{}, multiset{}, multiset{}, multiset{})
  }

  ghost predicate Reaches(steps: seq<Step>, stale: int, f: Fleet)
    decreases |steps|
  {
    if steps == [] then f == Start()
    else
      var n := |steps| - 1;
      exists mid :: Reaches(steps[..n], stale, mid) && Follows(mid, steps[n], stale, f)
  }

  ghost predicate Follows(f: Fleet, st: Step, stale: int, g: Fleet) {
    Enabled(f, st) && g == Next(f, st, stale)
  }

  /** Node by node: the connects and disconnects, emitted or not, differ by the entry. */
  ghost predicate Balanced(f: Fleet) {
    forall n :: f.connected[n] + f.connects[n] == f.disconnected[n] + f.disconnects[n] + if n in f.entries then 1 else 0
  }

  lemma NextKeepsBalance(f: Fleet, st: Step, stale: int)
    requires Balanced(f) && Enabled(f, st)
    ensures Balanced(Next(f, st, stale))
  {
    var g := Next(f, st, stale);
    if st.SnapshotLocked? {
      var gone := f.entries.Keys - g.entries.Keys;
      forall n ensures multiset(gone)[n] == if n in f.entries && n !in g.entries then 1 else 0 {
      }
    }
  }

  lemma {:induction false} ReachableBalance(steps: seq<Step>, stale: int, f: Fleet)
    requires Reaches(steps, stale, f)
    ensures Balanced(f) && ByNode(f.entries)
    decreases |steps|
  {
    if steps != [] {
      var n := |steps| - 1;
      var mid :| Reaches(steps[..n], stale, mid) && Follows(mid, steps[n], stale, f);
      ReachableBalance(steps[..n], stale, mid);
      NextKeepsBalance(mid, steps[n], stale);
    }
  }

  /** In every reachable state the gauge, with the pending connects and without the pending
      disconnects, is the number of entries. */
  lemma GaugeIsConserved(steps: seq<Step>, stale: int, f: Fleet)
    requires Reaches(steps, stale, f)
    ensures Gauge(f) + |f.connects| - |f.disconnects| == |f.entries|
  {
    ReachableBalance(steps, stale, f);
    var entries := multiset(f.entries.Keys);
    assert f.connected + f.connects == f.disconnected + f.disconnects + entries;
    assert |f.connected + f.connects| == |f.connected| + |f.connects|;
    assert |f.disconnected + f.disconnects + entries| == |f.disconnected| + |f.disconnects| + |entries|;
    assert |entries| == |f.entries.Keys| == |f.entries|;
  }

  /** A disconnect that is emitted only after every connect of its node. */
  predicate InOrder(f: Fleet, st: Step) {
    st.EmitDisconnected? ==> st.n !in f.connects
  }

  ghost predicate ReachesInOrder(steps: seq<Step>, stale: int, f: Fleet)
    decreases |steps|
  {
    if steps == [] then f == Start()
    else
      var n := |steps| - 1;
      exists mid :: ReachesInOrder(steps[..n], stale, mid) && Follows(mid, steps[n], stale, f) && InOrder(mid, steps[n])
  }

  lemma InOrderKeepsNodesUp(f: Fleet, st: Step, stale: int)
    requires Balanced(f) && Enabled(f, st) && InOrder(f, st) && f.disconnected <= f.connected
    ensures Next(f, st, stale).disconnected <= Next(f, st, stale).connected
  {
    var g := Next(f, st, stale);
    if st.EmitDisconnected? {
      assert f.connects[st.n] == 0 && f.disconnects[st.n] > 0;
      assert f.connected[st.n] > f.disconnected[st.n];
      forall n ensures g.disconnected[n] <= g.connected[n] {
        assert f.disconnected[n] <= f.connected[n];
      }
    }
  }

  /** As long as no disconnect overtakes its node's connect, the gauge is never negative. */
  lemma {:induction false} GaugeInOrder(steps: seq<Step>, stale: int, f: Fleet)
    requires ReachesInOrder(steps, stale, f)
    ensures Balanced(f) && f.disconnected <= f.connected && Gauge(f) >= 0
    decreases |steps|
  {
    if steps != [] {
      var n := |steps| - 1;
      var mid :| ReachesInOrder(steps[..n], stale, mid) && Follows(mid, steps[n], stale, f) && InOrder(mid, steps[n]);
      GaugeInOrder(steps[..n], stale, mid);
      NextKeepsBalance(mid, steps[n], stale);
      InOrderKeepsNodesUp(mid, steps[n], stale);
    }
    assert f.connected == f.disconnected + (f.connected - f.disconnected);
  }

  ghost predicate CanReach(stale: int, f: Fleet) {
    exists steps :: Reaches(steps, stale, f)
  }

  /** One node in, its connect pending. */
  function Ingested(n: Node): Fleet {
    Fleet(map[n := Entry(Report(Some(n), []), 0, None)], multiset{n}, multiset{}, multiset{}, multiset{})
  }

  lemma ReachIngested(n: Node, stale: int)
    ensures CanReach(stale, Ingested(n))
  {
    assert Reaches([], stale, Start());
    OneMore(stale, Start(), IngestLocked(Report(Some(n), []), None, 0), Ingested(n));
  }

  lemma IngestThenEvict(n: Node, stale: int)
    ensures CanReach(stale, Ingested(n).(entries := map[], disconnects := multiset{n}))
  {
    ReachIngested(n, stale);
    var f, st := Ingested(n), SnapshotLocked(stale + 1);
    var kept := NotStale(f.entries, stale + 1, stale);
    assert kept == map[];
    assert f.entries.Keys == {n} && kept.Keys == {};
    assert {n} - {} == {n};
    assert multiset{} + multiset({n}) == multiset{n};
    OneMore(stale, f, st, f.(entries := map[], disconnects := multiset{n}));
  }

  /** Because events are emitted after the lock is released, a disconnect can overtake its
      connect and the gauge can go below zero. */
  lemma GaugeCanBeNegative(n: Node, stale: int) returns (f: Fleet)
    ensures CanReach(stale, f) && Gauge(f) == -1
  {
    IngestThenEvict(n, stale);
    f := Fleet(map[], multiset{n}, multiset{}, multiset{}, multiset{n});
    OneMore(stale, Ingested(n).(entries := map[], disconnects := multiset{n}), EmitDisconnected(n), f);
  }

  lemma OneMore(stale: int, f: Fleet, st: Step, g: Fleet)
    requires CanReach(stale, f) && Enabled(f, st) && g == Next(f, st, stale)
    ensures CanReach(stale, g)
  {
    var steps :| Reaches(steps, stale, f);
    ReachesMore(steps, stale, f, st, g);
  }

  lemma ReachesMore(steps: seq<Step>, stale: int, f: Fleet, st: Step, g: Fleet)
    requires Reaches(steps, stale, f) && Follows(f, st, stale, g)
    ensures Reaches(steps + [st], stale, g)
  {
    var all := steps + [st];
    assert all[..|all| - 1] == steps && all[|all| - 1] == st;
  }

  // ----- what the gauge can show for given calls -----

  /** A step under the lock; the others emit an event. */
  predicate IsLocked(st: Step) {
    st.SnapshotLocked? || (st.IngestLocked? && st.report.node.Some?)
  }

  predicate AllLocked(locked: seq<Step>) {
    forall st :: st in locked ==> IsLocked(st)
  }

  /** The locked steps of a run, in order. */
  function LockedOf(steps: seq<Step>): seq<Step> {
    if steps == [] then []
    else LockedOf(steps[..|steps| - 1]) + if IsLocked(steps[|steps| - 1]) then [steps[|steps| - 1]] else []
  }

  /** The entries after some locked steps. */
  function EntriesOf(locked: seq<Step>, stale: int): Entries {
    if locked == [] then map[]
    else
      var entries := EntriesOf(locked[..|locked| - 1], stale);
      match locked[|locked| - 1]
      case IngestLocked(report, source, now) =>
        if report.node.Some? then entries[report.node.value := Entry(report, now, source)] else entries
      case SnapshotLocked(now) => NotStale(entries, now, stale)
      case _ => entries
  }

  /** How many of them met a node without an entry. */
  function Arrivals(locked: seq<Step>, stale: int): nat {
    if locked == [] then 0
    else
      var front, st := locked[..|locked| - 1], locked[|locked| - 1];
      Arrivals(front, stale) +
      if st.IngestLocked? && st.report.node.Some? && st.report.node.value !in EntriesOf(front, stale) then 1 else 0
  }

  function Gone(entries: Entries, now: int, stale: int): set<Node> {
    set n | n in entries && IsStale(entries[n], now, stale)
  }

  /** How many entries their snapshots evicted. */
  function Evictions(locked: seq<Step>, stale: int): nat {
    if locked == [] then 0
    else
      var front, st := locked[..|locked| - 1], locked[|locked| - 1];
      Evictions(front, stale) + if st.SnapshotLocked? then |Gone(EntriesOf(front, stale), st.now, stale)| else 0
  }

  /** The fleet has the entries, and as many connects and disconnects, emitted or not, as the locked
      steps have made. */
  ghost predicate Accounts(f: Fleet, locked: seq<Step>, stale: int) {
    && f.entries == EntriesOf(locked, stale)
    && |f.connects| + |f.connected| == Arrivals(locked, stale)
    && |f.disconnects| + |f.disconnected| == Evictions(locked, stale)
  }

  lemma LockedMore(steps: seq<Step>, st: Step)
    ensures LockedOf(steps + [st]) == LockedOf(steps) + if IsLocked(st) then [st] else []
  {
    assert (steps + [st])[..|steps|] == steps;
  }

  lemma SnapshotGone(entries: Entries, now: int, stale: int)
    ensures entries.Keys - NotStale(entries, now, stale).Keys == Gone(entries, now, stale)
  {
  }

  /** What one more locked step adds. */
  lemma TalliesMore(locked: seq<Step>, st: Step, stale: int)
    requires IsLocked(st)
    ensures var before, all := EntriesOf(locked, stale), locked + [st];
            if st.IngestLocked? then
              && EntriesOf(all, stale) == before[st.report.node.value := Entry(st.report, st.now, st.source)]
              && Arrivals(all, stale) == Arrivals(locked, stale) + (if st.report.node.value in before then 0 else 1)
              && Evictions(all, stale) == Evictions(locked, stale)
            else
              && EntriesOf(all, stale) == NotStale(before, st.now, stale)
              && Arrivals(all, stale) == Arrivals(locked, stale)
              && Evictions(all, stale) == Evictions(locked, stale) + |Gone(before, st.now, stale)|
  {
    assert (locked + [st])[..|locked|] == locked;
  }

  lemma NextAccounts(f: Fleet, locked: seq<Step>, st: Step, stale: int)
    requires Accounts(f, locked, stale) && Enabled(f, st)
    ensures Accounts(Next(f, st, stale), if IsLocked(st) then locked + [st] else locked, stale)
  {
    if IsLocked(st) { TalliesMore(locked, st, stale); }
    match st
    case IngestLocked(_, _, _) =>
    case SnapshotLocked(now) => SnapshotGone(f.entries, now, stale);
    case EmitConnected(n) => assert |f.connects - multiset{n}| == |f.connects| - 1;
    case EmitDisconnected(n) => assert |f.disconnects - multiset{n}| == |f.disconnects| - 1;
  }

  lemma AccountsMore(steps: seq<Step>, stale: int, before: Fleet, f: Fleet)
    requires steps != [] && Follows(before, steps[|steps| - 1], stale, f)
    requires Accounts(before, LockedOf(steps[..|steps| - 1]), stale)
    ensures Accounts(f, LockedOf(steps), stale)
  {
    var locked, st := LockedOf(steps[..|steps| - 1]), steps[|steps| - 1];
    NextAccounts(before, locked, st, stale);
    assert LockedOf(steps) == if IsLocked(st) then locked + [st] else locked;
  }

  lemma StartAccounts(stale: int)
    ensures Accounts(Start(), [], stale)
  {
  }

  lemma {:induction false} RunAccounts(steps: seq<Step>, stale: int, f: Fleet)
    requires Reaches(steps, stale, f)
    ensures Accounts(f, LockedOf(steps), stale)
    decreases |steps|
  {
    if steps == [] {
      StartAccounts(stale);
    } else {
      var n := |steps| - 1;
      var mid :| Reaches(steps[..n], stale, mid) && Follows(mid, steps[n], stale, f);
      RunAccounts(steps[..n], stale, mid);
      AccountsMore(steps, stale, mid, f);
    }
  }

  /** Some interleaving of the emissions with exactly these locked steps shows the value. */
  ghost predicate CanShow(locked: seq<Step>, stale: int, g: int) {
    exists steps, f :: Reaches(steps, stale, f) && LockedOf(steps) == locked && Gauge(f) == g
  }

  /** The locked steps alone are a run in which nothing is emitted. */
  lemma {:induction false} SilentRun(locked: seq<Step>, stale: int) returns (f: Fleet)
    requires AllLocked(locked)
    ensures Reaches(locked, stale, f) && LockedOf(locked) == locked && f.connected == f.disconnected == multiset{}
  {
    if locked == [] {
      f := Start();
    } else {
      var n := |locked| - 1;
      var mid := SilentRun(locked[..n], stale);
      assert locked[..n] + [locked[n]] == locked && locked[n] in locked;
      f := Next(mid, locked[n], stale);
      ReachesMore(locked[..n], stale, mid, locked[n], f);
    }
  }

  /** One emission: the locked steps stay, and the gauge moves by one. */
  lemma EmitOne(steps: seq<Step>, stale: int, f: Fleet, st: Step) returns (g: Fleet)
    requires Reaches(steps, stale, f) && Enabled(f, st) && !IsLocked(st)
    ensures Reaches(steps + [st], stale, g) && LockedOf(steps + [st]) == LockedOf(steps)
    ensures st.EmitConnected? ==> Gauge(g) == Gauge(f) + 1 && |g.connects| == |f.connects| - 1
    ensures st.EmitDisconnected? ==> Gauge(g) == Gauge(f) - 1 && |g.disconnects| == |f.disconnects| - 1
  {
    g := Next(f, st, stale);
    ReachesMore(steps, stale, f, st, g);
    LockedMore(steps, st);
  }

  lemma {:induction false} EmitConnects(steps: seq<Step>, stale: int, f: Fleet, m: nat)
    requires Reaches(steps, stale, f) && m <= |f.connects|
    ensures CanShow(LockedOf(steps), stale, Gauge(f) + m)
    decreases m
  {
    if m > 0 {
      var n :| n in f.connects;
      var g := EmitOne(steps, stale, f, EmitConnected(n));
      EmitConnects(steps + [EmitConnected(n)], stale, g, m - 1);
    }
  }

  lemma {:induction false} EmitDisconnects(steps: seq<Step>, stale: int, f: Fleet, m: nat)
    requires Reaches(steps, stale, f) && m <= |f.disconnects|
    ensures CanShow(LockedOf(steps), stale, Gauge(f) - m)
    decreases m
  {
    if m > 0 {
      var n :| n in f.disconnects;
      var g := EmitOne(steps, stale, f, EmitDisconnected(n));
      EmitDisconnects(steps + [EmitDisconnected(n)], stale, g, m - 1);
    }
  }

  /** Whatever the calls do under the lock, the values the gauge can show are exactly those from
      minus the evictions to the arrivals. */
  lemma GaugeRange(locked: seq<Step>, stale: int, g: int)
    requires AllLocked(locked)
    ensures CanShow(locked, stale, g) <==> g + Evictions(locked, stale) >= 0 && g <= Arrivals(locked, stale)
  {
    if CanShow(locked, stale, g) {
      var steps, f :| Reaches(steps, stale, f) && LockedOf(steps) == locked && Gauge(f) == g;
      RunAccounts(steps, stale, f);
    }
    if g + Evictions(locked, stale) >= 0 && g <= Arrivals(locked, stale) {
      var f := SilentRun(locked, stale);
      RunAccounts(locked, stale, f);
      if g >= 0 { EmitConnects(locked, stale, f, g); } else { EmitDisconnects(locked, stale, f, -g); }
    }
  }

  /** The k-th step is a snapshot that finds a stale entry. */
  predicate Evicts(locked: seq<Step>, stale: int, k: nat)
    requires k < |locked|
  {
    locked[k].SnapshotLocked? && Gone(EntriesOf(locked[..k], stale), locked[k].now, stale) != {}
  }

  lemma {:induction false} EvictionsMeaning(locked: seq<Step>, stale: int)
    ensures Evictions(locked, stale) > 0 <==> exists k :: 0 <= k < |locked| && Evicts(locked, stale, k)
  {
    if locked != [] {
      var n := |locked| - 1;
      var front := locked[..n];
      EvictionsMeaning(front, stale);
      forall k | 0 <= k < n ensures Evicts(front, stale, k) == Evicts(locked, stale, k) {
        assert front[..k] == locked[..k];
      }
      var more := if locked[n].SnapshotLocked? then |Gone(EntriesOf(front, stale), locked[n].now, stale)| else 0;
      assert Evicts(locked, stale, n) <==> more > 0;
      if k :| 0 <= k < n && Evicts(front, stale, k) { assert Evicts(locked, stale, k); }
    }
  }

  /** "The gauge is never negative" is false of the calls exactly when one of their snapshots evicts
      an entry. */
  lemma GaugeNegativeIff(locked: seq<Step>, stale: int)
    requires AllLocked(locked)
    ensures (exists g :: g < 0 && CanShow(locked, stale, g)) <==> exists k :: 0 <= k < |locked| && Evicts(locked, stale, k)
  {
    EvictionsMeaning(locked, stale);
    GaugeRange(locked, stale, -1);
    if g :| g < 0 && CanShow(locked, stale, g) { GaugeRange(locked, stale, g); }
  }

  /** The k-th step is the last report ingested for the node. */
  predicate LastIngest(steps: seq<Step>, n: Node, k: nat) {
    && k < |steps| && steps[k].IngestLocked? && steps[k].report.node == Some(n)
    && forall j :: k < j < |steps| && steps[j].IngestLocked? ==> steps[j].report.node != Some(n)
  }

  lemma LastIngestOfFront(steps: seq<Step>, n: Node, k: nat)
    requires steps != []
    ensures var m := |steps| - 1;
            && (k < m && LastIngest(steps, n, k) ==> LastIngest(steps[..m], n, k))
            && (k < m && LastIngest(steps[..m], n, k) && !(steps[m].IngestLocked? && steps[m].report.node == Some(n)) ==>
                  LastIngest(steps, n, k))
            && (k == m && steps[m].IngestLocked? && steps[m].report.node == Some(n) ==> LastIngest(steps, n, k))
  {
  }

  /** An entry is the last report ingested for its node, with the time it came in. */
  lemma {:induction false} EntryIsLastIngest(steps: seq<Step>, stale: int, f: Fleet, n: Node) returns (k: nat)
    requires Reaches(steps, stale, f) && n in f.entries
    ensures LastIngest(steps, n, k)
    ensures f.entries[n] == Entry(steps[k].report, steps[k].now, steps[k].source)
    decreases |steps|
  {
    var m := |steps| - 1;
    var mid :| Reaches(steps[..m], stale, mid) && Follows(mid, steps[m], stale, f);
    if steps[m].IngestLocked? && steps[m].report.node == Some(n) {
      k := m;
    } else {
      k := EntryIsLastIngest(steps[..m], stale, mid, n);
    }
    LastIngestOfFront(steps, n, k);
  }

  /** The entry of a node after some locked steps: its last report, unless a later snapshot found it
      older than the limit. */
  predicate LastSeen(locked: seq<Step>, stale: int, n: Node, k: nat) {
    && LastIngest(locked, n, k)
    && forall j :: k < j < |locked| && locked[j].SnapshotLocked? ==> locked[j].now - locked[k].now <= stale
  }

  lemma {:induction false} EntriesMean(locked: seq<Step>, stale: int, n: Node, e: Entry)
    ensures Get(EntriesOf(locked, stale), n) == Some(e)
            <==> exists k :: 0 <= k < |locked| && LastSeen(locked, stale, n, k)
                             && e == Entry(locked[k].report, locked[k].now, locked[k].source)
  {
    if locked != [] {
      var m := |locked| - 1;
      var front, st := locked[..m], locked[m];
      EntriesMean(front, stale, n, e);
      if st.IngestLocked? && st.report.node == Some(n) {
        assert LastSeen(locked, stale, n, m);
      } else {
        forall k | 0 <= k < m
          ensures LastSeen(locked, stale, n, k)
                  <==> LastSeen(front, stale, n, k) && (st.SnapshotLocked? ==> st.now - front[k].now <= stale)
        {
        }
      }
    }
  }

  lemma EvictsMeans(locked: seq<Step>, stale: int, k: nat)
    requires k < |locked|
    ensures Evicts(locked, stale, k) <==>
              && locked[k].SnapshotLocked?
              && exists n, j :: && 0 <= j < k && LastSeen(locked[..k], stale, n, j) && locked[k].now - locked[j].now > stale
  {
    var front := locked[..k];
    if Evicts(locked, stale, k) {
      var n :| n in Gone(EntriesOf(front, stale), locked[k].now, stale);
      EntriesMean(front, stale, n, EntriesOf(front, stale)[n]);
    }
    if locked[k].SnapshotLocked? {
      forall n, j | 0 <= j < k && LastSeen(front, stale, n, j) && locked[k].now - locked[j].now > stale
        ensures Evicts(locked, stale, k)
      {
        EntriesMean(front, stale, n, Entry(front[j].report, front[j].now, front[j].source));
        assert n in Gone(EntriesOf(front, stale), locked[k].now, stale);
      }
    }
  }

  // ----- the metric -----

  datatype Metric = Cpu | Memory | Unsupported

  datatype Reading = Value(avg: real) | NoData | UnsupportedMetric

  function Select(m: Metric, t: TaskMetric): real {
    if m.Memory? then t.mem else t.cpu
  }

  /** The service's tasks in one report: how many, and their sum. */
  function TaskCount(tasks: seq<TaskMetric>, service: nat): nat {
    if tasks == [] then 0
    else TaskCount(tasks[..|tasks| - 1], service) + if tasks[|tasks| - 1].service == service then 1 else 0
  }

  function TaskSum(tasks: seq<TaskMetric>, service: nat, m: Metric): real {
    if tasks == [] then 0.0
    else
      var t := tasks[|tasks| - 1];
      TaskSum(tasks[..|tasks| - 1], service, m) + if t.service == service then Select(m, t) else 0.0
  }

  /** Over all reports. */
  function Count(reports: seq<Report>, service: nat): nat {
    if reports == [] then 0 else Count(reports[..|reports| - 1], service) + TaskCount(reports[|reports| - 1].tasks, service)
  }

  function Sum(reports: seq<Report>, service: nat, m: Metric): real {
    if reports == [] then 0.0
    else Sum(reports[..|reports| - 1], service, m) + TaskSum(reports[|reports| - 1].tasks, service, m)
  }

  function Average(reports: seq<Report>, service: nat, m: Metric): Reading {
    if m.Unsupported? then UnsupportedMetric
    else if Count(reports, service) == 0 then NoData
    else Value(Sum(reports, service, m) / Count(reports, service) as real)
  }

  /** Provider.Value, over the reports of one snapshot. */
  method MetricValue(reports: seq<Report>, service: nat, m: Metric) returns (r: Reading)
    ensures r == Average(reports, service, m)
  {
    if m.Unsupported? {
      return UnsupportedMetric;
    }
    var sum, n := 0.0, 0;
    for i := 0 to |reports|
      invariant sum == Sum(reports[..i], service, m) && n == Count(reports[..i], service)
    {
      var tasks := reports[i].tasks;
      for j := 0 to |tasks|
        invariant sum == Sum(reports[..i], service, m) + TaskSum(tasks[..j], service, m)
        invariant n == Count(reports[..i], service) + TaskCount(tasks[..j], service)
      {
        assert tasks[..j + 1][..j] == tasks[..j];
        if tasks[j].service == service {
          sum, n := sum + Select(m, tasks[j]), n + 1;
        }
      }
      assert tasks[..|tasks|] == tasks && reports[..i + 1][..i] == reports[..i];
    }
    assert reports[..|reports|] == reports;
    if n == 0 {
      return NoData;
    }
    r := Value(sum / n as real);
  }

  /** What one task adds: itself to the count and the metric asked for to the sum, if it is the
      service's. */
  lemma OneTask(t: TaskMetric, service: nat, m: Metric)
    requires !m.Unsupported?
    ensures TaskCount([t], service) == if t.service == service then 1 else 0
    ensures TaskSum([t], service, m) == if t.service != service then 0.0 else if m == Cpu then t.cpu else t.mem
  {
    assert [t][..0] == [];
  }

  lemma {:induction false} TasksAdd(a: seq<TaskMetric>, b: seq<TaskMetric>, service: nat, m: Metric)
    ensures TaskCount(a + b, service) == TaskCount(a, service) + TaskCount(b, service)
    ensures TaskSum(a + b, service, m) == TaskSum(a, service, m) + TaskSum(b, service, m)
  {
    if b == [] {
      assert a + b == a;
    } else {
      var n := |b| - 1;
      assert (a + b)[..|a| + n] == a + b[..n];
      TasksAdd(a, b[..n], service, m);
    }
  }

  /** All tasks of all reports. */
  function AllTasks(reports: seq<Report>): seq<TaskMetric> {
    if reports == [] then [] else AllTasks(reports[..|reports| - 1]) + reports[|reports| - 1].tasks
  }

  lemma {:induction false} ReportsAreTasks(reports: seq<Report>, service: nat, m: Metric)
    ensures Count(reports, service) == TaskCount(AllTasks(reports), service)
    ensures Sum(reports, service, m) == TaskSum(AllTasks(reports), service, m)
  {
    if reports != [] {
      var n := |reports| - 1;
      ReportsAreTasks(reports[..n], service, m);
      TasksAdd(AllTasks(reports[..n]), reports[n].tasks, service, m);
    }
  }

  lemma {:induction false} NoTasks(tasks: seq<TaskMetric>, service: nat)
    ensures TaskCount(tasks, service) == 0 <==> forall i :: 0 <= i < |tasks| ==> tasks[i].service != service
  {
    if tasks != [] { NoTasks(tasks[..|tasks| - 1], service); }
  }

  /** The metric: no data exactly if no report has a task of the service; otherwise their sum over
      their number (OneTask and TasksAdd say what these are). */
  lemma AverageMeans(reports: seq<Report>, service: nat, m: Metric)
    requires !m.Unsupported?
    ensures var tasks, r := AllTasks(reports), Average(reports, service, m);
            if forall i :: 0 <= i < |tasks| ==> tasks[i].service != service then r == NoData
            else TaskCount(tasks, service) > 0 && r == Value(TaskSum(tasks, service, m) / TaskCount(tasks, service) as real)
  {
    ReportsAreTasks(reports, service, m);
    NoTasks(AllTasks(reports), service);
  }

  function Without(reports: seq<Report>, i: nat): seq<Report>
    requires i < |reports|
  {
    reports[..i] + reports[i + 1..]
  }

  lemma WithoutKeepsLast(reports: seq<Report>, i: nat)
    requires i < |reports| - 1
    ensures var rest := Without(reports, i);
            |rest| > 0 && rest[..|rest| - 1] == Without(reports[..|reports| - 1], i) && rest[|rest| - 1] == reports[|reports| - 1]
  {
  }

  lemma {:induction false} WithoutOne(reports: seq<Report>, i: nat, service: nat, m: Metric)
    requires i < |reports|
    ensures Count(reports, service) == Count(Without(reports, i), service) + TaskCount(reports[i].tasks, service)
    ensures Sum(reports, service, m) == Sum(Without(reports, i), service, m) + TaskSum(reports[i].tasks, service, m)
  {
    var n := |reports| - 1;
    if i == n {
      assert Without(reports, i) == reports[..n];
    } else {
      WithoutOne(reports[..n], i, service, m);
      WithoutKeepsLast(reports, i);
    }
  }

  /** Two lists of the same entries, in whatever order the map was walked, give one average:
      each node counts exactly once. */
  lemma {:induction false} AverageIgnoresOrder(a: seq<Report>, b: seq<Report>, entries: Entries, service: nat, m: Metric)
    requires Lists(a, entries) && Lists(b, entries)
    ensures Count(a, service) == Count(b, service) && Sum(a, service, m) == Sum(b, service, m)
    decreases |a|
  {
    if a == [] {
    } else {
      var last := a[|a| - 1];
      var n := last.node.value;
      var i := Find(b, entries, n);
      ListsLess(a, entries, |a| - 1);
      ListsLess(b, entries, i);
      assert Without(a, |a| - 1) == a[..|a| - 1];
      WithoutOne(b, i, service, m);
      AverageIgnoresOrder(a[..|a| - 1], Without(b, i), entries - {n}, service, m);
    }
  }

  /** One report per node and as many reports as nodes: every node is listed. */
  lemma Find(live: seq<Report>, entries: Entries, n: Node) returns (i: nat)
    requires Lists(live, entries) && n in entries
    ensures i < |live| && live[i].node == Some(n) && live[i] == entries[n].report
  {
    var nodes := set k | 0 <= k < |live| :: live[k].node.value;
    NodesCounted(live);
    assert nodes <= entries.Keys;
    if n !in nodes {
      assert nodes <= entries.Keys - {n};
      SubsetSize(nodes, entries.Keys - {n});
      assert false;
    }
    i :| 0 <= i < |live| && live[i].node.value == n;
  }

  lemma {:induction false} NodesCounted(live: seq<Report>)
    requires forall i :: 0 <= i < |live| ==> live[i].node.Some?
    requires forall i, j :: 0 <= i < j < |live| ==> live[i].node != live[j].node
    ensures |set k | 0 <= k < |live| :: live[k].node.value| == |live|
  {
    if live != [] {
      var n := |live| - 1;
      NodesCounted(live[..n]);
      assert (set k | 0 <= k < |live| :: live[k].node.value)
          == (set k | 0 <= k < n :: live[..n][k].node.value) + {live[n].node.value};
    }
  }

  lemma ListsLess(live: seq<Report>, entries: Entries, i: nat)
    requires Lists(live, entries) && i < |live|
    ensures Lists(Without(live, i), entries - {live[i].node.value})
  {
    var n := live[i].node.value;
    var rest := Without(live, i);
    assert (entries - {n}).Keys == entries.Keys - {n};
    assert |entries - {n}| == |(entries - {n}).Keys|;
    forall k | 0 <= k < |rest| ensures rest[k] == live[if k < i then k else k + 1] && rest[k].node != Some(n) {
    }
  }
}
