/** One sync pass over every stack: the bounded pool, the repository locks, the deferred calls
    and the statuses they leave (internal/app/gitopsync/loop.go: syncAll, syncStack,
    acquireRepoLock, recordStatus). */
module WorkerPool {
  import opened Options
  import opened StatusStore

  /** Where the goroutine of one stack stands. */
  datatype Phase =
    | NotStarted
    | Spawned                 // before the overlay "waiting"
    | AboutToLock             // overlay written
    | Blocked(lock: nat)      // mutex looked up, lock.Lock() called
    | Locked(lock: nat)       // mutex held, before the overlay "syncing"
    | Running(lock: nat)      // the pipeline
    | Unwinding               // unlocked, or never locked; recordStatus comes next
    | Recorded                // status written, the slot not yet given back
    | SlotFreed               // wg.Done comes next
    | Finished

  /** The goroutine of syncAll itself. */
  datatype Main = LoopHead | Added | SlotTaken | Returned

  /** The stacks' repositories, in the order of the stack list, and the bound, at least one. */
  datatype Pool = Pool(repos: seq<nat>, concurrency: nat) {
    predicate Valid() { concurrency >= 1 }
  }

  datatype System = System(
    phases: seq<Phase>,
    main: Main,
    next: nat,                 // stacks started so far
    wg: nat,                   // the wait group's counter
    sem: nat,                  // values in the semaphore channel
    locks: map<nat, nat>,      // repository -> mutex
    owners: seq<Option<nat>>,  // the mutexes made so far and who holds them
    items: Items,              // the status store
    records: seq<nat>)         // statuses written in this pass, per stack

  datatype Choice =
    | Add
    | TakeSlot
    | Spawn
    | Return
    | MarkWaiting(i: nat)
    | PanicUnlocked(i: nat)
    | LookUp(i: nat)
    | Lock(i: nat)
    | MarkSyncing(i: nat)
    | Unlock(i: nat)                      // the pipeline returned or panicked
    | Record(i: nat, status: StackStatus)
    | FreeSlot(i: nat)
    | Done(i: nat)

  predicate IsMain(ch: Choice) {
    ch.Add? || ch.TakeSlot? || ch.Spawn? || ch.Return?
  }

  predicate MainEnabled(p: Pool, s: System, ch: Choice)
    requires IsMain(ch)
  {
    match ch
    case Add => s.main.LoopHead? && s.next < |p.repos|
    case TakeSlot => s.main.Added? && s.sem < p.concurrency
    case Spawn => s.main.SlotTaken? && s.next < |s.phases|
    case Return => s.main.LoopHead? && s.next == |p.repos| && s.wg == 0
  }

  predicate HoldsLock(ph: Phase) {
    ph.Locked? || ph.Running?
  }

  predicate Enabled(p: Pool, s: System, ch: Choice) {
    if IsMain(ch) then MainEnabled(p, s, ch)
    else if !(ch.i < |s.phases| && ch.i < |p.repos| && ch.i < |s.records|) then false
    else
      var ph := s.phases[ch.i];
      match ch
      case MarkWaiting(_) => ph.Spawned?
      case PanicUnlocked(_) => ph.Spawned? || ph.AboutToLock?
      case LookUp(_) => ph.AboutToLock?
      case Lock(_) => ph.Blocked? && ph.lock < |s.owners| && s.owners[ph.lock].None?
      case MarkSyncing(_) => ph.Locked?
      case Unlock(_) => HoldsLock(ph) && ph.lock < |s.owners|
      case Record(i, status) => ph.Unwinding? && status.repo == p.repos[i]
      case FreeSlot(_) => ph.Recorded? && s.sem > 0
      case Done(_) => ph.SlotFreed? && s.wg > 0
  }

  function To(s: System, i: nat, ph: Phase): System
    requires i < |s.phases|
  {
    s.(phases := s.phases[i := ph])
  }

  function Next(p: Pool, s: System, ch: Choice): System
    requires Enabled(p, s, ch)
  {
    match ch
    case Add => s.(main := Added, wg := s.wg + 1)
    case TakeSlot => s.(main := SlotTaken, sem := s.sem + 1)
    case Spawn => To(s, s.next, Spawned).(main := LoopHead, next := s.next + 1)
    case Return => s.(main := Returned)
    case MarkWaiting(i) => To(s, i, AboutToLock).(items := WithState(s.items, i, p.repos[i], Waiting))
    case PanicUnlocked(i) => To(s, i, Unwinding)
    case LookUp(i) =>
      // the lazily made mutex of the repository
      if p.repos[i] in s.locks then To(s, i, Blocked(s.locks[p.repos[i]]))
      else To(s, i, Blocked(|s.owners|)).(locks := s.locks[p.repos[i] := |s.owners|], owners := s.owners + [None])
    case Lock(i) => To(s, i, Locked(s.phases[i].lock)).(owners := s.owners[s.phases[i].lock := Some(i)])
    case MarkSyncing(i) => To(s, i, Running(s.phases[i].lock)).(items := WithState(s.items, i, p.repos[i], Syncing))
    case Unlock(i) => To(s, i, Unwinding).(owners := s.owners[s.phases[i].lock := None])
    case Record(i, status) =>
      To(s, i, Recorded).(items := WithStatus(s.items, i, status), records := s.records[i := s.records[i] + 1])
    case FreeSlot(i) => To(s, i, SlotFreed).(sem := s.sem - 1)
    case Done(i) => To(s, i, Finished).(wg := s.wg - 1)
  }

  /** A pass begins with idle stacks and free mutexes, which earlier passes may have made. */
  predicate Initial(p: Pool, s: System) {
    && |s.phases| == |p.repos| && |s.records| == |p.repos|
    && (forall i :: 0 <= i < |p.repos| ==> s.phases[i].NotStarted? && s.records[i] == 0)
    && s.main.LoopHead? && s.next == 0 && s.wg == 0 && s.sem == 0
    && Distinct(s.locks, |s.owners|)
    && (forall l :: 0 <= l < |s.owners| ==> s.owners[l].None?)
    && (forall i :: i in s.items ==> s.items[i].state.Idle?)
  }

  ghost predicate Follows(p: Pool, s: System, ch: Choice, t: System) {
    Enabled(p, s, ch) && t == Next(p, s, ch)
  }

  /** `s` is reached from `s0` by the choices, each enabled in its turn. */
  ghost predicate Reaches(p: Pool, s0: System, choices: seq<Choice>, s: System)
    decreases |choices|
  {
    if choices == [] then s == s0
    else
      var n := |choices| - 1;
      exists mid :: Reaches(p, s0, choices[..n], mid) && Follows(p, mid, choices[n], s)
  }

  // ----- sums over the goroutines -----

  datatype Weight = Slots | Members | Steps

  function WeightOf(w: Weight, ph: Phase): nat {
    match w
    case Slots => if ph.NotStarted? || ph.SlotFreed? || ph.Finished? then 0 else 1
    case Members => if ph.NotStarted? || ph.Finished? then 0 else 1
    case Steps =>
      match ph
      case NotStarted => 9
      case Spawned => 8
      case AboutToLock => 7
      case Blocked(_) => 6
      case Locked(_) => 5
      case Running(_) => 4
      case Unwinding => 3
      case Recorded => 2
      case SlotFreed => 1
      case Finished => 0
  }

  function Total(w: Weight, phases: seq<Phase>): nat {
    if phases == [] then 0 else Total(w, phases[..|phases| - 1]) + WeightOf(w, phases[|phases| - 1])
  }

  lemma {:induction false} TotalUpdate(w: Weight, phases: seq<Phase>, i: nat, ph: Phase)
    requires i < |phases|
    ensures Total(w, phases[i := ph]) == Total(w, phases) - WeightOf(w, phases[i]) + WeightOf(w, ph)
  {
    var n := |phases| - 1;
    if i == n {
      assert phases[i := ph][..n] == phases[..n];
    } else {
      assert phases[i := ph][..n] == phases[..n][i := ph];
      TotalUpdate(w, phases[..n], i, ph);
    }
  }

  lemma {:induction false} SomeoneCounts(w: Weight, phases: seq<Phase>) returns (i: nat)
    requires Total(w, phases) > 0
    ensures i < |phases| && WeightOf(w, phases[i]) > 0
  {
    if WeightOf(w, phases[|phases| - 1]) > 0 {
      i := |phases| - 1;
    } else {
      i := SomeoneCounts(w, phases[..|phases| - 1]);
    }
  }

  lemma {:induction false} NobodyCounts(w: Weight, phases: seq<Phase>)
    requires forall i :: 0 <= i < |phases| ==> WeightOf(w, phases[i]) == 0
    ensures Total(w, phases) == 0
  {
    if phases != [] { NobodyCounts(w, phases[..|phases| - 1]); }
  }

  lemma {:induction false} EachAtMostTotal(w: Weight, phases: seq<Phase>, i: nat)
    requires i < |phases|
    ensures WeightOf(w, phases[i]) <= Total(w, phases)
  {
    if i < |phases| - 1 { EachAtMostTotal(w, phases[..|phases| - 1], i); }
  }

  /** The stacks whose goroutine holds a slot. */
  function InFlight(phases: seq<Phase>): set<nat> {
    set i: nat | i < |phases| && WeightOf(Slots, phases[i]) == 1
  }

  lemma {:induction false} InFlightCounted(phases: seq<Phase>)
    ensures |InFlight(phases)| == Total(Slots, phases)
  {
    if phases == [] {
      assert InFlight(phases) == {};
    } else {
      var n := |phases| - 1;
      InFlightCounted(phases[..n]);
      assert InFlight(phases) == InFlight(phases[..n]) + if WeightOf(Slots, phases[n]) == 1 then {n} else {};
    }
  }

  // ----- the invariant -----

  predicate Busy(s: System) {
    s.main.Added? || s.main.SlotTaken?
  }

  /** Slots held by goroutines, and goroutines awaited, without what the loop has just taken. */
  function Held(s: System): int {
    s.sem - if s.main.SlotTaken? then 1 else 0
  }

  function Awaited(s: System): int {
    s.wg - if Busy(s) then 1 else 0
  }

  predicate Counted(p: Pool, s: System) {
    && |s.phases| == |p.repos| && |s.records| == |p.repos| && s.next <= |p.repos|
    && (Busy(s) ==> s.next < |p.repos|)
    && (s.main.Returned? ==> s.next == |p.repos| && s.wg == 0)
    && Held(s) == Total(Slots, s.phases) && s.sem <= p.concurrency
    && Awaited(s) == Total(Members, s.phases)
  }

  /** Mutexes belong to one repository each, and are held by whom they say. */
  predicate LocksInv(repos: seq<nat>, phases: seq<Phase>, locks: map<nat, nat>, owners: seq<Option<nat>>)
    requires |phases| == |repos|
  {
    && Distinct(locks, |owners|)
    && (forall i :: 0 <= i < |phases| ==> LockPhaseInv(repos[i], phases[i], i, locks, owners))
    && (forall l :: 0 <= l < |owners| && owners[l].Some? ==> Owns(phases, owners[l].value, l))
  }

  predicate Distinct(locks: map<nat, nat>, made: nat) {
    && (forall r :: r in locks ==> locks[r] < made)
    && (forall r1, r2 :: r1 in locks && r2 in locks && locks[r1] == locks[r2] ==> r1 == r2)
  }

  predicate LockPhaseInv(repo: nat, ph: Phase, i: nat, locks: map<nat, nat>, owners: seq<Option<nat>>) {
    ph.Blocked? || HoldsLock(ph) ==>
      && repo in locks && locks[repo] == ph.lock && ph.lock < |owners|
      && (HoldsLock(ph) ==> owners[ph.lock] == Some(i))
  }

  predicate Owns(phases: seq<Phase>, i: nat, l: nat) {
    i < |phases| && HoldsLock(phases[i]) && phases[i].lock == l
  }

  /** What the store shows for stack i, and what it got, at each phase. */
  predicate StackInv(s: System, i: nat)
    requires i < |s.phases| == |s.records|
  {
    var ph := s.phases[i];
    var shown := if i in s.items then Some(s.items[i].state) else None;
    && (ph.NotStarted? <==> i >= s.next)
    && s.records[i] == (if ph.Recorded? || ph.SlotFreed? || ph.Finished? then 1 else 0)
    && (ph.NotStarted? || ph.Spawned? ==> shown.None? || shown.value.Idle?)
    && (ph.AboutToLock? || ph.Blocked? || ph.Locked? ==> shown == Some(Waiting))
    && (ph.Running? ==> shown == Some(Syncing))
    && (ph.Recorded? || ph.SlotFreed? || ph.Finished? ==> shown == Some(Idle))
  }

  ghost predicate Inv(p: Pool, s: System) {
    && Counted(p, s)
    && LocksInv(p.repos, s.phases, s.locks, s.owners)
    && (forall i :: 0 <= i < |s.phases| ==> StackInv(s, i))
    && (forall i :: i in s.items && i >= |s.phases| ==> s.items[i].state.Idle?)
  }

  lemma InitialInv(p: Pool, s: System)
    requires Initial(p, s)
    ensures Inv(p, s)
  {
    NobodyCounts(Slots, s.phases);
    NobodyCounts(Members, s.phases);
  }

  /** The stack a choice moves. */
  function Mover(s: System, ch: Choice): Option<nat> {
    if ch.Spawn? then Some(s.next) else if IsMain(ch) then None else Some(ch.i)
  }

  /** From `s` to `t` only one goroutine moves, forward, and the counters move with it. */
  predicate MovesOne(s: System, t: System, m: nat) {
    && MovesForward(s.phases, t.phases, m)
    && Held(t) - Held(s) == WeightOf(Slots, t.phases[m]) - WeightOf(Slots, s.phases[m])
    && Awaited(t) - Awaited(s) == WeightOf(Members, t.phases[m]) - WeightOf(Members, s.phases[m])
  }

  predicate MovesForward(before: seq<Phase>, after: seq<Phase>, m: nat) {
    && m < |before| == |after| && after == before[m := after[m]]
    && WeightOf(Steps, after[m]) < WeightOf(Steps, before[m])
  }

  lemma WorkerMovesForward(p: Pool, s: System, ch: Choice)
    requires Enabled(p, s, ch) && !IsMain(ch)
    ensures MovesForward(s.phases, Next(p, s, ch).phases, ch.i)
  {
    var t := Next(p, s, ch);
    assert t.phases == s.phases[ch.i := t.phases[ch.i]];
  }

  lemma WorkerMovesOne(p: Pool, s: System, ch: Choice)
    requires Enabled(p, s, ch) && !IsMain(ch)
    ensures MovesOne(s, Next(p, s, ch), ch.i)
  {
    WorkerMovesForward(p, s, ch);
  }

  lemma NextMovesOne(p: Pool, s: System, ch: Choice)
    requires Inv(p, s) && Enabled(p, s, ch)
    ensures var t, m := Next(p, s, ch), Mover(s, ch);
            if m.None? then t.phases == s.phases && Held(t) == Held(s) && Awaited(t) == Awaited(s)
            else MovesOne(s, t, m.value)
  {
    if ch.Spawn? {
      assert StackInv(s, s.next);
    } else if !IsMain(ch) {
      WorkerMovesOne(p, s, ch);
    }
  }

  lemma NextKeepsCounts(p: Pool, s: System, ch: Choice)
    requires Inv(p, s) && Enabled(p, s, ch)
    ensures Counted(p, Next(p, s, ch))
  {
    var t, m := Next(p, s, ch), Mover(s, ch);
    NextMovesOne(p, s, ch);
    if m.Some? {
      TotalUpdate(Slots, s.phases, m.value, t.phases[m.value]);
      TotalUpdate(Members, s.phases, m.value, t.phases[m.value]);
    }
  }

  /** A goroutine that neither looks up, locks nor unlocks. */
  lemma QuietKeepsLocks(repos: seq<nat>, phases: seq<Phase>, locks: map<nat, nat>, owners: seq<Option<nat>>, i: nat, ph: Phase)
    requires i < |phases| == |repos| && LocksInv(repos, phases, locks, owners)
    requires HoldsLock(phases[i]) || HoldsLock(ph) ==> HoldsLock(phases[i]) && HoldsLock(ph) && phases[i].lock == ph.lock
    requires !ph.Blocked?
    ensures LocksInv(repos, phases[i := ph], locks, owners)
  {
    var after := phases[i := ph];
    assert LockPhaseInv(repos[i], phases[i], i, locks, owners);
    forall l | 0 <= l < |owners| && owners[l].Some? ensures Owns(after, owners[l].value, l) {
      assert Owns(phases, owners[l].value, l);
    }
  }

  lemma LookUpKeepsLocks(repos: seq<nat>, phases: seq<Phase>, locks: map<nat, nat>, owners: seq<Option<nat>>, i: nat)
    requires i < |phases| == |repos| && LocksInv(repos, phases, locks, owners) && phases[i].AboutToLock?
    ensures repos[i] in locks ==> LocksInv(repos, phases[i := Blocked(locks[repos[i]])], locks, owners)
    ensures repos[i] !in locks ==>
              LocksInv(repos, phases[i := Blocked(|owners|)], locks[repos[i] := |owners|], owners + [None])
  {
    var after := phases[i := if repos[i] in locks then Blocked(locks[repos[i]]) else Blocked(|owners|)];
    forall l | 0 <= l < |owners| && owners[l].Some? ensures Owns(after, owners[l].value, l) {
      assert Owns(phases, owners[l].value, l);
    }
    if repos[i] !in locks {
      var locks', owners' := locks[repos[i] := |owners|], owners + [None];
      forall j | 0 <= j < |after| ensures LockPhaseInv(repos[j], after[j], j, locks', owners') {
        assert LockPhaseInv(repos[j], phases[j], j, locks, owners);
      }
      assert forall l :: 0 <= l < |owners'| && owners'[l].Some? ==> l < |owners| && owners[l] == owners'[l];
    }
  }

  lemma LockKeepsLocks(repos: seq<nat>, phases: seq<Phase>, locks: map<nat, nat>, owners: seq<Option<nat>>, i: nat)
    requires i < |phases| == |repos| && LocksInv(repos, phases, locks, owners)
    requires phases[i].Blocked? && phases[i].lock < |owners| && owners[phases[i].lock].None?
    ensures LocksInv(repos, phases[i := Locked(phases[i].lock)], locks, owners[phases[i].lock := Some(i)])
  {
    var lock := phases[i].lock;
    var after, owners' := phases[i := Locked(lock)], owners[lock := Some(i)];
    forall j | 0 <= j < |after| ensures LockPhaseInv(repos[j], after[j], j, locks, owners') {
      assert LockPhaseInv(repos[j], phases[j], j, locks, owners);
    }
    forall l | 0 <= l < |owners'| && owners'[l].Some? ensures Owns(after, owners'[l].value, l) {
      if l != lock { assert Owns(phases, owners[l].value, l); }
    }
  }

  lemma UnlockKeepsLocks(repos: seq<nat>, phases: seq<Phase>, locks: map<nat, nat>, owners: seq<Option<nat>>, i: nat)
    requires i < |phases| == |repos| && LocksInv(repos, phases, locks, owners)
    requires HoldsLock(phases[i]) && phases[i].lock < |owners|
    ensures LocksInv(repos, phases[i := Unwinding], locks, owners[phases[i].lock := None])
  {
    var lock := phases[i].lock;
    var after, owners' := phases[i := Unwinding], owners[lock := None];
    assert LockPhaseInv(repos[i], phases[i], i, locks, owners);
    forall j | 0 <= j < |after| ensures LockPhaseInv(repos[j], after[j], j, locks, owners') {
      assert LockPhaseInv(repos[j], phases[j], j, locks, owners);
    }
    forall l | 0 <= l < |owners'| && owners'[l].Some? ensures Owns(after, owners'[l].value, l) {
      assert Owns(phases, owners[l].value, l);
    }
  }

  lemma NextKeepsLocks(p: Pool, s: System, ch: Choice)
    requires Inv(p, s) && Enabled(p, s, ch)
    ensures var t := Next(p, s, ch); |t.phases| == |p.repos| && LocksInv(p.repos, t.phases, t.locks, t.owners)
  {
    var t, m := Next(p, s, ch), Mover(s, ch);
    NextMovesOne(p, s, ch);
    if m.None? {
    } else if ch.LookUp? {
      LookUpKeepsLocks(p.repos, s.phases, s.locks, s.owners, ch.i);
    } else if ch.Lock? {
      LockKeepsLocks(p.repos, s.phases, s.locks, s.owners, ch.i);
    } else if ch.Unlock? {
      UnlockKeepsLocks(p.repos, s.phases, s.locks, s.owners, ch.i);
    } else {
      assert StackInv(s, m.value);
      QuietKeepsLocks(p.repos, s.phases, s.locks, s.owners, m.value, t.phases[m.value]);
    }
  }

  /** A step leaves the other stacks' entries alone. */
  lemma NextKeepsOthers(p: Pool, s: System, ch: Choice, j: nat)
    requires Inv(p, s) && Enabled(p, s, ch) && Mover(s, ch) != Some(j)
    ensures var t := Next(p, s, ch);
            && |t.phases| == |s.phases| == |s.records| == |t.records|
            && (j < |s.phases| ==> t.phases[j] == s.phases[j] && t.records[j] == s.records[j])
            && Get(t.items, j) == Get(s.items, j)
            && (j < s.next <==> j < t.next)
  {
  }

  lemma WorkerKeepsItself(p: Pool, s: System, ch: Choice)
    requires Enabled(p, s, ch) && !IsMain(ch) && |s.phases| == |s.records| && StackInv(s, ch.i)
    ensures StackInv(Next(p, s, ch), ch.i)
  {
  }

  lemma NextKeepsStack(p: Pool, s: System, ch: Choice, j: nat)
    requires Inv(p, s) && Enabled(p, s, ch) && j < |s.phases|
    ensures var t := Next(p, s, ch); j < |t.phases| == |t.records| && StackInv(t, j)
  {
    assert StackInv(s, j);
    if Mover(s, ch) != Some(j) {
      NextKeepsOthers(p, s, ch, j);
    } else if !IsMain(ch) {
      WorkerKeepsItself(p, s, ch);
    }
  }

  lemma NextKeepsInv(p: Pool, s: System, ch: Choice)
    requires Inv(p, s) && Enabled(p, s, ch)
    ensures Inv(p, Next(p, s, ch))
  {
    NextKeepsCounts(p, s, ch);
    NextKeepsLocks(p, s, ch);
    var t := Next(p, s, ch);
    forall j | 0 <= j < |t.phases| ensures StackInv(t, j) {
      NextKeepsStack(p, s, ch, j);
    }
    forall j | j in t.items && j >= |t.phases| ensures t.items[j].state.Idle? {
      NextKeepsOthers(p, s, ch, j);
      assert Get(t.items, j) == Get(s.items, j);
    }
  }

  lemma {:induction false} ReachableInv(p: Pool, s0: System, choices: seq<Choice>, s: System)
    requires Initial(p, s0) && Reaches(p, s0, choices, s)
    ensures Inv(p, s)
    decreases |choices|
  {
    if choices == [] {
      InitialInv(p, s0);
    } else {
      var n := |choices| - 1;
      var mid :| Reaches(p, s0, choices[..n], mid) && Follows(p, mid, choices[n], s);
      ReachableInv(p, s0, choices[..n], mid);
      NextKeepsInv(p, mid, choices[n]);
    }
  }

  // ----- safety -----

  /** In every interleaving, panics included, at most `concurrency` stacks are in flight. */
  lemma BoundedConcurrency(p: Pool, s0: System, choices: seq<Choice>, s: System)
    requires Initial(p, s0) && Reaches(p, s0, choices, s)
    ensures |InFlight(s.phases)| <= p.concurrency
  {
    ReachableInv(p, s0, choices, s);
    InFlightCounted(s.phases);
  }

  /** At most one stack of a repository is between lock and unlock. */
  lemma OneStackPerRepo(p: Pool, s0: System, choices: seq<Choice>, s: System, i: nat, j: nat)
    requires Initial(p, s0) && Reaches(p, s0, choices, s)
    requires i < |s.phases| && j < |s.phases| && HoldsLock(s.phases[i]) && HoldsLock(s.phases[j])
    ensures i < |p.repos| && j < |p.repos| && (p.repos[i] == p.repos[j] ==> i == j)
  {
    ReachableInv(p, s0, choices, s);
    assert LockPhaseInv(p.repos[i], s.phases[i], i, s.locks, s.owners);
    assert LockPhaseInv(p.repos[j], s.phases[j], j, s.locks, s.owners);
  }

  /** A stack shown as "syncing" runs its pipeline, or has unlocked without its status being
      written yet. */
  lemma ShownSyncing(p: Pool, s0: System, choices: seq<Choice>, s: System, i: nat)
    requires Initial(p, s0) && Reaches(p, s0, choices, s)
    requires i in s.items && s.items[i].state.Syncing?
    ensures i < |s.phases| && (s.phases[i].Running? || s.phases[i].Unwinding?)
  {
    ReachableInv(p, s0, choices, s);
    if i < |s.phases| { assert StackInv(s, i); }
  }

  // ----- progress -----

  /** A goroutine the wait group waits for can step, or waits for one that can. */
  lemma MemberCanStep(p: Pool, s: System, i: nat)
    requires Inv(p, s) && i < |s.phases| && WeightOf(Members, s.phases[i]) > 0
    ensures exists ch :: Enabled(p, s, ch)
  {
    var ph := s.phases[i];
    EachAtMostTotal(Slots, s.phases, i);
    EachAtMostTotal(Members, s.phases, i);
    assert LockPhaseInv(p.repos[i], ph, i, s.locks, s.owners);
    assert ph.Blocked? && s.owners[ph.lock].Some? ==> Owns(s.phases, s.owners[ph.lock].value, ph.lock);
    var ch :=
      match ph
      case NotStarted => Add
      case Finished => Add
      case Spawned => MarkWaiting(i)
      case AboutToLock => LookUp(i)
      case Blocked(l) => if s.owners[l].Some? then Unlock(s.owners[l].value) else Lock(i)
      case Locked(_) => MarkSyncing(i)
      case Running(_) => Unlock(i)
      case Unwinding => Record(i, StackStatus(i, p.repos[i], Idle, NeverSynced))
      case Recorded => FreeSlot(i)
      case SlotFreed => Done(i);
    assert Enabled(p, s, ch);
  }

  /** No deadlock: until the pass has returned, some step is enabled. */
  lemma SomeStepEnabled(p: Pool, s0: System, choices: seq<Choice>, s: System)
    requires p.Valid() && Initial(p, s0) && Reaches(p, s0, choices, s)
    ensures s.main.Returned? || exists ch :: Enabled(p, s, ch)
  {
    ReachableInv(p, s0, choices, s);
    if s.main.SlotTaken? {
      assert Enabled(p, s, Spawn);
    } else if s.main.Added? && s.sem < p.concurrency {
      assert Enabled(p, s, TakeSlot);
    } else if s.main.Added? {
      var i := SomeoneCounts(Slots, s.phases);
      MemberCanStep(p, s, i);
    } else if s.main.LoopHead? && s.next < |p.repos| {
      assert Enabled(p, s, Add);
    } else if s.main.LoopHead? && s.wg == 0 {
      assert Enabled(p, s, Return);
    } else if s.main.LoopHead? {
      var i := SomeoneCounts(Members, s.phases);
      MemberCanStep(p, s, i);
    }
  }

  /** What is left to do. */
  function Measure(p: Pool, s: System): int {
    Total(Steps, s.phases) + 2 * (|p.repos| - s.next)
    + match s.main
      case LoopHead => 1
      case Added => 0
      case SlotTaken => -1
      case Returned => 0
  }

  lemma NextDecreases(p: Pool, s: System, ch: Choice)
    requires Inv(p, s) && Enabled(p, s, ch)
    ensures Measure(p, Next(p, s, ch)) < Measure(p, s)
  {
    var t, m := Next(p, s, ch), Mover(s, ch);
    NextMovesOne(p, s, ch);
    if m.Some? { TotalUpdate(Steps, s.phases, m.value, t.phases[m.value]); }
  }

  lemma {:induction false} TotalStepsAtMost(phases: seq<Phase>)
    ensures Total(Steps, phases) <= 9 * |phases|
  {
    if phases != [] { TotalStepsAtMost(phases[..|phases| - 1]); }
  }

  /** Every run of a pass over n stacks is over after at most 11 n + 1 steps. */
  lemma {:induction false} PassIsBounded(p: Pool, s0: System, choices: seq<Choice>, s: System)
    requires Initial(p, s0) && Reaches(p, s0, choices, s)
    ensures 0 <= Measure(p, s) && |choices| + Measure(p, s) <= 11 * |p.repos| + 1
    decreases |choices|
  {
    ReachableInv(p, s0, choices, s);
    if choices == [] {
      TotalStepsAtMost(s.phases);
    } else {
      var n := |choices| - 1;
      var mid :| Reaches(p, s0, choices[..n], mid) && Follows(p, mid, choices[n], s);
      PassIsBounded(p, s0, choices[..n], mid);
      ReachableInv(p, s0, choices[..n], mid);
      NextDecreases(p, mid, choices[n]);
    }
  }

  lemma ReturnedIsFinished(p: Pool, s: System, i: nat)
    requires Inv(p, s) && s.main.Returned? && i < |p.repos|
    ensures s.phases[i].Finished? && s.records[i] == 1 && i in s.items && s.items[i].state.Idle?
  {
    assert StackInv(s, i);
    EachAtMostTotal(Members, s.phases, i);
  }

  /** When the pass returns every stack has been synced and its outcome recorded exactly once,
      and every stack is shown idle. */
  lemma PassLeavesAllIdle(p: Pool, s0: System, choices: seq<Choice>, s: System)
    requires Initial(p, s0) && Reaches(p, s0, choices, s) && s.main.Returned?
    ensures |s.phases| == |s.records| == |p.repos|
    ensures forall i :: 0 <= i < |p.repos| ==> s.phases[i].Finished? && s.records[i] == 1 && i in s.items
    ensures forall i :: i in s.items ==> s.items[i].state.Idle?
  {
    ReachableInv(p, s0, choices, s);
    forall i | 0 <= i < |p.repos|
      ensures s.phases[i].Finished? && s.records[i] == 1 && i in s.items && s.items[i].state.Idle?
    {
      ReturnedIsFinished(p, s, i);
    }
  }

  /** The state in which the next pass begins. */
  function NextPass(p: Pool, s: System): System {
    s.(phases := seq(|p.repos|, _ => NotStarted), records := seq(|p.repos|, _ => 0), main := LoopHead, next := 0)
  }

  lemma NoHolderNoOwner(repos: seq<nat>, phases: seq<Phase>, locks: map<nat, nat>, owners: seq<Option<nat>>)
    requires |phases| == |repos| && LocksInv(repos, phases, locks, owners)
    requires forall j :: 0 <= j < |phases| ==> !HoldsLock(phases[j])
    ensures forall l :: 0 <= l < |owners| ==> owners[l].None?
  {
  }

  /** No slot and no lock is left behind: after a pass the next one can begin. */
  lemma PassCanFollowPass(p: Pool, s0: System, choices: seq<Choice>, s: System)
    requires Initial(p, s0) && Reaches(p, s0, choices, s) && s.main.Returned?
    ensures Initial(p, NextPass(p, s))
  {
    ReachableInv(p, s0, choices, s);
    PassLeavesAllIdle(p, s0, choices, s);
    NobodyCounts(Slots, s.phases);
    NoHolderNoOwner(p.repos, s.phases, s.locks, s.owners);
  }

  // ----- the order of the deferred calls -----

  ghost predicate CanReach(p: Pool, s0: System, s: System) {
    exists choices :: Reaches(p, s0, choices, s)
  }

  lemma OneMore(p: Pool, s0: System, s: System, ch: Choice, t: System)
    requires CanReach(p, s0, s) && Enabled(p, s, ch) && Next(p, s, ch) == t
    ensures CanReach(p, s0, t)
  {
    var choices :| Reaches(p, s0, choices, s);
    var all := choices + [ch];
    assert all[..|all| - 1] == choices && all[|all| - 1] == ch;
    assert Follows(p, s, ch, t);
    assert Reaches(p, s0, all, t);
  }

  lemma LettingGo(p: Pool, s0: System, s: System, i: nat) returns (t: System)
    requires CanReach(p, s0, s) && Inv(p, s) && i < |s.phases| && s.phases[i].Running?
    ensures CanReach(p, s0, t) && t.items == s.items && t.locks == s.locks
    ensures t.phases == s.phases[i := Unwinding] && t.records == s.records && t.main == s.main && t.next == s.next
    ensures s.phases[i].lock < |s.owners| && t.owners == s.owners[s.phases[i].lock := None]
  {
    assert LockPhaseInv(p.repos[i], s.phases[i], i, s.locks, s.owners);
    t := Next(p, s, Unlock(i));
    OneMore(p, s0, s, Unlock(i), t);
  }

  lemma TakingOver(p: Pool, s0: System, s: System, i: nat) returns (t: System)
    requires CanReach(p, s0, s) && Enabled(p, s, Lock(i))
    ensures CanReach(p, s0, t) && t.main == s.main && t.next == s.next
    ensures |t.phases| == |s.phases| && t.phases[i].Running? && t.phases == s.phases[i := t.phases[i]]
    ensures i in t.items && t.items[i].state.Syncing? && forall m :: m != i ==> Get(t.items, m) == Get(s.items, m)
  {
    var s1 := Next(p, s, Lock(i));
    OneMore(p, s0, s, Lock(i), s1);
    t := Next(p, s1, MarkSyncing(i));
    OneMore(p, s0, s1, MarkSyncing(i), t);
  }

  /** Whenever one stack runs while another of its repository waits for the lock, three steps
      show them both as "syncing": the lock is released before the status is recorded. */
  lemma HandOverOverlaps(p: Pool, s0: System, s: System, i: nat, j: nat) returns (t: System)
    requires Initial(p, s0) && CanReach(p, s0, s) && i < |s.phases| && j < |s.phases| && i < |p.repos| && j < |p.repos|
    requires s.phases[i].Running? && s.phases[j].Blocked? && p.repos[i] == p.repos[j]
    ensures CanReach(p, s0, t) && i in t.items && j in t.items && i != j
    ensures t.items[i].state.Syncing? && t.items[j].state.Syncing?
  {
    ReachedInv(p, s0, s);
    assert LockPhaseInv(p.repos[i], s.phases[i], i, s.locks, s.owners);
    assert LockPhaseInv(p.repos[j], s.phases[j], j, s.locks, s.owners);
    assert StackInv(s, i);
    var s1 := LettingGo(p, s0, s, i);
    t := TakingOver(p, s0, s1, j);
    assert Get(t.items, i) == Get(s.items, i);
  }

  lemma ReachedInv(p: Pool, s0: System, s: System)
    requires Initial(p, s0) && CanReach(p, s0, s)
    ensures Inv(p, s)
  {
    var choices :| Reaches(p, s0, choices, s);
    ReachableInv(p, s0, choices, s);
  }

  // ----- when two stacks of one repository can both be shown as "syncing" -----

  lemma AtMostOneInFlight(p: Pool, s: System, held: Option<nat>)
    requires Inv(p, s) && s.main.LoopHead?
    requires forall m :: 0 <= m < |s.phases| && held != Some(m) ==> WeightOf(Slots, s.phases[m]) == 0
    ensures s.sem <= if held.Some? then 1 else 0
  {
    InFlightCounted(s.phases);
    var only := if held.Some? then {held.value} else {};
    assert InFlight(s.phases) <= only;
    SubsetSize(InFlight(s.phases), only);
  }

  /** The loop starts the next stack. */
  lemma StartNext(p: Pool, s0: System, s: System) returns (t: System)
    requires Initial(p, s0) && CanReach(p, s0, s) && |s.phases| == |p.repos|
    requires s.main.LoopHead? && s.next < |p.repos| && s.sem < p.concurrency
    ensures CanReach(p, s0, t) && t.main.LoopHead? && t.next == s.next + 1
    ensures t.phases == s.phases[s.next := Spawned]
  {
    var s1 := s.(main := Added, wg := s.wg + 1);
    OneMore(p, s0, s, Add, s1);
    var s2 := s1.(main := SlotTaken, sem := s1.sem + 1);
    OneMore(p, s0, s1, TakeSlot, s2);
    t := s2.(phases := s.phases[s.next := Spawned], main := LoopHead, next := s.next + 1);
    OneMore(p, s0, s2, Spawn, t);
  }

  /** A spawned stack gets to the point of asking for its lock. */
  lemma GetBlocked(p: Pool, s0: System, s: System, i: nat) returns (t: System)
    requires Initial(p, s0) && CanReach(p, s0, s)
    requires i < |s.phases| == |p.repos| == |s.records| && s.phases[i].Spawned?
    ensures CanReach(p, s0, t) && t.main == s.main && t.next == s.next
    ensures |t.phases| == |s.phases| && t.phases[i].Blocked? && t.phases == s.phases[i := t.phases[i]]
  {
    var s1 := Next(p, s, MarkWaiting(i));
    OneMore(p, s0, s, MarkWaiting(i), s1);
    t := Next(p, s1, LookUp(i));
    OneMore(p, s0, s1, LookUp(i), t);
  }

  lemma FreeLock(p: Pool, s: System, i: nat)
    requires Inv(p, s) && i < |s.phases| && s.phases[i].Blocked?
    requires forall m :: 0 <= m < |s.phases| ==> !HoldsLock(s.phases[m])
    ensures Enabled(p, s, Lock(i))
  {
    NoHolderNoOwner(p.repos, s.phases, s.locks, s.owners);
    assert LockPhaseInv(p.repos[i], s.phases[i], i, s.locks, s.owners);
  }

  /** With no other holder it gets the lock and runs. */
  lemma GetRunning(p: Pool, s0: System, s: System, i: nat) returns (t: System)
    requires Initial(p, s0) && CanReach(p, s0, s)
    requires i < |s.phases| == |p.repos| && s.phases[i].Blocked?
    requires forall m :: 0 <= m < |s.phases| ==> !HoldsLock(s.phases[m])
    ensures CanReach(p, s0, t) && t.main == s.main && t.next == s.next
    ensures |t.phases| == |s.phases| && t.phases[i].Running? && t.phases == s.phases[i := t.phases[i]]
  {
    ReachedInv(p, s0, s);
    FreeLock(p, s, i);
    t := TakingOver(p, s0, s, i);
  }

  /** A running stack unlocks and records. */
  lemma GetRecorded(p: Pool, s0: System, s: System, i: nat) returns (t: System)
    requires Initial(p, s0) && CanReach(p, s0, s) && i < |s.phases| == |p.repos| && s.phases[i].Running?
    ensures CanReach(p, s0, t) && t.main == s.main && t.next == s.next && t.phases == s.phases[i := Recorded]
  {
    ReachedInv(p, s0, s);
    var s1 := LettingGo(p, s0, s, i);
    var ch := Record(i, StackStatus(i, p.repos[i], Idle, NeverSynced));
    t := Next(p, s1, ch);
    OneMore(p, s0, s1, ch, t);
  }

  lemma CanFinish(p: Pool, s: System, i: nat)
    requires Inv(p, s) && i < |s.phases|
    ensures s.phases[i].Recorded? ==> Enabled(p, s, FreeSlot(i))
    ensures s.phases[i].SlotFreed? ==> Enabled(p, s, Done(i))
  {
    EachAtMostTotal(Slots, s.phases, i);
    EachAtMostTotal(Members, s.phases, i);
  }

  /** A recorded stack gives its slot back and is done. */
  lemma GetFinished(p: Pool, s0: System, s: System, i: nat) returns (t: System)
    requires Initial(p, s0) && CanReach(p, s0, s) && i < |s.phases| == |p.repos| && s.phases[i].Recorded?
    ensures CanReach(p, s0, t) && t.main == s.main && t.next == s.next && t.phases == s.phases[i := Finished]
  {
    ReachedInv(p, s0, s);
    CanFinish(p, s, i);
    var s1 := Next(p, s, FreeSlot(i));
    OneMore(p, s0, s, FreeSlot(i), s1);
    ReachedInv(p, s0, s1);
    CanFinish(p, s1, i);
    t := Next(p, s1, Done(i));
    OneMore(p, s0, s1, Done(i), t);
  }

  /** The first k stacks are finished, but for one whose goroutine has not run yet. */
  predicate AtStage(p: Pool, s: System, k: nat, held: Option<nat>) {
    && |s.phases| == |p.repos| && s.main.LoopHead? && s.next == k
    && forall m :: 0 <= m < |p.repos| ==>
         s.phases[m] == if m >= k then NotStarted else if held == Some(m) then Spawned else Finished
  }

  /** From its start to its end, with no other holder of a lock. */
  lemma RunThrough(p: Pool, s0: System, s: System, i: nat) returns (t: System)
    requires Initial(p, s0) && CanReach(p, s0, s)
    requires i < |s.phases| == |p.repos| && s.phases[i].Spawned?
    requires forall m :: 0 <= m < |s.phases| ==> !HoldsLock(s.phases[m])
    ensures CanReach(p, s0, t) && t.main == s.main && t.next == s.next && t.phases == s.phases[i := Finished]
  {
    ReachedInv(p, s0, s);
    var t1 := GetBlocked(p, s0, s, i);
    var t2 := GetRunning(p, s0, t1, i);
    var t3 := GetRecorded(p, s0, t2, i);
    t := GetFinished(p, s0, t3, i);
  }

  lemma RunOneStack(p: Pool, s0: System, s: System, held: Option<nat>) returns (t: System)
    requires Initial(p, s0) && CanReach(p, s0, s) && s.next < |p.repos| && AtStage(p, s, s.next, held)
    requires p.concurrency > (if held.Some? then 1 else 0) && (held.Some? && held.value >= s.next ==> held == Some(s.next))
    ensures CanReach(p, s0, t) && AtStage(p, t, s.next + 1, held)
  {
    var k := s.next;
    ReachedInv(p, s0, s);
    AtMostOneInFlight(p, s, held);
    t := StartNext(p, s0, s);
    if held != Some(k) {
      t := RunThrough(p, s0, t, k);
    }
  }

  lemma {:induction false} ReachStage(p: Pool, s0: System, k: nat, held: Option<nat>) returns (t: System)
    requires Initial(p, s0) && k <= |p.repos| && p.concurrency > (if held.Some? then 1 else 0)
    requires held.Some? ==> held.value < k
    ensures CanReach(p, s0, t) && AtStage(p, t, k, held)
  {
    if k == 0 {
      t := s0;
      assert Reaches(p, s0, [], s0);
    } else if held == Some(k - 1) {
      t := ReachStage(p, s0, k - 1, None);
      AtMostOneAtStage(p, s0, t);
      t := StartNext(p, s0, t);
    } else {
      t := ReachStage(p, s0, k - 1, held);
      t := RunOneStack(p, s0, t, held);
    }
  }

  lemma AtMostOneAtStage(p: Pool, s0: System, s: System)
    requires Initial(p, s0) && CanReach(p, s0, s) && s.next < |p.repos| && AtStage(p, s, s.next, None)
    ensures s.sem == 0
  {
    ReachedInv(p, s0, s);
    AtMostOneInFlight(p, s, None);
  }

  /** Two stacks of one repository, both shown as "syncing" at some moment of a pass from s0. */
  ghost predicate Overlap(p: Pool, s0: System, t: System, i: nat, j: nat) {
    && CanReach(p, s0, t) && i < j < |p.repos| && p.repos[i] == p.repos[j]
    && i in t.items && j in t.items && t.items[i].state.Syncing? && t.items[j].state.Syncing?
  }

  /** With two workers, any two stacks of one repository, in any pass: finish the stacks before
      j but keep the goroutine of i from running, run i, block j, and let i unlock. */
  lemma AnyTwoCanOverlap(p: Pool, s0: System, i: nat, j: nat) returns (t: System)
    requires Initial(p, s0) && p.concurrency >= 2 && i < j < |p.repos| && p.repos[i] == p.repos[j]
    ensures Overlap(p, s0, t, i, j)
  {
    t := ReachStage(p, s0, j, Some(i));
    ReachedInv(p, s0, t);
    AtMostOneInFlight(p, t, Some(i));
    t := StartNext(p, s0, t);
    ReachedInv(p, s0, t);
    t := GetBlocked(p, s0, t, i);
    t := GetRunning(p, s0, t, i);
    ReachedInv(p, s0, t);
    t := GetBlocked(p, s0, t, j);
    t := HandOverOverlaps(p, s0, t, i, j);
  }

  lemma OverlapNeedsTwoWorkers(p: Pool, s0: System, t: System, i: nat, j: nat)
    requires Initial(p, s0) && Overlap(p, s0, t, i, j)
    ensures p.concurrency >= 2
  {
    var choices :| Reaches(p, s0, choices, t);
    ShownSyncing(p, s0, choices, t, i);
    ShownSyncing(p, s0, choices, t, j);
    BoundedConcurrency(p, s0, choices, t);
    assert {i, j} <= InFlight(t.phases);
    SubsetSize({i, j}, InFlight(t.phases));
  }

  predicate TwoOfOneRepo(p: Pool) {
    exists i, j :: 0 <= i < j < |p.repos| && p.repos[i] == p.repos[j]
  }

  /** "At most one stack of a repository is shown as syncing" is false of a pool, from any state a
      pass can begin in, exactly when it has two workers and two stacks of one repository. */
  lemma OverlapIff(p: Pool, s0: System)
    requires p.Valid() && Initial(p, s0)
    ensures (exists t, i, j :: Overlap(p, s0, t, i, j)) <==> p.concurrency >= 2 && TwoOfOneRepo(p)
  {
    if t, i, j :| Overlap(p, s0, t, i, j) {
      OverlapNeedsTwoWorkers(p, s0, t, i, j);
    }
    if p.concurrency >= 2 && TwoOfOneRepo(p) {
      var i, j :| 0 <= i < j < |p.repos| && p.repos[i] == p.repos[j];
      var t := AnyTwoCanOverlap(p, s0, i, j);
    }
  }

  // ----- the bound is reached -----

  /** n stacks are started, none of which has given its slot back, and more follow if the pool lets them. */
  predicate Started(p: Pool, s: System, n: nat) {
    && |s.phases| == |p.repos| && n <= |p.repos|
    && s.main.LoopHead? && s.next == n && s.sem == n
    && forall i :: 0 <= i < |s.phases| ==> s.phases[i] == if i < n then Spawned else NotStarted
  }

  lemma {:induction false} StartMany(p: Pool, s0: System, n: nat) returns (t: System)
    requires Initial(p, s0) && n <= p.concurrency && n <= |p.repos|
    ensures CanReach(p, s0, t) && Started(p, t, n)
  {
    if n == 0 {
      t := s0;
      assert Reaches(p, s0, [], s0);
    } else {
      var s := StartMany(p, s0, n - 1);
      var s1 := Next(p, s, Add);
      OneMore(p, s0, s, Add, s1);
      var s2 := Next(p, s1, TakeSlot);
      OneMore(p, s0, s1, TakeSlot, s2);
      t := Next(p, s2, Spawn);
      OneMore(p, s0, s2, Spawn, t);
    }
  }

  lemma AllStartedInFlight(p: Pool, s: System, n: nat)
    requires Started(p, s, n)
    ensures |InFlight(s.phases)| == n
  {
    FirstNumbers(n);
    assert InFlight(s.phases) == UpTo(n);
  }

  function UpTo(n: nat): set<nat> {
    if n == 0 then {} else UpTo(n - 1) + {n - 1}
  }

  lemma {:induction false} FirstNumbers(n: nat)
    ensures |UpTo(n)| == n && forall i: nat :: i in UpTo(n) <==> i < n
  {
    if n > 0 { FirstNumbers(n - 1); }
  }

  lemma NoMoreThanStacks(p: Pool, s0: System, choices: seq<Choice>, s: System)
    requires Initial(p, s0) && Reaches(p, s0, choices, s)
    ensures |InFlight(s.phases)| <= |p.repos|
  {
    ReachableInv(p, s0, choices, s);
    FirstNumbers(|p.repos|);
    SubsetSize(InFlight(s.phases), UpTo(|p.repos|));
  }

  /** The bound is exact: n stacks can be in flight at once if and only if n is at most `concurrency`
      and at most the number of stacks. */
  lemma InFlightIff(p: Pool, s0: System, n: nat)
    requires Initial(p, s0)
    ensures (exists t :: CanReach(p, s0, t) && |InFlight(t.phases)| == n) <==> n <= p.concurrency && n <= |p.repos|
  {
    if t :| CanReach(p, s0, t) && |InFlight(t.phases)| == n {
      var choices :| Reaches(p, s0, choices, t);
      BoundedConcurrency(p, s0, choices, t);
      NoMoreThanStacks(p, s0, choices, t);
    }
    if n <= p.concurrency && n <= |p.repos| {
      var t := StartMany(p, s0, n);
      AllStartedInFlight(p, t, n);
    }
  }
}
