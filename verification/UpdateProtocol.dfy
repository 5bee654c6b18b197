/** The optimistic-concurrency update of internal/adapter/swarm/mutate.go: any number of clients
    run updateService against one versioned service that other writers change too. */
module UpdateProtocol {
  import opened Words
  import opened Options

  const MAX_UPDATE_ATTEMPTS: int := 3

  datatype Mode = Replicated(replicas: Word) | OtherMode

  /** `rest` stands for every part of the spec that neither mutation names. */
  datatype Spec = Spec(mode: Mode, forceUpdate: Word, rest: int)

  datatype Versioned = Versioned(version: nat, spec: Spec)

  datatype Op = Scale(replicas: Word) | ForceUpdate

  /** The closure passed to updateService; None when it refuses the spec. */
  function Mutate(op: Op, spec: Spec): Option<Spec> {
    match op
    case Scale(n) => if spec.mode.Replicated? then Some(spec.(mode := Replicated(n))) else None
    case ForceUpdate => Some(spec.(forceUpdate := Add(spec.forceUpdate, 1)))
  }

  // ----- one client -----

  datatype Result = Ok | InspectFailed | Refused | UpdateFailed | Cancelled | Exhausted

  /** The points between two calls of the Docker API. */
  datatype Client =
    | Inspecting(op: Op, attempt: nat)
    | Updating(op: Op, attempt: nat, seen: Versioned, next: Spec)
    | BackingOff(op: Op, attempt: nat)
    | Done(op: Op, result: Result)

  datatype UpdateReply = Accepted | Conflict | OtherError

  function AfterInspect(c: Client, reply: Option<Versioned>): Client
    requires c.Inspecting?
  {
    match reply
    case None => Done(c.op, InspectFailed)
    case Some(v) =>
      match Mutate(c.op, v.spec)
      case None => Done(c.op, Refused)
      case Some(next) => Updating(c.op, c.attempt, v, next)
  }

  function AfterUpdate(c: Client, reply: UpdateReply): Client
    requires c.Updating?
  {
    match reply
    case Accepted => Done(c.op, Ok)
    case OtherError => Done(c.op, UpdateFailed)
    case Conflict => BackingOff(c.op, c.attempt)
  }

  function AfterBackoff(c: Client, cancelled: bool): Client
    requires c.BackingOff?
  {
    if cancelled then Done(c.op, Cancelled)
    else if c.attempt + 1 > MAX_UPDATE_ATTEMPTS then Done(c.op, Exhausted)
    else Inspecting(c.op, c.attempt + 1)
  }

  /** How many more steps of its own the client can take. */
  function Budget(c: Client): nat {
    match c
    case Inspecting(_, k) => if k > MAX_UPDATE_ATTEMPTS then 0 else 3 * (MAX_UPDATE_ATTEMPTS - k) + 3
    case Updating(_, k, _, _) => if k > MAX_UPDATE_ATTEMPTS then 0 else 3 * (MAX_UPDATE_ATTEMPTS - k) + 2
    case BackingOff(_, k) => if k > MAX_UPDATE_ATTEMPTS then 0 else 3 * (MAX_UPDATE_ATTEMPTS - k) + 1
    case Done(_, _) => 0
  }

  predicate AttemptInRange(c: Client) {
    c.Done? || 1 <= c.attempt <= MAX_UPDATE_ATTEMPTS
  }

  // ----- the loop itself -----

  /** What the API would answer in one attempt. */
  datatype Answers = Answers(inspect: Option<Versioned>, update: UpdateReply, cancelled: bool)

  /** The client driven to its end by scripted answers. */
  function Drive(c: Client, script: seq<Answers>): Client
    requires |script| == MAX_UPDATE_ATTEMPTS && AttemptInRange(c)
    decreases Budget(c)
  {
    match c
    case Inspecting(_, k) => Drive(AfterInspect(c, script[k - 1].inspect), script)
    case Updating(_, k, _, _) => Drive(AfterUpdate(c, script[k - 1].update), script)
    case BackingOff(_, k) => Drive(AfterBackoff(c, script[k - 1].cancelled), script)
    case Done(_, _) => c
  }

  /** One attempt of the driven client. */
  lemma DriveAttempt(op: Op, k: nat, script: seq<Answers>)
    requires |script| == MAX_UPDATE_ATTEMPTS && 1 <= k <= MAX_UPDATE_ATTEMPTS
    ensures var a := script[k - 1];
            Drive(Inspecting(op, k), script) ==
              if a.inspect.None? then Done(op, InspectFailed)
              else if Mutate(op, a.inspect.value.spec).None? then Done(op, Refused)
              else if a.update == Accepted then Done(op, Ok)
              else if a.update != Conflict then Done(op, UpdateFailed)
              else if a.cancelled then Done(op, Cancelled)
              else if k == MAX_UPDATE_ATTEMPTS then Done(op, Exhausted)
              else Drive(Inspecting(op, k + 1), script)
  {
    var a := script[k - 1];
    var c := Inspecting(op, k);
    if a.inspect.Some? && Mutate(op, a.inspect.value.spec).Some? {
      var next := AfterInspect(c, a.inspect);
      assert Drive(c, script) == Drive(next, script) == Drive(AfterUpdate(next, a.update), script);
      if a.update == Conflict {
        assert Drive(BackingOff(op, k), script) == Drive(AfterBackoff(BackingOff(op, k), a.cancelled), script);
      }
    }
  }

  /** Each request carries an inspected version, and the mutated spec of that version. */
  predicate Carried(op: Op, script: seq<Answers>, sent: seq<Versioned>) {
    |sent| <= |script| && forall i :: 0 <= i < |sent| ==>
      && script[i].inspect.Some? && sent[i].version == script[i].inspect.value.version
      && Mutate(op, script[i].inspect.value.spec) == Some(sent[i].spec)
  }

  /** The answers of one attempt end the update with this result. */
  predicate Ends(op: Op, a: Answers, result: Result) {
    if a.inspect.None? then result == InspectFailed
    else if op.Scale? && !a.inspect.value.spec.mode.Replicated? then result == Refused
    else match a.update
         case Accepted => result == Ok
         case OtherError => result == UpdateFailed
         case Conflict => a.cancelled && result == Cancelled
  }

  /** They make it try again: a conflict, and no cancellation while it waits. */
  predicate Retries(op: Op, a: Answers) {
    && a.inspect.Some? && (op.Scale? ==> a.inspect.value.spec.mode.Replicated?)
    && a.update.Conflict? && !a.cancelled
  }

  predicate AllRetry(op: Op, script: seq<Answers>, n: nat)
    requires n <= |script|
  {
    forall i :: 0 <= i < n ==> Retries(op, script[i])
  }

  lemma OneMoreRetry(op: Op, script: seq<Answers>, n: nat)
    requires n < |script| && AllRetry(op, script, n) && Retries(op, script[n])
    ensures AllRetry(op, script, n + 1)
  {
  }

  lemma MutateMeans(op: Op, spec: Spec)
    ensures Mutate(op, spec).None? <==> op.Scale? && !spec.mode.Replicated?
  {
  }

  /** The k-th attempt is the last one made. */
  predicate EndsAt(op: Op, script: seq<Answers>, result: Result, k: nat) {
    && 1 <= k <= |script| && AllRetry(op, script, k - 1)
    && if result == Exhausted then k == |script| && Retries(op, script[k - 1]) else Ends(op, script[k - 1], result)
  }

  /** updateService, against scripted answers.  `sent` lists the update requests it made. */
  method UpdateService(op: Op, script: seq<Answers>) returns (result: Result, sent: seq<Versioned>)
    requires |script| == MAX_UPDATE_ATTEMPTS
    ensures Drive(Inspecting(op, 1), script) == Done(op, result)
    ensures |sent| <= MAX_UPDATE_ATTEMPTS && Carried(op, script, sent)
    ensures EndsAt(op, script, result, if result == InspectFailed || result == Refused then |sent| + 1 else |sent|)
  {
    sent := [];
    for attempt := 1 to MAX_UPDATE_ATTEMPTS + 1
      invariant |sent| == attempt - 1 && Carried(op, script, sent)
      invariant AllRetry(op, script, attempt - 1)
      invariant Drive(Inspecting(op, 1), script) ==
        if attempt <= MAX_UPDATE_ATTEMPTS then Drive(Inspecting(op, attempt), script) else Done(op, Exhausted)
    {
      DriveAttempt(op, attempt, script);
      var answers := script[attempt - 1];
      if answers.inspect.None? {
        return InspectFailed, sent;
      }
      var svc := answers.inspect.value;
      MutateMeans(op, svc.spec);
      var mutated := Mutate(op, svc.spec);
      if mutated.None? {
        return Refused, sent;
      }
      sent := sent + [Versioned(svc.version, mutated.value)];
      if answers.update == Accepted {
        return Ok, sent;
      }
      if answers.update != Conflict {
        return UpdateFailed, sent;
      }
      if answers.cancelled {
        return Cancelled, sent;
      }
      OneMoreRetry(op, script, attempt - 1);
    }
    return Exhausted, sent;
  }

  /** How an update ends: with the first of three attempts that does not make it try again, or
      exhausted. */
  lemma EndsAtFirst(op: Op, script: seq<Answers>, result: Result)
    requires |script| == 3
    ensures Drive(Inspecting(op, 1), script) == Done(op, result) <==>
              || (Ends(op, script[0], result))
              || (Retries(op, script[0]) && Ends(op, script[1], result))
              || (Retries(op, script[0]) && Retries(op, script[1]) && Ends(op, script[2], result))
              || (Retries(op, script[0]) && Retries(op, script[1]) && Retries(op, script[2]) && result == Exhausted)
  {
    DriveAttempt(op, 1, script);
    DriveAttempt(op, 2, script);
    DriveAttempt(op, 3, script);
  }

  // ----- the system -----

  datatype Actor = ByClient(id: nat) | ByOther

  datatype Commit = Commit(who: Actor, before: Versioned, after: Versioned)

  /** The service, the clients, and the history of writes the service accepted.  `applied`
      holds the clients whose update was written. */
  datatype System = System(server: Versioned, clients: seq<Client>, log: seq<Commit>, applied: set<nat>)

  /** One step of the system.  The server hands out a larger version with every write. */
  datatype Choice =
    | Inspect(id: nat)
    | InspectError(id: nat)
    | UpdateAccepted(id: nat, version: nat)
    | UpdateReplyLost(id: nat, version: nat)
    | UpdateConflict(id: nat)
    | UpdateError(id: nat)
    | Backoff(id: nat, cancelled: bool)
    | Foreign(spec: Spec, version: nat)

  predicate Enabled(s: System, ch: Choice) {
    match ch
    case Inspect(i) => i < |s.clients| && s.clients[i].Inspecting?
    case InspectError(i) => i < |s.clients| && s.clients[i].Inspecting?
    case UpdateAccepted(i, v) => CanWrite(s, i, v)
    case UpdateReplyLost(i, v) => CanWrite(s, i, v)
    case UpdateConflict(i) => i < |s.clients| && s.clients[i].Updating?
    case UpdateError(i) => i < |s.clients| && s.clients[i].Updating?
    case Backoff(i, _) => i < |s.clients| && s.clients[i].BackingOff?
    case Foreign(_, v) => v > s.server.version
  }

  /** The server accepts an update only if it carries the current version. */
  predicate CanWrite(s: System, i: nat, v: nat) {
    i < |s.clients| && s.clients[i].Updating? && s.clients[i].seen.version == s.server.version && v > s.server.version
  }

  function Write(s: System, who: Actor, after: Versioned): System {
    s.(server := after, log := s.log + [Commit(who, s.server, after)])
  }

  function WriteByClient(s: System, i: nat, v: nat, reply: UpdateReply): System
    requires CanWrite(s, i, v)
  {
    var c := s.clients[i];
    Write(s, ByClient(i), Versioned(v, c.next)).(
      clients := s.clients[i := AfterUpdate(c, reply)], applied := s.applied + {i})
  }

  function Next(s: System, ch: Choice): System
    requires Enabled(s, ch)
  {
    match ch
    case Inspect(i) => s.(clients := s.clients[i := AfterInspect(s.clients[i], Some(s.server))])
    case InspectError(i) => s.(clients := s.clients[i := AfterInspect(s.clients[i], None)])
    case UpdateAccepted(i, v) => WriteByClient(s, i, v, Accepted)
    case UpdateReplyLost(i, v) => WriteByClient(s, i, v, OtherError)
    case UpdateConflict(i) => s.(clients := s.clients[i := AfterUpdate(s.clients[i], Conflict)])
    case UpdateError(i) => s.(clients := s.clients[i := AfterUpdate(s.clients[i], OtherError)])
    case Backoff(i, cancelled) => s.(clients := s.clients[i := AfterBackoff(s.clients[i], cancelled)])
    case Foreign(spec, v) => Write(s, ByOther, Versioned(v, spec))
  }

  predicate Initial(s: System) {
    && s.log == [] && s.applied == {}
    && forall i :: 0 <= i < |s.clients| ==> s.clients[i] == Inspecting(s.clients[i].op, 1)
  }

  /** `s` is reached from `s0` by the choices, each enabled in its turn. */
  ghost predicate Reaches(s0: System, choices: seq<Choice>, s: System)
    decreases |choices|
  {
    if choices == [] then s == s0
    else
      var front, ch := choices[..|choices| - 1], choices[|choices| - 1];
      exists mid :: Reaches(s0, front, mid) && Follows(mid, ch, s)
  }

  ghost predicate Follows(s: System, ch: Choice, t: System) {
    Enabled(s, ch) && t == Next(s, ch)
  }

  // ----- the invariant -----

  /** Each accepted write started from the result of the one before: the history is linear. */
  predicate Linear(log: seq<Commit>, first: Versioned, last: Versioned) {
    if log == [] then first == last
    else
      var n := |log| - 1;
      log[n].after == last && log[n].before.version < last.version && Linear(log[..n], first, log[n].before)
  }

  /** The write is the client's mutation of the spec the server held at that moment. */
  predicate Faithful(c: Commit, ops: seq<Op>) {
    c.who.ByClient? ==> c.who.id < |ops| && Mutate(ops[c.who.id], c.before.spec) == Some(c.after.spec)
  }

  predicate ClientInv(s: System, i: nat, op: Op)
    requires i < |s.clients|
  {
    var c := s.clients[i];
    && c.op == op
    && AttemptInRange(c)
    && (c.Updating? ==>
          && c.seen.version <= s.server.version
          && (c.seen.version == s.server.version ==> c.seen == s.server)
          && Mutate(op, c.seen.spec) == Some(c.next))
    && (i in s.applied ==> c.Done? && (c.result.Ok? || c.result.UpdateFailed?))
    && (c.Done? && c.result.Ok? ==> i in s.applied)
  }

  ghost predicate Inv(s: System, ops: seq<Op>, first: Versioned) {
    && |s.clients| == |ops|
    && (forall i :: 0 <= i < |ops| ==> ClientInv(s, i, ops[i]))
    && (forall i :: i in s.applied ==> i < |ops|)
    && Linear(s.log, first, s.server)
    && (forall k :: 0 <= k < |s.log| ==> Faithful(s.log[k], ops))
    && (forall i :: i in s.applied <==> exists k :: 0 <= k < |s.log| && s.log[k].who == ByClient(i))
    && (forall j, k :: 0 <= j < k < |s.log| && s.log[j].who.ByClient? ==> s.log[j].who != s.log[k].who)
  }

  function Ops(s: System): seq<Op> {
    seq(|s.clients|, i requires 0 <= i < |s.clients| => s.clients[i].op)
  }

  /** The client a choice moves; None for a foreign write. */
  function Mover(ch: Choice): Option<nat> {
    if ch.Foreign? then None else Some(ch.id)
  }

  /** A step moves one client, by exactly one step of its own program. */
  lemma NextMovesOneClient(s: System, ch: Choice, ops: seq<Op>, first: Versioned)
    requires Inv(s, ops, first) && Enabled(s, ch)
    ensures var t := Next(s, ch);
            && |t.clients| == |s.clients|
            && (forall i :: 0 <= i < |s.clients| && Mover(ch) != Some(i) ==> t.clients[i] == s.clients[i])
            && (Mover(ch).Some? ==> Budget(t.clients[ch.id]) < Budget(s.clients[ch.id]))
  {
    if Mover(ch).Some? { assert ClientInv(s, ch.id, ops[ch.id]); }
  }

  lemma QuietStepKeepsInv(s: System, ch: Choice, ops: seq<Op>, first: Versioned)
    requires Inv(s, ops, first) && Enabled(s, ch)
    requires Next(s, ch).server == s.server && Next(s, ch).log == s.log && Next(s, ch).applied == s.applied
    ensures Inv(Next(s, ch), ops, first)
  {
    var t := Next(s, ch);
    NextMovesOneClient(s, ch, ops, first);
    forall i | 0 <= i < |ops| ensures ClientInv(t, i, ops[i]) {
      assert ClientInv(s, i, ops[i]);
    }
  }

  lemma WriteKeepsHistory(s: System, who: Actor, after: Versioned, ops: seq<Op>, first: Versioned)
    requires Inv(s, ops, first) && after.version > s.server.version
    requires Faithful(Commit(who, s.server, after), ops)
    ensures var t := Write(s, who, after);
            && Linear(t.log, first, t.server)
            && (forall k :: 0 <= k < |t.log| ==> Faithful(t.log[k], ops))
  {
    var t := Write(s, who, after);
    assert t.log[..|s.log|] == s.log;
  }

  lemma ForeignKeepsInv(s: System, ch: Choice, ops: seq<Op>, first: Versioned)
    requires Inv(s, ops, first) && Enabled(s, ch) && ch.Foreign?
    ensures Inv(Next(s, ch), ops, first)
  {
    var t := Next(s, ch);
    WriteKeepsHistory(s, ByOther, t.server, ops, first);
    forall i | 0 <= i < |ops| ensures ClientInv(t, i, ops[i]) {
      assert ClientInv(s, i, ops[i]);
    }
    CommittersAfterWrite(s.log, Commit(ByOther, s.server, t.server), s.applied, t.applied);
  }

  /** The committers are a set that grows by the author of the new write. */
  lemma CommittersAfterWrite(log: seq<Commit>, c: Commit, before: set<nat>, after: set<nat>)
    requires forall i :: i in before <==> exists k :: 0 <= k < |log| && log[k].who == ByClient(i)
    requires forall j, k :: 0 <= j < k < |log| && log[j].who.ByClient? ==> log[j].who != log[k].who
    requires c.who.ByClient? ==> c.who.id !in before
    requires after == if c.who.ByClient? then before + {c.who.id} else before
    ensures forall i :: i in after <==> exists k :: 0 <= k < |log + [c]| && (log + [c])[k].who == ByClient(i)
    ensures forall j, k :: 0 <= j < k < |log + [c]| && (log + [c])[j].who.ByClient? ==> (log + [c])[j].who != (log + [c])[k].who
  {
    var all := log + [c];
    assert forall k :: 0 <= k < |log| ==> all[k] == log[k];
    forall i ensures i in after <==> exists k :: 0 <= k < |all| && all[k].who == ByClient(i) {
      if i in before {
        var k :| 0 <= k < |log| && log[k].who == ByClient(i);
        assert all[k].who == ByClient(i);
      }
      if c.who == ByClient(i) {
        assert all[|log|].who == ByClient(i);
      }
    }
    forall j, k | 0 <= j < k < |all| && all[j].who.ByClient? ensures all[j].who != all[k].who {
    }
  }

  lemma ClientWriteKeepsInv(s: System, i: nat, v: nat, reply: UpdateReply, ops: seq<Op>, first: Versioned)
    requires Inv(s, ops, first) && CanWrite(s, i, v) && reply != Conflict
    ensures Inv(WriteByClient(s, i, v, reply), ops, first)
  {
    var t := WriteByClient(s, i, v, reply);
    assert ClientInv(s, i, ops[i]);
    WriteKeepsHistory(s, ByClient(i), t.server, ops, first);
    forall j | 0 <= j < |ops| ensures ClientInv(t, j, ops[j]) {
      assert ClientInv(s, j, ops[j]);
    }
    CommittersAfterWrite(s.log, Commit(ByClient(i), s.server, t.server), s.applied, t.applied);
  }

  lemma NextKeepsInv(s: System, ch: Choice, ops: seq<Op>, first: Versioned)
    requires Inv(s, ops, first) && Enabled(s, ch)
    ensures Inv(Next(s, ch), ops, first)
  {
    match ch
    case UpdateAccepted(i, v) => ClientWriteKeepsInv(s, i, v, Accepted, ops, first);
    case UpdateReplyLost(i, v) => ClientWriteKeepsInv(s, i, v, OtherError, ops, first);
    case Foreign(_, _) => ForeignKeepsInv(s, ch, ops, first);
    case _ => QuietStepKeepsInv(s, ch, ops, first);
  }

  lemma {:induction false} ReachableInv(s0: System, choices: seq<Choice>, s: System)
    requires Initial(s0) && Reaches(s0, choices, s)
    ensures Inv(s, Ops(s0), s0.server)
    decreases |choices|
  {
    if choices == [] {
      forall i | 0 <= i < |s.clients| ensures ClientInv(s, i, Ops(s0)[i]) {
      }
    } else {
      var mid :| Reaches(s0, choices[..|choices| - 1], mid) && Follows(mid, choices[|choices| - 1], s);
      ReachableInv(s0, choices[..|choices| - 1], mid);
      NextKeepsInv(mid, choices[|choices| - 1], Ops(s0), s0.server);
    }
  }

  // ----- results -----

  /** No update is lost: in every reachable state a client that was told "ok" owns exactly one
      write, that write is its mutation of the very spec the server held when it was accepted,
      and the writes form one unbroken chain from the initial to the current spec. */
  lemma NoLostUpdate(s0: System, choices: seq<Choice>, s: System, i: nat)
    requires Initial(s0) && Reaches(s0, choices, s)
    requires i < |s.clients| && s.clients[i].Done? && s.clients[i].result.Ok?
    ensures Linear(s.log, s0.server, s.server)
    ensures exists k :: 0 <= k < |s.log| && s.log[k].who == ByClient(i)
              && Mutate(s.clients[i].op, s.log[k].before.spec) == Some(s.log[k].after.spec)
              && forall j :: 0 <= j < |s.log| && s.log[j].who == ByClient(i) ==> j == k
  {
    ReachableInv(s0, choices, s);
    assert ClientInv(s, i, Ops(s0)[i]);
    var k :| 0 <= k < |s.log| && s.log[k].who == ByClient(i);
    assert Faithful(s.log[k], Ops(s0));
  }

  /** A client that reports a refusal, a conflict streak, a cancellation or a failed inspect has
      written nothing. */
  lemma FailureWroteNothing(s0: System, choices: seq<Choice>, s: System, i: nat)
    requires Initial(s0) && Reaches(s0, choices, s)
    requires i < |s.clients| && !(s.clients[i].Done? && (s.clients[i].result.Ok? || s.clients[i].result.UpdateFailed?))
    ensures forall k :: 0 <= k < |s.log| ==> s.log[k].who != ByClient(i)
  {
    ReachableInv(s0, choices, s);
    assert ClientInv(s, i, Ops(s0)[i]);
  }

  /** A write made by a Scale changes the replica count and nothing else. */
  lemma ScaleWritesOnlyReplicas(s0: System, choices: seq<Choice>, s: System, k: nat)
    requires Initial(s0) && Reaches(s0, choices, s)
    requires k < |s.log| && s.log[k].who.ByClient?
    ensures s.log[k].who.id < |s0.clients|
    ensures var op, c := s0.clients[s.log[k].who.id].op, s.log[k];
            op.Scale? ==> && c.before.spec.mode.Replicated? && c.after.spec.mode == Replicated(op.replicas)
                          && c.after.spec.forceUpdate == c.before.spec.forceUpdate
                          && c.after.spec.rest == c.before.spec.rest
  {
    ReachableInv(s0, choices, s);
    assert Faithful(s.log[k], Ops(s0));
  }

  /** A write made by a ForceUpdate raises the counter by one, wrapping around, and nothing else. */
  lemma ForceWritesOnlyCounter(s0: System, choices: seq<Choice>, s: System, k: nat)
    requires Initial(s0) && Reaches(s0, choices, s)
    requires k < |s.log| && s.log[k].who.ByClient?
    ensures s.log[k].who.id < |s0.clients|
    ensures var op, c := s0.clients[s.log[k].who.id].op, s.log[k];
            op.ForceUpdate? ==> && c.after.spec.mode == c.before.spec.mode && c.after.spec.rest == c.before.spec.rest
                                && c.after.spec.forceUpdate == if c.before.spec.forceUpdate == 0xffff_ffff_ffff_ffff then 0
                                                               else c.before.spec.forceUpdate + 1
  {
    ReachableInv(s0, choices, s);
    assert Faithful(s.log[k], Ops(s0));
  }

  /** How often the choices move client i. */
  function Moves(choices: seq<Choice>, i: nat): nat {
    if choices == [] then 0
    else Moves(choices[..|choices| - 1], i) + if Mover(choices[|choices| - 1]) == Some(i) then 1 else 0
  }

  /** Each client stops by itself: in no run does it take more than nine steps, three for each
      of its three attempts. */
  lemma {:induction false} ThreeAttempts(s0: System, choices: seq<Choice>, s: System, i: nat)
    requires Initial(s0) && Reaches(s0, choices, s) && i < |s0.clients|
    ensures |s.clients| == |s0.clients|
    ensures Moves(choices, i) + Budget(s.clients[i]) <= 9
    decreases |choices|
  {
    if choices != [] {
      var front, ch := choices[..|choices| - 1], choices[|choices| - 1];
      var mid :| Reaches(s0, front, mid) && Follows(mid, ch, s);
      ThreeAttempts(s0, front, mid, i);
      ReachableInv(s0, front, mid);
      NextMovesOneClient(mid, ch, Ops(s0), s0.server);
    }
  }

  // ----- the ForceUpdate counter -----

  predicate IsBump(c: Commit, ops: seq<Op>) {
    c.who.ByClient? && c.who.id < |ops| && ops[c.who.id].ForceUpdate?
  }

  function Bumps(log: seq<Commit>, ops: seq<Op>): set<nat> {
    set k | 0 <= k < |log| && IsBump(log[k], ops) :: log[k].who.id
  }

  predicate OthersKeepCounter(log: seq<Commit>) {
    forall k :: 0 <= k < |log| && log[k].who.ByOther? ==>
      log[k].after.spec.forceUpdate == log[k].before.spec.forceUpdate
  }

  lemma BumpOnce(first: Word, n: nat, before: Word)
    requires before == (first + n) % WORD_MODULUS
    ensures Add(before, 1) == (first + n + 1) % WORD_MODULUS
  {
  }

  lemma BumpsOfFront(log: seq<Commit>, ops: seq<Op>)
    requires log != []
    requires forall j, k :: 0 <= j < k < |log| && log[j].who.ByClient? ==> log[j].who != log[k].who
    ensures var n := |log| - 1;
            |Bumps(log, ops)| == |Bumps(log[..n], ops)| + if IsBump(log[n], ops) then 1 else 0
  {
    var front, c := log[..|log| - 1], log[|log| - 1];
    assert forall k :: 0 <= k < |front| ==> front[k] == log[k];
    if IsBump(c, ops) {
      assert Bumps(log, ops) == Bumps(front, ops) + {c.who.id};
      assert c.who.id !in Bumps(front, ops);
    } else {
      assert Bumps(log, ops) == Bumps(front, ops);
    }
  }

  lemma {:induction false} CounterFollowsBumps(log: seq<Commit>, first: Versioned, last: Versioned, ops: seq<Op>)
    requires Linear(log, first, last) && OthersKeepCounter(log)
    requires forall k :: 0 <= k < |log| ==> Faithful(log[k], ops)
    requires forall j, k :: 0 <= j < k < |log| && log[j].who.ByClient? ==> log[j].who != log[k].who
    ensures last.spec.forceUpdate == (first.spec.forceUpdate + |Bumps(log, ops)|) % WORD_MODULUS
  {
    if log == [] {
      assert Bumps(log, ops) == {};
    } else {
      var front, c := log[..|log| - 1], log[|log| - 1];
      CounterFollowsBumps(front, first, c.before, ops);
      BumpsOfFront(log, ops);
      assert Faithful(c, ops);
      BumpOnce(first.spec.forceUpdate, |Bumps(front, ops)|, c.before.spec.forceUpdate);
    }
  }

  function Forcers(s: System, results: set<Result>): set<nat> {
    set i | 0 <= i < |s.clients| && s.clients[i].op.ForceUpdate? && s.clients[i].Done? && s.clients[i].result in results
  }

  lemma BumpersAreForcers(s: System, ops: seq<Op>, first: Versioned)
    requires Inv(s, ops, first)
    ensures Forcers(s, {Ok}) <= Bumps(s.log, ops) <= Forcers(s, {Ok, UpdateFailed})
  {
    forall i | i in Bumps(s.log, ops) ensures i in Forcers(s, {Ok, UpdateFailed}) {
      var k :| 0 <= k < |s.log| && IsBump(s.log[k], ops) && s.log[k].who.id == i;
      assert s.log[k].who == ByClient(i);
      assert ClientInv(s, i, ops[i]);
    }
    forall i | i in Forcers(s, {Ok}) ensures i in Bumps(s.log, ops) {
      assert ClientInv(s, i, ops[i]);
      var k :| 0 <= k < |s.log| && s.log[k].who == ByClient(i);
      assert IsBump(s.log[k], ops);
    }
  }

  /** The counter has advanced (modulo 2^64) by a set of bumps that holds every ForceUpdate
      reported ok, and beyond those only ones whose reply was an error. */
  ghost predicate CounterExplained(s: System, ops: seq<Op>, first: Word) {
    var bumps := Bumps(s.log, ops);
    && Forcers(s, {Ok}) <= bumps <= Forcers(s, {Ok, UpdateFailed})
    && s.server.spec.forceUpdate == (first + |bumps|) % WORD_MODULUS
  }

  lemma CounterUnderInv(s: System, ops: seq<Op>, first: Versioned)
    requires Inv(s, ops, first) && OthersKeepCounter(s.log)
    ensures CounterExplained(s, ops, first.spec.forceUpdate)
  {
    CounterFollowsBumps(s.log, first, s.server, ops);
    BumpersAreForcers(s, ops, first);
  }

  /** In every reachable state, if the other writers leave the counter alone. */
  lemma CounterCountsForceUpdates(s0: System, choices: seq<Choice>, s: System)
    requires Initial(s0) && Reaches(s0, choices, s) && OthersKeepCounter(s.log)
    ensures CounterExplained(s, Ops(s0), s0.server.spec.forceUpdate)
  {
    ReachableInv(s0, choices, s);
    CounterUnderInv(s, Ops(s0), s0.server);
  }

  lemma ForcersSplit(s: System)
    ensures Forcers(s, {Ok, UpdateFailed}) == Forcers(s, {Ok}) + Forcers(s, {UpdateFailed})
  {
  }

  lemma ExactBetween(s: System, ops: seq<Op>, first: Word)
    requires CounterExplained(s, ops, first) && Forcers(s, {UpdateFailed}) == {}
    ensures s.server.spec.forceUpdate == (first + |Forcers(s, {Ok})|) % WORD_MODULUS
  {
    ForcersSplit(s);
    BetweenEquals(Forcers(s, {Ok}), Bumps(s.log, ops), Forcers(s, {Ok, UpdateFailed}), Forcers(s, {UpdateFailed}));
  }

  lemma BetweenEquals(low: set<nat>, x: set<nat>, high: set<nat>, rest: set<nat>)
    requires low <= x <= high && high == low + rest && rest == {}
    ensures x == low
  {
  }

  /** Without failed replies the counter has advanced by exactly the successful calls. */
  lemma CounterIsExact(s0: System, choices: seq<Choice>, s: System)
    requires Initial(s0) && Reaches(s0, choices, s) && OthersKeepCounter(s.log)
    requires Forcers(s, {UpdateFailed}) == {}
    ensures s.server.spec.forceUpdate == (s0.server.spec.forceUpdate + |Forcers(s, {Ok})|) % WORD_MODULUS
  {
    CounterCountsForceUpdates(s0, choices, s);
    ExactBetween(s, Ops(s0), s0.server.spec.forceUpdate);
  }
}
