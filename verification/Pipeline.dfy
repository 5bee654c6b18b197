/** The pipeline of one stack (internal/app/gitopsync/loop.go: syncStack from the lock on,
    markDeploy, setDesired, incDeploy, effectivePullPolicy). */
module Pipeline {
  import opened Options
  import opened Words
  import opened Paths
  import Compose
  import Drift
  import StatusStore

  /** A rendered compose document: its services, and the rest by identity. */
  datatype Document = Document(services: Compose.Doc, objects: nat)

  datatype Policy = Unset | Always | Changed

  /** One merge group: the number of its files, base first, and its pull policy. */
  datatype Group = Group(files: nat, policy: Policy)

  datatype Stack = Stack(name: nat, valuesFile: bool, groups: seq<Group>, policy: Policy,
                         discovery: bool, sopsFiles: seq<Path>)

  datatype Settings = Settings(dryRun: bool, autoRotate: bool, decrypter: bool, policy: Policy)

  /** What the pipeline calls: document d of group g, or a whole group. */
  datatype Call =
    | Sync
    | ReadValues
    | Read(g: nat, d: nat)
    | Render(g: nat, d: nat)
    | Discover(g: nat, d: nat)
    | Decrypt(files: seq<Path>)
    | Rotate(g: nat, d: nat)
    | Deploy(g: nat, docs: seq<Document>, policy: Policy)

  /** How the calls of one pass turn out.  No call is made twice in a pass, so an answer per call
      covers every behaviour, whatever it depends on.  A call that is not ok panics or returns an error. */
  datatype Env = Env(ok: Call -> bool, panics: Call -> bool, error: Call -> nat, revision: nat,
                     rendered: (nat, nat) -> Document, secrets: (nat, nat) -> seq<Path>, rotated: (nat, nat) -> nat)

  /** The stack, the settings and the answers of one pass. */
  datatype Pass = Pass(st: Stack, cfg: Settings, env: Env)

  // ----- the schedule of a pass in which nothing fails -----

  function RenderFrom(p: Pass, g: nat, d: nat): seq<Call>
    decreases |p.st.groups| - g, if g < |p.st.groups| then p.st.groups[g].files - d else 0
  {
    if g >= |p.st.groups| then []
    else if d >= p.st.groups[g].files then RenderFrom(p, g + 1, 0)
    else [Read(g, d), Render(g, d)] + RenderFrom(p, g, d + 1)
  }

  function DiscoverFrom(p: Pass, g: nat, d: nat): seq<Call>
    decreases |p.st.groups| - g, if g < |p.st.groups| then p.st.groups[g].files - d else 0
  {
    if g >= |p.st.groups| then []
    else if d >= p.st.groups[g].files then DiscoverFrom(p, g + 1, 0)
    else [Discover(g, d)] + DiscoverFrom(p, g, d + 1)
  }

  function FoundFrom(p: Pass, g: nat, d: nat): seq<Path>
    decreases |p.st.groups| - g, if g < |p.st.groups| then p.st.groups[g].files - d else 0
  {
    if g >= |p.st.groups| then []
    else if d >= p.st.groups[g].files then FoundFrom(p, g + 1, 0)
    else p.env.secrets(g, d) + FoundFrom(p, g, d + 1)
  }

  function SecretFiles(p: Pass): seq<Path> {
    if p.st.discovery then FoundFrom(p, 0, 0) else p.st.sopsFiles
  }

  /** File, then stack, then global. */
  function EffectivePolicy(p: Pass, g: nat): Policy
    requires g < |p.st.groups|
  {
    if !p.st.groups[g].policy.Unset? then p.st.groups[g].policy
    else if !p.st.policy.Unset? then p.st.policy
    else p.cfg.policy
  }

  function RenderedDocs(p: Pass, g: nat): seq<Document>
    requires g < |p.st.groups|
  {
    seq(p.st.groups[g].files, d requires 0 <= d => p.env.rendered(g, d))
  }

  function RotatedDoc(p: Pass, g: nat, d: nat): Document {
    p.env.rendered(g, d).(objects := p.env.rotated(g, d))
  }

  /** What is deployed for a group: its documents in order, rotated or as rendered. */
  function DeployedDocs(p: Pass, g: nat): seq<Document>
    requires g < |p.st.groups|
  {
    if p.cfg.autoRotate then seq(p.st.groups[g].files, d requires 0 <= d => RotatedDoc(p, g, d)) else RenderedDocs(p, g)
  }

  function RotateFrom(p: Pass, g: nat, d: nat): seq<Call>
    requires g < |p.st.groups|
    decreases p.st.groups[g].files - d
  {
    if !p.cfg.autoRotate || d >= p.st.groups[g].files then [] else [Rotate(g, d)] + RotateFrom(p, g, d + 1)
  }

  function DeployFrom(p: Pass, g: nat): seq<Call>
    decreases |p.st.groups| - g
  {
    if g >= |p.st.groups| then []
    else RotateFrom(p, g, 0) + [Deploy(g, DeployedDocs(p, g), EffectivePolicy(p, g))] + DeployFrom(p, g + 1)
  }

  /** Up to the snapshot. */
  function Preparation(p: Pass): seq<Call> {
    [Sync] + (if p.st.valuesFile then [ReadValues] else []) + RenderFrom(p, 0, 0)
  }

  function Unsealing(p: Pass): seq<Call> {
    (if p.st.discovery then DiscoverFrom(p, 0, 0) else [])
    + (if p.cfg.decrypter && SecretFiles(p) != [] then [Decrypt(SecretFiles(p))] else [])
  }

  function Schedule(p: Pass): seq<Call> {
    Preparation(p) + if p.cfg.dryRun then [] else Unsealing(p) + DeployFrom(p, 0)
  }

  // ----- stopping at the first failure -----

  /** The calls made: the schedule up to and including the first call that fails. */
  function Ran(calls: seq<Call>, ok: Call -> bool): seq<Call> {
    if calls == [] then [] else if ok(calls[0]) then [calls[0]] + Ran(calls[1..], ok) else [calls[0]]
  }

  lemma {:induction false} RanIsPrefix(calls: seq<Call>, ok: Call -> bool)
    ensures Ran(calls, ok) <= calls
  {
    if calls != [] { RanIsPrefix(calls[1..], ok); }
  }

  predicate AllOk(calls: seq<Call>, ok: Call -> bool) {
    forall c :: c in calls ==> ok(c)
  }

  lemma AllOkCons(a: seq<Call>, ok: Call -> bool)
    requires a != []
    ensures AllOk(a, ok) <==> ok(a[0]) && AllOk(a[1..], ok)
  {
    assert a == [a[0]] + a[1..];
  }

  /** The first call that fails. */
  function FirstFailed(calls: seq<Call>, ok: Call -> bool): Option<Call> {
    if calls == [] then None else if !ok(calls[0]) then Some(calls[0]) else FirstFailed(calls[1..], ok)
  }

  lemma {:induction false} FirstFailedMeaning(calls: seq<Call>, ok: Call -> bool)
    ensures FirstFailed(calls, ok).None? <==> AllOk(calls, ok)
    ensures FirstFailed(calls, ok).Some? ==> FirstFailed(calls, ok).value in calls && !ok(FirstFailed(calls, ok).value)
  {
    if calls != [] {
      AllOkCons(calls, ok);
      FirstFailedMeaning(calls[1..], ok);
    }
  }

  lemma {:induction false} RanEndsAtFailure(a: seq<Call>, ok: Call -> bool)
    ensures AllOk(a, ok) ==> Ran(a, ok) == a
    ensures !AllOk(a, ok) ==> Ran(a, ok) != [] && FirstFailed(a, ok) == Some(Ran(a, ok)[|Ran(a, ok)| - 1])
    ensures forall i :: 0 <= i < |Ran(a, ok)| - 1 ==> ok(Ran(a, ok)[i])
  {
    if a != [] {
      AllOkCons(a, ok);
      RanEndsAtFailure(a[1..], ok);
    }
  }

  lemma {:induction false} RunAppend(a: seq<Call>, b: seq<Call>, ok: Call -> bool)
    ensures Ran(a + b, ok) == if FirstFailed(a, ok).Some? then Ran(a, ok) else Ran(a, ok) + Ran(b, ok)
    ensures FirstFailed(a + b, ok) == if FirstFailed(a, ok).Some? then FirstFailed(a, ok) else FirstFailed(b, ok)
  {
    if a == [] {
      assert a + b == b;
    } else {
      assert (a + b)[1..] == a[1..] + b;
      RunAppend(a[1..], b, ok);
    }
  }

  /** Where a pass will end that has made the calls of `trace` and has `rest` still to do. */
  datatype Outlook = Outlook(trace: seq<Call>, failed: Option<Call>)

  function Ahead(trace: seq<Call>, rest: seq<Call>, ok: Call -> bool): Outlook {
    Outlook(trace + Ran(rest, ok), FirstFailed(rest, ok))
  }

  /** A successful call does not change where the pass ends, and a failing one ends it. */
  lemma AheadAfterCall(trace: seq<Call>, c: Call, rest: seq<Call>, ok: Call -> bool)
    ensures Ahead(trace, [c] + rest, ok) == if ok(c) then Ahead(trace + [c], rest, ok) else Outlook(trace + [c], Some(c))
  {
    assert ([c] + rest)[1..] == rest;
    assert trace + ([c] + Ran(rest, ok)) == trace + [c] + Ran(rest, ok);
  }

  // ----- what a pass leaves -----

  function ServicesOf(docs: seq<Document>): seq<Compose.Doc> {
    seq(|docs|, i requires 0 <= i < |docs| => docs[i].services)
  }

  type Counts = map<Compose.Name, Word>

  /** The snapshots of all groups. */
  function Snapshots(p: Pass): seq<Counts> {
    seq(|p.st.groups|, g requires 0 <= g < |p.st.groups| => Drift.Snapshot(ServicesOf(RenderedDocs(p, g))))
  }

  /** Their union, a later one winning. */
  function Union(snaps: seq<Counts>): Counts {
    if snaps == [] then map[] else Union(snaps[..|snaps| - 1]) + snaps[|snaps| - 1]
  }

  function Desired(p: Pass): Option<Counts> {
    var snap := Union(Snapshots(p));
    if |snap| == 0 then None else Some(snap)
  }

  function GroupCalls(p: Pass, g: nat): seq<Call>
    requires g < |p.st.groups|
  {
    RotateFrom(p, g, 0) + [Deploy(g, DeployedDocs(p, g), EffectivePolicy(p, g))]
  }

  predicate GroupOk(p: Pass, g: nat)
    requires g < |p.st.groups|
  {
    FirstFailed(GroupCalls(p, g), p.env.ok).None?
  }

  predicate OkBefore(p: Pass, g: nat)
    requires g <= |p.st.groups|
  {
    forall f :: 0 <= f < g ==> GroupOk(p, f)
  }

  /** The call ended the pass in a panic. */
  predicate Panics(p: Pass, failed: Option<Call>) {
    failed.Some? && p.env.panics(failed.value)
  }

  /** The status of one group, once deploy is reached: a panic marks nothing. */
  function OutcomeOf(p: Pass, g: nat): StatusStore.FileOutcome
    requires g < |p.st.groups|
  {
    if OkBefore(p, g) && GroupOk(p, g) then StatusStore.Deployed
    else if Panics(p, FirstFailed(DeployFrom(p, 0), p.env.ok)) then StatusStore.Pending
    else if !OkBefore(p, g) then StatusStore.Skipped
    else StatusStore.Failed(p.env.error(FirstFailed(GroupCalls(p, g), p.env.ok).value))
  }

  predicate DeployReached(p: Pass) {
    !p.cfg.dryRun && FirstFailed(Preparation(p), p.env.ok).None? && FirstFailed(Unsealing(p), p.env.ok).None?
  }

  function Outcomes(p: Pass): seq<StatusStore.FileOutcome> {
    seq(|p.st.groups|, g requires 0 <= g < |p.st.groups| => OutcomeOf(p, g))
  }

  function Files(p: Pass): seq<StatusStore.FileOutcome> {
    if DeployReached(p) then Outcomes(p) else []
  }

  function StageOf(c: Call): StatusStore.Stage {
    match c
    case Sync => StatusStore.AtGit
    case ReadValues => StatusStore.AtRender
    case Read(_, _) => StatusStore.AtRender
    case Render(_, _) => StatusStore.AtRender
    case Discover(_, _) => StatusStore.AtSecrets
    case Decrypt(_) => StatusStore.AtSecrets
    case Rotate(_, _) => StatusStore.AtRotate
    case Deploy(_, _, _) => StatusStore.AtDeploy
  }

  /** Every group was deployed. */
  predicate Succeeds(p: Pass) {
    !p.cfg.dryRun && AllOk(Schedule(p), p.env.ok)
  }

  /** What the loop remembers per stack. */
  datatype Memory = Memory(rev: map<nat, nat>, fine: map<nat, bool>, desired: map<nat, Option<Counts>>,
                           count: map<nat, Word>)

  function CountOf(m: Memory, name: nat): Word {
    if name in m.count then m.count[name] else 0
  }

  /** markDeploy and incDeploy, after the groups were reached and a call failed or none did. */
  function Marked(m: Memory, p: Pass, failed: Option<Call>): Memory {
    var name := p.st.name;
    if failed.None? then
      m.(rev := m.rev[name := p.env.revision], fine := m.fine[name := true], count := m.count[name := Add(CountOf(m, name), 1)])
    else if failed.value.Deploy? && !Panics(p, failed) then m.(rev := m.rev[name := p.env.revision], fine := m.fine[name := false])
    else m
  }

  /** The loop's memory after a pass that prepared its documents or not, and then failed at
      the given call or not. */
  function Memorize(m: Memory, p: Pass, prepared: bool, failed: Option<Call>): Memory {
    var m1 := if prepared then m.(desired := m.desired[p.st.name := Desired(p)]) else m;
    if !prepared || p.cfg.dryRun then m1 else Marked(m1, p, failed)
  }

  function Remembered(m: Memory, p: Pass): Memory {
    Memorize(m, p, FirstFailed(Preparation(p), p.env.ok).None?, FirstFailed(Schedule(p), p.env.ok))
  }

  /** The stage shown: that of the failing call, or the one a recovered panic is put under. */
  function ShownStage(p: Pass, failed: Option<Call>): Option<StatusStore.Stage> {
    if failed.None? then None else if Panics(p, failed) then Some(StatusStore.Panicked) else Some(StageOf(failed.value))
  }

  function Summary(m: Memory, p: Pass, rev: Option<nat>, failed: Option<Call>, files: seq<StatusStore.FileOutcome>,
                   now: int): StatusStore.PassResult
  {
    var name := p.st.name;
    StatusStore.PassResult(
      rev, ShownStage(p, failed), now, CountOf(m, name), if name in m.desired then m.desired[name] else None, files)
  }

  /** The status recorded for a pass that began with memory `m`. */
  function Result(m: Memory, p: Pass, now: int): StatusStore.PassResult {
    Summary(Remembered(m, p), p, if p.env.ok(Sync) then Some(p.env.revision) else None,
            FirstFailed(Schedule(p), p.env.ok), Files(p), now)
  }
}
