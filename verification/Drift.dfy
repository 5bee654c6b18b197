/** The drift snapshot of one merge group (internal/app/gitopsync/loop.go), the drift computation
    (internal/core/stackstatus/drift.go), and what a deploy leaves for them to find. */
module Drift {
  import opened Words
  import opened Options
  import opened Compose
  import opened CarryForward
  import Labels
  import MergedView
  import LastWins
  import Sorting

  // ----- the snapshot -----

  /** The count the snapshot holds for a service, if it holds one. */
  function Wanted(decls: seq<Service>): Option<Word> {
    if Global(decls) || AutoscalerOwned(decls) then None else FoldReplicas(decls)
  }

  function Snapshot(docs: seq<Doc>): map<Name, Word> {
    map name | name in Names(docs) && Wanted(Decls(docs, name)).Some? :: Wanted(Decls(docs, name)).value
  }

  datatype GroupService = GroupService(labels: map<string, string>, global: bool, replicas: Option<Word>)

  ghost predicate Summarizes(ms: GroupService, decls: seq<Service>) {
    ms.labels == FoldLabels(decls) && ms.global == Global(decls) && ms.replicas == FoldReplicas(decls)
  }

  /** The folded entries of all services, after the documents of `view`. */
  ghost predicate Current(merged: map<Name, GroupService>, view: seq<Doc>, name: Name) {
    var decls := Decls(view, name);
    if name in merged then decls != [] && Summarizes(merged[name], decls) else decls == []
  }

  ghost predicate AllCurrent(merged: map<Name, GroupService>, view: seq<Doc>) {
    forall name :: Current(merged, view, name)
  }

  method AddDeclaration(seen: Option<GroupService>, svc: Service, ghost decls: seq<Service>) returns (ms: GroupService)
    requires if seen.Some? then Summarizes(seen.value, decls) else decls == []
    ensures Summarizes(ms, decls + [svc])
  {
    assert (decls + [svc])[..|decls|] == decls;
    GlobalAppend(decls, svc);
    ms := if seen.Some? then seen.value else GroupService(map[], false, None);
    var labels := MergedView.FlatServiceLabels(svc);
    ms := ms.(labels := ms.labels + labels);
    var mode := ExplicitMode(svc);
    if mode.Some? {
      ms := ms.(global := mode.value == "global");
    }
    var r := ReplicasOf(svc);
    if r.Some? {
      ms := ms.(replicas := r);
    }
  }

  method MergeDocument(merged: map<Name, GroupService>, v: Doc, ghost view: seq<Doc>)
      returns (next: map<Name, GroupService>)
    requires v.services.Some? && AllCurrent(merged, view)
    ensures AllCurrent(next, view + [v])
  {
    next := merged;
    var services := v.services.value;
    var todo := services.Keys;
    while todo != {}
      invariant todo <= services.Keys
      invariant forall name :: name in todo || !Declares(v, name) ==> Get(next, name) == Get(merged, name)
      invariant forall name :: name !in todo && Declares(v, name) ==> Current(next, view + [v], name)
    {
      var name :| name in todo;
      todo := todo - {name};
      if services[name].Declared? {
        assert Current(merged, view, name);
        DeclsAppend(view, v, name);
        var ms := AddDeclaration(Get(next, name), services[name].svc, Decls(view, name));
        next := next[name := ms];
      }
    }
    forall name ensures Current(next, view + [v], name) {
      DeclsAppend(view, v, name);
      assert Current(merged, view, name);
    }
  }

  /** mergeGroupServices. */
  method MergeGroupServices(docs: seq<Doc>) returns (merged: map<Name, GroupService>)
    ensures AllCurrent(merged, docs)
  {
    merged := map[];
    for i := 0 to |docs|
      invariant AllCurrent(merged, docs[..i])
    {
      assert docs[..i + 1] == docs[..i] + [docs[i]];
      if docs[i].services.Some? {
        merged := MergeDocument(merged, docs[i], docs[..i]);
      } else {
        forall name ensures Current(merged, docs[..i] + [docs[i]], name) {
          DeclsAppend(docs[..i], docs[i], name);
          assert Current(merged, docs[..i], name);
        }
      }
    }
    assert docs[..|docs|] == docs;
  }

  /** desiredReplicasGroup: the snapshot, and how many services the autoscaler keeps out of it. */
  method DesiredReplicasGroup(docs: seq<Doc>) returns (desired: map<Name, Word>, excluded: nat)
    ensures desired == Snapshot(docs)
    ensures excluded == |Excluded(docs)|
  {
    var merged := MergeGroupServices(docs);
    desired, excluded := SplitServices(merged, docs);
    MergedAreNames(merged, docs);
    SplitIsSnapshot(docs, desired);
  }

  /** The services the merged view marks autoscaler-owned. */
  function Excluded(docs: seq<Doc>): set<Name> {
    ExcludedOf(Names(docs), docs)
  }

  function ExcludedOf(names: set<Name>, docs: seq<Doc>): set<Name> {
    set name | name in names && IsExcluded(Decls(docs, name))
  }

  predicate IsExcluded(decls: seq<Service>) {
    !Global(decls) && AutoscalerOwned(decls)
  }

  /** The services in `done` are sorted into the snapshot and the excluded ones. */
  ghost predicate Split(done: set<Name>, docs: seq<Doc>, desired: map<Name, Word>, owned: set<Name>) {
    && (forall name :: Get(desired, name) == if name in done then Wanted(Decls(docs, name)) else None)
    && (forall name :: name in owned <==> name in done && IsExcluded(Decls(docs, name)))
  }

  method SplitServices(merged: map<Name, GroupService>, ghost docs: seq<Doc>)
      returns (desired: map<Name, Word>, excluded: nat)
    requires AllCurrent(merged, docs)
    ensures Split(merged.Keys, docs, desired, ExcludedOf(merged.Keys, docs))
    ensures excluded == |ExcludedOf(merged.Keys, docs)|
  {
    desired, excluded := map[], 0;
    ghost var owned: set<Name> := {};
    var todo := merged.Keys;
    while todo != {}
      invariant todo <= merged.Keys && excluded == |owned|
      invariant Split(merged.Keys - todo, docs, desired, owned)
    {
      var name :| name in todo;
      assert Current(merged, docs, name);
      var want, excl := Classify(merged[name], Decls(docs, name));
      SplitStep(merged.Keys - todo, docs, desired, owned, name, want, excl);
      if excl {
        excluded, owned := excluded + 1, owned + {name};
      } else if want.Some? {
        desired := desired[name := want.value];
      }
      assert merged.Keys - (todo - {name}) == (merged.Keys - todo) + {name};
      todo := todo - {name};
    }
    assert merged.Keys - {} == merged.Keys;
    assert owned == ExcludedOf(merged.Keys, docs);
  }

  lemma SplitStep(done: set<Name>, docs: seq<Doc>, desired: map<Name, Word>, owned: set<Name>, name: Name,
                  want: Option<Word>, excl: bool)
    requires Split(done, docs, desired, owned) && name !in done
    requires want == Wanted(Decls(docs, name)) && excl == IsExcluded(Decls(docs, name))
    ensures name !in owned && (excl ==> want.None?)
    ensures Split(done + {name}, docs, if want.Some? then desired[name := want.value] else desired,
                  if excl then owned + {name} else owned)
  {
    assert Get(desired, name) == None;
    var next := if want.Some? then desired[name := want.value] else desired;
    assert forall other :: other != name ==> Get(next, other) == Get(desired, other);
  }

  /** The body of the loop over the merged services. */
  method Classify(ms: GroupService, ghost decls: seq<Service>) returns (want: Option<Word>, excl: bool)
    requires Summarizes(ms, decls)
    ensures want == Wanted(decls) && excl == IsExcluded(decls)
  {
    if ms.global {
      return None, false;
    }
    if Labels.Read(ms.labels, Labels.LABEL_ENABLED) == "true" {
      return None, true;
    }
    return ms.replicas, false;
  }

  lemma MergedAreNames(merged: map<Name, GroupService>, docs: seq<Doc>)
    requires AllCurrent(merged, docs)
    ensures merged.Keys == Names(docs)
  {
    forall name ensures name in merged <==> name in Names(docs) {
      DeclaredIffDecls(docs, name);
      assert Current(merged, docs, name);
    }
  }

  lemma SplitIsSnapshot(docs: seq<Doc>, desired: map<Name, Word>)
    requires Split(Names(docs), docs, desired, Excluded(docs))
    ensures desired == Snapshot(docs)
  {
    forall name ensures Get(desired, name) == Get(Snapshot(docs), name) {
    }
    SameMap(desired, Snapshot(docs));
  }

  lemma WantedAfterRewrite(docs: seq<Doc>, live: map<Name, Live>, name: Name)
    ensures name in Names(Rewrite(docs, live)) <==> name in Names(docs)
    ensures Wanted(Decls(Rewrite(docs, live), name)) == Wanted(Decls(docs, name))
  {
    var after := Rewrite(docs, live);
    var decls, count := Decls(docs, name), Carried(Decls(docs, name), name, live);
    DeclsOfRewrite(docs, docs, live, name);
    RewriteKeepsView(decls, count);
    DeclaredIffDecls(docs, name);
    DeclaredIffDecls(after, name);
    if count.None? { assert RewriteAll(decls, count) == decls; }
  }

  lemma CarriedIsNotWanted(docs: seq<Doc>, live: map<Name, Live>, name: Name)
    requires name in CarriedNames(docs, live)
    ensures name !in Snapshot(docs)
  {
  }

  /** The two views never claim the same service: what carry-forward rewrites is not in the
      snapshot, and the snapshot reads the same before and after the rewrite. */
  lemma OwnershipViewsAgree(docs: seq<Doc>, live: map<Name, Live>)
    ensures CarriedNames(docs, live) !! Snapshot(docs).Keys
    ensures Snapshot(Rewrite(docs, live)) == Snapshot(docs)
  {
    forall name | name in CarriedNames(docs, live) ensures name !in Snapshot(docs) {
      CarriedIsNotWanted(docs, live, name);
    }
    forall name ensures Get(Snapshot(Rewrite(docs, live)), name) == Get(Snapshot(docs), name) {
      WantedAfterRewrite(docs, live, name);
    }
    SameMap(Snapshot(Rewrite(docs, live)), Snapshot(docs));
  }

  // ----- the drift computation -----

  datatype ServiceDrift = ServiceDrift(service: Name, desired: Word, live: Word, drifted: bool)

  /** What Drift reports for one desired service. */
  function Report(name: Name, want: Word, live: map<Name, Live>): ServiceDrift {
    if name in live then
      ServiceDrift(name, want, live[name].replicas, !live[name].replicated || live[name].replicas != want)
    else ServiceDrift(name, want, 0, true)
  }

  function ServiceOf(d: ServiceDrift): Name {
    d.service
  }

  function Reports(desired: map<Name, Word>, live: map<Name, Live>): map<Name, ServiceDrift> {
    map name | name in desired :: Report(name, desired[name], live)
  }

  /** The report of a desired service: drifted unless it is live, replicated and has the count. */
  ghost predicate Tells(r: ServiceDrift, desired: map<Name, Word>, live: seq<Live>) {
    && r.service in desired && r.desired == desired[r.service]
    && (forall e :: IsLive(live, r.service, e) ==>
          r.live == e.replicas && (r.drifted <==> !e.replicated || e.replicas != desired[r.service]))
    && ((forall e :: !IsLive(live, r.service, e)) ==> r.live == 0 && r.drifted)
  }

  lemma ReportTells(desired: map<Name, Word>, live: seq<Live>, name: Name)
    requires name in desired
    ensures Tells(Report(name, desired[name], LiveByName(live)), desired, live)
  {
    forall e ensures IsLive(live, name, e) <==> Get(LiveByName(live), name) == Some(e) {
      IsLiveIff(live, name, e);
    }
    if name in LiveByName(live) { assert IsLive(live, name, LiveByName(live)[name]); }
  }

  /** Drift: the desired services in any order, the reports sorted by name. */
  method Drift(desired: map<Name, Word>, live: seq<Live>) returns (out: seq<ServiceDrift>)
    ensures Sorting.SortedBy(out, ServiceOf)
    ensures Sorting.Holds(out, ServiceOf, Reports(desired, LiveByName(live)), desired.Keys)
    ensures forall i :: 0 <= i < |out| ==> Tells(out[i], desired, live)
  {
    var liveByName := IndexLive(live);
    ghost var reports := Reports(desired, liveByName);
    out := [];
    var todo := desired.Keys;
    while todo != {}
      invariant todo <= desired.Keys
      invariant Sorting.SortedBy(out, ServiceOf) && Sorting.Holds(out, ServiceOf, reports, desired.Keys - todo)
    {
      var name :| name in todo;
      out := Sorting.Insert(out, Report(name, desired[name], liveByName), ServiceOf, reports, desired.Keys - todo);
      assert desired.Keys - (todo - {name}) == (desired.Keys - todo) + {name};
      todo := todo - {name};
    }
    assert desired.Keys - {} == desired.Keys;
    forall i | 0 <= i < |out| ensures Tells(out[i], desired, live) {
      ReportTells(desired, live, out[i].service);
    }
  }

  // ----- deploying -----

  /** The modes that make a replicated service.  Every other one makes a global service or a job,
      or docker refuses it. */
  predicate Plain(mode: Option<Mode>) {
    mode.None? || mode.value == "replicated"
  }

  /** What `docker stack deploy` makes of one merged service, as the live state is read back:
      `deploy.mode` and `deploy.replicas` count, one replica is the default. */
  function Deployed(name: Name, merged: Service): Live {
    var d := DeployOf(merged);
    var count := NumberOf(d.replicas);
    if Plain(d.mode) then Live(name, if count.Some? then count.value else 1, true) else Live(name, 0, false)
  }

  /** One deploy of a merge group: the declared services get their merged form, the others are
      left alone. */
  function DeployTo(before: map<Name, Live>, docs: seq<Doc>): map<Name, Live> {
    before + map name | name in Names(docs) && Decls(docs, name) != [] :: Deployed(name, MergeAll(Decls(docs, name)))
  }

  /** Counts docker can read, as it would check on deploy. */
  predicate Valid(s: Service) {
    && (DeployOf(s).replicas.Some? ==> DeployOf(s).replicas.value.IntNum? && DeployOf(s).replicas.value.n >= 0)
    && (s.replicas.Some? ==> s.replicas.value.IntNum? && s.replicas.value.n >= 0)
  }

  function ReplicaSlots(decls: seq<Service>): seq<LastWins.Slot<Word>> {
    seq(|decls|, i requires 0 <= i < |decls| =>
      LastWins.Slot(NumberOf(decls[i].replicas), NumberOf(DeployOf(decls[i]).replicas)))
  }

  lemma {:induction false} FoldReplicasIsSlotFold(decls: seq<Service>)
    ensures FoldReplicas(decls) == LastWins.Fold(ReplicaSlots(decls))
  {
    if decls != [] {
      FoldReplicasIsSlotFold(decls[..|decls| - 1]);
      assert ReplicaSlots(decls)[..|decls| - 1] == ReplicaSlots(decls[..|decls| - 1]);
    }
  }

  lemma {:induction false} MergedCount(decls: seq<Service>)
    requires decls != [] && forall s :: s in decls ==> Valid(s)
    ensures NumberOf(DeployOf(MergeAll(decls)).replicas) == LastWins.Merge(ReplicaSlots(decls)).dep
    ensures Valid(MergeAll(decls))
  {
    var n := |decls| - 1;
    var front := decls[..n];
    assert ReplicaSlots(decls)[..n] == ReplicaSlots(front);
    assert decls[n] in decls;
    if n == 0 {
      assert ReplicaSlots(front) == [];
    } else {
      MergedCount(front);
    }
  }

  /** docker deploys a replicated service, and the counted value is the deployed one: no later
      top-level count overrides `deploy.replicas`, or, without any `deploy.replicas`, the
      top-level count is docker's default of one.  The code reads top-level counts, but docker's
      schema has none and refuses such documents before any deploy; AcceptedDriftsIff is the
      condition for the others. */
  ghost predicate DeploysAsCounted(decls: seq<Service>)
    requires decls != [] && Wanted(decls).Some?
  {
    && Plain(DeployOf(MergeAll(decls)).mode)
    && if LastWins.Merge(ReplicaSlots(decls)).dep.Some? then !LastWins.Overridden(ReplicaSlots(decls))
       else Wanted(decls).value == 1
  }

  /** For a service in the snapshot: after deploying the group it is not drifted exactly then. */
  lemma DriftedIff(decls: seq<Service>, name: Name)
    requires decls != [] && Wanted(decls).Some? && forall s :: s in decls ==> Valid(s)
    ensures var live := Deployed(name, MergeAll(decls));
            (live.replicated && live.replicas == Wanted(decls).value) <==> DeploysAsCounted(decls)
  {
    MergedCount(decls);
    FoldReplicasIsSlotFold(decls);
    LastWins.FoldEqualsMerge(ReplicaSlots(decls));
  }

  /** A job is in the snapshot, counted and never overridden, and yet always drifted. */
  lemma JobsAlwaysDrift(n: Word, name: Name)
    ensures var job := Service(NoLabels, Some(NO_DEPLOY.(mode := Some("replicated-job"), replicas := Some(IntNum(n)))),
                               None, None, map[]);
            && Valid(job) && Wanted([job]) == Some(n) && !LastWins.Overridden(ReplicaSlots([job]))
            && Report(name, n, map[name := Deployed(name, MergeAll([job]))]).drifted
  {
    var job := Service(NoLabels, Some(NO_DEPLOY.(mode := Some("replicated-job"), replicas := Some(IntNum(n)))), None, None, map[]);
    assert [job][..0] == [];
    assert FoldMode([job]) == Some("replicated-job") && FoldReplicas([job]) == Some(n);
    assert FoldLabels([]) == map[] && FlatLabels(job) == map[];
    assert FoldLabels([job]) == map[];
  }

  lemma RewrittenDecls(docs: seq<Doc>, live: map<Name, Live>, name: Name)
    requires Decls(docs, name) != []
    ensures var after := Rewrite(docs, live);
            && Decls(after, name) == RewriteAll(Decls(docs, name), Carried(Decls(docs, name), name, live))
            && name in Names(after) && Decls(after, name) != []
  {
    DeclsOfRewrite(docs, docs, live, name);
    DeclaredIffDecls(Rewrite(docs, live), name);
  }

  /** A service of the snapshot after the deploy of the rewritten group, in any live state. */
  lemma SnapshotServiceDriftsIff(docs: seq<Doc>, before: map<Name, Live>, name: Name)
    requires name in Snapshot(docs) && forall s :: s in Decls(docs, name) ==> Valid(s)
    ensures Decls(docs, name) != []
    ensures Report(name, Snapshot(docs)[name], DeployTo(before, Rewrite(docs, before))).drifted
            <==> !DeploysAsCounted(Decls(docs, name))
  {
    var decls := Decls(docs, name);
    DeclaredIffDecls(docs, name);
    RewrittenDecls(docs, before, name);
    assert RewriteAll(decls, Carried(decls, name, before)) == decls;
    DriftedIff(decls, name);
  }

  lemma {:induction false} RewriteKeepsModeSlots(decls: seq<Service>, count: Option<Word>)
    ensures MergedView.ModeSlots(RewriteAll(decls, count)) == MergedView.ModeSlots(decls)
  {
  }

  lemma RewriteKeepsMergedMode(decls: seq<Service>, count: Option<Word>)
    requires decls != []
    ensures DeployOf(MergeAll(RewriteAll(decls, count))).mode == DeployOf(MergeAll(decls)).mode
  {
    RewriteKeepsModeSlots(decls, count);
    MergedView.MergeIsModeMerge(decls);
    MergedView.MergeIsModeMerge(RewriteAll(decls, count));
  }

  /** The carried service after the deploy, whatever the live state `now` is when docker applies
      it: its count is the one read before, clamped, exactly if docker makes it a replicated
      service at all. */
  lemma CarriedServiceKeepsReadCount(docs: seq<Doc>, read: map<Name, Live>, now: map<Name, Live>, name: Name)
    requires name in CarriedNames(docs, read)
    ensures Decls(docs, name) != [] && name in read && name in DeployTo(now, Rewrite(docs, read))
    ensures DeployTo(now, Rewrite(docs, read))[name]
              == Live(name, Labels.CarryClamp(FoldLabels(Decls(docs, name)), read[name].replicas), true)
            <==> Plain(DeployOf(MergeAll(Decls(docs, name))).mode)
  {
    var decls := Decls(docs, name);
    RewrittenDecls(docs, read, name);
    CarriedCountSurvivesMerge(docs, read, name, Decls(Rewrite(docs, read), name));
    RewriteKeepsMergedMode(decls, Carried(decls, name, read));
  }

  /** Deploy, then look for drift, with one live state read and applied: no service of the
      snapshot is drifted exactly if each deploys as counted, and every carried service holds its
      previous live count, clamped, exactly if each is deployed as a replicated service. */
  lemma DeployThenDriftIsClean(docs: seq<Doc>, before: map<Name, Live>)
    requires forall name, s :: name in Names(docs) && s in Decls(docs, name) ==> Valid(s)
    ensures forall name :: name in Snapshot(docs) || name in CarriedNames(docs, before) ==> Decls(docs, name) != []
    ensures forall name :: name in CarriedNames(docs, before) ==> name in before
    ensures var after := DeployTo(before, Rewrite(docs, before));
            && ((forall name :: name in Snapshot(docs) ==> !Report(name, Snapshot(docs)[name], after).drifted)
                <==> forall name :: name in Snapshot(docs) ==> DeploysAsCounted(Decls(docs, name)))
            && ((forall name :: name in CarriedNames(docs, before) ==>
                   Get(after, name) == Some(Live(name, Labels.CarryClamp(FoldLabels(Decls(docs, name)), before[name].replicas), true)))
                <==> forall name :: name in CarriedNames(docs, before) ==> Plain(DeployOf(MergeAll(Decls(docs, name))).mode))
  {
    forall name | name in Snapshot(docs)
      ensures Decls(docs, name) != []
      ensures Report(name, Snapshot(docs)[name], DeployTo(before, Rewrite(docs, before))).drifted
              <==> !DeploysAsCounted(Decls(docs, name))
    {
      SnapshotServiceDriftsIff(docs, before, name);
    }
    CarriedAfterDeploy(docs, before);
  }

  lemma CarriedAfterDeploy(docs: seq<Doc>, before: map<Name, Live>)
    ensures forall name :: name in CarriedNames(docs, before) ==> Decls(docs, name) != [] && name in before
    ensures var after := DeployTo(before, Rewrite(docs, before));
            (forall name :: name in CarriedNames(docs, before) ==>
               Get(after, name) == Some(Live(name, Labels.CarryClamp(FoldLabels(Decls(docs, name)), before[name].replicas), true)))
            <==> forall name :: name in CarriedNames(docs, before) ==> Plain(DeployOf(MergeAll(Decls(docs, name))).mode)
  {
    forall name | name in CarriedNames(docs, before)
      ensures Decls(docs, name) != [] && name in before && name in DeployTo(before, Rewrite(docs, before))
      ensures DeployTo(before, Rewrite(docs, before))[name]
                == Live(name, Labels.CarryClamp(FoldLabels(Decls(docs, name)), before[name].replicas), true)
              <==> Plain(DeployOf(MergeAll(Decls(docs, name))).mode)
    {
      CarriedServiceKeepsReadCount(docs, before, before, name);
    }
  }

  // ----- a simple discipline for the documents -----

  /** Counts only under `deploy`; no mode but "replicated" and "global", and no later top-level
      mode against an earlier `deploy` one. */
  ghost predicate WellPlaced(decls: seq<Service>) {
    && (forall s :: s in decls ==> Valid(s) && s.replicas.None?)
    && (Plain(FoldMode(decls)) || Global(decls))
    && !LastWins.Overridden(MergedView.ModeSlots(decls))
  }

  /** docker's schema has neither counts nor modes at the top level of a service. */
  ghost predicate Accepted(decls: seq<Service>) {
    forall s :: s in decls ==> Valid(s) && s.replicas.None? && s.mode.None?
  }

  lemma {:induction false} NoTopLevelModes(decls: seq<Service>)
    requires forall s :: s in decls ==> s.mode.None?
    ensures LastWins.Merge(MergedView.ModeSlots(decls)).top.None?
    ensures !LastWins.Overridden(MergedView.ModeSlots(decls))
  {
    var slots := MergedView.ModeSlots(decls);
    if decls != [] {
      var n := |decls| - 1;
      assert decls[n] in decls;
      assert slots[..n] == MergedView.ModeSlots(decls[..n]);
      NoTopLevelModes(decls[..n]);
    }
    assert forall j :: 0 <= j < |decls| ==> decls[j] in decls && slots[j].top.None?;
  }

  lemma AcceptedMode(decls: seq<Service>)
    requires decls != [] && Accepted(decls)
    ensures FoldMode(decls) == DeployOf(MergeAll(decls)).mode
  {
    NoTopLevelModes(decls);
    MergedView.FoldedModeIsMerged(decls);
    MergedView.MergeIsModeMerge(decls);
  }

  /** Of the documents docker accepts, a snapshot service is drifted after its deploy exactly if the
      mode the loop reads is a job: neither absent nor "replicated". */
  lemma AcceptedDriftsIff(decls: seq<Service>, name: Name)
    requires decls != [] && Accepted(decls) && Wanted(decls).Some?
    ensures Report(name, Wanted(decls).value, map[name := Deployed(name, MergeAll(decls))]).drifted <==> !Plain(FoldMode(decls))
  {
    DriftedIff(decls, name);
    AcceptedMode(decls);
    NoTopLevelCounts(decls);
    FoldReplicasIsSlotFold(decls);
    LastWins.FoldEqualsMerge(ReplicaSlots(decls));
  }

  lemma {:induction false} NoTopLevelCounts(decls: seq<Service>)
    requires forall s :: s in decls ==> s.replicas.None?
    ensures LastWins.Merge(ReplicaSlots(decls)).top.None?
    ensures !LastWins.Overridden(ReplicaSlots(decls))
  {
    if decls != [] {
      var n := |decls| - 1;
      assert decls[n] in decls;
      assert ReplicaSlots(decls)[..n] == ReplicaSlots(decls[..n]);
      NoTopLevelCounts(decls[..n]);
    }
    assert forall j :: 0 <= j < |decls| ==> decls[j] in decls && ReplicaSlots(decls)[j].top.None?;
  }

  /** Documents that keep to it deploy as counted, and their carried services keep their counts. */
  lemma WellPlacedDeploysAsCounted(decls: seq<Service>)
    requires decls != [] && WellPlaced(decls) && !Global(decls)
    ensures Plain(DeployOf(MergeAll(decls)).mode)
    ensures Wanted(decls).Some? ==> DeploysAsCounted(decls)
  {
    MergedView.FoldedModeIsMerged(decls);
    NoTopLevelCounts(decls);
    FoldReplicasIsSlotFold(decls);
    LastWins.FoldEqualsMerge(ReplicaSlots(decls));
  }

  /** What the daemon's autoscaler set survives a deploy: for bounds the daemon accepts
      (Labels.ParsedPolicyIsValid), the deploy leaves the live count alone exactly when nothing
      wrote between the read and the update that the clamp does not undo, and without such a
      writer exactly when the count is in range. */
  lemma DeployKeepsCountIff(docs: seq<Doc>, read: map<Name, Live>, now: map<Name, Live>, name: Name, min: Word, max: Word)
    requires name in CarriedNames(docs, read) && name in now
    requires Decls(docs, name) != [] && Plain(DeployOf(MergeAll(Decls(docs, name))).mode)
    requires min == Labels.Bound(FoldLabels(Decls(docs, name)), Labels.LABEL_MIN)
    requires max == Labels.Bound(FoldLabels(Decls(docs, name)), Labels.LABEL_MAX)
    requires 0 < max && min <= max
    ensures name in read && name in DeployTo(now, Rewrite(docs, read))
    ensures var kept := DeployTo(now, Rewrite(docs, read))[name].replicas == now[name].replicas;
            && (kept <==> Labels.Autoscaler.Clamp(read[name].replicas, min, max) == now[name].replicas)
            && (now[name] == read[name] ==> (kept <==> min <= now[name].replicas <= max))
  {
    CarriedServiceKeepsReadCount(docs, read, now, name);
    Labels.ClampsAgreeIff(FoldLabels(Decls(docs, name)), read[name].replicas);
  }
}
