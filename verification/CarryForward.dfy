/** The autoscaler-aware rewrite of a merge group before it is deployed
    (internal/adapter/stackdeploy/carryforward.go). */
module CarryForward {
  import opened Words
  import opened Options
  import opened Compose
  import Labels

  /** A live Swarm service of the stack, under its short name. */
  datatype Live = Live(name: Name, replicas: Word, replicated: bool)

  /** Go's loop that fills liveByName: the last entry of a name wins. */
  function LiveByName(live: seq<Live>): map<Name, Live> {
    if live == [] then map[]
    else LiveByName(live[..|live| - 1])[live[|live| - 1].name := live[|live| - 1]]
  }

  method IndexLive(live: seq<Live>) returns (liveByName: map<Name, Live>)
    ensures liveByName == LiveByName(live)
  {
    liveByName := map[];
    for i := 0 to |live|
      invariant liveByName == LiveByName(live[..i])
    {
      assert live[..i + 1][..i] == live[..i];
      liveByName := liveByName[live[i].name := live[i]];
    }
    assert live[..|live|] == live;
  }

  /** The last entry of the name in the listing of live services. */
  predicate IsLive(live: seq<Live>, name: Name, e: Live) {
    exists k :: 0 <= k < |live| && live[k] == e && e.name == name && forall j :: k < j < |live| ==> live[j].name != name
  }

  lemma {:induction false} IsLiveIff(live: seq<Live>, name: Name, e: Live)
    ensures IsLive(live, name, e) <==> Get(LiveByName(live), name) == Some(e)
  {
    if live != [] {
      var n := |live| - 1;
      IsLiveIff(live[..n], name, e);
      if live[n].name != name {
        assert IsLive(live, name, e) <==> IsLive(live[..n], name, e);
      }
    }
  }

  // ----- what is rewritten -----

  /** The merged view of one service. */
  predicate AutoscalerOwned(decls: seq<Service>) {
    Labels.Read(FoldLabels(decls), Labels.LABEL_ENABLED) == "true"
  }

  predicate Global(decls: seq<Service>) {
    FoldMode(decls).Some? && FoldMode(decls).value == "global"
  }

  lemma GlobalAppend(decls: seq<Service>, s: Service)
    ensures Global(decls + [s]) ==
            if ExplicitMode(s).Some? then ExplicitMode(s).value == "global" else Global(decls)
  {
    assert (decls + [s])[..|decls|] == decls;
    assert FoldMode(decls + [s]) == Later(FoldMode(decls), ExplicitMode(s));
  }

  /** The count to carry into every declaration of the service, if it is carried at all. */
  function Carried(decls: seq<Service>, name: Name, live: map<Name, Live>): Option<Word> {
    if decls == [] || Global(decls) || !AutoscalerOwned(decls) then None
    else if name !in live || !live[name].replicated then None
    else Some(Labels.CarryClamp(FoldLabels(decls), live[name].replicas))
  }

  /** setReplicas. */
  function WithReplicas(s: Service, n: Word): Service {
    s.(deploy := Some(DeployOf(s).(replicas := Some(IntNum(n)))))
  }

  function RewriteService(s: Service, count: Option<Word>): Service {
    if count.Some? then WithReplicas(s, count.value) else s
  }

  function RewriteDoc(d: Doc, docs: seq<Doc>, live: map<Name, Live>): Doc {
    if d.services.None? then d
    else d.(services := Some(map name | name in d.services.value ::
      match d.services.value[name]
      case Malformed => Malformed
      case Declared(s) => Declared(RewriteService(s, Carried(Decls(docs, name), name, live)))))
  }

  /** The whole group after carry-forward. */
  function Rewrite(docs: seq<Doc>, live: map<Name, Live>): seq<Doc> {
    seq(|docs|, i requires 0 <= i < |docs| => RewriteDoc(docs[i], docs, live))
  }

  /** The services carry-forward adjusts. */
  function CarriedNames(docs: seq<Doc>, live: map<Name, Live>): set<Name> {
    set name | name in Names(docs) && Carried(Decls(docs, name), name, live).Some?
  }

  // ----- the rewrite survives the merge -----

  function RewriteAll(decls: seq<Service>, count: Option<Word>): seq<Service> {
    seq(|decls|, i requires 0 <= i < |decls| => RewriteService(decls[i], count))
  }

  lemma {:induction false} DeclsOfRewrite(docs: seq<Doc>, all: seq<Doc>, live: map<Name, Live>, name: Name)
    ensures var after := seq(|docs|, i requires 0 <= i < |docs| => RewriteDoc(docs[i], all, live));
            Decls(after, name) == RewriteAll(Decls(docs, name), Carried(Decls(all, name), name, live))
  {
    var after := seq(|docs|, i requires 0 <= i < |docs| => RewriteDoc(docs[i], all, live));
    if docs != [] {
      var n := |docs| - 1;
      DeclsOfRewrite(docs[..n], all, live, name);
      assert after[..n] == seq(n, i requires 0 <= i < n => RewriteDoc(docs[..n][i], all, live));
      assert Declares(after[n], name) <==> Declares(docs[n], name);
    }
  }

  lemma {:induction false} MergeKeepsCount(sel: seq<Service>, n: Word)
    requires sel != [] && forall s :: s in sel ==> DeployOf(s).replicas == Some(IntNum(n)) && s.deploy.Some?
    ensures MergeAll(sel).deploy.Some? && DeployOf(MergeAll(sel)).replicas == Some(IntNum(n))
  {
    if |sel| > 1 {
      assert sel[|sel| - 1] in sel;
      MergeKeepsCount(sel[..|sel| - 1], n);
    } else {
      assert sel[0] in sel;
    }
  }

  /** Merge-proof: whatever non-empty selection of the rewritten declarations is merged, in
      whatever order, with repetitions or not, docker deploys the carried count. */
  lemma CarriedCountSurvivesMerge(docs: seq<Doc>, live: map<Name, Live>, name: Name, sel: seq<Service>)
    requires Carried(Decls(docs, name), name, live).Some?
    requires sel != [] && forall s :: s in sel ==> s in Decls(Rewrite(docs, live), name)
    ensures DeployOf(MergeAll(sel)).replicas == Some(IntNum(Carried(Decls(docs, name), name, live).value))
  {
    var count := Carried(Decls(docs, name), name, live);
    DeclsOfRewrite(docs, docs, live, name);
    forall s | s in sel ensures DeployOf(s).replicas == Some(IntNum(count.value)) && s.deploy.Some? {
      assert s in RewriteAll(Decls(docs, name), count);
    }
    MergeKeepsCount(sel, count.value);
  }

  // ----- nothing else changes -----

  /** Apart from `deploy.replicas` of the carried services every key of every document is as
      before. */
  lemma NothingElseChanges(docs: seq<Doc>, live: map<Name, Live>, i: nat)
    requires i < |docs|
    ensures var d, e := docs[i], Rewrite(docs, live)[i];
            && |Rewrite(docs, live)| == |docs|
            && e.rest == d.rest && (e.services.Some? <==> d.services.Some?)
            && (d.services.Some? ==> e.services.value.Keys == d.services.value.Keys)
            && (forall name :: Declares(e, name) <==> Declares(d, name))
            && (forall name :: Declares(d, name) ==>
                  var s, t := Decl(d, name), Decl(e, name);
                  if name in CarriedNames(docs, live) then
                    && t.(deploy := None) == s.(deploy := None)
                    && DeployOf(t).(replicas := None) == DeployOf(s).(replicas := None)
                  else t == s)
  {
    forall name | Declares(docs[i], name) ensures name in Names(docs) {
    }
  }

  // ----- a second pass -----

  lemma {:induction false} RewriteKeepsView(decls: seq<Service>, count: Option<Word>)
    ensures FoldLabels(RewriteAll(decls, count)) == FoldLabels(decls)
    ensures FoldMode(RewriteAll(decls, count)) == FoldMode(decls)
  {
    if decls != [] {
      var n := |decls| - 1;
      assert RewriteAll(decls, count)[..n] == RewriteAll(decls[..n], count);
      RewriteKeepsView(decls[..n], count);
      var s, t := decls[n], RewriteService(decls[n], count);
      assert FlatLabels(t) == FlatLabels(s) && ExplicitMode(t) == ExplicitMode(s);
    }
  }

  lemma CarriedAfterRewrite(docs: seq<Doc>, before: map<Name, Live>, live: map<Name, Live>, name: Name)
    ensures Carried(Decls(Rewrite(docs, before), name), name, live) == Carried(Decls(docs, name), name, live)
  {
    DeclsOfRewrite(docs, docs, before, name);
    RewriteKeepsView(Decls(docs, name), Carried(Decls(docs, name), name, before));
  }

  /** A second pass over the same live state changes nothing. */
  lemma RewriteTwice(docs: seq<Doc>, live: map<Name, Live>)
    ensures Rewrite(Rewrite(docs, live), live) == Rewrite(docs, live)
  {
    var once := Rewrite(docs, live);
    forall i | 0 <= i < |docs| ensures RewriteDoc(once[i], once, live) == once[i] {
      forall name | Declares(once[i], name)
        ensures RewriteDoc(once[i], once, live).services.value[name] == once[i].services.value[name]
      {
        CarriedAfterRewrite(docs, live, live, name);
      }
      if once[i].services.Some? {
        assert RewriteDoc(once[i], once, live).services.value == once[i].services.value;
      }
    }
  }
}
