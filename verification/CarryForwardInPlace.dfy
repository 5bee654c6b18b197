/** ApplyCarryForwardGroup as it runs: the maps of the service declarations live in a store,
    documents and the merged view refer to them, and the rewrite goes through the references of
    the merged view. */
module CarryForwardInPlace {
  import opened Words
  import opened Options
  import opened Compose
  import opened CarryForward
  import Labels
  import MergedView
  import Intent

  /** A reference to a service map in the store. */
  type Ref = nat

  datatype NodeEntry = Node(ref: Ref) | BadEntry

  datatype NodeDoc = NodeDoc(services: Option<map<Name, NodeEntry>>, rest: map<nat, int>)

  predicate Holds(d: NodeDoc, name: Name) {
    d.services.Some? && name in d.services.value && d.services.value[name].Node?
  }

  function RefAt(d: NodeDoc, name: Name): Ref
    requires Holds(d, name)
  {
    d.services.value[name].ref
  }

  /** Every reference is into the store, and no two declarations share one: `home` tells whose
      it is. */
  ghost predicate Distinct(docs: seq<NodeDoc>, home: seq<(nat, Name)>) {
    forall i: nat, name: Name :: i < |docs| && Holds(docs[i], name) ==>
      RefAt(docs[i], name) < |home| && home[RefAt(docs[i], name)] == (i, name)
  }

  ghost predicate InStore(d: NodeDoc, n: nat) {
    forall name: Name :: Holds(d, name) ==> RefAt(d, name) < n
  }

  ghost predicate AllInStore(docs: seq<NodeDoc>, n: nat) {
    forall i: nat, name: Name :: i < |docs| && Holds(docs[i], name) ==> RefAt(docs[i], name) < n
  }

  function ViewDoc(d: NodeDoc, store: seq<Service>): Doc
    requires InStore(d, |store|)
  {
    Doc(if d.services.None? then None
        else Some(map name | name in d.services.value ::
               if Holds(d, name) then Declared(store[RefAt(d, name)]) else Malformed),
        d.rest)
  }

  /** The documents as values. */
  ghost function View(docs: seq<NodeDoc>, store: seq<Service>): seq<Doc>
    requires AllInStore(docs, |store|)
  {
    seq(|docs|, i requires 0 <= i < |docs| => ViewDoc(docs[i], store))
  }

  // ----- mergeServices -----

  /** The references to every declaration of a service, in `-c` order. */
  function RefsOf(docs: seq<NodeDoc>, name: Name): seq<Ref> {
    if docs == [] then []
    else
      var d := docs[|docs| - 1];
      if Holds(d, name) then RefsOf(docs[..|docs| - 1], name) + [RefAt(d, name)] else RefsOf(docs[..|docs| - 1], name)
  }

  datatype MergedService = MergedService(labels: map<string, string>, global: bool, decls: seq<Ref>)

  ghost predicate Describes(ms: MergedService, decls: seq<Service>, refs: seq<Ref>) {
    ms.labels == FoldLabels(decls) && ms.global == Global(decls) && ms.decls == refs
  }

  /** The entry of a service after one more declaration; None stands for an unseen service. */
  method AddDeclaration(seen: Option<MergedService>, ref: Ref, body: Service, ghost decls: seq<Service>,
                        ghost refs: seq<Ref>) returns (ms: MergedService)
    requires if seen.Some? then Describes(seen.value, decls, refs) else decls == [] && refs == []
    ensures Describes(ms, decls + [body], refs + [ref])
  {
    assert (decls + [body])[..|decls|] == decls;
    GlobalAppend(decls, body);
    ms := if seen.Some? then seen.value else MergedService(map[], false, []);
    var labels := MergedView.ServiceLabels(body);
    ms := ms.(decls := ms.decls + [ref], labels := ms.labels + labels);
    var mode := ExplicitMode(body);
    if mode.Some? {
      ms := ms.(global := mode.value == "global");
    }
  }

  /** The entry for a service agrees with the documents seen so far. */
  ghost predicate Current(merged: map<Name, MergedService>, view: seq<Doc>, docs: seq<NodeDoc>, name: Name) {
    var decls := Decls(view, name);
    if name in merged then decls != [] && Describes(merged[name], decls, RefsOf(docs, name))
    else decls == [] && RefsOf(docs, name) == []
  }

  ghost predicate AllCurrent(merged: map<Name, MergedService>, view: seq<Doc>, docs: seq<NodeDoc>) {
    forall name :: Current(merged, view, docs, name)
  }

  lemma RefsAppend(docs: seq<NodeDoc>, d: NodeDoc, name: Name)
    ensures RefsOf(docs + [d], name) == if Holds(d, name) then RefsOf(docs, name) + [RefAt(d, name)] else RefsOf(docs, name)
  {
    assert (docs + [d])[..|docs|] == docs;
  }

  /** The inner loop of mergeServices, over one services map, in any order. */
  method MergeDocument(merged: map<Name, MergedService>, d: NodeDoc, store: array<Service>,
                       ghost view: seq<Doc>, ghost docs: seq<NodeDoc>) returns (next: map<Name, MergedService>)
    requires d.services.Some? && InStore(d, store.Length)
    requires AllCurrent(merged, view, docs)
    ensures AllCurrent(next, view + [ViewDoc(d, store[..])], docs + [d])
  {
    next := merged;
    ghost var v := ViewDoc(d, store[..]);
    var services := d.services.value;
    var todo := services.Keys;
    while todo != {}
      invariant todo <= services.Keys
      invariant forall name :: name in todo || !Holds(d, name) ==> Get(next, name) == Get(merged, name)
      invariant forall name :: name !in todo && Holds(d, name) ==> Current(next, view + [v], docs + [d], name)
    {
      var name :| name in todo;
      todo := todo - {name};
      if services[name].Node? {
        var ref := services[name].ref;
        assert Current(merged, view, docs, name);
        DeclsAppend(view, v, name);
        RefsAppend(docs, d, name);
        var ms := AddDeclaration(Get(next, name), ref, store[ref], Decls(view, name), RefsOf(docs, name));
        next := next[name := ms];
      }
    }
    forall name ensures Current(next, view + [v], docs + [d], name) {
      DeclsAppend(view, v, name);
      RefsAppend(docs, d, name);
      assert Current(merged, view, docs, name);
    }
  }

  /** mergeServices. */
  method MergeServices(docs: seq<NodeDoc>, store: array<Service>)
      returns (merged: map<Name, MergedService>, hasServices: bool)
    requires AllInStore(docs, store.Length)
    ensures hasServices <==> HasServices(View(docs, store[..]))
    ensures AllCurrent(merged, View(docs, store[..]), docs)
  {
    merged, hasServices := map[], false;
    ghost var view := View(docs, store[..]);
    for i := 0 to |docs|
      invariant hasServices <==> HasServices(view[..i])
      invariant AllCurrent(merged, view[..i], docs[..i])
    {
      assert docs[..i + 1] == docs[..i] + [docs[i]];
      assert view[..i + 1] == view[..i] + [ViewDoc(docs[i], store[..])];
      ServicesAppend(view[..i], view[i]);
      if docs[i].services.Some? {
        hasServices := true;
        merged := MergeDocument(merged, docs[i], store, view[..i], docs[..i]);
      } else {
        SkipDocument(merged, docs[i], view[i], view[..i], docs[..i]);
      }
    }
    assert docs[..|docs|] == docs && view[..|docs|] == view;
  }

  lemma ServicesAppend(view: seq<Doc>, v: Doc)
    ensures HasServices(view + [v]) <==> HasServices(view) || v.services.Some?
  {
    assert (view + [v])[|view|] == v;
    assert forall k :: 0 <= k < |view| ==> (view + [v])[k] == view[k];
  }

  lemma SkipDocument(merged: map<Name, MergedService>, d: NodeDoc, v: Doc, view: seq<Doc>, docs: seq<NodeDoc>)
    requires d.services.None? && v.services.None? && AllCurrent(merged, view, docs)
    ensures AllCurrent(merged, view + [v], docs + [d])
  {
    forall name ensures Current(merged, view + [v], docs + [d], name) {
      DeclsAppend(view, v, name);
      RefsAppend(docs, d, name);
      assert Current(merged, view, docs, name);
    }
  }

  // ----- the rewrite -----

  lemma {:induction false} RefsComeFromDocs(docs: seq<NodeDoc>, name: Name, ref: Ref)
    ensures ref in RefsOf(docs, name) <==> exists i: nat :: i < |docs| && Holds(docs[i], name) && RefAt(docs[i], name) == ref
  {
    if docs != [] {
      var n := |docs| - 1;
      assert forall i :: 0 <= i < n ==> docs[..n][i] == docs[i];
      RefsComeFromDocs(docs[..n], name, ref);
    }
  }

  /** What the store holds once the services in `done` have been treated. */
  ghost predicate Treated(docs: seq<NodeDoc>, before: seq<Service>, after: seq<Service>, done: set<Name>,
                          view: seq<Doc>, live: map<Name, Live>)
    requires AllInStore(docs, |before|)
    requires |after| == |before|
  {
    forall i: nat, name: Name :: i < |docs| && Holds(docs[i], name) ==>
         after[RefAt(docs[i], name)] ==
           if name in done then RewriteService(before[RefAt(docs[i], name)], Carried(Decls(view, name), name, live))
           else before[RefAt(docs[i], name)]
  }

  lemma TreatedStep(docs: seq<NodeDoc>, home: seq<(nat, Name)>, before: seq<Service>, mid: seq<Service>,
                    after: seq<Service>, done: set<Name>, name: Name, view: seq<Doc>, live: map<Name, Live>)
    requires AllInStore(docs, |before|)
    requires |mid| == |after| == |before| == |home| && Distinct(docs, home)
    requires Treated(docs, before, mid, done, view, live) && name !in done
    requires forall r :: 0 <= r < |before| ==>
      after[r] == if r in RefsOf(docs, name) then RewriteService(mid[r], Carried(Decls(view, name), name, live)) else mid[r]
    ensures Treated(docs, before, after, done + {name}, view, live)
  {
    forall i: nat, other: Name | i < |docs| && Holds(docs[i], other)
      ensures after[RefAt(docs[i], other)] ==
        if other in done + {name}
        then RewriteService(before[RefAt(docs[i], other)], Carried(Decls(view, other), other, live))
        else before[RefAt(docs[i], other)]
    {
      RefsComeFromDocs(docs, name, RefAt(docs[i], other));
    }
  }

  /** The branches of the loop body that decide whether, and what, to carry. */
  method Decide(ms: MergedService, name: Name, liveByName: map<Name, Live>, ghost decls: seq<Service>)
      returns (want: Option<Word>)
    requires decls != [] && ms.labels == FoldLabels(decls) && ms.global == Global(decls)
    ensures want == Carried(decls, name, liveByName)
  {
    if ms.global { return None; }
    if Labels.Read(ms.labels, Labels.LABEL_ENABLED) != "true" { return None; }
    if name !in liveByName { return None; }
    var ls := liveByName[name];
    if !ls.replicated { return None; }
    var minV := Labels.Bound(ms.labels, Labels.LABEL_MIN);
    var maxV := Labels.Bound(ms.labels, Labels.LABEL_MAX);
    var count := ls.replicas;
    if maxV > 0 && count > maxV { count := maxV; }
    if minV > 0 && count < minV { count := minV; }
    return Some(count);
  }

  /** The body of the loop over the merged services. */
  method TreatService(ms: MergedService, name: Name, liveByName: map<Name, Live>, store: array<Service>,
                      docs: seq<NodeDoc>, ghost home: seq<(nat, Name)>, ghost before: seq<Service>,
                      ghost done: set<Name>, ghost view: seq<Doc>) returns (rewritten: bool)
    requires AllInStore(docs, |before|)
    requires |before| == |home| == store.Length && Distinct(docs, home)
    requires Treated(docs, before, store[..], done, view, liveByName) && name !in done
    requires Decls(view, name) != [] && Describes(ms, Decls(view, name), RefsOf(docs, name))
    modifies store
    ensures Treated(docs, before, store[..], done + {name}, view, liveByName)
    ensures rewritten <==> Carried(Decls(view, name), name, liveByName).Some?
  {
    ghost var mid := store[..];
    var want := Decide(ms, name, liveByName, Decls(view, name));
    if want.Some? {
      RefsInStore(docs, name, store.Length);
      WriteAll(store, ms.decls, want.value);
    }
    TreatedStep(docs, home, before, mid, store[..], done, name, view, liveByName);
    rewritten := want.Some?;
  }

  lemma DropOne(all: set<Name>, todo: set<Name>, name: Name)
    requires name in todo && name in all
    ensures all - (todo - {name}) == (all - todo) + {name}
  {
  }

  /** ApplyCarryForwardGroup.  The services are treated in any order; the documents end up as
      Rewrite says, and the count is the number of services adjusted.  Without any services map
      it fails and changes nothing. */
  method ApplyCarryForwardGroup(docs: seq<NodeDoc>, store: array<Service>, live: seq<Live>, ghost home: seq<(nat, Name)>)
      returns (changed: nat, ok: bool)
    requires AllInStore(docs, store.Length)
    requires |home| == store.Length && Distinct(docs, home)
    modifies store
    ensures ok <==> HasServices(View(docs, old(store[..])))
    ensures !ok ==> changed == 0 && store[..] == old(store[..])
    ensures ok ==> View(docs, store[..]) == Rewrite(View(docs, old(store[..])), LiveByName(live))
    ensures ok ==> changed == |CarriedNames(View(docs, old(store[..])), LiveByName(live))|
    ensures ok ==> Intent.IsRewritten(View(docs, old(store[..])), live, View(docs, store[..]))
  {
    ghost var before := store[..];
    ghost var view := View(docs, before);
    var merged, hasServices := MergeServices(docs, store);
    if !hasServices {
      return 0, false;
    }
    var liveByName := IndexLive(live);
    ghost var adjusted;
    changed, adjusted := RewriteServices(merged, liveByName, docs, store, home, view);
    AdjustedAreCarried(adjusted, merged, view, docs, liveByName);
    TreatedIsRewrite(docs, before, store[..], merged, view, liveByName);
    Intent.RewriteMeans(view, live);
    ok := true;
  }

  /** The loop over the merged services. */
  method RewriteServices(merged: map<Name, MergedService>, liveByName: map<Name, Live>, docs: seq<NodeDoc>,
                         store: array<Service>, ghost home: seq<(nat, Name)>, ghost view: seq<Doc>)
      returns (changed: nat, ghost adjusted: set<Name>)
    requires AllInStore(docs, store.Length) && |home| == store.Length && Distinct(docs, home)
    requires AllCurrent(merged, view, docs)
    modifies store
    ensures Treated(docs, old(store[..]), store[..], merged.Keys, view, liveByName)
    ensures changed == |adjusted| && IsAdjusted(adjusted, merged.Keys, view, liveByName)
  {
    ghost var before := store[..];
    changed, adjusted := 0, {};
    var todo := merged.Keys;
    while todo != {}
      invariant todo <= merged.Keys
      invariant Treated(docs, before, store[..], merged.Keys - todo, view, liveByName)
      invariant changed == |adjusted| && IsAdjusted(adjusted, merged.Keys - todo, view, liveByName)
    {
      var name :| name in todo;
      assert Current(merged, view, docs, name);
      var rewritten := TreatService(merged[name], name, liveByName, store, docs, home, before, merged.Keys - todo, view);
      if rewritten {
        changed := changed + 1;
        adjusted := adjusted + {name};
      }
      DropOne(merged.Keys, todo, name);
      todo := todo - {name};
    }
    assert merged.Keys - {} == merged.Keys;
  }

  ghost predicate IsAdjusted(adjusted: set<Name>, done: set<Name>, view: seq<Doc>, live: map<Name, Live>) {
    forall name :: name in adjusted <==> name in done && Carried(Decls(view, name), name, live).Some?
  }

  lemma AdjustedAreCarried(adjusted: set<Name>, merged: map<Name, MergedService>, view: seq<Doc>, docs: seq<NodeDoc>,
                           live: map<Name, Live>)
    requires AllCurrent(merged, view, docs) && IsAdjusted(adjusted, merged.Keys, view, live)
    ensures adjusted == CarriedNames(view, live)
  {
    forall name ensures name in adjusted <==> name in CarriedNames(view, live) {
      DeclaredIffDecls(view, name);
      assert Current(merged, view, docs, name);
    }
  }

  lemma RefsInStore(docs: seq<NodeDoc>, name: Name, n: nat)
    requires AllInStore(docs, n)
    ensures forall k :: 0 <= k < |RefsOf(docs, name)| ==> RefsOf(docs, name)[k] < n
  {
    forall r | r in RefsOf(docs, name) ensures r < n {
      RefsComeFromDocs(docs, name, r);
    }
  }

  lemma TreatedIsRewrite(docs: seq<NodeDoc>, before: seq<Service>, after: seq<Service>, merged: map<Name, MergedService>,
                         view: seq<Doc>, live: map<Name, Live>)
    requires AllInStore(docs, |before|)
    requires |after| == |before| && view == View(docs, before) && AllCurrent(merged, view, docs)
    requires Treated(docs, before, after, merged.Keys, view, live)
    ensures View(docs, after) == Rewrite(view, live)
  {
    forall i: nat | i < |docs| ensures ViewDoc(docs[i], after) == RewriteDoc(view[i], view, live) {
      forall name | Holds(docs[i], name) ensures name in merged {
        assert Declares(view[i], name);
        DeclaredIffDecls(view, name);
        assert Current(merged, view, docs, name);
      }
      if docs[i].services.Some? {
        assert ViewDoc(docs[i], after).services.value == RewriteDoc(view[i], view, live).services.value;
      }
    }
  }

  /** Writes one value into every declaration of a service. */
  method WriteAll(store: array<Service>, refs: seq<Ref>, n: Word)
    requires forall k :: 0 <= k < |refs| ==> refs[k] < store.Length
    modifies store
    ensures forall r :: 0 <= r < store.Length ==>
      store[r] == if r in refs then WithReplicas(old(store[r]), n) else old(store[r])
  {
    for k := 0 to |refs|
      invariant forall r :: 0 <= r < store.Length ==>
        store[r] == if r in refs[..k] then WithReplicas(old(store[r]), n) else old(store[r])
    {
      SetReplicas(store, refs[k], n);
      assert refs[..k + 1] == refs[..k] + [refs[k]];
    }
    assert refs[..|refs|] == refs;
  }

  /** setReplicas. */
  method SetReplicas(store: array<Service>, ref: Ref, n: Word)
    requires ref < store.Length
    modifies store
    ensures store[..] == old(store[..])[ref := WithReplicas(old(store[ref]), n)]
  {
    var svc := store[ref];
    var d := if svc.deploy.Some? then svc.deploy.value else NO_DEPLOY;
    store[ref] := svc.(deploy := Some(d.(replicas := Some(IntNum(n)))));
  }
}
