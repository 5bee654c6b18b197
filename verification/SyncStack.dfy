/** The pipeline as the loop runs it, step by step (internal/app/gitopsync/loop.go: syncStack). */
module SyncStack {
  import opened Options
  import opened Words
  import opened Paths
  import opened Pipeline
  import Drift
  import StatusStore

  class SyncLoop {
    var trace: seq<Call>
    var memory: Memory

    constructor ()
      ensures trace == [] && memory == Memory(map[], map[], map[], map[])
    {
      trace := [];
      memory := Memory(map[], map[], map[], map[]);
    }

    /** One call to git, the renderer, sops or the deployer. */
    method Perform(c: Call, p: Pass, ghost end: Outlook, ghost rest: seq<Call>) returns (ok: bool)
      requires Ahead(trace, [c] + rest, p.env.ok) == end
      modifies this`trace
      ensures ok == p.env.ok(c)
      ensures if ok then Ahead(trace, rest, p.env.ok) == end else end == Outlook(trace, Some(c))
    {
      AheadAfterCall(trace, c, rest, p.env.ok);
      ok := p.env.ok(c);
      trace := trace + [c];
    }

    method RenderGroup(p: Pass, g: nat, ghost end: Outlook, ghost rest: seq<Call>)
        returns (docs: seq<Document>, failed: Option<Call>)
      requires g < |p.st.groups| && Ahead(trace, RenderFrom(p, g, 0) + rest, p.env.ok) == end
      modifies this`trace
      ensures failed.None? ==> docs == RenderedDocs(p, g) && Ahead(trace, RenderFrom(p, g + 1, 0) + rest, p.env.ok) == end
      ensures failed.Some? ==> end == Outlook(trace, failed) && StageOf(failed.value) == StatusStore.AtRender
    {
      docs, failed := [], None;
      var d := 0;
      while d < p.st.groups[g].files
        invariant d <= p.st.groups[g].files && docs == RenderedDocs(p, g)[..d]
        invariant Ahead(trace, RenderFrom(p, g, d) + rest, p.env.ok) == end
      {
        ghost var more := RenderFrom(p, g, d + 1) + rest;
        assert RenderFrom(p, g, d) + rest == [Read(g, d)] + ([Render(g, d)] + more);
        var ok := Perform(Read(g, d), p, end, [Render(g, d)] + more);
        if !ok {
          return docs, Some(Read(g, d));
        }
        ok := Perform(Render(g, d), p, end, more);
        if !ok {
          return docs, Some(Render(g, d));
        }
        docs := docs + [p.env.rendered(g, d)];
        d := d + 1;
      }
    }

    method RenderGroups(p: Pass, ghost end: Outlook, ghost rest: seq<Call>)
        returns (docs: seq<seq<Document>>, failed: Option<Call>)
      requires Ahead(trace, RenderFrom(p, 0, 0) + rest, p.env.ok) == end
      modifies this`trace
      ensures failed.None? ==> AllRendered(p, docs) && Ahead(trace, rest, p.env.ok) == end
      ensures failed.Some? ==> end == Outlook(trace, failed) && StageOf(failed.value) == StatusStore.AtRender
    {
      docs, failed := [], None;
      while |docs| < |p.st.groups|
        invariant RenderedSoFar(p, docs)
        invariant Ahead(trace, RenderFrom(p, |docs|, 0) + rest, p.env.ok) == end
      {
        var group, bad := RenderGroup(p, |docs|, end, rest);
        if bad.Some? {
          return docs, bad;
        }
        RenderedMore(p, docs);
        ghost var n := |docs| + 1;
        docs := docs + [group];
        assert |docs| == n;
      }
      NothingToRender(p, rest);
    }

    method SnapshotOf(docs: seq<Document>) returns (snap: Counts)
      ensures snap == Drift.Snapshot(ServicesOf(docs))
    {
      var excluded;
      snap, excluded := Drift.DesiredReplicasGroup(ServicesOf(docs));
    }

    /** The drift snapshot over all groups. */
    method Snapshot(p: Pass, docs: seq<seq<Document>>) returns (desired: Option<Counts>)
      requires AllRendered(p, docs)
      ensures desired == Desired(p)
    {
      var snap: Counts := map[];
      ghost var snaps := Snapshots(p);
      for g := 0 to |docs|
        invariant snap == Union(snaps[..g])
      {
        var group := SnapshotOf(docs[g]);
        assert snaps[..g + 1][..g] == snaps[..g];
        snap := snap + group;
      }
      assert snaps[..|docs|] == snaps;
      desired := if |snap| == 0 then None else Some(snap);
    }

    method DiscoverGroup(p: Pass, g: nat, ghost end: Outlook, ghost rest: seq<Call>)
        returns (found: seq<Path>, failed: Option<Call>)
      requires g < |p.st.groups| && Ahead(trace, DiscoverFrom(p, g, 0) + rest, p.env.ok) == end
      modifies this`trace
      ensures failed.None? ==> && found + FoundFrom(p, g + 1, 0) == FoundFrom(p, g, 0)
                               && Ahead(trace, DiscoverFrom(p, g + 1, 0) + rest, p.env.ok) == end
      ensures failed.Some? ==> end == Outlook(trace, failed) && StageOf(failed.value) == StatusStore.AtSecrets
    {
      found, failed := [], None;
      var d := 0;
      while d < p.st.groups[g].files
        invariant d <= p.st.groups[g].files && found + FoundFrom(p, g, d) == FoundFrom(p, g, 0)
        invariant Ahead(trace, DiscoverFrom(p, g, d) + rest, p.env.ok) == end
      {
        ghost var more := DiscoverFrom(p, g, d + 1) + rest;
        assert DiscoverFrom(p, g, d) + rest == [Discover(g, d)] + more;
        var ok := Perform(Discover(g, d), p, end, more);
        if !ok {
          return found, Some(Discover(g, d));
        }
        Regroup(found, p.env.secrets(g, d), FoundFrom(p, g, d + 1));
        found := found + p.env.secrets(g, d);
        d := d + 1;
      }
    }

    method DiscoverAll(p: Pass, ghost end: Outlook, ghost rest: seq<Call>) returns (found: seq<Path>, failed: Option<Call>)
      requires Ahead(trace, DiscoverFrom(p, 0, 0) + rest, p.env.ok) == end
      modifies this`trace
      ensures failed.None? ==> found == FoundFrom(p, 0, 0) && Ahead(trace, rest, p.env.ok) == end
      ensures failed.Some? ==> end == Outlook(trace, failed) && StageOf(failed.value) == StatusStore.AtSecrets
    {
      found, failed := [], None;
      var g := 0;
      while g < |p.st.groups|
        invariant g <= |p.st.groups| && found + FoundFrom(p, g, 0) == FoundFrom(p, 0, 0)
        invariant Ahead(trace, DiscoverFrom(p, g, 0) + rest, p.env.ok) == end
      {
        var more, bad := DiscoverGroup(p, g, end, rest);
        if bad.Some? {
          return found, bad;
        }
        Regroup(found, more, FoundFrom(p, g + 1, 0));
        found := found + more;
        g := g + 1;
      }
      assert [] + rest == rest && found + [] == found;
    }

    /** Discovery and decryption. */
    method Unseal(p: Pass) returns (failed: Option<Call>)
      modifies this`trace
      ensures trace == old(trace) + Ran(Unsealing(p), p.env.ok)
      ensures failed == FirstFailed(Unsealing(p), p.env.ok) && (failed.Some? ==> StageOf(failed.value).AtSecrets?)
    {
      failed := None;
      var files := p.st.sopsFiles;
      ghost var end := Ahead(trace, Unsealing(p), p.env.ok);
      ghost var decrypt := if p.cfg.decrypter && SecretFiles(p) != [] then [Decrypt(SecretFiles(p))] else [];
      if p.st.discovery {
        files, failed := DiscoverAll(p, end, decrypt);
        if failed.Some? {
          return;
        }
      } else {
        assert Unsealing(p) == decrypt;
      }
      assert Ahead(trace, decrypt, p.env.ok) == end && files == SecretFiles(p);
      if p.cfg.decrypter && |files| > 0 {
        assert decrypt == [Decrypt(files)] + [];
        var ok := Perform(Decrypt(files), p, end, []);
        if !ok {
          return Some(Decrypt(files));
        }
      }
    }

    /** Rotates the documents of a group in place. */
    method RotateGroup(p: Pass, g: nat, docs: seq<Document>, ghost end: Outlook, ghost rest: seq<Call>)
        returns (rotated: seq<Document>, failed: Option<Call>)
      requires g < |p.st.groups| && docs == RenderedDocs(p, g)
      requires Ahead(trace, RotateFrom(p, g, 0) + rest, p.env.ok) == end
      modifies this`trace
      ensures failed == FirstFailed(RotateFrom(p, g, 0), p.env.ok)
      ensures failed.None? ==> rotated == DeployedDocs(p, g) && Ahead(trace, rest, p.env.ok) == end
      ensures failed.Some? ==> end == Outlook(trace, failed) && failed.value.Rotate?
    {
      rotated, failed := docs, None;
      if p.cfg.autoRotate {
        var d := 0;
        while d < |docs|
          invariant d <= |docs| == |rotated|
          invariant forall i :: 0 <= i < |docs| ==> rotated[i] == if i < d then RotatedDoc(p, g, i) else docs[i]
          invariant FirstFailed(RotateFrom(p, g, d), p.env.ok) == FirstFailed(RotateFrom(p, g, 0), p.env.ok)
          invariant Ahead(trace, RotateFrom(p, g, d) + rest, p.env.ok) == end
        {
          ghost var more := RotateFrom(p, g, d + 1) + rest;
          assert RotateFrom(p, g, d) + rest == [Rotate(g, d)] + more;
          var ok := Perform(Rotate(g, d), p, end, more);
          if !ok {
            return rotated, Some(Rotate(g, d));
          }
          rotated := rotated[d := rotated[d].(objects := p.env.rotated(g, d))];
          d := d + 1;
        }
      }
      assert [] + rest == rest;
    }

    /** Rotates and deploys one group. */
    method DeployGroup(p: Pass, g: nat, docs: seq<Document>, ghost end: Outlook) returns (failed: Option<Call>)
      requires g < |p.st.groups| && docs == RenderedDocs(p, g)
      requires Ahead(trace, DeployFrom(p, g), p.env.ok) == end
      modifies this`trace
      ensures failed == FirstFailed(GroupCalls(p, g), p.env.ok)
      ensures failed.None? ==> Ahead(trace, DeployFrom(p, g + 1), p.env.ok) == end
      ensures failed.Some? ==> end == Outlook(trace, failed) && (failed.value.Rotate? || failed.value.Deploy?)
    {
      ghost var deploy := Deploy(g, DeployedDocs(p, g), EffectivePolicy(p, g));
      RunAppend(RotateFrom(p, g, 0), [deploy], p.env.ok);
      GroupComesFirst(p, g);
      var rotated;
      rotated, failed := RotateGroup(p, g, docs, end, [deploy] + DeployFrom(p, g + 1));
      if failed.Some? {
        return;
      }
      var ok := Perform(Deploy(g, rotated, EffectivePolicy(p, g)), p, end, DeployFrom(p, g + 1));
      if !ok {
        failed := Some(Deploy(g, rotated, EffectivePolicy(p, g)));
      }
    }

    /** The deploy loop, with the outcome of each group. */
    method DeployGroups(p: Pass, docs: seq<seq<Document>>)
        returns (files: seq<StatusStore.FileOutcome>, failed: Option<Call>)
      requires AllRendered(p, docs)
      modifies this`trace
      ensures trace == old(trace) + Ran(DeployFrom(p, 0), p.env.ok)
      ensures failed == FirstFailed(DeployFrom(p, 0), p.env.ok) && (failed.Some? ==> failed.value.Rotate? || failed.value.Deploy?)
      ensures files == Outcomes(p)
    {
      ghost var end := Ahead(trace, DeployFrom(p, 0), p.env.ok);
      files := seq(|docs|, _ => StatusStore.Pending);
      failed := None;
      var g := 0;
      while g < |docs|
        invariant g <= |docs| && OkBefore(p, g) && failed.None?
        invariant DeployedSoFar(files, g, |docs|)
        invariant Ahead(trace, DeployFrom(p, g), p.env.ok) == end
      {
        failed := DeployGroup(p, g, docs[g], end);
        if failed.Some? {
          FailedHere(p, g);
          if p.env.panics(failed.value) {
            LeftAreOutcomes(p, files, g);
            return;
          }
          MarkedAreOutcomes(p, files, g);
          files := MarkFailedFrom(files, g, p.env.error(failed.value));
          return;
        }
        files := files[g := StatusStore.Deployed];
        g := g + 1;
      }
      assert files == Outcomes(p);
    }

    /** git.Sync, the values file, and every document rendered. */
    method Prepare(p: Pass) returns (rev: Option<nat>, docs: seq<seq<Document>>, failed: Option<Call>)
      modifies this`trace
      ensures trace == old(trace) + Ran(Preparation(p), p.env.ok)
      ensures rev == if p.env.ok(Sync) then Some(p.env.revision) else None
      ensures failed == FirstFailed(Preparation(p), p.env.ok)
      ensures failed.None? ==> AllRendered(p, docs) && rev.Some?
    {
      rev, docs, failed := None, [], None;
      ghost var values := if p.st.valuesFile then [ReadValues] else [];
      ghost var end := Ahead(trace, Preparation(p), p.env.ok);
      ghost var renders := RenderFrom(p, 0, 0);
      assert Preparation(p) == [Sync] + (values + renders);
      var ok := Perform(Sync, p, end, values + renders);
      if !ok {
        return rev, docs, Some(Sync);
      }
      rev := Some(p.env.revision);
      if p.st.valuesFile {
        ok := Perform(ReadValues, p, end, renders);
        if !ok {
          return rev, docs, Some(ReadValues);
        }
      } else {
        assert values + renders == renders;
      }
      assert renders + [] == renders;
      docs, failed := RenderGroups(p, end, []);
    }

    /** Decryption, the deploys and what is remembered of them. */
    method Apply(p: Pass, docs: seq<seq<Document>>) returns (failed: Option<Call>, files: seq<StatusStore.FileOutcome>)
      requires AllRendered(p, docs) && !p.cfg.dryRun
      modifies this
      ensures var unsealed := FirstFailed(Unsealing(p), p.env.ok);
              && trace == (if unsealed.Some? then old(trace) + Ran(Unsealing(p), p.env.ok)
                           else old(trace) + Ran(Unsealing(p), p.env.ok) + Ran(DeployFrom(p, 0), p.env.ok))
              && failed == (if unsealed.Some? then unsealed else FirstFailed(DeployFrom(p, 0), p.env.ok))
              && files == (if unsealed.Some? then [] else Outcomes(p))
      ensures memory == Marked(old(memory), p, failed)
    {
      files := [];
      failed := Unseal(p);
      if failed.Some? {
        return;
      }
      files, failed := DeployGroups(p, docs);
      var name, m := p.st.name, memory;
      if failed.None? {
        memory := m.(rev := m.rev[name := p.env.revision], fine := m.fine[name := true],
                     count := m.count[name := Add(CountOf(m, name), 1)]);
      } else if failed.value.Deploy? && !p.env.panics(failed.value) {
        memory := m.(rev := m.rev[name := p.env.revision], fine := m.fine[name := false]);
      }
    }

    /** recordStatus. */
    method Report(p: Pass, rev: Option<nat>, failed: Option<Call>, files: seq<StatusStore.FileOutcome>, now: int)
        returns (result: StatusStore.PassResult)
      ensures result == Summary(memory, p, rev, failed, files, now)
    {
      var desired: Option<Counts> := None;
      if p.st.name in memory.desired {
        desired := memory.desired[p.st.name];
      }
      var stage: Option<StatusStore.Stage> := None;
      if failed.Some? {
        stage := Some(if p.env.panics(failed.value) then StatusStore.Panicked else StageOf(failed.value));
      }
      result := StatusStore.PassResult(rev, stage, now, CountOf(memory, p.st.name), desired, files);
    }

    /** syncStack between the lock and the recorded status. */
    method Run(p: Pass, now: int) returns (result: StatusStore.PassResult)
      modifies this
      ensures trace == old(trace) + Ran(Schedule(p), p.env.ok)
      ensures memory == Remembered(old(memory), p)
      ensures result == Result(old(memory), p, now)
    {
      SplitRun(p, trace);
      var rev, docs, failed := Prepare(p);
      var files: seq<StatusStore.FileOutcome> := [];
      if failed.None? {
        var desired := Snapshot(p, docs);
        memory := memory.(desired := memory.desired[p.st.name := desired]);
        if !p.cfg.dryRun {
          failed, files := Apply(p, docs);
        }
      }
      result := Report(p, rev, failed, files, now);
    }
  }

  lemma GroupComesFirst(p: Pass, g: nat)
    requires g < |p.st.groups|
    ensures DeployFrom(p, g)
              == RotateFrom(p, g, 0) + ([Deploy(g, DeployedDocs(p, g), EffectivePolicy(p, g))] + DeployFrom(p, g + 1))
  {
    Regroup(RotateFrom(p, g, 0), [Deploy(g, DeployedDocs(p, g), EffectivePolicy(p, g))], DeployFrom(p, g + 1));
  }

  lemma NothingToRender(p: Pass, rest: seq<Call>)
    ensures RenderFrom(p, |p.st.groups|, 0) + rest == rest
  {
  }

  lemma Regroup<T>(a: seq<T>, b: seq<T>, c: seq<T>)
    ensures (a + b) + c == a + (b + c)
  {
  }

  predicate DeployedSoFar(files: seq<StatusStore.FileOutcome>, g: nat, n: nat) {
    |files| == n && forall i :: 0 <= i < n ==> files[i] == if i < g then StatusStore.Deployed else StatusStore.Pending
  }

  /** The call that ends the pass is the one that fails in the first failing group. */
  lemma FailedHere(p: Pass, g: nat)
    requires g < |p.st.groups| && OkBefore(p, g) && !GroupOk(p, g)
    ensures FirstFailed(DeployFrom(p, 0), p.env.ok) == FirstFailed(GroupCalls(p, g), p.env.ok)
  {
    FailsFrom(p, 0, g);
  }

  lemma {:induction false} FailsFrom(p: Pass, from: nat, g: nat)
    requires from <= g < |p.st.groups| && OkBefore(p, g) && !GroupOk(p, g)
    ensures FirstFailed(DeployFrom(p, from), p.env.ok) == FirstFailed(GroupCalls(p, g), p.env.ok)
    decreases g - from
  {
    RunAppend(GroupCalls(p, from), DeployFrom(p, from + 1), p.env.ok);
    if from < g {
      assert GroupOk(p, from);
      FailsFrom(p, from + 1, g);
    }
  }

  /** A panic leaves the groups before it deployed and the others as they were. */
  lemma LeftAreOutcomes(p: Pass, files: seq<StatusStore.FileOutcome>, g: nat)
    requires g < |p.st.groups| && OkBefore(p, g) && !GroupOk(p, g) && DeployedSoFar(files, g, |p.st.groups|)
    requires Panics(p, FirstFailed(DeployFrom(p, 0), p.env.ok))
    ensures files == Outcomes(p)
  {
    forall i | 0 <= i <= g ensures OkBefore(p, i) {
    }
  }

  /** The groups before the failing one are deployed, those after it are skipped. */
  lemma MarkedAreOutcomes(p: Pass, files: seq<StatusStore.FileOutcome>, g: nat)
    requires g < |p.st.groups| && OkBefore(p, g) && !GroupOk(p, g) && DeployedSoFar(files, g, |p.st.groups|)
    requires !Panics(p, FirstFailed(DeployFrom(p, 0), p.env.ok))
    ensures Outcomes(p) == files[..g] + [StatusStore.Failed(p.env.error(FirstFailed(GroupCalls(p, g), p.env.ok).value))]
                           + seq(|files| - g - 1, _ => StatusStore.Skipped)
  {
    forall i | 0 <= i <= g ensures OkBefore(p, i) {
    }
  }

  /** Group i failed and the later ones were not reached. */
  method MarkFailedFrom(files: seq<StatusStore.FileOutcome>, i: nat, because: nat) returns (marked: seq<StatusStore.FileOutcome>)
    requires i < |files|
    ensures marked == files[..i] + [StatusStore.Failed(because)] + seq(|files| - i - 1, _ => StatusStore.Skipped)
  {
    marked := files[i := StatusStore.Failed(because)];
    for j := i + 1 to |files|
      invariant |marked| == |files| && marked[..i] == files[..i] && marked[i] == StatusStore.Failed(because)
      invariant forall k :: i < k < j ==> marked[k] == StatusStore.Skipped
    {
      marked := marked[j := StatusStore.Skipped];
    }
  }

  /** What a pass adds to the calls made before, part by part, and where it fails. */
  lemma SplitRun(p: Pass, base: seq<Call>)
    ensures var a, b, c, ok := Preparation(p), Unsealing(p), DeployFrom(p, 0), p.env.ok;
            && base + Ran(Schedule(p), ok) == (if FirstFailed(a, ok).Some? || p.cfg.dryRun then base + Ran(a, ok)
                                               else if FirstFailed(b, ok).Some? then base + Ran(a, ok) + Ran(b, ok)
                                               else base + Ran(a, ok) + Ran(b, ok) + Ran(c, ok))
            && FirstFailed(Schedule(p), ok) == (if FirstFailed(a, ok).Some? || p.cfg.dryRun then FirstFailed(a, ok)
                                                else if FirstFailed(b, ok).Some? then FirstFailed(b, ok)
                                                else FirstFailed(c, ok))
  {
    if p.cfg.dryRun {
      assert Preparation(p) + [] == Preparation(p);
    } else {
      SplitThree(base, Preparation(p), Unsealing(p), DeployFrom(p, 0), p.env.ok);
    }
  }

  lemma SplitThree(base: seq<Call>, a: seq<Call>, b: seq<Call>, c: seq<Call>, ok: Call -> bool)
    ensures base + Ran(a + (b + c), ok) == if FirstFailed(a, ok).Some? then base + Ran(a, ok)
                                           else if FirstFailed(b, ok).Some? then base + Ran(a, ok) + Ran(b, ok)
                                           else base + Ran(a, ok) + Ran(b, ok) + Ran(c, ok)
    ensures FirstFailed(a + (b + c), ok) == if FirstFailed(a, ok).Some? then FirstFailed(a, ok)
                                            else if FirstFailed(b, ok).Some? then FirstFailed(b, ok)
                                            else FirstFailed(c, ok)
  {
    RunAppend(a, b + c, ok);
    RunAppend(b, c, ok);
    Regroup(base, Ran(a, ok), Ran(b, ok));
    Regroup(base, Ran(a, ok), Ran(b, ok) + Ran(c, ok));
    Regroup(base + Ran(a, ok), Ran(b, ok), Ran(c, ok));
  }

  ghost predicate RenderedSoFar(p: Pass, docs: seq<seq<Document>>) {
    |docs| <= |p.st.groups| && forall g :: 0 <= g < |docs| ==> docs[g] == RenderedDocs(p, g)
  }

  lemma RenderedMore(p: Pass, docs: seq<seq<Document>>)
    requires RenderedSoFar(p, docs) && |docs| < |p.st.groups|
    ensures RenderedSoFar(p, docs + [RenderedDocs(p, |docs|)])
  {
  }

  ghost predicate AllRendered(p: Pass, docs: seq<seq<Document>>) {
    |docs| == |p.st.groups| && RenderedSoFar(p, docs)
  }
}
