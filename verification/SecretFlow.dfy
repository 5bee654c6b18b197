/** From discovery to docker: the secrets docker opens were decrypted before the deploy
    (internal/app/gitopsync/loop.go, internal/adapter/stackdeploy/deploy.go). */
module SecretFlow {
  import opened Options
  import opened Paths
  import Compose
  import FileObjects
  import Pipeline
  import PipelineResults
  import PassOrder
  import Deploying

  lemma DecryptIsCalled(p: Pipeline.Pass)
    requires Pipeline.DeployReached(p) && p.cfg.decrypter && Pipeline.SecretFiles(p) != []
    ensures Pipeline.Decrypt(Pipeline.SecretFiles(p)) in Pipeline.Ran(Pipeline.Schedule(p), p.env.ok)
  {
    var a, b, c, ok := Pipeline.Preparation(p), Pipeline.Unsealing(p), Pipeline.DeployFrom(p, 0), p.env.ok;
    Pipeline.RunAppend(a, b + c, ok);
    Pipeline.RunAppend(b, c, ok);
    PipelineResults.RanIsAll(b, ok);
    assert Pipeline.Decrypt(Pipeline.SecretFiles(p)) in b;
  }

  /** The call decrypts the file, and every deploy comes later. */
  predicate DecryptsInTime(calls: seq<Pipeline.Call>, i: nat, f: Path) {
    && i < |calls| && calls[i].Decrypt? && f in calls[i].files
    && forall j :: 0 <= j < |calls| && calls[j].Deploy? ==> i < j
  }

  lemma DecryptComesFirst(calls: seq<Pipeline.Call>, high: nat, files: seq<Path>, f: Path) returns (i: nat)
    requires PipelineResults.InOrder(calls, 0, high) && Pipeline.Decrypt(files) in calls && f in files
    ensures DecryptsInTime(calls, i, f)
  {
    i :| 0 <= i < |calls| && calls[i] == Pipeline.Decrypt(files);
    forall j | 0 <= j < |calls| && calls[j].Deploy? ensures i < j {
      assert PipelineResults.Rank(calls[j]) > PipelineResults.Rank(calls[i]);
    }
  }

  /** Once a pass reaches its deploys, everything discovered in any document of any group has been
      decrypted, in one call that comes before every deploy. */
  lemma DiscoveredIsDecrypted(p: Pipeline.Pass, g: nat, d: nat, f: Path) returns (i: nat)
    requires Pipeline.DeployReached(p) && p.st.discovery && p.cfg.decrypter
    requires g < |p.st.groups| && d < p.st.groups[g].files && f in p.env.secrets(g, d)
    ensures DecryptsInTime(Pipeline.Ran(Pipeline.Schedule(p), p.env.ok), i, f)
  {
    PassOrder.FoundFromEarlier(p, 0, 0, g, d, f);
    DecryptIsCalled(p);
    PipelineResults.EffectsInOrder(p);
    i := DecryptComesFirst(Pipeline.Ran(Pipeline.Schedule(p), p.env.ok), 5, Pipeline.SecretFiles(p), f);
  }

  /** So the file docker opens for a relative file-backed secret of a document is, in the worktree,
      one that was decrypted earlier in the pass, if discovery saw the document's secrets. */
  lemma OpenedWasDecrypted(p: Pipeline.Pass, g: nat, d: nat, k: nat,
                           docs: seq<Deploying.GroupDoc>, services: seq<Compose.Doc>, sections: seq<Deploying.Sections>,
                           w: Path, baseDir: Path, dir: Path) returns (i: nat, f: Path)
    requires Pipeline.DeployReached(p) && p.st.discovery && p.cfg.decrypter
    requires g < |p.st.groups| && d < p.st.groups[g].files == |docs| == |services| == |sections|
    requires docs[0].dir == FileObjects.DirIn(w, baseDir) && docs[d].dir == FileObjects.DirIn(w, dir)
    requires FileObjects.Located(w, baseDir, dir)
    requires sections[d].secrets.Some? && FileObjects.Discovered(p.env.secrets(g, d), sections[d].secrets.value, dir)
    requires var s := sections[d].secrets.value;
             && k in FileObjects.FileKeys(s) && s[k].o.file.path != EMPTY && !s[k].o.file.path.abs
             && !Strays(Elements(docs[0].dir), Elements(Join(docs[d].dir, s[k].o.file.path)))
    ensures DecryptsInTime(Pipeline.Ran(Pipeline.Schedule(p), p.env.ok), i, f)
    ensures var written := Deploying.ContentAt(docs, services, sections, d).secrets;
            && written.Some? && k in FileObjects.FileKeys(written.value)
            && FileObjects.Opened(Deploying.ContentAt(docs, services, sections, 0).dir, written.value[k].o.file.path) == Join(w, f)
  {
    f := FileObjects.HashedPath(dir, sections[d].secrets.value[k]);
    Deploying.DockerOpensTheHashedFile(docs, services, sections, d, true, k, w, baseDir, dir);
    i := DiscoveredIsDecrypted(p, g, d, f);
  }
}
