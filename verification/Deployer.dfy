/** One deploy of a merge group: live counts carried forward, file paths rebased, temp files
    written, docker called, temp files removed (internal/adapter/stackdeploy/deploy.go). */
module Deploying {
  import opened Words
  import opened Options
  import opened Paths
  import Compose
  import CarryForward
  import InPlace = CarryForwardInPlace
  import FileObjects
  import Intent

  /** One document: its service maps, its configs and secrets, and its directory. */
  datatype GroupDoc = GroupDoc(node: InPlace.NodeDoc, objects: FileObjects.FileDoc, dir: Path)

  /** What a temp compose file says, and the directory it is in: the first file's is docker's anchor
      for relative paths. */
  datatype Content = Content(dir: Path, services: Compose.Doc, configs: Option<FileObjects.Section>,
                             secrets: Option<FileObjects.Section>)

  /** Anything but "always" deploys with "changed". */
  datatype Resolve = Always | Changed

  datatype DockerCall = DockerCall(stack: nat, files: seq<Content>, resolve: Resolve)

  /** How the outside answers: the live services (None on an error), whether document i can be
      written, whether a temp file can be removed, and whether docker succeeds. */
  datatype Env = Env(live: Option<seq<CarryForward.Live>>, canWrite: nat -> bool, canRemove: nat -> bool, docker: bool)

  /** The first n documents can be written. */
  ghost predicate CanWrite(env: Env, n: nat) {
    forall i :: 0 <= i < n ==> env.canWrite(i)
  }

  lemma CanWriteMore(env: Env, n: nat)
    requires CanWrite(env, n) && env.canWrite(n)
    ensures CanWrite(env, n + 1)
  {
  }

  function Nodes(docs: seq<GroupDoc>): seq<InPlace.NodeDoc> {
    seq(|docs|, i requires 0 <= i < |docs| => docs[i].node)
  }

  ghost predicate Separate(docs: seq<GroupDoc>) {
    forall i, j :: 0 <= i < j < |docs| ==> docs[i].objects != docs[j].objects
  }

  ghost function Objects(docs: seq<GroupDoc>): set<object> {
    set i | 0 <= i < |docs| :: docs[i].objects
  }

  datatype Sections = Sections(configs: Option<FileObjects.Section>, secrets: Option<FileObjects.Section>)

  function SectionsOf(o: FileObjects.FileDoc): Sections
    reads o
  {
    Sections(o.configs, o.secrets)
  }

  ghost function AllSections(docs: seq<GroupDoc>): seq<Sections>
    reads Objects(docs)
  {
    seq(|docs|, i requires 0 <= i < |docs| reads Objects(docs) => SectionsOf(docs[i].objects))
  }

  /** What rebaseFileObjects leaves. */
  function Rebase(s: Sections, dir: Path, base: Path): Sections {
    if dir == EMPTY || base == EMPTY then s
    else Sections(FileObjects.RebaseOption(s.configs, dir, base), FileObjects.RebaseOption(s.secrets, dir, base))
  }

  function Filled(dir: Path, services: Compose.Doc, rebased: Sections): Content {
    Content(dir, services, rebased.configs, rebased.secrets)
  }

  /** The content docker must find in the i-th file: the services as carried forward, and the
      paths rebased from the document's directory to that of the first. */
  function ContentAt(docs: seq<GroupDoc>, services: seq<Compose.Doc>, sections: seq<Sections>, i: nat): Content
    requires i < |docs| == |services| == |sections|
  {
    Filled(docs[i].dir, services[i], Rebase(sections[i], docs[i].dir, docs[0].dir))
  }

  function Contents(docs: seq<GroupDoc>, services: seq<Compose.Doc>, sections: seq<Sections>): seq<Content>
    requires |docs| == |services| == |sections|
  {
    seq(|docs|, i requires 0 <= i < |docs| => ContentAt(docs, services, sections, i))
  }

  class Deployer {
    /** The temp compose files on disk. */
    var disk: map<nat, Content>
    /** What docker was called with. */
    var calls: seq<DockerCall>
    var nextName: nat

    ghost predicate Valid()
      reads this
    {
      forall f :: f in disk ==> f < nextName
    }

    constructor ()
      ensures Valid() && disk == map[] && calls == []
    {
      disk, calls, nextName := map[], [], 0;
    }

    /** writeTempCompose: the name is one no file has. */
    method WriteTemp(c: Content) returns (name: nat)
      requires Valid()
      modifies this`disk, this`nextName
      ensures Valid() && name !in old(disk) && disk == old(disk)[name := c]
    {
      name := nextName;
      disk := disk[name := c];
      nextName := nextName + 1;
    }

    /** The cleanup that writeTempComposeGroup returns. */
    method Cleanup(files: seq<nat>, env: Env)
      requires Valid()
      modifies this`disk
      ensures Valid() && disk == old(disk) - (set f | f in files && env.canRemove(f))
    {
      for i := 0 to |files|
        invariant Valid() && disk == old(disk) - (set f | f in files[..i] && env.canRemove(f))
      {
        ghost var before := set f | f in files[..i] && env.canRemove(f);
        assert files[..i + 1] == files[..i] + [files[i]];
        if env.canRemove(files[i]) {
          assert (set f | f in files[..i + 1] && env.canRemove(f)) == before + {files[i]};
          disk := disk - {files[i]};
        } else {
          assert (set f | f in files[..i + 1] && env.canRemove(f)) == before;
        }
      }
      assert files[..|files|] == files;
    }

    /** One document: rebased, then written unless the write fails. */
    method WriteDoc(d: GroupDoc, base: Path, can: bool, store: array<Compose.Service>) returns (name: Option<nat>)
      requires Valid() && InPlace.InStore(d.node, store.Length)
      modifies this`disk, this`nextName, d.objects
      ensures Valid() && (name.Some? <==> can)
      ensures name.None? ==> disk == old(disk)
      ensures name.Some? ==> name.value !in old(disk) && disk == old(disk)[name.value :=
                Filled(d.dir, InPlace.ViewDoc(d.node, store[..]), Rebase(old(SectionsOf(d.objects)), d.dir, base))]
    {
      var rewritten := d.objects.RebaseFileObjects(d.dir, base);
      if !can {
        return None;
      }
      assert SectionsOf(d.objects) == Rebase(old(SectionsOf(d.objects)), d.dir, base);
      var temp := WriteTemp(Filled(d.dir, InPlace.ViewDoc(d.node, store[..]), SectionsOf(d.objects)));
      name := Some(temp);
    }

    /** writeTempComposeGroup: on a failure the files written so far are returned for cleanup. */
    method WriteGroup(docs: seq<GroupDoc>, store: array<Compose.Service>, ghost sections: seq<Sections>, env: Env)
        returns (files: seq<nat>, ok: bool)
      requires Valid() && Separate(docs) && sections == AllSections(docs)
      requires InPlace.AllInStore(Nodes(docs), store.Length)
      modifies this`disk, this`nextName, Objects(docs)
      ensures Valid() && Grown(old(disk), disk, files)
      ensures ok <==> CanWrite(env, |docs|)
      ensures ok ==> |files| == |docs| && Filed(disk, files, docs, InPlace.View(Nodes(docs), store[..]), sections)
    {
      files := [];
      ghost var services := InPlace.View(Nodes(docs), store[..]);
      while |files| < |docs|
        invariant |files| <= |docs| && Valid() && Grown(old(disk), disk, files)
        invariant Filed(disk, files, docs, services, sections) && CanWrite(env, |files|)
        invariant forall j :: |files| <= j < |docs| ==> SectionsOf(docs[j].objects) == sections[j]
      {
        var i := |files|;
        ghost var before := disk;
        assert Nodes(docs)[i] == docs[i].node && services[i] == InPlace.ViewDoc(docs[i].node, store[..]);
        var name := WriteDoc(docs[i], docs[0].dir, env.canWrite(i), store);
        if name.None? {
          return files, false;
        }
        FiledMore(before, files, docs, services, sections, name.value);
        GrownMore(old(disk), before, files, name.value, disk[name.value]);
        CanWriteMore(env, i);
        files := files + [name.value];
        assert |files| == i + 1;
      }
      ok := true;
    }

    /** The temp files, the docker call and the cleanup. */
    method DeployFiles(stack: nat, docs: seq<GroupDoc>, store: array<Compose.Service>, resolve: Resolve, env: Env,
                       ghost sections: seq<Sections>) returns (ok: bool)
      requires Valid() && Separate(docs) && sections == AllSections(docs)
      requires InPlace.AllInStore(Nodes(docs), store.Length)
      modifies this, Objects(docs)
      ensures Valid() && OnlyUnremovable(old(disk), disk, env)
      ensures var called, services := CanWrite(env, |docs|), InPlace.View(Nodes(docs), store[..]);
              && ok == (called && env.docker)
              && calls == old(calls) + if called then [DockerCall(stack, Contents(docs, services, sections), resolve)] else []
    {
      var files, written := WriteGroup(docs, store, sections, env);
      ok := written && env.docker;
      if written {
        assert Gather(disk, files) == Contents(docs, InPlace.View(Nodes(docs), store[..]), sections);
        calls := calls + [DockerCall(stack, Gather(disk, files), resolve)];
      }
      CleanupRemoves(old(disk), disk, files, env);
      Cleanup(files, env);
    }

    /** Deployer.Deploy. */
    method Deploy(stack: nat, docs: seq<GroupDoc>, store: array<Compose.Service>, resolve: Resolve, env: Env,
                  ghost home: seq<(nat, Compose.Name)>) returns (ok: bool)
      requires Valid() && Separate(docs)
      requires InPlace.AllInStore(Nodes(docs), store.Length) && |home| == store.Length && InPlace.Distinct(Nodes(docs), home)
      modifies this, store, Objects(docs)
      ensures Valid() && OnlyUnremovable(old(disk), disk, env)
      ensures ok == (env.docker && Called(docs, old(store[..]), env))
      ensures Adds(old(calls), calls, stack, docs, old(store[..]), old(AllSections(docs)), resolve, env)
    {
      if |docs| == 0 || env.live.None? {
        return false;
      }
      ghost var sections := AllSections(docs);
      ghost var view := InPlace.View(Nodes(docs), store[..]);
      var changed, fine := InPlace.ApplyCarryForwardGroup(Nodes(docs), store, env.live.value, home);
      if !fine {
        return false;
      }
      assert AllSections(docs) == sections;
      ok := DeployFiles(stack, docs, store, resolve, env, sections);
    }
  }

  /** docker is called once or not at all. */
  ghost predicate Adds(before: seq<DockerCall>, after: seq<DockerCall>, stack: nat, docs: seq<GroupDoc>,
                       store: seq<Compose.Service>, sections: seq<Sections>, resolve: Resolve, env: Env)
    requires InPlace.AllInStore(Nodes(docs), |store|) && |sections| == |docs|
  {
    after == before + if Called(docs, store, env) then [CallFor(stack, docs, store, sections, resolve, env)] else []
  }

  function Gather(disk: map<nat, Content>, files: seq<nat>): seq<Content>
    requires forall f :: f in files ==> f in disk
  {
    seq(|files|, i requires 0 <= i < |files| => disk[files[i]])
  }

  lemma CleanupRemoves(before: map<nat, Content>, disk: map<nat, Content>, files: seq<nat>, env: Env)
    requires Grown(before, disk, files)
    ensures OnlyUnremovable(before, disk - (set f | f in files && env.canRemove(f)), env)
  {
  }

  /** Exactly the files of the group are new. */
  ghost predicate Grown(before: map<nat, Content>, after: map<nat, Content>, files: seq<nat>) {
    && (forall f :: f in before ==> f in after && after[f] == before[f])
    && (forall f :: f in after <==> f in before || f in files)
    && (forall f :: f in files ==> f !in before)
  }

  /** The files hold the contents of the first documents. */
  ghost predicate Filed(disk: map<nat, Content>, files: seq<nat>, docs: seq<GroupDoc>, services: seq<Compose.Doc>,
                        sections: seq<Sections>)
    requires |files| <= |docs| == |services| == |sections|
  {
    forall j :: 0 <= j < |files| ==> files[j] in disk && disk[files[j]] == ContentAt(docs, services, sections, j)
  }

  lemma FiledMore(disk: map<nat, Content>, files: seq<nat>, docs: seq<GroupDoc>, services: seq<Compose.Doc>,
                  sections: seq<Sections>, name: nat)
    requires |files| < |docs| == |services| == |sections| && Filed(disk, files, docs, services, sections) && name !in disk
    ensures Filed(disk[name := ContentAt(docs, services, sections, |files|)], files + [name], docs, services, sections)
  {
  }

  lemma GrownMore(before: map<nat, Content>, disk: map<nat, Content>, files: seq<nat>, name: nat, c: Content)
    requires Grown(before, disk, files) && name !in disk
    ensures Grown(before, disk[name := c], files + [name])
  {
  }

  /** No temp file is left behind, except where the removal itself failed. */
  ghost predicate OnlyUnremovable(before: map<nat, Content>, after: map<nat, Content>, env: Env) {
    && (forall f :: f in before ==> f in after && after[f] == before[f])
    && (forall f :: f in after && f !in before ==> !env.canRemove(f))
  }

  /** docker is called when there are documents, the live state was read, some document has
      services, and every document could be written. */
  ghost predicate Called(docs: seq<GroupDoc>, store: seq<Compose.Service>, env: Env)
    requires InPlace.AllInStore(Nodes(docs), |store|)
  {
    && docs != [] && env.live.Some?
    && Compose.HasServices(InPlace.View(Nodes(docs), store))
    && CanWrite(env, |docs|)
  }

  /** With which documents: rewritten over the live state read once, rebased, in `-c` order. */
  ghost function CallFor(stack: nat, docs: seq<GroupDoc>, store: seq<Compose.Service>, sections: seq<Sections>,
                         resolve: Resolve, env: Env): DockerCall
    requires InPlace.AllInStore(Nodes(docs), |store|) && Called(docs, store, env) && |sections| == |docs|
  {
    var services := CarryForward.Rewrite(InPlace.View(Nodes(docs), store), CarryForward.LiveByName(env.live.value));
    DockerCall(stack, Contents(docs, services, sections), resolve)
  }

  /** docker gets one file per document, in the document's directory, with its services as carried
      forward, so that merging the files gives each carried service its live count in its bounds. */
  ghost predicate Carries(call: DockerCall, stack: nat, docs: seq<GroupDoc>, view: seq<Compose.Doc>,
                          live: Option<seq<CarryForward.Live>>, resolve: Resolve)
  {
    && call.stack == stack && call.resolve == resolve && |call.files| == |docs|
    && (forall i :: 0 <= i < |docs| ==> call.files[i].dir == docs[i].dir)
    && live.Some? && Intent.IsRewritten(view, live.value, ServicesOf(call.files))
    && Intent.MergesToCarried(view, live.value, ServicesOf(call.files))
  }

  lemma CallCarries(stack: nat, docs: seq<GroupDoc>, store: seq<Compose.Service>, sections: seq<Sections>,
                    resolve: Resolve, env: Env)
    requires InPlace.AllInStore(Nodes(docs), |store|) && Called(docs, store, env) && |sections| == |docs|
    ensures Carries(CallFor(stack, docs, store, sections, resolve, env), stack, docs, InPlace.View(Nodes(docs), store),
                    env.live, resolve)
  {
    var view, live := InPlace.View(Nodes(docs), store), env.live.value;
    Intent.RewriteMeans(view, live);
    Intent.RewriteMerges(view, live);
    var call := CallFor(stack, docs, store, sections, resolve, env);
    assert ServicesOf(call.files) == CarryForward.Rewrite(view, CarryForward.LiveByName(live));
  }

  function ServicesOf(files: seq<Content>): seq<Compose.Doc> {
    seq(|files|, i requires 0 <= i < |files| => files[i].services)
  }

  /** What Deploy adds to the calls: one exactly if there are documents, the live state could be
      read, some document has services, and all files could be written; and that one carries. */
  lemma AddedCallCarries(before: seq<DockerCall>, after: seq<DockerCall>, stack: nat, docs: seq<GroupDoc>,
                         store: seq<Compose.Service>, sections: seq<Sections>, resolve: Resolve, env: Env)
    requires InPlace.AllInStore(Nodes(docs), |store|) && |sections| == |docs|
    requires Adds(before, after, stack, docs, store, sections, resolve, env)
    ensures before <= after && |after| <= |before| + 1
    ensures |after| > |before| <==> && |docs| > 0 && env.live.Some? && (forall i :: 0 <= i < |docs| ==> env.canWrite(i))
                                    && exists i :: 0 <= i < |docs| && docs[i].node.services.Some?
    ensures |after| > |before| ==> Carries(after[|before|], stack, docs, InPlace.View(Nodes(docs), store), env.live, resolve)
  {
    var view := InPlace.View(Nodes(docs), store);
    assert forall i :: 0 <= i < |docs| ==> (view[i].services.Some? <==> docs[i].node.services.Some?);
    if Called(docs, store, env) { CallCarries(stack, docs, store, sections, resolve, env); }
  }

  /** What is written of the configs and secrets of a document: only the `file:` of an object changes,
      only if it is a non-empty relative path, and only with directories to rebase between. */
  lemma WrittenObjects(docs: seq<GroupDoc>, services: seq<Compose.Doc>, sections: seq<Sections>, i: nat, secret: bool, k: nat)
    requires i < |docs| == |services| == |sections|
    ensures var s, t := Part(sections[i], secret), ContentPart(ContentAt(docs, services, sections, i), secret);
            && (s.Some? <==> t.Some?)
            && (s.Some? ==> t.value.Keys == s.value.Keys)
            && (s.Some? && k in s.value ==>
                  var o := s.value[k];
                  if o.Obj? && o.o.file.File? && o.o.file.path != EMPTY && !o.o.file.path.abs && docs[i].dir != EMPTY && docs[0].dir != EMPTY
                  then t.value[k].Obj? && t.value[k].o.file.File? && t.value[k].o.(file := o.o.file) == o.o
                  else t.value[k] == o)
  {
    var s := Part(sections[i], secret);
    if s.Some? && k in s.value { FileObjects.RebaseMeans(s.value, docs[i].dir, docs[0].dir, k); }
  }

  // ----- the files docker opens -----

  lemma DirIsNotEmpty(w: Path, dir: Path)
    requires w != EMPTY
    ensures FileObjects.DirIn(w, dir) != EMPTY
  {
    ElementsOfJoin(w, dir);
  }

  function Part(s: Sections, secret: bool): Option<FileObjects.Section> {
    if secret then s.secrets else s.configs
  }

  function ContentPart(c: Content, secret: bool): Option<FileObjects.Section> {
    if secret then c.secrets else c.configs
  }

  /** In the document docker is given, each config or secret with a relative `file:` opens, from
      the directory of the first file, the file that rotation hashed and discovery had decrypted:
      the one the document names from its own directory in the worktree.  The base never strays
      while directories and file are inside the worktree (RebaseShape.InsideNeverStrays). */
  lemma DockerOpensTheHashedFile(docs: seq<GroupDoc>, services: seq<Compose.Doc>, sections: seq<Sections>, i: nat,
                                 secret: bool, k: nat, w: Path, baseDir: Path, dir: Path)
    requires i < |docs| == |services| == |sections|
    requires docs[0].dir == FileObjects.DirIn(w, baseDir) && docs[i].dir == FileObjects.DirIn(w, dir)
    requires FileObjects.Located(w, baseDir, dir)
    requires var s := Part(sections[i], secret);
             && s.Some? && k in FileObjects.FileKeys(s.value)
             && s.value[k].o.file.path != EMPTY && !s.value[k].o.file.path.abs
             && !Strays(Elements(docs[0].dir), Elements(Join(docs[i].dir, s.value[k].o.file.path)))
    ensures var written := ContentPart(ContentAt(docs, services, sections, i), secret);
            && written.Some? && k in FileObjects.FileKeys(written.value)
            && FileObjects.Opened(ContentAt(docs, services, sections, 0).dir, written.value[k].o.file.path)
                 == Join(w, FileObjects.HashedPath(dir, Part(sections[i], secret).value[k]))
  {
    DirIsNotEmpty(w, baseDir);
    DirIsNotEmpty(w, dir);
    FileObjects.RebasePreservesResolution(w, baseDir, dir, Part(sections[i], secret).value[k].o.file.path);
  }
}
