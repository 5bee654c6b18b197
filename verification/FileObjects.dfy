/** File-backed configs and secrets of a compose document: rebasing before a deploy
    (internal/adapter/stackdeploy/deploy.go), rotation and secret discovery
    (internal/core/compose). */
module FileObjects {
  import opened Options
  import opened Paths

  /** The `file:` key of an object; an empty string is the path EMPTY. */
  datatype FileField = NoFile | NotString | File(path: Path)

  /** <stack>-<object>-<hash>. */
  datatype RotatedName = RotatedName(stack: nat, object: nat, hash: nat)

  datatype Object = Object(file: FileField, name: Option<RotatedName>, rest: map<nat, int>)

  datatype Entry = Obj(o: Object) | NotMap

  /** The objects of a section, by name. */
  type Section = map<nat, Entry>

  // ----- rebasing -----

  /** The branches of the loop body of rebaseFileObjects: the new path, if there is one. */
  function Rebased(f: FileField, docDir: Path, baseDir: Path): Option<Path> {
    if !f.File? || f.path == EMPTY || f.path.abs then None
    else Rel(baseDir, Join(docDir, f.path))
  }

  predicate Moves(e: Entry, docDir: Path, baseDir: Path) {
    e.Obj? && Rebased(e.o.file, docDir, baseDir).Some?
  }

  function RebaseEntry(e: Entry, docDir: Path, baseDir: Path): Entry {
    if Moves(e, docDir, baseDir) then Obj(e.o.(file := File(Rebased(e.o.file, docDir, baseDir).value))) else e
  }

  function RebaseAll(s: Section, docDir: Path, baseDir: Path): Section {
    map k | k in s :: RebaseEntry(s[k], docDir, baseDir)
  }

  function RebasedKeys(s: Section, docDir: Path, baseDir: Path): set<nat> {
    set k | k in s && Moves(s[k], docDir, baseDir)
  }

  /** The body of the inner loop of rebaseFileObjects. */
  method RebaseObject(e: Entry, docDir: Path, baseDir: Path) returns (r: Entry, moved: bool)
    ensures r == RebaseEntry(e, docDir, baseDir) && moved == Moves(e, docDir, baseDir)
  {
    if e.NotMap? || !e.o.file.File? {
      return e, false;
    }
    var f := e.o.file.path;
    if f == EMPTY || f.abs {
      return e, false;
    }
    var rel := Rel(baseDir, Join(docDir, f));
    if rel.None? {
      return e, false;
    }
    return Obj(e.o.(file := File(rel.value))), true;
  }

  /** The objects outside `todo` have been treated. */
  ghost predicate Treated(s: Section, r: Section, todo: set<nat>, moved: set<nat>, docDir: Path, baseDir: Path) {
    && r.Keys == s.Keys
    && (forall k :: k in s ==> r[k] == if k in todo then s[k] else RebaseEntry(s[k], docDir, baseDir))
    && (forall k :: k in moved <==> k in s && k !in todo && Moves(s[k], docDir, baseDir))
  }

  lemma TreatedStep(s: Section, r: Section, todo: set<nat>, moved: set<nat>, docDir: Path, baseDir: Path, k: nat)
    requires Treated(s, r, todo, moved, docDir, baseDir) && k in todo && k in s
    ensures k !in moved
    ensures Treated(s, r[k := RebaseEntry(s[k], docDir, baseDir)], todo - {k},
                    if Moves(s[k], docDir, baseDir) then moved + {k} else moved, docDir, baseDir)
  {
  }

  method RebaseSection(s: Section, docDir: Path, baseDir: Path) returns (r: Section, rewritten: nat)
    ensures r == RebaseAll(s, docDir, baseDir) && rewritten == |RebasedKeys(s, docDir, baseDir)|
  {
    r, rewritten := s, 0;
    ghost var done: set<nat> := {};
    var todo := s.Keys;
    while todo != {}
      invariant todo <= s.Keys && rewritten == |done|
      invariant Treated(s, r, todo, done, docDir, baseDir)
    {
      var k :| k in todo;
      TreatedStep(s, r, todo, done, docDir, baseDir, k);
      var e, moved := RebaseObject(s[k], docDir, baseDir);
      r := r[k := e];
      if moved {
        rewritten, done := rewritten + 1, done + {k};
      }
      todo := todo - {k};
    }
    assert done == RebasedKeys(s, docDir, baseDir);
  }

  function Count(s: Option<Section>, docDir: Path, baseDir: Path): nat {
    if s.None? then 0 else |RebasedKeys(s.value, docDir, baseDir)|
  }

  function RebaseOption(s: Option<Section>, docDir: Path, baseDir: Path): Option<Section> {
    if s.None? then None else Some(RebaseAll(s.value, docDir, baseDir))
  }

  /** The configs and secrets of one compose document; None for a missing section. */
  class FileDoc {
    var configs: Option<Section>
    var secrets: Option<Section>

    constructor (configs: Option<Section>, secrets: Option<Section>)
      ensures this.configs == configs && this.secrets == secrets
    {
      this.configs := configs;
      this.secrets := secrets;
    }

    /** rebaseFileObjects. */
    method RebaseFileObjects(docDir: Path, baseDir: Path) returns (rewritten: nat)
      modifies this
      ensures if docDir == EMPTY || baseDir == EMPTY
              then rewritten == 0 && configs == old(configs) && secrets == old(secrets)
              else && configs == RebaseOption(old(configs), docDir, baseDir)
                   && secrets == RebaseOption(old(secrets), docDir, baseDir)
                   && rewritten == Count(old(configs), docDir, baseDir) + Count(old(secrets), docDir, baseDir)
    {
      if docDir == EMPTY || baseDir == EMPTY {
        return 0;
      }
      rewritten := 0;
      if configs.Some? {
        var s, n := RebaseSection(configs.value, docDir, baseDir);
        configs, rewritten := Some(s), n;
      }
      if secrets.Some? {
        var s, n := RebaseSection(secrets.value, docDir, baseDir);
        secrets, rewritten := Some(s), rewritten + n;
      }
    }

    /** ApplyRotation.  `read` is the repository's file resolver and `hash` the shortened content
        hash.  An error leaves the objects it did not reach as they were. */
    method ApplyRotation(stack: nat, composeDir: Path, read: Path -> Option<int>, hash: int -> nat)
        returns (changed: nat, ok: bool)
      modifies this
      ensures ok ==> && configs == RotateOption(old(configs), stack, composeDir, read, hash)
                     && secrets == RotateOption(old(secrets), stack, composeDir, read, hash)
                     && Readable(old(configs), composeDir, read) && Readable(old(secrets), composeDir, read)
                     && changed == FileCount(old(configs)) + FileCount(old(secrets))
      ensures !ok ==> !Readable(old(configs), composeDir, read) || !Readable(old(secrets), composeDir, read)
    {
      changed, ok := 0, true;
      if configs.Some? {
        var s, n, fine := RotateSection(configs.value, stack, composeDir, read, hash);
        configs, changed, ok := Some(s), n, fine;
      }
      if ok && secrets.Some? {
        var s, n, fine := RotateSection(secrets.value, stack, composeDir, read, hash);
        secrets, changed, ok := Some(s), changed + n, fine;
      }
    }

    /** DiscoverSecretFiles: the repo-relative paths to decrypt; None for an invalid secret. */
    method DiscoverSecretFiles(composeDir: Path) returns (out: Option<seq<Path>>)
      ensures secrets.None? ==> out == Some([])
      ensures secrets.Some? ==> (out.None? <==> !WellFormed(secrets.value))
      ensures secrets.Some? && out.Some? ==> Discovered(out.value, secrets.value, composeDir)
    {
      if secrets.None? {
        return Some([]);
      }
      var s := secrets.value;
      var ok := CheckSection(s);
      if !ok {
        return None;
      }
      var paths: seq<Path> := [];
      var todo := FileKeys(s);
      while todo != {}
        invariant todo <= FileKeys(s)
        invariant forall p :: p in paths <==> exists k :: k in FileKeys(s) - todo && p == HashedPath(composeDir, s[k])
      {
        var k :| k in todo;
        ghost var done := FileKeys(s) - todo;
        var next := HashedPath(composeDir, s[k]);
        assert forall p :: p in paths + [next] <==> p in paths || p == next;
        assert FileKeys(s) - (todo - {k}) == done + {k};
        paths := paths + [next];
        todo := todo - {k};
      }
      assert FileKeys(s) - {} == FileKeys(s);
      return Some(paths);
    }
  }

  // ----- rotation -----

  /** fileObjects accepts a section when every entry is a map and every `file:` a string. */
  predicate WellFormed(s: Section) {
    forall k :: k in s ==> s[k].Obj? && !s[k].o.file.NotString?
  }

  function FileKeys(s: Section): set<nat> {
    set k | k in s && s[k].Obj? && s[k].o.file.File?
  }

  /** The repo-relative path rotation hashes, and discovery decrypts, for an object. */
  function HashedPath(composeDir: Path, e: Entry): Path
    requires e.Obj? && e.o.file.File?
  {
    Join(composeDir, e.o.file.path)
  }

  predicate Readable(s: Option<Section>, composeDir: Path, read: Path -> Option<int>) {
    s.Some? ==> WellFormed(s.value) && forall k :: k in FileKeys(s.value) ==> read(HashedPath(composeDir, s.value[k])).Some?
  }

  function RotateEntry(k: nat, e: Entry, stack: nat, composeDir: Path, read: Path -> Option<int>, hash: int -> nat): Entry {
    if e.Obj? && e.o.file.File? && read(HashedPath(composeDir, e)).Some?
    then Obj(e.o.(name := Some(RotatedName(stack, k, hash(read(HashedPath(composeDir, e)).value))))) else e
  }

  function RotateOption(s: Option<Section>, stack: nat, composeDir: Path, read: Path -> Option<int>,
                        hash: int -> nat): Option<Section>
  {
    if s.None? then None else Some(map k | k in s.value :: RotateEntry(k, s.value[k], stack, composeDir, read, hash))
  }

  function FileCount(s: Option<Section>): nat {
    if s.None? then 0 else |FileKeys(s.value)|
  }

  /** fileObjects' error check. */
  method CheckSection(s: Section) returns (ok: bool)
    ensures ok <==> WellFormed(s)
  {
    var todo := s.Keys;
    while todo != {}
      invariant todo <= s.Keys
      invariant forall k :: k in s.Keys - todo ==> s[k].Obj? && !s[k].o.file.NotString?
    {
      var k :| k in todo;
      if s[k].NotMap? || s[k].o.file.NotString? {
        return false;
      }
      todo := todo - {k};
    }
    ok := true;
  }

  /** The objects outside `todo` have been renamed. */
  ghost predicate Renamed(s: Section, r: Section, todo: set<nat>, stack: nat, composeDir: Path,
                          read: Path -> Option<int>, hash: int -> nat)
  {
    && r.Keys == s.Keys
    && forall k :: k in s ==> r[k] == if k in todo then s[k] else RotateEntry(k, s[k], stack, composeDir, read, hash)
  }

  lemma RenamedStep(s: Section, r: Section, todo: set<nat>, stack: nat, composeDir: Path,
                    read: Path -> Option<int>, hash: int -> nat, k: nat)
    requires Renamed(s, r, todo, stack, composeDir, read, hash) && k in s
    ensures Renamed(s, r[k := RotateEntry(k, s[k], stack, composeDir, read, hash)], todo - {k}, stack, composeDir, read, hash)
  {
  }

  method RotateSection(s: Section, stack: nat, composeDir: Path, read: Path -> Option<int>, hash: int -> nat)
      returns (r: Section, changed: nat, ok: bool)
    ensures ok <==> Readable(Some(s), composeDir, read)
    ensures ok ==> Some(r) == RotateOption(Some(s), stack, composeDir, read, hash) && changed == |FileKeys(s)|
  {
    r, changed := s, 0;
    ok := CheckSection(s);
    if !ok {
      return;
    }
    var todo := FileKeys(s);
    while todo != {}
      invariant todo <= FileKeys(s)
      invariant Renamed(s, r, todo, stack, composeDir, read, hash)
      invariant forall k :: k in FileKeys(s) - todo ==> read(HashedPath(composeDir, s[k])).Some?
      invariant changed + |todo| == |FileKeys(s)|
    {
      var k :| k in todo;
      var content := read(HashedPath(composeDir, s[k]));
      if content.None? {
        ok := false;
        return;
      }
      RenamedStep(s, r, todo, stack, composeDir, read, hash, k);
      r := r[k := Obj(s[k].o.(name := Some(RotatedName(stack, k, hash(content.value)))))];
      changed := changed + 1;
      todo := todo - {k};
    }
    RenamedAll(s, r, stack, composeDir, read, hash);
  }

  lemma RenamedAll(s: Section, r: Section, stack: nat, composeDir: Path, read: Path -> Option<int>, hash: int -> nat)
    requires Renamed(s, r, {}, stack, composeDir, read, hash)
    ensures Some(r) == RotateOption(Some(s), stack, composeDir, read, hash)
  {
    var t := RotateOption(Some(s), stack, composeDir, read, hash).value;
    assert forall k :: k in s ==> r[k] == t[k];
    assert r == t;
  }

  /** `found` is what discovery returns for the secrets: the contract of DiscoverSecretFiles. */
  ghost predicate Discovered(found: seq<Path>, s: Section, composeDir: Path) {
    forall p :: p in found <==> exists k :: k in FileKeys(s) && p == HashedPath(composeDir, s[k])
  }

  /** Rotation renames objects and leaves their files alone. */
  lemma RotationKeepsFiles(s: Section, stack: nat, composeDir: Path, read: Path -> Option<int>, hash: int -> nat)
    ensures var r := RotateOption(Some(s), stack, composeDir, read, hash).value;
            && FileKeys(r) == FileKeys(s)
            && forall k :: k in FileKeys(s) ==> r[k].o.file == s[k].o.file
  {
    var r := RotateOption(Some(s), stack, composeDir, read, hash).value;
    assert forall k :: k in s ==> r[k] == RotateEntry(k, s[k], stack, composeDir, read, hash);
  }

  // ----- the three operations on one object, outright -----

  /** The file of an object, as a path from the given directory. */
  predicate Names(e: Entry, dir: Path, file: Path) {
    e.Obj? && e.o.file.File? && file == Join(dir, e.o.file.path)
  }

  /** Rotation can be applied exactly if every entry is a map, every `file:` a string, and every file
      can be read; each object with a file then gets <stack>-<object>-<hash of its content> as its
      name and keeps the rest, and nothing else changes. */
  lemma RotationMeans(s: Section, stack: nat, composeDir: Path, read: Path -> Option<int>, hash: int -> nat)
    ensures Readable(Some(s), composeDir, read) <==>
              && (forall k :: k in s ==> s[k].Obj? && s[k].o.file != NotString)
              && (forall k, file :: k in s && Names(s[k], composeDir, file) ==> read(file).Some?)
    ensures var r := RotateOption(Some(s), stack, composeDir, read, hash);
            && r.Some? && r.value.Keys == s.Keys
            && (Readable(Some(s), composeDir, read) ==> forall k, file :: k in s && Names(s[k], composeDir, file) ==>
                  r.value[k] == Obj(s[k].o.(name := Some(RotatedName(stack, k, hash(read(file).value))))))
            && (forall k :: k in s && (s[k].NotMap? || s[k].o.file == NoFile) ==> r.value[k] == s[k])
    ensures FileCount(Some(s)) == |set k | k in s && s[k].Obj? && s[k].o.file.File?|
  {
    forall k | k in FileKeys(s) ensures Names(s[k], composeDir, HashedPath(composeDir, s[k])) {
    }
    assert FileKeys(s) == set k | k in s && s[k].Obj? && s[k].o.file.File?;
  }

  /** Discovery finds the files of the secrets, from the document's directory, and no others. */
  lemma DiscoveryMeans(found: seq<Path>, s: Section, composeDir: Path, file: Path)
    requires Discovered(found, s, composeDir)
    ensures file in found <==> exists k :: k in s && Names(s[k], composeDir, file)
  {
    if file in found {
      var k :| k in FileKeys(s) && file == HashedPath(composeDir, s[k]);
      assert Names(s[k], composeDir, file);
    }
    if k :| k in s && Names(s[k], composeDir, file) { assert k in FileKeys(s) && file == HashedPath(composeDir, s[k]); }
  }

  /** Rebasing replaces the `file:` of exactly the objects with a non-empty relative one for which
      there is a relative path from the base directory, and keeps everything else. */
  lemma RebaseMeans(s: Section, docDir: Path, baseDir: Path, k: nat)
    requires k in s
    ensures var r := RebaseAll(s, docDir, baseDir);
            && r.Keys == s.Keys
            && if && s[k].Obj? && s[k].o.file.File? && s[k].o.file.path != EMPTY && !s[k].o.file.path.abs
                  && Rel(baseDir, Join(docDir, s[k].o.file.path)).Some?
               then && r[k] == Obj(s[k].o.(file := File(Rel(baseDir, Join(docDir, s[k].o.file.path)).value)))
                    && k in RebasedKeys(s, docDir, baseDir)
               else r[k] == s[k] && k !in RebasedKeys(s, docDir, baseDir)
  {
  }

  // ----- which file docker opens -----

  /** docker resolves every relative `file:` of a group against the base document's directory. */
  function Opened(baseDir: Path, f: Path): Path {
    if f.abs then Clean(f) else Join(baseDir, f)
  }

  /** A document at the repo-relative directory `dir` in the worktree `w`. */
  function DirIn(w: Path, dir: Path): Path {
    Join(w, dir)
  }

  /** The worktree and the repo-relative directories of two documents. */
  predicate Located(w: Path, baseDir: Path, dir: Path) {
    w != EMPTY && baseDir != EMPTY && dir != EMPTY && !baseDir.abs && !dir.abs
  }

  /** The rebased path of a relative file leads docker, from the base document's directory, to
      the very file that rotation hashed and discovery had decrypted for the object.  There is
      one unless the base directory goes up where the two part. */
  lemma RebasePreservesResolution(w: Path, baseDir: Path, dir: Path, f: Path)
    requires Located(w, baseDir, dir) && f != EMPTY && !f.abs
    ensures var rebased := Rebased(File(f), DirIn(w, dir), DirIn(w, baseDir));
            && (rebased.Some? <==> !Strays(Elements(DirIn(w, baseDir)), Elements(Join(DirIn(w, dir), f))))
            && (rebased.Some? ==>
                  && !rebased.value.abs
                  && Opened(DirIn(w, baseDir), rebased.value) == Join(w, Join(dir, f))
                  && Opened(DirIn(w, baseDir), rebased.value) == Join(DirIn(w, dir), f))
  {
    var base, target := DirIn(w, baseDir), Join(DirIn(w, dir), f);
    ElementsOfJoin(w, baseDir);
    ElementsOfJoin(w, dir);
    ElementsOfJoin(DirIn(w, dir), f);
    RelSucceeds(base, target);
    if Rel(base, target).Some? { RelLeadsToTarget(base, target); }
    CleanOfJoin(DirIn(w, dir), f);
    JoinAssociative(w, dir, f);
  }

  lemma CleanOfJoin(a: Path, b: Path)
    requires a != EMPTY
    ensures Clean(Join(a, b)) == Join(a, b)
  {
    ElementsOfJoin(a, b);
    ElementsOfClean(Join(a, b));
  }
}
