/** The exact form of a rebased path: independent of the worktree, and when it is the cleaned
    path itself (internal/adapter/stackdeploy/deploy.go). */
module RebaseShape {
  import opened Options
  import opened Paths
  import opened FileObjects

  // ----- walking a cleaned list -----

  function LeadingUps(s: seq<Comp>): (u: nat)
    ensures u <= |s| && s[..u] == Ups(u) && (u < |s| ==> !s[u].DotDot?)
  {
    if s == [] || !s[0].DotDot? then 0
    else
      var u := 1 + LeadingUps(s[1..]);
      assert s[..u] == [DotDot] + s[1..][..u - 1] && Ups(u) == [DotDot] + Ups(u - 1);
      u
  }

  /** A cleaned relative list climbs, then only descends. */
  lemma CleanSplits(s: seq<Comp>)
    requires IsClean(false, s)
    ensures s == Ups(LeadingUps(s)) + s[LeadingUps(s)..] && AllNamed(s[LeadingUps(s)..])
  {
    var u := LeadingUps(s);
    forall i | u <= i < |s|
      ensures s[i].Named?
    {
      assert !s[u].DotDot?;
    }
    assert s == s[..u] + s[u..];
  }

  lemma {:induction false} WalkNamed(rooted: bool, s: seq<Comp>, n: seq<Comp>)
    requires AllNamed(n)
    ensures Walk(rooted, s, n) == s + n
  {
    if n != [] {
      var front := n[..|n| - 1];
      assert AllNamed(front) by { assert forall i :: 0 <= i < |front| ==> front[i] == n[i]; }
      WalkNamed(rooted, s, front);
      assert n == front + [n[|n| - 1]] && n[|n| - 1].Named?;
    }
  }

  /** What is left of `s` after u steps up. */
  function Climbed(rooted: bool, s: seq<Comp>, u: nat): seq<Comp> {
    if u <= |s| then s[..|s| - u] else if rooted then [] else Ups(u - |s|)
  }

  lemma OneMoreUp(u: nat)
    ensures Ups(u + 1) == Ups(u) + [DotDot]
  {
  }

  lemma ClimbOne(rooted: bool, s: seq<Comp>, u: nat)
    requires AllNamed(s)
    ensures Push(rooted, Climbed(rooted, s, u), DotDot) == Climbed(rooted, s, u + 1)
  {
    var before := Climbed(rooted, s, u);
    if u < |s| {
      assert before[|before| - 1] == s[|s| - u - 1] && before[..|before| - 1] == s[..|s| - u - 1];
    } else if !rooted {
      OneMoreUp(u - |s|);
      assert before != [] ==> before[|before| - 1] == DotDot;
    }
  }

  lemma {:induction false} WalkClimb(rooted: bool, s: seq<Comp>, u: nat)
    requires AllNamed(s)
    ensures Walk(rooted, s, Ups(u)) == Climbed(rooted, s, u)
  {
    if u > 0 {
      OneMoreUp(u - 1);
      assert Ups(u)[..u - 1] == Ups(u - 1) && Ups(u)[u - 1] == DotDot;
      WalkClimb(rooted, s, u - 1);
      ClimbOne(rooted, s, u - 1);
    }
  }

  lemma WalkClimbThenDescend(rooted: bool, s: seq<Comp>, c: seq<Comp>)
    requires AllNamed(s)
    ensures var e := Walk(false, [], c);
            && AllNamed(e[LeadingUps(e)..])
            && Walk(rooted, s, c) == Climbed(rooted, s, LeadingUps(e)) + e[LeadingUps(e)..]
  {
    var e := Walk(false, [], c);
    var u := LeadingUps(e);
    WalkIsClean(false, [], c);
    CleanSplits(e);
    WalkCleaned(rooted, s, c);
    WalkAppend(rooted, s, Ups(u), e[u..]);
    WalkClimb(rooted, s, u);
    WalkNamed(rooted, Climbed(rooted, s, u), e[u..]);
  }

  // ----- the way between two cleaned places -----

  /** Rel on element lists. */
  function Way(abs: bool, from: seq<Comp>, to: seq<Comp>): Path {
    var kept := if to == [] && !abs then [Dot] else to;
    var k := CommonPrefix(from, kept);
    if from == to then DOT else Path(false, Ups(|from| - k) + kept[k..])
  }

  lemma RelIsWay(base: Path, targ: Path)
    requires base.abs == targ.abs && !Strays(Elements(base), Elements(targ))
    ensures Rel(base, targ) == Some(Way(base.abs, Elements(base), Elements(targ)))
  {
    RelSucceeds(base, targ);
    WalkIsClean(base.abs, [], base.comps);
    WalkIsClean(targ.abs, [], targ.comps);
    assert CommonPrefix(Elements(base), [Dot]) == 0;
  }

  lemma NamedNeverStrays(b: seq<Comp>, t: seq<Comp>)
    requires AllNamed(b)
    ensures !Strays(b, t)
  {
  }

  lemma {:induction false} CommonPrefixUnder(w: seq<Comp>, a: seq<Comp>, b: seq<Comp>)
    ensures CommonPrefix(w + a, w + b) == |w| + CommonPrefix(a, b)
  {
    if w == [] {
      assert w + a == a && w + b == b;
    } else {
      assert (w + a)[1..] == w[1..] + a && (w + b)[1..] == w[1..] + b;
      CommonPrefixUnder(w[1..], a, b);
    }
  }

  // ----- inside the worktree -----

  lemma ElementsInWorktree(w: Path, p: Path)
    requires w != EMPTY && !p.abs && AllNamed(Elements(p))
    ensures Join(w, p).abs == w.abs && Elements(Join(w, p)) == Elements(w) + Elements(p)
  {
    ElementsOfJoin(w, p);
    WalkCleaned(w.abs, Elements(w), p.comps);
    WalkNamed(w.abs, Elements(w), Elements(p));
  }

  lemma RestUnder(w: seq<Comp>, to: seq<Comp>, k: nat)
    requires k <= |to|
    ensures (w + to)[|w| + k..] == to[k..]
  {
  }

  lemma SameUnder(w: seq<Comp>, from: seq<Comp>, to: seq<Comp>)
    ensures w + from == w + to <==> from == to
  {
    RestUnder(w, from, 0);
    RestUnder(w, to, 0);
    assert from[0..] == from && to[0..] == to;
  }

  /** Below the same directory, the way stays the same. */
  lemma WayUnder(abs: bool, w: seq<Comp>, from: seq<Comp>, to: seq<Comp>)
    requires to != []
    ensures Way(abs, w + from, w + to) == Way(false, from, to)
  {
    CommonPrefixUnder(w, from, to);
    RestUnder(w, to, CommonPrefix(from, to));
    SameUnder(w, from, to);
  }

  lemma InsideNeverStrays(w: seq<Comp>, from: seq<Comp>, to: seq<Comp>)
    requires AllNamed(from)
    ensures !Strays(w + from, w + to)
  {
    CommonPrefixUnder(w, from, to);
    var k := CommonPrefix(from, to);
    assert k < |from| ==> (w + from)[|w| + k] == from[k];
  }

  /** `dir` and `dir/f` stay inside the worktree, and the file is not the worktree itself. */
  predicate Inside(baseDir: Path, dir: Path, f: Path) {
    && baseDir != EMPTY && dir != EMPTY && f != EMPTY && !baseDir.abs && !dir.abs && !f.abs
    && AllNamed(Elements(baseDir)) && AllNamed(Elements(Join(dir, f))) && Elements(Join(dir, f)) != []
  }

  /** Inside the worktree there always is a rebased path, and it is the way between the two
      repo-relative places: it does not depend on where the repositories are cloned. */
  lemma RebasedIndependentOfClone(w: Path, baseDir: Path, dir: Path, f: Path)
    requires w != EMPTY && Inside(baseDir, dir, f)
    ensures Rebased(File(f), DirIn(w, dir), DirIn(w, baseDir))
              == Some(Way(false, Elements(baseDir), Elements(Join(dir, f))))
  {
    var from, to := Elements(baseDir), Elements(Join(dir, f));
    ElementsInWorktree(w, baseDir);
    JoinAssociative(w, dir, f);
    ElementsOfJoin(dir, f);
    ElementsInWorktree(w, Join(dir, f));
    InsideNeverStrays(Elements(w), from, to);
    RelIsWay(DirIn(w, baseDir), Join(DirIn(w, dir), f));
    WayUnder(w.abs, Elements(w), from, to);
  }

  // ----- the base document -----

  /** From a base q steps above its start and then down `n`: going u steps up and then down `r`,
      the path climbs out of the base and does not come straight back, nor past a root, nor to
      the start of a relative base. */
  predicate ClimbsAndParts(abs: bool, q: nat, n: seq<Comp>, u: nat, r: seq<Comp>) {
    || u == 0
    || (u <= |n| && (if r == [] then abs || q > 0 || u < |n| else r[0] != n[|n| - u]))
    || (u > |n| && !abs)
  }

  lemma UpsFirst(u: nat, r: seq<Comp>)
    requires r != [] ==> !r[0].DotDot?
    ensures LeadingUps(Ups(u) + r) == u
  {
    var s := Ups(u) + r;
    var v := LeadingUps(s);
    assert forall i :: 0 <= i < u ==> s[i].DotDot?;
    assert forall i :: 0 <= i < v ==> s[..v][i] == s[i] == Ups(v)[i];
    assert r != [] ==> s[u] == r[0];
  }

  lemma WayDescending(abs: bool, b: seq<Comp>, r: seq<Comp>)
    ensures Way(abs, b, b + r) == FromElements(false, r)
  {
    if r == [] {
      assert b + r == b;
    } else {
      CommonPrefixUnder(b, [], r);
      assert b + [] == b && (b + r)[|b|..] == r && Ups(0) + r == r;
      assert |b + r| > |b|;
    }
  }

  lemma WayToDot(b: seq<Comp>, u: nat)
    requires AllNamed(b) && b != []
    ensures Way(false, b, []) != Path(false, Ups(u))
  {
    assert CommonPrefix(b, [Dot]) == 0;
    var kept := Ups(|b|) + [Dot];
    assert kept[|b|] == Dot;
    assert Ups(u) != kept by {
      if |b| < u { assert Ups(u)[|b|] == DotDot; }
    }
  }

  lemma WayPartingInside(abs: bool, m: seq<Comp>, a: seq<Comp>, r: seq<Comp>)
    requires a != [] && (if r == [] then abs || m != [] else r[0] != a[0])
    ensures Way(abs, m + a, m + r) == Path(false, Ups(|a|) + r)
  {
    var from, to := m + a, m + r;
    CommonPrefixUnder(m, a, r);
    assert CommonPrefix(from, to) == |m|;
    assert to[|m|..] == r;
    assert from != to by {
      if r != [] { assert from[|m|] == a[0] && to[|m|] == r[0]; }
    }
  }

  lemma NamedRest(r: seq<Comp>, k: nat)
    requires AllNamed(r) && k <= |r|
    ensures AllNamed(r[k..])
  {
  }

  lemma FewerUps(j: nat, s: seq<Comp>, u: nat, r: seq<Comp>)
    requires AllNamed(s) && AllNamed(r) && j < u
    ensures Ups(j) + s != Ups(u) + r
  {
    UpsFirst(j, s);
    UpsFirst(u, r);
  }

  lemma WayComingBack(abs: bool, m: seq<Comp>, a: seq<Comp>, r: seq<Comp>)
    requires AllNamed(r) && a != [] && r != [] && r[0] == a[0]
    ensures Way(abs, m + a, m + r) != Path(false, Ups(|a|) + r)
  {
    var k := CommonPrefix(a, r);
    CommonPrefixUnder(m, a, r);
    RestUnder(m, r, k);
    NamedRest(r, k);
    FewerUps(|a| - k, r[k..], |a|, r);
    assert (Ups(|a|) + r)[0] == DotDot;
  }

  lemma WayAtTheRoot(b: seq<Comp>, u: nat, r: seq<Comp>)
    requires u > |b| && AllNamed(b) && AllNamed(r)
    ensures Way(true, b, r) != Path(false, Ups(u) + r)
  {
    var k := CommonPrefix(b, r);
    NamedRest(r, k);
    FewerUps(|b| - k, r[k..], u, r);
    assert (Ups(u) + r)[0] == DotDot;
  }

  lemma WayOutside(b: seq<Comp>, u: nat, r: seq<Comp>)
    requires u > |b| && AllNamed(b) && AllNamed(r)
    ensures Way(false, b, Ups(u - |b|) + r) == Path(false, Ups(u) + r)
  {
    var t := Ups(u - |b|) + r;
    assert t[0] == DotDot && (b != [] ==> b[0].Named?);
    assert CommonPrefix(b, t) == 0;
    assert Ups(|b|) + Ups(u - |b|) == Ups(u);
    assert Ups(|b|) + t[0..] == Ups(u) + r;
  }

  lemma WayFromInside(abs: bool, m: seq<Comp>, a: seq<Comp>, r: seq<Comp>)
    requires AllNamed(m + a) && AllNamed(r) && a != []
    ensures Way(abs, m + a, m + r) == Path(false, Ups(|a|) + r) <==> if r == [] then abs || m != [] else r[0] != a[0]
  {
    if r == [] && !abs && m == [] {
      assert m + r == [] && Ups(|a|) + r == Ups(|a|);
      WayToDot(m + a, |a|);
    } else if r != [] && r[0] == a[0] {
      WayComingBack(abs, m, a, r);
    } else {
      WayPartingInside(abs, m, a, r);
    }
  }

  lemma WayFromInsideBase(abs: bool, b: seq<Comp>, u: nat, r: seq<Comp>)
    requires AllNamed(b) && AllNamed(r) && 0 < u <= |b|
    ensures Way(abs, b, Climbed(abs, b, u) + r) == Path(false, Ups(u) + r) <==> ClimbsAndParts(abs, 0, b, u, r)
  {
    var m, a := b[..|b| - u], b[|b| - u..];
    assert m + a == b && a[0] == b[|b| - u] && |a| == u;
    WayFromInside(abs, m, a, r);
  }

  lemma UpsAreNotNothing(u: nat, r: seq<Comp>)
    requires u > 0
    ensures FromElements(false, Ups(u) + r) == Path(false, Ups(u) + r)
  {
    assert (Ups(u) + r)[0] == DotDot;
  }

  lemma WayFromBase(abs: bool, b: seq<Comp>, u: nat, r: seq<Comp>)
    requires AllNamed(b) && AllNamed(r)
    ensures Way(abs, b, Climbed(abs, b, u) + r) == FromElements(false, Ups(u) + r) <==> ClimbsAndParts(abs, 0, b, u, r)
  {
    if u == 0 {
      assert b[..|b|] == b && Ups(0) + r == r;
      WayDescending(abs, b, r);
    } else {
      UpsAreNotNothing(u, r);
      if u <= |b| {
        WayFromInsideBase(abs, b, u, r);
      } else if abs {
        assert [] + r == r;
        WayAtTheRoot(b, u, r);
      } else {
        WayOutside(b, u, r);
      }
    }
  }

  /** Below some directory no target is the start, and the way is as if below a root. */
  lemma WayFromAbove(w: seq<Comp>, from: seq<Comp>, to: seq<Comp>)
    requires w != []
    ensures Way(false, w + from, w + to) == Way(true, from, to)
  {
    var k := CommonPrefix(from, to);
    CommonPrefixUnder(w, from, to);
    assert w + to != [] && |w + from| - (|w| + k) == |from| - k;
    RestUnder(w, to, k);
    SameUnder(w, from, to);
  }

  lemma WayBelowUps(n: seq<Comp>, u: nat, r: seq<Comp>)
    requires AllNamed(n) && AllNamed(r)
    ensures Way(true, n, Climbed(false, n, u) + r) == FromElements(false, Ups(u) + r) <==> ClimbsAndParts(false, 1, n, u, r)
  {
    if u <= |n| {
      WayFromBase(true, n, u, r);
    } else {
      WayOutside(n, u, r);
      assert (Ups(u - |n|) + r)[0] == DotDot;
      assert (Ups(u) + r)[0] == DotDot;
    }
  }

  lemma WalkCleanOnUps(q: nat, t: seq<Comp>)
    requires IsClean(false, t)
    ensures Walk(false, Ups(q), t) == Ups(q) + t
  {
    UpsThenClean(q, t);
    WalkRebuilds(false, Ups(q) + t, q);
    assert (Ups(q) + t)[..q] == Ups(q) && (Ups(q) + t)[q..] == t;
  }

  lemma WalkAfterNames(s: seq<Comp>, n: seq<Comp>, c: seq<Comp>)
    requires AllNamed(n)
    ensures Walk(false, s + n, c) == Walk(false, s, n + c)
  {
    WalkNamed(false, s, n);
    WalkAppend(false, s, n, c);
  }

  /** Walking on from above the start. */
  lemma WalkBelowUps(q: nat, n: seq<Comp>, c: seq<Comp>)
    requires AllNamed(n)
    ensures Walk(false, Ups(q) + n, c) == Ups(q) + Walk(false, n, c)
  {
    WalkAfterNames(Ups(q), n, c);
    WalkAfterNames([], n, c);
    assert [] + n == n;
    WalkCleaned(false, Ups(q), n + c);
    WalkIsClean(false, [], n + c);
    WalkCleanOnUps(q, Walk(false, [], n + c));
  }

  lemma NeverStraysBelowUps(q: nat, n: seq<Comp>, t: seq<Comp>)
    requires AllNamed(n)
    ensures !Strays(Ups(q) + n, Ups(q) + t)
  {
    InsideNeverStrays(Ups(q), n, t);
  }

  /** The steps up with which a cleaned base begins, and the names below. */
  function Top(base: Path): nat {
    LeadingUps(Elements(base))
  }

  function Below(base: Path): seq<Comp> {
    Elements(base)[Top(base)..]
  }

  lemma BaseSplits(base: Path)
    ensures Elements(base) == Ups(Top(base)) + Below(base) && AllNamed(Below(base)) && (base.abs ==> Top(base) == 0)
  {
    WalkIsClean(base.abs, [], base.comps);
    CleanSplits(Elements(base));
    assert forall i :: 0 <= i < Top(base) ==> Elements(base)[i] == Ups(Top(base))[i];
  }

  /** The rebased path of the base document. */
  lemma RebasedFromBase(base: Path, f: Path)
    requires base != EMPTY && f != EMPTY && !f.abs
    ensures Rebased(File(f), base, base)
              == Some(Way(base.abs || Top(base) > 0, Below(base), Walk(base.abs, Below(base), f.comps)))
  {
    var q, n := Top(base), Below(base);
    var t := Walk(base.abs, n, f.comps);
    BaseSplits(base);
    ElementsOfJoin(base, f);
    if q == 0 {
      assert Ups(q) + n == n;
      NamedNeverStrays(n, Elements(Join(base, f)));
    } else {
      WalkBelowUps(q, n, f.comps);
      NeverStraysBelowUps(q, n, t);
      WayFromAbove(Ups(q), n, t);
    }
    RelIsWay(base, Join(base, f));
  }

  /** Rebasing the base document cleans its paths, except those that climb out of its directory
      and come straight back in, or climb past the root, or to the start of a relative base. */
  lemma BaseDocumentIsCleaned(base: Path, f: Path)
    requires base != EMPTY && f != EMPTY && !f.abs
    ensures var e := Elements(f); var u := LeadingUps(e);
            Rebased(File(f), base, base) == Some(Clean(f)) <==> ClimbsAndParts(base.abs, Top(base), Below(base), u, e[u..])
  {
    var e := Elements(f);
    WalkIsClean(false, [], f.comps);
    CleanSplits(e);
    BaseSplits(base);
    WalkClimbThenDescend(base.abs, Below(base), f.comps);
    RebasedFromBase(base, f);
    if Top(base) == 0 {
      WayFromBase(base.abs, Below(base), LeadingUps(e), e[LeadingUps(e)..]);
    } else {
      WayBelowUps(Below(base), LeadingUps(e), e[LeadingUps(e)..]);
    }
  }

  lemma CleanListIsClean(c: seq<Comp>)
    requires IsClean(false, c) && c != []
    ensures Clean(Path(false, c)) == Path(false, c)
  {
    WalkRebuilds(false, c, 0);
    assert c[..0] == [] && c[0..] == c;
  }

  lemma UpsThenClean(j: nat, t: seq<Comp>)
    requires IsClean(false, t)
    ensures IsClean(false, Ups(j) + t)
  {
  }

  lemma RestIsClean(t: seq<Comp>, k: nat)
    requires IsClean(false, t) && k <= |t|
    ensures IsClean(false, t[k..])
  {
  }

  /** A way is in cleaned form, unless it leads up to the start of a relative base. */
  lemma WayIsClean(abs: bool, from: seq<Comp>, to: seq<Comp>)
    requires IsClean(false, to) && (abs || to != [] || from == [])
    ensures Clean(Way(abs, from, to)) == Way(abs, from, to)
  {
    var k := CommonPrefix(from, to);
    if from == to {
      WalkOne(false, [], Dot);
    } else {
      assert k == |from| && k == |to| ==> from == to;
      RestIsClean(to, k);
      UpsThenClean(|from| - k, to[k..]);
      CleanListIsClean(Ups(|from| - k) + to[k..]);
    }
  }

  /** The identity of the code comment: the base document's path is left as it is exactly if it is
      clean and parts from the base, or if it is the one that climbs to the start of a relative
      base and ends in a dot. */
  lemma BaseDocumentIsUntouchedIff(base: Path, f: Path)
    requires base != EMPTY && f != EMPTY && !f.abs
    ensures var e, n := Elements(f), Below(base); var u := LeadingUps(e);
            Rebased(File(f), base, base) == Some(f) <==>
              || (Clean(f) == f && ClimbsAndParts(base.abs, Top(base), n, u, e[u..]))
              || (!base.abs && Top(base) == 0 && n != [] && f == Path(false, Ups(|n|) + [Dot]))
  {
    var n := Below(base);
    var t := Walk(base.abs, n, f.comps);
    BaseSplits(base);
    BaseDocumentIsCleaned(base, f);
    RebasedFromBase(base, f);
    NamedIsClean(base.abs, n);
    WalkIsClean(base.abs, n, f.comps);
    if base.abs || Top(base) > 0 || t != [] || n == [] {
      WayIsClean(base.abs || Top(base) > 0, n, t);
    }
    if !base.abs && Top(base) == 0 && n != [] {
      WayToStart(n);
      DotFromBelow(n);
    }
  }

  lemma NamedIsClean(rooted: bool, n: seq<Comp>)
    requires AllNamed(n)
    ensures IsClean(rooted, n)
  {
  }

  lemma ElementsOfUpsDot(k: nat)
    ensures Walk(false, [], Ups(k) + [Dot]) == Ups(k)
  {
    WalkAppend(false, [], Ups(k), [Dot]);
    WalkClimb(false, [], k);
    WalkOne(false, Ups(k), Dot);
  }

  /** Up to the start, with a dot. */
  lemma WayToStart(n: seq<Comp>)
    requires AllNamed(n) && n != []
    ensures Way(false, n, []) == Path(false, Ups(|n|) + [Dot])
  {
    assert CommonPrefix(n, [Dot]) == 0 && [Dot][0..] == [Dot];
  }

  lemma DotFromBelow(n: seq<Comp>)
    requires AllNamed(n) && n != []
    ensures Walk(false, n, Ups(|n|) + [Dot]) == []
    ensures Clean(Path(false, Ups(|n|) + [Dot])) != Path(false, Ups(|n|) + [Dot])
  {
    NamedIsClean(false, n);
    UpToDot(n);
    ElementsOfUpsDot(|n|);
    assert |Ups(|n|)| < |Ups(|n|) + [Dot]|;
  }

  /** For example, ../a/x in the base directory a becomes x. */
  lemma ComingBackIsShortened(a: Comp, x: Comp)
    requires a.Named? && x.Named?
    ensures Rebased(File(Path(false, [DotDot, a, x])), Path(false, [a]), Path(false, [a])) == Some(Path(false, [x]))
    ensures Clean(Path(false, [DotDot, a, x])) == Path(false, [DotDot, a, x])
  {
    var base, f := Path(false, [a]), Path(false, [DotDot, a, x]);
    WalkNamed(false, [], base.comps);
    UpAndBack(a, x);
    assert Top(base) == 0 && Below(base) == [a];
    RebasedFromBase(base, f);
    WayDescending(false, [a], [x]);
  }

  lemma UpAndBack(a: Comp, x: Comp)
    requires a.Named? && x.Named?
    ensures Walk(false, [a], [DotDot, a, x]) == [a] + [x]
    ensures Walk(false, [], [DotDot, a, x]) == [DotDot, a, x]
  {
    assert [DotDot, a, x] == [DotDot] + [a, x];
    forall s | s == [] || s == [a]
      ensures Walk(false, s, [DotDot, a, x]) == Push(false, s, DotDot) + [a, x]
    {
      WalkAppend(false, s, [DotDot], [a, x]);
      WalkOne(false, s, DotDot);
      WalkNamed(false, Push(false, s, DotDot), [a, x]);
    }
  }

  // ----- absolute paths -----

  /** An absolute file: is not rebased.  docker opens it as it stands, while rotation and
      discovery look for it below the document's directory; the two are the same file exactly
      when its own ".."s use up that directory. */
  lemma AbsoluteFileResolution(w: Path, dir: Path, f: Path)
    requires w != EMPTY && dir != EMPTY && !dir.abs && f.abs
    ensures Rebased(File(f), DirIn(w, dir), DirIn(w, dir)).None?
    ensures Opened(DirIn(w, dir), f) == Join(w, Join(dir, f)) <==>
              w.abs && |Elements(DirIn(w, dir))| <= LeadingUps(Walk(false, [], f.comps))
  {
    var d := DirIn(w, dir);
    ElementsOfJoin(w, dir);
    JoinAssociative(w, dir, f);
    ElementsOfJoin(d, f);
    if w.abs {
      var s := Elements(d);
      WalkIsClean(true, [], d.comps);
      var e := Walk(false, [], f.comps);
      var u := LeadingUps(e);
      WalkClimbThenDescend(true, s, f.comps);
      WalkClimbThenDescend(true, [], f.comps);
      assert Climbed(true, [], u) == [];
      assert Climbed(true, [], u) + e[u..] == e[u..];
      if u < |s| { assert |Climbed(true, s, u) + e[u..]| > |e[u..]|; }
      else { assert Climbed(true, s, u) == []; }
    }
  }
}
