/** Lexical Unix paths: filepath.Clean, Join and Rel, on paths already split at the slashes. */
module Paths {
  import opened Options

  /** One element between slashes.  Empty stands for the nothing between two slashes. */
  datatype Comp = Empty | Dot | DotDot | Named(id: nat)

  /** `abs` is a leading slash.  The empty string has no element at all; "." has one. */
  datatype Path = Path(abs: bool, comps: seq<Comp>)

  const EMPTY := Path(false, [])
  const DOT := Path(false, [Dot])

  // ----- Clean -----

  /** The step of Clean: `out` is what has been written so far. */
  function Push(rooted: bool, out: seq<Comp>, c: Comp): seq<Comp> {
    match c
    case Empty => out
    case Dot => out
    case Named(_) => out + [c]
    case DotDot =>
      if out != [] && out[|out| - 1].Named? then out[..|out| - 1]
      else if rooted then out
      else out + [DotDot]
  }

  function Walk(rooted: bool, out: seq<Comp>, comps: seq<Comp>): seq<Comp> {
    if comps == [] then out else Push(rooted, Walk(rooted, out, comps[..|comps| - 1]), comps[|comps| - 1])
  }

  /** The elements of the cleaned path; none for "." and "/". */
  function Elements(p: Path): seq<Comp> {
    Walk(p.abs, [], p.comps)
  }

  function FromElements(abs: bool, s: seq<Comp>): Path {
    if s == [] && !abs then DOT else Path(abs, s)
  }

  function Clean(p: Path): Path {
    FromElements(p.abs, Elements(p))
  }

  /** filepath.Join of two: empty strings are ignored, the rest is put together and cleaned. */
  function Join(a: Path, b: Path): Path {
    if a == EMPTY && b == EMPTY then EMPTY
    else if a == EMPTY then Clean(b)
    else if b == EMPTY then Clean(a)
    else Clean(Path(a.abs, a.comps + b.comps))
  }

  // ----- cleaned element lists -----

  /** Only names and leading ".."s, and no ".." at all under a root. */
  predicate IsClean(rooted: bool, s: seq<Comp>) {
    && (forall i :: 0 <= i < |s| ==> s[i].Named? || (s[i].DotDot? && !rooted))
    && (forall i, j :: 0 <= i < j < |s| && s[j].DotDot? ==> s[i].DotDot?)
  }

  predicate AllNamed(s: seq<Comp>) {
    forall i :: 0 <= i < |s| ==> s[i].Named?
  }

  lemma {:induction false} WalkIsClean(rooted: bool, out: seq<Comp>, comps: seq<Comp>)
    requires IsClean(rooted, out)
    ensures IsClean(rooted, Walk(rooted, out, comps))
  {
    if comps != [] { WalkIsClean(rooted, out, comps[..|comps| - 1]); }
  }

  lemma {:induction false} WalkAppend(rooted: bool, out: seq<Comp>, a: seq<Comp>, b: seq<Comp>)
    ensures Walk(rooted, out, a + b) == Walk(rooted, Walk(rooted, out, a), b)
  {
    if b == [] {
      assert a + b == a;
    } else {
      WalkAppend(rooted, out, a, b[..|b| - 1]);
      assert (a + b)[..|a + b| - 1] == a + b[..|b| - 1];
    }
  }

  /** Walking the rest of a cleaned list from its front rebuilds it. */
  lemma {:induction false} WalkRebuilds(rooted: bool, s: seq<Comp>, k: nat)
    requires IsClean(rooted, s) && k <= |s|
    ensures Walk(rooted, s[..k], s[k..]) == s
    decreases |s| - k
  {
    if k == |s| {
      assert s[..k] == s;
    } else {
      var front := s[..|s| - 1];
      assert front[..k] == s[..k] && front[k..] == s[k..][..|s| - k - 1];
      WalkRebuilds(rooted, front, k);
    }
  }

  lemma WalkThrough(rooted: bool, a: seq<Comp>, c: Comp, b: seq<Comp>)
    ensures Walk(rooted, [], a + [c] + b) == Walk(rooted, Push(rooted, Walk(rooted, [], a), c), b)
  {
    WalkAppend(rooted, [], a + [c], b);
    WalkAppend(rooted, [], a, [c]);
    WalkOne(rooted, Walk(rooted, [], a), c);
  }

  lemma NameGoesUp(rooted: bool, a: seq<Comp>, id: nat, b: seq<Comp>)
    ensures Walk(rooted, [], a + [Named(id), DotDot] + b) == Walk(rooted, [], a + b)
  {
    assert a + [Named(id), DotDot] + b == a + [Named(id)] + [DotDot] + b;
    WalkThrough(rooted, a + [Named(id)], DotDot, b);
    WalkThrough(rooted, a, Named(id), []);
    assert a + [Named(id)] + [] == a + [Named(id)];
    WalkAppend(rooted, [], a, b);
  }

  /** The rules of Clean, anywhere in a path: nothing and "." go, a name goes with a ".." after it,
      and a ".." at the root goes; what is left allows no rule, and is the result. */
  lemma CleanRules(rooted: bool, a: seq<Comp>, id: nat, b: seq<Comp>)
    ensures Walk(rooted, [], a + [Empty] + b) == Walk(rooted, [], a + b) == Walk(rooted, [], a + [Dot] + b)
    ensures Walk(rooted, [], a + [Named(id), DotDot] + b) == Walk(rooted, [], a + b)
    ensures Walk(true, [], [DotDot] + b) == Walk(true, [], b)
    ensures IsClean(rooted, Walk(rooted, [], a)) && (IsClean(rooted, a) ==> Walk(rooted, [], a) == a)
  {
    WalkAppend(rooted, [], a, b);
    WalkThrough(rooted, a, Empty, b);
    WalkThrough(rooted, a, Dot, b);
    NameGoesUp(rooted, a, id, b);
    WalkThrough(true, [], DotDot, b);
    assert [] + [DotDot] == [DotDot];
    WalkIsClean(rooted, [], a);
    if IsClean(rooted, a) {
      WalkRebuilds(rooted, a, 0);
      assert a[..0] == [] && a[0..] == a;
    }
  }

  function Ups(n: nat): seq<Comp> {
    seq(n, _ => DotDot)
  }

  /** n steps up remove n names. */
  lemma {:induction false} WalkUps(rooted: bool, s: seq<Comp>, n: nat)
    requires n <= |s| && AllNamed(s[|s| - n..])
    ensures Walk(rooted, s, Ups(n)) == s[..|s| - n]
  {
    if n > 0 {
      assert Ups(n)[..n - 1] == Ups(n - 1);
      assert s[|s| - n + 1..] == s[|s| - n..][1..];
      WalkUps(rooted, s, n - 1);
      assert s[|s| - n..][0] == s[|s| - n];
    }
  }

  lemma NameAndBack(rooted: bool, s: seq<Comp>, e: seq<Comp>, name: Comp)
    requires name.Named?
    ensures Push(rooted, Walk(rooted, s, e + [name]), DotDot) == Walk(rooted, s, e)
  {
    WalkAppend(rooted, s, e, [name]);
    WalkOne(rooted, Walk(rooted, s, e), name);
  }

  /** Cleaning a relative path before walking it makes no difference. */
  lemma {:induction false} WalkCleaned(rooted: bool, s: seq<Comp>, c: seq<Comp>)
    ensures Walk(rooted, s, Walk(false, [], c)) == Walk(rooted, s, c)
  {
    if c != [] {
      var front, x := c[..|c| - 1], c[|c| - 1];
      WalkCleaned(rooted, s, front);
      var d := Walk(false, [], front);
      WalkIsClean(false, [], front);
      if x.DotDot? && d != [] && d[|d| - 1].Named? {
        assert d == d[..|d| - 1] + [d[|d| - 1]];
        NameAndBack(rooted, s, d[..|d| - 1], d[|d| - 1]);
      } else if !x.Empty? && !x.Dot? {
        WalkAppend(rooted, s, d, [x]);
        WalkOne(rooted, Walk(rooted, s, d), x);
      }
    }
  }

  lemma WalkOne(rooted: bool, s: seq<Comp>, c: Comp)
    ensures Walk(rooted, s, [c]) == Push(rooted, s, c)
  {
    assert [c][..0] == [];
  }

  /** Dots, as Clean writes them for nothing, change nothing. */
  lemma WalkFromElements(rooted: bool, s: seq<Comp>, abs: bool, e: seq<Comp>)
    ensures Walk(rooted, s, FromElements(abs, e).comps) == Walk(rooted, s, e)
  {
    if e == [] && !abs { WalkOne(rooted, s, Dot); }
  }

  lemma ElementsOfClean(p: Path)
    ensures Elements(Clean(p)) == Elements(p)
  {
    WalkIsClean(p.abs, [], p.comps);
    WalkFromElements(p.abs, [], p.abs, Elements(p));
    WalkRebuilds(p.abs, Elements(p), 0);
    assert Elements(p)[..0] == [] && Elements(p)[0..] == Elements(p);
  }

  lemma ElementsOfJoin(a: Path, b: Path)
    requires a != EMPTY
    ensures Join(a, b).abs == a.abs
    ensures Elements(Join(a, b)) == Walk(a.abs, Elements(a), b.comps)
    ensures Join(a, b) == FromElements(a.abs, Walk(a.abs, Elements(a), b.comps))
  {
    WalkAppend(a.abs, [], a.comps, b.comps);
    ElementsOfClean(Path(a.abs, a.comps + b.comps));
    ElementsOfClean(a);
  }

  /** Joining step by step or all at once gives the same path. */
  lemma JoinAssociative(w: Path, d: Path, f: Path)
    requires w != EMPTY && d != EMPTY && !d.abs
    ensures Join(Join(w, d), f) == Join(w, Join(d, f))
  {
    ElementsOfJoin(w, d);
    ElementsOfJoin(Join(w, d), f);
    ElementsOfJoin(d, f);
    ElementsOfJoin(w, Join(d, f));
    var e := Walk(false, [], d.comps + f.comps);
    WalkAppend(false, [], d.comps, f.comps);
    WalkFromElements(w.abs, Elements(w), false, e);
    WalkCleaned(w.abs, Elements(w), d.comps + f.comps);
    WalkAppend(w.abs, Elements(w), d.comps, f.comps);
  }

  // ----- Rel -----

  function CommonPrefix(a: seq<Comp>, b: seq<Comp>): (k: nat)
    ensures k <= |a| && k <= |b| && a[..k] == b[..k]
    ensures k < |a| && k < |b| ==> a[k] != b[k]
  {
    if a == [] || b == [] || a[0] != b[0] then 0
    else
      var k := 1 + CommonPrefix(a[1..], b[1..]);
      assert a[..k] == [a[0]] + a[1..][..k - 1] && b[..k] == [b[0]] + b[1..][..k - 1];
      k
  }

  /** filepath.Rel.  It fails if only one of the paths is absolute, or if the base leaves by
      ".." where the two part; a target "." is kept as an element of the result. */
  function Rel(base: Path, targ: Path): Option<Path> {
    var b, t := Clean(base), Clean(targ);
    if b == t then Some(DOT)
    else if b.abs != t.abs then None
    else
      var be := Elements(base);
      var k := CommonPrefix(be, t.comps);
      if k < |be| && be[k].DotDot? then None
      else Some(Path(false, Ups(|be| - k) + t.comps[k..]))
  }

  /** Where the two part, the base goes up: the way back down has no name. */
  predicate Strays(base: seq<Comp>, targ: seq<Comp>) {
    var k := CommonPrefix(base, targ);
    k < |base| && base[k].DotDot?
  }

  lemma {:induction false} CommonPrefixSelf(s: seq<Comp>)
    ensures CommonPrefix(s, s) == |s|
  {
    if s != [] { CommonPrefixSelf(s[1..]); }
  }

  /** Rel fails exactly when one path is absolute and the other not, or the base strays. */
  lemma RelSucceeds(base: Path, targ: Path)
    ensures Rel(base, targ).Some? <==> base.abs == targ.abs && !Strays(Elements(base), Elements(targ))
  {
    WalkIsClean(base.abs, [], base.comps);
    WalkIsClean(targ.abs, [], targ.comps);
    if Elements(base) == Elements(targ) { CommonPrefixSelf(Elements(base)); }
    assert CommonPrefix(Elements(base), []) == 0;
    assert CommonPrefix(Elements(base), [Dot]) == 0;
  }

  /** Up to the common prefix, then down to the target. */
  lemma UpThenDown(rooted: bool, b: seq<Comp>, t: seq<Comp>, k: nat)
    requires IsClean(rooted, b) && IsClean(rooted, t) && k <= |b| && k <= |t| && b[..k] == t[..k]
    requires k < |b| ==> b[k].Named?
    ensures Walk(rooted, b, Ups(|b| - k) + t[k..]) == t
  {
    WalkAppend(rooted, b, Ups(|b| - k), t[k..]);
    assert b[|b| - (|b| - k)..] == b[k..];
    assert forall i :: 0 <= i < |b| - k ==> b[k..][i] == b[k + i];
    WalkUps(rooted, b, |b| - k);
    WalkRebuilds(rooted, t, k);
  }

  /** Up from the base to ".", where the target is kept as a dot. */
  lemma UpToDot(b: seq<Comp>)
    requires IsClean(false, b) && (b != [] ==> b[0].Named?)
    ensures Walk(false, b, Ups(|b|) + [Dot]) == []
  {
    UpThenDown(false, b, [], 0);
    assert Ups(|b|) + [][0..] == Ups(|b|);
    WalkAppend(false, b, Ups(|b|), [Dot]);
    WalkOne(false, [], Dot);
  }

  lemma WalkRelSame(base: Path, targ: Path)
    requires Clean(base) == Clean(targ)
    ensures base.abs == targ.abs && Walk(base.abs, Elements(base), [Dot]) == Elements(targ)
  {
    ElementsOfClean(base);
    ElementsOfClean(targ);
    WalkOne(base.abs, Elements(base), Dot);
  }

  lemma WalkRelToDot(base: Path, targ: Path)
    requires Clean(base) != Clean(targ) && Clean(targ) == DOT && Rel(base, targ).Some?
    ensures Walk(base.abs, Elements(base), Rel(base, targ).value.comps) == []
  {
    WalkIsClean(base.abs, [], base.comps);
    assert CommonPrefix(Elements(base), [Dot]) == 0 && [Dot][0..] == [Dot];
    UpToDot(Elements(base));
  }

  lemma WalkRel(base: Path, targ: Path)
    requires Rel(base, targ).Some?
    ensures base.abs == targ.abs
    ensures Walk(base.abs, Elements(base), Rel(base, targ).value.comps) == Elements(targ)
  {
    if Clean(base) == Clean(targ) {
      WalkRelSame(base, targ);
    } else if Clean(targ) == DOT {
      WalkRelToDot(base, targ);
      ElementsOfClean(targ);
      WalkOne(false, [], Dot);
    } else {
      WalkIsClean(base.abs, [], base.comps);
      WalkIsClean(targ.abs, [], targ.comps);
      UpThenDown(base.abs, Elements(base), Elements(targ), CommonPrefix(Elements(base), Clean(targ).comps));
    }
  }

  /** Rel inverts Join: from the base, the relative path leads to the target. */
  lemma RelLeadsToTarget(base: Path, targ: Path)
    requires base != EMPTY && Rel(base, targ).Some?
    ensures Join(base, Rel(base, targ).value) == Clean(targ)
  {
    ElementsOfJoin(base, Rel(base, targ).value);
    WalkRel(base, targ);
  }
}
