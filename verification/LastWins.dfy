/** One setting of a compose service that can be declared in two places of each document, under
    `deploy` or at the top level of the service, across the documents of a merge group. */
module LastWins {
  import opened Options

  datatype Slot<T> = Slot(top: Option<T>, dep: Option<T>)

  /** What one document declares: `deploy` takes precedence. */
  function Explicit<T>(s: Slot<T>): Option<T> {
    Later(s.top, s.dep)
  }

  /** The folding of internal/adapter/stackdeploy/carryforward.go: flatten each document, then
      let the later document win. */
  function Fold<T>(slots: seq<Slot<T>>): Option<T> {
    if slots == [] then None
    else Later(Fold(slots[..|slots| - 1]), Explicit(slots[|slots| - 1]))
  }

  /** The true merge: each of the two places separately, later document wins. */
  function Merge<T>(slots: seq<Slot<T>>): Slot<T> {
    if slots == [] then Slot(None, None)
    else
      var m, s := Merge(slots[..|slots| - 1]), slots[|slots| - 1];
      Slot(Later(m.top, s.top), Later(m.dep, s.dep))
  }

  /** `i` is the last document that declares the setting under `deploy`. */
  predicate LastDeploy<T>(slots: seq<Slot<T>>, i: nat) {
    i < |slots| && slots[i].dep.Some? && forall k :: i < k < |slots| ==> slots[k].dep.None?
  }

  predicate LastTop<T>(slots: seq<Slot<T>>, j: nat) {
    j < |slots| && slots[j].top.Some? && forall k :: j < k < |slots| ==> slots[k].top.None?
  }

  /** A document after the last `deploy` declaration declares another value at the top level. */
  ghost predicate Overridden<T>(slots: seq<Slot<T>>) {
    exists i: nat, j: nat :: LastDeploy(slots, i) && LastTop(slots, j) && i < j && slots[j].top != slots[i].dep
  }

  lemma {:induction false} MergedDeploy<T>(slots: seq<Slot<T>>) returns (i: nat)
    ensures if Merge(slots).dep.Some? then LastDeploy(slots, i) && Merge(slots).dep == slots[i].dep
            else forall k :: 0 <= k < |slots| ==> slots[k].dep.None?
  {
    i := 0;
    if slots != [] {
      var n := |slots| - 1;
      assert forall k :: 0 <= k < n ==> slots[..n][k] == slots[k];
      i := MergedDeploy(slots[..n]);
      if slots[n].dep.Some? { i := n; }
    }
  }

  lemma {:induction false} MergedTop<T>(slots: seq<Slot<T>>) returns (j: nat)
    ensures if Merge(slots).top.Some? then LastTop(slots, j) && Merge(slots).top == slots[j].top
            else forall k :: 0 <= k < |slots| ==> slots[k].top.None?
  {
    j := 0;
    if slots != [] {
      var n := |slots| - 1;
      assert forall k :: 0 <= k < n ==> slots[..n][k] == slots[k];
      j := MergedTop(slots[..n]);
      if slots[n].top.Some? { j := n; }
    }
  }

  /** The fold returns the value of the last document that declares anything. */
  lemma {:induction false} FoldIsLast<T>(slots: seq<Slot<T>>, last: nat)
    requires last < |slots| && Explicit(slots[last]).Some?
    requires forall k :: last < k < |slots| ==> Explicit(slots[k]).None?
    ensures Fold(slots) == Explicit(slots[last])
  {
    var n := |slots| - 1;
    if last < n {
      assert forall k :: 0 <= k < n ==> slots[..n][k] == slots[k];
      FoldIsLast(slots[..n], last);
    }
  }

  lemma {:induction false} FoldOfNothing<T>(slots: seq<Slot<T>>)
    requires forall k :: 0 <= k < |slots| ==> Explicit(slots[k]).None?
    ensures Fold(slots) == None
  {
    if slots != [] {
      assert forall k :: 0 <= k < |slots| - 1 ==> slots[..|slots| - 1][k] == slots[k];
      FoldOfNothing(slots[..|slots| - 1]);
    }
  }

  /** Both directions: the fold has a value exactly if some document is the last to declare it. */
  lemma FoldIff<T>(slots: seq<Slot<T>>, v: T)
    ensures Fold(slots) == Some(v) <==> exists i :: 0 <= i < |slots| && IsLast(slots, i, v)
  {
    if i :| 0 <= i < |slots| && Explicit(slots[i]).Some? && LaterSilent(slots, i) {
      FoldIsLast(slots, i);
      assert IsLast(slots, i, Explicit(slots[i]).value);
    } else {
      SomeLast(slots);
      FoldOfNothing(slots);
    }
    if i :| 0 <= i < |slots| && IsLast(slots, i, v) { FoldIsLast(slots, i); }
  }

  predicate LaterSilent<T>(slots: seq<Slot<T>>, i: nat) {
    forall k :: i < k < |slots| ==> Explicit(slots[k]).None?
  }

  predicate IsLast<T(==)>(slots: seq<Slot<T>>, i: nat, v: T)
    requires i < |slots|
  {
    Explicit(slots[i]) == Some(v) && LaterSilent(slots, i)
  }

  lemma {:induction false} SomeLast<T>(slots: seq<Slot<T>>)
    ensures (exists k :: 0 <= k < |slots| && Explicit(slots[k]).Some?) ==>
              exists i :: 0 <= i < |slots| && Explicit(slots[i]).Some? && LaterSilent(slots, i)
  {
    if slots != [] {
      var n := |slots| - 1;
      SomeLast(slots[..n]);
      if Explicit(slots[n]).Some? {
        assert LaterSilent(slots, n);
      } else if i :| 0 <= i < n && Explicit(slots[..n][i]).Some? && LaterSilent(slots[..n], i) {
        assert forall k :: 0 <= k < n ==> slots[..n][k] == slots[k];
        assert Explicit(slots[i]).Some? && LaterSilent(slots, i);
      }
    }
  }

  /** Folding the flattened documents gives what flattening the merged document gives exactly
      when no later top-level declaration overrides a `deploy` one with another value. */
  lemma FoldEqualsMerge<T>(slots: seq<Slot<T>>)
    ensures Fold(slots) == Explicit(Merge(slots)) <==> !Overridden(slots)
  {
    var i := MergedDeploy(slots);
    var j := MergedTop(slots);
    var m := Merge(slots);
    if m.dep.None? && m.top.None? {
      FoldOfNothing(slots);
    } else if m.dep.None? {
      FoldIsLast(slots, j);
    } else if m.top.None? || j <= i {
      FoldIsLast(slots, i);
    } else {
      FoldIsLast(slots, j);
    }
  }
}
