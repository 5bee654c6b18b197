/** The folded view of a merge group against the document docker really merges. */
module MergedView {
  import opened Words
  import opened Options
  import opened Compose
  import LastWins

  // ----- the two flattening procedures -----

  /** serviceLabels of carryforward.go: collect the values of both places, print at the end. */
  method ServiceLabels(s: Service) returns (out: map<string, string>)
    ensures out == FlatLabels(s)
  {
    var flat := MergeInto(map[], s.labels);
    if s.deploy.Some? {
      flat := MergeInto(flat, s.deploy.value.labels);
    }
    out := Texts(flat);
  }

  function Texts(flat: map<string, Scalar>): map<string, string> {
    map k | k in flat :: Sprint(flat[k])
  }

  lemma TextsUpdate(flat: map<string, Scalar>, k: string, v: Scalar)
    ensures Texts(flat[k := v]) == Texts(flat)[k := Sprint(v)]
  {
  }

  method MergeInto(flat: map<string, Scalar>, l: Labels) returns (r: map<string, Scalar>)
    ensures Texts(r) == Texts(flat) + LabelMap(l)
  {
    match l
    case NoLabels => r := flat;
    case MapForm(entries) => r := MergeEntries(flat, entries);
    case ListForm(items) => r := MergeItems(flat, items);
  }

  method MergeEntries(flat: map<string, Scalar>, entries: map<string, Scalar>) returns (r: map<string, Scalar>)
    ensures r == flat + entries
  {
    r := flat;
    var todo := entries.Keys;
    while todo != {}
      invariant todo <= entries.Keys
      invariant r == flat + (entries - todo)
    {
      var k :| k in todo;
      ExtendEntries(flat, entries, todo, k);
      r := r[k := entries[k]];
      todo := todo - {k};
    }
  }

  lemma ExtendEntries<V>(flat: map<string, V>, entries: map<string, V>, todo: set<string>, k: string)
    requires k in todo && k in entries
    ensures (flat + (entries - todo))[k := entries[k]] == flat + (entries - (todo - {k}))
  {
    assert entries - (todo - {k}) == (entries - todo)[k := entries[k]];
  }

  lemma ItemStep(out: map<string, string>, items: seq<Scalar>, i: nat)
    requires i < |items|
    ensures var s := Sprint(items[i]);
            out + ItemLabels(items[..i + 1]) == (out + ItemLabels(items[..i]))[ItemKey(s) := ItemValue(s)]
  {
    assert items[..i + 1][..i] == items[..i];
  }

  method MergeItems(flat: map<string, Scalar>, items: seq<Scalar>) returns (r: map<string, Scalar>)
    ensures Texts(r) == Texts(flat) + ItemLabels(items)
  {
    r := flat;
    for i := 0 to |items|
      invariant Texts(r) == Texts(flat) + ItemLabels(items[..i])
    {
      ItemStep(Texts(flat), items, i);
      var s := Sprint(items[i]);
      TextsUpdate(r, ItemKey(s), Str(ItemValue(s)));
      r := r[ItemKey(s) := Str(ItemValue(s))];
    }
    assert items[..|items|] == items;
  }

  /** flatServiceLabels of loop.go: the values are printed as they are collected. */
  method FlatServiceLabels(s: Service) returns (out: map<string, string>)
    ensures out == FlatLabels(s)
  {
    out := CollectInto(map[], s.labels);
    if s.deploy.Some? {
      out := CollectInto(out, s.deploy.value.labels);
    }
  }

  method CollectInto(out: map<string, string>, l: Labels) returns (r: map<string, string>)
    ensures r == out + LabelMap(l)
  {
    match l
    case NoLabels => r := out;
    case MapForm(entries) => r := CollectEntries(out, entries);
    case ListForm(items) => r := CollectItems(out, items);
  }

  method CollectEntries(out: map<string, string>, entries: map<string, Scalar>) returns (r: map<string, string>)
    ensures r == out + Texts(entries)
  {
    r := out;
    var todo := entries.Keys;
    while todo != {}
      invariant todo <= entries.Keys
      invariant r == out + (Texts(entries) - todo)
    {
      var k :| k in todo;
      ExtendEntries(out, Texts(entries), todo, k);
      r := r[k := Sprint(entries[k])];
      todo := todo - {k};
    }
  }

  method CollectItems(out: map<string, string>, items: seq<Scalar>) returns (r: map<string, string>)
    ensures r == out + ItemLabels(items)
  {
    r := out;
    for i := 0 to |items|
      invariant r == out + ItemLabels(items[..i])
    {
      ItemStep(out, items, i);
      var s := Sprint(items[i]);
      r := r[ItemKey(s) := ItemValue(s)];
    }
    assert items[..|items|] == items;
  }

  // ----- folding against merging -----

  function LabelSlots(decls: seq<Service>, key: string): seq<LastWins.Slot<string>> {
    seq(|decls|, i requires 0 <= i < |decls| => LabelSlot(decls[i], key))
  }

  function ModeSlots(decls: seq<Service>): seq<LastWins.Slot<Mode>> {
    seq(|decls|, i requires 0 <= i < |decls| => LastWins.Slot(decls[i].mode, DeployOf(decls[i]).mode))
  }

  lemma {:induction false} FoldLabelsIsSlotFold(decls: seq<Service>, key: string)
    ensures Get(FoldLabels(decls), key) == LastWins.Fold(LabelSlots(decls, key))
  {
    if decls != [] {
      FoldLabelsIsSlotFold(decls[..|decls| - 1], key);
      assert LabelSlots(decls, key)[..|decls| - 1] == LabelSlots(decls[..|decls| - 1], key);
    }
  }

  lemma {:induction false} FoldModeIsSlotFold(decls: seq<Service>)
    ensures FoldMode(decls) == LastWins.Fold(ModeSlots(decls))
  {
    if decls != [] {
      FoldModeIsSlotFold(decls[..|decls| - 1]);
      assert ModeSlots(decls)[..|decls| - 1] == ModeSlots(decls[..|decls| - 1]);
    }
  }

  function LabelSlot(s: Service, key: string): LastWins.Slot<string> {
    LastWins.Slot(Get(LabelMap(s.labels), key), Get(LabelMap(DeployOf(s).labels), key))
  }

  lemma MergeServiceSlot(a: Service, b: Service, key: string)
    ensures var s, t, m := LabelSlot(a, key), LabelSlot(b, key), LabelSlot(MergeService(a, b), key);
            m.top == Later(s.top, t.top) && m.dep == Later(s.dep, t.dep)
  {
    MergeLabelsMap(a.labels, b.labels);
    MergeLabelsMap(DeployOf(a).labels, DeployOf(b).labels);
  }

  lemma {:induction false} MergeIsLabelMerge(decls: seq<Service>, key: string)
    requires decls != []
    ensures LabelSlot(MergeAll(decls), key) == LastWins.Merge(LabelSlots(decls, key))
  {
    var n := |decls| - 1;
    var front := decls[..n];
    assert LabelSlots(decls, key)[..n] == LabelSlots(front, key);
    if n == 0 {
      assert LabelSlots(front, key) == [];
    } else {
      MergeIsLabelMerge(front, key);
      MergeServiceSlot(MergeAll(front), decls[n], key);
    }
  }

  lemma {:induction false} MergeIsModeMerge(decls: seq<Service>)
    requires decls != []
    ensures LastWins.Slot(MergeAll(decls).mode, DeployOf(MergeAll(decls)).mode) == LastWins.Merge(ModeSlots(decls))
  {
    var n := |decls| - 1;
    var front := decls[..n];
    assert ModeSlots(decls)[..n] == ModeSlots(front);
    if n == 0 {
      assert ModeSlots(front) == [];
    } else {
      MergeIsModeMerge(front);
    }
  }

  /** For a label key: the folded view reads what the merged document says exactly when no later
      document overrides a `deploy` label with another top-level one. */
  lemma FoldedLabelIsMerged(decls: seq<Service>, key: string)
    requires decls != []
    ensures Get(FoldLabels(decls), key) == Get(FlatLabels(MergeAll(decls)), key)
            <==> !LastWins.Overridden(LabelSlots(decls, key))
  {
    FoldLabelsIsSlotFold(decls, key);
    MergeIsLabelMerge(decls, key);
    LastWins.FoldEqualsMerge(LabelSlots(decls, key));
  }

  /** The same for the mode. */
  lemma FoldedModeIsMerged(decls: seq<Service>)
    requires decls != []
    ensures FoldMode(decls) == ExplicitMode(MergeAll(decls)) <==> !LastWins.Overridden(ModeSlots(decls))
  {
    FoldModeIsSlotFold(decls);
    MergeIsModeMerge(decls);
    LastWins.FoldEqualsMerge(ModeSlots(decls));
  }

  /** A later top-level label that overrides an earlier `deploy` one makes the two differ: the
      folded view then takes a service for compose-owned that Swarm labels autoscaled. */
  lemma LaterTopLevelLabelDiffers()
    ensures var key := "swarm.autoscaler.enabled";
            var base := Service(NoLabels, Some(NO_DEPLOY.(labels := MapForm(map[key := Str("true")]))), None, None, map[]);
            var over := Service(MapForm(map[key := Str("false")]), None, None, None, map[]);
            && Get(FoldLabels([base, over]), key) == Some("false")
            && Get(FlatLabels(MergeAll([base, over])), key) == Some("true")
  {
    var key := "swarm.autoscaler.enabled";
    var base := Service(NoLabels, Some(NO_DEPLOY.(labels := MapForm(map[key := Str("true")]))), None, None, map[]);
    var over := Service(MapForm(map[key := Str("false")]), None, None, None, map[]);
    assert [base, over][..1] == [base];
    assert MergeAll([base, over]) == MergeService(base, over);
  }
}
