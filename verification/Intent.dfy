/** What a merge group says about a service, read off its declarations one by one, and what
    carry-forward and the drift snapshot make of it. */
module Intent {
  import opened Words
  import opened Options
  import opened Compose
  import opened CarryForward
  import Numbers
  import Config = Labels
  import Drift
  import LastWins
  import MergedView

  // ----- one declaration -----

  /** The text of a decoded scalar. */
  predicate Printed(v: Scalar, t: string) {
    match v
    case Str(s) => t == s
    case Int(n) => if n >= 0 then PrintedNat(n, t) else t != "" && t[0] == '-' && PrintedNat(-n, t[1..])
    case Bool(b) => t == if b then "true" else "false"
    case Null => t == "<nil>"
  }

  predicate PrintedNat(n: nat, t: string) {
    Numbers.IsPlain(t) && Numbers.Value(t) == n
  }

  /** A list item `key=text`; one without '=' is a flag that is on. */
  ghost predicate Item(x: Scalar, key: string, text: string) {
    exists t :: Printed(x, t) && ItemText(t, key, text)
  }

  predicate ItemText(t: string, key: string, text: string) {
    '=' !in key && (t == key + "=" + text || (t == key && text == "true"))
  }

  ghost predicate LabelSays(l: Compose.Labels, key: string, text: string) {
    match l
    case NoLabels => false
    case MapForm(entries) => key in entries && Printed(entries[key], text)
    case ListForm(items) => exists i :: 0 <= i < |items| && LastItem(items, i, key, text)
  }

  ghost predicate LastItem(items: seq<Scalar>, i: nat, key: string, text: string)
    requires i < |items|
  {
    Item(items[i], key, text) && forall j :: i < j < |items| ==> forall other :: !Item(items[j], key, other)
  }

  /** `deploy.labels` decide if they have the key. */
  ghost predicate DeclSays(s: Service, key: string, text: string) {
    if s.deploy.Some? && exists other :: LabelSays(s.deploy.value.labels, key, other)
    then LabelSays(s.deploy.value.labels, key, text)
    else LabelSays(s.labels, key, text)
  }

  predicate DeclMode(s: Service, mode: Mode) {
    if s.deploy.Some? && s.deploy.value.mode.Some? then s.deploy.value.mode == Some(mode) else s.mode == Some(mode)
  }

  /** A count that is a number of the range; a fraction is cut off. */
  predicate IsCount(v: Option<Number>, n: Word) {
    && v.Some?
    && match v.value
       case IntNum(i) => i == n
       case FloatNum(r) => n as real <= r < n as real + 1.0
       case NotANumber => false
  }

  ghost predicate DeclCount(s: Service, n: Word) {
    if s.deploy.Some? && exists other: Word :: IsCount(s.deploy.value.replicas, other)
    then IsCount(s.deploy.value.replicas, n)
    else IsCount(s.replicas, n)
  }

  lemma PrintedIff(v: Scalar, t: string)
    ensures Printed(v, t) <==> t == Sprint(v)
  {
    match v
    case Int(n) =>
      if n >= 0 {
        Numbers.DecimalIff(n, t);
      } else {
        if t != "" && t[0] == '-' { Numbers.DecimalIff(-n, t[1..]); assert t == ['-'] + t[1..]; }
        Numbers.DecimalIff(-n, Sprint(v)[1..]);
      }
    case _ =>
  }

  lemma ItemIff(x: Scalar, key: string, text: string)
    ensures Item(x, key, text) <==> ItemKey(Sprint(x)) == key && ItemValue(Sprint(x)) == text
  {
    var t := Sprint(x);
    PrintedIff(x, t);
    if ItemText(t, key, text) {
      if t == key + "=" + text {
        CutIsThere(t, |key|);
      } else {
        assert t[..CutAt(t)] == t[..|t|];
      }
    }
    if ItemKey(t) == key && ItemValue(t) == text {
      var i := CutAt(t);
      if i < |t| { assert t == t[..i] + "=" + t[i + 1..]; }
      assert ItemText(t, key, text);
    }
    forall u | Printed(x, u) ensures u == t { PrintedIff(x, u); }
  }

  lemma CutIsThere(t: string, i: nat)
    requires i < |t| && t[i] == '=' && '=' !in t[..i]
    ensures CutAt(t) == i
  {
  }

  /** The last item decides if it has the key. */
  lemma ItemsMore(front: seq<Scalar>, x: Scalar, key: string, text: string)
    ensures LabelSays(ListForm(front + [x]), key, text)
            <==> if exists other :: Item(x, key, other) then Item(x, key, text) else LabelSays(ListForm(front), key, text)
  {
    var items, n := front + [x], |front|;
    assert items[n] == x && forall i :: 0 <= i < n ==> items[i] == front[i];
    assert LastItem(items, n, key, text) <==> Item(x, key, text);
    if forall other :: !Item(x, key, other) {
      forall i | 0 <= i < n ensures LastItem(items, i, key, text) <==> LastItem(front, i, key, text) {
      }
    }
  }

  lemma {:induction false} ItemsIff(items: seq<Scalar>, key: string, text: string)
    ensures LabelSays(ListForm(items), key, text) <==> Get(ItemLabels(items), key) == Some(text)
  {
    if items != [] {
      var n := |items| - 1;
      var t := Sprint(items[n]);
      ItemsIff(items[..n], key, text);
      assert items[..n] + [items[n]] == items;
      ItemsMore(items[..n], items[n], key, text);
      ItemIff(items[n], key, text);
      ItemIff(items[n], key, ItemValue(t));
      forall other | Item(items[n], key, other) ensures ItemKey(t) == key { ItemIff(items[n], key, other); }
    }
  }

  lemma LabelSaysIff(l: Compose.Labels, key: string, text: string)
    ensures LabelSays(l, key, text) <==> Get(LabelMap(l), key) == Some(text)
  {
    match l
    case NoLabels =>
    case MapForm(entries) => if key in entries { PrintedIff(entries[key], text); }
    case ListForm(items) => ItemsIff(items, key, text);
  }

  lemma DeclSaysIff(s: Service, key: string, text: string)
    ensures DeclSays(s, key, text) <==> Get(FlatLabels(s), key) == Some(text)
  {
    LabelSaysIff(s.labels, key, text);
    forall other ensures LabelSays(DeployOf(s).labels, key, other) <==> Get(LabelMap(DeployOf(s).labels), key) == Some(other) {
      LabelSaysIff(DeployOf(s).labels, key, other);
    }
    if key in LabelMap(DeployOf(s).labels) {
      assert LabelSays(DeployOf(s).labels, key, LabelMap(DeployOf(s).labels)[key]);
    }
  }

  lemma DeclModeIff(s: Service, mode: Mode)
    ensures DeclMode(s, mode) <==> ExplicitMode(s) == Some(mode)
  {
  }

  lemma IsCountIff(v: Option<Number>, n: Word)
    ensures IsCount(v, n) <==> NumberOf(v) == Some(n)
  {
  }

  lemma DeclCountIff(s: Service, n: Word)
    ensures DeclCount(s, n) <==> ReplicasOf(s) == Some(n)
  {
    IsCountIff(s.replicas, n);
    forall other: Word ensures IsCount(DeployOf(s).replicas, other) <==> NumberOf(DeployOf(s).replicas) == Some(other) {
      IsCountIff(DeployOf(s).replicas, other);
    }
    var dep := NumberOf(DeployOf(s).replicas);
    if dep.Some? { assert IsCount(DeployOf(s).replicas, dep.value); }
  }

  /** The four ways to switch a service on. */
  lemma WaysToSwitchOn(key: string)
    requires '=' !in key
    ensures LabelSays(MapForm(map[key := Str("true")]), key, "true") && LabelSays(MapForm(map[key := Bool(true)]), key, "true")
    ensures LabelSays(ListForm([Str(key + "=true")]), key, "true") && LabelSays(ListForm([Str(key)]), key, "true")
  {
    assert ItemText(key + "=true", key, "true") && ItemText(key, key, "true");
    assert Printed(Str(key + "=true"), key + "=true") && Printed(Str(key), key);
    assert LastItem([Str(key + "=true")], 0, key, "true") && LastItem([Str(key)], 0, key, "true");
  }

  // ----- the documents of a group -----

  /** The last document that declares the service and is not silent says so. */
  ghost predicate LastOf(docs: seq<Doc>, name: Name, says: Service -> bool, silent: Service -> bool) {
    exists i :: 0 <= i < |docs| && IsLastOf(docs, name, says, silent, i)
  }

  ghost predicate IsLastOf(docs: seq<Doc>, name: Name, says: Service -> bool, silent: Service -> bool, i: nat)
    requires i < |docs|
  {
    && Declares(docs[i], name) && says(Decl(docs[i], name))
    && forall j :: i < j < |docs| && Declares(docs[j], name) ==> silent(Decl(docs[j], name))
  }

  ghost predicate LastIn(decls: seq<Service>, says: Service -> bool, silent: Service -> bool, k: nat)
    requires k < |decls|
  {
    says(decls[k]) && forall j :: k < j < |decls| ==> silent(decls[j])
  }

  lemma LastInMore(front: seq<Service>, more: seq<Service>, says: Service -> bool, silent: Service -> bool, k: nat)
    requires k < |front| && |more| <= 1
    ensures LastIn(front + more, says, silent, k) <==> LastIn(front, says, silent, k) && (more != [] ==> silent(more[0]))
  {
    var all := front + more;
    assert forall j :: 0 <= j < |front| ==> all[j] == front[j];
    if more != [] { assert all[|front|] == more[0]; }
  }

  lemma {:induction false} LastOfIff(docs: seq<Doc>, name: Name, says: Service -> bool, silent: Service -> bool)
    ensures LastOf(docs, name, says, silent)
            <==> exists k :: 0 <= k < |Decls(docs, name)| && LastIn(Decls(docs, name), says, silent, k)
  {
    if docs != [] {
      var n := |docs| - 1;
      var front := docs[..n];
      var before, decls := Decls(front, name), Decls(docs, name);
      LastOfIff(front, name, says, silent);
      forall i | 0 <= i < n
        ensures IsLastOf(docs, name, says, silent, i)
                <==> IsLastOf(front, name, says, silent, i) && (Declares(docs[n], name) ==> silent(Decl(docs[n], name)))
      {
      }
      forall k | 0 <= k < |before|
        ensures LastIn(decls, says, silent, k)
                <==> LastIn(before, says, silent, k) && (Declares(docs[n], name) ==> silent(Decl(docs[n], name)))
      {
        LastInMore(before, if Declares(docs[n], name) then [Decl(docs[n], name)] else [], says, silent, k);
      }
      if Declares(docs[n], name) {
        assert IsLastOf(docs, name, says, silent, n) <==> LastIn(decls, says, silent, |before|);
      }
    }
  }

  /** The group's last word on a label. */
  ghost predicate Says(docs: seq<Doc>, name: Name, key: string, text: string) {
    LastOf(docs, name, (s: Service) => DeclSays(s, key, text), (s: Service) => forall other :: !DeclSays(s, key, other))
  }

  /** The last explicit mode. */
  ghost predicate HasMode(docs: seq<Doc>, name: Name, mode: Mode) {
    LastOf(docs, name, (s: Service) => DeclMode(s, mode), (s: Service) => forall other: Mode :: !DeclMode(s, other))
  }

  /** The last explicit count. */
  ghost predicate HasCount(docs: seq<Doc>, name: Name, n: Word) {
    LastOf(docs, name, (s: Service) => DeclCount(s, n), (s: Service) => forall other: Word :: !DeclCount(s, other))
  }

  lemma SlotsIff<T(!new)>(decls: seq<Service>, slots: seq<LastWins.Slot<T>>, v: T, says: Service -> bool, silent: Service -> bool)
    requires |slots| == |decls|
    requires forall k :: 0 <= k < |decls| ==> && (says(decls[k]) <==> LastWins.Explicit(slots[k]) == Some(v))
                                              && (silent(decls[k]) <==> LastWins.Explicit(slots[k]).None?)
    ensures (exists k :: 0 <= k < |decls| && LastIn(decls, says, silent, k)) <==> LastWins.Fold(slots) == Some(v)
  {
    LastWins.FoldIff(slots, v);
    forall k | 0 <= k < |decls| ensures LastIn(decls, says, silent, k) <==> LastWins.IsLast(slots, k, v) {
    }
  }

  lemma SaysIff(docs: seq<Doc>, name: Name, key: string, text: string)
    ensures Says(docs, name, key, text) <==> Get(FoldLabels(Decls(docs, name)), key) == Some(text)
  {
    var decls := Decls(docs, name);
    var slots := MergedView.LabelSlots(decls, key);
    var says, silent := (s: Service) => DeclSays(s, key, text), (s: Service) => forall other :: !DeclSays(s, key, other);
    LastOfIff(docs, name, says, silent);
    forall k | 0 <= k < |decls|
      ensures says(decls[k]) <==> LastWins.Explicit(slots[k]) == Some(text)
      ensures silent(decls[k]) <==> LastWins.Explicit(slots[k]).None?
    {
      forall other ensures DeclSays(decls[k], key, other) <==> LastWins.Explicit(slots[k]) == Some(other) {
        DeclSaysIff(decls[k], key, other);
      }
      var own := LastWins.Explicit(slots[k]);
      if own.Some? { assert DeclSays(decls[k], key, own.value); }
    }
    SlotsIff(decls, slots, text, says, silent);
    MergedView.FoldLabelsIsSlotFold(decls, key);
  }

  lemma HasModeIff(docs: seq<Doc>, name: Name, mode: Mode)
    ensures HasMode(docs, name, mode) <==> FoldMode(Decls(docs, name)) == Some(mode)
  {
    var decls := Decls(docs, name);
    var slots := MergedView.ModeSlots(decls);
    var says, silent := (s: Service) => DeclMode(s, mode), (s: Service) => forall other: Mode :: !DeclMode(s, other);
    LastOfIff(docs, name, says, silent);
    forall k | 0 <= k < |decls|
      ensures says(decls[k]) <==> LastWins.Explicit(slots[k]) == Some(mode)
      ensures silent(decls[k]) <==> LastWins.Explicit(slots[k]).None?
    {
      var own := LastWins.Explicit(slots[k]);
      assert forall other: Mode :: DeclMode(decls[k], other) <==> own == Some(other);
      if own.Some? { assert DeclMode(decls[k], own.value); }
    }
    SlotsIff(decls, slots, mode, says, silent);
    MergedView.FoldModeIsSlotFold(decls);
  }

  lemma HasCountIff(docs: seq<Doc>, name: Name, n: Word)
    ensures HasCount(docs, name, n) <==> FoldReplicas(Decls(docs, name)) == Some(n)
  {
    var decls := Decls(docs, name);
    var slots := Drift.ReplicaSlots(decls);
    var says, silent := (s: Service) => DeclCount(s, n), (s: Service) => forall other: Word :: !DeclCount(s, other);
    LastOfIff(docs, name, says, silent);
    forall k | 0 <= k < |decls|
      ensures says(decls[k]) <==> LastWins.Explicit(slots[k]) == Some(n)
      ensures silent(decls[k]) <==> LastWins.Explicit(slots[k]).None?
    {
      forall other: Word ensures DeclCount(decls[k], other) <==> LastWins.Explicit(slots[k]) == Some(other) {
        DeclCountIff(decls[k], other);
      }
      var own := LastWins.Explicit(slots[k]);
      if own.Some? { assert DeclCount(decls[k], own.value); }
    }
    SlotsIff(decls, slots, n, says, silent);
    Drift.FoldReplicasIsSlotFold(decls);
  }

  // ----- carry-forward -----

  /** A numeral, leading zeros allowed. */
  predicate Numeral(t: string, n: Word) {
    exists k :: 0 <= k <= |t| && Numbers.IsZeros(t[..k]) && PrintedNat(n, t[k..])
  }

  /** The bound a label gives; a label that is missing or no 64-bit numeral gives 0. */
  ghost predicate HasBound(docs: seq<Doc>, name: Name, key: string, b: Word) {
    || (exists t :: Says(docs, name, key, t) && Numeral(t, b))
    || (b == 0 && forall t, n: Word :: Says(docs, name, key, t) ==> !Numeral(t, n))
  }

  /** The count between the bounds; 0 is no bound, and the lower one wins. */
  function Bounded(n: Word, min: Word, max: Word): Word {
    var capped := if max > 0 && n > max then max else n;
    if min > 0 && capped < min then min else capped
  }

  lemma NumeralIff(t: string, n: Word)
    ensures Numeral(t, n) <==> Numbers.ParseUint(t) == Some(n)
  {
    Numbers.ParsesIff(t, n);
    forall k | 0 <= k <= |t| ensures PrintedNat(n, t[k..]) <==> t[k..] == Numbers.Decimal(n) {
      Numbers.DecimalIff(n, t[k..]);
    }
  }

  lemma HasBoundIff(docs: seq<Doc>, name: Name, key: string, b: Word)
    ensures HasBound(docs, name, key, b) <==> Config.Bound(FoldLabels(Decls(docs, name)), key) == b
  {
    var own := Get(FoldLabels(Decls(docs, name)), key);
    forall t ensures Says(docs, name, key, t) <==> own == Some(t) {
      SaysIff(docs, name, key, t);
    }
    if own.Some? {
      var n := Config.Bound(FoldLabels(Decls(docs, name)), key);
      assert Says(docs, name, key, own.value);
      NumeralIff(own.value, b);
      NumeralIff(own.value, n);
      NothingParses(own.value);
    } else {
      assert Numbers.ParseUint("") == None;
    }
  }

  lemma NothingParses(t: string)
    ensures Numbers.ParseUint(t) == None <==> forall n: Word :: !Numeral(t, n)
  {
    forall n: Word ensures Numeral(t, n) <==> Numbers.ParseUint(t) == Some(n) {
      NumeralIff(t, n);
    }
  }

  /** A service with a last word on the label is declared. */
  lemma OwnedIff(docs: seq<Doc>, name: Name)
    ensures Says(docs, name, "swarm.autoscaler.enabled", "true") <==> AutoscalerOwned(Decls(docs, name))
    ensures HasMode(docs, name, "global") <==> Global(Decls(docs, name))
    ensures AutoscalerOwned(Decls(docs, name)) ==> Decls(docs, name) != [] && name in Names(docs)
  {
    SaysIff(docs, name, "swarm.autoscaler.enabled", "true");
    HasModeIff(docs, name, "global");
    DeclaredIffDecls(docs, name);
  }

  /** Which services are carried: those the group's last word gives to the autoscaler, not global,
      and run by Swarm as replicated ones. */
  lemma CarriedIff(docs: seq<Doc>, live: seq<Live>, name: Name)
    ensures name in CarriedNames(docs, LiveByName(live))
            <==> && Says(docs, name, "swarm.autoscaler.enabled", "true") && !HasMode(docs, name, "global")
                 && exists e :: IsLive(live, name, e) && e.replicated
  {
    OwnedIff(docs, name);
    LiveFound(live, name);
  }

  lemma LiveFound(live: seq<Live>, name: Name)
    ensures forall e :: IsLive(live, name, e) <==> Get(LiveByName(live), name) == Some(e)
    ensures name in LiveByName(live) ==> IsLive(live, name, LiveByName(live)[name])
  {
    forall e ensures IsLive(live, name, e) <==> Get(LiveByName(live), name) == Some(e) { IsLiveIff(live, name, e); }
  }

  /** With which count: the live one, within the bounds of the group's last words. */
  ghost predicate CarriesTo(docs: seq<Doc>, live: seq<Live>, name: Name, n: Word) {
    && Says(docs, name, "swarm.autoscaler.enabled", "true") && !HasMode(docs, name, "global")
    && exists e, min: Word, max: Word :: IsLive(live, name, e) && LiveWithin(docs, name, e, min, max, n)
  }

  ghost predicate LiveWithin(docs: seq<Doc>, name: Name, e: Live, min: Word, max: Word, n: Word) {
    && e.replicated && n == Bounded(e.replicas, min, max)
    && HasBound(docs, name, "swarm.autoscaler.min", min) && HasBound(docs, name, "swarm.autoscaler.max", max)
  }

  lemma LiveWithinIff(docs: seq<Doc>, name: Name, e: Live, min: Word, max: Word, n: Word)
    ensures var labels := FoldLabels(Decls(docs, name));
            LiveWithin(docs, name, e, min, max, n)
            <==> && e.replicated && n == Config.CarryClamp(labels, e.replicas)
                 && min == Config.Bound(labels, Config.LABEL_MIN) && max == Config.Bound(labels, Config.LABEL_MAX)
  {
    HasBoundIff(docs, name, "swarm.autoscaler.min", min);
    HasBoundIff(docs, name, "swarm.autoscaler.max", max);
  }

  lemma CarriesToIff(docs: seq<Doc>, live: seq<Live>, name: Name, n: Word)
    ensures CarriesTo(docs, live, name, n) <==> Carried(Decls(docs, name), name, LiveByName(live)) == Some(n)
  {
    OwnedIff(docs, name);
    LiveFound(live, name);
    if CarriesTo(docs, live, name, n) {
      var e, min: Word, max: Word :| IsLive(live, name, e) && LiveWithin(docs, name, e, min, max, n);
      LiveWithinIff(docs, name, e, min, max, n);
    }
    if Carried(Decls(docs, name), name, LiveByName(live)) == Some(n) {
      var e, labels := LiveByName(live)[name], FoldLabels(Decls(docs, name));
      LiveWithinIff(docs, name, e, Config.Bound(labels, Config.LABEL_MIN), Config.Bound(labels, Config.LABEL_MAX), n);
    }
  }

  /** What a declaration of the service becomes: the count is written under `deploy.replicas` and
      the rest stays; without a count everything stays. */
  ghost predicate Treats(docs: seq<Doc>, live: seq<Live>, name: Name, s: Service, t: Service) {
    && (forall n: Word :: CarriesTo(docs, live, name, n) ==> t == s.(deploy := Some(DeployOf(s).(replicas := Some(IntNum(n))))))
    && ((forall n: Word :: !CarriesTo(docs, live, name, n)) ==> t == s)
  }

  predicate SameShape(d: Doc, e: Doc) {
    && e.rest == d.rest && (e.services.Some? <==> d.services.Some?)
    && (d.services.Some? ==> && e.services.value.Keys == d.services.value.Keys
                             && forall name :: name in d.services.value ==>
                                  (e.services.value[name].Declared? <==> d.services.value[name].Declared?))
  }

  /** What a group becomes. */
  ghost predicate IsRewritten(docs: seq<Doc>, live: seq<Live>, after: seq<Doc>) {
    && |after| == |docs|
    && (forall i :: 0 <= i < |docs| ==> SameShape(docs[i], after[i]))
    && forall i, name :: 0 <= i < |docs| && Declares(docs[i], name) ==>
         Treats(docs, live, name, Decl(docs[i], name), Decl(after[i], name))
  }

  lemma DeclTreated(docs: seq<Doc>, live: seq<Live>, name: Name, s: Service)
    ensures Treats(docs, live, name, s, RewriteService(s, Carried(Decls(docs, name), name, LiveByName(live))))
  {
    var count := Carried(Decls(docs, name), name, LiveByName(live));
    forall n: Word ensures CarriesTo(docs, live, name, n) <==> count == Some(n) { CarriesToIff(docs, live, name, n); }
    if count.Some? { assert CarriesTo(docs, live, name, count.value); }
  }

  /** The rewrite of any group over any listing of live services. */
  lemma RewriteMeans(docs: seq<Doc>, live: seq<Live>)
    ensures IsRewritten(docs, live, Rewrite(docs, LiveByName(live)))
  {
    var after := Rewrite(docs, LiveByName(live));
    forall i, name | 0 <= i < |docs| && Declares(docs[i], name)
      ensures Treats(docs, live, name, Decl(docs[i], name), Decl(after[i], name))
    {
      DeclTreated(docs, live, name, Decl(docs[i], name));
      assert after[i] == RewriteDoc(docs[i], docs, LiveByName(live));
    }
  }

  /** docker's merge of the group ends at the carried counts. */
  ghost predicate MergesToCarried(docs: seq<Doc>, live: seq<Live>, after: seq<Doc>) {
    forall name, n: Word :: CarriesTo(docs, live, name, n) ==>
      Decls(after, name) != [] && DeployOf(MergeAll(Decls(after, name))).replicas == Some(IntNum(n))
  }

  lemma RewriteMerges(docs: seq<Doc>, live: seq<Live>)
    ensures MergesToCarried(docs, live, Rewrite(docs, LiveByName(live)))
  {
    var after := Rewrite(docs, LiveByName(live));
    forall name, n: Word | CarriesTo(docs, live, name, n)
      ensures Decls(after, name) != [] && DeployOf(MergeAll(Decls(after, name))).replicas == Some(IntNum(n))
    {
      CarriesToIff(docs, live, name, n);
      DeclsOfRewrite(docs, docs, LiveByName(live), name);
      CarriedCountSurvivesMerge(docs, LiveByName(live), name, Decls(after, name));
    }
  }

  // ----- the drift snapshot -----

  /** The counts the snapshot holds. */
  lemma SnapshotIff(docs: seq<Doc>, name: Name, n: Word)
    ensures Get(Drift.Snapshot(docs), name) == Some(n)
            <==> && HasCount(docs, name, n) && !HasMode(docs, name, "global")
                 && !Says(docs, name, "swarm.autoscaler.enabled", "true")
  {
    OwnedIff(docs, name);
    HasCountIff(docs, name, n);
    DeclaredIffDecls(docs, name);
  }

  /** The services the autoscaler keeps out of it. */
  lemma ExcludedIff(docs: seq<Doc>, name: Name)
    ensures name in Drift.Excluded(docs)
            <==> Says(docs, name, "swarm.autoscaler.enabled", "true") && !HasMode(docs, name, "global")
  {
    OwnedIff(docs, name);
  }
}
