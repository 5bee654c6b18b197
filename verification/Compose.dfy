/** Rendered compose documents: what is left of the YAML after decoding, as the deploy and drift
    code reads it.  Keys that code never looks at are kept under `rest`. */
module Compose {
  import opened Words
  import opened Options
  import opened Numbers

  /** Short compose service names; only their equality matters. */
  type Name = nat

  // ----- labels -----

  /** A decoded YAML scalar in a label position. */
  datatype Scalar = Str(s: string) | Int(n: int) | Bool(b: bool) | Null

  /** fmt.Sprint. */
  function Sprint(v: Scalar): string {
    match v
    case Str(s) => s
    case Int(n) => if n < 0 then "-" + Decimal(-n) else Decimal(n)
    case Bool(b) => if b then "true" else "false"
    case Null => "<nil>"
  }

  /** Any `labels:` value that is neither a map nor a list reads as NoLabels. */
  datatype Labels = NoLabels | MapForm(entries: map<string, Scalar>) | ListForm(items: seq<Scalar>)

  /** The position of the first '=', or the length. */
  function CutAt(s: string): (i: nat)
    ensures i <= |s| && '=' !in s[..i] && (i < |s| ==> s[i] == '=')
  {
    if s == "" || s[0] == '=' then 0
    else
      var i := 1 + CutAt(s[1..]);
      assert s[..i] == [s[0]] + s[1..][..i - 1];
      i
  }

  /** strings.Cut at '='; an item without one stands for the value "true". */
  function ItemKey(s: string): string {
    s[..CutAt(s)]
  }

  function ItemValue(s: string): string {
    if CutAt(s) < |s| then s[CutAt(s) + 1..] else "true"
  }

  function ItemLabels(items: seq<Scalar>): map<string, string> {
    if items == [] then map[]
    else
      var s := Sprint(items[|items| - 1]);
      ItemLabels(items[..|items| - 1])[ItemKey(s) := ItemValue(s)]
  }

  /** The labels as text, either form. */
  function LabelMap(l: Labels): map<string, string> {
    match l
    case NoLabels => map[]
    case MapForm(entries) => map k | k in entries :: Sprint(entries[k])
    case ListForm(items) => ItemLabels(items)
  }

  // ----- services -----

  /** A decoded YAML value under `replicas:`, within the range of Go's int64, uint64 or (for
      reals, in the range the conversion to uint64 defines) float64. */
  datatype Number = IntNum(n: IntValue) | FloatNum(r: RealValue) | NotANumber

  type IntValue = n: int | -0x8000_0000_0000_0000 <= n < WORD_MODULUS

  type RealValue = r: real | r < WORD_MODULUS as real witness 0.0

  /** asUint64. */
  function AsUint64(v: Number): Option<Word> {
    match v
    case IntNum(n) => if n < 0 then None else Some(n)
    case FloatNum(r) => if r < 0.0 then None else FloorInRange(r); Some(r.Floor)
    case NotANumber => None
  }

  lemma FloorInRange(r: RealValue)
    requires r >= 0.0
    ensures 0 <= r.Floor < WORD_MODULUS
  {
  }

  /** A declared mode; an empty string reads as none declared. */
  type Mode = s: string | s != "" witness "replicated"

  datatype DeploySection = DeploySection(
    labels: Labels, mode: Option<Mode>, replicas: Option<Number>, rest: map<nat, int>)

  /** A `deploy:` value that is not a map reads as absent. */
  datatype Service = Service(
    labels: Labels, deploy: Option<DeploySection>, mode: Option<Mode>, replicas: Option<Number>, rest: map<nat, int>)

  const NO_DEPLOY := DeploySection(NoLabels, None, None, map[])

  function DeployOf(s: Service): DeploySection {
    if s.deploy.Some? then s.deploy.value else NO_DEPLOY
  }

  /** The labels of one declaration: `deploy.labels` beat top-level ones. */
  function FlatLabels(s: Service): map<string, string> {
    LabelMap(s.labels) + LabelMap(DeployOf(s).labels)
  }

  /** explicitMode and explicitServiceMode. */
  function ExplicitMode(s: Service): Option<Mode> {
    Later(s.mode, DeployOf(s).mode)
  }

  function NumberOf(v: Option<Number>): Option<Word> {
    if v.None? then None else AsUint64(v.value)
  }

  /** replicasOf. */
  function ReplicasOf(s: Service): Option<Word> {
    Later(NumberOf(s.replicas), NumberOf(DeployOf(s).replicas))
  }

  // ----- the merge of docker stack deploy: maps deep-merge, the later file wins per key -----

  function MergeLabels(a: Labels, b: Labels): Labels {
    var m := LabelMap(a) + LabelMap(b);
    MapForm(map k | k in m :: Str(m[k]))
  }

  function MergeDeploy(a: DeploySection, b: DeploySection): DeploySection {
    DeploySection(MergeLabels(a.labels, b.labels), Later(a.mode, b.mode), Later(a.replicas, b.replicas), a.rest + b.rest)
  }

  function MergeService(a: Service, b: Service): Service {
    Service(
      MergeLabels(a.labels, b.labels),
      if a.deploy.Some? && b.deploy.Some? then Some(MergeDeploy(a.deploy.value, b.deploy.value))
      else Later(a.deploy, b.deploy),
      Later(a.mode, b.mode), Later(a.replicas, b.replicas), a.rest + b.rest)
  }

  /** The declarations of one service, merged in `-c` order. */
  function MergeAll(decls: seq<Service>): Service
    requires decls != []
  {
    if |decls| == 1 then decls[0]
    else MergeService(MergeAll(decls[..|decls| - 1]), decls[|decls| - 1])
  }

  lemma MergeLabelsMap(a: Labels, b: Labels)
    ensures LabelMap(MergeLabels(a, b)) == LabelMap(a) + LabelMap(b)
  {
  }

  // ----- documents -----

  /** An entry of a services map; one that is not a map is Malformed. */
  datatype Entry = Declared(svc: Service) | Malformed

  /** `services` is None when the document has no services map. */
  datatype Doc = Doc(services: Option<map<Name, Entry>>, rest: map<nat, int>)

  predicate Declares(d: Doc, name: Name) {
    d.services.Some? && name in d.services.value && d.services.value[name].Declared?
  }

  function Decl(d: Doc, name: Name): Service
    requires Declares(d, name)
  {
    d.services.value[name].svc
  }

  /** All declarations of a service in a merge group, in `-c` order. */
  function Decls(docs: seq<Doc>, name: Name): seq<Service> {
    if docs == [] then []
    else
      var d := docs[|docs| - 1];
      Decls(docs[..|docs| - 1], name) + if Declares(d, name) then [Decl(d, name)] else []
  }

  function Names(docs: seq<Doc>): set<Name> {
    set i, name | 0 <= i < |docs| && docs[i].services.Some? && name in docs[i].services.value
                  && docs[i].services.value[name].Declared? :: name
  }

  predicate HasServices(docs: seq<Doc>) {
    exists i :: 0 <= i < |docs| && docs[i].services.Some?
  }

  lemma DeclsAppend(view: seq<Doc>, v: Doc, name: Name)
    ensures Decls(view + [v], name) == if Declares(v, name) then Decls(view, name) + [Decl(v, name)] else Decls(view, name)
  {
    assert (view + [v])[..|view|] == view;
    assert Decls(view, name) + [] == Decls(view, name);
  }

  lemma {:induction false} DeclaredIffDecls(view: seq<Doc>, name: Name)
    ensures name in Names(view) <==> Decls(view, name) != []
  {
    if view != [] {
      var n := |view| - 1;
      assert forall i :: 0 <= i < n ==> view[..n][i] == view[i];
      DeclaredIffDecls(view[..n], name);
      assert name in Names(view) <==> name in Names(view[..n]) || Declares(view[n], name);
    }
  }

  // ----- the merged view, as both packages compute it -----

  function FoldLabels(decls: seq<Service>): map<string, string> {
    if decls == [] then map[] else FoldLabels(decls[..|decls| - 1]) + FlatLabels(decls[|decls| - 1])
  }

  function FoldMode(decls: seq<Service>): Option<Mode> {
    if decls == [] then None else Later(FoldMode(decls[..|decls| - 1]), ExplicitMode(decls[|decls| - 1]))
  }

  function FoldReplicas(decls: seq<Service>): Option<Word> {
    if decls == [] then None else Later(FoldReplicas(decls[..|decls| - 1]), ReplicasOf(decls[|decls| - 1]))
  }
}
