/** The in-memory stack statuses (internal/adapter/statusstore/store.go). */
module StatusStore {
  import opened Options
  import opened Words
  import Sorting

  /** Stack names, in the order the API sorts them. */
  type StackName = nat

  datatype SyncState = Idle | Waiting | Syncing

  datatype FileOutcome = Pending | Deployed | Failed(error: nat) | Skipped

  datatype Stage = AtGit | AtRender | AtSecrets | AtRotate | AtDeploy | Panicked

  /** What one finished pass reports.  `stage` is the failing stage, None when the pass was ok;
      `desired` is None when there is nothing to watch for drift. */
  datatype PassResult = PassResult(revision: Option<nat>, stage: Option<Stage>, lastSync: int, deployCount: Word,
                                   desired: Option<map<nat, Word>>, files: seq<FileOutcome>)

  /** The zero value of the result fields, shown before the first pass is over. */
  datatype ResultFields = NeverSynced | Synced(result: PassResult)

  datatype StackStatus = StackStatus(name: StackName, repo: nat, state: SyncState, fields: ResultFields)

  type Items = map<StackName, StackStatus>

  function WithStatus(items: Items, name: StackName, status: StackStatus): Items {
    items[name := status.(name := name, state := Idle)]
  }

  function WithState(items: Items, name: StackName, repo: nat, state: SyncState): Items {
    var st := if name in items then items[name] else StackStatus(name, 0, Idle, NeverSynced);
    items[name := st.(repo := repo, state := state)]
  }

  predicate Named(items: Items) {
    forall name :: name in items ==> items[name].name == name
  }

  function NameOf(s: StackStatus): StackName {
    s.name
  }

  class Store {
    var items: Items

    constructor ()
      ensures items == map[] && Named(items)
    {
      items := map[];
    }

    /** The full update at the end of a pass. */
    method SetStatus(name: StackName, status: StackStatus)
      requires Named(items)
      modifies this
      ensures Named(items) && items == WithStatus(old(items), name, status)
    {
      var st := status.(name := name);
      st := st.(state := Idle);
      items := items[name := st];
    }

    /** The partial update during a pass. */
    method SetState(name: StackName, repo: nat, state: SyncState)
      requires Named(items)
      modifies this
      ensures Named(items) && items == WithState(old(items), name, repo, state)
    {
      var st := StackStatus(name, 0, Idle, NeverSynced);
      if name in items {
        st := items[name];
      }
      st := st.(repo := repo);
      st := st.(state := state);
      items := items[name := st];
    }

    method Snapshot() returns (out: seq<StackStatus>)
      requires Named(items)
      ensures Sorting.SortedBy(out, NameOf) && Sorting.Holds(out, NameOf, items, items.Keys)
    {
      out := [];
      var todo := items.Keys;
      while todo != {}
        invariant todo <= items.Keys
        invariant Sorting.SortedBy(out, NameOf) && Sorting.Holds(out, NameOf, items, items.Keys - todo)
      {
        var name :| name in todo;
        out := Sorting.Insert(out, items[name], NameOf, items, items.Keys - todo);
        assert items.Keys - (todo - {name}) == (items.Keys - todo) + {name};
        todo := todo - {name};
      }
      assert items.Keys - {} == items.Keys;
    }
  }

  // ----- runs of updates -----

  datatype Update =
    | SetStatus(name: StackName, status: StackStatus)
    | SetState(name: StackName, repo: nat, state: SyncState)

  function Apply(items: Items, u: Update): Items {
    match u
    case SetStatus(name, status) => WithStatus(items, name, status)
    case SetState(name, repo, state) => WithState(items, name, repo, state)
  }

  function After(updates: seq<Update>): Items {
    if updates == [] then map[] else Apply(After(updates[..|updates| - 1]), updates[|updates| - 1])
  }

  /** The k-th update is the last one of its stack; `full` looks at full updates only. */
  predicate IsLast(updates: seq<Update>, name: StackName, k: nat, full: bool) {
    && k < |updates| && updates[k].name == name && (full ==> updates[k].SetStatus?)
    && forall j :: k < j < |updates| && updates[j].name == name ==> full && updates[j].SetState?
  }

  predicate NoFullUpdate(updates: seq<Update>, name: StackName) {
    forall j :: 0 <= j < |updates| && updates[j].name == name ==> updates[j].SetState?
  }

  /** What the specification that keeps the whole history shows for a stack. */
  ghost predicate Explained(updates: seq<Update>, name: StackName, st: StackStatus) {
    && st.name == name
    && (forall k: nat :: IsLast(updates, name, k, true) ==> st.fields == updates[k].status.fields)
    && (NoFullUpdate(updates, name) ==> st.fields == NeverSynced)
    && (forall k: nat :: IsLast(updates, name, k, false) ==>
          && st.repo == (if updates[k].SetStatus? then updates[k].status.repo else updates[k].repo)
          && st.state == (if updates[k].SetStatus? then Idle else updates[k].state))
  }

  lemma IsLastOfFront(updates: seq<Update>, name: StackName, k: nat, full: bool)
    requires updates != []
    ensures var n, u := |updates| - 1, updates[|updates| - 1];
            var counts := u.name == name && (full ==> u.SetStatus?);
            && (k < n && IsLast(updates, name, k, full) ==> IsLast(updates[..n], name, k, full) && !counts)
            && (k == n ==> (IsLast(updates, name, k, full) <==> counts))
  {
  }

  /** After any updates, a stack is shown once it was mentioned; its result fields are those of
      its last full update, whatever overlays came in between, and its state is that of its
      last overlay, or idle if a full update came after. */
  lemma {:induction false} StoreRefinesHistory(updates: seq<Update>, name: StackName)
    ensures Named(After(updates))
    ensures name in After(updates) <==> exists k :: 0 <= k < |updates| && updates[k].name == name
    ensures name in After(updates) ==> Explained(updates, name, After(updates)[name])
  {
    if updates != [] {
      var n := |updates| - 1;
      var front, u := updates[..n], updates[n];
      StoreRefinesHistory(front, name);
      forall k: nat, full ensures IsLast(updates, name, k, full) ==> k == n || IsLast(front, name, k, full) {
        IsLastOfFront(updates, name, k, full);
      }
      if u.name == name { assert updates[n].name == name; }
      assert forall k :: 0 <= k < n ==> updates[k] == front[k];
    }
  }
}
