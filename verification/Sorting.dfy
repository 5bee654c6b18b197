/** Lists in the order of a name that no two elements share: `sort.Slice` as the status store and the
    drift computation use it. */
module Sorting {

  predicate SortedBy<T>(out: seq<T>, name: T -> nat) {
    forall i, j :: 0 <= i < j < |out| ==> name(out[i]) < name(out[j])
  }

  /** `out` holds the items of `names`. */
  ghost predicate Holds<T>(out: seq<T>, name: T -> nat, items: map<nat, T>, names: set<nat>)
    requires names <= items.Keys
  {
    && (forall i :: 0 <= i < |out| ==> name(out[i]) in names && out[i] == items[name(out[i])])
    && (forall n :: n in names ==> exists i :: 0 <= i < |out| && name(out[i]) == n)
  }

  /** One more item, put where it belongs. */
  method Insert<T>(out: seq<T>, x: T, name: T -> nat, ghost items: map<nat, T>, ghost names: set<nat>) returns (r: seq<T>)
    requires names <= items.Keys && SortedBy(out, name) && Holds(out, name, items, names)
    requires name(x) in items && name(x) !in names && items[name(x)] == x
    ensures SortedBy(r, name) && Holds(r, name, items, names + {name(x)})
  {
    var k := 0;
    while k < |out| && name(out[k]) < name(x)
      invariant 0 <= k <= |out| && forall i :: 0 <= i < k ==> name(out[i]) < name(x)
    {
      k := k + 1;
    }
    assert k < |out| ==> name(out[k]) in names;
    SortedMore(out, k, x, name);
    r := out[..k] + [x] + out[k..];
    HoldsMore(out, r, k, x, name, items, names);
  }

  lemma SortedMore<T>(out: seq<T>, k: nat, x: T, name: T -> nat)
    requires SortedBy(out, name) && k <= |out| && forall i :: 0 <= i < k ==> name(out[i]) < name(x)
    requires k < |out| ==> name(x) < name(out[k])
    ensures SortedBy(out[..k] + [x] + out[k..], name)
  {
  }

  lemma HoldsMore<T>(out: seq<T>, r: seq<T>, k: nat, x: T, name: T -> nat, items: map<nat, T>, names: set<nat>)
    requires names <= items.Keys && Holds(out, name, items, names) && name(x) in items && items[name(x)] == x
    requires k <= |out| && r == out[..k] + [x] + out[k..]
    ensures Holds(r, name, items, names + {name(x)})
  {
    forall n | n in names + {name(x)} ensures exists i :: 0 <= i < |r| && name(r[i]) == n {
      if n == name(x) {
        assert r[k] == x;
      } else {
        var i :| 0 <= i < |out| && name(out[i]) == n;
        assert r[if i < k then i else i + 1] == out[i];
      }
    }
  }
}
