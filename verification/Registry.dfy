/** internal/provider/registry.go: providers by unique name, listed in name order. */
module Registry {
  import opened Wrappers
  import Strings
  import Sorting

  /** The registry of the given adapters, or None for the panic on a repeated name. */
  method NewRegistry<A>(adapters: seq<(string, A)>) returns (r: Option<map<string, A>>)
    ensures r.Some? <==> forall i, j :: 0 <= i < j < |adapters| ==> adapters[i].0 != adapters[j].0
    ensures r.Some? ==> forall name, a ::
              name in r.value && r.value[name] == a <==> (name, a) in adapters
  {
    var providers: map<string, A> := map[];
    for i := 0 to |adapters|
      invariant forall a, b :: 0 <= a < b < i ==> adapters[a].0 != adapters[b].0
      invariant forall name :: name in providers <==> exists k :: 0 <= k < i && adapters[k].0 == name
      invariant forall k :: 0 <= k < i ==> providers[adapters[k].0] == adapters[k].1
    {
      if adapters[i].0 in providers {
        return None;
      }
      providers := providers[adapters[i].0 := adapters[i].1];
    }
    forall name, a ensures name in providers && providers[name] == a <==> (name, a) in adapters {
      if name in providers {
        var k :| 0 <= k < |adapters| && adapters[k].0 == name;
        assert adapters[k] == (name, providers[name]);
      }
    }
    return Some(providers);
  }

  ghost predicate Ascending(names: seq<string>) {
    forall i, j :: 0 <= i < j < |names| ==> Strings.Less(names[i], names[j])
  }

  lemma {:induction false} DistinctOfSet(names: seq<string>, keys: set<string>)
    requires multiset(names) == multiset(keys)
    ensures forall i, j :: 0 <= i < j < |names| ==> names[i] != names[j]
  {
    forall i, j | 0 <= i < j < |names| ensures names[i] != names[j] {
      if names[i] == names[j] {
        Sorting.RepeatedElement(names, i, j);
      }
    }
  }

  lemma SortedAscends(list: seq<string>, keys: set<string>)
    requires multiset(list) == multiset(keys)
    ensures Ascending(Sorting.StableSort(Strings.Less, list))
  {
    Strings.LessIsStrictTotal();
    Sorting.SortSorted(Strings.Less, list);
    DistinctOfSet(Sorting.StableSort(Strings.Less, list), keys);
  }

  lemma SameNames(names: seq<string>, keys: set<string>)
    requires multiset(names) == multiset(keys)
    ensures forall name :: name in names <==> name in keys
    ensures |names| == |keys|
  {
    forall name ensures name in names <==> name in keys {
      assert name in names <==> name in multiset(names);
    }
    assert |names| == |multiset(names)| == |multiset(keys)| == |keys|;
  }

  method List(keys: set<string>) returns (names: seq<string>)
    ensures Ascending(names)
    ensures forall name :: name in names <==> name in keys
    ensures |names| == |keys|
  {
    var list := Sorting.SetToSeq(keys);
    names := Sorting.StableSort(Strings.Less, list);
    SortedAscends(list, keys);
    SameNames(names, keys);
  }
}
