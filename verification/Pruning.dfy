/** What the prune of a self-wired block achieves. */
module Pruning {
  import opened Resources
  import opened Pass
  import opened Convergence
  import opened Quiescence

  function NamesIn(keys: set<Key>): set<string> {
    set k | k in keys :: k.name
  }

  /** The items have distinct names in one namespace, their resources exist with the owner's label,
      and the owner labels no resource of the kind in another namespace. */
  ghost predicate OneNamespace(store: Store, owner: string, kind: Kind, items: seq<Item>, namespace: string) {
    && (forall i, j | 0 <= i < j < |items| :: items[i].name != items[j].name)
    && (forall item | item in items :: item.namespace == namespace && KeyOf(kind, item) in Selected(store, kind, owner))
    && (forall k | k in Selected(store, kind, owner) :: k.namespace == namespace)
  }

  lemma {:induction false} DistinctRange(keys: seq<Key>)
    requires forall i, j | 0 <= i < j < |keys| :: keys[i] != keys[j]
    ensures |Range(keys)| == |keys|
  {
    if keys != [] {
      DistinctRange(keys[1..]);
      assert Range(keys) == {keys[0]} + Range(keys[1..]);
      assert keys[0] !in Range(keys[1..]);
    }
  }

  /** Counting is enough: the labelled list is longer than the spec exactly when some labelled name is not in the spec. */
  lemma LongerMeansExtra(store: Store, owner: string, kind: Kind, items: seq<Item>, namespace: string)
    requires OneNamespace(store, owner, kind, items, namespace)
    ensures |Selected(store, kind, owner)| > |items| <==>
            exists k | k in Selected(store, kind, owner) :: k.name !in NamesOf(items)
    ensures NamesOf(items) <= NamesIn(Selected(store, kind, owner))
  {
    var keys, all := KeysOf(kind, items), Selected(store, kind, owner);
    DistinctRange(keys);
    assert forall k | k in keys :: k in all;
    SubsetSize(Range(keys), all);
    forall k | k in all ensures k.name in NamesOf(items) <==> k in keys {
      if k.name in NamesOf(items) {
        var item :| item in items && item.name == k.name;
        var i :| 0 <= i < |items| && items[i] == item;
        assert keys[i] == k;
      }
    }
    forall name | name in NamesOf(items) ensures name in NamesIn(all) {
      var item :| item in items && item.name == name;
      assert KeyOf(kind, item) in all;
    }
    if exists k :: k in all && k !in Range(keys) {
      assert all != Range(keys);
    } else {
      assert all == Range(keys);
    }
  }

  /** The prune of a self-wired block removes precisely the extra resources of its universe. */
  lemma PruneIsExact(env: Env, block: Kind, w: Walk, namespace: string)
    requires SelfWired(block) && env.list(block) && forall k :: env.delete(block, k)
    requires OneNamespace(w.store, w.mem.name, block, w.mem.spec.items(block), namespace)
    ensures var v, names := Prune(env, block, w), NamesOf(w.mem.spec.items(block));
            && NamesIn(Selected(v.store, block, w.mem.name)) == names
            && v.store.Keys == w.store.Keys - (set k | k in Selected(w.store, block, w.mem.name) && k.name !in names)
            && (forall k | k in v.store :: v.store[k] == w.store[k])
  {
    var v, owner, items := Prune(env, block, w), w.mem.name, w.mem.spec.items(block);
    var names, all := NamesOf(items), Selected(w.store, block, owner);
    LongerMeansExtra(w.store, owner, block, items, namespace);
    assert Doomed(env, block, w) == set k | k in all && k.name !in names;
    forall name | name in names ensures name in NamesIn(Selected(v.store, block, owner)) {
      assert name in NamesIn(all);
      var k :| k in all && k.name == name;
      assert k in Selected(v.store, block, owner);
    }
  }

  /** In a settled cluster the universe owns, of every self-wired kind, exactly the names of its spec. */
  lemma SettledOwnsItsSpec(c: Cluster, block: Kind, namespace: string)
    requires Settled(c) && SelfWired(block)
    requires OneNamespace(c.store, c.universe.value.name, block, c.universe.value.spec.items(block), namespace)
    ensures NamesIn(Selected(c.store, block, c.universe.value.name)) == NamesOf(c.universe.value.spec.items(block))
  {
    var u := c.universe.value;
    LongerMeansExtra(c.store, u.name, block, u.spec.items(block), namespace);
    assert Tidy(c.store, u.name, u.spec, block);
  }
}
