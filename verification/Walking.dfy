/** What a walk over the blocks does to the copy in memory, to the server's universe and to the store. */
module Walking {
  import opened Base
  import opened Utils
  import opened Resources
  import opened Status
  import opened Pass

  /** Two universes that differ at most in their status lists. */
  ghost predicate SameCopy(a: Universe, b: Universe) {
    b == a.(resources := b.resources)
  }

  /** While no user action has landed the server holds the copy of the pass;
      afterwards it holds the universe that action made of such a copy, whatever the pass still writes. */
  ghost predicate Coherent(env: Env, w: Walk) {
    if !w.stale then w.server == Some(w.mem)
    else env.interrupt.Some? && env.interrupt.value.at < w.writes && exists list ::
      w.server == Act(Some(w.mem.(resources := list)), env.interrupt.value.action)
  }

  /** Some block may prune a resource of this kind and name. */
  ghost predicate Prunable(spec: Spec, k: Key) {
    exists b :: PrunedKind(b) == k.kind && k.name !in NamesOf(spec.items(ComparedKind(b)))
  }

  /** The changes a walk may make: it adds only the created key, it removes only labelled and prunable
      resources, it keeps the labels of what stays, and it works with one copy of the universe. */
  ghost predicate Evolves(env: Env, w: Walk, v: Walk) {
    && SameCopy(w.mem, v.mem)
    && (Coherent(env, w) ==> Coherent(env, v))
    && (v.stop.Some? && v.stop.value.Created? ==> v.stop.value.key in v.store)
    && (forall k | k in v.store && k !in w.store ::
          v.stop == Some(Created(k)) && InSpec(w.mem.spec, k) && OwnedBy(v.store[k].labels, w.mem.name))
    && (forall k | k in w.store && k !in v.store ::
          Prunable(w.mem.spec, k) && OwnedBy(w.store[k].labels, w.mem.name))
    && (forall k | k in w.store && k in v.store ::
          v.stop == Some(Created(k)) || v.store[k].labels == w.store[k].labels)
  }

  lemma EvolvesTransitive(env: Env, w: Walk, x: Walk, v: Walk)
    requires Evolves(env, w, x) && Evolves(env, x, v) && x.stop.None?
    ensures Evolves(env, w, v)
  {
  }

  lemma WriteCoherent(env: Env, w: Walk, mem: Universe)
    requires Coherent(env, w) && SameCopy(w.mem, mem)
    ensures Coherent(env, Write(env, w.(mem := mem)))
  {
    var v := Write(env, w.(mem := mem));
    if w.stale {
      var list :| w.server == Act(Some(w.mem.(resources := list)), env.interrupt.value.action);
      assert w.mem.(resources := list) == v.mem.(resources := list);
    } else if v.stale {
      assert v.mem.(resources := w.mem.resources) == w.mem;
    }
  }

  lemma ReportEvolves(env: Env, w: Walk, kind: Kind, name: string, progress: Progress)
    ensures var v := Report(env, w, kind, name, progress);
            && SameCopy(w.mem, v.mem) && v.store == w.store && v.stop == w.stop
            && v.mem.resources == Upsert(w.mem.resources, Entry(kind, name, progress))
            && (Coherent(env, w) ==> Coherent(env, v))
            && (w.stale ==> v.stale)
  {
    if Coherent(env, w) {
      WriteCoherent(env, w, w.mem.(resources := Upsert(w.mem.resources, Entry(kind, name, progress))));
    }
  }

  lemma ItemInSpec(spec: Spec, kind: Kind, item: Item)
    requires item in spec.items(kind)
    ensures InSpec(spec, KeyOf(kind, item))
  {
    var i :| 0 <= i < |spec.items(kind)| && spec.items(kind)[i] == item;
    assert KeysOf(kind, spec.items(kind))[i] == KeyOf(kind, item);
  }

  lemma CreateItemEffect(env: Env, kind: Kind, item: Item, w: Walk)
    requires w.stop.None? && item in w.mem.spec.items(kind)
    requires KeyOf(kind, item) !in w.store && env.create(KeyOf(kind, item))
    ensures var v, key := EnsureItem(env, kind, item, w), KeyOf(kind, item);
            && Evolves(env, w, v)
            && v.stop == Some(Created(key)) && v.store == w.store[key := NewObject(w.mem.name, kind, item)]
  {
    var key := KeyOf(kind, item);
    var made := w.(store := w.store[key := NewObject(w.mem.name, kind, item)], stop := Some(Created(key)));
    NewObjectAgrees(w.mem.name, kind, item);
    ItemInSpec(w.mem.spec, kind, item);
    assert Coherent(env, w) ==> Coherent(env, made);
    ReportEvolves(env, made, kind, item.name, Creating);
  }

  /** Replacing a resource by one with the same labels, and reporting it, is a change a walk may make. */
  lemma ReplaceEvolves(env: Env, w: Walk, x: Walk, key: Key, r: Resource, kind: Kind)
    requires SameCopy(w.mem, x.mem) && (Coherent(env, w) ==> Coherent(env, x)) && x.stop.None?
    requires key in w.store && r.labels == w.store[key].labels && x.store == w.store[key := r]
    ensures var v := Report(env, x, kind, key.name, Healthy);
            Evolves(env, w, v) && v.stop.None? && v.store == x.store
  {
    ReportEvolves(env, x, kind, key.name, Healthy);
  }

  lemma SyncItemEffect(env: Env, kind: Kind, item: Item, w: Walk)
    requires KeyOf(kind, item) in w.store
    ensures var v, key := SyncItem(env, kind, item, w), KeyOf(kind, item);
            && SameCopy(w.mem, v.mem) && v.stop == w.stop && (Coherent(env, w) ==> Coherent(env, v))
            && (env.update(key) ==> v.store == w.store[key := SyncObject(kind, w.store[key], item)])
            && (!env.update(key) ==> v.store == w.store)
  {
    var v := SyncItem(env, kind, item, w);
    var k := ReconcilingKind(kind);
    if k.Some? {
      var w1 := Report(env, w, k.value, item.name, Reconciling);
      ReportEvolves(env, w, k.value, item.name, Reconciling);
      assert Coherent(env, w1) ==> Coherent(env, w1.(store := v.store));
    } else {
      assert Coherent(env, w) ==> Coherent(env, w.(store := v.store));
    }
  }

  /** One item that exists: leave it, or synchronise it when the gate is open. */
  lemma KeepItemEffect(env: Env, kind: Kind, item: Item, w: Walk)
    requires w.stop.None? && KeyOf(kind, item) in w.store
    ensures var v, key := EnsureItem(env, kind, item, w), KeyOf(kind, item);
            && Evolves(env, w, v) && v.stop.None?
            && v.store == (if w.Gate() && env.update(key) then w.store[key := SyncObject(kind, w.store[key], item)]
                           else w.store)
  {
    var key, found := KeyOf(kind, item), w.store[KeyOf(kind, item)];
    assert w.store == w.store[key := found];
    if w.Gate() {
      var synced := SyncObject(kind, found, item);
      SyncItemEffect(env, kind, item, w);
      assert synced.labels == found.labels;
      ReplaceEvolves(env, w, SyncItem(env, kind, item, w), key, if env.update(key) then synced else found, kind);
    } else {
      ReplaceEvolves(env, w, w, key, found, kind);
    }
  }

  function FirstMissing(keys: seq<Key>, store: Store): Option<Key> {
    if keys == [] then None
    else if keys[0] !in store then Some(keys[0])
    else FirstMissing(keys[1..], store)
  }

  function StopAt(env: Env, missing: Option<Key>): Option<Stop> {
    match missing
    case None => None
    case Some(k) => Some(if env.create(k) then Created(k) else CreateFailed(k))
  }

  lemma {:induction false} FirstMissingOfConcat(a: seq<Key>, b: seq<Key>, store: Store)
    ensures FirstMissing(a + b, store) ==
            if FirstMissing(a, store).Some? then FirstMissing(a, store) else FirstMissing(b, store)
  {
    if a == [] {
      assert a + b == b;
    } else {
      assert (a + b)[1..] == a[1..] + b;
      FirstMissingOfConcat(a[1..], b, store);
    }
  }

  lemma {:induction false} FirstMissingAgrees(keys: seq<Key>, s: Store, t: Store)
    requires forall k | k in keys :: k in s <==> k in t
    ensures FirstMissing(keys, s) == FirstMissing(keys, t)
  {
    if keys != [] {
      assert keys[0] in keys;
      FirstMissingAgrees(keys[1..], s, t);
    }
  }

  lemma {:induction false} FirstMissingIs(keys: seq<Key>, store: Store)
    ensures FirstMissing(keys, store).None? <==> forall k | k in keys :: k in store
    ensures FirstMissing(keys, store).Some? ==>
              FirstMissing(keys, store).value in keys && FirstMissing(keys, store).value !in store
  {
    if keys != [] {
      FirstMissingIs(keys[1..], store);
    }
  }

  lemma {:induction false} EnsureItemsEffect(env: Env, kind: Kind, items: seq<Item>, w: Walk)
    requires w.stop.None? && forall item | item in items :: item in w.mem.spec.items(kind)
    ensures var v := EnsureItems(env, kind, items, w);
            && Evolves(env, w, v) && w.store.Keys <= v.store.Keys
            && v.stop == StopAt(env, FirstMissing(KeysOf(kind, items), w.store))
    decreases |items|
  {
    if items != [] {
      var key, x := KeyOf(kind, items[0]), EnsureItem(env, kind, items[0], w);
      if key in w.store {
        KeepItemEffect(env, kind, items[0], w);
      } else if env.create(key) {
        CreateItemEffect(env, kind, items[0], w);
      }
      assert KeysOf(kind, items)[0] == key;
      assert KeysOf(kind, items)[1..] == KeysOf(kind, items[1..]);
      if x.stop.None? {
        EnsureItemsEffect(env, kind, items[1..], x);
        EvolvesTransitive(env, w, x, EnsureItems(env, kind, items, w));
        FirstMissingAgrees(KeysOf(kind, items[1..]), w.store, x.store);
      }
    }
  }

  lemma PruneEffect(env: Env, block: Kind, w: Walk)
    requires w.stop.None?
    ensures var v := Prune(env, block, w);
            && Evolves(env, w, v) && v.stop.None? && v.store == w.store - Doomed(env, block, w)
            && (forall k | k in w.store && k !in v.store :: k.kind == PrunedKind(block))
  {
    var v := Prune(env, block, w);
    assert Coherent(env, w) ==> Coherent(env, v);
    forall k | k in w.store && k !in v.store ensures Prunable(w.mem.spec, k) && k.kind == PrunedKind(block) {
      assert k in Doomed(env, block, w);
    }
  }

  lemma BlockEffect(env: Env, block: Kind, w: Walk)
    requires w.stop.None?
    ensures var v, items := Block(env, block, w), w.mem.spec.items(block);
            && Evolves(env, w, v)
            && v.stop == StopAt(env, FirstMissing(KeysOf(block, items), w.store))
            && (forall k | k in w.store && k !in v.store :: k.kind == PrunedKind(block))
  {
    var x := EnsureItems(env, block, w.mem.spec.items(block), w);
    EnsureItemsEffect(env, block, w.mem.spec.items(block), w);
    if x.stop.None? {
      PruneEffect(env, block, x);
      EvolvesTransitive(env, w, x, Prune(env, block, x));
    }
  }

  /** A block never prunes a kind whose turn is still to come. */
  predicate PruneLooksBack(blocks: seq<Kind>) {
    forall i, j | 0 <= i < j < |blocks| :: PrunedKind(blocks[i]) != blocks[j]
  }

  lemma BlocksPruneLooksBack()
    ensures PruneLooksBack(BLOCKS)
  {
  }

  /** A walk stops at the first key of the spec that is missing from the store it started with,
      in spite of what its earlier blocks delete. */
  lemma {:induction false} BlocksEffect(env: Env, blocks: seq<Kind>, w: Walk)
    requires w.stop.None? && PruneLooksBack(blocks)
    ensures var v := Blocks(env, blocks, w);
            && Evolves(env, w, v)
            && v.stop == StopAt(env, FirstMissing(Flatten(blocks, w.mem.spec), w.store))
    decreases |blocks|
  {
    if blocks != [] {
      var b, rest, spec := blocks[0], blocks[1..], w.mem.spec;
      var x := Block(env, b, w);
      BlockEffect(env, b, w);
      FirstMissingOfConcat(KeysOf(b, spec.items(b)), Flatten(rest, spec), w.store);
      if x.stop.None? {
        BlocksEffect(env, rest, x);
        EvolvesTransitive(env, w, x, Blocks(env, rest, x));
        forall k | k in Flatten(rest, spec) ensures k in w.store <==> k in x.store {
          FlattenContains(rest, spec, k);
          var j :| 0 <= j < |rest| && rest[j] == k.kind;
          assert blocks[j + 1] == k.kind;
        }
        FirstMissingAgrees(Flatten(rest, spec), w.store, x.store);
      }
    }
  }

  /** The walk of a whole pass. */
  lemma WalkEffect(env: Env, c: Cluster)
    requires c.universe.Some?
    ensures var v := WalkOf(env, c);
            && Evolves(env, Start(c), v) && Coherent(env, v) && SameCopy(c.universe.value, v.mem)
            && v.stop == StopAt(env, FirstMissing(Flatten(BLOCKS, c.universe.value.spec), c.store))
            && (v.stop.Some? ==> v.stop.value.key !in c.store)
  {
    BlocksPruneLooksBack();
    FirstMissingIs(Flatten(BLOCKS, c.universe.value.spec), c.store);
    BlocksEffect(env, BLOCKS, Start(c));
  }
}
