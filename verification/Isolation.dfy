/** Ten workers reconcile different universes over one store: their passes do not disturb each other. */
module Isolation {
  import opened Base
  import opened Utils
  import opened Resources
  import opened Pass
  import opened Walking
  import opened Convergence

  /** Resources the universe neither describes nor labels. */
  ghost predicate Foreign(y: Store, u: Universe) {
    forall k | k in y :: !InSpec(u.spec, k) && !OwnedBy(y[k].labels, u.name)
  }

  /** The same walk in a store with more resources. */
  function Beside(w: Walk, y: Store): Walk {
    w.(store := w.store + y)
  }

  lemma ReportBeside(env: Env, w: Walk, y: Store, kind: Kind, name: string, p: Status.Progress)
    ensures Report(env, Beside(w, y), kind, name, p) == Beside(Report(env, w, kind, name, p), y)
  {
  }

  lemma PutBeside(s: Store, y: Store, key: Key, r: Resource)
    requires key !in y
    ensures (s + y)[key := r] == s[key := r] + y
  {
  }

  lemma SyncItemBeside(env: Env, kind: Kind, item: Item, w: Walk, y: Store)
    requires y.Keys !! w.store.Keys && KeyOf(kind, item) in w.store
    ensures SyncItem(env, kind, item, Beside(w, y)) == Beside(SyncItem(env, kind, item, w), y)
  {
    var key, r := KeyOf(kind, item), ReconcilingKind(kind);
    PutBeside(w.store, y, key, SyncObject(kind, w.store[key], item));
    if r.Some? {
      ReportBeside(env, w, y, r.value, item.name, Status.Reconciling);
      ReportEvolves(env, w, r.value, item.name, Status.Reconciling);
    }
  }

  lemma EnsureItemBeside(env: Env, kind: Kind, item: Item, w: Walk, y: Store)
    requires y.Keys !! w.store.Keys && KeyOf(kind, item) !in y
    ensures EnsureItem(env, kind, item, Beside(w, y)) == Beside(EnsureItem(env, kind, item, w), y)
  {
    var key := KeyOf(kind, item);
    if key !in w.store {
      var r := NewObject(w.mem.name, kind, item);
      PutBeside(w.store, y, key, r);
      ReportBeside(env, w.(store := w.store[key := r], stop := Some(Created(key))), y, kind, item.name, Status.Creating);
    } else if w.Gate() {
      SyncItemBeside(env, kind, item, w, y);
      ReportBeside(env, SyncItem(env, kind, item, w), y, kind, item.name, Status.Healthy);
    } else {
      ReportBeside(env, w, y, kind, item.name, Status.Healthy);
    }
  }

  /** The keys a walk may touch stay apart from the foreign ones. */
  lemma StaysApart(env: Env, w: Walk, v: Walk, y: Store)
    requires Evolves(env, w, v) && Foreign(y, w.mem) && y.Keys !! w.store.Keys
    ensures Foreign(y, v.mem) && y.Keys !! v.store.Keys
  {
    forall k | k in v.store ensures k !in y {
      assert k in w.store || InSpec(w.mem.spec, k);
    }
  }

  lemma {:induction false} EnsureItemsBeside(env: Env, kind: Kind, items: seq<Item>, w: Walk, y: Store)
    requires Foreign(y, w.mem) && y.Keys !! w.store.Keys
    requires forall item | item in items :: item in w.mem.spec.items(kind)
    ensures EnsureItems(env, kind, items, Beside(w, y)) == Beside(EnsureItems(env, kind, items, w), y)
    decreases |items|
  {
    if items != [] && w.stop.None? {
      var item := items[0];
      var x := EnsureItem(env, kind, item, w);
      ItemInSpec(w.mem.spec, kind, item);
      EnsureItemBeside(env, kind, item, w, y);
      if KeyOf(kind, item) in w.store {
        KeepItemEffect(env, kind, item, w);
        StaysApart(env, w, x, y);
        EnsureItemsBeside(env, kind, items[1..], x, y);
      }
    }
  }

  lemma SelectedBeside(s: Store, y: Store, u: Universe, kind: Kind)
    requires Foreign(y, u) && y.Keys !! s.Keys
    ensures Selected(s + y, kind, u.name) == Selected(s, kind, u.name)
  {
  }

  lemma MinusBeside(s: Store, y: Store, gone: set<Key>)
    requires gone !! y.Keys
    ensures (s + y) - gone == (s - gone) + y
  {
  }

  lemma PruneBeside(env: Env, block: Kind, w: Walk, y: Store)
    requires Foreign(y, w.mem) && y.Keys !! w.store.Keys
    ensures Prune(env, block, Beside(w, y)) == Beside(Prune(env, block, w), y)
  {
    SelectedBeside(w.store, y, w.mem, block);
    SelectedBeside(w.store, y, w.mem, PrunedKind(block));
    var d := Doomed(env, block, w);
    assert Doomed(env, block, Beside(w, y)) == d;
    assert d !! y.Keys by {
      assert d <= Selected(w.store, PrunedKind(block), w.mem.name);
    }
    MinusBeside(w.store, y, d);
  }

  lemma {:induction false} BlocksBeside(env: Env, blocks: seq<Kind>, w: Walk, y: Store)
    requires w.stop.None? && Foreign(y, w.mem) && y.Keys !! w.store.Keys
    ensures Blocks(env, blocks, Beside(w, y)) == Beside(Blocks(env, blocks, w), y)
    decreases |blocks|
  {
    if blocks != [] {
      var b, items := blocks[0], w.mem.spec.items(blocks[0]);
      var x := EnsureItems(env, b, items, w);
      EnsureItemsEffect(env, b, items, w);
      EnsureItemsBeside(env, b, items, w, y);
      StaysApart(env, w, x, y);
      if x.stop.None? {
        PruneBeside(env, b, x, y);
        PruneEffect(env, b, x);
        StaysApart(env, x, Prune(env, b, x), y);
        BlocksBeside(env, blocks[1..], Prune(env, b, x), y);
      }
    }
  }

  /** The same outcome with more resources in the store. */
  function Along(o: Outcome, y: Store): Outcome {
    o.(cluster := o.cluster.(store := o.cluster.store + y))
  }

  lemma ExpireBeside(env: Env, w: Walk, y: Store)
    ensures Expire(env, Beside(w, y)) == Along(Expire(env, w), y)
  {
  }

  lemma FinishBeside(env: Env, w: Walk, y: Store)
    ensures Finish(env, Beside(w, y)) == Along(Finish(env, w), y)
  {
    ExpireBeside(env, w, y);
    var x := Write(env, w.(mem := w.mem.(finalizer := true)));
    assert Write(env, Beside(w, y).(mem := w.mem.(finalizer := true))) == Beside(x, y);
    ExpireBeside(env, x, y);
  }

  /** The outcome of a pass over a store, for a universe as the server holds it. */
  function Passed(env: Env, u: Universe, s: Store): Outcome {
    Reconcile(env, Cluster(s, Some(u)))
  }

  /** A pass beside foreign resources does what it does without them, and leaves them as they are. */
  lemma PassBeside(env: Env, u: Universe, x: Store, y: Store)
    requires Foreign(y, u) && y.Keys !! x.Keys
    ensures Passed(env, u, x + y) == Along(Passed(env, u, x), y)
    ensures Passed(env, u, x).cluster.store.Keys !! y.Keys
  {
    var c := Cluster(x, Some(u));
    var w := WalkOf(env, c);
    WalkEffect(env, c);
    StaysApart(env, Start(c), w, y);
    ConcludeKeepsStore(env, w);
    BlocksBeside(env, BLOCKS, Start(c), y);
    ConcludeBeside(env, w, y, u);
  }

  lemma ConcludeBeside(env: Env, w: Walk, y: Store, u: Universe)
    requires SameCopy(u, w.mem) && Foreign(y, u)
    ensures Conclude(env, Beside(w, y)) == Along(Conclude(env, w), y)
  {
    forall item | item in w.mem.spec.items(ContainerCluster) ensures KeyOf(ContainerCluster, item) !in y {
      ItemInSpec(u.spec, ContainerCluster, item);
    }
    assert ClustersPresent(Beside(w, y)) == ClustersPresent(w);
    FinishBeside(env, w, y);
  }

  /** Two universes with different names and no resource in common, by description or by label. */
  ghost predicate Separate(s: Store, u: Universe, v: Universe) {
    && u.name != v.name
    && (forall k :: !(InSpec(u.spec, k) && InSpec(v.spec, k)))
    && (forall k | k in s && InSpec(v.spec, k) :: !OwnedBy(s[k].labels, u.name))
    && (forall k | k in s && InSpec(u.spec, k) :: !OwnedBy(s[k].labels, v.name))
  }

  ghost predicate Concerns(s: Store, u: Universe, k: Key) {
    k in s && (InSpec(u.spec, k) || OwnedBy(s[k].labels, u.name))
  }

  ghost function Own(s: Store, u: Universe): Store {
    map k | k in s && Concerns(s, u, k) :: s[k]
  }

  ghost function Rest(s: Store, u: Universe, v: Universe): Store {
    s - Own(s, u).Keys - Own(s, v).Keys
  }

  /** A store that a pass of u can make of its own resources in s, as far as v can see. */
  ghost predicate Result(s: Store, u: Universe, v: Universe, a: Store) {
    Foreign(a, v) && forall k | k in a :: k in Own(s, u) || InSpec(u.spec, k)
  }

  lemma OwnStaysForeign(env: Env, u: Universe, v: Universe, s: Store)
    requires Separate(s, u, v)
    ensures Result(s, u, v, Passed(env, u, Own(s, u)).cluster.store)
  {
    var c := Cluster(Own(s, u), Some(u));
    var w := WalkOf(env, c);
    WalkEffect(env, c);
    ConcludeKeepsStore(env, w);
    EvolvesToResult(env, Start(c), w, u, v, s);
  }

  lemma EvolvesToResult(env: Env, w: Walk, x: Walk, u: Universe, v: Universe, s: Store)
    requires Separate(s, u, v) && w.mem == u && w.store == Own(s, u) && Evolves(env, w, x)
    requires x.stop.Some? && x.stop.value.Created? ==> x.stop.value.key !in w.store
    ensures Result(s, u, v, x.store)
  {
    forall k | k in x.store
      ensures (k in w.store || InSpec(u.spec, k)) && !InSpec(v.spec, k) && !OwnedBy(x.store[k].labels, v.name)
    {
      assert k in w.store ==> Concerns(s, u, k);
    }
  }

  lemma Swap(a: Store, b: Store, c: Store)
    requires a.Keys !! b.Keys
    ensures a + (b + c) == b + (a + c)
  {
  }

  lemma RestIsSymmetric(s: Store, u: Universe, v: Universe)
    ensures Rest(s, u, v) == Rest(s, v, u)
  {
  }

  lemma OthersAreOthers(s: Store, u: Universe, v: Universe)
    requires Separate(s, u, v)
    ensures Own(s, v) + Rest(s, u, v) == s - Own(s, u).Keys
  {
    forall k | k in Own(s, v) ensures k !in Own(s, u) {
      assert Concerns(s, v, k);
    }
  }

  lemma OwnAndRest(s: Store, u: Universe)
    ensures s == Own(s, u) + (s - Own(s, u).Keys) && Foreign(s - Own(s, u).Keys, u)
  {
    forall k | k in s - Own(s, u).Keys ensures !Concerns(s, u, k) {
    }
  }

  /** The resources of u, those of v, and the rest. */
  lemma StoreSplits(s: Store, u: Universe, v: Universe)
    requires Separate(s, u, v)
    ensures var mine, others := Own(s, u), Own(s, v) + Rest(s, u, v);
            s == mine + others && Foreign(others, u) && mine.Keys !! others.Keys && mine.Keys !! Own(s, v).Keys
  {
    hide Own, Rest, Foreign, Separate;
    OthersAreOthers(s, u, v);
    OwnAndRest(s, u);
    assert forall k | k in Own(s, v) :: k in Own(s, v) + Rest(s, u, v);
  }

  /** What a pass of u made of its own resources stays apart from those of v and from the rest. */
  lemma ResultApart(s: Store, u: Universe, v: Universe, a: Store)
    requires Separate(s, u, v) && Result(s, u, v, a)
    ensures a.Keys !! Own(s, v).Keys && a.Keys !! Rest(s, u, v).Keys && Foreign(a + Rest(s, u, v), v)
  {
    StoreSplits(s, u, v);
    forall k | k in a ensures k !in Own(s, v) && k !in Rest(s, u, v) {
      assert k in s && InSpec(u.spec, k) ==> Concerns(s, u, k);
    }
    assert forall k | k in Rest(s, u, v) :: k in s && !Concerns(s, v, k);
  }

  lemma ResultsApart(s: Store, u: Universe, v: Universe, a: Store, b: Store)
    requires Separate(s, u, v) && Result(s, u, v, a) && Result(s, v, u, b)
    ensures a.Keys !! b.Keys
  {
    ResultApart(s, u, v, a);
    ResultApart(s, v, u, b);
  }

  /** The second of two passes works on its own resources as if the first had not happened. */
  lemma SecondPass(eu: Env, u: Universe, ev: Env, v: Universe, s: Store)
    requires Separate(s, u, v)
    ensures var a, b := Passed(eu, u, Own(s, u)).cluster.store, Passed(ev, v, Own(s, v));
            Passed(ev, v, Passed(eu, u, s).cluster.store) == Along(b, a + Rest(s, u, v))
  {
    var a, other, rest := Passed(eu, u, Own(s, u)).cluster.store, Own(s, v), Rest(s, u, v);
    OwnStaysForeign(eu, u, v, s);
    StoreSplits(s, u, v);
    ResultApart(s, u, v, a);
    Swap(a, other, rest);
    PassBeside(eu, u, Own(s, u), other + rest);
    PassBeside(ev, v, other, a + rest);
  }

  /** Passes of separate universes commute: on the store, and in what each of them returns and records. */
  lemma PassesCommute(eu: Env, u: Universe, ev: Env, v: Universe, s: Store)
    requires Separate(s, u, v)
    ensures Passed(ev, v, Passed(eu, u, s).cluster.store).cluster.store ==
            Passed(eu, u, Passed(ev, v, s).cluster.store).cluster.store
    ensures Passed(ev, v, Passed(eu, u, s).cluster.store).result == Passed(ev, v, s).result
    ensures Passed(ev, v, Passed(eu, u, s).cluster.store).cluster.universe == Passed(ev, v, s).cluster.universe
  {
    var a, b := Passed(eu, u, Own(s, u)).cluster.store, Passed(ev, v, Own(s, v)).cluster.store;
    var mine, rest := Own(s, u), Rest(s, u, v);
    SecondPass(eu, u, ev, v, s);
    SecondPass(ev, v, eu, u, s);
    OwnStaysForeign(eu, u, v, s);
    OwnStaysForeign(ev, v, u, s);
    RestIsSymmetric(s, u, v);
    ResultsApart(s, u, v, a, b);
    Swap(a, b, rest);
    StoreSplits(s, v, u);
    PassBeside(ev, v, Own(s, v), mine + rest);
  }

  /** A pass keeps two universes separate, so the passes of any interleaving do. */
  lemma StaySeparate(env: Env, u: Universe, v: Universe, s: Store)
    requires Separate(s, u, v)
    ensures Separate(Passed(env, u, s).cluster.store, u, v)
  {
    var c := Cluster(s, Some(u));
    WalkEffect(env, c);
    ConcludeKeepsStore(env, WalkOf(env, c));
    EvolvesSeparate(env, Start(c), WalkOf(env, c), v);
  }

  lemma EvolvesSeparate(env: Env, w: Walk, x: Walk, v: Universe)
    requires Evolves(env, w, x) && Separate(w.store, w.mem, v)
    requires x.stop.Some? && x.stop.value.Created? ==> x.stop.value.key !in w.store
    ensures Separate(x.store, w.mem, v)
  {
  }
}
