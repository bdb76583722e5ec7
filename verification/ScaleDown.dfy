/** Exactly what a pass deletes, and what scaling a spec down therefore leaves behind or takes away. */
module ScaleDown {
  import opened Base
  import opened Utils
  import opened Resources
  import opened Pass
  import opened Walking
  import opened Convergence
  import opened Lifecycle
  import Pruning

  // ---- What a pass deletes ---------------------------------------------------------------------------

  /** Two stores hold resources of the same keys and labels, as far as the given key is concerned. */
  ghost predicate SameLabels(s: Store, t: Store, k: Key) {
    (k in s <==> k in t) && (k in s && k in t ==> s[k].labels == t[k].labels)
  }

  /** What a block would delete depends on the keys and labels of its own kind, and of the key. */
  lemma DoomedDepends(env: Env, block: Kind, w: Walk, v: Walk, k: Key)
    requires SameCopy(w.mem, v.mem)
    requires forall j: Key | j.kind == block :: SameLabels(w.store, v.store, j)
    requires SameLabels(w.store, v.store, k)
    ensures k in Doomed(env, block, w) <==> k in Doomed(env, block, v)
  {
    assert Selected(w.store, block, w.mem.name) == Selected(v.store, block, v.mem.name) by {
      forall j ensures j in Selected(w.store, block, w.mem.name) <==> j in Selected(v.store, block, v.mem.name) {
        assert j.kind == block ==> SameLabels(w.store, v.store, j);
      }
    }
  }

  lemma EnsuringKeepsLabels(env: Env, kind: Kind, w: Walk, k: Key)
    requires w.stop.None? && EnsureItems(env, kind, w.mem.spec.items(kind), w).stop.None?
    ensures SameLabels(w.store, EnsureItems(env, kind, w.mem.spec.items(kind), w).store, k)
  {
    EnsureItemsEffect(env, kind, w.mem.spec.items(kind), w);
  }

  /** A block that does not stop deletes what it would delete from the store it starts with. */
  lemma BlockDeletes(env: Env, block: Kind, w: Walk, k: Key)
    requires w.stop.None? && Block(env, block, w).stop.None?
    ensures var v := Block(env, block, w);
            && (k in v.store <==> k in w.store && k !in Doomed(env, block, w))
            && (k in v.store && k in w.store ==> v.store[k].labels == w.store[k].labels)
            && SameCopy(w.mem, v.mem)
  {
    hide EnsureItems, Doomed;
    var x := EnsureItems(env, block, w.mem.spec.items(block), w);
    EnsureItemsEffect(env, block, w.mem.spec.items(block), w);
    forall j ensures SameLabels(w.store, x.store, j) {
      EnsuringKeepsLabels(env, block, w, j);
    }
    DoomedDepends(env, block, w, x, k);
  }

  lemma BlockLeaves(env: Env, block: Kind, w: Walk, later: Kind, k: Key)
    requires w.stop.None? && Block(env, block, w).stop.None? && PrunedKind(block) != later
    requires k in Block(env, block, w).store
    ensures k in Doomed(env, later, w) <==> k in Doomed(env, later, Block(env, block, w))
  {
    hide Block, Doomed;
    var v := Block(env, block, w);
    forall j: Key | j.kind == later || j == k ensures SameLabels(w.store, v.store, j) {
      BlockDeletes(env, block, w, j);
      DoomedKind(env, block, w, j);
    }
    BlockDeletes(env, block, w, k);
    DoomedDepends(env, later, w, v, k);
  }

  lemma DoomedKind(env: Env, block: Kind, w: Walk, k: Key)
    ensures k in Doomed(env, block, w) ==> k in w.store && k.kind == PrunedKind(block)
  {
  }

  /** Everything the spec describes of the first blocks, up to number i, is in the store. */
  ghost predicate Passed(blocks: seq<Kind>, i: nat, w: Walk)
    requires i < |blocks|
  {
    forall j, k | 0 <= j <= i && k in KeysOf(blocks[j], w.mem.spec.items(blocks[j])) :: k in w.store
  }

  lemma StoppedBlockDeletes(env: Env, block: Kind, w: Walk, k: Key)
    requires w.stop.None? && Block(env, block, w).stop.Some?
    ensures var v := Block(env, block, w);
            && (exists j :: j in KeysOf(block, w.mem.spec.items(block)) && j !in w.store)
            && (k in v.store <==> k in w.store || v.stop == Some(Created(k)))
  {
    hide EnsureItem;
    EnsureItemsEffect(env, block, w.mem.spec.items(block), w);
    FirstMissingIs(KeysOf(block, w.mem.spec.items(block)), w.store);
  }

  lemma FinishedBlockPassed(env: Env, block: Kind, w: Walk, k: Key)
    requires w.stop.None? && Block(env, block, w).stop.None? && k in KeysOf(block, w.mem.spec.items(block))
    ensures k in w.store
  {
    hide EnsureItems;
    BlockEffect(env, block, w);
    FirstMissingIs(KeysOf(block, w.mem.spec.items(block)), w.store);
  }

  /** The blocks that finish delete what they would each delete from the store the walk starts with;
      the block at which it stops, and those behind it, delete nothing. */
  ghost predicate Loses(env: Env, blocks: seq<Kind>, w: Walk, k: Key) {
    exists i | 0 <= i < |blocks| :: Passed(blocks, i, w) && k in Doomed(env, blocks[i], w)
  }

  lemma FirstOrLater(env: Env, blocks: seq<Kind>, w: Walk, x: Walk, k: Key)
    requires blocks != [] && SameCopy(w.mem, x.mem) && PruneLooksBack(blocks)
    requires forall j | j in KeysOf(blocks[0], w.mem.spec.items(blocks[0])) :: j in w.store
    requires forall j: Key | j.kind != PrunedKind(blocks[0]) :: j in x.store <==> j in w.store
    requires forall later | later in blocks[1..] :: k in Doomed(env, later, w) <==> k in Doomed(env, later, x)
    ensures Loses(env, blocks, w, k) <==> k in Doomed(env, blocks[0], w) || Loses(env, blocks[1..], x, k)
  {
    hide Doomed, PrunedKind;
    var rest := blocks[1..];
    forall i | 0 <= i < |rest| ensures Passed(rest, i, x) <==> Passed(blocks, i + 1, w) {
      assert forall j | 0 <= j <= i :: rest[j] == blocks[j + 1] && PrunedKind(blocks[0]) != blocks[j + 1];
    }
    assert Passed(blocks, 0, w);
    if k in Doomed(env, blocks[0], w) {
      assert Loses(env, blocks, w, k);
    }
    if Loses(env, rest, x, k) {
      var i :| 0 <= i < |rest| && Passed(rest, i, x) && k in Doomed(env, rest[i], x);
      assert Passed(blocks, i + 1, w) && blocks[i + 1] == rest[i];
    }
    if Loses(env, blocks, w, k) && k !in Doomed(env, blocks[0], w) {
      var i :| 0 <= i < |blocks| && Passed(blocks, i, w) && k in Doomed(env, blocks[i], w);
      assert rest[i - 1] == blocks[i] && Passed(rest, i - 1, x);
    }
  }

  lemma {:induction false} BlocksDelete(env: Env, blocks: seq<Kind>, w: Walk, k: Key)
    requires w.stop.None? && PruneLooksBack(blocks)
    ensures var v := Blocks(env, blocks, w);
            k in v.store <==> v.stop == Some(Created(k)) || (k in w.store && !Loses(env, blocks, w, k))
    decreases |blocks|
  {
    hide Block, Doomed, PrunedKind, Passed, Loses;
    if blocks == [] {
      NoBlocksLoseNothing(env, w, k);
    } else {
      var b, rest := blocks[0], blocks[1..];
      var x := Block(env, b, w);
      if x.stop.Some? {
        StoppedBlockDeletes(env, b, w, k);
        NothingLostWhenStopped(env, blocks, w, k);
      } else {
        OneBlockThenRest(env, blocks, w, k);
        BlockDeletes(env, b, w, k);
        BlocksDelete(env, rest, x, k);
      }
    }
  }

  lemma NoBlocksLoseNothing(env: Env, w: Walk, k: Key)
    ensures !Loses(env, [], w, k)
  {
  }

  lemma NothingLostWhenStopped(env: Env, blocks: seq<Kind>, w: Walk, k: Key)
    requires blocks != []
    requires exists j :: j in KeysOf(blocks[0], w.mem.spec.items(blocks[0])) && j !in w.store
    ensures !Loses(env, blocks, w, k)
  {
    hide Doomed;
    var j :| j in KeysOf(blocks[0], w.mem.spec.items(blocks[0])) && j !in w.store;
  }

  lemma OneBlockThenRest(env: Env, blocks: seq<Kind>, w: Walk, k: Key)
    requires blocks != [] && w.stop.None? && PruneLooksBack(blocks) && Block(env, blocks[0], w).stop.None?
    ensures var x := Block(env, blocks[0], w);
            k in x.store ==> (Loses(env, blocks, w, k) <==> k in Doomed(env, blocks[0], w) || Loses(env, blocks[1..], x, k))
    ensures k in Doomed(env, blocks[0], w) ==> Loses(env, blocks, w, k)
  {
    hide Block, Doomed, PrunedKind, Loses;
    var b, rest, x := blocks[0], blocks[1..], Block(env, blocks[0], w);
    forall j | j in KeysOf(b, w.mem.spec.items(b)) ensures j in w.store {
      FinishedBlockPassed(env, b, w, j);
    }
    BlockDeletes(env, b, w, k);
    FirstLoses(env, blocks, w, k);
    if k in x.store {
      forall j: Key | j.kind != PrunedKind(b) ensures j in x.store <==> j in w.store {
        BlockDeletes(env, b, w, j);
        DoomedKind(env, b, w, j);
      }
      forall later | later in rest ensures k in Doomed(env, later, w) <==> k in Doomed(env, later, x) {
        var j :| 0 <= j < |rest| && rest[j] == later;
        assert blocks[j + 1] == later;
        BlockLeaves(env, b, w, later, k);
      }
      FirstOrLater(env, blocks, w, x, k);
    }
  }

  lemma FirstLoses(env: Env, blocks: seq<Kind>, w: Walk, k: Key)
    requires blocks != [] && forall j | j in KeysOf(blocks[0], w.mem.spec.items(blocks[0])) :: j in w.store
    ensures k in Doomed(env, blocks[0], w) ==> Loses(env, blocks, w, k)
  {
    hide Doomed;
    assert Passed(blocks, 0, w);
  }

  /** Exactly which resources a pass leaves, whatever the API answers and wherever it stops: those that are not lost to
      one of the blocks it finished, each judged by the store the pass started with, and the one it created. */
  lemma PassDeletesExactly(env: Env, c: Cluster, k: Key)
    requires c.universe.Some?
    ensures k in Reconcile(env, c).cluster.store <==>
            WalkOf(env, c).stop == Some(Created(k)) || (k in c.store && !Loses(env, BLOCKS, Start(c), k))
  {
    hide Blocks, Loses;
    BlocksPruneLooksBack();
    BlocksDelete(env, BLOCKS, Start(c), k);
    ConcludeKeepsStore(env, WalkOf(env, c));
  }

  lemma CompletedPassLoses(env: Env, c: Cluster, k: Key)
    requires c.universe.Some? && WalkOf(env, c).stop.None?
    ensures Loses(env, BLOCKS, Start(c), k) <==> exists block :: k in Doomed(env, block, Start(c))
  {
    hide Blocks, Doomed, Flatten;
    var w := Start(c);
    WalkEffect(env, c);
    FirstMissingIs(Flatten(BLOCKS, w.mem.spec), c.store);
    forall i | 0 <= i < |BLOCKS| ensures Passed(BLOCKS, i, w) {
      forall j, key | 0 <= j <= i && key in KeysOf(BLOCKS[j], w.mem.spec.items(BLOCKS[j])) ensures key in w.store {
        FlattenBlocks(w.mem.spec, key);
      }
    }
    if block :| k in Doomed(env, block, w) {
      EveryKindHasABlock(block);
      var i :| 0 <= i < |BLOCKS| && BLOCKS[i] == block;
      assert Passed(BLOCKS, i, w) && k in Doomed(env, BLOCKS[i], w);
    }
  }

  // ---- The wiring, kind by kind ------------------------------------------------------------------------

  /** A block whose own kind is labelled more often than its spec lists it ranges over the listed resources of one kind
      and deletes those whose names are not in the spec of another. */
  ghost predicate Strikes(env: Env, c: Cluster, own: Kind, ranged: Kind, compared: Kind, k: Key)
    requires c.universe.Some?
  {
    var u := c.universe.value;
    && env.list(own) && |Selected(c.store, own, u.name)| > |u.spec.items(own)|
    && env.list(ranged) && k in c.store && k.kind == ranged && OwnedBy(c.store[k].labels, u.name)
    && k.name !in NamesOf(u.spec.items(compared)) && env.delete(own, k)
  }

  lemma DoomedStrikes(env: Env, c: Cluster, block: Kind, k: Key)
    requires c.universe.Some?
    ensures k in Doomed(env, block, Start(c)) <==> Strikes(env, c, block, PrunedKind(block), ComparedKind(block), k)
  {
  }

  /** Exactly which resources a pass that does not stop deletes, kind by kind as the ten blocks are wired,
      whatever the API answers. */
  lemma DeletedAsWired(env: Env, c: Cluster, k: Key)
    requires c.universe.Some? && WalkOf(env, c).stop.None?
    ensures k in c.store && k !in Reconcile(env, c).cluster.store <==>
      match k.kind
      case IAMServiceAccount => Strikes(env, c, IAMServiceAccount, IAMServiceAccount, IAMServiceAccount, k)
      case ComputeNetwork =>
        || Strikes(env, c, ComputeNetwork, ComputeNetwork, ComputeNetwork, k)
        || Strikes(env, c, ComputeSubnetwork, ComputeNetwork, ComputeSubnetwork, k)
      case ContainerCluster => Strikes(env, c, ContainerCluster, ContainerCluster, ContainerCluster, k)
      case ContainerNodePool => Strikes(env, c, ContainerNodePool, ContainerNodePool, ContainerNodePool, k)
      case SQLInstance =>
        || Strikes(env, c, SQLInstance, SQLInstance, SQLInstance, k)
        || Strikes(env, c, SQLDatabase, SQLInstance, SQLDatabase, k)
        || Strikes(env, c, ComputeRouter, SQLInstance, ComputeRouter, k)
      case ComputeRouterNAT => Strikes(env, c, ComputeRouterNAT, ComputeRouterNAT, ComputeRouter, k)
      case StorageBucket => Strikes(env, c, StorageBucket, StorageBucket, StorageBucket, k)
      case _ => false
  {
    hide WalkOf, Reconcile, Loses, Doomed;
    PassDeletesExactly(env, c, k);
    CompletedPassLoses(env, c, k);
    DoomedStrikes(env, c, k.kind, k);
    DoomedStrikes(env, c, ComputeSubnetwork, k);
    DoomedStrikes(env, c, SQLDatabase, k);
    DoomedStrikes(env, c, ComputeRouter, k);
    forall block | PrunedKind(block) != k.kind ensures k !in Doomed(env, block, Start(c)) {
      DoomedKind(env, block, Start(c), k);
    }
    forall block | PrunedKind(block) == k.kind
      ensures block == k.kind || (k.kind.ComputeNetwork? && block.ComputeSubnetwork?)
              || (k.kind.SQLInstance? && (block.SQLDatabase? || block.ComputeRouter?))
    {
    }
  }

  /** An SQL instance goes when the universe labels more routers, or more databases, than its spec has,
      and the name is no router's, or no database's. */
  lemma DroppedRouterDeletesInstances(env: Env, c: Cluster, k: Key)
    requires Reliable(env) && c.universe.Some? && WalkOf(env, c).stop.None?
    requires k.kind.SQLInstance? && k in c.store && OwnedBy(c.store[k].labels, c.universe.value.name)
    ensures var u, kept := c.universe.value, k in Reconcile(env, c).cluster.store;
            && (|Selected(c.store, ComputeRouter, u.name)| > |u.spec.items(ComputeRouter)| ==>
                  k.name !in NamesOf(u.spec.items(ComputeRouter)) ==> !kept)
            && (|Selected(c.store, SQLDatabase, u.name)| > |u.spec.items(SQLDatabase)| ==>
                  k.name !in NamesOf(u.spec.items(SQLDatabase)) ==> !kept)
  {
    hide WalkOf, Reconcile, Selected;
    DeletedAsWired(env, c, k);
  }

  /** Exactly which labelled resources outlive a reliable completed pass: those that every block ranging over their
      kind spares, because its own list is not longer than its spec or because it finds the name in the spec it
      compares with. */
  lemma SurvivesExactly(env: Env, c: Cluster, k: Key)
    requires Reliable(env) && c.universe.Some? && WalkOf(env, c).stop.None?
    requires k in Selected(c.store, k.kind, c.universe.value.name)
    ensures var u := c.universe.value;
            k in Reconcile(env, c).cluster.store <==> forall block | PrunedKind(block) == k.kind ::
              || |Selected(c.store, block, u.name)| <= |u.spec.items(block)|
              || k.name in NamesOf(u.spec.items(ComparedKind(block)))
  {
    assert k in c.store;
    hide WalkOf, Doomed, Reconcile, Loses;
    PassDeletesExactly(env, c, k);
    CompletedPassLoses(env, c, k);
    forall block { DoomedStrikes(env, c, block, k); }
  }

  /** A NAT that the spec has dropped outlives every pass as long as the spec has a router of its name. */
  lemma DroppedNatStays(env: Env, c: Cluster, k: Key)
    requires k.kind.ComputeRouterNAT? && k in c.store
    requires c.universe.Some? ==> k.name in NamesOf(c.universe.value.spec.items(ComputeRouter))
    ensures k in Reconcile(env, c).cluster.store
  {
    hide Reconcile;
    PassKeepsUnprunable(env, c, k);
  }

  // ---- A run in which scaling down does harm -----------------------------------------------------------

  /** Everything in the store carries the name of the universe. */
  ghost predicate OnlyOwn(c: Cluster, name: string) {
    && (c.universe.Some? ==> c.universe.value.name == name)
    && (forall k | k in c.store :: OwnedBy(c.store[k].labels, name))
  }

  lemma ConcludeKeepsName(env: Env, w: Walk)
    requires Coherent(env, w)
    ensures var u := Conclude(env, w).cluster.universe; u.Some? ==> u.value.name == w.mem.name
  {
  }

  lemma EvolvesOnlyOwn(env: Env, w: Walk, v: Walk, k: Key)
    requires Evolves(env, w, v) && k in v.store
    requires forall j | j in w.store :: OwnedBy(w.store[j].labels, w.mem.name)
    requires v.stop.Some? ==> v.stop.value.key !in w.store
    ensures OwnedBy(v.store[k].labels, w.mem.name)
  {
    hide OwnedBy, Coherent, InSpec, Prunable;
  }

  lemma PassKeepsOnlyOwn(env: Env, c: Cluster, name: string)
    requires OnlyOwn(c, name)
    ensures OnlyOwn(Reconcile(env, c).cluster, name)
  {
    if c.universe.Some? {
      hide WalkOf, Conclude, Evolves, Coherent, OwnedBy;
      WalkEffect(env, c);
      ConcludeKeepsStore(env, WalkOf(env, c));
      ConcludeKeepsName(env, WalkOf(env, c));
      forall k | k in WalkOf(env, c).store ensures OwnedBy(WalkOf(env, c).store[k].labels, name) {
        EvolvesOnlyOwn(env, Start(c), WalkOf(env, c), k);
      }
    }
  }

  lemma {:induction false} RunKeepsOnlyOwn(envs: seq<Env>, c: Cluster, name: string, i: nat)
    requires OnlyOwn(c, name) && i <= |envs|
    ensures OnlyOwn(Trace(envs, c)[i], name)
    decreases i
  {
    hide Reconcile, OnlyOwn;
    if i > 0 {
      PassKeepsOnlyOwn(envs[0], c, name);
      RunKeepsOnlyOwn(envs[1..], Reconcile(envs[0], c).cluster, name, i - 1);
    }
  }

  lemma OwnedAreSelected(store: Store, owner: string, spec: Spec, kind: Kind)
    requires DistinctKeys(spec)
    requires forall k | k in KeysOf(kind, spec.items(kind)) :: k in store && OwnedBy(store[k].labels, owner)
    ensures |Selected(store, kind, owner)| >= |spec.items(kind)|
  {
    var keys := KeysOf(kind, spec.items(kind));
    Pruning.DistinctRange(keys);
    forall k | k in Range(keys) ensures k in Selected(store, kind, owner) {
    }
    SubsetSize(Range(keys), Selected(store, kind, owner));
  }

  /** The same spec with fewer subnetworks. */
  ghost predicate FewerSubnetworks(spec: Spec, edited: Spec) {
    && (forall kind: Kind | !kind.ComputeSubnetwork? :: edited.items(kind) == spec.items(kind))
    && (forall item | item in edited.items(ComputeSubnetwork) :: item in spec.items(ComputeSubnetwork))
    && |edited.items(ComputeSubnetwork)| < |spec.items(ComputeSubnetwork)|
  }

  lemma FewerInSpec(spec: Spec, edited: Spec, k: Key)
    requires FewerSubnetworks(spec, edited) && InSpec(edited, k)
    ensures InSpec(spec, k)
  {
    var items := edited.items(k.kind);
    var i :| 0 <= i < |items| && KeysOf(k.kind, items)[i] == k;
    assert items[i] in items;
    ItemInSpec(spec, k.kind, items[i]);
  }

  /** In a complete cluster that holds only the universe's own resources, the pass after the edit deletes the network. */
  lemma EditDeletesNetwork(env: Env, c: Cluster, edited: Spec, network: Item)
    requires Reliable(env) && Complete(c) && OnlyOwn(c, c.universe.value.name) && DistinctKeys(c.universe.value.spec)
    requires FewerSubnetworks(c.universe.value.spec, edited)
    requires network in edited.items(ComputeNetwork) && network.name !in NamesOf(edited.items(ComputeSubnetwork))
    ensures var key, d := KeyOf(ComputeNetwork, network), Next(Acted(SetSpec(edited)), c);
            InSpec(edited, key) && key in d.store && key !in Reconcile(env, d).cluster.store
  {
    hide Blocks, Flatten, NamesAgreeEverywhere, FewerSubnetworks;
    var u, key, d := c.universe.value, KeyOf(ComputeNetwork, network), Next(Acted(SetSpec(edited)), c);
    forall k | InSpec(u.spec, k) ensures k in c.store {
      FlattenBlocks(u.spec, k);
      assert k !in Missing(c);
    }
    forall k | k in Flatten(BLOCKS, edited) ensures k in d.store {
      FlattenBlocks(edited, k);
      FewerInSpec(u.spec, edited, k);
    }
    FirstMissingIs(Flatten(BLOCKS, edited), d.store);
    WalkEffect(env, d);
    ItemInSpec(edited, ComputeNetwork, network);
    FewerInSpec(u.spec, edited, key);
    SubnetworksOutnumber(c, edited);
    assert Strikes(env, d, ComputeSubnetwork, ComputeNetwork, ComputeSubnetwork, key);
    DeletedAsWired(env, d, key);
  }

  lemma SubnetworksOutnumber(c: Cluster, edited: Spec)
    requires c.universe.Some? && DistinctKeys(c.universe.value.spec) && OnlyOwn(c, c.universe.value.name)
    requires forall k | InSpec(c.universe.value.spec, k) :: k in c.store
    requires FewerSubnetworks(c.universe.value.spec, edited)
    ensures |Selected(c.store, ComputeSubnetwork, c.universe.value.name)| > |edited.items(ComputeSubnetwork)|
  {
    var spec := c.universe.value.spec;
    forall k | k in KeysOf(ComputeSubnetwork, spec.items(ComputeSubnetwork)) ensures InSpec(spec, k) {
    }
    OwnedAreSelected(c.store, c.universe.value.name, spec, ComputeSubnetwork);
  }

  /** Dropping a subnetwork takes down the network of its name. The run starts with an empty store and a spec whose
      names agree; passes create everything and one completes; the user drops subnetworks, among them the only one
      with a network's name; the next pass deletes that network, which the spec still describes. */
  lemma DroppingSubnetworkDeletesNetwork(u: Universe, envs: seq<Env>, edited: Spec, network: Item, env: Env)
    requires !u.terminating && NamesAgreeEverywhere(u.spec) && DistinctKeys(u.spec)
    requires |envs| == |Missing(Cluster(map[], Some(u)))| + 1
    requires Reliable(env) && forall e | e in envs :: Reliable(e) && !Expired(u, e.second)
    requires FewerSubnetworks(u.spec, edited)
    requires network in edited.items(ComputeNetwork) && network.name !in NamesOf(edited.items(ComputeSubnetwork))
    ensures var c, key := Trace(envs, Cluster(map[], Some(u)))[|envs|], KeyOf(ComputeNetwork, network);
            var d := Next(Acted(SetSpec(edited)), c);
            && Complete(c) && c.universe.value.spec == u.spec
            && InSpec(edited, key) && key in d.store && key !in Reconcile(env, d).cluster.store
  {
    hide Reconcile, Missing, Trace, NamesAgreeEverywhere, FewerSubnetworks;
    var start := Cluster(map[], Some(u));
    Converges(envs, start, |envs| - 1);
    RunKeepsOnlyOwn(envs, start, u.name, |envs|);
    EditDeletesNetwork(env, Trace(envs, start)[|envs|], edited, network);
  }

  function SubnetworksOf(network: Item, subnetworks: seq<Item>): Spec {
    Spec((kind: Kind) =>
           if kind.ComputeNetwork? then [network] else if kind.ComputeSubnetwork? then subnetworks else [], 86400)
  }

  /** A network, a subnetwork of its name and another subnetwork are enough. */
  lemma TwoSubnetworksAreEnough(network: Item, a: Item, b: Item)
    requires network.name == b.name != a.name
    ensures var spec, edited := SubnetworksOf(network, [a, b]), SubnetworksOf(network, [a]);
            && NamesAgreeEverywhere(spec) && DistinctKeys(spec) && FewerSubnetworks(spec, edited)
            && network in edited.items(ComputeNetwork) && network.name !in NamesOf(edited.items(ComputeSubnetwork))
  {
    var spec := SubnetworksOf(network, [a, b]);
    assert b in spec.items(ComputeSubnetwork);
    assert NamesOf(spec.items(ComputeNetwork)) == {network.name};
    forall block ensures NamesAgree(spec, block) {
    }
  }
}
