/** Runs of passes over a fixed spec: the order of creation, and convergence. */
module Convergence {
  import opened Base
  import opened Resources
  import opened Pass
  import opened Walking

  function Range(keys: seq<Key>): set<Key> {
    set k | k in keys
  }

  /** The states of a run of passes, one more than there are passes. */
  function Trace(envs: seq<Env>, c: Cluster): seq<Cluster>
    ensures |Trace(envs, c)| == |envs| + 1
    ensures Trace(envs, c)[0] == c
    decreases |envs|
  {
    if envs == [] then [c] else [c] + Trace(envs[1..], Reconcile(envs[0], c).cluster)
  }

  lemma {:induction false} TraceStep(envs: seq<Env>, c: Cluster, i: nat)
    requires i < |envs|
    ensures Trace(envs, c)[i + 1] == Reconcile(envs[i], Trace(envs, c)[i]).cluster
  {
    if i > 0 {
      TraceStep(envs[1..], Reconcile(envs[0], c).cluster, i - 1);
    }
  }

  /** Whatever follows the blocks leaves the resources alone. */
  lemma ConcludeKeepsStore(env: Env, w: Walk)
    ensures Conclude(env, w).cluster.store == w.store
  {
  }

  // ---- Prune safety -------------------------------------------------------------------------------

  /** A pass deletes nothing that no block may prune. */
  lemma PassKeepsUnprunable(env: Env, c: Cluster, k: Key)
    requires k in c.store && (c.universe.Some? ==> !Prunable(c.universe.value.spec, k))
    ensures k in Reconcile(env, c).cluster.store
  {
    if c.universe.Some? {
      WalkEffect(env, c);
      ConcludeKeepsStore(env, WalkOf(env, c));
    }
  }

  lemma InSpecNamed(spec: Spec, k: Key)
    requires InSpec(spec, k)
    ensures k.name in NamesOf(spec.items(k.kind))
  {
    var items := spec.items(k.kind);
    var i :| 0 <= i < |items| && KeysOf(k.kind, items)[i] == k;
    assert items[i] in items;
  }

  lemma SpecKeyUnprunable(spec: Spec, k: Key)
    requires NamesAgreeEverywhere(spec) && InSpec(spec, k)
    ensures !Prunable(spec, k)
  {
    InSpecNamed(spec, k);
    assert forall b | PrunedKind(b) == k.kind :: NamesAgree(spec, b);
  }

  /** When the names agree, no block of any pass deletes a resource that the spec describes,
      although several blocks range over another kind's list. */
  lemma PassKeepsSpecKeys(env: Env, c: Cluster, k: Key)
    requires c.universe.Some? && NamesAgreeEverywhere(c.universe.value.spec)
    requires InSpec(c.universe.value.spec, k) && k in c.store
    ensures k in Reconcile(env, c).cluster.store
  {
    SpecKeyUnprunable(c.universe.value.spec, k);
    PassKeepsUnprunable(env, c, k);
  }

  /** The kinds in some block's prune range. */
  lemma PrunedKinds(kind: Kind)
    ensures (exists block :: PrunedKind(block) == kind) <==>
            !(kind.ComputeSubnetwork? || kind.SQLDatabase? || kind.ComputeRouter?)
  {
    if !(kind.ComputeSubnetwork? || kind.SQLDatabase? || kind.ComputeRouter?) {
      assert PrunedKind(kind) == kind;
    }
  }

  /** Three kinds are in no block's prune range: what a spec drops of them stays in the cluster for ever. */
  lemma ScaleDownIgnored(env: Env, c: Cluster, k: Key)
    requires k.kind.ComputeSubnetwork? || k.kind.SQLDatabase? || k.kind.ComputeRouter?
    requires k in c.store
    ensures k in Reconcile(env, c).cluster.store
  {
    PrunedKinds(k.kind);
    PassKeepsUnprunable(env, c, k);
  }

  // ---- Dependency order ---------------------------------------------------------------------------

  lemma {:induction false} RangeSize(keys: seq<Key>)
    ensures |Range(keys)| <= |keys|
  {
    if keys != [] {
      RangeSize(keys[1..]);
      assert Range(keys) == {keys[0]} + Range(keys[1..]);
    }
  }

  /** In a store that holds nothing but resources of the spec no list is longer than its spec. */
  lemma NothingDoomed(env: Env, block: Kind, w: Walk)
    requires forall k | k in w.store :: InSpec(w.mem.spec, k)
    ensures Doomed(env, block, w) == {}
  {
    var keys := KeysOf(block, w.mem.spec.items(block));
    RangeSize(keys);
    assert Listed(env, w, block) <= Range(keys);
    SubsetSize(Listed(env, w, block), Range(keys));
  }

  lemma {:induction false} SubsetSize<T>(a: set<T>, b: set<T>)
    requires a <= b
    ensures |a| <= |b|
    ensures |a| == |b| ==> a == b
  {
    assert b == a + (b - a);
    assert |b| == |a| + |b - a|;
  }

  lemma {:induction false} BlocksKeepKeys(env: Env, blocks: seq<Kind>, w: Walk)
    requires w.stop.None? && forall k | k in w.store :: InSpec(w.mem.spec, k)
    ensures w.store.Keys <= Blocks(env, blocks, w).store.Keys
    decreases |blocks|
  {
    if blocks != [] {
      var x := EnsureItems(env, blocks[0], w.mem.spec.items(blocks[0]), w);
      EnsureItemsEffect(env, blocks[0], w.mem.spec.items(blocks[0]), w);
      if x.stop.None? {
        assert x.store.Keys == w.store.Keys;
        NothingDoomed(env, blocks[0], x);
        assert Prune(env, blocks[0], x).store == x.store;
        BlocksKeepKeys(env, blocks[1..], Prune(env, blocks[0], x));
      }
    }
  }

  lemma {:induction false} FirstMissingPosition(keys: seq<Key>, store: Store) returns (j: nat)
    requires FirstMissing(keys, store).Some?
    ensures j < |keys| && keys[j] == FirstMissing(keys, store).value && keys[j] !in store
    ensures forall i | 0 <= i < j :: keys[i] in store
  {
    if keys[0] !in store {
      j := 0;
    } else {
      j := FirstMissingPosition(keys[1..], store);
      j := j + 1;
    }
  }

  /** The store is exactly the resources of the first n keys in the order of the spec. */
  ghost predicate IsPrefix(c: Cluster, order: seq<Key>, n: nat) {
    n <= |order| && c.store.Keys == Range(order[..n])
  }

  lemma PrefixGrows(order: seq<Key>, keys: set<Key>, n: nat, j: nat)
    requires n <= |order| && keys == Range(order[..n])
    requires j < |order| && order[j] !in keys && forall i | 0 <= i < j :: order[i] in keys
    ensures n <= j && keys + {order[j]} == Range(order[..j + 1])
  {
    forall i | 0 <= i < n ensures order[i] in keys {
      assert order[..n][i] == order[i];
    }
    assert order[..j + 1] == order[..j] + [order[j]];
    assert order[..j] == order[..n] + order[n..j];
    assert forall k | k in order[..j] :: k in keys;
  }

  /** From a store that holds nothing but resources of the spec a pass adds at most the first missing one. */
  lemma PassAddsFirstMissing(env: Env, c: Cluster)
    requires c.universe.Some? && forall k | k in c.store :: InSpec(c.universe.value.spec, k)
    ensures var first := FirstMissing(Flatten(BLOCKS, c.universe.value.spec), c.store);
            var store' := Reconcile(env, c).cluster.store;
            store'.Keys == if first.Some? && env.create(first.value) then c.store.Keys + {first.value} else c.store.Keys
  {
    WalkEffect(env, c);
    ConcludeKeepsStore(env, WalkOf(env, c));
    BlocksKeepKeys(env, BLOCKS, Start(c));
  }

  /** One pass, whichever of its calls fail, extends the prefix by nothing or up to one new key. */
  lemma PassExtendsPrefix(env: Env, c: Cluster, order: seq<Key>, n: nat) returns (m: nat)
    requires c.universe.Some? ==> order == Flatten(BLOCKS, c.universe.value.spec)
    requires IsPrefix(c, order, n)
    ensures n <= m && IsPrefix(Reconcile(env, c).cluster, order, m)
  {
    m := n;
    if c.universe.Some? {
      forall k | k in c.store ensures InSpec(c.universe.value.spec, k) {
        FlattenBlocks(c.universe.value.spec, k);
      }
      PassAddsFirstMissing(env, c);
      if FirstMissing(order, c.store).Some? && env.create(FirstMissing(order, c.store).value) {
        var j := FirstMissingPosition(order, c.store);
        PrefixGrows(order, c.store.Keys, n, j);
        m := j + 1;
      }
    }
  }

  /** From an empty store and with nobody editing the spec, every state of every run of passes holds
      exactly a prefix of the spec's resources, even when calls fail. */
  lemma {:induction false} CreationFollowsSpecOrder(envs: seq<Env>, c: Cluster, order: seq<Key>, n: nat, i: nat)
    returns (m: nat)
    requires forall e | e in envs :: e.interrupt.Some? ==> e.interrupt.value.action.RequestDeletion?
    requires c.universe.Some? ==> order == Flatten(BLOCKS, c.universe.value.spec)
    requires IsPrefix(c, order, n) && i <= |envs|
    ensures n <= m && IsPrefix(Trace(envs, c)[i], order, m)
    decreases i
  {
    m := n;
    if i > 0 {
      m := PassExtendsPrefix(envs[0], c, order, n);
      SpecStays(envs[0], c);
      m := CreationFollowsSpecOrder(envs[1..], Reconcile(envs[0], c).cluster, order, m, i - 1);
    }
  }

  lemma SpecStays(env: Env, c: Cluster)
    requires env.interrupt.Some? ==> env.interrupt.value.action.RequestDeletion?
    ensures var u := Reconcile(env, c).cluster.universe;
            u.Some? ==> c.universe.Some? && u.value.spec == c.universe.value.spec
  {
    if c.universe.Some? {
      WalkEffect(env, c);
      ConcludeKeepsSpec(env, WalkOf(env, c));
    }
  }

  lemma ConcludeKeepsSpec(env: Env, w: Walk)
    requires env.interrupt.Some? ==> env.interrupt.value.action.RequestDeletion?
    requires Coherent(env, w)
    ensures var u := Conclude(env, w).cluster.universe; u.Some? ==> u.value.spec == w.mem.spec
  {
  }

  /** In a prefix no resource of a later block is present before all resources of an earlier block. */
  lemma {:induction false} PrefixOrdersBlocks(blocks: seq<Kind>, spec: Spec, n: nat, i: nat, j: nat, early: Key, late: Key)
    requires n <= |Flatten(blocks, spec)| && i < j < |blocks|
    requires forall x, y | 0 <= x < y < |blocks| :: blocks[x] != blocks[y]
    requires early.kind == blocks[i] && InSpec(spec, early)
    requires late.kind == blocks[j] && late in Flatten(blocks, spec)[..n]
    ensures early in Flatten(blocks, spec)[..n]
  {
    var head, tail := KeysOf(blocks[0], spec.items(blocks[0])), Flatten(blocks[1..], spec);
    var p :| 0 <= p < n && Flatten(blocks, spec)[p] == late;
    assert p >= |head|;
    assert Flatten(blocks, spec)[..n] == head + tail[..n - |head|];
    assert tail[p - |head|] == late;
    if i > 0 {
      assert late == tail[..n - |head|][p - |head|];
      PrefixOrdersBlocks(blocks[1..], spec, n - |head|, i - 1, j - 1, early, late);
    }
  }

  /** Whose turn it is when. */
  function Turn(kind: Kind): nat {
    match kind
    case IAMServiceAccount => 0
    case ComputeNetwork => 1
    case ComputeSubnetwork => 2
    case ContainerCluster => 3
    case ContainerNodePool => 4
    case SQLInstance => 5
    case SQLDatabase => 6
    case ComputeRouter => 7
    case ComputeRouterNAT => 8
    case StorageBucket => 9
  }

  lemma BlocksInTurn(kind: Kind)
    ensures Turn(kind) < |BLOCKS| == 10 && BLOCKS[Turn(kind)] == kind
    ensures forall x, y | 0 <= x < y < |BLOCKS| :: BLOCKS[x] != BLOCKS[y]
  {
  }

  /** From an empty store and with nobody editing the spec, in every state of every run of passes, even when calls fail:
      when a resource is there, so is everything the spec describes of the kinds whose turn comes before. */
  lemma EarlierKindsExist(envs: seq<Env>, c: Cluster, i: nat, early: Key, late: Key)
    requires forall e | e in envs :: e.interrupt.Some? ==> e.interrupt.value.action.RequestDeletion?
    requires c.universe.Some? && c.store == map[] && i <= |envs|
    requires late in Trace(envs, c)[i].store && InSpec(c.universe.value.spec, early)
    requires Turn(early.kind) < Turn(late.kind)
    ensures early in Trace(envs, c)[i].store
  {
    hide Reconcile, Trace, Flatten;
    var spec := c.universe.value.spec;
    var order := Flatten(BLOCKS, spec);
    assert c.store.Keys == Range(order[..0]);
    var n := CreationFollowsSpecOrder(envs, c, order, 0, i);
    BlocksInTurn(early.kind);
    BlocksInTurn(late.kind);
    PrefixOrdersBlocks(BLOCKS, spec, n, Turn(early.kind), Turn(late.kind), early, late);
  }

  /** The same for the kinds that refer to others. */
  lemma CreationOrder(envs: seq<Env>, c: Cluster, i: nat, early: Key, late: Key)
    requires forall e | e in envs :: e.interrupt.Some? ==> e.interrupt.value.action.RequestDeletion?
    requires c.universe.Some? && c.store == map[] && i <= |envs|
    requires late in Trace(envs, c)[i].store && InSpec(c.universe.value.spec, early)
    ensures late.kind.ComputeSubnetwork? && early.kind.ComputeNetwork? ==> early in Trace(envs, c)[i].store
    ensures late.kind.ContainerCluster? && early.kind.ComputeSubnetwork? ==> early in Trace(envs, c)[i].store
    ensures late.kind.ContainerNodePool? && early.kind.ContainerCluster? ==> early in Trace(envs, c)[i].store
    ensures late.kind.SQLDatabase? && early.kind.SQLInstance? ==> early in Trace(envs, c)[i].store
    ensures late.kind.ComputeRouter? && early.kind.ComputeNetwork? ==> early in Trace(envs, c)[i].store
    ensures late.kind.ComputeRouterNAT? && early.kind.ComputeRouter? ==> early in Trace(envs, c)[i].store
  {
    if Turn(early.kind) < Turn(late.kind) {
      EarlierKindsExist(envs, c, i, early, late);
    }
  }

  // ---- Convergence --------------------------------------------------------------------------------

  ghost predicate Reliable(env: Env) {
    && env.interrupt.None?
    && (forall kind :: env.list(kind))
    && (forall k :: env.create(k))
    && (forall block, k :: env.delete(block, k))
  }

  // Answers under which everything succeeds and nobody interferes.
  ghost const ALL_OK := Env(_ => true, _ => true, (_, _) => true, _ => true, None, 0, true)

  ghost function Missing(c: Cluster): set<Key>
    requires c.universe.Some?
  {
    set k | k in Flatten(BLOCKS, c.universe.value.spec) && k !in c.store
  }

  ghost predicate Alive(c: Cluster) {
    c.universe.Some? && !c.universe.value.terminating && NamesAgreeEverywhere(c.universe.value.spec)
  }

  /** A pass added one resource that was missing and changed nothing else that the spec describes. */
  ghost predicate CreatesOne(c: Cluster, d: Cluster)
    requires c.universe.Some? && d.universe.Some?
  {
    exists k | k in Missing(c) :: Missing(d) == Missing(c) - {k} && d.store.Keys <= c.store.Keys + {k}
  }

  ghost predicate CreatingPass(env: Env, c: Cluster, d: Cluster) {
    && c.universe.Some? && d.universe.Some?
    && Reconcile(env, c) == Outcome(d, Requeue) && CreatesOne(c, d)
  }

  ghost predicate Complete(c: Cluster) {
    && Alive(c) && c.universe.value.finalizer && c.universe.value.observed == c.universe.value.generation
    && Missing(c) == {}
  }

  /** A reliable pass over a spec with missing resources creates exactly one of them and asks to be requeued. */
  lemma PassCreatesOne(env: Env, c: Cluster)
    requires Reliable(env) && Alive(c) && Missing(c) != {}
    ensures var o := Reconcile(env, c);
            && o.result == Requeue && o.cluster.universe.Some?
            && SameCopy(c.universe.value, o.cluster.universe.value)
            && CreatesOne(c, o.cluster) && |Missing(o.cluster)| == |Missing(c)| - 1
  {
    var o, spec := Reconcile(env, c), c.universe.value.spec;
    var order := Flatten(BLOCKS, spec);
    WalkEffect(env, c);
    FirstMissingIs(order, c.store);
    var k := FirstMissing(order, c.store).value;
    assert k in Missing(c);
    assert WalkOf(env, c).stop == Some(Created(k));
    forall s | s in order && s in c.store ensures s in o.cluster.store {
      FlattenBlocks(spec, s);
      PassKeepsSpecKeys(env, c, s);
    }
    assert Missing(o.cluster) == Missing(c) - {k};
  }

  /** A reliable pass with nothing missing reaches the end, adds the finalizer and records the generation. */
  lemma PassCompletes(env: Env, c: Cluster)
    requires Reliable(env) && Alive(c) && Missing(c) == {} && !Expired(c.universe.value, env.second)
    ensures var o := Reconcile(env, c);
            && o.result == Done && ReachesEnd(env, c) && Complete(o.cluster)
            && o.cluster.universe.value.generation == c.universe.value.generation
  {
    var o, spec := Reconcile(env, c), c.universe.value.spec;
    WalkEffect(env, c);
    FirstMissingIs(Flatten(BLOCKS, spec), c.store);
    forall k | k in Flatten(BLOCKS, spec) ensures k in c.store && k in o.cluster.store {
      assert k !in Missing(c);
      FlattenBlocks(spec, k);
      PassKeepsSpecKeys(env, c, k);
    }
    forall item | item in spec.items(ContainerCluster) ensures KeyOf(ContainerCluster, item) in WalkOf(env, c).store {
      ItemInSpec(spec, ContainerCluster, item);
      FlattenBlocks(spec, KeyOf(ContainerCluster, item));
      ConcludeKeepsStore(env, WalkOf(env, c));
    }
  }

  ghost predicate CompletingPass(env: Env, c: Cluster, d: Cluster) {
    Reconcile(env, c) == Outcome(d, Done) && Complete(d)
  }

  /** With m resources missing, each of the next m passes creates one and the pass after them completes. */
  lemma {:induction false} Converges(envs: seq<Env>, c: Cluster, i: nat)
    requires Alive(c) && i <= |Missing(c)| < |envs|
    requires forall e | e in envs :: Reliable(e) && !Expired(c.universe.value, e.second)
    ensures var run := Trace(envs, c);
            && (i < |Missing(c)| ==> CreatingPass(envs[i], run[i], run[i + 1]))
            && (i == |Missing(c)| ==> CompletingPass(envs[i], run[i], run[i + 1]))
            && run[i + 1].universe.Some? && run[i + 1].universe.value.spec == c.universe.value.spec
            && run[i + 1].universe.value.generation == c.universe.value.generation
    decreases i
  {
    hide Reconcile, Missing;
    var d := Reconcile(envs[0], c).cluster;
    if Missing(c) == {} {
      PassCompletes(envs[0], c);
    } else {
      PassCreatesOne(envs[0], c);
    }
    SpecStays(envs[0], c);
    if i > 0 {
      Converges(envs[1..], d, i - 1);
    } else {
      TraceStep(envs, c, 0);
    }
  }
}
