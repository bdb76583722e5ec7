/** Exactly which specs are safe from the way the prune blocks are wired. */
module Wiring {
  import opened Base
  import opened Utils
  import opened Resources
  import opened Pass
  import opened Walking
  import opened Convergence
  import opened Isolation
  import Pruning

  /** No pass of the universe, over any store and with any answers of the API server,
      deletes a resource that its spec describes. */
  ghost predicate PruneSafe(u: Universe) {
    forall env, store, k :: InSpec(u.spec, k) && k in store ==> k in Passed(env, u, store).cluster.store
  }

  function Pad(n: nat): string {
    seq(n, _ => 'x')
  }

  function Padded(kind: Kind, n: nat): seq<Key>
    ensures |Padded(kind, n)| == n
  {
    seq(n, i requires 0 <= i < n => Key(kind, Pad(i), "x"))
  }

  /** A store with every resource of the spec and more resources of one kind than the spec has, all labelled. */
  ghost function Crowded(u: Universe, kind: Kind): Store {
    map k | k in CrowdedKeys(u, kind) :: Resource(LabelSelector(u.name), map[], map[])
  }

  ghost function CrowdedKeys(u: Universe, kind: Kind): set<Key> {
    Range(Flatten(BLOCKS, u.spec)) + Range(Padded(kind, |u.spec.items(kind)| + 1))
  }

  lemma PaddedAreDistinct(kind: Kind, n: nat)
    ensures |Range(Padded(kind, n))| == n
  {
    var keys := Padded(kind, n);
    forall i, j | 0 <= i < j < n ensures keys[i] != keys[j] {
      assert |Pad(i)| == i && |Pad(j)| == j;
    }
    Pruning.DistinctRange(keys);
  }

  lemma CrowdedIsLabelled(u: Universe, kind: Kind, k: Key)
    requires k in CrowdedKeys(u, kind)
    ensures k in Crowded(u, kind) && OwnedBy(Crowded(u, kind)[k].labels, u.name)
  {
  }

  lemma CrowdedIsLonger(u: Universe, kind: Kind)
    ensures |Selected(Crowded(u, kind), kind, u.name)| > |u.spec.items(kind)|
  {
    var n := |u.spec.items(kind)| + 1;
    PaddedAreDistinct(kind, n);
    forall k | k in Range(Padded(kind, n)) ensures k in Selected(Crowded(u, kind), kind, u.name) {
      CrowdedIsLabelled(u, kind, k);
    }
    SubsetSize(Range(Padded(kind, n)), Selected(Crowded(u, kind), kind, u.name));
  }

  /** A block stands in danger of deleting the victim: its own list is too long, and its prune would not spare it. */
  ghost predicate Endangers(block: Kind, w: Walk, victim: Key) {
    && PrunedKind(block) == victim.kind && PrunedKind(block) != ComparedKind(block)
    && victim.name !in NamesOf(w.mem.spec.items(ComparedKind(block)))
    && |Selected(w.store, block, w.mem.name)| > |w.mem.spec.items(block)|
    && (victim in w.store ==> OwnedBy(w.store[victim].labels, w.mem.name))
  }

  lemma SameSelected(s: Store, t: Store, kind: Kind, owner: string)
    requires forall k: Key | k.kind == kind :: k in s <==> k in t
    requires forall k | k in s && k in t :: t[k].labels == s[k].labels
    ensures Selected(t, kind, owner) == Selected(s, kind, owner)
  {
  }

  lemma EnsuringKeepsDanger(env: Env, h: Kind, w: Walk, block: Kind, victim: Key)
    requires w.stop.None? && Endangers(block, w, victim)
    ensures var x := EnsureItems(env, h, w.mem.spec.items(h), w);
            x.stop.None? ==> Endangers(block, x, victim)
  {
    var x := EnsureItems(env, h, w.mem.spec.items(h), w);
    EnsureItemsEffect(env, h, w.mem.spec.items(h), w);
    if x.stop.None? {
      SameSelected(w.store, x.store, block, w.mem.name);
    }
  }

  lemma DangerStrikes(env: Env, w: Walk, block: Kind, victim: Key)
    requires Reliable(env) && Endangers(block, w, victim)
    ensures victim !in Prune(env, block, w).store
  {
    assert victim in w.store ==> victim in Doomed(env, block, w);
  }

  /** A block that compares with another kind than it prunes is of a kind that no other block prunes. */
  lemma DangerLasts(env: Env, h: Kind, w: Walk, block: Kind, victim: Key)
    requires w.stop.None? && Endangers(block, w, victim) && h != block
    ensures Endangers(block, Prune(env, h, w), victim)
  {
    PruneEffect(env, h, w);
    assert PrunedKind(h) != block;
    SameSelected(w.store, Prune(env, h, w).store, block, w.mem.name);
  }

  /** A listed resource of a kind that a block prunes, with a name that block does not spare,
      does not survive a walk in which the block's own list is too long. */
  lemma {:induction false} VictimIsDeleted(env: Env, blocks: seq<Kind>, w: Walk, block: Kind, victim: Key)
    requires Reliable(env) && PruneLooksBack(blocks) && block in blocks && w.stop.None? && Blocks(env, blocks, w).stop.None?
    requires Endangers(block, w, victim)
    ensures victim !in Blocks(env, blocks, w).store
    decreases |blocks|
  {
    hide EnsureItems, Prune, Endangers, Reliable;
    var x, y := EnsureItems(env, blocks[0], w.mem.spec.items(blocks[0]), w), Block(env, blocks[0], w);
    EnsureItemsEffect(env, blocks[0], w.mem.spec.items(blocks[0]), w);
    EnsuringKeepsDanger(env, blocks[0], w, block, victim);
    if blocks[0] == block {
      DangerStrikes(env, x, block, victim);
      BlocksEffect(env, blocks[1..], y);
    } else {
      DangerLasts(env, blocks[0], x, block, victim);
      VictimIsDeleted(env, blocks[1..], y, block, victim);
    }
  }

  ghost function CrowdedCluster(u: Universe, kind: Kind): Cluster {
    Cluster(Crowded(u, kind), Some(u))
  }

  /** In a crowded cluster nothing of the spec is missing, so a pass does not stop before the prune. */
  lemma CrowdedPassRunsThrough(u: Universe, kind: Kind)
    ensures WalkOf(ALL_OK, CrowdedCluster(u, kind)).stop.None?
    ensures forall k | InSpec(u.spec, k) :: k in Crowded(u, kind) && OwnedBy(Crowded(u, kind)[k].labels, u.name)
  {
    forall k | InSpec(u.spec, k) ensures k in Crowded(u, kind) && OwnedBy(Crowded(u, kind)[k].labels, u.name) {
      FlattenBlocks(u.spec, k);
      CrowdedIsLabelled(u, kind, k);
    }
    forall k | k in Flatten(BLOCKS, u.spec) ensures k in Crowded(u, kind) {
      FlattenBlocks(u.spec, k);
    }
    hide Blocks, Crowded;
    FirstMissingIs(Flatten(BLOCKS, u.spec), Crowded(u, kind));
    WalkEffect(ALL_OK, CrowdedCluster(u, kind));
  }

  lemma CrowdedEndangers(u: Universe, block: Kind, victim: Key)
    requires InSpec(u.spec, victim) && victim.kind == PrunedKind(block)
    requires victim.name !in NamesOf(u.spec.items(ComparedKind(block)))
    ensures Endangers(block, Start(CrowdedCluster(u, block)), victim)
  {
    hide Crowded, Selected;
    CrowdedPassRunsThrough(u, block);
    CrowdedIsLonger(u, block);
    InSpecNamed(u.spec, victim);
  }

  /** When the names of a block do not agree there is a cluster in which a pass deletes a resource of the spec. */
  lemma DisagreementIsUnsafe(u: Universe, block: Kind)
    requires !NamesAgree(u.spec, block)
    ensures !PruneSafe(u)
  {
    hide Crowded, Blocks, Flatten, Endangers, InSpec;
    var pruned, c := u.spec.items(PrunedKind(block)), CrowdedCluster(u, block);
    var name :| name in NamesOf(pruned) && name !in NamesOf(u.spec.items(ComparedKind(block)));
    var item :| item in pruned && item.name == name;
    var victim := KeyOf(PrunedKind(block), item);
    ItemInSpec(u.spec, PrunedKind(block), item);
    CrowdedPassRunsThrough(u, block);
    CrowdedEndangers(u, block, victim);
    BlocksPruneLooksBack();
    EveryKindHasABlock(block);
    VictimIsDeleted(ALL_OK, BLOCKS, Start(c), block, victim);
    ConcludeKeepsStore(ALL_OK, WalkOf(ALL_OK, c));
    assert victim !in Passed(ALL_OK, u, c.store).cluster.store;
  }

  /** The wiring is safe for a universe if and only if the names of its spec agree. */
  lemma PruneSafeIffNamesAgree(u: Universe)
    ensures PruneSafe(u) <==> NamesAgreeEverywhere(u.spec)
  {
    hide NamesAgree, InSpec;
    if NamesAgreeEverywhere(u.spec) {
      forall env, store, k | InSpec(u.spec, k) && k in store ensures k in Passed(env, u, store).cluster.store {
        PassKeepsSpecKeys(env, Cluster(store, Some(u)), k);
      }
    } else {
      var block :| !NamesAgree(u.spec, block);
      DisagreementIsUnsafe(u, block);
    }
  }

  /** A network and a subnetwork with names of their own are enough to be unsafe. */
  lemma DifferentNamesAreUnsafe(u: Universe, network: Item, subnetwork: Item)
    requires u.spec.items(ComputeNetwork) == [network] && u.spec.items(ComputeSubnetwork) == [subnetwork]
    requires network.name != subnetwork.name
    ensures !PruneSafe(u)
  {
    assert network in u.spec.items(ComputeNetwork);
    assert network.name in NamesOf(u.spec.items(PrunedKind(ComputeSubnetwork)));
    assert !NamesAgree(u.spec, ComputeSubnetwork);
    PruneSafeIffNamesAgree(u);
  }
}
