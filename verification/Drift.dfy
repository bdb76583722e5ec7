/** What a completed pass has recorded but not carried out is not carried out by any later pass. */
module Drift {
  import opened Resources
  import opened Pass
  import opened Walking
  import opened Convergence
  import opened Lifecycle
  import opened Quiescence

  /** A completing pass with a closed gate settles the cluster without touching what the spec describes. */
  lemma ClosedGatePassFreezes(c: Cluster, key: Key)
    requires Alive(c) && Missing(c) == {} && !Start(c).Gate() && !Expired(c.universe.value, ALL_OK.second)
    requires InSpec(c.universe.value.spec, key) && key in c.store
    ensures var d := Reconcile(ALL_OK, c).cluster;
            && Settled(d) && d.universe.value.spec == c.universe.value.spec
            && d.universe.value.generation == c.universe.value.generation
            && d.universe.value.createdSecond == c.universe.value.createdSecond
            && key in d.store && d.store[key] == c.store[key]
  {
    CompletedPassSettles(ALL_OK, c);
    PassKeepsSpecKeys(ALL_OK, c, key);
    PassCompletes(ALL_OK, c);
    WalkEffect(ALL_OK, c);
    ConcludeReports(ALL_OK, WalkOf(ALL_OK, c));
    ClosedGateKeeps(ALL_OK, BLOCKS, Start(c));
  }

  lemma EditKeepsMissing(c: Cluster, edited: Spec)
    requires c.universe.Some? && forall k :: InSpec(edited, k) <==> InSpec(c.universe.value.spec, k)
    ensures Missing(Next(Acted(SetSpec(edited)), c)) == Missing(c)
  {
    forall k ensures k in Flatten(BLOCKS, edited) <==> k in Flatten(BLOCKS, c.universe.value.spec) {
      FlattenBlocks(edited, k);
      FlattenBlocks(c.universe.value.spec, k);
    }
  }

  lemma EditedPassFreezes(c: Cluster, edited: Spec, key: Key)
    requires Alive(c) && Missing(c) == {} && c.universe.value.observed == 0
    requires NamesAgreeEverywhere(edited) && forall k :: InSpec(edited, k) <==> InSpec(c.universe.value.spec, k)
    requires c.universe.value.createdSecond + edited.ttl >= ALL_OK.second
    requires InSpec(edited, key)
    ensures var d := Next(Reconciled(ALL_OK), Next(Acted(SetSpec(edited)), c));
            && Settled(d) && d.universe.value.spec == edited
            && d.universe.value.generation == c.universe.value.generation + 1
            && d.universe.value.createdSecond == c.universe.value.createdSecond
            && key in c.store && key in d.store && d.store[key] == c.store[key]
  {
    FlattenBlocks(c.universe.value.spec, key);
    assert key in c.store by {
      assert key !in Missing(c);
    }
    EditKeepsMissing(c, edited);
    ClosedGatePassFreezes(Next(Acted(SetSpec(edited)), c), key);
  }

  /** All resources exist as first specified and no pass has completed; the user edits an item; a pass completes.
      The record then claims the edited spec, but the resource still has the first one,
      and no later pass changes that until the spec is edited again. */
  lemma EarlyEditIsLost(c: Cluster, edited: Spec, kind: Kind, first: Item, second: Item, envs: seq<Env>, i: nat)
    requires Alive(c) && Missing(c) == {} && c.universe.value.observed == 0 && SyncedAll(c.store, c.universe.value.spec)
    requires NamesAgreeEverywhere(edited) && forall k :: InSpec(edited, k) <==> InSpec(c.universe.value.spec, k)
    requires first in c.universe.value.spec.items(kind) && second in edited.items(kind)
    requires KeyOf(kind, first) == KeyOf(kind, second)
    requires RuleOf(kind).Project(first.fields) != RuleOf(kind).Project(second.fields)
    requires c.universe.value.createdSecond + edited.ttl >= ALL_OK.second
    requires forall e | e in envs :: e.interrupt.None? && c.universe.value.createdSecond + edited.ttl >= e.second
    requires i <= |envs|
    ensures var later := Trace(envs, Next(Reconciled(ALL_OK), Next(Acted(SetSpec(edited)), c)))[i];
            && later.universe.Some? && later.universe.value.spec == edited
            && later.universe.value.observed == later.universe.value.generation == c.universe.value.generation + 1
            && KeyOf(kind, second) in later.store && !Synced(later.store, kind, second)
  {
    ItemInSpec(c.universe.value.spec, kind, first);
    assert Synced(c.store, kind, first);
    EditedPassFreezes(c, edited, KeyOf(kind, first));
    SettledStays(Next(Reconciled(ALL_OK), Next(Acted(SetSpec(edited)), c)), envs, i);
  }

  /** Whether a resource ever agrees with its item is decided by the pass that completes: exactly when it agreed
      before, or the gate was open and its update was accepted, it agrees after that pass and all later ones. */
  lemma CompletedPassDecides(env: Env, c: Cluster, kind: Kind, item: Item, envs: seq<Env>, i: nat)
    requires Reliable(env) && Alive(c) && Missing(c) == {} && !Expired(c.universe.value, env.second)
    requires Describes(c.universe.value.spec, kind, item)
    requires forall e | e in envs :: e.interrupt.None? && !Expired(c.universe.value, e.second)
    requires i <= |envs|
    ensures var later := Trace(envs, Reconcile(env, c).cluster)[i];
            && later.universe.Some? && later.universe.value.spec == c.universe.value.spec
            && later.universe.value.observed == later.universe.value.generation == c.universe.value.generation
            && KeyOf(kind, item) in later.store
            && (Synced(later.store, kind, item) <==>
                  Synced(c.store, kind, item) || (Start(c).Gate() && env.update(KeyOf(kind, item))))
  {
    hide Blocks, Synced, Flatten, Trace, Reconcile, NamesAgreeEverywhere;
    var d := Reconcile(env, c).cluster;
    PassCompletes(env, c);
    CompletedPassSyncs(env, c, kind, item);
    CompletedPassSettles(env, c);
    CompletedPassKeepsUniverse(env, c);
    SettledStays(d, envs, i);
    ItemInSpec(c.universe.value.spec, kind, item);
    FlattenBlocks(d.universe.value.spec, KeyOf(kind, item));
    SettledHas(d, KeyOf(kind, item));
  }

  lemma CompletedPassKeepsUniverse(env: Env, c: Cluster)
    requires Reliable(env) && Alive(c) && Missing(c) == {} && !Expired(c.universe.value, env.second)
    ensures var d := Reconcile(env, c).cluster.universe;
            && d.Some? && d.value.spec == c.universe.value.spec
            && d.value.createdSecond == c.universe.value.createdSecond
  {
    PassCompletes(env, c);
    WalkEffect(env, c);
    ConcludeReports(env, WalkOf(env, c));
  }

  lemma SettledHas(c: Cluster, k: Key)
    requires Settled(c) && k in Flatten(BLOCKS, c.universe.value.spec)
    ensures k in c.store
  {
    assert k !in Missing(c);
  }

  /** A refused update is only logged: the pass records the edited spec all the same, its gate closes,
      and no later pass brings the resource to its item. */
  lemma RefusedUpdateIsLost(env: Env, c: Cluster, kind: Kind, item: Item, envs: seq<Env>, i: nat)
    requires Reliable(env) && Alive(c) && Missing(c) == {} && !Expired(c.universe.value, env.second)
    requires Describes(c.universe.value.spec, kind, item) && !Synced(c.store, kind, item)
    requires Start(c).Gate() && !env.update(KeyOf(kind, item))
    requires forall e | e in envs :: e.interrupt.None? && !Expired(c.universe.value, e.second)
    requires i <= |envs|
    ensures var later := Trace(envs, Reconcile(env, c).cluster)[i];
            && later.universe.Some? && later.universe.value.observed == later.universe.value.generation
            && KeyOf(kind, item) in later.store && !Synced(later.store, kind, item)
  {
    hide Synced, Trace, Reconcile, Missing;
    CompletedPassDecides(env, c, kind, item, envs, i);
  }
}
