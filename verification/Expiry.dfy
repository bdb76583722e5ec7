/** The time to live. It is compared with the second of the minute, so only the shortest ones ever count. */
module Expiry {
  import opened Resources
  import opened Pass
  import opened Walking
  import opened Convergence

  predicate OfMinute(second: int) {
    0 <= second < 60
  }

  /** Exactly which universes some clock finds expired. */
  lemma ExpiresOnSomeClock(u: Universe)
    ensures (exists now :: OfMinute(now) && Expired(u, now)) <==> u.createdSecond + u.spec.ttl < 59
  {
    if u.createdSecond + u.spec.ttl < 59 {
      assert OfMinute(59) && Expired(u, 59);
    }
  }

  /** A time to live expires some universe, whenever that was created, if and only if it is below 59. */
  lemma OnlyShortTimesExpire(ttl: int)
    ensures ttl < 59 <==> exists u: Universe, now ::
              u.spec.ttl == ttl && OfMinute(u.createdSecond) && OfMinute(now) && Expired(u, now)
  {
    if ttl < 59 {
      var u := Universe("", 0, 0, false, false, 0, Spec(_ => [], ttl), []);
      assert u.spec.ttl == ttl && OfMinute(u.createdSecond) && OfMinute(59) && Expired(u, 59);
    }
  }

  /** A pass that stops nowhere and whose clusters exist, over a spec that is completely present. */
  lemma CompleteSpecReachesEnd(env: Env, c: Cluster)
    requires Reliable(env) && c.universe.Some? && NamesAgreeEverywhere(c.universe.value.spec) && Missing(c) == {}
    ensures ReachesEnd(env, c)
    ensures forall k | k in Flatten(BLOCKS, c.universe.value.spec) :: k in Reconcile(env, c).cluster.store
  {
    var spec := c.universe.value.spec;
    WalkEffect(env, c);
    FirstMissingIs(Flatten(BLOCKS, spec), c.store);
    ConcludeKeepsStore(env, WalkOf(env, c));
    forall k | k in Flatten(BLOCKS, spec) ensures k in c.store && k in Reconcile(env, c).cluster.store {
      assert k !in Missing(c);
      FlattenBlocks(spec, k);
      PassKeepsSpecKeys(env, c, k);
    }
    forall item | item in spec.items(ContainerCluster) ensures KeyOf(ContainerCluster, item) in WalkOf(env, c).store {
      ItemInSpec(spec, ContainerCluster, item);
      FlattenBlocks(spec, KeyOf(ContainerCluster, item));
    }
  }

  lemma ConcludeExpires(env: Env, w: Walk)
    requires env.interrupt.None? && Coherent(env, w) && w.stop.None? && ClustersPresent(w) && !w.mem.terminating
    ensures var o, expired := Conclude(env, w), w.mem.createdSecond + w.mem.spec.ttl < env.second;
            && o.cluster.universe.Some?
            && (o.cluster.universe.value.terminating <==> expired && env.expire)
            && o.result == if expired && !env.expire then Failed else Done
  {
  }

  /** Exactly when a pass that finds everything in place asks for the deletion of its universe, and when it fails for it. */
  lemma PassExpiresExactly(env: Env, c: Cluster)
    requires Reliable(env) && Alive(c) && Missing(c) == {}
    ensures var o, expired := Reconcile(env, c), c.universe.value.createdSecond + c.universe.value.spec.ttl < env.second;
            && o.cluster.universe.Some?
            && (o.cluster.universe.value.terminating <==> expired && env.expire)
            && o.result == if expired && !env.expire then Failed else Done
  {
    hide WalkOf, Conclude, Missing, NamesAgreeEverywhere, Evolves;
    CompleteSpecReachesEnd(env, c);
    WalkEffect(env, c);
    ConcludeExpires(env, WalkOf(env, c));
  }

  ghost predicate Condemned(c: Cluster) {
    && c.universe.Some? && c.universe.value.terminating && c.universe.value.finalizer
    && NamesAgreeEverywhere(c.universe.value.spec) && Missing(c) == {}
  }

  /** The pass that finds its universe expired asks for its deletion; because that makes the copy in memory stale
      the generation it worked for is not recorded, although the pass reports success. */
  lemma ExpiredPassCondemns(env: Env, c: Cluster)
    requires Reliable(env) && env.expire && Alive(c) && Missing(c) == {} && Expired(c.universe.value, env.second)
    ensures var o, u := Reconcile(env, c), c.universe.value;
            && o.result == Done && Condemned(o.cluster)
            && o.cluster.universe.value.observed == u.observed
            && o.cluster.universe.value.generation == u.generation + 1
  {
    CompleteSpecReachesEnd(env, c);
    WalkEffect(env, c);
    hide Blocks, Flatten;
    assert Missing(Reconcile(env, c).cluster) == {};
  }

  /** The next pass lets the universe go and deletes none of the resources its spec describes. */
  lemma CondemnedPassRemoves(env: Env, c: Cluster)
    requires Reliable(env) && Condemned(c)
    ensures var o := Reconcile(env, c);
            && o.result == Done && o.cluster.universe.None?
            && forall k | InSpec(c.universe.value.spec, k) :: k in o.cluster.store
  {
    CompleteSpecReachesEnd(env, c);
    WalkEffect(env, c);
    hide Blocks, Flatten;
    forall k | InSpec(c.universe.value.spec, k) ensures k in Reconcile(env, c).cluster.store {
      FlattenBlocks(c.universe.value.spec, k);
    }
  }

  /** Expiry takes two passes. */
  lemma ExpiryTakesTwoPasses(first: Env, second: Env, c: Cluster)
    requires Reliable(first) && Reliable(second) && first.expire
    requires Alive(c) && Missing(c) == {} && Expired(c.universe.value, first.second)
    ensures var run := Trace([first, second], c);
            && run[1].universe.Some? && run[1].universe.value.terminating
            && run[2].universe.None?
            && forall k | InSpec(c.universe.value.spec, k) :: k in run[2].store
  {
    hide Reconcile, Blocks, Flatten, Missing, Expired;
    ExpiredPassCondemns(first, c);
    SpecStays(first, c);
    CondemnedPassRemoves(second, Reconcile(first, c).cluster);
    TraceStep([first, second], c, 0);
    TraceStep([first, second], c, 1);
  }
}
