/** Resources refer to others by name. In a run over a fixed spec a reference never dangles. */
module References {
  import opened Base
  import opened Resources
  import opened Pass
  import opened Convergence
  import opened Lifecycle
  import opened Preview

  /** The field of the resource, if it exists, is as its item has it. */
  ghost predicate AsSpecified(c: Cluster, kind: Kind, item: Item, f: string) {
    var key := KeyOf(kind, item);
    key in c.store ==>
      (f in c.store[key].fields <==> f in item.fields)
      && (f in item.fields && f in c.store[key].fields ==> c.store[key].fields[f] == item.fields[f])
  }

  lemma PassKeepsAsSpecified(env: Env, c: Cluster, kind: Kind, item: Item, f: string)
    requires c.universe.Some? && Describes(c.universe.value.spec, kind, item) && AsSpecified(c, kind, item, f)
    ensures AsSpecified(Reconcile(env, c).cluster, kind, item, f)
  {
    hide Reconcile, WalkOf, DistinctKeys;
    var key := KeyOf(kind, item);
    if key in Reconcile(env, c).cluster.store {
      PassMakes(env, c, key, Some(item));
      if key in c.store {
        SyncObjectIs(kind, c.store[key], item, f);
      }
    }
  }

  lemma {:induction false} RunKeepsAsSpecified(envs: seq<Env>, c: Cluster, spec: Spec, kind: Kind, item: Item,
                                              f: string, i: nat)
    requires forall e | e in envs :: e.interrupt.Some? ==> e.interrupt.value.action.RequestDeletion?
    requires c.universe.Some? ==> c.universe.value.spec == spec
    requires Describes(spec, kind, item) && AsSpecified(c, kind, item, f) && i <= |envs|
    ensures AsSpecified(Trace(envs, c)[i], kind, item, f)
    decreases i
  {
    hide Reconcile, AsSpecified, DistinctKeys;
    if i > 0 {
      var d := Reconcile(envs[0], c).cluster;
      if c.universe.Some? {
        PassKeepsAsSpecified(envs[0], c, kind, item, f);
        SpecStays(envs[0], c);
      } else {
        NoUniverseNoChange(envs[0], c);
      }
      RunKeepsAsSpecified(envs[1..], d, spec, kind, item, f, i - 1);
    }
  }

  lemma NoUniverseNoChange(env: Env, c: Cluster)
    requires c.universe.None?
    ensures Reconcile(env, c).cluster == c
  {
  }

  /** From an empty store and with nobody editing the spec, in every state of every run of passes, even when calls and
      updates fail: a field that names a resource of an earlier kind is stored as specified and that resource exists. */
  lemma ReferencesResolve(envs: seq<Env>, c: Cluster, i: nat, kind: Kind, item: Item, f: string, target: Key)
    requires forall e | e in envs :: e.interrupt.Some? ==> e.interrupt.value.action.RequestDeletion?
    requires c.universe.Some? && c.store == map[] && i <= |envs| && Describes(c.universe.value.spec, kind, item)
    requires f in item.fields && item.fields[f] == target.name
    requires InSpec(c.universe.value.spec, target) && Turn(target.kind) < Turn(kind)
    requires KeyOf(kind, item) in Trace(envs, c)[i].store
    ensures var store, key := Trace(envs, c)[i].store, KeyOf(kind, item);
            f in store[key].fields && store[key].fields[f] == target.name && target in store
  {
    hide Trace, DistinctKeys;
    RunKeepsAsSpecified(envs, c, c.universe.value.spec, kind, item, f, i);
    EarlierKindsExist(envs, c, i, target, KeyOf(kind, item));
  }

  /** The references in the universe of a pull request. */
  predicate Refers(kind: Kind, f: string, target: Kind) {
    || (f == "NetworkRef" && target.ComputeNetwork?
        && (kind.ComputeSubnetwork? || kind.ContainerCluster? || kind.ComputeRouter?))
    || (f == "SubnetworkRef" && target.ComputeSubnetwork? && kind.ContainerCluster?)
    || (f == "ClusterRef" && target.ContainerCluster? && kind.ContainerNodePool?)
    || (f == "RouterRef" && target.ComputeRouter? && kind.ComputeRouterNAT?)
  }

  lemma PreviewRefers(name: string, namespace: string, kind: Kind, f: string, target: Kind)
    requires Refers(kind, f, target)
    ensures InPreview(kind) && f in PreviewItem(kind, name, namespace).fields
    ensures PreviewItem(kind, name, namespace).fields[f] == name
    ensures InSpec(PreviewSpec(name, namespace), Key(target, namespace, name)) && Turn(target) < Turn(kind)
  {
    PreviewInSpec(name, namespace, Key(target, namespace, name));
    assert "NetworkRef" != "SubnetworkRef" by { assert |"NetworkRef"| != |"SubnetworkRef"|; }
  }

  /** In every state of every run that builds the universe of a pull request every reference resolves. */
  lemma PreviewReferencesResolve(name: string, namespace: string, u: Universe, envs: seq<Env>, i: nat,
                                 kind: Kind, f: string, target: Kind)
    requires u.spec == PreviewSpec(name, namespace) && i <= |envs| && Refers(kind, f, target)
    requires forall e | e in envs :: e.interrupt.Some? ==> e.interrupt.value.action.RequestDeletion?
    requires Key(kind, namespace, name) in Trace(envs, Cluster(map[], Some(u)))[i].store
    ensures var store, key := Trace(envs, Cluster(map[], Some(u)))[i].store, Key(kind, namespace, name);
            f in store[key].fields && store[key].fields[f] == name && Key(target, namespace, name) in store
  {
    hide Trace, InSpec, Refers, DistinctKeys;
    var item := PreviewItem(kind, name, namespace);
    PreviewRefers(name, namespace, kind, f, target);
    PreviewIsSafe(name, namespace, u);
    ItemIsThere(name, namespace, kind);
    ReferencesResolve(envs, Cluster(map[], Some(u)), i, kind, item, f, Key(target, namespace, name));
  }

  lemma ItemIsThere(name: string, namespace: string, kind: Kind)
    requires InPreview(kind)
    ensures var item := PreviewItem(kind, name, namespace);
            item in PreviewSpec(name, namespace).items(kind) && KeyOf(kind, item) == Key(kind, namespace, name)
  {
  }
}
