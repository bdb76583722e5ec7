/** The universe that the trigger controller creates for a pull request. */
module Preview {
  import opened Base
  import opened Resources
  import opened Pass
  import opened Convergence
  import Pruning
  import Wiring

  /** The item of each kind is named after the universe; the fields that refer to other resources refer to that name. */
  function PreviewItem(kind: Kind, name: string, namespace: string): Item {
    match kind
    case ComputeNetwork =>
      Item(name, namespace, map[], map[], map["RoutingMode" := "REGIONAL", "AutoCreateSubnetworks" := "false"])
    case ComputeSubnetwork => Item(name, namespace, map[], map[], map["IpCidrRange" := "10.29.0.0/16", "NetworkRef" := name])
    case ContainerCluster =>
      Item(name, namespace, map[], map["cnrm.cloud.google.com/remove-default-node-pool" := "true"],
           map["MinMasterVersion" := "1.23.8-gke.1900", "NetworkRef" := name, "SubnetworkRef" := name])
    case ContainerNodePool => Item(name, namespace, map[], map[], map["ClusterRef" := name])
    case ComputeRouter => Item(name, namespace, map[], map[], map["NetworkRef" := name])
    case _ => Item(name, namespace, map[], map[], map["RouterRef" := name, "NatIpAllocateOption" := "AUTO_ONLY"])
  }

  predicate InPreview(kind: Kind) {
    kind.ComputeNetwork? || kind.ComputeSubnetwork? || kind.ContainerCluster? || kind.ContainerNodePool?
    || kind.ComputeRouter? || kind.ComputeRouterNAT?
  }

  const PREVIEW_TTL := 86400

  /** The spec NewUniverse builds: one item of each of six kinds. */
  function PreviewSpec(name: string, namespace: string): Spec {
    Spec(kind => if InPreview(kind) then [PreviewItem(kind, name, namespace)] else [], PREVIEW_TTL)
  }

  lemma PreviewNames(name: string, namespace: string, kind: Kind)
    ensures NamesOf(PreviewSpec(name, namespace).items(kind)) == if InPreview(kind) then {name} else {}
  {
    if InPreview(kind) {
      assert PreviewItem(kind, name, namespace) in PreviewSpec(name, namespace).items(kind);
    }
  }

  /** The wiring of the prune blocks is harmless for every universe of a pull request. */
  lemma PreviewIsSafe(name: string, namespace: string, u: Universe)
    ensures NamesAgreeEverywhere(PreviewSpec(name, namespace)) && DistinctKeys(PreviewSpec(name, namespace))
    ensures u.spec == PreviewSpec(name, namespace) ==> Wiring.PruneSafe(u)
  {
    forall block ensures NamesAgree(PreviewSpec(name, namespace), block) {
      PreviewNames(name, namespace, PrunedKind(block));
      PreviewNames(name, namespace, ComparedKind(block));
    }
    if u.spec == PreviewSpec(name, namespace) {
      Wiring.PruneSafeIffNamesAgree(u);
    }
  }

  function PreviewKeys(name: string, namespace: string): seq<Key> {
    [Key(ComputeNetwork, namespace, name), Key(ComputeSubnetwork, namespace, name), Key(ContainerCluster, namespace, name),
     Key(ContainerNodePool, namespace, name), Key(ComputeRouter, namespace, name), Key(ComputeRouterNAT, namespace, name)]
  }

  lemma PreviewInSpec(name: string, namespace: string, k: Key)
    ensures InSpec(PreviewSpec(name, namespace), k) <==> k in PreviewKeys(name, namespace)
  {
    var items := PreviewSpec(name, namespace).items(k.kind);
    if InPreview(k.kind) {
      assert KeysOf(k.kind, items)[0] == Key(k.kind, namespace, name);
    }
  }

  lemma PreviewKeysSize(name: string, namespace: string)
    ensures |Range(PreviewKeys(name, namespace))| == 6
  {
    Pruning.DistinctRange(PreviewKeys(name, namespace));
  }

  lemma PreviewMissing(name: string, namespace: string, u: Universe)
    requires u.spec == PreviewSpec(name, namespace)
    ensures |Missing(Cluster(map[], Some(u)))| == 6
  {
    hide Flatten, InSpec, PreviewSpec, PreviewKeys;
    var keys, c := PreviewKeys(name, namespace), Cluster(map[], Some(u));
    PreviewKeysSize(name, namespace);
    forall k ensures k in Missing(c) <==> k in Range(keys) {
      FlattenBlocks(u.spec, k);
      PreviewInSpec(name, namespace, k);
    }
    assert Missing(c) == Range(keys);
  }

  /** From an empty store the universe of a pull request is complete after seven passes, six of which create
      one resource each. */
  lemma PreviewTakesSevenPasses(name: string, namespace: string, u: Universe, envs: seq<Env>, i: nat)
    requires u.spec == PreviewSpec(name, namespace) && !u.terminating && 0 <= u.createdSecond
    requires |envs| == 7 && forall e | e in envs :: Reliable(e) && e.second < 60
    requires i < 7
    ensures var run := Trace(envs, Cluster(map[], Some(u)));
            if i < 6 then CreatingPass(envs[i], run[i], run[i + 1]) else CompletingPass(envs[i], run[i], run[i + 1])
  {
    PreviewIsSafe(name, namespace, u);
    PreviewMissing(name, namespace, u);
    Converges(envs, Cluster(map[], Some(u)), i);
  }
}
