/** The ten resource kinds, how each block of the universe reconciler is wired,
    and the objects they describe. */
module Resources {
  import opened Utils
  import opened Fields

  datatype Kind =
    | IAMServiceAccount
    | ComputeNetwork
    | ComputeSubnetwork
    | ContainerCluster
    | ContainerNodePool
    | SQLInstance
    | SQLDatabase
    | ComputeRouter
    | ComputeRouterNAT
    | StorageBucket

  datatype Key = Key(kind: Kind, namespace: string, name: string)

  datatype Resource = Resource(labels: StringMap, annotations: StringMap, fields: FieldMap)

  type Store = map<Key, Resource>

  /** One template of the spec: its metadata and the fields of its resource spec. */
  datatype Item = Item(name: string, namespace: string, labels: StringMap, annotations: StringMap, fields: FieldMap)

  datatype Spec = Spec(items: Kind -> seq<Item>, ttl: int)

  // The order in which a pass walks the kinds.
  const BLOCKS: seq<Kind> := [
    IAMServiceAccount, ComputeNetwork, ComputeSubnetwork, ContainerCluster, ContainerNodePool,
    SQLInstance, SQLDatabase, ComputeRouter, ComputeRouterNAT, StorageBucket]

  /** The kind whose list a block's prune loop ranges over. The block's own list only guards the loop. */
  function PrunedKind(block: Kind): Kind {
    match block
    case ComputeSubnetwork => ComputeNetwork
    case SQLDatabase => SQLInstance
    case ComputeRouter => SQLInstance
    case _ => block
  }

  /** The kind whose spec items a block's prune loop compares names with. */
  function ComparedKind(block: Kind): Kind {
    match block
    case ComputeRouterNAT => ComputeRouter
    case _ => block
  }

  predicate SelfWired(block: Kind) {
    PrunedKind(block) == block && ComparedKind(block) == block
  }

  /** Blocks whose Create call sets the annotations of the item. */
  predicate AnnotatesOnCreate(kind: Kind) {
    kind.ContainerCluster? || kind.ContainerNodePool?
  }

  /** Blocks whose sync merges the annotations of the item into those of the resource. */
  predicate MergesAnnotations(kind: Kind) {
    AnnotatesOnCreate(kind) || kind.SQLInstance? || kind.SQLDatabase?
  }

  function RuleOf(kind: Kind): SyncRule {
    match kind
    case IAMServiceAccount => CopyListed(["Description", "Disabled", "DisplayName"])
    case ComputeNetwork => ReplaceThenRestore(["ResourceID", "Description"])
    case ComputeSubnetwork => ReplaceThenRestore(["ResourceID", "Description", "Purpose"])
    case ContainerCluster => CopyListed([
      "AddonsConfig", "ClusterAutoscaling", "ClusterTelemetry", "DatabaseEncryption", "DatapathProvider",
      "DefaultSnatStatus", "EnableBinaryAuthorization", "EnableIntranodeVisibility", "EnableL4IlbSubsetting",
      "EnableLegacyAbac", "EnableShieldedNodes", "IdentityServiceConfig", "LoggingConfig", "LoggingService",
      "MaintenancePolicy", "MasterAuthorizedNetworksConfig", "MinMasterVersion", "MonitoringConfig",
      "MonitoringService", "NetworkPolicy", "NetworkRef", "NodeLocations", "NodeVersion", "NotificationConfig",
      "PrivateClusterConfig", "PrivateIpv6GoogleAccess", "ReleaseChannel", "ResourceUsageExportConfig",
      "SubnetworkRef", "VerticalPodAutoscaling", "WorkloadIdentityConfig"])
    case ContainerNodePool => CopyListed([
      "Autoscaling", "Management", "NodeCount", "NodeLocations", "UpgradeSettings", "Version"])
    case SQLInstance => CopyListed([
      "EncryptionKMSCryptoKeyRef", "MasterInstanceRef", "ReplicaConfiguration", "Settings"])
    case SQLDatabase => CopyListed(["Charset", "Collation"])
    case ComputeRouter => CopyListed(["Bgp", "Description", "NetworkRef"])
    case ComputeRouterNAT => CopyListed([
      "DrainNatIps", "EnableDynamicPortAllocation", "EnableEndpointIndependentMapping", "IcmpIdleTimeoutSec",
      "LogConfig", "MinPortsPerVm", "NatIpAllocateOption", "NatIps", "RouterRef",
      "SourceSubnetworkIpRangesToNat", "Subnetwork", "TcpEstablishedIdleTimeoutSec",
      "TcpTransitoryIdleTimeoutSec", "UdpIdleTimeoutSec"])
    case StorageBucket => CopyListed([
      "BucketPolicyOnly", "Cors", "DefaultEventBasedHold", "Encryption", "LifecycleRule", "Logging",
      "PublicAccessPrevention", "RequesterPays", "RetentionPolicy", "StorageClass",
      "UniformBucketLevelAccess", "Versioning", "Website"])
  }

  function KeyOf(kind: Kind, item: Item): Key {
    Key(kind, item.namespace, item.name)
  }

  function NewObject(owner: string, kind: Kind, item: Item): Resource {
    Resource(item.labels + LabelSelector(owner), if AnnotatesOnCreate(kind) then item.annotations else map[], item.fields)
  }

  function SyncObject(kind: Kind, found: Resource, item: Item): Resource {
    found.(fields := RuleOf(kind).Sync(found.fields, item.fields),
           annotations := if MergesAnnotations(kind) then found.annotations + item.annotations else found.annotations)
  }

  /** The resources of a kind that carry the owner's label, in whatever namespace. */
  function Selected(store: Store, kind: Kind, owner: string): set<Key> {
    set k | k in store && k.kind == kind && OwnedBy(store[k].labels, owner)
  }

  function NamesOf(items: seq<Item>): set<string> {
    set item | item in items :: item.name
  }

  function KeysOf(kind: Kind, items: seq<Item>): seq<Key>
    ensures |KeysOf(kind, items)| == |items|
    ensures forall i | 0 <= i < |items| :: KeysOf(kind, items)[i] == KeyOf(kind, items[i])
  {
    seq(|items|, i requires 0 <= i < |items| => KeyOf(kind, items[i]))
  }

  /** The keys of the given blocks in the order in which a pass reaches them. */
  function Flatten(blocks: seq<Kind>, spec: Spec): seq<Key> {
    if blocks == [] then []
    else KeysOf(blocks[0], spec.items(blocks[0])) + Flatten(blocks[1..], spec)
  }

  predicate InSpec(spec: Spec, key: Key) {
    key in KeysOf(key.kind, spec.items(key.kind))
  }

  /** No two items of a kind describe the same resource. */
  ghost predicate DistinctKeys(spec: Spec) {
    forall kind, i, j :: 0 <= i < j < |spec.items(kind)| ==>
      KeyOf(kind, spec.items(kind)[i]) != KeyOf(kind, spec.items(kind)[j])
  }

  /** Every name a block could prune although its kind's spec lists it is also in the spec the block compares with. */
  predicate NamesAgree(spec: Spec, block: Kind) {
    NamesOf(spec.items(PrunedKind(block))) <= NamesOf(spec.items(ComparedKind(block)))
  }

  ghost predicate NamesAgreeEverywhere(spec: Spec) {
    forall block :: NamesAgree(spec, block)
  }

  /** The resource, if it exists, agrees with the item in all fields and annotations a sync maintains. */
  ghost predicate Agrees(kind: Kind, found: Resource, item: Item) {
    && RuleOf(kind).Project(found.fields) == RuleOf(kind).Project(item.fields)
    && (AnnotatesOnCreate(kind) ==> Includes(found.annotations, item.annotations))
  }

  ghost predicate Synced(store: Store, kind: Kind, item: Item) {
    KeyOf(kind, item) in store ==> Agrees(kind, store[KeyOf(kind, item)], item)
  }

  ghost predicate SyncedAll(store: Store, spec: Spec) {
    forall kind, item | item in spec.items(kind) :: Synced(store, kind, item)
  }

  lemma NewObjectAgrees(owner: string, kind: Kind, item: Item)
    ensures Agrees(kind, NewObject(owner, kind, item), item)
    ensures forall other :: OwnedBy(NewObject(owner, kind, item).labels, other) <==> other == owner
  {
    forall other ensures OwnedBy(NewObject(owner, kind, item).labels, other) <==> other == owner {
      StampDecidesOwner(item.labels, owner, other);
    }
  }

  /** Exactly when a created resource has the annotations of its item: SQL instances and databases,
      whose later syncs merge annotations, are created without them. */
  lemma NewObjectAnnotations(owner: string, kind: Kind, item: Item)
    ensures Includes(NewObject(owner, kind, item).annotations, item.annotations) <==>
            AnnotatesOnCreate(kind) || item.annotations == map[]
  {
    if item.annotations != map[] {
      assert exists k :: k in item.annotations by {
        assert item.annotations.Keys != {};
      }
    }
  }

  lemma SyncObjectAgrees(kind: Kind, found: Resource, item: Item)
    ensures Agrees(kind, SyncObject(kind, found, item), item)
    ensures SyncObject(kind, found, item).labels == found.labels
  {
    SyncLaws(RuleOf(kind), found.fields, item.fields, item.fields);
  }

  lemma RuleSyncs(rule: SyncRule, found: FieldMap, desired: FieldMap, f: string)
    ensures var r, from := rule.Sync(found, desired), if rule.Mutable(f) then desired else found;
            (f in r <==> f in from) && (f in r ==> r[f] == from[f])
  {
    match rule
    case ReplaceThenRestore(kept) => AssignAllAt(desired, found, kept, f);
    case CopyListed(copied) => AssignAllAt(found, desired, copied, f);
  }

  /** A synchronised resource, field by field. */
  lemma SyncObjectIs(kind: Kind, found: Resource, item: Item, f: string)
    ensures var r := SyncObject(kind, found, item);
            var from := if RuleOf(kind).Mutable(f) then item.fields else found.fields;
            var merges := kind.ContainerCluster? || kind.ContainerNodePool? || kind.SQLInstance? || kind.SQLDatabase?;
            && (f in r.fields <==> f in from) && (f in r.fields ==> r.fields[f] == from[f])
            && r.annotations == found.annotations + if merges then item.annotations else map[]
  {
    hide RuleOf, SyncRule.Sync, SyncRule.Mutable;
    RuleSyncs(RuleOf(kind), found.fields, item.fields, f);
    assert found.annotations + map[] == found.annotations;
  }

  /** What is immutable in a sync is kept as found, and so are the annotations that the item does not list. */
  lemma SyncObjectKeeps(kind: Kind, found: Resource, item: Item)
    ensures RuleOf(kind).Rest(SyncObject(kind, found, item).fields) == RuleOf(kind).Rest(found.fields)
    ensures SyncObject(kind, found, item).annotations - item.annotations.Keys == found.annotations - item.annotations.Keys
  {
    hide RuleOf, SyncRule.Sync, SyncRule.Rest, SyncRule.Project;
    SyncLaws(RuleOf(kind), found.fields, item.fields, item.fields);
    MergeLaws(found.annotations, item.annotations, item.annotations);
  }

  lemma SyncTwice(kind: Kind, found: Resource, item: Item)
    ensures SyncObject(kind, SyncObject(kind, found, item), item) == SyncObject(kind, found, item)
  {
    hide RuleOf, SyncRule.Sync, SyncRule.Rest, SyncRule.Project;
    SyncLaws(RuleOf(kind), found.fields, item.fields, item.fields);
    MergeLaws(found.annotations, item.annotations, item.annotations);
  }

  /** Which fields a sync may change, kind by kind. */
  lemma MutableNetworkFields(f: string)
    ensures RuleOf(ComputeNetwork).Mutable(f) <==> f !in {"ResourceID", "Description"}
    ensures RuleOf(ComputeSubnetwork).Mutable(f) <==> f !in {"ResourceID", "Description", "Purpose"}
  {
  }

  lemma MutableAccountFields(f: string)
    ensures RuleOf(IAMServiceAccount).Mutable(f) <==> f in {"Description", "Disabled", "DisplayName"}
    ensures RuleOf(ComputeRouter).Mutable(f) <==> f in {"Bgp", "Description", "NetworkRef"}
  {
  }

  lemma MutableSQLFields(f: string)
    ensures RuleOf(SQLInstance).Mutable(f) <==>
            f in {"EncryptionKMSCryptoKeyRef", "MasterInstanceRef", "ReplicaConfiguration", "Settings"}
    ensures RuleOf(SQLDatabase).Mutable(f) <==> f in {"Charset", "Collation"}
  {
  }

  lemma MutableNodePoolFields(f: string)
    ensures RuleOf(ContainerNodePool).Mutable(f) <==>
            f in {"Autoscaling", "Management", "NodeCount", "NodeLocations", "UpgradeSettings", "Version"}
  {
  }

  lemma MutableNatFields(f: string)
    ensures RuleOf(ComputeRouterNAT).Mutable(f) <==> f in {
      "DrainNatIps", "EnableDynamicPortAllocation", "EnableEndpointIndependentMapping", "IcmpIdleTimeoutSec",
      "LogConfig", "MinPortsPerVm", "NatIpAllocateOption", "NatIps", "RouterRef", "SourceSubnetworkIpRangesToNat",
      "Subnetwork", "TcpEstablishedIdleTimeoutSec", "TcpTransitoryIdleTimeoutSec", "UdpIdleTimeoutSec"}
  {
  }

  lemma MutableBucketFields(f: string)
    ensures RuleOf(StorageBucket).Mutable(f) <==> f in {
      "BucketPolicyOnly", "Cors", "DefaultEventBasedHold", "Encryption", "LifecycleRule", "Logging",
      "PublicAccessPrevention", "RequesterPays", "RetentionPolicy", "StorageClass", "UniformBucketLevelAccess",
      "Versioning", "Website"}
  {
  }

  lemma MutableClusterFields(f: string)
    ensures RuleOf(ContainerCluster).Mutable(f) <==> f in {
      "AddonsConfig", "ClusterAutoscaling", "ClusterTelemetry", "DatabaseEncryption", "DatapathProvider",
      "DefaultSnatStatus", "EnableBinaryAuthorization", "EnableIntranodeVisibility", "EnableL4IlbSubsetting",
      "EnableLegacyAbac", "EnableShieldedNodes", "IdentityServiceConfig", "LoggingConfig", "LoggingService",
      "MaintenancePolicy", "MasterAuthorizedNetworksConfig", "MinMasterVersion", "MonitoringConfig",
      "MonitoringService", "NetworkPolicy", "NetworkRef", "NodeLocations", "NodeVersion", "NotificationConfig",
      "PrivateClusterConfig", "PrivateIpv6GoogleAccess", "ReleaseChannel", "ResourceUsageExportConfig",
      "SubnetworkRef", "VerticalPodAutoscaling", "WorkloadIdentityConfig"}
  {
  }

  lemma {:induction false} FlattenContains(blocks: seq<Kind>, spec: Spec, key: Key)
    ensures key in Flatten(blocks, spec) <==> key.kind in blocks && InSpec(spec, key)
  {
    if blocks != [] {
      FlattenContains(blocks[1..], spec, key);
    }
  }

  lemma EveryKindHasABlock(kind: Kind)
    ensures kind in BLOCKS
  {
    assert BLOCKS[0].IAMServiceAccount? && BLOCKS[1].ComputeNetwork? && BLOCKS[2].ComputeSubnetwork?;
    assert BLOCKS[3].ContainerCluster? && BLOCKS[4].ContainerNodePool? && BLOCKS[5].SQLInstance?;
    assert BLOCKS[6].SQLDatabase? && BLOCKS[7].ComputeRouter? && BLOCKS[8].ComputeRouterNAT? && BLOCKS[9].StorageBucket?;
  }

  /** The walk over the spec reaches exactly the keys of the spec. */
  lemma FlattenBlocks(spec: Spec, key: Key)
    ensures key in Flatten(BLOCKS, spec) <==> InSpec(spec, key)
  {
    FlattenContains(BLOCKS, spec, key);
    EveryKindHasABlock(key.kind);
  }
}
