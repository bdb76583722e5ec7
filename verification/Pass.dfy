/** One pass of the universe reconciler as a function of the cluster it starts from
    and of the answers the API server gives.

    The universe object lives in the server and in the memory of the pass. Writes of the
    universe object are compare-and-swap on its version: once a user action has landed during the
    pass, the copy in memory is stale and every later write of the universe object is refused. */
module Pass {
  import opened Base
  import opened Resources
  import opened Status

  datatype Universe = Universe(
    name: string,
    generation: nat,
    observed: nat,
    finalizer: bool,
    terminating: bool,
    createdSecond: int,
    spec: Spec,
    resources: seq<Entry>)

  datatype Cluster = Cluster(store: Store, universe: Option<Universe>)

  /** What a user does to the universe object. */
  datatype Action = SetSpec(spec: Spec) | RequestDeletion

  /** A user action that reaches the server just before the write number `at` of the universe object. */
  datatype Interrupt = Interrupt(at: nat, action: Action)

  /** The answers of the API server during one pass, and the clock. A pass creates and updates a resource at most
      once and lists a kind once, but more than one block may try to delete the same resource. */
  datatype Env = Env(
    create: Key -> bool,
    update: Key -> bool,
    delete: (Kind, Key) -> bool,
    list: Kind -> bool,
    interrupt: Option<Interrupt>,
    second: int,
    expire: bool)

  /** An edit of the spec and a deletion request both raise the generation.
      A universe without a finalizer disappears as soon as its deletion is requested. */
  function Act(u: Option<Universe>, action: Action): Option<Universe> {
    if u.None? then None
    else match action
      case SetSpec(spec) => Some(u.value.(spec := spec, generation := u.value.generation + 1))
      case RequestDeletion =>
        if !u.value.finalizer then None
        else if u.value.terminating then u
        else Some(u.value.(terminating := true, generation := u.value.generation + 1))
  }

  // How the walk over the blocks stopped early.
  datatype Stop = Created(key: Key) | CreateFailed(key: Key)

  /** The state of a walk. `mem` is the copy of the universe the pass works on, `server` the one stored. */
  datatype Walk = Walk(
    store: Store,
    mem: Universe,
    server: Option<Universe>,
    stale: bool,
    writes: nat,
    stop: Option<Stop>)
  {
    /** The spec was changed since the last completed pass, and there was a completed pass. */
    predicate Gate() {
      1 <= mem.observed < mem.generation
    }
  }

  /** The action changes the stored object, and so its version. */
  predicate Changes(u: Option<Universe>, action: Action) {
    u.Some? && !(action.RequestDeletion? && u.value.finalizer && u.value.terminating)
  }

  predicate Lands(env: Env, w: Walk) {
    env.interrupt.Some? && env.interrupt.value.at == w.writes && Changes(w.server, env.interrupt.value.action)
  }

  /** Lets a user action that is due reach the server. */
  function Interfere(env: Env, w: Walk): Walk {
    if Lands(env, w) then w.(server := Act(w.server, env.interrupt.value.action), stale := true, writes := w.writes + 1)
    else w.(writes := w.writes + 1)
  }

  /** Offers the copy in memory to the server; the server keeps its own when the copy is stale. */
  function Write(env: Env, w: Walk): Walk {
    var w1 := Interfere(env, w);
    if w1.stale then w1 else w1.(server := Some(w1.mem))
  }

  /** updateStatus: changes the list in memory and offers it to the server, ignoring a refusal. */
  function Report(env: Env, w: Walk, kind: Kind, name: string, progress: Progress): Walk {
    Write(env, w.(mem := w.mem.(resources := Upsert(w.mem.resources, Entry(kind, name, progress)))))
  }

  /** The kind under which a block reports that it is syncing; two blocks do not report it,
      and the NAT block reports it under the router kind. */
  function ReconcilingKind(kind: Kind): Option<Kind> {
    match kind
    case ComputeNetwork => None
    case ComputeSubnetwork => None
    case ComputeRouterNAT => Some(ComputeRouter)
    case _ => Some(kind)
  }

  function SyncItem(env: Env, kind: Kind, item: Item, w: Walk): Walk
    requires KeyOf(kind, item) in w.store
  {
    var key := KeyOf(kind, item);
    var reporting := ReconcilingKind(kind);
    var w1 := if reporting.Some? then Report(env, w, reporting.value, item.name, Reconciling) else w;
    if env.update(key) then w1.(store := w1.store[key := SyncObject(kind, w1.store[key], item)]) else w1
  }

  function EnsureItem(env: Env, kind: Kind, item: Item, w: Walk): Walk {
    var key := KeyOf(kind, item);
    if key !in w.store then
      if env.create(key) then
        var made := w.(store := w.store[key := NewObject(w.mem.name, kind, item)], stop := Some(Created(key)));
        Report(env, made, kind, item.name, Creating)
      else
        w.(stop := Some(CreateFailed(key)))
    else
      Report(env, if w.Gate() then SyncItem(env, kind, item, w) else w, kind, item.name, Healthy)
  }

  function EnsureItems(env: Env, kind: Kind, items: seq<Item>, w: Walk): Walk
    decreases |items|
  {
    if items == [] || w.stop.Some? then w
    else EnsureItems(env, kind, items[1..], EnsureItem(env, kind, items[0], w))
  }

  function Listed(env: Env, w: Walk, kind: Kind): set<Key> {
    if env.list(kind) then Selected(w.store, kind, w.mem.name) else {}
  }

  /** The resources a block's prune deletes: it runs when the block's own list is longer than its spec,
      ranges over the list of PrunedKind and spares the names in the spec of ComparedKind. */
  function Doomed(env: Env, block: Kind, w: Walk): set<Key> {
    if |Listed(env, w, block)| > |w.mem.spec.items(block)| then
      set k | k in Listed(env, w, PrunedKind(block))
        && k.name !in NamesOf(w.mem.spec.items(ComparedKind(block))) && env.delete(block, k)
    else {}
  }

  function Prune(env: Env, block: Kind, w: Walk): Walk {
    w.(store := w.store - Doomed(env, block, w))
  }

  function Block(env: Env, block: Kind, w: Walk): Walk {
    var w1 := EnsureItems(env, block, w.mem.spec.items(block), w);
    if w1.stop.Some? then w1 else Prune(env, block, w1)
  }

  function Blocks(env: Env, blocks: seq<Kind>, w: Walk): Walk
    decreases |blocks|
  {
    if blocks == [] || w.stop.Some? then w
    else Blocks(env, blocks[1..], Block(env, blocks[0], w))
  }

  datatype Result = Done | Requeue | Failed

  datatype Outcome = Outcome(cluster: Cluster, result: Result)

  function Return(w: Walk, result: Result): Outcome {
    Outcome(Cluster(w.store, w.server), result)
  }

  /** The comparison of seconds within the minute that stands for the time to live. */
  predicate Expired(u: Universe, second: int) {
    u.createdSecond + u.spec.ttl < second
  }

  /** The last write of a pass: record the generation this pass has worked for. */
  function Observe(env: Env, w: Walk): Outcome {
    Return(Write(env, w.(mem := w.mem.(observed := w.mem.generation))), Done)
  }

  /** Deletes the expired universe, which makes the copy in memory stale, and records the generation. */
  function Expire(env: Env, w: Walk): Outcome {
    if !Expired(w.mem, env.second) then Observe(env, w)
    else if !env.expire || w.server.None? then Return(w, Failed)
    else Observe(env, w.(server := Act(w.server, RequestDeletion), stale := true))
  }

  /** After the blocks: finish a deletion, or add the finalizer and record the generation. */
  function Finish(env: Env, w: Walk): Outcome {
    if w.mem.terminating then
      if !w.mem.finalizer then Return(w, Done)
      else
        var w1 := Write(env, w.(mem := w.mem.(finalizer := false)));
        if w1.stale then Return(w1, Failed) else Return(w1.(server := None), Done)
    else if w.mem.finalizer then Expire(env, w)
    else
      var w1 := Write(env, w.(mem := w.mem.(finalizer := true)));
      if w1.stale then Return(w1, Failed) else Expire(env, w1)
  }

  function Start(c: Cluster): Walk
    requires c.universe.Some?
  {
    Walk(c.store, c.universe.value, c.universe, false, 0, None)
  }

  function ClustersPresent(w: Walk): bool {
    forall item | item in w.mem.spec.items(ContainerCluster) :: KeyOf(ContainerCluster, item) in w.store
  }

  /** The walk over all ten blocks. */
  function WalkOf(env: Env, c: Cluster): Walk
    requires c.universe.Some?
  {
    Blocks(env, BLOCKS, Start(c))
  }

  /** The pass has got past its blocks and past the check of its clusters. */
  predicate ReachesEnd(env: Env, c: Cluster) {
    c.universe.Some? && WalkOf(env, c).stop.None? && ClustersPresent(WalkOf(env, c))
  }

  /** How a pass ends, given its walk. */
  function Conclude(env: Env, w: Walk): Outcome {
    match w.stop
    case Some(Created(_)) => Return(w, Requeue)
    case Some(CreateFailed(_)) => Return(w, Failed)
    case None => if !ClustersPresent(w) then Return(w, Requeue) else Finish(env, w)
  }

  function Reconcile(env: Env, c: Cluster): Outcome {
    if c.universe.None? then Outcome(c, Done) else Conclude(env, WalkOf(env, c))
  }
}
