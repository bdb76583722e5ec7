/** Runs in which passes, user edits, deletion requests and lost resources interleave:
    the observed generation and the finalizer. */
module Lifecycle {
  import opened Base
  import opened Resources
  import opened Pass
  import opened Walking
  import opened Convergence

  datatype Step = Reconciled(env: Env) | Acted(action: Action) | Lost(key: Key)

  function Next(step: Step, c: Cluster): Cluster {
    match step
    case Reconciled(env) => Reconcile(env, c).cluster
    case Acted(action) => c.(universe := Act(c.universe, action))
    case Lost(key) => c.(store := c.store - {key})
  }

  /** The states of a run, one more than there are steps. */
  function Run(steps: seq<Step>, c: Cluster): seq<Cluster>
    ensures |Run(steps, c)| == |steps| + 1
    ensures Run(steps, c)[0] == c
    decreases |steps|
  {
    if steps == [] then [c] else [c] + Run(steps[1..], Next(steps[0], c))
  }

  // ---- What one pass leaves in the server ----------------------------------------------------------

  /** The pass completed: it recorded the generation of the very spec it worked for. */
  ghost predicate Recorded(u: Universe, v: Universe) {
    && v.observed == u.generation == v.generation && v.spec == u.spec
    && v.finalizer && !u.terminating && !v.terminating
  }

  /** The pass did not complete, or a user action came in between: the record is as it was. */
  ghost predicate NotRecorded(env: Env, u: Universe, v: Universe) {
    && v.observed == u.observed && v.generation >= u.generation
    && (v.spec == u.spec
        || (v.generation > u.generation && env.interrupt.Some? && env.interrupt.value.action == SetSpec(v.spec)))
    && (u.terminating ==> v.terminating)
    && (u.finalizer || (v.terminating && !u.terminating) ==> v.finalizer)
  }

  lemma ObserveLeaves(env: Env, u: Universe, w: Walk)
    requires SameCopy(u, w.mem.(finalizer := u.finalizer)) && w.mem.finalizer && !u.terminating
    requires !w.stale && w.server == Some(w.mem)
    ensures Expire(env, w).cluster.universe.Some?
    ensures var v := Expire(env, w).cluster.universe.value;
            v.finalizer && (Recorded(u, v) || NotRecorded(env, u, v))
  {
  }

  lemma StaleLeaves(env: Env, u: Universe, w: Walk)
    requires SameCopy(u, w.mem) && u.finalizer && w.stale && Coherent(env, w)
    ensures Expire(env, w).cluster.universe.Some?
    ensures NotRecorded(env, u, Expire(env, w).cluster.universe.value)
  {
  }

  lemma ConcludeLeaves(env: Env, u: Universe, w: Walk)
    requires SameCopy(u, w.mem) && Coherent(env, w)
    ensures var d := Conclude(env, w).cluster.universe;
            && (d.Some? ==> (Recorded(u, d.value) && w.stop.None? && ClustersPresent(w)) || NotRecorded(env, u, d.value))
            && (d.Some? && d.value.finalizer && !u.finalizer ==> !u.terminating && w.stop.None? && ClustersPresent(w))
            && (d.None? && u.finalizer ==> u.terminating && w.stop.None? && ClustersPresent(w))
  {
    if w.stop.None? && ClustersPresent(w) && !u.terminating {
      if u.finalizer && w.stale {
        StaleLeaves(env, u, w);
      } else if u.finalizer {
        ObserveLeaves(env, u, w);
      } else {
        var x := Write(env, w.(mem := w.mem.(finalizer := true)));
        if !x.stale {
          ObserveLeaves(env, u, x);
        }
      }
    }
  }

  lemma PassLeaves(env: Env, c: Cluster)
    requires c.universe.Some?
    ensures var u, d := c.universe.value, Reconcile(env, c).cluster.universe;
            && (d.Some? ==> (Recorded(u, d.value) && ReachesEnd(env, c)) || NotRecorded(env, u, d.value))
            && (d.Some? && d.value.finalizer && !u.finalizer ==> !u.terminating && ReachesEnd(env, c))
            && (d.None? && u.finalizer ==> u.terminating && ReachesEnd(env, c))
  {
    WalkEffect(env, c);
    ConcludeLeaves(env, c.universe.value, WalkOf(env, c));
  }

  // ---- The finalizer -------------------------------------------------------------------------------

  /** A universe with a completed pass has the finalizer, and so has one that waits for its deletion. */
  ghost predicate Guarded(c: Cluster) {
    c.universe.Some? ==>
      && c.universe.value.observed <= c.universe.value.generation
      && (c.universe.value.observed >= 1 || c.universe.value.terminating ==> c.universe.value.finalizer)
  }

  /** The finalizer is never lost while the universe exists; it is added only by a pass that reached the end, to a
      universe that was not terminating; and a universe that has it leaves the store only by such a pass. */
  ghost predicate FinalizerMoves(step: Step, c: Cluster) {
    var d := Next(step, c);
    c.universe.Some? ==>
      && (d.universe.Some? && c.universe.value.finalizer ==> d.universe.value.finalizer)
      && (d.universe.Some? && d.universe.value.finalizer && !c.universe.value.finalizer ==>
            step.Reconciled? && ReachesEnd(step.env, c) && !c.universe.value.terminating)
      && (d.universe.None? && c.universe.value.finalizer ==>
            step.Reconciled? && ReachesEnd(step.env, c) && c.universe.value.terminating)
  }

  /** The record and the generation never go back, and nobody brings a universe back. */
  ghost predicate NeverBack(c: Cluster, d: Cluster) {
    d.universe.Some? ==>
      && c.universe.Some?
      && c.universe.value.observed <= d.universe.value.observed
      && c.universe.value.generation <= d.universe.value.generation
  }

  lemma StepGuards(step: Step, c: Cluster)
    requires Guarded(c)
    ensures Guarded(Next(step, c)) && FinalizerMoves(step, c) && NeverBack(c, Next(step, c))
  {
    if step.Reconciled? && c.universe.Some? {
      PassLeaves(step.env, c);
    }
  }

  /** Over every run, whatever fails and whoever interferes. */
  lemma {:induction false} RunGuards(steps: seq<Step>, c: Cluster, i: nat)
    requires Guarded(c) && i < |steps|
    ensures var run := Run(steps, c);
            && Guarded(run[i]) && Guarded(run[i + 1]) && run[i + 1] == Next(steps[i], run[i])
            && FinalizerMoves(steps[i], run[i]) && NeverBack(run[i], run[i + 1])
    decreases i
  {
    StepGuards(steps[0], c);
    if i > 0 {
      RunGuards(steps[1..], Next(steps[0], c), i - 1);
    }
  }

  // ---- Results, and edits during a pass ------------------------------------------------------------

  /** The first key of the spec that the store lacks. */
  ghost function FirstGap(c: Cluster): Option<Key>
    requires c.universe.Some?
  {
    FirstMissing(Flatten(BLOCKS, c.universe.value.spec), c.store)
  }

  lemma ConcludeReportsResult(env: Env, w: Walk)
    requires Coherent(env, w) && w.stop.None? && ClustersPresent(w)
    ensures env.interrupt.None? ==>
              Conclude(env, w).result ==
              if !w.mem.terminating && w.mem.createdSecond + w.mem.spec.ttl < env.second && !env.expire then Failed else Done
    ensures w.stale && w.mem.terminating == w.mem.finalizer ==> Conclude(env, w).result == Failed
  {
  }

  /** What a pass reports: a requeue exactly when it created something, a failure exactly when it could not create, when a
      user action kept it from changing the finalizer, or when it could not delete its expired universe. */
  lemma PassReports(env: Env, c: Cluster)
    requires c.universe.Some?
    ensures var u, gap, w, o := c.universe.value, FirstGap(c), WalkOf(env, c), Reconcile(env, c);
            && (gap.Some? ==> o.result == if env.create(gap.value) then Requeue else Failed)
            && (gap.None? && !ClustersPresent(w) ==> o.result == Requeue)
            && (gap.None? && ClustersPresent(w) && env.interrupt.None? ==>
                  o.result == if !u.terminating && u.createdSecond + u.spec.ttl < env.second && !env.expire then Failed
                              else Done)
            && (gap.None? && ClustersPresent(w) && w.stale && u.terminating == u.finalizer ==> o.result == Failed)
  {
    hide Blocks, Flatten, Evolves, Coherent, Finish, ClustersPresent;
    WalkEffect(env, c);
    if FirstGap(c).None? && ClustersPresent(WalkOf(env, c)) {
      ConcludeReportsResult(env, WalkOf(env, c));
    }
  }

  lemma ConcludeKeepsEdit(env: Env, w: Walk, edited: Spec)
    requires Coherent(env, w) && w.stale && env.interrupt.Some? && env.interrupt.value.action == SetSpec(edited)
    ensures var u, d := w.mem, Conclude(env, w).cluster.universe;
            && d.Some? && d.value.spec == edited && d.value.observed == u.observed && d.value.finalizer == u.finalizer
            && (!d.value.terminating ==> d.value.generation == u.generation + 1)
  {
  }

  /** A user's edit that lands while the blocks run is never overwritten: it is stored with its own generation,
      and the pass records nothing. */
  lemma EditDuringPassSurvives(env: Env, c: Cluster, edited: Spec)
    requires c.universe.Some? && WalkOf(env, c).stale
    requires env.interrupt.Some? && env.interrupt.value.action == SetSpec(edited)
    ensures var u, d := c.universe.value, Reconcile(env, c).cluster.universe;
            && d.Some? && d.value.spec == edited && d.value.observed == u.observed
            && d.value.finalizer == u.finalizer
            && (!d.value.terminating ==> d.value.generation == u.generation + 1)
  {
    hide WalkOf, Conclude, Evolves, Coherent;
    WalkEffect(env, c);
    ConcludeKeepsEdit(env, WalkOf(env, c), edited);
  }

  // ---- Synchronisation -----------------------------------------------------------------------------

  lemma SameKeySameItem(spec: Spec, kind: Kind, a: Item, b: Item)
    requires DistinctKeys(spec) && a in spec.items(kind) && b in spec.items(kind)
    requires KeyOf(kind, a) == KeyOf(kind, b)
    ensures a == b
  {
    var i :| 0 <= i < |spec.items(kind)| && spec.items(kind)[i] == a;
    var j :| 0 <= j < |spec.items(kind)| && spec.items(kind)[j] == b;
  }

  /** An item of the spec, of a given kind. */
  ghost predicate Describes(spec: Spec, kind: Kind, item: Item) {
    item in spec.items(kind) && DistinctKeys(spec)
  }

  /** The item of the spec for a key, if there is one. */
  ghost predicate IsItemOf(spec: Spec, key: Key, item: Option<Item>) {
    if item.None? then !InSpec(spec, key) else Describes(spec, key.kind, item.value) && KeyOf(key.kind, item.value) == key
  }

  /** The pass has to bring the resources to a new spec, and the update of this resource is accepted. */
  ghost predicate Refreshes(env: Env, w: Walk, key: Key) {
    w.Gate() && env.update(key)
  }

  /** All that a stretch of a walk can make of one resource, unless it deletes it. A stretch that reached the resource's
      item and did not stop has synchronised it exactly when it refreshes it. */
  ghost predicate Fate(env: Env, w: Walk, v: Walk, key: Key, item: Option<Item>, reached: bool) {
    key in v.store ==>
      if v.stop == Some(Created(key)) then
        item.Some? && v.store[key] == NewObject(w.mem.name, key.kind, item.value)
      else
        && key in w.store
        && ((v.store[key] == w.store[key] && !(v.stop.None? && reached && item.Some? && Refreshes(env, w, key)))
            || (item.Some? && Refreshes(env, w, key) && v.store[key] == SyncObject(key.kind, w.store[key], item.value)))
  }

  lemma FateTransitive(env: Env, w: Walk, x: Walk, v: Walk, key: Key, item: Option<Item>, first: bool, second: bool)
    requires Fate(env, w, x, key, item, first) && Fate(env, x, v, key, item, second)
    requires SameCopy(w.mem, x.mem) && x.stop.None?
    ensures Fate(env, w, v, key, item, first || second)
  {
    hide SyncObject, NewObject;
    if key in w.store && item.Some? {
      SyncTwice(key.kind, w.store[key], item.value);
    }
  }

  lemma StoppedFate(env: Env, w: Walk, v: Walk, key: Key, item: Option<Item>, reached: bool, more: bool)
    requires Fate(env, w, v, key, item, reached) && v.stop.Some?
    ensures Fate(env, w, v, key, item, more)
  {
  }

  lemma EnsureItemFate(env: Env, kind: Kind, target: Item, w: Walk, key: Key, item: Option<Item>)
    requires w.stop.None? && target in w.mem.spec.items(kind) && IsItemOf(w.mem.spec, key, item)
    ensures Evolves(env, w, EnsureItem(env, kind, target, w))
    ensures Fate(env, w, EnsureItem(env, kind, target, w), key, item, kind == key.kind && Some(target) == item)
  {
    hide SyncObject, NewObject, DistinctKeys;
    var own := KeyOf(kind, target);
    ItemInSpec(w.mem.spec, kind, target);
    if own == key {
      SameKeySameItem(w.mem.spec, kind, target, item.value);
    }
    if own in w.store {
      KeepItemEffect(env, kind, target, w);
    } else if env.create(own) {
      CreateItemEffect(env, kind, target, w);
    }
  }

  lemma {:induction false} EnsureItemsFate(env: Env, kind: Kind, items: seq<Item>, w: Walk, key: Key, item: Option<Item>)
    requires w.stop.None? && IsItemOf(w.mem.spec, key, item)
    requires forall target | target in items :: target in w.mem.spec.items(kind)
    ensures Fate(env, w, EnsureItems(env, kind, items, w), key, item,
                 kind == key.kind && item.Some? && item.value in items)
    decreases |items|
  {
    if items != [] {
      hide EnsureItem, IsItemOf, Coherent, Fate;
      var x, reached := EnsureItem(env, kind, items[0], w), kind == key.kind && Some(items[0]) == item;
      var more := kind == key.kind && item.Some? && item.value in items[1..];
      EnsureItemFate(env, kind, items[0], w, key, item);
      if x.stop.None? {
        EnsureItemsFate(env, kind, items[1..], x, key, item);
        FateTransitive(env, w, x, EnsureItems(env, kind, items, w), key, item, reached, more);
      } else {
        StoppedFate(env, w, x, key, item, reached, reached || more);
      }
    }
  }

  lemma PruneFate(env: Env, block: Kind, w: Walk, key: Key, item: Option<Item>)
    requires w.stop.None?
    ensures Fate(env, w, Prune(env, block, w), key, item, false)
  {
  }

  lemma BlockFate(env: Env, block: Kind, w: Walk, key: Key, item: Option<Item>)
    requires w.stop.None? && IsItemOf(w.mem.spec, key, item)
    ensures Fate(env, w, Block(env, block, w), key, item, block == key.kind && item.Some?)
  {
    hide EnsureItems, Fate, Prune, Coherent;
    var items := w.mem.spec.items(block);
    var x, reached := EnsureItems(env, block, items, w), block == key.kind && item.Some? && item.value in items;
    EnsureItemsFate(env, block, items, w, key, item);
    EnsureItemsEffect(env, block, items, w);
    assert reached <==> block == key.kind && item.Some?;
    if x.stop.None? {
      PruneFate(env, block, x, key, item);
      FateTransitive(env, w, x, Prune(env, block, x), key, item, reached, false);
    }
  }

  lemma {:induction false} BlocksFate(env: Env, blocks: seq<Kind>, w: Walk, key: Key, item: Option<Item>)
    requires w.stop.None? && IsItemOf(w.mem.spec, key, item)
    ensures Fate(env, w, Blocks(env, blocks, w), key, item, key.kind in blocks && item.Some?)
    decreases |blocks|
  {
    if blocks != [] {
      hide Block, IsItemOf, Coherent, Fate;
      var x, v := Block(env, blocks[0], w), Blocks(env, blocks, w);
      var first, second := blocks[0] == key.kind && item.Some?, key.kind in blocks[1..] && item.Some?;
      BlockEffect(env, blocks[0], w);
      BlockFate(env, blocks[0], w, key, item);
      if x.stop.None? {
        BlocksFate(env, blocks[1..], x, key, item);
        FateTransitive(env, w, x, v, key, item, first, second);
      } else {
        StoppedFate(env, w, x, key, item, first, first || second);
      }
    }
  }

  /** What a whole pass makes of a resource, unless it deletes it: one that was missing is the new object of its item;
      one that was there is as it was, or synchronised if the gate was open and its update accepted, and a pass that does
      not stop has then synchronised it. A resource outside the spec is never changed. */
  lemma PassMakes(env: Env, c: Cluster, key: Key, item: Option<Item>)
    requires c.universe.Some? && IsItemOf(c.universe.value.spec, key, item)
    requires key in Reconcile(env, c).cluster.store
    ensures var u, after := c.universe.value, Reconcile(env, c).cluster.store[key];
            var refreshed := item.Some? && Start(c).Gate() && env.update(key);
            if key !in c.store then item.Some? && after == NewObject(u.name, key.kind, item.value)
            else if !refreshed then after == c.store[key]
            else if WalkOf(env, c).stop.None? then after == SyncObject(key.kind, c.store[key], item.value)
            else after == c.store[key] || after == SyncObject(key.kind, c.store[key], item.value)
  {
    hide Blocks, NewObject, SyncObject, IsItemOf;
    WalkEffect(env, c);
    ConcludeKeepsStore(env, WalkOf(env, c));
    EveryKindHasABlock(key.kind);
    BlocksFate(env, BLOCKS, Start(c), key, item);
  }

  /** What a pass makes of one item of its spec. */
  lemma PassSyncs(env: Env, c: Cluster, kind: Kind, item: Item)
    requires c.universe.Some? && Describes(c.universe.value.spec, kind, item)
    ensures var d, key := Reconcile(env, c).cluster, KeyOf(kind, item);
            && (Synced(c.store, kind, item) ==> Synced(d.store, kind, item))
            && (WalkOf(env, c).stop.None? && Refreshes(env, Start(c), key) ==> Synced(d.store, kind, item))
  {
    hide Reconcile, Agrees;
    var key := KeyOf(kind, item);
    if key in Reconcile(env, c).cluster.store {
      PassMakes(env, c, key, Some(item));
      NewObjectAgrees(c.universe.value.name, kind, item);
      if key in c.store {
        SyncObjectAgrees(kind, c.store[key], item);
      }
    }
  }

  /** Exactly when a pass that does not stop leaves the resource of an item in agreement with it, whatever the API
      answers: it agreed before, or the gate was open and its update was accepted. A refused update is not repaired. */
  lemma CompletedPassSyncs(env: Env, c: Cluster, kind: Kind, item: Item)
    requires c.universe.Some? && Describes(c.universe.value.spec, kind, item)
    requires NamesAgreeEverywhere(c.universe.value.spec) && WalkOf(env, c).stop.None?
    ensures Synced(Reconcile(env, c).cluster.store, kind, item) <==>
            Synced(c.store, kind, item) || (Start(c).Gate() && env.update(KeyOf(kind, item)))
  {
    hide Reconcile, Agrees, NamesAgreeEverywhere;
    var key := KeyOf(kind, item);
    PassSyncs(env, c, kind, item);
    CompletedPassKeeps(env, c, kind, item);
    PassMakes(env, c, key, Some(item));
  }

  /** A pass that does not stop found every resource of its spec, and when names agree it leaves them there. */
  lemma CompletedPassKeeps(env: Env, c: Cluster, kind: Kind, item: Item)
    requires c.universe.Some? && item in c.universe.value.spec.items(kind) && WalkOf(env, c).stop.None?
    ensures KeyOf(kind, item) in c.store
    ensures NamesAgreeEverywhere(c.universe.value.spec) ==> KeyOf(kind, item) in Reconcile(env, c).cluster.store
  {
    hide Blocks, Reconcile, Flatten;
    var spec, key := c.universe.value.spec, KeyOf(kind, item);
    WalkEffect(env, c);
    FirstMissingIs(Flatten(BLOCKS, spec), c.store);
    ItemInSpec(spec, kind, item);
    FlattenBlocks(spec, key);
    if NamesAgreeEverywhere(spec) {
      PassKeepsSpecKeys(env, c, key);
    }
  }

  /** A created resource, field by field: the fields of its item, the user's labels but for the owner's, and annotations
      only for clusters and node pools. */
  lemma CreatedResource(env: Env, c: Cluster, kind: Kind, item: Item, l: string)
    requires c.universe.Some? && Describes(c.universe.value.spec, kind, item)
    requires KeyOf(kind, item) !in c.store && KeyOf(kind, item) in Reconcile(env, c).cluster.store
    ensures var r := Reconcile(env, c).cluster.store[KeyOf(kind, item)];
            && r.fields == item.fields
            && "universe" in r.labels && r.labels["universe"] == c.universe.value.name
            && (l != "universe" ==> (l in r.labels <==> l in item.labels))
            && (l != "universe" && l in item.labels ==> r.labels[l] == item.labels[l])
            && r.annotations == if kind.ContainerCluster? || kind.ContainerNodePool? then item.annotations else map[]
  {
    hide Reconcile;
    PassMakes(env, c, KeyOf(kind, item), Some(item));
  }

  /** A synchronised resource, field by field: mutable fields are those of the item, set or unset, the others are kept;
      clusters, node pools, SQL instances and SQL databases gain the item's annotations and keep their others;
      labels stay. */
  lemma SyncedResource(env: Env, c: Cluster, kind: Kind, item: Item, f: string)
    requires c.universe.Some? && Describes(c.universe.value.spec, kind, item) && WalkOf(env, c).stop.None?
    requires NamesAgreeEverywhere(c.universe.value.spec) && Start(c).Gate() && env.update(KeyOf(kind, item))
    ensures var key := KeyOf(kind, item); key in c.store && key in Reconcile(env, c).cluster.store
    ensures var was, now := c.store[KeyOf(kind, item)], Reconcile(env, c).cluster.store[KeyOf(kind, item)];
            var from := if RuleOf(kind).Mutable(f) then item.fields else was.fields;
            var merges := kind.ContainerCluster? || kind.ContainerNodePool? || kind.SQLInstance? || kind.SQLDatabase?;
            && now.labels == was.labels
            && (f in now.fields <==> f in from) && (f in now.fields ==> now.fields[f] == from[f])
            && now.annotations == was.annotations + if merges then item.annotations else map[]
  {
    hide Reconcile, WalkOf, NamesAgreeEverywhere;
    var key := KeyOf(kind, item);
    CompletedPassKeeps(env, c, kind, item);
    PassMakes(env, c, key, Some(item));
    SyncObjectIs(kind, c.store[key], item, f);
  }

  // ---- The observed generation ---------------------------------------------------------------------

  /** The record means what it says: when it equals the generation, every resource of the spec that exists
      agrees with the spec. Before the first completed pass the same holds of the first spec. */
  ghost predicate Truthful(c: Cluster) {
    c.universe.Some? ==>
      var u := c.universe.value;
      && u.observed <= u.generation && DistinctKeys(u.spec)
      && (u.observed == 0 || u.observed == u.generation ==> SyncedAll(c.store, u.spec))
  }

  /** The pass has a new spec to carry out and records its generation. */
  ghost predicate Records(env: Env, c: Cluster) {
    var d := Reconcile(env, c).cluster.universe;
    c.universe.Some? && Start(c).Gate() && d.Some? && d.value.observed == c.universe.value.generation
  }

  /** Every resource of the spec that is out of agreement has its update accepted. */
  ghost predicate Accepted(env: Env, c: Cluster)
    requires c.universe.Some?
  {
    forall kind, item | item in c.universe.value.spec.items(kind) ::
      Synced(c.store, kind, item) || env.update(KeyOf(kind, item))
  }

  /** The updates that matter are accepted in the passes that record a new generation,
      and the spec is edited only after a completed pass. */
  ghost predicate Admissible(step: Step, c: Cluster) {
    match step
    case Reconciled(env) =>
      && (Records(env, c) ==> Accepted(env, c))
      && (env.interrupt.Some? ==> ActionAdmissible(env.interrupt.value.action, c))
    case Acted(action) => ActionAdmissible(action, c)
    case Lost(_) => true
  }

  ghost predicate ActionAdmissible(action: Action, c: Cluster) {
    action.SetSpec? && c.universe.Some? ==> c.universe.value.observed >= 1 && DistinctKeys(action.spec)
  }

  lemma PassKeepsSynced(env: Env, c: Cluster)
    requires c.universe.Some? && DistinctKeys(c.universe.value.spec)
    ensures var d, spec := Reconcile(env, c).cluster, c.universe.value.spec;
            && (SyncedAll(c.store, spec) ==> SyncedAll(d.store, spec))
            && (WalkOf(env, c).stop.None? && Start(c).Gate() && Accepted(env, c) ==> SyncedAll(d.store, spec))
  {
    hide Reconcile, Synced, WalkOf;
    forall kind, item | item in c.universe.value.spec.items(kind)
      ensures Synced(c.store, kind, item) || (WalkOf(env, c).stop.None? && Refreshes(env, Start(c), KeyOf(kind, item))) ==>
                Synced(Reconcile(env, c).cluster.store, kind, item)
    {
      PassSyncs(env, c, kind, item);
    }
  }

  lemma PassKeepsTruth(env: Env, c: Cluster)
    requires c.universe.Some? && Truthful(c) && Admissible(Reconciled(env), c)
    ensures Truthful(Reconcile(env, c).cluster)
  {
    hide Reconcile, SyncedAll, Accepted, DistinctKeys, WalkOf;
    PassLeaves(env, c);
    PassKeepsSynced(env, c);
  }

  lemma StepKeepsTruth(step: Step, c: Cluster)
    requires Truthful(c) && Admissible(step, c)
    ensures Truthful(Next(step, c))
  {
    if c.universe.Some? {
      hide Reconcile, Synced;
      match step
      case Reconciled(env) =>
        PassKeepsTruth(env, c);
      case Acted(action) =>
      case Lost(key) =>
        forall kind, item | Synced(c.store, kind, item) ensures Synced(c.store - {key}, kind, item) {
          LossKeepsSynced(c.store, key, kind, item);
        }
    }
  }

  lemma LossKeepsSynced(store: Store, key: Key, kind: Kind, item: Item)
    requires Synced(store, kind, item)
    ensures Synced(store - {key}, kind, item)
  {
  }

  /** The condition on updates is exact: a pass that records a new generation leaves a truthful record
      if and only if the updates that matter are accepted. */
  lemma RecordIsTruthfulIffAccepted(env: Env, c: Cluster)
    requires Truthful(c) && env.interrupt.None? && Records(env, c) && NamesAgreeEverywhere(c.universe.value.spec)
    ensures Truthful(Reconcile(env, c).cluster) <==> Accepted(env, c)
  {
    hide Reconcile, Synced, WalkOf, NamesAgreeEverywhere, DistinctKeys;
    PassLeaves(env, c);
    if Accepted(env, c) {
      PassKeepsTruth(env, c);
    } else {
      var kind, item :| item in c.universe.value.spec.items(kind)
                        && !(Synced(c.store, kind, item) || env.update(KeyOf(kind, item)));
      CompletedPassSyncs(env, c, kind, item);
      assert !SyncedAll(Reconcile(env, c).cluster.store, c.universe.value.spec);
    }
  }

  ghost predicate AdmissibleRun(steps: seq<Step>, c: Cluster)
    decreases |steps|
  {
    steps == [] || (Admissible(steps[0], c) && AdmissibleRun(steps[1..], Next(steps[0], c)))
  }

  /** Over every admissible run: in every state the record is truthful. */
  lemma {:induction false} RunKeepsTruth(steps: seq<Step>, c: Cluster, i: nat)
    requires Truthful(c) && AdmissibleRun(steps, c) && i <= |steps|
    ensures Truthful(Run(steps, c)[i])
    decreases i
  {
    if i > 0 {
      StepKeepsTruth(steps[0], c);
      RunKeepsTruth(steps[1..], Next(steps[0], c), i - 1);
    }
  }

  /** A fresh universe over a store without its resources is truthful and guarded. */
  lemma FreshIsTruthful(c: Cluster)
    requires c.universe.Some? && c.universe.value.observed == 0 && !c.universe.value.terminating
    requires DistinctKeys(c.universe.value.spec)
    requires forall k | InSpec(c.universe.value.spec, k) :: k !in c.store
    ensures Truthful(c) && Guarded(c)
  {
    var spec := c.universe.value.spec;
    forall kind, item | item in spec.items(kind) ensures Synced(c.store, kind, item) {
      ItemInSpec(spec, kind, item);
    }
  }

  lemma {:induction false} ClosedGateKeepsItems(env: Env, kind: Kind, items: seq<Item>, w: Walk)
    requires w.stop.None? && !w.Gate() && forall item | item in items :: item in w.mem.spec.items(kind)
    ensures var v := EnsureItems(env, kind, items, w);
            && v.mem.observed == w.mem.observed && v.mem.generation == w.mem.generation
            && (v.stop.None? ==> v.store == w.store)
    decreases |items|
  {
    if items != [] {
      if KeyOf(kind, items[0]) in w.store {
        KeepItemEffect(env, kind, items[0], w);
      } else if env.create(KeyOf(kind, items[0])) {
        CreateItemEffect(env, kind, items[0], w);
      }
      var x := EnsureItem(env, kind, items[0], w);
      if x.stop.None? {
        ClosedGateKeepsItems(env, kind, items[1..], x);
      }
    }
  }

  /** With the gate closed a walk that does not stop changes no resource it does not delete. */
  lemma {:induction false} ClosedGateKeeps(env: Env, blocks: seq<Kind>, w: Walk)
    requires w.stop.None? && !w.Gate()
    ensures var v := Blocks(env, blocks, w);
            v.stop.None? ==> forall k | k in v.store :: k in w.store && v.store[k] == w.store[k]
    decreases |blocks|
  {
    if blocks != [] {
      var b, items := blocks[0], w.mem.spec.items(blocks[0]);
      EnsureItemsEffect(env, b, items, w);
      ClosedGateKeepsItems(env, b, items, w);
      var x := Block(env, b, w);
      if x.stop.None? {
        ClosedGateKeeps(env, blocks[1..], x);
      }
    }
  }
}
