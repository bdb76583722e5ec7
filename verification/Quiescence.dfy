/** What a completed pass reports, and why the passes after it change nothing. */
module Quiescence {
  import opened Base
  import opened Resources
  import opened Status
  import opened Pass
  import opened Walking
  import opened Convergence

  // ---- The status list -----------------------------------------------------------------------------

  function ProgressOf(list: seq<Entry>, slot: Slot): Option<Progress> {
    if Has(list, slot) then Some(list[Find(list, slot)].progress) else None
  }

  lemma UpsertProgress(list: seq<Entry>, e: Entry, slot: Slot)
    ensures ProgressOf(Upsert(list, e), slot) == if slot == SlotOf(e) then Some(e.progress) else ProgressOf(list, slot)
  {
    UpsertAt(list, e, slot);
  }

  /** What the items of one block, all present, make of a slot: their own become Healthy;
      a syncing NAT marks the router of its name as Reconciling. */
  function AfterItems(gate: bool, kind: Kind, names: set<string>, slot: Slot, before: Option<Progress>): Option<Progress> {
    if slot.name !in names then before
    else if slot.kind == kind then Some(Healthy)
    else if gate && kind.ComputeRouterNAT? && slot.kind.ComputeRouter? then Some(Reconciling)
    else before
  }

  function AfterBlocks(gate: bool, blocks: seq<Kind>, spec: Spec, slot: Slot, before: Option<Progress>): Option<Progress> {
    if blocks == [] then before
    else
      var next := AfterItems(gate, blocks[0], NamesOf(spec.items(blocks[0])), slot, before);
      AfterBlocks(gate, blocks[1..], spec, slot, next)
  }

  lemma SyncItemProgress(env: Env, kind: Kind, item: Item, w: Walk, slot: Slot)
    requires KeyOf(kind, item) in w.store
    ensures ProgressOf(SyncItem(env, kind, item, w).mem.resources, slot) ==
            if ReconcilingKind(kind) == Some(slot.kind) && slot.name == item.name then Some(Reconciling)
            else ProgressOf(w.mem.resources, slot)
  {
    var reporting := ReconcilingKind(kind);
    if reporting.Some? {
      ReportEvolves(env, w, reporting.value, item.name, Reconciling);
      UpsertProgress(w.mem.resources, Entry(reporting.value, item.name, Reconciling), slot);
    }
  }

  lemma ItemProgress(env: Env, kind: Kind, item: Item, w: Walk, slot: Slot)
    requires w.stop.None? && KeyOf(kind, item) in w.store
    ensures ProgressOf(EnsureItem(env, kind, item, w).mem.resources, slot) ==
            AfterItems(w.Gate(), kind, {item.name}, slot, ProgressOf(w.mem.resources, slot))
  {
    var w1 := if w.Gate() then SyncItem(env, kind, item, w) else w;
    if w.Gate() {
      SyncItemProgress(env, kind, item, w, slot);
    }
    ReportEvolves(env, w1, kind, item.name, Healthy);
    UpsertProgress(w1.mem.resources, Entry(kind, item.name, Healthy), slot);
  }

  lemma AfterMoreItems(gate: bool, kind: Kind, items: seq<Item>, slot: Slot, before: Option<Progress>)
    requires items != []
    ensures AfterItems(gate, kind, NamesOf(items), slot, before) ==
            AfterItems(gate, kind, NamesOf(items[1..]), slot, AfterItems(gate, kind, {items[0].name}, slot, before))
  {
    assert NamesOf(items) == {items[0].name} + NamesOf(items[1..]);
  }

  lemma {:induction false} ItemsProgress(env: Env, kind: Kind, items: seq<Item>, w: Walk, slot: Slot)
    requires w.stop.None? && forall item | item in items :: item in w.mem.spec.items(kind)
    ensures var v := EnsureItems(env, kind, items, w);
            v.stop.None? ==>
              ProgressOf(v.mem.resources, slot) ==
              AfterItems(w.Gate(), kind, NamesOf(items), slot, ProgressOf(w.mem.resources, slot))
    decreases |items|
  {
    if items != [] {
      var x := EnsureItem(env, kind, items[0], w);
      if KeyOf(kind, items[0]) in w.store {
        KeepItemEffect(env, kind, items[0], w);
        ItemProgress(env, kind, items[0], w, slot);
        ItemsProgress(env, kind, items[1..], x, slot);
        AfterMoreItems(w.Gate(), kind, items, slot, ProgressOf(w.mem.resources, slot));
      } else {
        assert x.stop.Some?;
      }
    }
  }

  lemma {:induction false} BlocksProgress(env: Env, blocks: seq<Kind>, w: Walk, slot: Slot)
    requires w.stop.None?
    ensures var v := Blocks(env, blocks, w);
            v.stop.None? ==>
              ProgressOf(v.mem.resources, slot) ==
              AfterBlocks(w.Gate(), blocks, w.mem.spec, slot, ProgressOf(w.mem.resources, slot))
    decreases |blocks|
  {
    if blocks != [] {
      var b, items := blocks[0], w.mem.spec.items(blocks[0]);
      var x := EnsureItems(env, b, items, w);
      EnsureItemsEffect(env, b, items, w);
      ItemsProgress(env, b, items, w, slot);
      if x.stop.None? {
        BlocksProgress(env, blocks[1..], Prune(env, b, x), slot);
      }
    }
  }

  predicate MaskedRouter(gate: bool, spec: Spec, slot: Slot) {
    gate && slot.kind.ComputeRouter? && slot.name in NamesOf(spec.items(ComputeRouterNAT))
  }

  lemma {:induction false} AfterLaterBlocks(gate: bool, blocks: seq<Kind>, spec: Spec, slot: Slot, before: Option<Progress>)
    requires slot.kind !in blocks
    ensures AfterBlocks(gate, blocks, spec, slot, before) ==
            if MaskedRouter(gate, spec, slot) && ComputeRouterNAT in blocks then Some(Reconciling) else before
  {
    if blocks != [] {
      var next := AfterItems(gate, blocks[0], NamesOf(spec.items(blocks[0])), slot, before);
      AfterLaterBlocks(gate, blocks[1..], spec, slot, next);
    }
  }

  /** Every kind has one block, and the NAT block comes after the router block. */
  predicate RouterBeforeNAT(blocks: seq<Kind>) {
    forall i, j | 0 <= i < j < |blocks| ::
      blocks[i] != blocks[j] && !(blocks[i].ComputeRouterNAT? && blocks[j].ComputeRouter?)
  }

  lemma {:induction false} AfterAllBlocks(gate: bool, blocks: seq<Kind>, spec: Spec, slot: Slot, before: Option<Progress>)
    requires slot.kind in blocks && slot.name in NamesOf(spec.items(slot.kind)) && RouterBeforeNAT(blocks)
    ensures AfterBlocks(gate, blocks, spec, slot, before) ==
            Some(if MaskedRouter(gate, spec, slot) && ComputeRouterNAT in blocks then Reconciling else Healthy)
  {
    var next := AfterItems(gate, blocks[0], NamesOf(spec.items(blocks[0])), slot, before);
    if blocks[0] == slot.kind {
      AfterLaterBlocks(gate, blocks[1..], spec, slot, next);
    } else {
      AfterAllBlocks(gate, blocks[1..], spec, slot, next);
    }
  }

  lemma BlocksOrder()
    ensures RouterBeforeNAT(BLOCKS)
  {
  }

  /** Exactly which items of the spec a completed pass leaves Healthy in the stored status:
      all, except on a syncing pass the routers that share the name of a NAT. */
  lemma CompletedPassReportsHealthy(env: Env, c: Cluster, kind: Kind, item: Item)
    requires c.universe.Some? && env.interrupt.None? && ReachesEnd(env, c)
    requires !c.universe.value.terminating && !Expired(c.universe.value, env.second)
    requires item in c.universe.value.spec.items(kind)
    ensures var d := Reconcile(env, c).cluster.universe;
            && d.Some?
            && (ProgressOf(d.value.resources, Slot(kind, item.name)) == Some(Healthy) <==>
                !MaskedRouter(Start(c).Gate(), c.universe.value.spec, Slot(kind, item.name)))
  {
    var w, slot, spec, gate := Start(c), Slot(kind, item.name), c.universe.value.spec, Start(c).Gate();
    WalkEffect(env, c);
    ConcludeReports(env, WalkOf(env, c));
    BlocksProgress(env, BLOCKS, w, slot);
    EveryKindHasABlock(kind);
    EveryKindHasABlock(ComputeRouterNAT);
    BlocksOrder();
    AfterAllBlocks(gate, BLOCKS, spec, slot, ProgressOf(w.mem.resources, slot));
  }

  /** Without interference the end of a pass stores the status list the walk has built. */
  lemma ConcludeReports(env: Env, w: Walk)
    requires env.interrupt.None? && Coherent(env, w) && w.stop.None? && ClustersPresent(w)
    requires !w.mem.terminating && !Expired(w.mem, env.second)
    ensures Conclude(env, w) ==
            Outcome(Cluster(w.store, Some(w.mem.(finalizer := true, observed := w.mem.generation))), Done)
  {
  }

  lemma ReportWritesOnce(env: Env, w: Walk, kind: Kind, name: string, progress: Progress)
    ensures Report(env, w, kind, name, progress).writes == w.writes + 1
  {
  }

  /** How often synchronising one item writes the universe: not at all for a network or a subnetwork, else once. */
  lemma SyncWrites(env: Env, kind: Kind, item: Item, w: Walk)
    requires KeyOf(kind, item) in w.store
    ensures var v := SyncItem(env, kind, item, w);
            if kind.ComputeNetwork? || kind.ComputeSubnetwork? then v.mem == w.mem && v.writes == w.writes
            else v.writes == w.writes + 1
  {
    hide Report, SyncObject;
    var reporting := ReconcilingKind(kind);
    if reporting.Some? {
      ReportWritesOnce(env, w, reporting.value, item.name, Reconciling);
    }
  }

  /** What that write says: a NAT marks the router of its name as Reconciling, any other kind its own item. */
  lemma SyncReports(env: Env, kind: Kind, item: Item, w: Walk)
    requires KeyOf(kind, item) in w.store && !kind.ComputeNetwork? && !kind.ComputeSubnetwork?
    ensures ProgressOf(SyncItem(env, kind, item, w).mem.resources,
                       Slot(if kind.ComputeRouterNAT? then ComputeRouter else kind, item.name)) == Some(Reconciling)
  {
    hide SyncItem, ProgressOf;
    SyncItemProgress(env, kind, item, w, Slot(if kind.ComputeRouterNAT? then ComputeRouter else kind, item.name));
  }

  lemma CreatingItemReports(env: Env, kind: Kind, item: Item, w: Walk)
    requires w.stop.None?
    ensures var v := EnsureItem(env, kind, item, w);
            v.stop.Some? && v.stop.value.Created? ==>
              v.stop.value.key == KeyOf(kind, item) && ProgressOf(v.mem.resources, Slot(kind, item.name)) == Some(Creating)
  {
    var key := KeyOf(kind, item);
    if key in w.store {
      KeepItemEffect(env, kind, item, w);
    } else if env.create(key) {
      var made := w.(store := w.store[key := NewObject(w.mem.name, kind, item)], stop := Some(Created(key)));
      ReportEvolves(env, made, kind, item.name, Creating);
      UpsertProgress(w.mem.resources, Entry(kind, item.name, Creating), Slot(kind, item.name));
    }
  }

  ghost predicate ReportsCreation(v: Walk) {
    v.stop.Some? && v.stop.value.Created? ==>
      ProgressOf(v.mem.resources, Slot(v.stop.value.key.kind, v.stop.value.key.name)) == Some(Creating)
  }

  lemma {:induction false} CreatingItemsReport(env: Env, kind: Kind, items: seq<Item>, w: Walk)
    requires w.stop.None?
    ensures ReportsCreation(EnsureItems(env, kind, items, w))
    decreases |items|
  {
    hide EnsureItem, ProgressOf;
    if items != [] {
      CreatingItemReports(env, kind, items[0], w);
      if EnsureItem(env, kind, items[0], w).stop.None? {
        CreatingItemsReport(env, kind, items[1..], EnsureItem(env, kind, items[0], w));
      }
    }
  }

  lemma {:induction false} CreatingBlocksReport(env: Env, blocks: seq<Kind>, w: Walk)
    requires w.stop.None?
    ensures ReportsCreation(Blocks(env, blocks, w))
    decreases |blocks|
  {
    hide EnsureItems, ProgressOf, Doomed;
    if blocks != [] {
      CreatingItemsReport(env, blocks[0], w.mem.spec.items(blocks[0]), w);
      if Block(env, blocks[0], w).stop.None? {
        CreatingBlocksReport(env, blocks[1..], Block(env, blocks[0], w));
      }
    }
  }

  /** The pass that creates a resource leaves it as Creating in the stored status. */
  lemma CreatingPassReports(env: Env, c: Cluster, k: Key)
    requires c.universe.Some? && env.interrupt.None? && WalkOf(env, c).stop == Some(Created(k))
    ensures var d := Reconcile(env, c).cluster.universe;
            d.Some? && ProgressOf(d.value.resources, Slot(k.kind, k.name)) == Some(Creating)
  {
    hide Blocks, ProgressOf;
    WalkEffect(env, c);
    CreatingBlocksReport(env, BLOCKS, Start(c));
  }

  // ---- Nothing left to do --------------------------------------------------------------------------

  /** The block's prune would find nothing to delete. */
  ghost predicate Tidy(store: Store, owner: string, spec: Spec, block: Kind) {
    |Selected(store, block, owner)| > |spec.items(block)| ==>
      forall k | k in Selected(store, PrunedKind(block), owner) :: k.name in NamesOf(spec.items(ComparedKind(block)))
  }

  ghost predicate Settled(c: Cluster) {
    && Complete(c)
    && forall block :: Tidy(c.store, c.universe.value.name, c.universe.value.spec, block)
  }

  lemma TidyShrinks(s: Store, t: Store, owner: string, spec: Spec, block: Kind)
    requires Tidy(s, owner, spec, block)
    requires forall k | k in t :: k in s && t[k].labels == s[k].labels
    ensures Tidy(t, owner, spec, block)
  {
    SubsetSize(Selected(t, block, owner), Selected(s, block, owner));
    assert Selected(t, PrunedKind(block), owner) <= Selected(s, PrunedKind(block), owner);
  }

  lemma {:induction false} ReliableWalkTidies(env: Env, blocks: seq<Kind>, w: Walk, block: Kind)
    requires Reliable(env) && w.stop.None? && block in blocks && PruneLooksBack(blocks)
    ensures var v := Blocks(env, blocks, w); v.stop.None? ==> Tidy(v.store, w.mem.name, w.mem.spec, block)
    decreases |blocks|
  {
    var b := blocks[0];
    var x, y := EnsureItems(env, b, w.mem.spec.items(b), w), Block(env, b, w);
    EnsureItemsEffect(env, b, w.mem.spec.items(b), w);
    BlockEffect(env, b, w);
    var v := Blocks(env, blocks, w);
    if y.stop.None? && v.stop.None? {
      if block in blocks[1..] {
        ReliableWalkTidies(env, blocks[1..], y, block);
      } else {
        assert block == b;
        PruneTidies(env, b, x);
        BlocksEffect(env, blocks[1..], y);
        TidyShrinks(y.store, v.store, w.mem.name, w.mem.spec, b);
      }
    }
  }

  lemma PruneTidies(env: Env, block: Kind, w: Walk)
    requires Reliable(env) && w.stop.None?
    ensures Tidy(Prune(env, block, w).store, w.mem.name, w.mem.spec, block)
  {
    var y, owner := Prune(env, block, w), w.mem.name;
    SubsetSize(Selected(y.store, block, owner), Selected(w.store, block, owner));
    if |Selected(y.store, block, owner)| > |w.mem.spec.items(block)| {
      forall k | k in Selected(y.store, PrunedKind(block), owner)
        ensures k.name in NamesOf(w.mem.spec.items(ComparedKind(block))) {
        assert k in Listed(env, w, PrunedKind(block));
        assert k !in Doomed(env, block, w);
      }
    }
  }

  /** A reliable completed pass settles the cluster. */
  lemma CompletedPassSettles(env: Env, c: Cluster)
    requires Reliable(env) && Alive(c) && Missing(c) == {} && !Expired(c.universe.value, env.second)
    ensures Settled(Reconcile(env, c).cluster)
  {
    PassCompletes(env, c);
    WalkEffect(env, c);
    ConcludeKeepsStore(env, WalkOf(env, c));
    ConcludeReports(env, WalkOf(env, c));
    BlocksPruneLooksBack();
    forall block ensures Tidy(WalkOf(env, c).store, c.universe.value.name, c.universe.value.spec, block) {
      EveryKindHasABlock(block);
      ReliableWalkTidies(env, BLOCKS, Start(c), block);
    }
  }

  function Healthies(keys: seq<Key>): seq<Entry>
    ensures |Healthies(keys)| == |keys|
    ensures forall i | 0 <= i < |keys| :: Healthies(keys)[i] == Entry(keys[i].kind, keys[i].name, Healthy)
  {
    seq(|keys|, i requires 0 <= i < |keys| => Entry(keys[i].kind, keys[i].name, Healthy))
  }

  lemma {:induction false} UpsertAllConcat(list: seq<Entry>, a: seq<Entry>, b: seq<Entry>)
    ensures UpsertAll(list, a + b) == UpsertAll(UpsertAll(list, a), b)
    decreases |a|
  {
    if a == [] {
      assert a + b == b;
    } else {
      assert (a + b)[1..] == a[1..] + b;
      UpsertAllConcat(Upsert(list, a[0]), a[1..], b);
    }
  }

  lemma {:induction false} IdleItems(env: Env, kind: Kind, items: seq<Item>, w: Walk)
    requires w.stop.None? && !w.Gate() && forall item | item in items :: KeyOf(kind, item) in w.store
    ensures var v := EnsureItems(env, kind, items, w);
            && v.store == w.store && v.stop.None? && SameCopy(w.mem, v.mem)
            && v.mem.resources == UpsertAll(w.mem.resources, Healthies(KeysOf(kind, items)))
            && (Coherent(env, w) ==> Coherent(env, v))
    decreases |items|
  {
    if items != [] {
      ReportEvolves(env, w, kind, items[0].name, Healthy);
      IdleItems(env, kind, items[1..], EnsureItem(env, kind, items[0], w));
      assert Healthies(KeysOf(kind, items))[1..] == Healthies(KeysOf(kind, items[1..]));
    }
  }

  lemma TidyMeansNothingDoomed(env: Env, block: Kind, w: Walk)
    requires Tidy(w.store, w.mem.name, w.mem.spec, block)
    ensures Doomed(env, block, w) == {}
  {
    SubsetSize(Listed(env, w, block), Selected(w.store, block, w.mem.name));
  }

  /** A block with nothing to do only reports. */
  ghost predicate Idles(env: Env, w: Walk, v: Walk, keys: seq<Key>) {
    && v.store == w.store && v.stop.None? && SameCopy(w.mem, v.mem)
    && v.mem.resources == UpsertAll(w.mem.resources, Healthies(keys))
    && (Coherent(env, w) ==> Coherent(env, v))
  }

  lemma IdlesTransitive(env: Env, w: Walk, x: Walk, v: Walk, a: seq<Key>, b: seq<Key>)
    requires Idles(env, w, x, a) && Idles(env, x, v, b)
    ensures Idles(env, w, v, a + b)
  {
    assert Healthies(a + b) == Healthies(a) + Healthies(b);
    UpsertAllConcat(w.mem.resources, Healthies(a), Healthies(b));
  }

  lemma IdleBlock(env: Env, block: Kind, w: Walk)
    requires w.stop.None? && !w.Gate() && forall k | k in KeysOf(block, w.mem.spec.items(block)) :: k in w.store
    requires Tidy(w.store, w.mem.name, w.mem.spec, block)
    ensures Idles(env, w, Block(env, block, w), KeysOf(block, w.mem.spec.items(block)))
  {
    var items := w.mem.spec.items(block);
    forall item | item in items ensures KeyOf(block, item) in w.store {
      ItemInSpec(w.mem.spec, block, item);
    }
    var x := EnsureItems(env, block, items, w);
    IdleItems(env, block, items, w);
    TidyMeansNothingDoomed(env, block, x);
    PruneEffect(env, block, x);
  }

  lemma {:induction false} IdleBlocks(env: Env, blocks: seq<Kind>, w: Walk)
    requires w.stop.None? && !w.Gate() && forall k | k in Flatten(blocks, w.mem.spec) :: k in w.store
    requires forall b | b in blocks :: Tidy(w.store, w.mem.name, w.mem.spec, b)
    ensures Idles(env, w, Blocks(env, blocks, w), Flatten(blocks, w.mem.spec))
    decreases |blocks|
  {
    if blocks != [] {
      var b, spec := blocks[0], w.mem.spec;
      var x := Block(env, b, w);
      IdleBlock(env, b, w);
      IdleBlocks(env, blocks[1..], x);
      IdlesTransitive(env, w, x, Blocks(env, blocks, w), KeysOf(b, spec.items(b)), Flatten(blocks[1..], spec));
    }
  }

  /** A pass over a settled cluster, whatever the API answers, only reports every item as Healthy. */
  lemma SettledPass(env: Env, c: Cluster)
    requires Settled(c) && env.interrupt.None? && !Expired(c.universe.value, env.second)
    ensures var u := c.universe.value;
            && Reconcile(env, c) == Outcome(Cluster(c.store, Some(u.(
                 resources := UpsertAll(u.resources, Healthies(Flatten(BLOCKS, u.spec)))))), Done)
            && Settled(Reconcile(env, c).cluster)
  {
    var u, w := c.universe.value, WalkOf(env, c);
    forall k | k in Flatten(BLOCKS, u.spec) ensures k in c.store {
      assert k !in Missing(c);
    }
    IdleBlocks(env, BLOCKS, Start(c));
    forall item | item in u.spec.items(ContainerCluster) ensures KeyOf(ContainerCluster, item) in w.store {
      ItemInSpec(u.spec, ContainerCluster, item);
      FlattenBlocks(u.spec, KeyOf(ContainerCluster, item));
    }
    ConcludeReports(env, w);
    assert Missing(Reconcile(env, c).cluster) == Missing(c);
  }

  ghost predicate Holds(list: seq<Entry>, e: Entry) {
    Has(list, SlotOf(e)) && list[Find(list, SlotOf(e))] == e
  }

  lemma UpsertHolds(list: seq<Entry>, e: Entry, f: Entry)
    requires e.progress == f.progress
    ensures Holds(Upsert(list, e), e) && (Holds(list, f) ==> Holds(Upsert(list, e), f))
  {
    UpsertAt(list, e, SlotOf(e));
    UpsertAt(list, e, SlotOf(f));
  }

  lemma {:induction false} UpsertAllHolds(list: seq<Entry>, reports: seq<Entry>, f: Entry)
    requires forall e | e in reports :: e.progress == f.progress
    requires f in reports || Holds(list, f)
    ensures Holds(UpsertAll(list, reports), f)
    decreases |reports|
  {
    if reports != [] {
      UpsertHolds(list, reports[0], f);
      if f !in reports[1..] && f == reports[0] {
        assert Holds(Upsert(list, f), f);
      }
      UpsertAllHolds(Upsert(list, reports[0]), reports[1..], f);
    }
  }

  lemma {:induction false} UpsertAllIdle(list: seq<Entry>, reports: seq<Entry>)
    requires forall e | e in reports :: Holds(list, e)
    ensures UpsertAll(list, reports) == list
    decreases |reports|
  {
    if reports != [] {
      assert reports[0] in reports;
      assert Upsert(list, reports[0]) == list;
      UpsertAllIdle(list, reports[1..]);
    }
  }

  /** Reporting every item as Healthy a second time changes nothing. */
  lemma HealthyTwice(list: seq<Entry>, keys: seq<Key>)
    ensures UpsertAll(UpsertAll(list, Healthies(keys)), Healthies(keys)) == UpsertAll(list, Healthies(keys))
  {
    var all := UpsertAll(list, Healthies(keys));
    forall e | e in Healthies(keys) ensures Holds(all, e) {
      UpsertAllHolds(list, Healthies(keys), e);
    }
    UpsertAllIdle(all, Healthies(keys));
  }

  /** Once settled, the passes of any run keep every resource, the record and the finalizer,
      and from the first of them on the whole cluster, status list included, stands still. */
  lemma {:induction false} Quiescent(envs: seq<Env>, c: Cluster, i: nat)
    requires Settled(c) && 1 <= i <= |envs|
    requires forall e | e in envs :: e.interrupt.None? && !Expired(c.universe.value, e.second)
    ensures var run := Trace(envs, c);
            && run[i] == run[1] && run[1].store == c.store && run[1].universe.Some?
            && run[1].universe.value == c.universe.value.(resources := run[1].universe.value.resources)
    decreases i
  {
    var d := Reconcile(envs[0], c).cluster;
    SettledPass(envs[0], c);
    TraceStep(envs, c, 0);
    if i > 1 {
      var rest := Trace(envs[1..], d);
      assert Trace(envs, c)[i] == rest[i - 1];
      Quiescent(envs[1..], d, i - 1);
      SettledPass(envs[1], d);
      TraceStep(envs[1..], d, 0);
      HealthyTwice(c.universe.value.resources, Flatten(BLOCKS, c.universe.value.spec));
      assert rest[1] == d;
    }
  }

  lemma SettledStays(c: Cluster, envs: seq<Env>, i: nat)
    requires Settled(c) && i <= |envs|
    requires forall e | e in envs :: e.interrupt.None? && !Expired(c.universe.value, e.second)
    ensures var later := Trace(envs, c)[i];
            && later.store == c.store && later.universe.Some?
            && later.universe.value == c.universe.value.(resources := later.universe.value.resources)
  {
    if i > 0 {
      Quiescent(envs, c, i);
    }
  }
}
