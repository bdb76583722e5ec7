/** The universe reconciler in the form of its source: an API server whose store changes, a copy of the
    universe in memory that is changed in place, and loops over items, lists and names.
    Every method is proved against the functions of module Pass. */
module UniverseController {
  import opened Base
  import opened Resources
  import opened Status
  import opened Pass
  import opened Walking

  // ---- Lists taken during a pass -------------------------------------------------------------------

  /** A list taken earlier in the pass still tells which stored resources of its kind are the universe's. */
  ghost predicate Snapshot(env: Env, w: Walk, kind: Kind, list: seq<Key>) {
    (set k | k in list && k in w.store) == Listed(env, w, kind)
  }

  lemma SnapshotLasts(env: Env, w: Walk, v: Walk, kind: Kind, list: seq<Key>)
    requires Evolves(env, w, v) && v.stop.None? && Snapshot(env, w, kind, list)
    ensures Snapshot(env, v, kind, list)
  {
    forall k ensures k in list && k in v.store <==> k in Listed(env, v, kind) {
      assert k in list && k in w.store <==> k in Listed(env, w, kind);
    }
  }

  ghost predicate Snapshots(env: Env, w: Walk, lists: map<Kind, seq<Key>>) {
    forall kind | kind in lists :: Snapshot(env, w, kind, lists[kind])
  }

  lemma SnapshotsLast(env: Env, w: Walk, v: Walk, lists: map<Kind, seq<Key>>)
    requires Evolves(env, w, v) && v.stop.None? && Snapshots(env, w, lists)
    ensures Snapshots(env, v, lists)
  {
    forall kind | kind in lists ensures Snapshot(env, v, kind, lists[kind]) {
      SnapshotLasts(env, w, v, kind, lists[kind]);
    }
  }

  lemma FreshSnapshot(env: Env, w: Walk, kind: Kind, list: seq<Key>)
    requires (set k | k in list) == Listed(env, w, kind)
    ensures Snapshot(env, w, kind, list)
  {
  }

  /** What the nested loops delete when they range over an earlier list. */
  ghost function Discarded(env: Env, spec: Spec, block: Kind, count: nat, candidates: seq<Key>): set<Key> {
    if count > |spec.items(block)|
    then set k | k in candidates && k.name !in NamesOf(spec.items(ComparedKind(block))) && env.delete(block, k)
    else {}
  }

  /** Ranging over the earlier list deletes the same resources as ranging over the current ones. */
  lemma PruneAgrees(env: Env, block: Kind, w: Walk, candidates: seq<Key>, count: nat)
    requires Snapshot(env, w, PrunedKind(block), candidates) && count == |Listed(env, w, block)|
    ensures w.store - Discarded(env, w.mem.spec, block, count, candidates) == Pass.Prune(env, block, w).store
  {
    var gone := Discarded(env, w.mem.spec, block, count, candidates);
    forall k | k in w.store ensures k in gone <==> k in Doomed(env, block, w) {
      assert k in candidates && k in w.store <==> k in Listed(env, w, PrunedKind(block));
    }
  }

  /** What a block has deleted, and that the lists taken so far still hold after it. */
  lemma BlockPrunes(env: Env, block: Kind, w: Walk, before: map<Kind, seq<Key>>, own: seq<Key>)
    requires w.stop.None? && Snapshots(env, w, before) && PrunedKind(block) in before.Keys + {block}
    requires var x := Pass.EnsureItems(env, block, w.mem.spec.items(block), w);
             x.stop.None? && (set k | k in own) == Listed(env, x, block) && |own| == |Listed(env, x, block)|
    ensures var x, lists := Pass.EnsureItems(env, block, w.mem.spec.items(block), w), before[block := own];
            var y := Block(env, block, w);
            && y == x.(store := x.store - Discarded(env, x.mem.spec, block, |own|, lists[PrunedKind(block)]))
            && Snapshots(env, y, lists)
  {
    hide Pass.EnsureItem, Pass.EnsureItems, Listed, Doomed, Discarded;
    var x, lists := Pass.EnsureItems(env, block, w.mem.spec.items(block), w), before[block := own];
    EnsureItemsEffect(env, block, w.mem.spec.items(block), w);
    SnapshotsLast(env, w, x, before);
    FreshSnapshot(env, x, block, own);
    PruneAgrees(env, block, x, lists[PrunedKind(block)], |own|);
    PruneEffect(env, block, x);
    SnapshotsLast(env, x, Pass.Prune(env, block, x), lists);
  }

  /** What is left of a walk from block number b on. */
  lemma BlocksFrom(env: Env, b: nat, w: Walk)
    requires b <= |BLOCKS|
    ensures Blocks(env, BLOCKS[b..], w) ==
            if b == |BLOCKS| || w.stop.Some? then w else Blocks(env, BLOCKS[b + 1..], Block(env, BLOCKS[b], w))
  {
    hide Block;
    if b < |BLOCKS| {
      assert BLOCKS[b..][1..] == BLOCKS[b + 1..] && BLOCKS[b..][0] == BLOCKS[b];
    }
  }

  lemma PrunedComesBefore(b: nat)
    requires b < |BLOCKS|
    ensures PrunedKind(BLOCKS[b]) in BLOCKS[..b + 1]
  {
    assert BLOCKS[..b + 1][b] == BLOCKS[b];
    if b == 2 || b == 6 {
      assert BLOCKS[..b + 1][b - 1] == PrunedKind(BLOCKS[b]);
    } else if b == 7 {
      assert BLOCKS[..b + 1][5] == SQLInstance;
    }
  }

  // ---- The API server ------------------------------------------------------------------------------

  /** The universe object as a pass holds it: its value and the version it was read at. */
  class UniverseCopy {
    var value: Universe
    var version: nat

    constructor (value: Universe, version: nat)
      ensures this.value == value && this.version == version
    {
      this.value := value;
      this.version := version;
    }
  }

  class ApiServer {
    const env: Env
    var store: Store
    var universe: Option<Universe>
    var version: nat
    var writes: nat

    constructor (env: Env, cluster: Cluster)
      ensures this.env == env && store == cluster.store && universe == cluster.universe && writes == 0
    {
      this.env := env;
      store := cluster.store;
      universe := cluster.universe;
      version := 0;
      writes := 0;
    }

    /** The state of the walk that a pass holding this copy is in. */
    ghost function WalkWith(u: UniverseCopy, stop: Option<Stop>): Walk
      reads this, u
    {
      Walk(store, u.value, universe, u.version != version, writes, stop)
    }

    /** The copy is no newer than the stored universe, and equal to it when the versions are. */
    ghost predicate Tracks(u: UniverseCopy)
      reads this, u
    {
      u.version <= version && (u.version == version ==> universe == Some(u.value))
    }

    method GetUniverse() returns (u: UniverseCopy?)
      ensures u == null <==> universe.None?
      ensures u != null ==> fresh(u) && u.value == universe.value && u.version == version
    {
      if universe.None? {
        return null;
      }
      u := new UniverseCopy(universe.value, version);
    }

    method Create(key: Key, r: Resource) returns (ok: bool)
      modifies this`store
      ensures ok == env.create(key)
      ensures store == if ok then old(store)[key := r] else old(store)
    {
      ok := env.create(key);
      if ok {
        store := store[key := r];
      }
    }

    method Update(key: Key, r: Resource) returns (ok: bool)
      requires key in store
      modifies this`store
      ensures ok == env.update(key)
      ensures store == if ok then old(store)[key := r] else old(store)
    {
      ok := env.update(key);
      if ok {
        store := store[key := r];
      }
    }

    method Delete(block: Kind, key: Key)
      modifies this`store
      ensures store == if env.delete(block, key) then old(store) - {key} else old(store)
    {
      if env.delete(block, key) {
        store := store - {key};
      }
    }

    /** Lists the resources of a kind with the owner's label, in some order; nothing if the call fails. */
    method List(kind: Kind, owner: string) returns (items: seq<Key>)
      ensures forall w: Walk | w.store == store && w.mem.name == owner ::
                (set k | k in items) == Listed(env, w, kind) && |items| == |Listed(env, w, kind)|
    {
      items := [];
      if !env.list(kind) {
        return;
      }
      var todo := Selected(store, kind, owner);
      ghost var all := todo;
      while todo != {}
        invariant todo <= all
        invariant (set k | k in items) == all - todo
        invariant |items| + |todo| == |all|
        decreases |todo|
      {
        var k :| k in todo;
        ghost var before := set j | j in items;
        items := items + [k];
        todo := todo - {k};
        assert (set j | j in items) == before + {k};
      }
    }

    /** A user action that is due changes the stored universe and so its version. */
    method Interfere()
      modifies this`universe, this`version, this`writes
      ensures writes == old(writes) + 1
      ensures var due := env.interrupt.Some? && env.interrupt.value.at == old(writes)
                         && Changes(old(universe), env.interrupt.value.action);
              && universe == (if due then Act(old(universe), env.interrupt.value.action) else old(universe))
              && version == (if due then old(version) + 1 else old(version))
    {
      if env.interrupt.Some? && env.interrupt.value.at == writes && Changes(universe, env.interrupt.value.action) {
        universe := Act(universe, env.interrupt.value.action);
        version := version + 1;
      }
      writes := writes + 1;
    }

    /** Status().Update: stores the status of the copy if its version is current, and refreshes the copy. */
    method UpdateStatus(u: UniverseCopy, ghost was: Universe) returns (ok: bool)
      requires u.version <= version && (u.version == version ==> universe == Some(was))
      requires u.value == was.(resources := u.value.resources, observed := u.value.observed)
      modifies this`universe, this`version, this`writes, u
      ensures Tracks(u) && ok == (u.version == version)
      ensures WalkWith(u, None) == Write(env, old(WalkWith(u, None)))
    {
      Interfere();
      ok := u.version == version;
      if ok {
        universe := Some(universe.value.(resources := u.value.resources, observed := u.value.observed));
        version := version + 1;
        u.value, u.version := universe.value, version;
      }
    }

    /** Update of the universe itself, used to change its finalizer: stores everything but the status.
        A terminating universe that loses its finalizer disappears. */
    method UpdateUniverse(u: UniverseCopy, ghost was: Universe) returns (ok: bool)
      requires u.version <= version && (u.version == version ==> universe == Some(was))
      requires u.value == was.(finalizer := u.value.finalizer)
      modifies this`universe, this`version, this`writes, u
      ensures u.version <= version && ok == (u.version == version)
      ensures var w := Write(env, old(WalkWith(u, None)));
        && ok == !w.stale && store == w.store && u.value == w.mem && writes == w.writes
        && universe == if ok && u.value.terminating && !u.value.finalizer then None else w.server
    {
      Interfere();
      ok := u.version == version;
      if ok {
        universe := Some(universe.value.(finalizer := u.value.finalizer, spec := u.value.spec));
        version := version + 1;
        u.value, u.version := universe.value, version;
        if u.value.terminating && !u.value.finalizer {
          universe := None;
        }
      }
    }

    /** Delete of the universe itself, which is not conditional on a version. */
    method DeleteUniverse() returns (ok: bool)
      modifies this`universe, this`version
      ensures ok == (env.expire && old(universe).Some?)
      ensures ok ==> universe == Act(old(universe), RequestDeletion)
      ensures ok ==> version == if Changes(old(universe), RequestDeletion) then old(version) + 1 else old(version)
      ensures !ok ==> universe == old(universe) && version == old(version)
    {
      ok := env.expire && universe.Some?;
      if ok {
        if Changes(universe, RequestDeletion) {
          version := version + 1;
        }
        universe := Act(universe, RequestDeletion);
      }
    }
  }

  class UniverseReconciler {
    const client: ApiServer

    constructor (client: ApiServer)
      ensures this.client == client
    {
      this.client := client;
    }

    /** The scans of updateStatus: append the entry if its slot is new, overwrite the slot's first entry otherwise. */
    static method Overwrite(list: seq<Entry>, entry: Entry) returns (r: seq<Entry>)
      ensures r == Upsert(list, entry)
    {
      var created := false;
      for i := 0 to |list|
        invariant created <==> exists j | 0 <= j < i :: SlotOf(list[j]) == SlotOf(entry)
      {
        if SlotOf(list[i]) == SlotOf(entry) {
          created := true;
        }
      }
      if !created {
        return list + [entry];
      }
      for index := 0 to |list|
        invariant index <= Find(list, SlotOf(entry)) < |list|
      {
        if SlotOf(list[index]) == SlotOf(entry) {
          return list[index := entry];
        }
      }
      assert false;
    }

    /** updateStatus of controllers/sync.go: change the list of the copy and offer it to the server. */
    method UpdateStatus(u: UniverseCopy, kind: Kind, name: string, progress: Progress)
      requires client.Tracks(u)
      modifies client`universe, client`version, client`writes, u
      ensures client.Tracks(u)
      ensures client.WalkWith(u, None) == Report(client.env, old(client.WalkWith(u, None)), kind, name, progress)
    {
      ghost var was := u.value;
      var list := Overwrite(u.value.resources, Entry(kind, name, progress));
      u.value := u.value.(resources := list);
      var _ := client.UpdateStatus(u, was);
    }

    /** The part of a block's loop body that synchronises an existing resource. */
    method SyncItem(kind: Kind, item: Item, u: UniverseCopy)
      requires client.Tracks(u) && KeyOf(kind, item) in client.store
      modifies client`store, client`universe, client`version, client`writes, u
      ensures client.Tracks(u)
      ensures client.WalkWith(u, None) == Pass.SyncItem(client.env, kind, item, old(client.WalkWith(u, None)))
    {
      var key := KeyOf(kind, item);
      var found := client.store[key];
      var reporting := ReconcilingKind(kind);
      if reporting.Some? {
        UpdateStatus(u, reporting.value, item.name, Reconciling);
      }
      var _ := client.Update(key, SyncObject(kind, found, item));
    }

    /** The body of a block's loop over its items. */
    method EnsureItem(kind: Kind, item: Item, u: UniverseCopy) returns (stop: Option<Stop>)
      requires client.Tracks(u)
      modifies client`store, client`universe, client`version, client`writes, u
      ensures client.Tracks(u)
      ensures client.WalkWith(u, stop) == Pass.EnsureItem(client.env, kind, item, old(client.WalkWith(u, None)))
    {
      var key := KeyOf(kind, item);
      if key !in client.store {
        var ok := client.Create(key, NewObject(u.value.name, kind, item));
        if !ok {
          return Some(CreateFailed(key));
        }
        UpdateStatus(u, kind, item.name, Creating);
        return Some(Created(key));
      }
      if u.value.observed < u.value.generation && u.value.observed >= 1 {
        SyncItem(kind, item, u);
      }
      UpdateStatus(u, kind, item.name, Healthy);
      return None;
    }

    /** A block's loop over the items of its kind. */
    method EnsureItems(kind: Kind, u: UniverseCopy) returns (stop: Option<Stop>)
      requires client.Tracks(u)
      modifies client`store, client`universe, client`version, client`writes, u
      ensures client.Tracks(u)
      ensures client.WalkWith(u, stop) ==
              Pass.EnsureItems(client.env, kind, old(u.value.spec.items(kind)), old(client.WalkWith(u, None)))
    {
      var items := u.value.spec.items(kind);
      ghost var w := client.WalkWith(u, None);
      for i := 0 to |items|
        invariant client.Tracks(u)
        invariant Pass.EnsureItems(client.env, kind, items[i..], client.WalkWith(u, None)) ==
                  Pass.EnsureItems(client.env, kind, items, w)
      {
        assert items[i..][1..] == items[i + 1..];
        stop := EnsureItem(kind, items[i], u);
        if stop.Some? {
          return;
        }
      }
      return None;
    }

    /** A block's prune: the nested loops over a list and the names of a spec. */
    method Prune(block: Kind, own: seq<Key>, candidates: seq<Key>, u: UniverseCopy)
      modifies client`store
      ensures client.store == old(client.store) - Discarded(client.env, u.value.spec, block, |own|, candidates)
    {
      var inSpec := u.value.spec.items(ComparedKind(block));
      ghost var was := client.store;
      if |own| <= |u.value.spec.items(block)| {
        assert was - {} == was;
        return;
      }
      ghost var gone: set<Key> := {};
      for i := 0 to |candidates|
        invariant gone == set k | k in candidates[..i] && k.name !in NamesOf(inSpec) && client.env.delete(block, k)
        invariant client.store == was - gone
      {
        var isDelete := true;
        for j := 0 to |inSpec|
          invariant isDelete <==> forall n | 0 <= n < j :: inSpec[n].name != candidates[i].name
        {
          if inSpec[j].name == candidates[i].name {
            isDelete := false;
          }
        }
        assert isDelete <==> candidates[i].name !in NamesOf(inSpec);
        assert candidates[..i + 1] == candidates[..i] + [candidates[i]];
        if isDelete {
          client.Delete(block, candidates[i]);
          if client.env.delete(block, candidates[i]) {
            gone := gone + {candidates[i]};
          }
        }
      }
      assert candidates[..|candidates|] == candidates;
    }

    /** One block: ensure its items, list its resources, prune. Later blocks may range over the lists of earlier ones. */
    method RunBlock(block: Kind, before: map<Kind, seq<Key>>, u: UniverseCopy)
      returns (stop: Option<Stop>, lists: map<Kind, seq<Key>>)
      requires client.Tracks(u) && PrunedKind(block) in before.Keys + {block}
      requires Snapshots(client.env, client.WalkWith(u, None), before)
      modifies client`store, client`universe, client`version, client`writes, u
      ensures client.Tracks(u)
      ensures client.WalkWith(u, stop) == Block(client.env, block, old(client.WalkWith(u, None)))
      ensures stop.None? ==> lists.Keys == before.Keys + {block} && Snapshots(client.env, client.WalkWith(u, None), lists)
    {
      hide Pass.EnsureItems, Pass.Prune, Listed, Discarded, Snapshots;
      ghost var w := client.WalkWith(u, None);
      lists := before;
      stop := EnsureItems(block, u);
      if stop.Some? {
        return;
      }
      ghost var x := client.WalkWith(u, None);
      var own := client.List(block, u.value.name);
      BlockPrunes(client.env, block, w, before, own);
      lists := lists[block := own];
      Prune(block, own, lists[PrunedKind(block)], u);
      assert client.WalkWith(u, None) == Block(client.env, block, w);
    }

    /** The walk over the ten blocks. */
    method WalkBlocks(u: UniverseCopy) returns (stop: Option<Stop>)
      requires client.Tracks(u)
      modifies client`store, client`universe, client`version, client`writes, u
      ensures client.Tracks(u)
      ensures client.WalkWith(u, stop) == Blocks(client.env, BLOCKS, old(client.WalkWith(u, None)))
    {
      hide Block, Blocks, Snapshot, PrunedKind;
      ghost var w := client.WalkWith(u, None);
      assert BLOCKS[0..] == BLOCKS;
      var lists: map<Kind, seq<Key>> := map[];
      for b := 0 to |BLOCKS|
        invariant client.Tracks(u)
        invariant Blocks(client.env, BLOCKS[b..], client.WalkWith(u, None)) == Blocks(client.env, BLOCKS, w)
        invariant lists.Keys == set k | k in BLOCKS[..b]
        invariant Snapshots(client.env, client.WalkWith(u, None), lists)
      {
        ghost var before := client.WalkWith(u, None);
        BlocksFrom(client.env, b, before);
        assert BLOCKS[..b + 1] == BLOCKS[..b] + [BLOCKS[b]];
        PrunedComesBefore(b);
        stop, lists := RunBlock(BLOCKS[b], lists, u);
        BlocksFrom(client.env, b + 1, client.WalkWith(u, stop));
        if stop.Some? {
          return;
        }
      }
      BlocksFrom(client.env, |BLOCKS|, client.WalkWith(u, None));
      return None;
    }

    /** The time to live, and the last status write. */
    method Expire(u: UniverseCopy) returns (result: Result)
      requires client.Tracks(u) && u.value.finalizer && !u.value.terminating
      modifies client`universe, client`version, client`writes, u
      ensures Outcome(Cluster(client.store, client.universe), result) ==
              Pass.Expire(client.env, old(client.WalkWith(u, None)))
    {
      if Expired(u.value, client.env.second) {
        var ok := client.DeleteUniverse();
        if !ok {
          return Failed;
        }
      }
      ghost var was := u.value;
      u.value := u.value.(observed := u.value.generation);
      var _ := client.UpdateStatus(u, was);
      return Done;
    }

    /** What follows the blocks: finish a deletion, or add the finalizer and record the generation. */
    method Finish(u: UniverseCopy) returns (result: Result)
      requires client.Tracks(u)
      modifies client`universe, client`version, client`writes, u
      ensures Outcome(Cluster(client.store, client.universe), result) ==
              Pass.Finish(client.env, old(client.WalkWith(u, None)))
    {
      hide Pass.Expire;
      ghost var was := u.value;
      if u.value.terminating {
        if u.value.finalizer {
          u.value := u.value.(finalizer := false);
          var ok := client.UpdateUniverse(u, was);
          if !ok {
            return Failed;
          }
        }
        return Done;
      }
      if !u.value.finalizer {
        u.value := u.value.(finalizer := true);
        var ok := client.UpdateUniverse(u, was);
        if !ok {
          return Failed;
        }
      }
      result := Expire(u);
    }

    /** One pass. */
    method Reconcile() returns (result: Result)
      requires client.writes == 0
      modifies client
      ensures Outcome(Cluster(client.store, client.universe), result) ==
              Pass.Reconcile(client.env, old(Cluster(client.store, client.universe)))
    {
      hide Pass.Finish, Blocks;
      var u := client.GetUniverse();
      if u == null {
        return Done;
      }
      var stop := WalkBlocks(u);
      match stop
      case Some(Created(_)) => return Requeue;
      case Some(CreateFailed(_)) => return Failed;
      case None =>
        var items := u.value.spec.items(ContainerCluster);
        for i := 0 to |items|
          invariant forall j | 0 <= j < i :: KeyOf(ContainerCluster, items[j]) in client.store
        {
          if KeyOf(ContainerCluster, items[i]) !in client.store {
            return Requeue;
          }
        }
        result := Finish(u);
    }
  }
}
