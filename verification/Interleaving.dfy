/** Two workers take turns, item by item and prune by prune, over one store: whatever the schedule,
    each pass goes as if it were alone, and the store ends up as if one had followed the other. */
module Interleaving {
  import opened Base
  import opened Utils
  import opened Resources
  import opened Pass
  import opened Walking
  import opened Convergence
  import opened Isolation

  /** What a walk does in one turn: handle one item, or prune for one block. */
  datatype Task = Ensure(kind: Kind, item: Item) | PruneFor(block: Kind)

  function ItemTasks(kind: Kind, items: seq<Item>): seq<Task> {
    if items == [] then [] else [Ensure(kind, items[0])] + ItemTasks(kind, items[1..])
  }

  function TasksOf(blocks: seq<Kind>, spec: Spec): seq<Task> {
    if blocks == [] then []
    else ItemTasks(blocks[0], spec.items(blocks[0])) + [PruneFor(blocks[0])] + TasksOf(blocks[1..], spec)
  }

  function Do(env: Env, task: Task, w: Walk): Walk {
    if w.stop.Some? then w
    else match task
      case Ensure(kind, item) => EnsureItem(env, kind, item, w)
      case PruneFor(block) => Prune(env, block, w)
  }

  function DoAll(env: Env, tasks: seq<Task>, w: Walk): Walk
    decreases |tasks|
  {
    if tasks == [] then w else DoAll(env, tasks[1..], Do(env, tasks[0], w))
  }

  predicate Belongs(spec: Spec, task: Task) {
    task.Ensure? ==> task.item in spec.items(task.kind)
  }

  // ---- A pass is its tasks -----------------------------------------------------------------------------

  lemma {:induction false} DoAllConcat(env: Env, a: seq<Task>, b: seq<Task>, w: Walk)
    ensures DoAll(env, a + b, w) == DoAll(env, b, DoAll(env, a, w))
    decreases |a|
  {
    hide Do;
    if a == [] {
      assert a + b == b;
    } else {
      assert (a + b)[1..] == a[1..] + b;
      DoAllConcat(env, a[1..], b, Do(env, a[0], w));
    }
  }

  lemma {:induction false} StoppedDoesNothing(env: Env, tasks: seq<Task>, w: Walk)
    requires w.stop.Some?
    ensures DoAll(env, tasks, w) == w
    decreases |tasks|
  {
    if tasks != [] {
      StoppedDoesNothing(env, tasks[1..], w);
    }
  }

  lemma {:induction false} ItemTasksEnsure(env: Env, kind: Kind, items: seq<Item>, w: Walk)
    ensures DoAll(env, ItemTasks(kind, items), w) == EnsureItems(env, kind, items, w)
    decreases |items|
  {
    hide EnsureItem;
    if w.stop.Some? {
      StoppedDoesNothing(env, ItemTasks(kind, items), w);
    } else if items != [] {
      ItemTasksEnsure(env, kind, items[1..], EnsureItem(env, kind, items[0], w));
      assert ItemTasks(kind, items)[1..] == ItemTasks(kind, items[1..]);
    }
  }

  lemma BlockIsItsTasks(env: Env, block: Kind, w: Walk)
    requires w.stop.None?
    ensures DoAll(env, ItemTasks(block, w.mem.spec.items(block)) + [PruneFor(block)], w) == Block(env, block, w)
  {
    hide EnsureItems, Prune;
    var tasks := ItemTasks(block, w.mem.spec.items(block));
    var x := EnsureItems(env, block, w.mem.spec.items(block), w);
    DoAllConcat(env, tasks, [PruneFor(block)], w);
    ItemTasksEnsure(env, block, w.mem.spec.items(block), w);
    assert DoAll(env, [PruneFor(block)], x) == Do(env, PruneFor(block), x) by {
      assert [PruneFor(block)][1..] == [];
    }
  }

  lemma {:induction false} BlocksAreTheirTasks(env: Env, blocks: seq<Kind>, w: Walk)
    ensures DoAll(env, TasksOf(blocks, w.mem.spec), w) == Blocks(env, blocks, w)
    decreases |blocks|
  {
    hide Block, Do;
    if w.stop.Some? {
      StoppedDoesNothing(env, TasksOf(blocks, w.mem.spec), w);
    } else if blocks != [] {
      var b, x := blocks[0], Block(env, blocks[0], w);
      BlockEffect(env, b, w);
      BlockIsItsTasks(env, b, w);
      DoAllConcat(env, ItemTasks(b, w.mem.spec.items(b)) + [PruneFor(b)], TasksOf(blocks[1..], w.mem.spec), w);
      BlocksAreTheirTasks(env, blocks[1..], x);
    }
  }

  lemma {:induction false} ItemTasksBelong(kind: Kind, items: seq<Item>, spec: Spec)
    requires forall item | item in items :: item in spec.items(kind)
    ensures forall task | task in ItemTasks(kind, items) :: Belongs(spec, task)
  {
    if items != [] {
      ItemTasksBelong(kind, items[1..], spec);
    }
  }

  lemma {:induction false} TasksBelong(blocks: seq<Kind>, spec: Spec)
    ensures forall task | task in TasksOf(blocks, spec) :: Belongs(spec, task)
  {
    if blocks != [] {
      ItemTasksBelong(blocks[0], spec.items(blocks[0]), spec);
      TasksBelong(blocks[1..], spec);
    }
  }

  // ---- One turn ----------------------------------------------------------------------------------------

  /** Two walks over parts of a store that do not concern each other, and a rest that concerns neither. */
  ghost predicate Apart(w: Walk, o: Walk, rest: Store) {
    && w.mem.name != o.mem.name && (forall k :: !(InSpec(w.mem.spec, k) && InSpec(o.mem.spec, k)))
    && w.store.Keys !! o.store.Keys && w.store.Keys !! rest.Keys && o.store.Keys !! rest.Keys
    && Foreign(w.store, o.mem) && Foreign(o.store, w.mem) && Foreign(rest, w.mem) && Foreign(rest, o.mem)
  }

  lemma DoEffect(env: Env, task: Task, w: Walk)
    requires w.stop.None? && Belongs(w.mem.spec, task)
    ensures var v := Do(env, task, w);
            v.stop == w.stop || v.stop.value.CreateFailed? || v.stop.value.key !in w.store
    ensures (task.Ensure? && KeyOf(task.kind, task.item) !in w.store && !env.create(KeyOf(task.kind, task.item)))
            || Evolves(env, w, Do(env, task, w))
    ensures (task.Ensure? && KeyOf(task.kind, task.item) !in w.store && !env.create(KeyOf(task.kind, task.item)))
            ==> Do(env, task, w) == w.(stop := Some(CreateFailed(KeyOf(task.kind, task.item))))
  {
    match task
    case Ensure(kind, item) =>
      if KeyOf(kind, item) in w.store {
        KeepItemEffect(env, kind, item, w);
      } else if env.create(KeyOf(kind, item)) {
        CreateItemEffect(env, kind, item, w);
      }
    case PruneFor(block) =>
      PruneEffect(env, block, w);
  }

  lemma EvolvesApart(env: Env, w: Walk, v: Walk, o: Walk, rest: Store)
    requires Apart(w, o, rest) && Evolves(env, w, v)
    requires v.stop.None? || v.stop.value.CreateFailed? || v.stop.value.key !in w.store
    ensures Apart(v, o, rest)
  {
    forall k | k in v.store
      ensures k !in o.store && k !in rest && !InSpec(o.mem.spec, k) && !OwnedBy(v.store[k].labels, o.mem.name)
    {
      assert k in w.store || InSpec(w.mem.spec, k);
    }
  }

  lemma TurnKeepsApart(env: Env, task: Task, w: Walk, o: Walk, rest: Store)
    requires Apart(w, o, rest) && Belongs(w.mem.spec, task)
    ensures Apart(Do(env, task, w), o, rest) && SameCopy(w.mem, Do(env, task, w).mem)
  {
    if w.stop.None? {
      DoEffect(env, task, w);
      hide Do, Coherent, Foreign, EnsureItem, Prune;
      if Evolves(env, w, Do(env, task, w)) {
        EvolvesApart(env, w, Do(env, task, w), o, rest);
      }
    }
  }

  lemma OthersAreForeign(w: Walk, o: Walk, rest: Store)
    requires Apart(w, o, rest)
    ensures Foreign(o.store + rest, w.mem) && (o.store + rest).Keys !! w.store.Keys
  {
  }

  lemma TaskBeside(env: Env, task: Task, w: Walk, y: Store)
    requires Foreign(y, w.mem) && y.Keys !! w.store.Keys && Belongs(w.mem.spec, task)
    ensures Do(env, task, Beside(w, y)) == Beside(Do(env, task, w), y)
  {
    hide EnsureItem, Prune;
    if w.stop.None? {
      match task
      case Ensure(kind, item) =>
        ItemInSpec(w.mem.spec, kind, item);
        EnsureItemBeside(env, kind, item, w, y);
      case PruneFor(block) =>
        PruneBeside(env, block, w, y);
    }
  }

  /** A turn of one worker does to its part of the store what it would do to that part alone,
      and keeps the parts apart. */
  lemma TurnBeside(env: Env, task: Task, w: Walk, o: Walk, rest: Store)
    requires Apart(w, o, rest) && Belongs(w.mem.spec, task)
    ensures Do(env, task, Beside(w, o.store + rest)) == Beside(Do(env, task, w), o.store + rest)
    ensures Apart(Do(env, task, w), o, rest) && SameCopy(w.mem, Do(env, task, w).mem)
  {
    hide Do, Apart, Foreign;
    OthersAreForeign(w, o, rest);
    TaskBeside(env, task, w, o.store + rest);
    TurnKeepsApart(env, task, w, o, rest);
  }

  // ---- Schedules ---------------------------------------------------------------------------------------

  /** A worker: its walk, apart from the store, and what it still has to do. */
  datatype Worker = Worker(env: Env, walk: Walk, todo: seq<Task>)

  function Turn(worker: Worker, store: Store): Worker {
    if worker.todo == [] then worker.(walk := worker.walk.(store := store))
    else worker.(walk := Do(worker.env, worker.todo[0], worker.walk.(store := store)), todo := worker.todo[1..])
  }

  datatype Shared = Shared(store: Store, left: Worker, right: Worker)

  /** A schedule says whose turn it is. */
  function Interleave(s: Shared, schedule: seq<bool>): Shared
    decreases |schedule|
  {
    if schedule == [] then s
    else
      var next := Turn(if schedule[0] then s.left else s.right, s.store);
      Interleave(if schedule[0] then Shared(next.walk.store, next, s.right) else Shared(next.walk.store, s.left, next),
                 schedule[1..])
  }

  /** The shared state is what the two workers have made of their own parts, beside the rest. */
  ghost predicate Explains(s: Shared, w: Walk, o: Walk, rest: Store) {
    && Apart(w, o, rest) && s.store == w.store + (o.store + rest)
    && s.left.walk.(store := w.store) == w && s.right.walk.(store := o.store) == o
    && (forall task | task in s.left.todo :: Belongs(w.mem.spec, task))
    && (forall task | task in s.right.todo :: Belongs(o.mem.spec, task))
  }

  lemma LeftTurn(s: Shared, w: Walk, o: Walk, rest: Store)
    requires Explains(s, w, o, rest) && s.left.todo != []
    ensures var next := Turn(s.left, s.store);
            Explains(Shared(next.walk.store, next, s.right), Do(s.left.env, s.left.todo[0], w), o, rest)
  {
    hide Do, Apart;
    var task := s.left.todo[0];
    TurnBeside(s.left.env, task, w, o, rest);
    assert s.left.walk.(store := s.store) == Beside(w, o.store + rest);
    assert forall t | t in s.left.todo[1..] :: t in s.left.todo;
  }

  function Mirror(s: Shared): Shared {
    Shared(s.store, s.right, s.left)
  }

  lemma MirrorExplains(s: Shared, w: Walk, o: Walk, rest: Store)
    requires Explains(s, w, o, rest)
    ensures Explains(Mirror(s), o, w, rest)
  {
    Swap(w.store, o.store, rest);
  }

  lemma IdleTurn(s: Shared, w: Walk, o: Walk, rest: Store)
    requires Explains(s, w, o, rest) && s.left.todo == []
    ensures var next := Turn(s.left, s.store);
            Explains(Shared(next.walk.store, next, s.right), w, o, rest)
  {
    hide Apart;
  }

  /** What a worker will have done alone. */
  function Alone(worker: Worker, w: Walk): Walk {
    DoAll(worker.env, worker.todo, w)
  }

  /** After any schedule the shared state is explained by two walks that are still on the way to what the workers
      would do alone. */
  lemma {:induction false} InterleavingIsExplained(s: Shared, schedule: seq<bool>, w: Walk, o: Walk, rest: Store)
    returns (x: Walk, y: Walk)
    requires Explains(s, w, o, rest)
    ensures var t := Interleave(s, schedule);
            && Explains(t, x, y, rest) && t.left.env == s.left.env && t.right.env == s.right.env
            && Alone(t.left, x) == Alone(s.left, w) && Alone(t.right, y) == Alone(s.right, o)
    decreases |schedule|
  {
    hide Do, Explains;
    x, y := w, o;
    if schedule != [] {
      if schedule[0] {
        var next := Turn(s.left, s.store);
        if s.left.todo == [] {
          IdleTurn(s, w, o, rest);
        } else {
          LeftTurn(s, w, o, rest);
          x := Do(s.left.env, s.left.todo[0], w);
        }
        x, y := InterleavingIsExplained(Shared(next.walk.store, next, s.right), schedule[1..], x, o, rest);
      } else {
        var next := Turn(s.right, s.store);
        MirrorExplains(s, w, o, rest);
        if s.right.todo == [] {
          IdleTurn(Mirror(s), o, w, rest);
        } else {
          LeftTurn(Mirror(s), o, w, rest);
          y := Do(s.right.env, s.right.todo[0], o);
        }
        MirrorExplains(Shared(next.walk.store, next, s.left), y, w, rest);
        x, y := InterleavingIsExplained(Shared(next.walk.store, s.left, next), schedule[1..], w, y, rest);
      }
    }
  }

  // ---- Two passes --------------------------------------------------------------------------------------

  /** A worker about to start a pass for a universe as the server holds it. */
  function Starting(env: Env, u: Universe, store: Store): Worker {
    Worker(env, Start(Cluster(store, Some(u))), TasksOf(BLOCKS, u.spec))
  }

  lemma StartIsExplained(eu: Env, u: Universe, ev: Env, v: Universe, s: Store)
    requires Separate(s, u, v)
    ensures Explains(Shared(s, Starting(eu, u, s), Starting(ev, v, s)),
                     Start(Cluster(Own(s, u), Some(u))), Start(Cluster(Own(s, v), Some(v))), Rest(s, u, v))
  {
    var w, o, rest := Start(Cluster(Own(s, u), Some(u))), Start(Cluster(Own(s, v), Some(v))), Rest(s, u, v);
    TasksBelong(BLOCKS, u.spec);
    TasksBelong(BLOCKS, v.spec);
    StoreSplits(s, u, v);
    StoreSplits(s, v, u);
    RestIsSymmetric(s, u, v);
    hide TasksOf, Separate, Own, Rest;
    PartsApart(s, u, v);
  }

  lemma PartsApart(s: Store, u: Universe, v: Universe)
    requires Separate(s, u, v)
    ensures Apart(Start(Cluster(Own(s, u), Some(u))), Start(Cluster(Own(s, v), Some(v))), Rest(s, u, v))
  {
    forall k | k in Own(s, u) ensures k !in Own(s, v) && !InSpec(v.spec, k) && !OwnedBy(s[k].labels, v.name) {
      assert Concerns(s, u, k);
    }
    forall k | k in Own(s, v) ensures !InSpec(u.spec, k) && !OwnedBy(s[k].labels, u.name) {
      assert Concerns(s, v, k);
    }
    forall k | k in Rest(s, u, v) ensures !Concerns(s, u, k) && !Concerns(s, v, k) {
    }
  }

  /** Once the left worker has done its tasks, whatever the schedule and however far the other is, its pass ends with
      the result and the universe that it has when nobody else is there. */
  lemma PassAmongTurns(eu: Env, u: Universe, ev: Env, v: Universe, s: Store, schedule: seq<bool>)
    requires Separate(s, u, v)
    requires Interleave(Shared(s, Starting(eu, u, s), Starting(ev, v, s)), schedule).left.todo == []
    ensures var t := Interleave(Shared(s, Starting(eu, u, s), Starting(ev, v, s)), schedule);
            var o := Conclude(eu, t.left.walk.(store := t.store));
            o.result == Passed(eu, u, s).result && o.cluster.universe == Passed(eu, u, s).cluster.universe
  {
    var mine, others := Own(s, u), Own(s, v) + Rest(s, u, v);
    var a, b := Starting(eu, u, s), Starting(ev, v, s);
    StartIsExplained(eu, u, ev, v, s);
    var x, y := InterleavingIsExplained(Shared(s, a, b), schedule, Start(Cluster(mine, Some(u))),
                                        Start(Cluster(Own(s, v), Some(v))), Rest(s, u, v));
    BlocksAreTheirTasks(eu, BLOCKS, Start(Cluster(mine, Some(u))));
    WalkEffect(eu, Cluster(mine, Some(u)));
    StoreSplits(s, u, v);
    PassBeside(eu, u, mine, others);
    AmongOthers(eu, u, x, y, Rest(s, u, v));
  }

  lemma AmongOthers(env: Env, u: Universe, w: Walk, o: Walk, rest: Store)
    requires Apart(w, o, rest) && SameCopy(u, w.mem)
    ensures Conclude(env, w.(store := w.store + (o.store + rest))) == Along(Conclude(env, w), o.store + rest)
  {
    OthersAreForeign(w, o, rest);
    ConcludeBeside(env, w, o.store + rest, u);
  }

  /** When both have done their tasks, whatever the schedule, the store is what one pass after the other makes of it. */
  lemma InterleavingIsSequential(eu: Env, u: Universe, ev: Env, v: Universe, s: Store, schedule: seq<bool>)
    requires Separate(s, u, v)
    requires var t := Interleave(Shared(s, Starting(eu, u, s), Starting(ev, v, s)), schedule);
             t.left.todo == [] && t.right.todo == []
    ensures Interleave(Shared(s, Starting(eu, u, s), Starting(ev, v, s)), schedule).store ==
            Passed(ev, v, Passed(eu, u, s).cluster.store).cluster.store
  {
    var mine, his, rest := Own(s, u), Own(s, v), Rest(s, u, v);
    var a, b := Starting(eu, u, s), Starting(ev, v, s);
    StartIsExplained(eu, u, ev, v, s);
    var x, y := InterleavingIsExplained(Shared(s, a, b), schedule, Start(Cluster(mine, Some(u))),
                                        Start(Cluster(his, Some(v))), rest);
    BlocksAreTheirTasks(eu, BLOCKS, Start(Cluster(mine, Some(u))));
    BlocksAreTheirTasks(ev, BLOCKS, Start(Cluster(his, Some(v))));
    ConcludeKeepsStore(eu, x);
    ConcludeKeepsStore(ev, y);
    SecondPass(eu, u, ev, v, s);
    assert x.store == Passed(eu, u, mine).cluster.store && y.store == Passed(ev, v, his).cluster.store;
    Swap(x.store, y.store, rest);
  }
}
