/** The trigger reconciler: preview universes follow the labels of pull requests.

    A pass lists the open pull requests of a repository, handles them one by one, lists the closed ones and
    handles them. Users act at any moment, also between a listing and the handling of what was listed. */
module Trigger {
  import opened Utils
  import opened Resources
  import opened Strings
  import opened Names
  import opened Services
  import opened Preview

  const PREVIEW := "preview"
  const CREATED := "preview-created"
  const CLOSED := "preview-closed"

  lemma LabelsDiffer()
    ensures PREVIEW != CREATED && PREVIEW != CLOSED && CREATED != CLOSED
  {
    assert |PREVIEW| == 7 && |CREATED| == 15 && |CLOSED| == 14;
  }

  /** What the trigger object says: where universes go, and which deployment a service label stands for. */
  datatype Config = Config(namespace: string, deployments: StringMap)

  datatype Id = Id(owner: string, repo: string, number: nat)

  datatype PullRequest = PullRequest(open: bool, labels: seq<string>)

  /** A listed pull request that waits to be handled, with the labels it had when it was listed. */
  datatype Work = Work(id: Id, labels: seq<string>, teardown: bool)

  /** A universe of a pull request: its spec, the annotation that carries the services to preview,
      and whether its deletion has been requested and still waits for its finalizer. */
  datatype PreviewUniverse = PreviewUniverse(spec: Spec, services: string, terminating: bool)

  // What really happened to a universe: creations, and deletions of universes that were not terminating before.
  datatype Event = Create | Delete

  datatype World = World(
    prs: map<Id, PullRequest>,
    universes: map<string, PreviewUniverse>,
    account: bool,
    log: map<string, seq<Event>>)

  /** Which API calls succeed while one pull request is handled, and whether a deleted universe lingers:
      one with a finalizer terminates until the universe reconciler lets it go, one without disappears at once. */
  datatype Calls = Calls(account: bool, create: bool, delete: bool, edit: bool, lingers: bool)

  function NameOf(id: Id): string {
    UniverseName(id.repo, id.number)
  }

  /** The universe exists and is not on its way out. */
  predicate Live(w: World, name: string) {
    name in w.universes && !w.universes[name].terminating
  }

  function History(w: World, name: string): seq<Event> {
    if name in w.log then w.log[name] else []
  }

  function Record(w: World, name: string, e: Event): World {
    w.(log := w.log[name := History(w, name) + [e]])
  }

  function RemoveFirst(labels: seq<string>, x: string): seq<string> {
    if labels == [] then []
    else if labels[0] == x then labels[1..]
    else [labels[0]] + RemoveFirst(labels[1..], x)
  }

  /** NewUniverse: without the shared service account it creates only that and fails; 
      a universe that exists, even a terminating one, is left alone. */
  function NewUniverse(w: World, name: string, services: seq<string>, config: Config, calls: Calls): World {
    if !w.account then w.(account := calls.account)
    else if name in w.universes || !calls.create then w
    else
      var made := PreviewUniverse(PreviewSpec(name, config.namespace), Annotation(services), false);
      Record(w.(universes := w.universes[name := made]), name, Create)
  }

  function EditLabels(w: World, id: Id, labels: seq<string>, calls: Calls): World
    requires id in w.prs
  {
    if calls.edit then w.(prs := w.prs[id := w.prs[id].(labels := labels)]) else w
  }

  /** The body of the loop over the open pull requests. */
  function HandleOpen(w: World, work: Work, config: Config, calls: Calls): World
    requires work.id in w.prs
  {
    if CREATED !in work.labels && PREVIEW in work.labels then
      var w1 := NewUniverse(w, NameOf(work.id), ServicesOf(work.labels, config.deployments), config, calls);
      EditLabels(w1, work.id, RemoveFirst(work.labels + [CREATED], CLOSED), calls)
    else w
  }

  /** Get and Delete of the universe; asking again for the deletion of a terminating one changes nothing. */
  function DeleteUniverse(w: World, name: string, calls: Calls): World {
    if !Live(w, name) || !calls.delete then w
    else if calls.lingers then
      Record(w.(universes := w.universes[name := w.universes[name].(terminating := true)]), name, Delete)
    else Record(w.(universes := w.universes - {name}), name, Delete)
  }

  /** The body of the loop over the closed pull requests. */
  function HandleClosed(w: World, work: Work, calls: Calls): World
    requires work.id in w.prs
  {
    if CLOSED !in work.labels && PREVIEW in work.labels then
      EditLabels(DeleteUniverse(w, NameOf(work.id), calls), work.id, RemoveFirst(work.labels + [CLOSED], CREATED), calls)
    else w
  }

  function Handle(w: World, work: Work, config: Config, calls: Calls): (v: World)
    requires work.id in w.prs
    ensures v.prs.Keys == w.prs.Keys
  {
    if work.teardown then HandleClosed(w, work, calls) else HandleOpen(w, work, config, calls)
  }

  predicate Known(prs: map<Id, PullRequest>, works: seq<Work>) {
    forall i | 0 <= i < |works| :: works[i].id in prs
  }

  function HandleAll(w: World, works: seq<Work>, config: Config, calls: Id -> Calls): (v: World)
    requires Known(w.prs, works)
    ensures v.prs.Keys == w.prs.Keys
    decreases |works|
  {
    if works == [] then w
    else HandleAll(Handle(w, works[0], config, calls(works[0].id)), works[1..], config, calls)
  }

  /** A listing: the pull requests with the labels they have now. */
  function Listing(prs: map<Id, PullRequest>, ids: seq<Id>, teardown: bool): (works: seq<Work>)
    requires forall id | id in ids :: id in prs
    ensures |works| == |ids| && Known(prs, works)
    ensures forall i | 0 <= i < |ids| :: works[i] == Work(ids[i], prs[ids[i]].labels, teardown)
  {
    seq(|ids|, i requires 0 <= i < |ids| => Work(ids[i], prs[ids[i]].labels, teardown))
  }

  /** What a pass finds listed for one repository, and the answers of the API while it handles the open pull
      requests and, later, the closed ones. */
  datatype Repository = Repository(open: seq<Id>, closed: seq<Id>, calls: Id -> Calls, later: Id -> Calls)
  {
    predicate Lists(id: Id) {
      id in open || id in closed
    }
  }

  ghost predicate KnownIn(ids: set<Id>, r: Repository) {
    forall id | r.Lists(id) :: id in ids
  }

  /** A pass over one repository that nobody interrupts: the open pull requests, then the closed ones. */
  ghost function Pass(w: World, r: Repository, config: Config): (v: World)
    requires KnownIn(w.prs.Keys, r)
    ensures v.prs.Keys == w.prs.Keys
  {
    assert forall id | id in r.open || id in r.closed :: r.Lists(id);
    var w1 := HandleAll(w, Listing(w.prs, r.open, false), config, r.calls);
    HandleAll(w1, Listing(w1.prs, r.closed, true), config, r.later)
  }

  /** A pass over all repositories. */
  ghost function Passes(w: World, rs: seq<Repository>, config: Config): World
    requires forall r | r in rs :: KnownIn(w.prs.Keys, r)
    decreases |rs|
  {
    if rs == [] then w
    else
      assert forall r | r in rs[1..] :: r in rs;
      Passes(Pass(w, rs[0], config), rs[1..], config)
  }

  // ---- Steps ---------------------------------------------------------------------------------------

  /** The world and what a pass has listed and not handled yet. */
  datatype System = System(world: World, pending: seq<Work>)

  datatype Step =
    | UserActs(id: Id, pr: PullRequest)
    | Lists(teardown: bool, ids: seq<Id>)
    | Handles(calls: Calls)
    | Vanishes(name: string)

  predicate NoDuplicates<T(==)>(s: seq<T>) {
    forall i, j | 0 <= i < j < |s| :: s[i] != s[j]
  }

  /** Nobody but the controller writes its two labels; labels are sets; within the watched repositories
      a repository name has one owner. */
  ghost predicate UserMay(w: World, id: Id, pr: PullRequest) {
    && NoDuplicates(pr.labels)
    && (CREATED in pr.labels <==> id in w.prs && CREATED in w.prs[id].labels)
    && (CLOSED in pr.labels <==> id in w.prs && CLOSED in w.prs[id].labels)
    && (forall other | other in w.prs && other.repo == id.repo && other.number == id.number :: other == id)
  }

  /** A new listing replaces what is left of the one before: a pass may break off at any point. */
  ghost predicate Enabled(s: System, step: Step) {
    match step
    case UserActs(id, pr) => UserMay(s.world, id, pr)
    case Lists(teardown, ids) =>
      NoDuplicates(ids) && forall id | id in ids :: id in s.world.prs && s.world.prs[id].open == !teardown
    case Handles(_) => s.pending != [] && s.pending[0].id in s.world.prs
    case Vanishes(name) => name in s.world.universes && s.world.universes[name].terminating
  }

  ghost function Next(s: System, step: Step, config: Config): System
    requires Enabled(s, step)
  {
    match step
    case UserActs(id, pr) => s.(world := s.world.(prs := s.world.prs[id := pr]))
    case Lists(teardown, ids) => s.(pending := Listing(s.world.prs, ids, teardown))
    case Handles(calls) => System(Handle(s.world, s.pending[0], config, calls), s.pending[1..])
    case Vanishes(name) => s.(world := s.world.(universes := s.world.universes - {name}))
  }

  ghost predicate Runs(states: seq<System>, steps: seq<Step>, config: Config) {
    && |states| == |steps| + 1
    && forall i | 0 <= i < |steps| :: Enabled(states[i], steps[i]) && states[i + 1] == Next(states[i], steps[i], config)
  }

  // ---- Whatever fails ------------------------------------------------------------------------------

  predicate Alternates(history: seq<Event>) {
    forall i | 0 <= i < |history| :: history[i] == if i % 2 == 0 then Create else Delete
  }

  /** Effective creations and deletions of the name alternate, the history tells whether its universe is live,
      and one that exists has the spec that NewUniverse builds. */
  ghost predicate Orderly(w: World, name: string, config: Config) {
    && Alternates(History(w, name))
    && (Live(w, name) <==> |History(w, name)| % 2 == 1)
    && (name in w.universes ==> w.universes[name].spec == PreviewSpec(name, config.namespace))
  }

  lemma NewKeepsOrder(w: World, made: string, services: seq<string>, config: Config, calls: Calls, name: string)
    requires Orderly(w, name, config)
    ensures Orderly(NewUniverse(w, made, services, config, calls), name, config)
  {
    hide PreviewSpec, Annotation;
  }

  lemma DeleteKeepsOrder(w: World, gone: string, config: Config, calls: Calls, name: string)
    requires Orderly(w, name, config)
    ensures Orderly(DeleteUniverse(w, gone, calls), name, config)
  {
    hide PreviewSpec;
  }

  lemma StepKeepsOrder(s: System, step: Step, config: Config, name: string)
    requires Orderly(s.world, name, config) && Enabled(s, step)
    ensures Orderly(Next(s, step, config).world, name, config)
  {
    hide PreviewSpec, NewUniverse, DeleteUniverse, ServicesOf, RemoveFirst;
    if step.Handles? {
      var work := s.pending[0];
      NewKeepsOrder(s.world, NameOf(work.id), ServicesOf(work.labels, config.deployments), config, step.calls, name);
      DeleteKeepsOrder(s.world, NameOf(work.id), config, step.calls, name);
    }
  }

  /** Over every run, whichever calls fail: per universe name effective creations and deletions alternate. */
  lemma {:induction false} RunsKeepOrder(states: seq<System>, steps: seq<Step>, config: Config, name: string, i: nat)
    requires Runs(states, steps, config) && Orderly(states[0].world, name, config) && i <= |steps|
    ensures Orderly(states[i].world, name, config)
  {
    hide Orderly;
    if i > 0 {
      RunsKeepOrder(states, steps, config, name, i - 1);
      assert states[i - 1 + 1] == Next(states[i - 1], steps[i - 1], config);
      StepKeepsOrder(states[i - 1], steps[i - 1], config, name);
    }
  }

  // ---- The label protocol --------------------------------------------------------------------------

  /** The labels of one pull request tell the truth about its universe. */
  ghost predicate Labelled(pr: PullRequest, live: bool) {
    && (CREATED in pr.labels <==> live)
    && !(CREATED in pr.labels && CLOSED in pr.labels)
    && NoDuplicates(pr.labels)
  }

  ghost predicate LabelledAt(w: World, id: Id) {
    id in w.prs ==> Labelled(w.prs[id], Live(w, NameOf(id)))
  }

  ghost predicate Owned(w: World, name: string) {
    exists id :: id in w.prs && NameOf(id) == name
  }

  /** What was listed still agrees with the pull request about the two labels of the controller. */
  ghost predicate UpToDate(w: World, work: Work) {
    && work.id in w.prs && NoDuplicates(work.labels)
    && (CREATED in work.labels <==> CREATED in w.prs[work.id].labels)
    && (CLOSED in work.labels <==> CLOSED in w.prs[work.id].labels)
  }

  ghost predicate OneOwner(ids: set<Id>) {
    forall a, b | a in ids && b in ids && a.repo == b.repo && a.number == b.number :: a == b
  }

  ghost predicate Consistent(s: System) {
    && s.world.account && OneOwner(s.world.prs.Keys)
    && (forall id :: LabelledAt(s.world, id))
    && (forall name | name in s.world.universes :: Owned(s.world, name))
    && (forall i | 0 <= i < |s.pending| :: UpToDate(s.world, s.pending[i]))
    && (forall i, j | 0 <= i < j < |s.pending| :: s.pending[i].id != s.pending[j].id)
  }

  lemma {:induction false} RemoveFirstHas(labels: seq<string>, x: string, y: string)
    requires NoDuplicates(labels)
    ensures y in RemoveFirst(labels, x) <==> y in labels && y != x
    ensures NoDuplicates(RemoveFirst(labels, x))
  {
    if labels != [] {
      RemoveFirstHas(labels[1..], x, y);
      if labels[0] == x {
        assert NoDuplicates(labels[1..]);
      } else {
        RemoveFirstHas(labels[1..], x, labels[0]);
        assert forall i | 0 <= i < |labels[1..]| :: labels[1..][i] == labels[i + 1];
        var r := RemoveFirst(labels[1..], x);
        assert labels[0] !in r;
      }
    }
  }

  /** The edited labels: one of the controller's two labels added, the other gone. */
  lemma EditedLabels(labels: seq<string>, added: string, removed: string)
    requires NoDuplicates(labels) && added !in labels && added != removed
    ensures var r := RemoveFirst(labels + [added], removed);
            NoDuplicates(r) && added in r && removed !in r
            && (forall y | y != added && y != removed :: y in r <==> y in labels)
  {
    var all := labels + [added];
    assert NoDuplicates(all);
    forall y ensures y in RemoveFirst(all, removed) <==> y in all && y != removed {
      RemoveFirstHas(all, removed, y);
    }
    RemoveFirstHas(all, removed, added);
    assert all[|labels|] == added;
  }

  /** Handling creates or deletes, and edits labels, only in these cases. */
  predicate ActsOn(work: Work) {
    PREVIEW in work.labels && if work.teardown then CLOSED !in work.labels else CREATED !in work.labels
  }

  /** The pull request is to get a universe while the one it had still terminates. */
  predicate TooEarly(w: World, work: Work) {
    ActsOn(work) && !work.teardown && NameOf(work.id) in w.universes && w.universes[NameOf(work.id)].terminating
  }

  /** Exactly when the labels of a handled pull request still tell the truth about its universe:
      when creation (or an effective deletion) and label edit succeed or fail together.
      Creation does not happen while the old universe still terminates. */
  lemma HandlingKeepsLabels(w: World, work: Work, config: Config, calls: Calls)
    requires UpToDate(w, work) && LabelledAt(w, work.id)
    ensures var v, lived := Handle(w, work, config, calls), Live(w, NameOf(work.id));
            var changed := if work.teardown then calls.delete else w.account && calls.create && !TooEarly(w, work);
            LabelledAt(v, work.id) <==>
              ActsOn(work) ==> (work.teardown && !lived) || changed == calls.edit
  {
    hide PreviewSpec, ServicesOf, RemoveFirst, NameOf, Annotation;
    LabelsDiffer();
    if CREATED !in work.labels {
      EditedLabels(work.labels, CREATED, CLOSED);
    }
    if CLOSED !in work.labels {
      EditedLabels(work.labels, CLOSED, CREATED);
    }
  }

  ghost predicate SameUniverse(w: World, v: World, name: string) {
    (name in v.universes <==> name in w.universes)
    && (name in v.universes && name in w.universes ==> v.universes[name] == w.universes[name])
  }

  /** Handling touches no other pull request and no other universe. */
  lemma HandlingIsLocal(w: World, work: Work, config: Config, calls: Calls)
    requires work.id in w.prs
    ensures var v := Handle(w, work, config, calls);
            && v.prs.Keys == w.prs.Keys
            && (forall id | id in w.prs && id != work.id :: v.prs[id] == w.prs[id])
            && v.prs[work.id].open == w.prs[work.id].open
            && (forall name | name != NameOf(work.id) :: SameUniverse(w, v, name))
            && (NameOf(work.id) in w.universes && w.universes[NameOf(work.id)].terminating ==> v.universes == w.universes)
            && (w.account ==> v.account)
  {
    hide PreviewSpec, ServicesOf, RemoveFirst, NameOf, Annotation;
  }

  /** The edit writes back the labels of the listing: what the user did to other labels since then is lost. */
  lemma EditOverwritesLateLabels(w: World, work: Work, config: Config, calls: Calls, y: string)
    requires UpToDate(w, work) && y != CREATED && y != CLOSED
    ensures y in Handle(w, work, config, calls).prs[work.id].labels <==>
            y in if ActsOn(work) && calls.edit then work.labels else w.prs[work.id].labels
  {
    hide PreviewSpec, ServicesOf, RemoveFirst, NameOf, Annotation;
    LabelsDiffer();
    if CREATED !in work.labels {
      EditedLabels(work.labels, CREATED, CLOSED);
    }
    if CLOSED !in work.labels {
      EditedLabels(work.labels, CLOSED, CREATED);
    }
  }

  predicate AllSucceed(calls: Calls) {
    calls.create && calls.delete && calls.edit
  }

  lemma DistinctNames(ids: set<Id>, a: Id, b: Id)
    requires OneOwner(ids) && a in ids && b in ids && a != b
    ensures NameOf(a) != NameOf(b)
  {
    NamesAreInjective(a.repo, a.number, b.repo, b.number);
  }

  /** When every call succeeds, handling keeps the world consistent exactly when it does not come too early. */
  lemma HandleKeepsConsistency(s: System, config: Config, calls: Calls)
    requires Consistent(s) && s.pending != [] && AllSucceed(calls)
    ensures Consistent(System(Handle(s.world, s.pending[0], config, calls), s.pending[1..])) <==>
            !TooEarly(s.world, s.pending[0])
  {
    hide Handle, Labelled, NameOf, NoDuplicates, TooEarly;
    var w, work := s.world, s.pending[0];
    var v := Handle(w, work, config, calls);
    assert LabelledAt(w, work.id);
    HandlingKeepsLabels(w, work, config, calls);
    HandlingIsLocal(w, work, config, calls);
    EarlyActs(w, work);
    if !TooEarly(w, work) {
      forall id ensures LabelledAt(v, id) {
        if id in v.prs && id != work.id {
          DistinctNames(w.prs.Keys, id, work.id);
          assert LabelledAt(w, id) && SameUniverse(w, v, NameOf(id));
        }
      }
      forall name | name in v.universes ensures Owned(v, name) {
        assert work.id in v.prs;
        if name != NameOf(work.id) {
          assert SameUniverse(w, v, name) && Owned(w, name);
        }
      }
      forall i | 0 <= i < |s.pending[1..]| ensures UpToDate(v, s.pending[1..][i]) {
        assert s.pending[1..][i] == s.pending[i + 1];
      }
    }
  }

  lemma EarlyActs(w: World, work: Work)
    ensures TooEarly(w, work) ==> ActsOn(work) && !work.teardown
  {
  }

  lemma UserKeepsConsistency(s: System, id: Id, pr: PullRequest, config: Config)
    requires Consistent(s) && UserMay(s.world, id, pr)
    ensures Consistent(Next(s, UserActs(id, pr), config))
  {
    hide NameOf, NoDuplicates;
    var w, v := s.world, Next(s, UserActs(id, pr), config).world;
    if id !in w.prs && NameOf(id) in w.universes {
      assert Owned(w, NameOf(id));
      var other :| other in w.prs && NameOf(other) == NameOf(id);
      DistinctNames(v.prs.Keys, other, id);
      assert false;
    }
    assert LabelledAt(w, id);
    forall other ensures LabelledAt(v, other) {
      assert LabelledAt(w, other);
    }
    forall name | name in v.universes ensures Owned(v, name) {
      assert Owned(w, name);
      var other :| other in w.prs && NameOf(other) == name;
      assert other in v.prs;
    }
  }

  lemma ListingKeepsConsistency(w: World, ids: seq<Id>, teardown: bool)
    requires Consistent(System(w, [])) && NoDuplicates(ids) && forall id | id in ids :: id in w.prs
    ensures Consistent(System(w, Listing(w.prs, ids, teardown)))
  {
    hide NameOf;
    var works := Listing(w.prs, ids, teardown);
    forall i | 0 <= i < |works| ensures UpToDate(w, works[i]) {
      assert LabelledAt(w, works[i].id);
    }
  }

  lemma VanishingKeepsConsistency(s: System, name: string, config: Config)
    requires Consistent(s) && Enabled(s, Vanishes(name))
    ensures Consistent(Next(s, Vanishes(name), config))
  {
    hide NameOf, NoDuplicates, Labelled;
    var w, v := s.world, Next(s, Vanishes(name), config).world;
    forall id ensures LabelledAt(v, id) {
      assert LabelledAt(w, id);
    }
    forall other | other in v.universes ensures Owned(v, other) {
      assert Owned(w, other);
      var id :| id in w.prs && NameOf(id) == other;
      assert id in v.prs;
    }
  }

  /** The calls of the controller succeed, and no pull request is handled too early. */
  predicate Succeeds(s: System, step: Step) {
    step.Handles? && s.pending != [] ==> AllSucceed(step.calls) && !TooEarly(s.world, s.pending[0])
  }

  lemma StepKeepsConsistency(s: System, step: Step, config: Config)
    requires Consistent(s) && Enabled(s, step) && Succeeds(s, step)
    ensures Consistent(Next(s, step, config))
  {
    hide LabelledAt, Owned, UserMay, Handle, OneOwner, TooEarly;
    match step
    case UserActs(id, pr) => UserKeepsConsistency(s, id, pr, config);
    case Lists(teardown, ids) => ListingKeepsConsistency(s.world, ids, teardown);
    case Handles(calls) => HandleKeepsConsistency(s, config, calls);
    case Vanishes(name) => VanishingKeepsConsistency(s, name, config);
  }

  /** Over every run in which the controller's calls succeed and nothing is handled too early: at most one of its two
      labels is on a pull request, preview-created is there exactly when the universe is live, and listings stay
      up to date about them. */
  lemma {:induction false} RunsKeepConsistency(states: seq<System>, steps: seq<Step>, config: Config, i: nat)
    requires Runs(states, steps, config) && Consistent(states[0]) && i <= |steps|
    requires forall j | 0 <= j < |steps| :: Succeeds(states[j], steps[j])
    ensures Consistent(states[i])
  {
    hide Consistent, Succeeds;
    if i > 0 {
      RunsKeepConsistency(states, steps, config, i - 1);
      assert states[i - 1 + 1] == Next(states[i - 1], steps[i - 1], config);
      StepKeepsConsistency(states[i - 1], steps[i - 1], config);
    }
  }

  // ---- What handling and a pass achieve --------------------------------------------------------------

  /** Whether the universe of the work is live afterwards, given whether it was before. */
  predicate Achieved(work: Work, lived: bool) {
    if work.teardown then lived && PREVIEW !in work.labels else lived || PREVIEW in work.labels
  }

  /** An open pull request with the preview label gets its universe, unless that comes too early; a closed one loses it,
      unless the user took the preview label off before. A new universe carries the services of the labels. */
  lemma HandlingAchieves(w: World, work: Work, config: Config, calls: Calls)
    requires w.account && UpToDate(w, work) && LabelledAt(w, work.id) && AllSucceed(calls)
    ensures var v, name := Handle(w, work, config, calls), NameOf(work.id);
            var services := ServicesOf(work.labels, config.deployments);
            && (Live(v, name) <==> Achieved(work, Live(w, name)) && !TooEarly(w, work))
            && (name in v.universes && name !in w.universes && FreeOf(services, ',') ==>
                  Split(v.universes[name].services, ',') == if services == [] then [""] else services)
  {
    hide PreviewSpec, ServicesOf, RemoveFirst, NameOf, Split, Join;
    var services := ServicesOf(work.labels, config.deployments);
    if FreeOf(services, ',') {
      AnnotationReadsBack(services);
    }
  }

  /** Handling is done once: a pull request that was handled and is listed again with its new labels is left alone. */
  lemma HandlingSettles(w: World, work: Work, config: Config, calls: Calls, again: Calls)
    requires UpToDate(w, work) && calls.edit
    ensures var v := Handle(w, work, config, calls);
            Handle(v, work.(labels := if ActsOn(work) then v.prs[work.id].labels else work.labels), config, again) == v
  {
    hide PreviewSpec, ServicesOf, RemoveFirst, NameOf, Annotation;
    LabelsDiffer();
    if CREATED !in work.labels {
      EditedLabels(work.labels, CREATED, CLOSED);
    }
    if CLOSED !in work.labels {
      EditedLabels(work.labels, CLOSED, CREATED);
    }
  }

  /** No work of a listing comes too early. */
  ghost predicate Ready(w: World, works: seq<Work>) {
    forall i | 0 <= i < |works| :: !TooEarly(w, works[i])
  }

  lemma HandlingKeepsReady(w: World, works: seq<Work>, config: Config, calls: Calls)
    requires works != [] && Consistent(System(w, works)) && Ready(w, works)
    ensures Ready(Handle(w, works[0], config, calls), works[1..])
  {
    hide Handle, NameOf, LabelledAt, Owned, NoDuplicates;
    var v := Handle(w, works[0], config, calls);
    HandlingIsLocal(w, works[0], config, calls);
    forall i | 0 <= i < |works[1..]| ensures !TooEarly(v, works[1..][i]) {
      var work := works[i + 1];
      assert works[1..][i] == work && !TooEarly(w, work);
      DistinctNames(w.prs.Keys, works[0].id, work.id);
      assert SameUniverse(w, v, NameOf(work.id));
    }
  }

  lemma {:induction false} HandleAllKeepsConsistency(w: World, works: seq<Work>, config: Config, calls: Id -> Calls)
    requires Consistent(System(w, works)) && Ready(w, works) && (forall x :: AllSucceed(calls(x))) && Known(w.prs, works)
    ensures Consistent(System(HandleAll(w, works, config, calls), []))
    decreases |works|
  {
    hide Handle, Consistent, AllSucceed, TooEarly;
    if works != [] {
      HandleKeepsConsistency(System(w, works), config, calls(works[0].id));
      HandlingKeepsReady(w, works, config, calls(works[0].id));
      HandleAllKeepsConsistency(Handle(w, works[0], config, calls(works[0].id)), works[1..], config, calls);
    }
  }

  /** Handling a listing leaves alone what it does not list. */
  lemma {:induction false} HandleAllIsLocal(w: World, works: seq<Work>, config: Config, calls: Id -> Calls, id: Id)
    requires Known(w.prs, works) && id in w.prs && OneOwner(w.prs.Keys)
    requires forall i | 0 <= i < |works| :: works[i].id != id
    ensures var v := HandleAll(w, works, config, calls);
            SameUniverse(w, v, NameOf(id)) && v.prs[id] == w.prs[id]
    decreases |works|
  {
    hide Handle, NameOf, OneOwner;
    if works != [] {
      var x := Handle(w, works[0], config, calls(works[0].id));
      HandlingIsLocal(w, works[0], config, calls(works[0].id));
      DistinctNames(w.prs.Keys, works[0].id, id);
      assert SameUniverse(w, x, NameOf(id));
      HandleAllIsLocal(x, works[1..], config, calls, id);
    }
  }

  /** Handling a listing, every listed pull request gets what its labels ask for. */
  lemma {:induction false} HandleAllAchieves(w: World, works: seq<Work>, config: Config, calls: Id -> Calls, i: nat)
    requires Consistent(System(w, works)) && Ready(w, works) && (forall x :: AllSucceed(calls(x))) && Known(w.prs, works)
    requires i < |works|
    ensures var v, name := HandleAll(w, works, config, calls), NameOf(works[i].id);
            Live(v, name) <==> Achieved(works[i], Live(w, name))
    decreases |works|
  {
    hide Handle, NameOf, Owned, Achieved, Labelled, NoDuplicates, TooEarly;
    var work, rest := works[0], works[1..];
    var x := Handle(w, work, config, calls(work.id));
    HandleKeepsConsistency(System(w, works), config, calls(work.id));
    HandlingKeepsReady(w, works, config, calls(work.id));
    HandlingIsLocal(w, work, config, calls(work.id));
    assert works[i].id in w.prs;
    if i == 0 {
      assert LabelledAt(w, work.id);
      HandlingAchieves(w, work, config, calls(work.id));
      assert forall j | 0 <= j < |rest| :: rest[j] == works[j + 1];
      HandleAllIsLocal(x, rest, config, calls, work.id);
    } else {
      DistinctNames(w.prs.Keys, work.id, works[i].id);
      assert SameUniverse(w, x, NameOf(works[i].id));
      HandleAllAchieves(x, rest, config, calls, i - 1);
    }
  }

  lemma ListingAchieves(w: World, ids: seq<Id>, teardown: bool, config: Config, calls: Id -> Calls, id: Id)
    requires Consistent(System(w, [])) && (forall x :: AllSucceed(calls(x))) && id in w.prs
    requires NoDuplicates(ids) && forall x | x in ids :: x in w.prs
    requires Ready(w, Listing(w.prs, ids, teardown))
    ensures var v, name := HandleAll(w, Listing(w.prs, ids, teardown), config, calls), NameOf(id);
            && Consistent(System(v, [])) && v.prs.Keys == w.prs.Keys
            && (id in ids ==> (Live(v, name) <==> Achieved(Work(id, w.prs[id].labels, teardown), Live(w, name))))
            && (id !in ids ==> SameUniverse(w, v, name) && v.prs[id] == w.prs[id])
  {
    hide Handle, HandleAll, NameOf, NoDuplicates, LabelledAt, Owned, Achieved, Ready, OneOwner;
    var works := Listing(w.prs, ids, teardown);
    ListingKeepsConsistency(w, ids, teardown);
    HandleAllKeepsConsistency(w, works, config, calls);
    if id in ids {
      var i :| 0 <= i < |ids| && ids[i] == id;
      HandleAllAchieves(w, works, config, calls, i);
    } else {
      HandleAllIsLocal(w, works, config, calls, id);
    }
  }

  lemma ClosingIsReady(w: World, ids: seq<Id>)
    requires forall x | x in ids :: x in w.prs
    ensures Ready(w, Listing(w.prs, ids, true))
  {
  }

  /** Every call succeeds, the listings are right, and no open pull request is handled too early. */
  ghost predicate Smooth(w: World, r: Repository) {
    && (forall x :: AllSucceed(r.calls(x)) && AllSucceed(r.later(x)))
    && NoDuplicates(r.open) && (forall x | x in r.open :: x in w.prs && w.prs[x].open)
    && NoDuplicates(r.closed) && (forall x | x in r.closed :: x in w.prs && !w.prs[x].open)
    && Ready(w, Listing(w.prs, r.open, false))
  }

  /** What a pass makes of one universe: an open pull request with the preview label has its universe, a closed one
      with it has none that is live, and nothing else changes. */
  ghost predicate Previewed(w: World, r: Repository, v: World, id: Id)
    requires id in w.prs && id in v.prs
  {
    var name, asked := NameOf(id), PREVIEW in w.prs[id].labels;
    && (id in r.open ==> (Live(v, name) <==> Live(w, name) || asked))
    && (id in r.closed ==> (Live(v, name) <==> Live(w, name) && !asked))
    && (!r.Lists(id) ==> SameUniverse(w, v, name) && v.prs[id] == w.prs[id])
  }

  lemma PassAchieves(w: World, r: Repository, config: Config, id: Id)
    requires Consistent(System(w, [])) && Smooth(w, r) && id in w.prs
    ensures KnownIn(w.prs.Keys, r) && Consistent(System(Pass(w, r, config), []))
    ensures Previewed(w, r, Pass(w, r, config), id)
  {
    hide Handle, HandleAll, NameOf, NoDuplicates, Consistent, Ready;
    var w1 := HandleAll(w, Listing(w.prs, r.open, false), config, r.calls);
    ListingAchieves(w, r.open, false, config, r.calls, id);
    ClosingIsReady(w1, r.closed);
    ListingAchieves(w1, r.closed, true, config, r.later, id);
  }

  /** No pull request is listed for two repositories. */
  ghost predicate Apart(rs: seq<Repository>) {
    forall i, j, id | 0 <= i < j < |rs| && rs[i].Lists(id) :: !rs[j].Lists(id)
  }

  /** The pass over one repository leaves the listings of another as they were. */
  lemma PassLeavesOthersSmooth(w: World, r: Repository, other: Repository, config: Config)
    requires Consistent(System(w, [])) && Smooth(w, r) && Smooth(w, other)
    requires forall id | r.Lists(id) :: !other.Lists(id)
    ensures KnownIn(w.prs.Keys, r) && Smooth(Pass(w, r, config), other)
  {
    hide Pass, NameOf, NoDuplicates, Consistent, AllSucceed, ActsOn;
    var v := Pass(w, r, config);
    forall id | other.Lists(id) ensures v.prs[id] == w.prs[id] && SameUniverse(w, v, NameOf(id)) {
      assert !r.Lists(id);
      PassAchieves(w, r, config, id);
    }
    var before, after := Listing(w.prs, other.open, false), Listing(v.prs, other.open, false);
    forall i | 0 <= i < |after| ensures !TooEarly(v, after[i]) {
      assert other.Lists(other.open[i]) && after[i] == before[i] && !TooEarly(w, before[i]);
      assert SameUniverse(w, v, NameOf(after[i].id));
    }
    assert forall x | x in other.open || x in other.closed :: other.Lists(x);
  }

  lemma {:induction false} PassesAreLocal(w: World, rs: seq<Repository>, config: Config, id: Id)
    requires Consistent(System(w, [])) && Apart(rs) && id in w.prs
    requires forall r | r in rs :: Smooth(w, r) && KnownIn(w.prs.Keys, r)
    ensures var v := Passes(w, rs, config);
            Consistent(System(v, [])) && v.prs.Keys == w.prs.Keys
            && ((forall r | r in rs :: !r.Lists(id)) ==> SameUniverse(w, v, NameOf(id)) && v.prs[id] == w.prs[id])
    decreases |rs|
  {
    hide Pass, NameOf, Consistent, Smooth, KnownIn;
    if rs != [] {
      var x := Pass(w, rs[0], config);
      FirstOfPasses(w, rs, config);
      PassAchieves(w, rs[0], config, id);
      PassesAreLocal(x, rs[1..], config, id);
    }
  }

  lemma FirstOfPasses(w: World, rs: seq<Repository>, config: Config)
    requires Consistent(System(w, [])) && Apart(rs) && rs != []
    requires forall r | r in rs :: Smooth(w, r) && KnownIn(w.prs.Keys, r)
    ensures var x := Pass(w, rs[0], config);
            Apart(rs[1..]) && forall r | r in rs[1..] :: Smooth(x, r) && KnownIn(x.prs.Keys, r)
  {
    hide Pass, Consistent, Smooth;
    forall i, j, id | 0 <= i < j < |rs[1..]| && rs[1..][i].Lists(id) ensures !rs[1..][j].Lists(id) {
      assert rs[1..][i] == rs[i + 1] && rs[1..][j] == rs[j + 1];
    }
    forall r | r in rs[1..]
      ensures Smooth(Pass(w, rs[0], config), r) && KnownIn(Pass(w, rs[0], config).prs.Keys, r)
    {
      var j :| 0 <= j < |rs[1..]| && rs[1..][j] == r;
      assert rs[j + 1] == r;
      PassLeavesOthersSmooth(w, rs[0], r, config);
    }
  }

  /** What a pass over all repositories makes of every pull request that is listed. */
  lemma {:induction false} PassesAchieve(w: World, rs: seq<Repository>, config: Config, i: nat, id: Id)
    requires Consistent(System(w, [])) && Apart(rs) && id in w.prs && i < |rs| && rs[i].Lists(id)
    requires forall r | r in rs :: Smooth(w, r) && KnownIn(w.prs.Keys, r)
    ensures var v, name, asked := Passes(w, rs, config), NameOf(id), PREVIEW in w.prs[id].labels;
            && Consistent(System(v, []))
            && (id in rs[i].open ==> (Live(v, name) <==> Live(w, name) || asked))
            && (id in rs[i].closed ==> (Live(v, name) <==> Live(w, name) && !asked))
    decreases |rs|
  {
    hide Pass, NameOf, Consistent, Smooth, KnownIn;
    var x := Pass(w, rs[0], config);
    FirstOfPasses(w, rs, config);
    PassAchieves(w, rs[0], config, id);
    if i == 0 {
      forall r | r in rs[1..] ensures !r.Lists(id) {
        var j :| 0 <= j < |rs[1..]| && rs[1..][j] == r;
        assert rs[j + 1] == r;
      }
      PassesAreLocal(x, rs[1..], config, id);
    } else {
      assert rs[1..][i - 1] == rs[i];
      assert !rs[0].Lists(id);
      PassesAchieve(x, rs[1..], config, i - 1, id);
    }
  }

  /** A pull request that is reopened and handled while its old universe still terminates gets the label and keeps no
      universe: when the old one is gone, no handling creates a new one as long as the label stays. */
  lemma EarlyPreviewIsLost(w: World, work: Work, config: Config, calls: Calls, later: Work, laterCalls: Calls)
    requires UpToDate(w, work) && TooEarly(w, work) && calls.edit && later.id == work.id && !later.teardown
    ensures var name := NameOf(work.id);
            var v := Handle(w, work, config, calls);
            var gone := v.(universes := v.universes - {name});
            && CREATED in v.prs[work.id].labels && !Live(v, name) && name !in gone.universes
            && (later.labels == v.prs[work.id].labels ==> Handle(gone, later, config, laterCalls) == gone)
  {
    hide PreviewSpec, ServicesOf, RemoveFirst, NameOf, Annotation;
    LabelsDiffer();
    EditedLabels(work.labels, CREATED, CLOSED);
  }

  /** The protocol in its own words: what the label edit of a handled pull request leaves of the three labels. */
  lemma LabelsAfterHandling(w: World, work: Work, config: Config, calls: Calls)
    requires UpToDate(w, work) && calls.edit && "preview" in work.labels
    ensures var labels := Handle(w, work, config, calls).prs[work.id].labels;
            && (!work.teardown && "preview-created" !in work.labels ==>
                  "preview-created" in labels && "preview-closed" !in labels && "preview" in labels)
            && (work.teardown && "preview-closed" !in work.labels ==>
                  "preview-closed" in labels && "preview-created" !in labels && "preview" in labels)
  {
    hide PreviewSpec, ServicesOf, RemoveFirst, NameOf, Annotation;
    LabelsDiffer();
    if CREATED !in work.labels {
      EditedLabels(work.labels, CREATED, CLOSED);
    }
    if CLOSED !in work.labels {
      EditedLabels(work.labels, CLOSED, CREATED);
    }
  }

  /** The service account appears exactly when a preview is asked for without it and its creation succeeds;
      nothing removes it. */
  lemma AccountIsCreated(w: World, work: Work, config: Config, calls: Calls)
    requires work.id in w.prs
    ensures Handle(w, work, config, calls).account <==>
            w.account || (ActsOn(work) && !work.teardown && calls.account)
  {
    hide PreviewSpec, ServicesOf, RemoveFirst, NameOf, Annotation;
  }

  /** Only the first preview is lost to the missing service account: the next one gets its universe. */
  lemma SecondPreviewIsCreated(w: World, work: Work, config: Config, calls: Calls, next: Work, later: Calls)
    requires !w.account && work.id in w.prs && ActsOn(work) && !work.teardown && calls.account
    requires UpToDate(w, next) && LabelledAt(w, next.id) && next.id != work.id && OneOwner(w.prs.Keys)
    requires PREVIEW in next.labels && !next.teardown && !TooEarly(w, next) && AllSucceed(later)
    ensures var name := NameOf(next.id);
            Live(Handle(Handle(w, work, config, calls), next, config, later), name)
  {
    hide Handle, NameOf, NoDuplicates;
    var v := Handle(w, work, config, calls);
    AccountIsCreated(w, work, config, calls);
    HandlingIsLocal(w, work, config, calls);
    DistinctNames(w.prs.Keys, work.id, next.id);
    assert SameUniverse(w, v, NameOf(next.id));
    HandlingAchieves(v, next, config, later);
  }

  /** Handling a closed pull request with a live universe ends that: at once, or once its finalizer is gone. */
  lemma ClosingTearsDown(w: World, work: Work, config: Config, calls: Calls)
    requires work.id in w.prs && work.teardown && ActsOn(work) && Live(w, NameOf(work.id))
    ensures var v, name := Handle(w, work, config, calls), NameOf(work.id);
            && (Live(v, name) <==> !calls.delete)
            && (name in v.universes <==> !calls.delete || calls.lingers)
  {
    hide RemoveFirst, NameOf;
  }

  /** The first world, with the service account in place, is where such runs start. */
  lemma FirstWorldIsConsistent(w: World, config: Config, name: string)
    requires w.prs == map[] && w.universes == map[] && w.log == map[]
    ensures w.account <==> Consistent(System(w, []))
    ensures Orderly(w, name, config)
  {
  }

  /** The first preview of all, when the shared service account does not exist yet, is lost:
      the label goes on, the universe is not created, and as long as the label stays no handling creates it. */
  lemma FirstPreviewIsLost(w: World, work: Work, config: Config, calls: Calls, later: Work, laterCalls: Calls)
    requires work.id in w.prs && !w.account && calls.edit && !work.teardown && NoDuplicates(work.labels)
    requires ActsOn(work) && NameOf(work.id) !in w.universes
    requires later.id == work.id && !later.teardown
    ensures var v := Handle(w, work, config, calls);
            && CREATED in v.prs[work.id].labels && NameOf(work.id) !in v.universes
            && (later.labels == v.prs[work.id].labels ==> Handle(v, later, config, laterCalls) == v)
  {
    hide PreviewSpec, ServicesOf, RemoveFirst, NameOf, Annotation;
    LabelsDiffer();
    EditedLabels(work.labels, CREATED, CLOSED);
  }
}
