/** The trigger reconciler in the form of its source: loops over pull requests and labels, and label slices
    that are changed in place. Every method is proved against the functions of module Trigger. */
module TriggerController {
  import opened Utils
  import opened Services
  import opened Preview
  import opened Trigger

  lemma {:induction false} RemoveFirstSplits(labels: seq<string>, x: string, i: nat)
    requires i <= |labels| && x !in labels[..i] && (i < |labels| ==> labels[i] == x)
    ensures RemoveFirst(labels, x) == if i < |labels| then labels[..i] + labels[i + 1..] else labels
  {
    if i > 0 {
      assert labels[1..][..i - 1] == labels[..i][1..];
      assert labels[..i][0] == labels[0];
      RemoveFirstSplits(labels[1..], x, i - 1);
    }
  }

  /** Go's append(labels[:i], labels[i+1:]...) at the first occurrence of x: the tail moves one place to the left in
      the array that the slice shares, and the slice gets one shorter. */
  method RemoveLabel(labels: array<string>, x: string) returns (n: nat)
    modifies labels
    ensures n <= labels.Length && labels[..n] == RemoveFirst(old(labels[..]), x)
  {
    ghost var was := labels[..];
    for i := 0 to labels.Length
      invariant labels[..] == was && x !in was[..i]
    {
      if labels[i] == x {
        RemoveFirstSplits(was, x, i);
        for k := i to labels.Length - 1
          invariant labels[..k] == was[..i] + was[i + 1..k + 1]
          invariant labels[k + 1..] == was[k + 1..]
        {
          assert labels[k + 1] == was[k + 1];
          labels[k] := labels[k + 1];
        }
        assert was[i + 1..labels.Length] == was[i + 1..];
        return labels.Length - 1;
      }
    }
    RemoveFirstSplits(was, x, labels.Length);
    assert labels[..labels.Length] == was;
    return labels.Length;
  }

  /** The labels with one added and another taken out. */
  method SwapLabels(labels: seq<string>, added: string, removed: string) returns (edited: seq<string>)
    ensures edited == RemoveFirst(labels + [added], removed)
  {
    var all := labels + [added];
    var newLabels := new string[|all|](i requires 0 <= i < |all| => all[i]);
    assert newLabels[..] == all;
    var n := RemoveLabel(newLabels, removed);
    edited := newLabels[..n];
  }

  class TriggerReconciler {
    const config: Config
    var prs: map<Id, PullRequest>
    var universes: map<string, PreviewUniverse>
    var account: bool
    ghost var log: map<string, seq<Event>>

    constructor (config: Config, prs: map<Id, PullRequest>, universes: map<string, PreviewUniverse>, account: bool,
                 ghost log: map<string, seq<Event>>)
      ensures this.config == config && State() == World(prs, universes, account, log)
    {
      this.config, this.prs, this.universes, this.account, this.log := config, prs, universes, account, log;
    }

    ghost function State(): World
      reads this
    {
      World(prs, universes, account, log)
    }

    /** Creates the universe of a pull request if it does not exist. The service account is looked up first; having
        created it, the method still returns the error of that lookup. */
    method NewUniverse(name: string, services: seq<string>, calls: Calls) returns (ok: bool)
      modifies this
      ensures State() == Trigger.NewUniverse(old(State()), name, services, config, calls)
      ensures ok ==> name in universes
    {
      if !account {
        if calls.account {
          account := true;
        }
        return false;
      }
      if name in universes {
        return true;
      }
      if !calls.create {
        return false;
      }
      universes := universes[name := PreviewUniverse(PreviewSpec(name, config.namespace), Annotation(services), false)];
      log := Record(old(State()), name, Create).log;
      return true;
    }

    method Edit(id: Id, labels: seq<string>, calls: Calls)
      requires id in prs
      modifies this`prs
      ensures State() == EditLabels(old(State()), id, labels, calls)
    {
      if calls.edit {
        prs := prs[id := prs[id].(labels := labels)];
      }
    }

    /** The body of the loop over the open pull requests. */
    method HandleOpen(work: Work, calls: Calls)
      requires work.id in prs
      modifies this
      ensures State() == Trigger.HandleOpen(old(State()), work, config, calls)
    {
      var names, services := CollectServices(work.labels, config.deployments);
      var created := StringInSlice(CREATED, names);
      var preview := StringInSlice(PREVIEW, names);
      if !created && preview {
        var _ := NewUniverse(NameOf(work.id), services, calls);
        var newLabels := SwapLabels(names, CREATED, CLOSED);
        Edit(work.id, newLabels, calls);
      }
    }

    /** The body of the loop over the closed pull requests. */
    method HandleClosed(work: Work, calls: Calls)
      requires work.id in prs
      modifies this
      ensures State() == Trigger.HandleClosed(old(State()), work, calls)
    {
      var closed := StringInSlice(CLOSED, work.labels);
      var preview := StringInSlice(PREVIEW, work.labels);
      if !closed && preview {
        var name := NameOf(work.id);
        if name in universes && !universes[name].terminating && calls.delete {
          if calls.lingers {
            universes := universes[name := universes[name].(terminating := true)];
          } else {
            universes := universes - {name};
          }
          log := Record(old(State()), name, Delete).log;
        }
        var newLabels := SwapLabels(work.labels, CLOSED, CREATED);
        Edit(work.id, newLabels, calls);
      }
    }

    /** A loop over listed pull requests. */
    method HandleListed(works: seq<Work>, calls: Id -> Calls)
      requires Known(prs, works)
      modifies this
      ensures State() == HandleAll(old(State()), works, config, calls)
    {
      hide Trigger.HandleOpen, Trigger.HandleClosed;
      for i := 0 to |works|
        invariant Known(prs, works[i..])
        invariant HandleAll(State(), works[i..], config, calls) == HandleAll(old(State()), works, config, calls)
      {
        assert works[i..][1..] == works[i + 1..];
        assert works[i..][0] == works[i];
        if works[i].teardown {
          HandleClosed(works[i], calls(works[i].id));
        } else {
          HandleOpen(works[i], calls(works[i].id));
        }
      }
    }

    /** One repository: list and handle the open pull requests, then list and handle the closed ones. */
    method ReconcileRepository(r: Repository)
      requires KnownIn(prs.Keys, r)
      modifies this
      ensures State() == Trigger.Pass(old(State()), r, config)
    {
      hide HandleAll;
      assert forall id | id in r.open || id in r.closed :: r.Lists(id);
      HandleListed(Listing(prs, r.open, false), r.calls);
      HandleListed(Listing(prs, r.closed, true), r.later);
    }

    /** One pass: repository after repository. */
    method Reconcile(rs: seq<Repository>)
      requires forall r | r in rs :: KnownIn(prs.Keys, r)
      modifies this
      ensures State() == Passes(old(State()), rs, config)
    {
      hide Trigger.Pass;
      for i := 0 to |rs|
        invariant prs.Keys == old(prs.Keys)
        invariant forall r | r in rs :: KnownIn(prs.Keys, r)
        invariant Passes(State(), rs[i..], config) == Passes(old(State()), rs, config)
      {
        assert rs[i..][1..] == rs[i + 1..] && rs[i..][0] == rs[i];
        ReconcileRepository(rs[i]);
      }
    }
  }
}
