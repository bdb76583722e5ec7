/** Rewriting the hosts of the ingresses restored into a preview cluster. */
module Ingress {
  import opened Strings

  /** getHostName */
  function GetHostName(host: string, suffix: string): string {
    Split(host, '.')[0] + "-" + suffix + "." + Join(Split(host, '.')[1..], '.')
  }

  /** The labels after the first one. A dotless host counts as having one more, an empty one. */
  function LaterLabels(host: string): seq<string> {
    if '.' in host then Split(host, '.')[1..] else [""]
  }

  lemma FirstLabelHasNoDot(host: string)
    ensures '.' !in Split(host, '.')[0] && FreeOf(Split(host, '.'), '.')
  {
    JoinOfSplit(host, '.');
    assert Split(host, '.')[0] in Split(host, '.');
  }

  /** Only the first label changes: a dash and the suffix, whatever dots that has, are put behind it. */
  lemma OnlyFirstLabelChanges(host: string, suffix: string)
    ensures Split(GetHostName(host, suffix), '.') == Split(Split(host, '.')[0] + "-" + suffix, '.') + LaterLabels(host)
  {
    var labels := Split(host, '.');
    FirstLabelHasNoDot(host);
    SplitAround(labels[0] + "-" + suffix, Join(labels[1..], '.'), '.');
    if '.' in host {
      assert FreeOf(labels[1..], '.');
      SplitOfJoin(labels[1..], '.');
    } else {
      assert Join(labels[1..], '.') == "";
    }
  }

  /** The same, with the labels of the suffix. */
  lemma NewLabels(host: string, suffix: string)
    ensures Split(GetHostName(host, suffix), '.') ==
            [Split(host, '.')[0] + "-" + Split(suffix, '.')[0]] + Split(suffix, '.')[1..] + LaterLabels(host)
  {
    var first := Split(host, '.')[0];
    OnlyFirstLabelChanges(host, suffix);
    FirstLabelHasNoDot(host);
    SplitPrefixed(first + "-", suffix, '.');
    assert first + "-" + suffix == (first + "-") + suffix;
  }

  /** The number of labels is kept exactly for a host with a dot and a suffix without any. */
  lemma LabelCountKept(host: string, suffix: string)
    ensures |Split(GetHostName(host, suffix), '.')| == |Split(host, '.')| <==> '.' in host && '.' !in suffix
  {
    NewLabels(host, suffix);
  }

  function Dotted(host: string): string {
    if '.' in host then host else host + "."
  }

  lemma DottedLabels(host: string)
    ensures Split(Dotted(host), '.') == [Split(host, '.')[0]] + LaterLabels(host)
  {
    if '.' !in host {
      assert host + "." == host + "." + "";
      SplitAround(host, "", '.');
    }
  }

  /** Exactly which hosts of one universe get the same new host: those that differ at most by a final dot
      after a name without any. */
  lemma HostsCollide(g: string, h: string, suffix: string)
    ensures GetHostName(g, suffix) == GetHostName(h, suffix) <==> Dotted(g) == Dotted(h)
  {
    NewLabels(g, suffix);
    NewLabels(h, suffix);
    DottedLabels(g);
    DottedLabels(h);
    JoinOfSplit(Dotted(g), '.');
    JoinOfSplit(Dotted(h), '.');
    JoinOfSplit(GetHostName(g, suffix), '.');
    JoinOfSplit(GetHostName(h, suffix), '.');
    if GetHostName(g, suffix) == GetHostName(h, suffix) {
      SameNewLabels(Split(g, '.')[0], LaterLabels(g), Split(h, '.')[0], LaterLabels(h), Split(suffix, '.'));
    }
    if Dotted(g) == Dotted(h) {
      assert ([Split(g, '.')[0]] + LaterLabels(g))[1..] == LaterLabels(g);
      assert ([Split(h, '.')[0]] + LaterLabels(h))[1..] == LaterLabels(h);
    }
  }

  lemma SameNewLabels(a: string, s: seq<string>, b: string, t: seq<string>, suffix: seq<string>)
    requires suffix != []
    requires [a + "-" + suffix[0]] + suffix[1..] + s == [b + "-" + suffix[0]] + suffix[1..] + t
    ensures a == b && s == t
  {
    var l, r := [a + "-" + suffix[0]] + suffix[1..] + s, [b + "-" + suffix[0]] + suffix[1..] + t;
    assert l[0] == a + "-" + suffix[0] && r[0] == b + "-" + suffix[0];
    assert |a| == |b|;
    assert a == l[0][..|a|] && b == r[0][..|b|];
    assert s == l[|suffix|..] && t == r[|suffix|..];
  }

  /** Different universes give one host different names. */
  lemma SuffixesSeparate(host: string, s: string, t: string)
    requires GetHostName(host, s) == GetHostName(host, t)
    ensures s == t
  {
    var head, tail := Split(host, '.')[0] + "-", "." + Join(Split(host, '.')[1..], '.');
    assert GetHostName(host, s) == head + s + tail;
    assert GetHostName(host, t) == head + t + tail;
    assert |s| == |t|;
    assert s == (head + s + tail)[|head|..|head| + |s|];
    assert t == (head + t + tail)[|head|..|head| + |t|];
  }

  /** Rewriting is never the identity, so a second completed pass changes every host again. */
  lemma RewritingNeverSettles(host: string, suffix: string)
    ensures |GetHostName(host, suffix)| > |host|
  {
    JoinOfSplit(host, '.');
    if |Split(host, '.')| == 1 {
      assert GetHostName(host, suffix) == host + "-" + suffix + "." + Join([], '.');
    }
  }

  // ---- ingressPatch --------------------------------------------------------------------------------

  type Rules = seq<string>

  /** The hosts of an ingress after the first n rules were rewritten. */
  function Rewrite(hosts: Rules, suffix: string, n: nat): (r: Rules)
    requires n <= |hosts|
    ensures |r| == |hosts|
    ensures forall i | 0 <= i < |hosts| :: r[i] == if i < n then GetHostName(hosts[i], suffix) else hosts[i]
  {
    seq(|hosts|, i requires 0 <= i < |hosts| => if i < n then GetHostName(hosts[i], suffix) else hosts[i])
  }

  /** The first update of the ingress is accepted, and there is no second one. */
  predicate Passes(hosts: Rules, accepted: bool) {
    |hosts| <= 1 && (|hosts| == 1 ==> accepted)
  }

  /** The first ingress at which the loop gives up, or the number of ingresses. */
  function FirstStuck(all: seq<Rules>, accepts: nat -> bool): (n: nat)
    ensures n <= |all|
    ensures forall i | 0 <= i < n :: Passes(all[i], accepts(i))
    ensures n < |all| ==> !Passes(all[n], accepts(n))
  {
    StuckFrom(all, accepts, 0)
  }

  function StuckFrom(all: seq<Rules>, accepts: nat -> bool, i: nat): (n: nat)
    requires i <= |all|
    ensures i <= n <= |all|
    ensures forall j | i <= j < n :: Passes(all[j], accepts(j))
    ensures n < |all| ==> !Passes(all[n], accepts(n))
    decreases |all| - i
  {
    if i == |all| || !Passes(all[i], accepts(i)) then i else StuckFrom(all, accepts, i + 1)
  }

  /** What a call leaves: before the first stuck ingress everything is rewritten; of that one at most the first host;
      behind it nothing. */
  function Patched(all: seq<Rules>, suffix: string, accepts: nat -> bool): (r: seq<Rules>)
    ensures |r| == |all|
  {
    var n := FirstStuck(all, accepts);
    seq(|all|, i requires 0 <= i < |all| =>
      if i < n then Rewrite(all[i], suffix, |all[i]|)
      else if i == n && all[i] != [] && accepts(i) then Rewrite(all[i], suffix, 1)
      else all[i])
  }

  /** An ingress as the server holds it. */
  datatype Stored = Stored(hosts: Rules, version: nat)

  /** The ingresses of a namespace. An update is conditional on the version it offers,
      and one that changes the object raises its version. */
  class Ingresses {
    var items: seq<Stored>

    ghost function Hosts(): (all: seq<Rules>)
      reads this
      ensures |all| == |items|
    {
      seq(|items|, i requires 0 <= i < |items| reads this => items[i].hosts)
    }

    constructor (items: seq<Stored>)
      ensures this.items == items
    {
      this.items := items;
    }

    /** The server stores the hosts if the version is current and nothing else is wrong. */
    method Update(i: nat, ing: Stored, accepted: bool) returns (ok: bool)
      requires i < |items|
      modifies this
      ensures ok == (accepted && ing.version == old(items[i]).version)
      ensures !ok ==> items == old(items)
      ensures ok ==> |items| == |old(items)| && forall j | 0 <= j < |items| && j != i :: items[j] == old(items)[j]
      ensures ok ==> items[i].hosts == ing.hosts
      ensures ok ==> items[i].version == ing.version + if ing.hosts == old(items[i]).hosts then 0 else 1
    {
      ok := accepted && ing.version == items[i].version;
      if ok {
        items := items[i := Stored(ing.hosts, if ing.hosts == items[i].hosts then ing.version else ing.version + 1)];
      }
    }

    /** Rewrites the rules of one listed ingress, updating after each with the object of the listing, whose version
        the responses do not refresh. So the second update is always refused. */
    method PatchOne(i: nat, listed: Stored, suffix: string, accepted: bool) returns (ok: bool)
      requires i < |items| && items[i] == listed
      modifies this
      ensures ok == Passes(listed.hosts, accepted)
      ensures |items| == |old(items)| && forall j | 0 <= j < |items| && j != i :: items[j] == old(items)[j]
      ensures items[i].hosts == if listed.hosts != [] && accepted then Rewrite(listed.hosts, suffix, 1) else listed.hosts
    {
      var ing, rules := listed, listed.hosts;
      for index := 0 to |rules|
        invariant index <= 1 && |items| == |old(items)| && ing.version == listed.version
        invariant ing.hosts == Rewrite(rules, suffix, index)
        invariant forall j | 0 <= j < |items| && j != i :: items[j] == old(items)[j]
        invariant index == 0 ==> items == old(items)
        invariant index == 1 ==> accepted && items[i].hosts == ing.hosts && items[i].version > ing.version
      {
        ing := ing.(hosts := ing.hosts[index := GetHostName(rules[index], suffix)]);
        assert ing.hosts == Rewrite(rules, suffix, index + 1);
        RewritingNeverSettles(rules[index], suffix);
        assert index == 0 ==> ing.hosts[0] != rules[0];
        ok := Update(i, ing, accepted);
        if !ok {
          return;
        }
      }
      return true;
    }

    /** ingressPatch: ingress after ingress, up to the first error. The call succeeds if and only if every ingress has at
        most one rule and the updates are accepted. */
    method Patch(suffix: string, accepts: nat -> bool) returns (ok: bool)
      modifies this
      ensures Hosts() == Patched(old(Hosts()), suffix, accepts)
      ensures ok <==> forall i | 0 <= i < |old(Hosts())| :: Passes(old(Hosts())[i], accepts(i))
    {
      ghost var was := Hosts();
      ghost var n := FirstStuck(was, accepts);
      var list := items;
      for i := 0 to |list|
        invariant |items| == |list| && i <= n
        invariant forall j | i <= j < |list| :: items[j] == list[j]
        invariant forall j | 0 <= j < i :: Hosts()[j] == Rewrite(was[j], suffix, |was[j]|)
        invariant forall j | i <= j < |was| :: Hosts()[j] == was[j]
      {
        ghost var before := Hosts();
        assert before[i] == was[i] == items[i].hosts;
        ok := PatchOne(i, list[i], suffix, accepts(i));
        assert forall j | 0 <= j < |was| && j != i :: Hosts()[j] == before[j];
        if !ok {
          return;
        }
        if was[i] == [] {
          assert Rewrite(was[i], suffix, 0) == was[i];
        }
      }
      return true;
    }
  }

  /** The ingresses after a run of calls, one per completed pass. */
  function PatchedOften(all: seq<Rules>, suffix: string, calls: seq<nat -> bool>): seq<Rules>
    decreases |calls|
  {
    if calls == [] then all else PatchedOften(Patched(all, suffix, calls[0]), suffix, calls[1..])
  }

  /** An ingress with two rules holds up the rest for ever: however often the call is repeated and whatever is accepted,
      its rules but the first, and all rules of the ingresses behind it, keep their hosts. */
  lemma {:induction false} TwoRulesHoldUpTheRest(all: seq<Rules>, suffix: string, calls: seq<nat -> bool>,
                                                 m: nat, i: nat, r: nat)
    requires m < |all| && |all[m]| >= 2
    requires i < |all| && r < |all[i]| && (i > m || (i == m && r >= 1))
    ensures var now := PatchedOften(all, suffix, calls);
            |now| == |all| && |now[i]| == |all[i]| && now[i][r] == all[i][r]
    decreases |calls|
  {
    if calls != [] {
      var next := Patched(all, suffix, calls[0]);
      var n := FirstStuck(all, calls[0]);
      assert n <= m;
      TwoRulesHoldUpTheRest(next, suffix, calls[1..], m, i, r);
    }
  }

  /** The host after n rewritings. */
  function RewrittenOften(host: string, suffix: string, n: nat): string
    decreases n
  {
    if n == 0 then host else RewrittenOften(GetHostName(host, suffix), suffix, n - 1)
  }

  lemma OneRuleIsRewritten(all: seq<Rules>, suffix: string, accepts: nat -> bool)
    requires forall j | 0 <= j < |all| :: |all[j]| == 1 && accepts(j)
    ensures forall j | 0 <= j < |all| :: Patched(all, suffix, accepts)[j] == [GetHostName(all[j][0], suffix)]
  {
    assert FirstStuck(all, accepts) == |all|;
  }

  /** With one rule each and nothing refused, a run of calls puts the suffix into every host once per call. */
  lemma {:induction false} OneRuleIsRewrittenEachTime(all: seq<Rules>, suffix: string, calls: seq<nat -> bool>, i: nat)
    requires forall j | 0 <= j < |all| :: |all[j]| == 1
    requires forall c | c in calls :: forall j: nat :: c(j)
    requires i < |all|
    ensures var now := PatchedOften(all, suffix, calls);
            |now| == |all| && now[i] == [RewrittenOften(all[i][0], suffix, |calls|)]
    decreases |calls|
  {
    hide Patched, GetHostName;
    if calls != [] {
      assert calls[0] in calls && forall c | c in calls[1..] :: c in calls;
      OneRuleIsRewritten(all, suffix, calls[0]);
      OneRuleIsRewrittenEachTime(Patched(all, suffix, calls[0]), suffix, calls[1..], i);
    }
  }
}
