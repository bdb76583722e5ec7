/** The preview services of a pull request: collected by the trigger controller, carried in an annotation,
    and marked in the preview cluster by the universe controller. */
module Services {
  import opened Utils
  import opened Strings

  /** The pattern svc/.+ matches somewhere in the label: "svc/" followed by a character that ends no line. */
  predicate IsServiceLabel(name: string) {
    exists i | 0 <= i < |name| - 4 :: MatchesAt(name, i)
  }

  predicate MatchesAt(name: string, i: nat)
    requires i < |name| - 4
  {
    name[i..i + 4] == "svc/" && name[i + 4] != '\n'
  }

  /** LabelToDeploymentMap at a label; a Go map gives the empty string for an unknown key. */
  function Deployment(deployments: StringMap, name: string): string {
    if name in deployments then deployments[name] else ""
  }

  /** The deployments of the service labels, in order. */
  function ServicesOf(labels: seq<string>, deployments: StringMap): seq<string> {
    if labels == [] then []
    else
      var first := if IsServiceLabel(labels[0]) then [Deployment(deployments, labels[0])] else [];
      first + ServicesOf(labels[1..], deployments)
  }

  /** Which labels ask for a service: something, "svc/", a character that ends no line, anything. */
  lemma ServiceLabels(name: string)
    ensures IsServiceLabel(name) <==>
            exists head, c, tail :: name == head + "svc/" + [c] + tail && c != '\n'
  {
    if IsServiceLabel(name) {
      var i :| 0 <= i < |name| - 4 && MatchesAt(name, i);
      assert name == name[..i] + name[i..i + 4] + [name[i + 4]] + name[i + 5..];
    }
    if head, c, tail :| name == head + "svc/" + [c] + tail && c != '\n' {
      assert name[|head|..|head| + 4] == "svc/" && name[|head| + 4] == c;
      assert MatchesAt(name, |head|);
    }
  }

  /** The services of a list of labels: what its service labels stand for, the empty name for an unknown one,
      as many as there are service labels. */
  lemma {:induction false} ServicesStandForLabels(labels: seq<string>, deployments: StringMap, x: string)
    ensures x in ServicesOf(labels, deployments) <==>
            exists y :: y in labels && IsServiceLabel(y) && (if y in deployments then x == deployments[y] else x == "")
    ensures |ServicesOf(labels, deployments)| == |ServiceLabelsOf(labels)|
  {
    hide IsServiceLabel;
    if labels != [] {
      ServicesStandForLabels(labels[1..], deployments, x);
      assert forall y :: y in labels <==> y == labels[0] || y in labels[1..];
    }
  }

  function ServiceLabelsOf(labels: seq<string>): seq<string> {
    if labels == [] then []
    else if IsServiceLabel(labels[0]) then [labels[0]] + ServiceLabelsOf(labels[1..])
    else ServiceLabelsOf(labels[1..])
  }

  lemma {:induction false} ServicesOfConcat(a: seq<string>, b: seq<string>, deployments: StringMap)
    ensures ServicesOf(a + b, deployments) == ServicesOf(a, deployments) + ServicesOf(b, deployments)
  {
    if a == [] {
      assert a + b == b;
    } else {
      assert (a + b)[1..] == a[1..] + b;
      ServicesOfConcat(a[1..], b, deployments);
    }
  }

  /** The first loop over the labels of a pull request. */
  method CollectServices(labels: seq<string>, deployments: StringMap) returns (names: seq<string>, services: seq<string>)
    ensures names == labels && services == ServicesOf(labels, deployments)
  {
    names, services := [], [];
    for i := 0 to |labels|
      invariant names == labels[..i] && services == ServicesOf(labels[..i], deployments)
    {
      names := names + [labels[i]];
      if IsServiceLabel(labels[i]) {
        services := services + [Deployment(deployments, labels[i])];
      }
      ServicesOfConcat(labels[..i], [labels[i]], deployments);
      assert labels[..i + 1] == labels[..i] + [labels[i]];
    }
    assert labels[..|labels|] == labels;
  }

  /** The annotation multiverse.saga.dev/preview-services. */
  function Annotation(services: seq<string>): string {
    Join(services, ',')
  }

  /** The names read back from the annotation are the services, except that an empty list reads as one empty name. */
  lemma AnnotationReadsBack(services: seq<string>)
    requires FreeOf(services, ',')
    ensures Split(Annotation(services), ',') == if services == [] then [""] else services
  {
    if services != [] {
      SplitOfJoin(services, ',');
    }
  }

  datatype Workload = Workload(name: string, annotations: StringMap)

  const UPDATE := map["image-update" := "true"]

  function Marked(d: Workload): Workload {
    d.(annotations := d.annotations + UPDATE)
  }

  /** The answers of the API server: whether the listing for the n-th name succeeds,
      and whether the update of the i-th deployment for the n-th name is accepted. */
  datatype Answers = Answers(lists: nat -> bool, accepts: (nat, nat) -> bool)

  /** Some of the names is the deployment's, and its listing and update succeed. */
  ghost predicate Reached(d: Workload, i: nat, names: seq<string>, answers: Answers) {
    exists n | 0 <= n < |names| :: names[n] == d.name && answers.lists(n) && answers.accepts(n, i)
  }

  /** Exactly the deployments reached through the list are marked. */
  ghost predicate MarkedFor(was: seq<Workload>, now: seq<Workload>, names: seq<string>, answers: Answers) {
    && |now| == |was|
    && forall i | 0 <= i < |was| :: now[i] == if Reached(was[i], i, names, answers) then Marked(was[i]) else was[i]
  }

  lemma ReachedByOneMore(d: Workload, i: nat, names: seq<string>, name: string, answers: Answers)
    ensures Reached(d, i, names + [name], answers) <==>
            Reached(d, i, names, answers) || (name == d.name && answers.lists(|names|) && answers.accepts(|names|, i))
  {
    var all := names + [name];
    if Reached(d, i, names, answers) {
      var n :| 0 <= n < |names| && names[n] == d.name && answers.lists(n) && answers.accepts(n, i);
      assert all[n] == d.name;
    }
    if name == d.name && answers.lists(|names|) && answers.accepts(|names|, i) {
      assert all[|names|] == d.name;
    }
  }

  /** The deployments of a preview cluster, of all namespaces. */
  class PreviewCluster {
    var deployments: seq<Workload>

    /** For every name of the annotation: list the deployments, mark those of that name. */
    method MarkServices(annotation: string, answers: Answers)
      modifies this
      ensures MarkedFor(old(deployments), deployments, Split(annotation, ','), answers)
    {
      ghost var was := deployments;
      var names := Split(annotation, ',');
      for n := 0 to |names|
        invariant MarkedFor(was, deployments, names[..n], answers)
      {
        ghost var before := deployments;
        var listed := if answers.lists(n) then deployments else [];
        assert names[..n + 1] == names[..n] + [names[n]];
        for i := 0 to |listed|
          invariant |deployments| == |before| && (listed == before || listed == [])
          invariant forall j | 0 <= j < |before| :: deployments[j] ==
                      if j < i && before[j].name == names[n] && answers.accepts(n, j) then Marked(before[j]) else before[j]
        {
          if listed[i].name == names[n] {
            if answers.accepts(n, i) {
              deployments := deployments[i := Marked(listed[i])];
            }
          }
        }
        forall i: nat | i < |was|
          ensures deployments[i] == if Reached(was[i], i, names[..n + 1], answers) then Marked(was[i]) else was[i]
        {
          ReachedByOneMore(was[i], i, names[..n], names[n], answers);
          MarkLaws(was[i]);
        }
      }
      assert names[..|names|] == names;
    }
  }

  /** Marking twice is marking once, and it touches no other annotation. */
  lemma MarkLaws(d: Workload)
    ensures Marked(Marked(d)) == Marked(d) && Marked(d).name == d.name
    ensures Marked(d).annotations - UPDATE.Keys == d.annotations - UPDATE.Keys
    ensures "image-update" in Marked(d).annotations && Marked(d).annotations["image-update"] == "true"
  {
  }

  /** Across both controllers: the deployments marked are exactly those whose names are services of the labels. */
  lemma ServicesReachDeployments(labels: seq<string>, deployments: StringMap, was: seq<Workload>, now: seq<Workload>,
                                 answers: Answers)
    requires FreeOf(ServicesOf(labels, deployments), ',')
    requires forall d | d in was :: d.name != ""
    requires MarkedFor(was, now, Split(Annotation(ServicesOf(labels, deployments)), ','), answers)
    ensures MarkedFor(was, now, ServicesOf(labels, deployments), answers)
  {
    var services := ServicesOf(labels, deployments);
    AnnotationReadsBack(services);
    forall i: nat | i < |was| ensures Reached(was[i], i, services, answers) <==>
                                     Reached(was[i], i, if services == [] then [""] else services, answers) {
      assert was[i] in was;
    }
  }
}
