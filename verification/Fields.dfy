/** Field synchronisation between a resource found in the cluster and the item of the spec.
    A Go spec struct is the map of its set fields; an unset (nil) field is an absent key. */
module Fields {
  import opened Utils

  type FieldMap = map<string, string>

  /** One assignment `target.f = source.f`. */
  function Assign(target: FieldMap, source: FieldMap, f: string): FieldMap {
    if f in source then target[f := source[f]] else target - {f}
  }

  function AssignAll(target: FieldMap, source: FieldMap, names: seq<string>): FieldMap
    decreases |names|
  {
    if names == [] then target
    else AssignAll(Assign(target, source, names[0]), source, names[1..])
  }

  /** How one kind is synchronised: replace the whole spec and restore the kept fields,
      or copy the listed fields one by one. */
  datatype SyncRule =
    | ReplaceThenRestore(kept: seq<string>)
    | CopyListed(copied: seq<string>)
  {
    predicate Mutable(f: string) {
      match this
      case ReplaceThenRestore(kept) => f !in kept
      case CopyListed(copied) => f in copied
    }

    function Sync(found: FieldMap, desired: FieldMap): FieldMap {
      match this
      case ReplaceThenRestore(kept) => AssignAll(desired, found, kept)
      case CopyListed(copied) => AssignAll(found, desired, copied)
    }

    /** The part of a spec that synchronisation is responsible for. */
    function Project(m: FieldMap): FieldMap {
      map f | f in m && Mutable(f) :: m[f]
    }

    function Rest(m: FieldMap): FieldMap {
      map f | f in m && !Mutable(f) :: m[f]
    }
  }

  /** A run of assignments takes the named fields from the source and the others from the target. */
  lemma {:induction false} AssignAllAt(target: FieldMap, source: FieldMap, names: seq<string>, f: string)
    ensures var r := AssignAll(target, source, names);
            var from := if f in names then source else target;
            (f in r <==> f in from) && (f in r ==> r[f] == from[f])
    decreases |names|
  {
    if names != [] {
      AssignAllAt(Assign(target, source, names[0]), source, names[1..], f);
    }
  }

  /** Both forms are one overlay: the mutable fields become the desired ones, the others stay as found. */
  lemma SyncIsOverlay(rule: SyncRule, found: FieldMap, desired: FieldMap)
    ensures rule.Sync(found, desired) == rule.Rest(found) + rule.Project(desired)
  {
    var r, o := rule.Sync(found, desired), rule.Rest(found) + rule.Project(desired);
    forall f ensures (f in r <==> f in o) && (f in r ==> r[f] == o[f]) {
      match rule
      case ReplaceThenRestore(kept) => AssignAllAt(desired, found, kept, f);
      case CopyListed(copied) => AssignAllAt(found, desired, copied, f);
    }
  }

  /** What a caller may rely on: mutable fields equal the spec, the others are kept,
      repeating a sync changes nothing, and of two syncs the later one decides alone. */
  lemma SyncLaws(rule: SyncRule, found: FieldMap, first: FieldMap, second: FieldMap)
    ensures rule.Project(rule.Sync(found, second)) == rule.Project(second)
    ensures rule.Rest(rule.Sync(found, second)) == rule.Rest(found)
    ensures rule.Sync(rule.Sync(found, second), second) == rule.Sync(found, second)
    ensures rule.Sync(rule.Sync(found, first), second) == rule.Sync(found, second)
  {
    SyncIsOverlay(rule, found, first);
    SyncIsOverlay(rule, found, second);
    SyncIsOverlay(rule, rule.Sync(found, first), second);
    SyncIsOverlay(rule, rule.Sync(found, second), second);
    assert rule.Rest(rule.Rest(found) + rule.Project(first)) == rule.Rest(found);
    assert rule.Rest(rule.Rest(found) + rule.Project(second)) == rule.Rest(found);
    assert rule.Project(rule.Rest(found) + rule.Project(second)) == rule.Project(second);
  }

  predicate Includes(all: StringMap, part: StringMap) {
    forall k <- part :: k in all && all[k] == part[k]
  }

  /** The annotation merge is the same kind of overlay, with the spec's entries winning. */
  lemma MergeLaws(found: StringMap, first: StringMap, second: StringMap)
    ensures Includes(found + second, second)
    ensures (found + second) - second.Keys == found - second.Keys
    ensures (found + second) + second == found + second
    ensures first.Keys <= second.Keys ==> (found + first) + second == found + second
  {
  }
}
