/** controllers/utils.go: the map merge, the owner selector and the slice search. */
module Utils {
  type StringMap = map<string, string>

  // The label every resource of a universe carries.
  const OWNER_LABEL := "universe"

  function LabelSelector(id: string): StringMap {
    map[OWNER_LABEL := id]
  }

  predicate OwnedBy(labels: StringMap, id: string) {
    OWNER_LABEL in labels && labels[OWNER_LABEL] == id
  }

  /** Merging the selector last stamps the owner over any label the user chose,
      so a created resource is listed by its own universe and by no other. */
  lemma StampDecidesOwner(user: StringMap, id: string, other: string)
    ensures OwnedBy(user + LabelSelector(id), other) <==> other == id
  {
    assert (user + LabelSelector(id))[OWNER_LABEL] == id;
  }

  /** A Go map: a reference that may be nil and may be shared. */
  class GoMap {
    var entries: StringMap

    constructor (entries: StringMap)
      ensures this.entries == entries
    {
      this.entries := entries;
    }
  }

  lemma MergeOne(was: StringMap, extra: StringMap, todo: set<string>, k: string)
    requires k in todo && todo <= extra.Keys
    ensures (was + (extra - todo))[k := extra[k]] == was + (extra - (todo - {k}))
  {
  }

  /** Writes every entry of b into a and returns a; a nil a makes the result an alias of b. */
  method AddMap(a: GoMap?, b: GoMap?) returns (r: GoMap?)
    modifies a
    ensures a == null ==> r == b && (b != null ==> b.entries == old(b.entries))
    ensures a != null ==> r == a
    ensures a != null ==> a.entries == old(a.entries) + (if b == null then map[] else old(b.entries))
  {
    if a == null {
      return b;
    }
    if b == null {
      return a;
    }
    ghost var was := a.entries;
    var extra := b.entries;
    var todo := extra.Keys;
    while todo != {}
      invariant todo <= extra.Keys
      invariant a.entries == was + (extra - todo)
      decreases |todo|
    {
      var k :| k in todo;
      MergeOne(was, extra, todo, k);
      a.entries := a.entries[k := extra[k]];
      todo := todo - {k};
    }
    assert extra - {} == extra;
    return a;
  }

  method StringInSlice(a: string, list: seq<string>) returns (found: bool)
    ensures found <==> a in list
  {
    for i := 0 to |list|
      invariant a !in list[..i]
    {
      if list[i] == a {
        return true;
      }
    }
    return false;
  }
}
