/** controllers/sync.go: the status list of a universe, an association list that behaves as a map. */
module Status {
  import opened Resources

  // common.CreatingStatus, common.ReconcilingStatus and common.RunningStatus
  datatype Progress = Creating | Reconciling | Healthy

  datatype Entry = Entry(kind: Kind, name: string, progress: Progress)

  datatype Slot = Slot(kind: Kind, name: string)

  function SlotOf(e: Entry): Slot {
    Slot(e.kind, e.name)
  }

  /** The position of the slot's first entry, or the length of the list. */
  function Find(list: seq<Entry>, slot: Slot): (i: nat)
    ensures i <= |list|
    ensures i < |list| ==> SlotOf(list[i]) == slot
    ensures forall j | 0 <= j < i :: SlotOf(list[j]) != slot
  {
    if list == [] || SlotOf(list[0]) == slot then 0 else 1 + Find(list[1..], slot)
  }

  predicate Has(list: seq<Entry>, slot: Slot) {
    Find(list, slot) < |list|
  }

  /** Overwrites the first entry of the slot, or appends a new one. */
  function Upsert(list: seq<Entry>, e: Entry): seq<Entry> {
    if Has(list, SlotOf(e)) then list[Find(list, SlotOf(e)) := e] else list + [e]
  }

  function UpsertAll(list: seq<Entry>, reports: seq<Entry>): seq<Entry>
    decreases |reports|
  {
    if reports == [] then list else UpsertAll(Upsert(list, reports[0]), reports[1..])
  }

  predicate UniqueSlots(list: seq<Entry>) {
    forall i, j | 0 <= i < j < |list| :: SlotOf(list[i]) != SlotOf(list[j])
  }

  /** The slots of two lists agree position by position, over the length of the first. */
  predicate KeepsOrder(before: seq<Entry>, after: seq<Entry>) {
    |before| <= |after| && forall i | 0 <= i < |before| :: SlotOf(after[i]) == SlotOf(before[i])
  }

  /** The map an association list stands for. */
  function AsMap(list: seq<Entry>): map<Slot, Progress> {
    map e | e in list :: SlotOf(e) := list[Find(list, SlotOf(e))].progress
  }

  function UpdateAll(m: map<Slot, Progress>, reports: seq<Entry>): map<Slot, Progress>
    decreases |reports|
  {
    if reports == [] then m else UpdateAll(m[SlotOf(reports[0]) := reports[0].progress], reports[1..])
  }

  lemma AsMapAt(list: seq<Entry>, slot: Slot)
    ensures slot in AsMap(list) <==> Has(list, slot)
    ensures Has(list, slot) ==> AsMap(list)[slot] == list[Find(list, slot)].progress
  {
    if Has(list, slot) {
      assert list[Find(list, slot)] in list;
    }
  }

  /** One upsert keeps every entry in its place and adds at most one, at the end. */
  lemma UpsertKeepsOrder(list: seq<Entry>, e: Entry)
    ensures KeepsOrder(list, Upsert(list, e))
    ensures |Upsert(list, e)| == if Has(list, SlotOf(e)) then |list| else |list| + 1
    ensures UniqueSlots(list) ==> UniqueSlots(Upsert(list, e))
  {
  }

  /** One upsert is one map update. */
  lemma UpsertRefinesUpdate(list: seq<Entry>, e: Entry)
    ensures AsMap(Upsert(list, e)) == AsMap(list)[SlotOf(e) := e.progress]
  {
    var after := Upsert(list, e);
    forall slot ensures Has(after, slot) <==> slot == SlotOf(e) || Has(list, slot)
      ensures Has(after, slot) ==>
        after[Find(after, slot)].progress == if slot == SlotOf(e) then e.progress else list[Find(list, slot)].progress
    {
      UpsertAt(list, e, slot);
    }
    forall slot
      ensures slot in AsMap(after) <==> slot in AsMap(list)[SlotOf(e) := e.progress]
      ensures slot in AsMap(after) ==> AsMap(after)[slot] == AsMap(list)[SlotOf(e) := e.progress][slot]
    {
      AsMapAt(list, slot);
      AsMapAt(after, slot);
    }
  }

  lemma UpsertAt(list: seq<Entry>, e: Entry, slot: Slot)
    ensures Has(Upsert(list, e), slot) <==> slot == SlotOf(e) || Has(list, slot)
    ensures slot == SlotOf(e) ==> Upsert(list, e)[Find(Upsert(list, e), slot)] == e
    ensures slot != SlotOf(e) && Has(list, slot) ==>
      Find(Upsert(list, e), slot) == Find(list, slot) && Upsert(list, e)[Find(list, slot)] == list[Find(list, slot)]
  {
    var after := Upsert(list, e);
    var i, j := Find(list, slot), Find(after, slot);
    if slot == SlotOf(e) {
      assert SlotOf(after[i]) == slot;
    } else if i < |list| {
      assert after[i] == list[i];
      assert j < |after| ==> j < |list| && after[j] == list[j];
    }
  }

  /** Any run of reports keeps the slots unique, keeps the old entries in order,
      and leaves the same map as the same run of map updates. */
  lemma {:induction false} UpsertAllRefinesUpdates(list: seq<Entry>, reports: seq<Entry>)
    ensures AsMap(UpsertAll(list, reports)) == UpdateAll(AsMap(list), reports)
    ensures KeepsOrder(list, UpsertAll(list, reports))
    ensures UniqueSlots(list) ==> UniqueSlots(UpsertAll(list, reports))
    decreases |reports|
  {
    if reports != [] {
      UpsertRefinesUpdate(list, reports[0]);
      UpsertKeepsOrder(list, reports[0]);
      UpsertAllRefinesUpdates(Upsert(list, reports[0]), reports[1..]);
    }
  }
}
