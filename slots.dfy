/** Fixed-size slot arrays: the periodic-message pool and the filter pool of a
    connection both hand out the lowest empty index as the handle. */
module Slots {
  import opened J2534

  predicate AllOccupied<T>(s: seq<Option<T>>) {
    forall j :: 0 <= j < |s| ==> s[j].Some?
  }

  predicate AllEmpty<T>(s: seq<Option<T>>) {
    forall j :: 0 <= j < |s| ==> s[j].None?
  }

  /** The lowest empty slot of `s`, or `None` when every slot is taken. */
  function FirstFree<T>(s: seq<Option<T>>): (r: Option<nat>)
    ensures r.None? <==> AllOccupied(s)
    ensures r.Some? ==> r.value < |s| && s[r.value].None?
    ensures r.Some? ==> forall j :: 0 <= j < r.value ==> s[j].Some?
  {
    if s == [] then None
    else if s[0].None? then Some(0)
    else match FirstFree(s[1..])
      case None => None
      case Some(k) => Some(k + 1)
  }

  /** The lowest empty slot is the handle handed out: an empty slot below
      which every slot is taken is exactly what FirstFree finds. */
  lemma LowestFreeIs<T>(s: seq<Option<T>>, k: nat)
    requires k < |s| && s[k].None?
    requires forall j :: 0 <= j < k ==> s[j].Some?
    ensures FirstFree(s) == Some(k)
  {
  }

  /** The scan `for (i = 0; i < size; i++) if (slots[i] == nullptr) ...`
      that both PassThruStartPeriodicMsg and PassThruStartMsgFilter run
      before claiming a slot. */
  method FindFreeSlot<T>(slots: array<Option<T>>) returns (r: Option<nat>)
    ensures r == FirstFree(slots[..])
  {
    var i := 0;
    while i < slots.Length
      invariant 0 <= i <= slots.Length
      invariant forall j :: 0 <= j < i ==> slots[j].Some?
    {
      if slots[i].None? {
        return Some(i);
      }
      i := i + 1;
    }
    return None;
  }
}
