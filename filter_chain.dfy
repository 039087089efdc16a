/** Inbound filtering: a frame reaches the receive queue only when no active
    filter blocks it and at least one active filter passes it. The check of a
    single filter (mask and pattern matching) lies outside this model and is
    the parameter `check`. */
module FilterChain {
  import opened J2534

  /** Some active filter of `slots` gives `verdict` for `frame`. */
  predicate AnyGives(slots: seq<Option<Filter>>, frame: Frame,
                     check: (Filter, Frame) -> FilterResult, verdict: FilterResult)
  {
    exists j :: 0 <= j < |slots| && slots[j].Some? && check(slots[j].value, frame) == verdict
  }

  /** "Any block drops, else any pass admits, else drop." */
  predicate Admits(slots: seq<Option<Filter>>, frame: Frame, check: (Filter, Frame) -> FilterResult) {
    !AnyGives(slots, frame, check, FilterBlock) && AnyGives(slots, frame, check, FilterPass)
  }

  /** A filter that blocks the frame wins over any number of passing ones. */
  lemma BlockWins(slots: seq<Option<Filter>>, frame: Frame, check: (Filter, Frame) -> FilterResult, k: nat)
    requires k < |slots| && slots[k].Some? && check(slots[k].value, frame) == FilterBlock
    ensures !Admits(slots, frame, check)
  {
  }

  /** With no active filter, every frame is dropped. */
  lemma NoActiveFilterDrops(slots: seq<Option<Filter>>, frame: Frame, check: (Filter, Frame) -> FilterResult)
    requires forall j :: 0 <= j < |slots| ==> slots[j].None?
    ensures !Admits(slots, frame, check)
  {
  }

  /** The outcome depends only on which filters are active, not on the slots
      that hold them: rearranging the slots changes nothing. */
  lemma {:induction false} AdmitsIgnoresSlotOrder(
    s1: seq<Option<Filter>>, s2: seq<Option<Filter>>, frame: Frame, check: (Filter, Frame) -> FilterResult)
    requires multiset(s1) == multiset(s2)
    ensures Admits(s1, frame, check) == Admits(s2, frame, check)
  {
    AnyGivesIsMembership(s1, frame, check, FilterBlock);
    AnyGivesIsMembership(s2, frame, check, FilterBlock);
    AnyGivesIsMembership(s1, frame, check, FilterPass);
    AnyGivesIsMembership(s2, frame, check, FilterPass);
    forall f: Filter
      ensures Some(f) in s1 <==> Some(f) in s2
    {
      assert Some(f) in s1 <==> Some(f) in multiset(s1);
      assert Some(f) in s2 <==> Some(f) in multiset(s2);
    }
  }

  lemma AnyGivesIsMembership(slots: seq<Option<Filter>>, frame: Frame,
                             check: (Filter, Frame) -> FilterResult, verdict: FilterResult)
    ensures AnyGives(slots, frame, check, verdict) <==>
              exists f: Filter :: Some(f) in slots && check(f, frame) == verdict
  {
    if exists f: Filter :: Some(f) in slots && check(f, frame) == verdict {
      var f: Filter :| Some(f) in slots && check(f, frame) == verdict;
      var j :| 0 <= j < |slots| && slots[j] == Some(f);
      assert slots[j].Some? && check(slots[j].value, frame) == verdict;
    }
  }
}
