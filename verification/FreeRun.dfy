// The search for a run of free pages in an arena.
module FreeRun {
  import opened Common
  import opened Align
  import opened Regions
  import opened Gaps
  import opened Arenas

  // Where a run of count pages from page s of the arena is wanted: within the
  // arena, and at an address with the alignment if that is more than a page.
  ghost predicate Candidate(page: nat, a: Arena, align: nat, count: nat, s: nat) {
    s < a.Pages() && s + count <= a.Pages() && OnBoundary(page, a, align, s)
  }

  ghost predicate OnBoundary(page: nat, a: Arena, align: nat, s: nat) {
    page < align ==> (a.base + s * page) % align == 0
  }

  ghost predicate FreeFrom(a: Arena, s: nat, count: nat) {
    s + count <= a.Pages() && forall i :: s <= i < s + count ==> !a.nonfree[i]
  }

  ghost predicate IsRun(page: nat, a: Arena, align: nat, count: nat, s: nat) {
    Candidate(page, a, align, count, s) && FreeFrom(a, s, count)
  }

  ghost predicate LowestRun(page: nat, a: Arena, align: nat, count: nat, s: nat) {
    IsRun(page, a, align, count, s) && forall t :: 0 <= t < s ==> !IsRun(page, a, align, count, t)
  }

  ghost predicate NoRun(page: nat, a: Arena, align: nat, count: nat) {
    forall t :: 0 <= t < a.Pages() ==> !IsRun(page, a, align, count, t)
  }

  // An arena lies on page boundaries within the 64-bit addresses, and an
  // alignment of more than a page is a number of pages.
  ghost predicate Placed(page: nat, a: Arena, align: nat) {
    && 0 < page && Aligned(a.base, page) && a.base + a.Pages() * page <= WORD
    && AlignOk(page) && (page < align ==> AlignOk(align) && Aligned(align, page))
  }

  // The same of an alignment that is at least a page.
  ghost predicate Spaced(page: nat, a: Arena, align: nat) {
    && 0 < page && Aligned(a.base, page) && a.base + a.Pages() * page <= WORD
    && AlignOk(align) && 0 < align && Aligned(align, page)
  }

  // Whole pages of an alignment beyond the first aligned address.
  lemma StepOf(page: nat, align: nat, base: nat, first: nat, off: nat, s: nat)
    requires 0 < page && Aligned(align, page) && 0 < align
    requires Aligned(first, align) && first == base + off * page && off <= s
    ensures Aligned(base + s * page, align) <==> Aligned(s - off, align / page)
  {
    var step := align / page;
    var q := Quotient(align, page);
    var d := s - off;
    assert base + s * page == first + d * page;
    var r := Quotient(d, step);
    ScaleRemainder(page, step, d);
    if Aligned(d * page, align) {
      AlignedSum(first, d * page, align);
    }
    if Aligned(first + d * page, align) {
      AlignedDifference(first, first + d * page, align);
    }
  }

  lemma ScaleRemainder(page: nat, step: nat, d: nat)
    requires 0 < page && 0 < step
    ensures 0 < step * page && (Aligned(d * page, step * page) <==> Aligned(d, step))
  {
    var q := Quotient(d, step);
    var r := d % step;
    assert d * page == q * (step * page) + r * page;
    Order(r, step, page);
    Order(0, r, page);
    MultipleAligned(q, step * page);
    if Aligned(d * page, step * page) {
      AlignedDifference(q * (step * page), d * page, step * page);
      SelfAligned(step * page);
      AlignedGap(r * page, step * page, step * page);
      AlignedGap(0, r * page, step * page);
    }
    if r == 0 {
      assert d * page == q * (step * page);
    }
  }

  // Every aligned page comes at or after the first aligned address.
  lemma FirstAligned(page: nat, a: Arena, align: nat, t: nat)
    requires Spaced(page, a, align) && t < a.Pages() && Aligned(a.base + t * page, align)
    ensures a.base <= AlignUp(a.base, align) <= a.base + t * page
  {
    Order(t, a.Pages(), page);
    AlignUpLowest(a.base, align, a.base + t * page);
  }

  function Aligning(page: nat, align: nat): nat {
    if align < page then page else align
  }

  // The search may look for an alignment of at least a page.
  lemma AligningSpaced(page: nat, a: Arena, align: nat)
    requires Placed(page, a, align)
    ensures Spaced(page, a, Aligning(page, align))
  {
    SelfAligned(page);
  }

  lemma AligningAt(page: nat, a: Arena, align: nat, s: nat)
    requires Placed(page, a, align)
    ensures OnBoundary(page, a, align, s) <==> Aligned(a.base + s * page, Aligning(page, align))
  {
    if align <= page {
      MultipleAligned(s, page);
      AlignedSum(a.base, s * page, page);
    }
  }

  lemma AlignsUp(x: nat, align: nat)
    requires 0 < align
    ensures Aligned(AlignUp(x, align), align)
  {
    RoundedDown((x + align - 1) % WORD, align);
  }

  // Where the search begins: the offset of the first aligned page.
  lemma SearchStart(page: nat, a: Arena, align: nat) returns (first: nat)
    requires Spaced(page, a, align)
    ensures first == AlignUp(a.base, align)
    ensures first < a.base || first > a.base + a.Pages() * page - 1 ==> forall t :: 0 <= t < a.Pages() ==> !Aligned(a.base + t * page, align)
    ensures a.base <= first && first <= a.base + a.Pages() * page - 1 ==>
      && Aligned(first, align) && first == a.base + (first - a.base) / page * page
      && (forall t :: 0 <= t < a.Pages() && Aligned(a.base + t * page, align) ==> (first - a.base) / page <= t)
  {
    hide AlignUp, Aligned;
    first := AlignUp(a.base, align);
    AlignsUp(a.base, align);
    AlignedThrough(first, align, page);
    forall t | 0 <= t < a.Pages() && Aligned(a.base + t * page, align)
      ensures a.base <= first <= a.base + t * page <= a.base + a.Pages() * page - 1
    {
      FirstAligned(page, a, align, t);
      Order(t, a.Pages(), page);
    }
    if a.base <= first {
      AlignedDifference(a.base, first, page);
      OffsetPages(page, first - a.base);
      var off := (first - a.base) / page;
      forall t | 0 <= t < a.Pages() && Aligned(a.base + t * page, align)
        ensures off <= t
      {
        Order(t, off, page);
      }
    }
  }

  lemma OffsetPages(page: nat, d: nat)
    requires Aligned(d, page)
    ensures d == d / page * page
  {
    var q := Quotient(d, page);
  }

  // No run begins between s and a page in use within the run at s.
  lemma SkipBroken(page: nat, a: Arena, align: nat, count: nat, s: nat, i: nat, t: nat)
    requires i < count && s + count <= a.Pages() && a.nonfree[s + i] && s <= t <= s + i
    ensures !IsRun(page, a, align, count, t)
  {
  }

  // Where the search goes on after a page in use: the next aligned start.
  function NextStart(start: nat, off: nat, i: nat, step: nat): nat
    requires 0 < step && off <= start
  {
    RoundDown(start - off + i + 1 + (step - 1), step) + off
  }

  lemma NextStartLowest(start: nat, off: nat, i: nat, step: nat, t: nat)
    requires 0 < step && off <= start
    ensures var n := NextStart(start, off, i, step);
      start + i < n && Aligned(n - off, step) && (start + i < t && Aligned(t - off, step) ==> n <= t)
  {
    var x := start - off + i + 1 + (step - 1);
    RoundedDown(x, step);
    if start + i < t && Aligned(t - off, step) {
      AlignedGap(t - off, RoundDown(x, step), step);
    }
  }

  // The search of pmm_arena_find_free_run: skips ahead at every page in use.
  method FindFreeRun(page: nat, a: Arena, count: nat, alignment: nat) returns (found: Option<nat>)
    requires Placed(page, a, alignment)
    ensures found.Some? ==> LowestRun(page, a, alignment, count, found.value)
    ensures found == None ==> NoRun(page, a, alignment, count)
    ensures found.Some? ==>
      && found.value < |a.nonfree| && found.value + count <= |a.nonfree|
      && (alignment > page ==> (a.base + found.value * page) % alignment == 0)
      && forall i :: found.value <= i < found.value + count ==> !a.nonfree[i]
    ensures forall s :: 0 <= s < |a.nonfree| && s + count <= |a.nonfree| && (found.Some? ==> s < found.value) ==>
      !OnBoundary(page, a, alignment, s) || exists i :: s <= i < s + count && a.nonfree[i]
  {
    var r := FindRun(page, a, count, alignment);
    RunMeaning(page, a, count, alignment, r);
    return r;
  }

  lemma RunMeaning(page: nat, a: Arena, count: nat, alignment: nat, found: Option<nat>)
    requires 0 < page && if found.Some? then LowestRun(page, a, alignment, count, found.value) else NoRun(page, a, alignment, count)
    ensures found.Some? ==>
      && found.value < |a.nonfree| && found.value + count <= |a.nonfree|
      && (alignment > page ==> (a.base + found.value * page) % alignment == 0)
      && forall i :: found.value <= i < found.value + count ==> !a.nonfree[i]
    ensures forall s :: 0 <= s < |a.nonfree| && s + count <= |a.nonfree| && (found.Some? ==> s < found.value) ==>
      !OnBoundary(page, a, alignment, s) || exists i :: s <= i < s + count && a.nonfree[i]
  {
    forall s | 0 <= s < |a.nonfree| && s + count <= |a.nonfree| && (found.Some? ==> s < found.value)
      ensures !OnBoundary(page, a, alignment, s) || exists i :: s <= i < s + count && a.nonfree[i]
    {
      assert !IsRun(page, a, alignment, count, s);
      if OnBoundary(page, a, alignment, s) {
        assert !FreeFrom(a, s, count);
      }
    }
  }

  method FindRun(page: nat, a: Arena, count: nat, alignment: nat) returns (found: Option<nat>)
    requires Placed(page, a, alignment)
    ensures found.Some? ==> LowestRun(page, a, alignment, count, found.value)
    ensures found == None ==> NoRun(page, a, alignment, count)
  {
    hide IsRun, OnBoundary, Aligned, AlignUp;
    var align := Aligning(page, alignment);
    AligningSpaced(page, a, alignment);
    var first := AlignUp(a.base, align);
    ghost var f := SearchStart(page, a, align);
    if first < a.base || first > a.base + a.Pages() * page - 1 {
      NoneAligned(page, a, alignment, count);
      return None;
    }
    var off := (first - a.base) / page;
    StepPositive(page, align);
    MakeGrid(page, a, alignment, first, off);
    found := SearchGrid(page, a, alignment, count, off, align / page);
  }

  lemma NoneAligned(page: nat, a: Arena, alignment: nat, count: nat)
    requires Placed(page, a, alignment)
    requires forall t :: 0 <= t < a.Pages() ==> !Aligned(a.base + t * page, Aligning(page, alignment))
    ensures NoRun(page, a, alignment, count)
  {
    forall t | 0 <= t < a.Pages()
      ensures !IsRun(page, a, alignment, count, t)
    {
      AligningAt(page, a, alignment, t);
    }
  }

  lemma StepPositive(page: nat, align: nat)
    requires 0 < page && 0 < align && Aligned(align, page)
    ensures 0 < align / page && Aligned(0, align / page)
  {
    var q := Quotient(align, page);
    SelfAligned(q);
  }

  // Runs begin a whole number of steps after off.
  ghost predicate OnGrid(page: nat, a: Arena, align: nat, off: nat, step: nat) {
    0 < step && forall t :: 0 <= t < a.Pages() ==> (OnBoundary(page, a, align, t) <==> off <= t && Aligned(t - off, step))
  }

  lemma MakeGrid(page: nat, a: Arena, alignment: nat, first: nat, off: nat)
    requires Placed(page, a, alignment) && Spaced(page, a, Aligning(page, alignment)) && 0 < Aligning(page, alignment) / page
    requires Aligned(first, Aligning(page, alignment)) && first == a.base + off * page
    requires forall t :: 0 <= t < a.Pages() && Aligned(a.base + t * page, Aligning(page, alignment)) ==> off <= t
    ensures OnGrid(page, a, alignment, off, Aligning(page, alignment) / page)
  {
    hide OnBoundary, Aligned;
    var align := Aligning(page, alignment);
    forall t | 0 <= t < a.Pages()
      ensures OnBoundary(page, a, alignment, t) <==> off <= t && Aligned(t - off, align / page)
    {
      AligningAt(page, a, alignment, t);
      if off <= t {
        StepOf(page, align, a.base, first, off, t);
      }
    }
  }

  method SearchGrid(page: nat, a: Arena, align: nat, count: nat, off: nat, step: nat) returns (found: Option<nat>)
    requires OnGrid(page, a, align, off, step) && Aligned(0, step)
    ensures found.Some? ==> LowestRun(page, a, align, count, found.value)
    ensures found == None ==> NoRun(page, a, align, count)
  {
    hide Aligned, OnBoundary;
    var start := off;
    while start < a.Pages() && start + count <= a.Pages()
      invariant off <= start && Aligned(start - off, step)
      invariant forall t :: 0 <= t < a.Pages() && t < start ==> !IsRun(page, a, align, count, t)
      decreases a.Pages() - start
    {
      var i := 0;
      while i < count && !a.nonfree[start + i]
        invariant 0 <= i <= count
        invariant forall j :: start <= j < start + i ==> !a.nonfree[j]
      {
        i := i + 1;
      }
      if i == count {
        return Some(start);
      }
      ghost var s0 := start;
      start := NextStart(start, off, i, step);
      forall t | 0 <= t < a.Pages() && t < start
        ensures !IsRun(page, a, align, count, t)
      {
        NextStartLowest(s0, off, i, step, t);
        if s0 <= t <= s0 + i {
          SkipBroken(page, a, align, count, s0, i, t);
        }
      }
      NextStartLowest(s0, off, i, step, 0);
    }
    found := None;
  }
}
