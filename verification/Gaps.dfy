// The free spots between regions, and the choice of one of them.
module Gaps {
  import opened Common
  import opened Align
  import opened Regions

  // The addresses from low to high, both included.
  datatype Gap = Gap(low: nat, high: nat)

  // The default arch_mmu_pick_spot: rounds up, in 64-bit words.
  function AlignUp(x: nat, align: nat): nat
    requires align > 0
  {
    RoundDown((x + align - 1) % WORD, align)
  }

  function NextSpot(g: Gap, align: nat, size: nat): Option<nat>
    requires align > 0 && size > 0
  {
    var candidate := AlignUp(g.low, align);
    if candidate < g.low || candidate > g.high then None
    else if candidate + (size - 1) >= WORD then None
    else if candidate + (size - 1) > g.high then None
    else Some(candidate)
  }

  ghost predicate Fits(g: Gap, align: nat, size: nat, b: nat) {
    Aligned(b, align) && g.low <= b && b + size <= g.high + 1
  }

  // The words are a multiple of an alignment, which is a power of two.
  ghost predicate AlignOk(align: nat) {
    Aligned(WORD, align)
  }

  lemma AlignUpLowest(x: nat, align: nat, b: nat)
    requires AlignOk(align) && x <= b < WORD && Aligned(b, align)
    ensures x <= AlignUp(x, align) <= b
  {
    var y := x + align - 1;
    AlignedGap(b, WORD, align);
    RoundedDown(y, align);
    hide Aligned, RoundDown;
    assert AlignUp(x, align) == RoundDown(y, align);
    AlignedGap(b, RoundDown(y, align), align);
  }

  // NextSpot finds the lowest spot of the gap, and only fails if there is none.
  lemma NextSpotLowest(g: Gap, align: nat, size: nat)
    requires AlignOk(align) && 0 < size && 0 < g.low && g.high < WORD
    ensures var n := NextSpot(g, align, size);
      && (n.Some? ==> Fits(g, align, size, n.value))
      && (forall b :: Fits(g, align, size, b) ==> n.Some? && n.value <= b)
  {
    RoundedDown((g.low + align - 1) % WORD, align);
    hide Aligned, RoundDown;
    forall b | Fits(g, align, size, b)
      ensures NextSpot(g, align, size).Some? && NextSpot(g, align, size).value <= b
    {
      AlignUpLowest(g.low, align, b);
    }
  }

  ghost predicate GapOk(s: Bounds, g: Option<Gap>) {
    g.Some? ==> 0 < g.value.low && g.value.high < WORD && Aligned(g.value.low, s.page) && Aligned(g.value.high + 1, s.page)
  }

  // extract_gap
  function ExtractGap(s: Bounds, left: Option<Region>, right: Option<Region>): Option<Gap>
    requires right.Some? ==> right.value.base > 0
    requires s.base + s.size > 0
  {
    if left.Some? && left.value.base + left.value.size >= WORD then None
    else if left.Some? && left.value.base + left.value.size + s.page >= WORD then None
    else
      var low := if left.Some? then left.value.base + left.value.size + s.page else s.base;
      var high := if right.Some? then right.value.base - 1 else s.base + s.size - 1;
      if high < s.page then None
      else if low > high - s.page then None
      else Some(Gap(low, high - s.page))
  }

  // ---------- how many spots a gap has ----------

  // The highest spot of a gap that has one.
  function LastSpot(g: Gap, align: nat, size: nat): nat
    requires align > 0 && size <= g.high + 1
  {
    RoundDown(g.high + 1 - size, align)
  }

  function Scan(page: nat, g: Option<Gap>, align: nat, size: nat): (n: nat)
    requires page > 0 && align > 0 && size > 0
  {
    if g == None || NextSpot(g.value, align, size) == None then 0
    else
      var first := NextSpot(g.value, align, size).value;
      if LastSpot(g.value, align, size) < first then 0 else (LastSpot(g.value, align, size) - first) / page + 1
  }

  lemma LastSpotHighest(g: Gap, align: nat, size: nat, b: nat)
    requires align > 0 && 0 < size && Fits(g, align, size, b)
    ensures size <= g.high + 1 && Fits(g, align, size, LastSpot(g, align, size)) && b <= LastSpot(g, align, size)
  {
    RoundedDown(g.high + 1 - size, align);
    AlignedGap(LastSpot(g, align, size), b, align);
  }

  // The scan begins on the page of the last address that could be a spot.
  lemma StartAboveLast(page: nat, g: Gap, align: nat, size: nat)
    requires Aligned(align, page) && 0 < align && 0 < size <= g.high + 1
    ensures Aligned(RoundDown(g.high - (size - 1), page), page)
    ensures LastSpot(g, align, size) <= RoundDown(g.high - (size - 1), page)
  {
    var x := g.high + 1 - size;
    RoundedDown(x, page);
    RoundedDown(x, align);
    AlignedThrough(RoundDown(x, align), align, page);
    AlignedGap(RoundDown(x, page), RoundDown(x, align), page);
  }

  // A search from a page above the last spot fails, and from the last spot
  // finds it.
  lemma SpotFrom(page: nat, g: Gap, align: nat, size: nat, last: nat)
    requires AlignOk(align) && Aligned(align, page) && 0 < size && g.high < WORD && 0 < g.low
    requires size <= g.high + 1 && Fits(g, align, size, LastSpot(g, align, size))
    requires LastSpot(g, align, size) <= last && Aligned(last, page)
    ensures var next := NextSpot(Gap(last, g.high), align, size);
      if next == None then LastSpot(g, align, size) + page <= last else next.value == LastSpot(g, align, size)
  {
    var h, m := Gap(last, g.high), LastSpot(g, align, size);
    hide Aligned, RoundDown, NextSpot, LastSpot;
    NextSpotLowest(h, align, size);
    var next := NextSpot(h, align, size);
    if next.Some? {
      LastSpotHighest(g, align, size, next.value);
    } else {
      assert !Fits(h, align, size, m);
      AlignedThrough(m, align, page);
      AlignedGap(m, last, page);
    }
  }

  lemma OnePageLower(x: nat, page: nat)
    requires Aligned(x, page) && page <= x
    ensures Aligned(x - page, page)
  {
    SelfAligned(page);
    AlignedDifference(page, x, page);
  }

  lemma ScanNone(page: nat, g: Option<Gap>, align: nat, size: nat)
    requires page > 0 && align > 0 && size > 0
    ensures g == None || NextSpot(g.value, align, size) == None ==> Scan(page, g, align, size) == 0
  {
  }

  lemma ScanSome(page: nat, g: Gap, align: nat, size: nat)
    requires page > 0 && align > 0 && size > 0 && NextSpot(g, align, size).Some?
    requires NextSpot(g, align, size).value <= LastSpot(g, align, size)
    ensures Scan(page, Some(g), align, size) == (LastSpot(g, align, size) - NextSpot(g, align, size).value) / page + 1
  {
  }

  // scan_gap: the number of pages between the lowest and the highest spot.
  method ScanGap(s: Bounds, left: Option<Region>, right: Option<Region>, align: nat, size: nat) returns (n: nat)
    requires s.Ok() && AlignOk(align) && Aligned(align, s.page) && 0 < align && 0 < size
    requires (right.Some? ==> right.value.base > 0) && GapOk(s, ExtractGap(s, left, right))
    ensures n == Scan(s.page, ExtractGap(s, left, right), align, size)
  {
    hide Aligned, RoundDown, NextSpot, LastSpot, ExtractGap, Scan;
    ScanNone(s.page, ExtractGap(s, left, right), align, size);
    var gap := ExtractGap(s, left, right);
    if gap == None {
      return 0;
    }
    var g := gap.value;
    var first := NextSpot(g, align, size);
    if first == None {
      return 0;
    }
    NextSpotLowest(g, align, size);
    LastSpotHighest(g, align, size, first.value);
    var last := RoundDown(g.high - (size - 1), s.page);
    StartAboveLast(s.page, g, align, size);
    var next := NextSpot(Gap(last, g.high), align, size);
    SpotFrom(s.page, g, align, size, last);
    while next == None
      invariant LastSpot(g, align, size) <= last && Aligned(last, s.page)
      invariant if next == None then LastSpot(g, align, size) + s.page <= last else next.value == LastSpot(g, align, size)
      decreases last
    {
      if last - first.value < s.page {
        break;
      }
      OnePageLower(last, s.page);
      last := last - s.page;
      next := NextSpot(Gap(last, g.high), align, size);
      SpotFrom(s.page, g, align, size, last);
    }
    ScanSome(s.page, g, align, size);
    n := (next.value - first.value) / s.page + 1;
  }

  // ---------- one of the spots of a gap ----------

  lemma SpotInGapOk(page: nat, g: Gap, align: nat, size: nat, index: nat)
    requires page > 0 && AlignOk(align) && 0 < align && 0 < size && 0 < g.low && g.high < WORD
    requires index < Scan(page, Some(g), align, size)
    ensures var first := NextSpot(g, align, size);
      && first.Some? && first.value + index * page <= g.high
      && NextSpot(Gap(first.value + index * page, g.high), align, size).Some?
      && Fits(g, align, size, NextSpot(Gap(first.value + index * page, g.high), align, size).value)
      && (align == page ==> NextSpot(Gap(first.value + index * page, g.high), align, size).value == first.value + index * page)
  {
    var first, last := NextSpot(g, align, size).value, LastSpot(g, align, size);
    NextSpotLowest(g, align, size);
    LastSpotHighest(g, align, size, first);
    IndexInside(page, last - first, index);
    hide *;
    SpotFromBase(g, align, size, first + index * page, last);
    if align == page {
      PagesOn(page, first, index);
    }
  }

  lemma PagesOn(page: nat, x: nat, index: nat)
    requires Aligned(x, page)
    ensures Aligned(x + index * page, page)
  {
    MultipleAligned(index, page);
    AlignedSum(x, index * page, page);
  }

  // Below the last spot the search succeeds, at once from an aligned base.
  lemma SpotFromBase(g: Gap, align: nat, size: nat, base: nat, last: nat)
    requires AlignOk(align) && 0 < align && 0 < size && 0 < g.low <= base && g.high < WORD
    requires Fits(g, align, size, last) && base <= last
    ensures base <= g.high
    ensures var n := NextSpot(Gap(base, g.high), align, size);
      n.Some? && Fits(g, align, size, n.value) && (Aligned(base, align) ==> n.value == base)
  {
    var h := Gap(base, g.high);
    hide NextSpot, Aligned;
    NextSpotLowest(h, align, size);
    assert Fits(h, align, size, last);
    assert Aligned(base, align) ==> Fits(h, align, size, base);
  }

  lemma IndexInside(page: nat, d: nat, index: nat)
    requires page > 0
    ensures index < d / page + 1 <==> index * page <= d
  {
    var q := Quotient(d, page);
    Order(index, q, page);
    Order(q + 1, index, page);
    assert (q + 1) * page == q * page + page;
  }

  // spot_in_gap: neither of its panics can happen below the scanned number.
  function SpotInGap(page: nat, g: Gap, align: nat, size: nat, index: nat): (base: nat)
    requires page > 0 && AlignOk(align) && 0 < align && 0 < size && 0 < g.low && g.high < WORD
    requires index < Scan(page, Some(g), align, size)
    ensures Fits(g, align, size, base)
  {
    SpotInGapOk(page, g, align, size, index);
    var first := NextSpot(g, align, size).value;
    NextSpot(Gap(first + index * page, g.high), align, size).value
  }

  // On page alignment every spot of the gap has an index.
  lemma SpotIndex(page: nat, g: Gap, size: nat, b: nat) returns (index: nat)
    requires AlignOk(page) && 0 < page && 0 < size && 0 < g.low && g.high < WORD && Fits(g, page, size, b)
    ensures index < Scan(page, Some(g), page, size) && SpotInGap(page, g, page, size, index) == b
  {
    NextSpotLowest(g, page, size);
    LastSpotHighest(g, page, size, b);
    var first, last := NextSpot(g, page, size).value, LastSpot(g, page, size);
    AlignedDifference(first, b, page);
    index := Quotient(b - first, page);
    assert index * page == b - first by {
      assert (b - first) % page == 0;
    }
    IndexInside(page, last - first, index);
    SpotInGapOk(page, g, page, size, index);
  }
}
