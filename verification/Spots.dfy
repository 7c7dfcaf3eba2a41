// All the spots of an address space, and alloc_spot, which picks one of them.
module Spots {
  import opened Common
  import opened Align
  import opened Regions
  import opened Gaps

  // ---------- all gaps ----------

  function Left(rs: seq<Region>, i: nat): Option<Region>
    requires i <= |rs|
  {
    if i == 0 then None else Some(rs[i - 1])
  }

  function Right(rs: seq<Region>, i: nat): Option<Region>
    requires i <= |rs|
  {
    if i == |rs| then None else Some(rs[i])
  }

  // What alloc_spot is asked for.
  ghost predicate RequestOk(s: Bounds, rs: seq<Region>, align: nat, size: nat) {
    && Sorted(s, rs) && AlignOk(s.page) && AlignOk(align) && Aligned(align, s.page) && 0 < align
    && 0 < size && Aligned(size, s.page)
  }

  lemma RegionAt(s: Bounds, rs: seq<Region>, i: nat)
    requires Sorted(s, rs) && i < |rs|
    ensures 0 < rs[i].base && rs[i].End() + s.page <= WORD && Aligned(rs[i].base, s.page) && Aligned(rs[i].End(), s.page)
    ensures 0 < s.page
  {
    AlignedSum(rs[i].base, rs[i].size, s.page);
  }

  function GapAt(s: Bounds, rs: seq<Region>, i: nat): (g: Option<Gap>)
    requires Sorted(s, rs) && i <= |rs|
  {
    if i < |rs| then RegionAt(s, rs, i); ExtractGap(s, Left(rs, i), Right(rs, i))
    else ExtractGap(s, Left(rs, i), Right(rs, i))
  }

  lemma GapAtOk(s: Bounds, rs: seq<Region>, i: nat)
    requires Sorted(s, rs) && i <= |rs|
    ensures GapOk(s, GapAt(s, rs, i))
  {
    if i > 0 {
      RegionAt(s, rs, i - 1);
      SelfAligned(s.page);
      AlignedSum(rs[i - 1].End(), s.page, s.page);
    }
    AlignedSum(s.base, s.size, s.page);
    SelfAligned(s.page);
    if i < |rs| {
      RegionAt(s, rs, i);
    }
    hide Aligned;
    var end := if i < |rs| then rs[i].base else s.base + s.size;
    if s.page <= end {
      AlignedDifference(s.page, end, s.page);
    }
  }

  // ---------- which bases are free ----------

  // The region that alloc_region creates at b: guarded on both sides.
  function New(b: nat, size: nat): Region {
    Region(b, size, false, false)
  }

  // What add_region_to_aspace accepts.
  ghost predicate Free(s: Bounds, rs: seq<Region>, size: nat, b: nat) {
    RegionOk(s, Region(b, size, false, false)) && forall k :: 0 <= k < |rs| ==> Apart(s.page, rs[k], Region(b, size, false, false))
  }

  ghost predicate Between(rs: seq<Region>, i: nat, b: nat) {
    && i <= |rs|
    && (i > 0 ==> rs[i - 1].base < b)
    && (i < |rs| ==> b < rs[i].base)
  }

  // A spot of gap i is free and lies between its neighbours.
  lemma FitsFree(s: Bounds, rs: seq<Region>, i: nat, size: nat, b: nat)
    requires Sorted(s, rs) && i <= |rs| && 0 < size && Aligned(size, s.page)
    requires GapAt(s, rs, i).Some? && Fits(GapAt(s, rs, i).value, s.page, size, b)
    ensures Free(s, rs, size, b) && Between(rs, i, b)
  {
    if i > 0 {
      RegionAt(s, rs, i - 1);
    }
    if i < |rs| {
      RegionAt(s, rs, i);
    }
    forall k | 0 <= k < |rs|
      ensures Apart(s.page, rs[k], New(b, size))
    {
      AtLeastOnePage(s, rs[k]);
      if k < i - 1 {
        assert Before(s.page, rs[k], rs[i - 1]);
      } else if k > i {
        assert Before(s.page, rs[i], rs[k]);
      }
    }
  }

  // Every free base is a spot of the gap that it lies in.
  lemma FreeFits(s: Bounds, rs: seq<Region>, i: nat, size: nat, b: nat)
    requires Sorted(s, rs) && 0 < size && Aligned(size, s.page)
    requires Free(s, rs, size, b) && Between(rs, i, b)
    ensures GapAt(s, rs, i).Some? && Fits(GapAt(s, rs, i).value, s.page, size, b)
  {
    AtLeastOnePage(s, New(b, size));
    if i > 0 {
      assert Apart(s.page, rs[i - 1], New(b, size));
      AtLeastOnePage(s, rs[i - 1]);
    }
    if i < |rs| {
      assert Apart(s.page, rs[i], New(b, size));
      AtLeastOnePage(s, rs[i]);
    }
  }

  // ---------- the choice ----------

  function Choices(s: Bounds, rs: seq<Region>, i: nat, align: nat, size: nat): nat
    requires RequestOk(s, rs, align, size) && i <= |rs|
    decreases |rs| - i
  {
    Scan(s.page, GapAt(s, rs, i), align, size) + if i < |rs| then Choices(s, rs, i + 1, align, size) else 0
  }

  // The index-th spot, counting from gap i on.
  function Choose(s: Bounds, rs: seq<Region>, i: nat, align: nat, size: nat, index: nat): (b: nat)
    requires RequestOk(s, rs, align, size) && i <= |rs| && index < Choices(s, rs, i, align, size)
    decreases |rs| - i
  {
    GapAtOk(s, rs, i);
    var n := Scan(s.page, GapAt(s, rs, i), align, size);
    if index < n then SpotInGap(s.page, GapAt(s, rs, i).value, align, size, index)
    else Choose(s, rs, i + 1, align, size, index - n)
  }

  // Any index below the number of choices gives an aligned and free base that
  // lies beyond the region left of gap i.
  lemma {:induction false} ChooseFree(s: Bounds, rs: seq<Region>, i: nat, align: nat, size: nat, index: nat)
    requires RequestOk(s, rs, align, size) && i <= |rs| && index < Choices(s, rs, i, align, size)
    ensures var b := Choose(s, rs, i, align, size, index);
      Aligned(b, align) && Free(s, rs, size, b) && (i > 0 ==> rs[i - 1].base < b)
    decreases |rs| - i
  {
    GapAtOk(s, rs, i);
    var n, g := Scan(s.page, GapAt(s, rs, i), align, size), GapAt(s, rs, i);
    if index < n {
      var b := SpotInGap(s.page, g.value, align, size, index);
      AlignedThrough(b, align, s.page);
      FitsFree(s, rs, i, size, b);
    } else {
      ChooseFree(s, rs, i + 1, align, size, index - n);
      if i > 0 {
        AtLeastOnePage(s, rs[i - 1]);
        assert Before(s.page, rs[i - 1], rs[i]);
      }
    }
  }

  // On page alignment the choice grows with the index, so that no base is
  // chosen by two indexes.
  lemma {:induction false} ChooseIncreasing(s: Bounds, rs: seq<Region>, i: nat, size: nat, index: nat, index': nat)
    requires RequestOk(s, rs, s.page, size) && i <= |rs| && index < index' < Choices(s, rs, i, s.page, size)
    ensures Choose(s, rs, i, s.page, size, index) < Choose(s, rs, i, s.page, size, index')
    decreases |rs| - i
  {
    hide *;
    var n := InFirstGap(s, rs, i, size);
    if index' < n {
      BothHere(s, rs, i, size, index, index');
    } else if index < n {
      OneHere(s, rs, i, size, index, index');
    } else {
      ChooseLater(s, rs, i, s.page, size, index);
      ChooseLater(s, rs, i, s.page, size, index');
      ChooseIncreasing(s, rs, i + 1, size, index - n, index' - n);
    }
  }

  lemma InFirstGap(s: Bounds, rs: seq<Region>, i: nat, size: nat) returns (n: nat)
    requires RequestOk(s, rs, s.page, size) && i <= |rs|
    ensures n == Scan(s.page, GapAt(s, rs, i), s.page, size)
  {
    n := Scan(s.page, GapAt(s, rs, i), s.page, size);
  }

  lemma BothHere(s: Bounds, rs: seq<Region>, i: nat, size: nat, index: nat, index': nat)
    requires RequestOk(s, rs, s.page, size) && i <= |rs| && index < index' < Choices(s, rs, i, s.page, size)
    requires index' < Scan(s.page, GapAt(s, rs, i), s.page, size)
    ensures Choose(s, rs, i, s.page, size, index) < Choose(s, rs, i, s.page, size, index')
  {
    hide *;
    ChooseHere(s, rs, i, s.page, size, index);
    ChooseHere(s, rs, i, s.page, size, index');
    SpotsIncreasing(s, rs, i, size, index, index');
  }

  lemma HereBelow(s: Bounds, rs: seq<Region>, i: nat, size: nat, index: nat, index': nat)
    requires RequestOk(s, rs, s.page, size) && i <= |rs| && index < index' < Choices(s, rs, i, s.page, size)
    requires index < Scan(s.page, GapAt(s, rs, i), s.page, size) <= index'
    ensures i < |rs| && Choose(s, rs, i, s.page, size, index) < rs[i].base
  {
    hide *;
    ChooseHere(s, rs, i, s.page, size, index);
    ChooseLater(s, rs, i, s.page, size, index');
    SpotBelow(s, rs, i, size, index);
  }

  lemma LaterAbove(s: Bounds, rs: seq<Region>, i: nat, size: nat, index: nat)
    requires RequestOk(s, rs, s.page, size) && i <= |rs| && index < Choices(s, rs, i, s.page, size)
    requires Scan(s.page, GapAt(s, rs, i), s.page, size) <= index
    ensures i < |rs| && rs[i].base < Choose(s, rs, i, s.page, size, index)
  {
    hide *;
    var n := InFirstGap(s, rs, i, size);
    ChooseLater(s, rs, i, s.page, size, index);
    ChooseFree(s, rs, i + 1, s.page, size, index - n);
  }

  lemma OneHere(s: Bounds, rs: seq<Region>, i: nat, size: nat, index: nat, index': nat)
    requires RequestOk(s, rs, s.page, size) && i <= |rs| && index < index' < Choices(s, rs, i, s.page, size)
    requires index < Scan(s.page, GapAt(s, rs, i), s.page, size) <= index'
    ensures Choose(s, rs, i, s.page, size, index) < Choose(s, rs, i, s.page, size, index')
  {
    HereBelow(s, rs, i, size, index, index');
    LaterAbove(s, rs, i, size, index');
  }

  ghost predicate InGap(s: Bounds, rs: seq<Region>, i: nat, align: nat, size: nat, index: nat)
    requires RequestOk(s, rs, align, size) && i <= |rs|
  {
    && index < Scan(s.page, GapAt(s, rs, i), align, size)
    && GapAt(s, rs, i).Some? && 0 < GapAt(s, rs, i).value.low && GapAt(s, rs, i).value.high < WORD
  }

  lemma ChooseHere(s: Bounds, rs: seq<Region>, i: nat, align: nat, size: nat, index: nat)
    requires RequestOk(s, rs, align, size) && i <= |rs| && index < Choices(s, rs, i, align, size)
    requires index < Scan(s.page, GapAt(s, rs, i), align, size)
    ensures InGap(s, rs, i, align, size, index)
    ensures Choose(s, rs, i, align, size, index) == SpotInGap(s.page, GapAt(s, rs, i).value, align, size, index)
  {
    GapAtOk(s, rs, i);
  }

  lemma ChooseLater(s: Bounds, rs: seq<Region>, i: nat, align: nat, size: nat, index: nat)
    requires RequestOk(s, rs, align, size) && i <= |rs| && index < Choices(s, rs, i, align, size)
    requires Scan(s.page, GapAt(s, rs, i), align, size) <= index
    ensures i < |rs|
    ensures var k := index - Scan(s.page, GapAt(s, rs, i), align, size);
      k < Choices(s, rs, i + 1, align, size) && Choose(s, rs, i, align, size, index) == Choose(s, rs, i + 1, align, size, k)
  {
  }

  lemma SpotBelow(s: Bounds, rs: seq<Region>, i: nat, size: nat, index: nat)
    requires RequestOk(s, rs, s.page, size) && i < |rs| && InGap(s, rs, i, s.page, size, index)
    ensures SpotInGap(s.page, GapAt(s, rs, i).value, s.page, size, index) < rs[i].base
  {
    FitsFree(s, rs, i, size, SpotInGap(s.page, GapAt(s, rs, i).value, s.page, size, index));
  }

  // On page alignment the spots of a gap are a page apart.
  lemma SpotOnPage(s: Bounds, rs: seq<Region>, i: nat, size: nat, index: nat)
    requires RequestOk(s, rs, s.page, size) && i <= |rs| && InGap(s, rs, i, s.page, size, index)
    ensures var g := GapAt(s, rs, i).value;
      NextSpot(g, s.page, size).Some? && SpotInGap(s.page, g, s.page, size, index) == NextSpot(g, s.page, size).value + index * s.page
  {
    SpotInGapOk(s.page, GapAt(s, rs, i).value, s.page, size, index);
    hide Scan, NextSpot, RequestOk;
  }

  lemma SpotsIncreasing(s: Bounds, rs: seq<Region>, i: nat, size: nat, index: nat, index': nat)
    requires RequestOk(s, rs, s.page, size) && i <= |rs| && InGap(s, rs, i, s.page, size, index) && InGap(s, rs, i, s.page, size, index')
    requires index < index'
    ensures SpotInGap(s.page, GapAt(s, rs, i).value, s.page, size, index) < SpotInGap(s.page, GapAt(s, rs, i).value, s.page, size, index')
  {
    SpotOnPage(s, rs, i, size, index);
    SpotOnPage(s, rs, i, size, index');
    hide *;
    Order(index, index', s.page);
  }

  lemma EveryHere(s: Bounds, rs: seq<Region>, i: nat, size: nat, b: nat) returns (index: nat)
    requires RequestOk(s, rs, s.page, size) && i <= |rs| && Free(s, rs, size, b) && (i > 0 ==> rs[i - 1].base < b)
    requires i == |rs| || b < rs[i].base
    ensures index < Choices(s, rs, i, s.page, size) && Choose(s, rs, i, s.page, size, index) == b
  {
    GapAtOk(s, rs, i);
    FreeFits(s, rs, i, size, b);
    index := SpotIndex(s.page, GapAt(s, rs, i).value, size, b);
  }

  // A free base that is not before a region lies beyond its base.
  lemma BasePassed(s: Bounds, rs: seq<Region>, i: nat, align: nat, size: nat, b: nat)
    requires RequestOk(s, rs, align, size) && i < |rs| && Free(s, rs, size, b) && rs[i].base <= b
    ensures rs[i].base < b
  {
    AtLeastOnePage(s, rs[i]);
    assert Apart(s.page, rs[i], New(b, size));
  }

  lemma ChoicePassed(s: Bounds, rs: seq<Region>, i: nat, align: nat, size: nat, index: nat) returns (index': nat)
    requires RequestOk(s, rs, align, size) && i < |rs| && index < Choices(s, rs, i + 1, align, size)
    ensures index' < Choices(s, rs, i, align, size) && Choose(s, rs, i, align, size, index') == Choose(s, rs, i + 1, align, size, index)
  {
    index' := index + Scan(s.page, GapAt(s, rs, i), align, size);
  }

  // On page alignment every free base is chosen by some index.
  lemma {:induction false} ChooseEvery(s: Bounds, rs: seq<Region>, i: nat, size: nat, b: nat) returns (index: nat)
    requires RequestOk(s, rs, s.page, size) && i <= |rs| && Free(s, rs, size, b) && (i > 0 ==> rs[i - 1].base < b)
    ensures index < Choices(s, rs, i, s.page, size) && Choose(s, rs, i, s.page, size, index) == b
    decreases |rs| - i
  {
    hide *;
    if i == |rs| || b < rs[i].base {
      index := EveryHere(s, rs, i, size, b);
    } else {
      BasePassed(s, rs, i, s.page, size, b);
      index := ChooseEvery(s, rs, i + 1, size, b);
      index := ChoicePassed(s, rs, i, s.page, size, index);
    }
  }

  // For every alignment the first choice is the lowest aligned free base, and
  // there is no choice only if there is no such base.
  lemma {:induction false} LowestFirst(s: Bounds, rs: seq<Region>, i: nat, align: nat, size: nat, b: nat)
    requires RequestOk(s, rs, align, size) && i <= |rs|
    requires Aligned(b, align) && Free(s, rs, size, b) && (i > 0 ==> rs[i - 1].base < b)
    ensures 0 < Choices(s, rs, i, align, size) && Choose(s, rs, i, align, size, 0) <= b
    decreases |rs| - i
  {
    GapAtOk(s, rs, i);
    var n, g := Scan(s.page, GapAt(s, rs, i), align, size), GapAt(s, rs, i);
    if i == |rs| || b < rs[i].base {
      FreeFits(s, rs, i, size, b);
      FirstOfGap(s.page, g.value, align, size, b);
    } else {
      BasePassed(s, rs, i, align, size, b);
      LowestFirst(s, rs, i + 1, align, size, b);
      if n > 0 {
        var c := SpotInGap(s.page, g.value, align, size, 0);
        AlignedThrough(c, align, s.page);
        FitsFree(s, rs, i, size, c);
      }
    }
  }

  lemma FirstOfGap(page: nat, g: Gap, align: nat, size: nat, b: nat)
    requires AlignOk(align) && 0 < page && 0 < align && 0 < size && 0 < g.low && g.high < WORD && Fits(g, align, size, b)
    ensures 0 < Scan(page, Some(g), align, size) && SpotInGap(page, g, align, size, 0) <= b
  {
    NextSpotLowest(g, align, size);
    LastSpotHighest(g, align, size, b);
    var first := NextSpot(g, align, size).value;
    SpotFromBase(g, align, size, first, first);
  }

  // alloc_spot: counts the spots of all gaps, draws an index and goes to it.
  method AllocSpot(s: Bounds, rs: seq<Region>, align: nat, size: nat) returns (spot: Option<nat>, ghost index: nat)
    requires RequestOk(s, rs, align, size)
    ensures spot == None <==> Choices(s, rs, 0, align, size) == 0
    ensures spot.Some? ==> index < Choices(s, rs, 0, align, size) && spot.value == Choose(s, rs, 0, align, size, index)
  {
    hide Scan, SpotInGap, GapAt;
    var choices := 0;
    var i := 0;
    while i <= |rs|
      invariant 0 <= i <= |rs| + 1
      invariant choices + (if i <= |rs| then Choices(s, rs, i, align, size) else 0) == Choices(s, rs, 0, align, size)
    {
      var n := ScanAt(s, rs, i, align, size);
      choices := choices + n;
      i := i + 1;
    }
    index := 0;
    if choices == 0 {
      return None, 0;
    }
    var k: nat :| k < choices;
    index := k;
    i := 0;
    while i < |rs|
      invariant 0 <= i <= |rs| && k < Choices(s, rs, i, align, size)
      invariant Choose(s, rs, i, align, size, k) == Choose(s, rs, 0, align, size, index)
    {
      var n := ScanAt(s, rs, i, align, size);
      if n > k {
        GapAtOk(s, rs, i);
        spot := Some(SpotInGap(s.page, GapAt(s, rs, i).value, align, size, k));
        return;
      }
      k := k - n;
      i := i + 1;
    }
    var n := ScanAt(s, rs, i, align, size);
    GapAtOk(s, rs, i);
    spot := Some(SpotInGap(s.page, GapAt(s, rs, i).value, align, size, k));
  }

  method ScanAt(s: Bounds, rs: seq<Region>, i: nat, align: nat, size: nat) returns (n: nat)
    requires RequestOk(s, rs, align, size) && i <= |rs|
    ensures n == Scan(s.page, GapAt(s, rs, i), align, size)
    ensures n > 0 ==> GapAt(s, rs, i).Some?
  {
    GapAtOk(s, rs, i);
    if i < |rs| {
      RegionAt(s, rs, i);
    }
    n := ScanGap(s, Left(rs, i), Right(rs, i), align, size);
  }
}
