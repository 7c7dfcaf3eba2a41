// Regions of an address space and the comparator that orders them.
module Regions {
  import opened Common
  import opened Align

  datatype Region = Region(base: nat, size: nat, noStart: bool, noEnd: bool) {
    function End(): nat {
      base + size
    }
  }

  datatype Bounds = Bounds(page: nat, base: nat, size: nat) {
    // The first page is not part of the address space, and a guard page can
    // follow its end.
    ghost predicate Ok() {
      && 0 < page <= base && page < size && base + size + page <= WORD
      && Aligned(base, page) && Aligned(size, page)
    }
  }

  // ---------- the comparator ----------

  // vmm_flags_guard
  function Guard(page: nat, low: Region, high: Region): nat {
    if low.noEnd && high.noStart then 0 else page
  }

  // vmm_rguard
  function RGuard(page: nat, low: Region, high: Region): nat {
    if low.base >= high.base then 0 else Guard(page, low, high)
  }

  // vmm_region_cmp, in 64-bit words
  function Cmp(page: nat, a: Region, b: Region): int {
    if b.base > (a.base + a.size - 1 + RGuard(page, a, b)) % WORD then 1
    else if a.base > (b.base + b.size - 1 + RGuard(page, b, a)) % WORD then -1
    else 0
  }

  // a ends before b begins, with the guard between them.
  ghost predicate Before(page: nat, a: Region, b: Region) {
    a.base + a.size + (if a.noEnd && b.noStart then 0 else page) <= b.base
  }

  ghost predicate Apart(page: nat, a: Region, b: Region) {
    Before(page, a, b) || Before(page, b, a)
  }

  ghost predicate Overlap(a: Region, b: Region) {
    a.base < b.End() && b.base < a.End()
  }

  // Neither the region nor a guard after it reaches the end of the words.
  ghost predicate NoWrap(page: nat, r: Region) {
    0 < r.size && r.End() + page <= WORD
  }

  lemma CmpMeaning(page: nat, a: Region, b: Region)
    requires NoWrap(page, a) && NoWrap(page, b)
    ensures Cmp(page, a, b) == 1 <==> Before(page, a, b)
    ensures Cmp(page, a, b) == -1 <==> Before(page, b, a)
    ensures Cmp(page, a, b) == 0 <==> !Apart(page, a, b)
  {
  }

  // ---------- regions in order ----------

  // The region lies in the address space, and so does a guard after it unless
  // it needs none.
  ghost predicate Inside(s: Bounds, r: Region) {
    s.base <= r.base && r.End() + (if r.noEnd then 0 else s.page) <= s.base + s.size
  }

  ghost predicate RegionOk(s: Bounds, r: Region) {
    0 < r.size && Aligned(r.base, s.page) && Aligned(r.size, s.page) && Inside(s, r)
  }

  ghost predicate Sorted(s: Bounds, rs: seq<Region>) {
    && s.Ok()
    && (forall i :: 0 <= i < |rs| ==> RegionOk(s, rs[i]))
    && (forall i, j :: 0 <= i < j < |rs| ==> Before(s.page, rs[i], rs[j]))
  }

  lemma AtLeastOnePage(s: Bounds, r: Region)
    requires s.Ok() && RegionOk(s, r)
    ensures r.size >= s.page && NoWrap(s.page, r)
  {
    SelfAligned(s.page);
    AlignedGap(0, r.size, s.page);
  }

  // Against a sorted sequence, the comparator first answers that x is to the
  // right, then that it collides, then that it is to the left.
  lemma CmpConsistent(s: Bounds, rs: seq<Region>, x: Region, i: nat, j: nat)
    requires Sorted(s, rs) && i < j < |rs| && NoWrap(s.page, x)
    ensures Cmp(s.page, rs[j], x) > 0 ==> Cmp(s.page, rs[i], x) > 0
    ensures Cmp(s.page, rs[i], x) < 0 ==> Cmp(s.page, rs[j], x) < 0
  {
    AtLeastOnePage(s, rs[i]);
    AtLeastOnePage(s, rs[j]);
    CmpMeaning(s.page, rs[i], x);
    CmpMeaning(s.page, rs[j], x);
  }

  // Insertion in order keeps the sequence sorted.
  lemma InsertSorted(s: Bounds, rs: seq<Region>, x: Region, k: nat)
    requires Sorted(s, rs) && RegionOk(s, x) && k <= |rs|
    requires forall i :: 0 <= i < k ==> Cmp(s.page, rs[i], x) > 0
    requires forall i :: k <= i < |rs| ==> Cmp(s.page, rs[i], x) < 0
    ensures Sorted(s, rs[..k] + [x] + rs[k..])
  {
    AtLeastOnePage(s, x);
    forall i | 0 <= i < |rs|
      ensures if i < k then Before(s.page, rs[i], x) else Before(s.page, x, rs[i])
    {
      AtLeastOnePage(s, rs[i]);
      CmpMeaning(s.page, rs[i], x);
    }
  }

  lemma RemoveSorted(s: Bounds, rs: seq<Region>, k: nat)
    requires Sorted(s, rs) && k < |rs|
    ensures Sorted(s, rs[..k] + rs[k + 1..])
  {
  }

  // The regions are disjoint, with a page between neighbours unless both do
  // without it.
  lemma SortedApart(s: Bounds, rs: seq<Region>, i: nat, j: nat)
    requires Sorted(s, rs) && i < |rs| && j < |rs| && i != j
    ensures Apart(s.page, rs[i], rs[j]) && !Overlap(rs[i], rs[j])
    ensures i < j && !(rs[i].noEnd && rs[j].noStart) ==> rs[i].End() + s.page <= rs[j].base
  {
    if j < i {
      assert Before(s.page, rs[j], rs[i]);
    }
  }

  // ---------- lookup ----------

  // The reference that vmm_find_region_in_bst searches for.
  function Reference(page: nat, vaddr: nat, size: nat): Region
    requires page > 0
  {
    Region(RoundDown(vaddr, page), if size != 0 then size else page, true, true)
  }

  ghost predicate Contains(r: Region, v: nat) {
    r.base <= v < r.End()
  }

  // A reference within region k collides with no other region.
  lemma WithinIsUnique(s: Bounds, rs: seq<Region>, x: Region, k: nat, j: nat)
    requires Sorted(s, rs) && k < |rs| && j < |rs| && 0 < x.size && x.noStart && x.noEnd
    requires rs[k].base <= x.base && x.End() <= rs[k].End()
    ensures NoWrap(s.page, x) && (Cmp(s.page, rs[j], x) == 0 <==> j == k)
  {
    AtLeastOnePage(s, rs[k]);
    AtLeastOnePage(s, rs[j]);
    CmpMeaning(s.page, rs[j], x);
    if j < k {
      assert Before(s.page, rs[j], rs[k]);
    } else if k < j {
      assert Before(s.page, rs[k], rs[j]);
    }
  }

  // Whether a region contains an address is decided by its page.
  lemma PageWithin(page: nat, r: Region, v: nat)
    requires Aligned(r.base, page) && Aligned(r.size, page)
    ensures var b := RoundDown(v, page);
      && Aligned(b, page) && Aligned(r.End(), page)
      && (Contains(r, v) <==> r.base <= b && b + page <= r.End())
      && (Contains(r, v) <==> Contains(r, b))
  {
    var b := RoundDown(v, page);
    RoundedDown(v, page);
    AlignedSum(r.base, r.size, page);
    AlignedGap(b, r.base, page);
    AlignedGap(b, r.End(), page);
  }

  // The debug assertion of the lookup: one that hits a region without beginning
  // in it begins in the page before it or after it.
  predicate BesideOk(page: nat, r: Region, base: nat) {
    base == r.base - page || base == r.End()
  }

  // It holds if and only if the region that is hit does not begin more than a
  // page after the address.
  lemma BesideIff(s: Bounds, r: Region, v: nat, size: nat)
    requires s.Ok() && RegionOk(s, r) && NoWrap(s.page, Reference(s.page, v, size))
    requires Cmp(s.page, r, Reference(s.page, v, size)) == 0 && !Contains(r, RoundDown(v, s.page))
    ensures BesideOk(s.page, r, RoundDown(v, s.page)) <==> r.base <= RoundDown(v, s.page) + s.page
  {
    AtLeastOnePage(s, r);
    PageWithin(s.page, r, v);
    CmpMeaning(s.page, r, Reference(s.page, v, size));
    PageBeside(s.page, r, RoundDown(v, s.page));
  }

  // For a lookup of one page it always holds.
  lemma OnlyGuardTouched(s: Bounds, r: Region, v: nat, size: nat)
    requires s.Ok() && RegionOk(s, r) && NoWrap(s.page, Reference(s.page, v, size)) && size <= s.page
    requires Cmp(s.page, r, Reference(s.page, v, size)) == 0 && !Contains(r, RoundDown(v, s.page))
    ensures BesideOk(s.page, r, RoundDown(v, s.page))
  {
    AtLeastOnePage(s, r);
    CmpMeaning(s.page, r, Reference(s.page, v, size));
    BesideIff(s, r, v, size);
    PageWithin(s.page, r, v);
    NoPageBetween(s.page, r, RoundDown(v, s.page));
  }

  lemma NoPageBetween(page: nat, r: Region, b: nat)
    requires Aligned(r.base, page) && Aligned(b, page) && r.base < b + page + page
    ensures r.base <= b + page
  {
    SelfAligned(page);
    AlignedSum(b, page, page);
    AlignedGap(b + page, r.base, page);
  }

  lemma PageBeside(page: nat, r: Region, b: nat)
    requires Aligned(r.base, page) && Aligned(r.size, page) && Aligned(b, page)
    requires !Contains(r, b) && r.size > 0 && b < r.End() + page
    ensures b == r.base - page || b == r.End() <==> r.base <= b + page
  {
    SelfAligned(page);
    AlignedSum(r.base, r.size, page);
    hide Aligned;
    AlignedGap(b, r.base, page);
    AlignedGap(r.End(), b, page);
  }

  // Of the regions other than the one with the address, a range from there on
  // can only collide with later ones, and with any if it does with the next.
  lemma NextDecides(s: Bounds, rs: seq<Region>, x: Region, k: nat, j: nat)
    requires Sorted(s, rs) && k < |rs| && j < |rs| && j != k && x.noStart && x.noEnd && 0 < x.size && Contains(rs[k], x.base)
    ensures !Apart(s.page, rs[j], x) ==> k < j && !Before(s.page, x, rs[k + 1])
  {
    AtLeastOnePage(s, rs[k]);
    AtLeastOnePage(s, rs[j]);
    if j < k {
      assert Before(s.page, rs[j], rs[k]);
    } else {
      AtLeastOnePage(s, rs[k + 1]);
      assert k + 1 < j ==> Before(s.page, rs[k + 1], rs[j]);
    }
  }
}
