// The regions of an address space, kept in a search tree.
module Vmm {
  import opened Common
  import opened Align
  import opened Regions
  import opened Gaps
  import opened Spots
  import opened WavlLinks
  import opened WavlRanks
  import opened Wavl
  import opened WavlShapes

  datatype Status = NoError | ErrOutOfRange | ErrNoMemory | ErrInvalidArgs | ErrNotFound

  ghost predicate Known(order: seq<Node>, m: map<Node, Region>) {
    forall i :: 0 <= i < |order| ==> order[i] in m
  }

  // The regions in the order of the tree.
  function Regs(order: seq<Node>, m: map<Node, Region>): (rs: seq<Region>)
    requires Known(order, m)
    ensures |rs| == |order| && forall i :: 0 <= i < |order| ==> rs[i] == m[order[i]]
  {
    seq(|order|, i requires 0 <= i < |order| => m[order[i]])
  }

  function Compare(page: nat, m: map<Node, Region>): (Node, Node) -> int {
    (a, b) => if a in m && b in m then Cmp(page, m[a], m[b]) else 0
  }

  // The comparator never misleads a descent.
  lemma CompareConsistent(s: Bounds, order: seq<Node>, m: map<Node, Region>, x: Node)
    requires Known(order, m) && Sorted(s, Regs(order, m)) && x in m && NoWrap(s.page, m[x])
    ensures Consistent(order, x, Compare(s.page, m))
  {
    var cmp, rs := Compare(s.page, m), Regs(order, m);
    forall i, j | 0 <= i < j < |order|
      ensures (cmp(order[j], x) > 0 ==> cmp(order[i], x) > 0) && (cmp(order[i], x) < 0 ==> cmp(order[j], x) < 0)
    {
      CmpConsistent(s, rs, m[x], i, j);
    }
  }

  lemma CompareApart(s: Bounds, order: seq<Node>, m: map<Node, Region>, x: Node)
    requires Known(order, m) && Sorted(s, Regs(order, m)) && x in m && NoWrap(s.page, m[x])
    ensures (forall n :: n in order ==> Compare(s.page, m)(n, x) != 0) <==>
            (forall i :: 0 <= i < |order| ==> Apart(s.page, Regs(order, m)[i], m[x]))
  {
    var rs := Regs(order, m);
    forall i | 0 <= i < |order|
      ensures Compare(s.page, m)(order[i], x) != 0 <==> Apart(s.page, rs[i], m[x])
    {
      AtLeastOnePage(s, rs[i]);
      CmpMeaning(s.page, rs[i], m[x]);
    }
    if forall n :: n in order ==> Compare(s.page, m)(n, x) != 0 {
      forall i | 0 <= i < |order|
        ensures Apart(s.page, rs[i], m[x])
      {
        assert order[i] in order;
      }
    }
  }

  lemma InsertedSorted(s: Bounds, y: WavlLinks.Layout, y': WavlLinks.Layout, m: map<Node, Region>, x: Node, k: nat)
    requires Known(y.order, m) && Sorted(s, Regs(y.order, m)) && x in m && RegionOk(s, m[x])
    requires Inserted(y, y', x, Compare(s.page, m), k)
    ensures Known(y'.order, m) && Sorted(s, Regs(y'.order, m))
    ensures Regs(y'.order, m) == Regs(y.order, m)[..k] + [m[x]] + Regs(y.order, m)[k..]
  {
    var rs := Regs(y.order, m);
    forall i | 0 <= i < |rs|
      ensures if i < k then Cmp(s.page, rs[i], m[x]) > 0 else Cmp(s.page, rs[i], m[x]) < 0
    {
      var c := Compare(s.page, m)(y.order[i], x);
    }
    InsertSorted(s, rs, m[x], k);
    assert Regs(y'.order, m) == rs[..k] + [m[x]] + rs[k..];
  }

  lemma KnownLater(order: seq<Node>, m: map<Node, Region>, x: Node, r: Region)
    requires Known(order, m) && x !in order
    ensures Known(order, m[x := r]) && Regs(order, m[x := r]) == Regs(order, m)
  {
    forall i | 0 <= i < |order|
      ensures order[i] in m[x := r] && m[x := r][order[i]] == m[order[i]]
    {
      assert order[i] in order;
    }
  }

  lemma OrderInSpan(s: Links, y: WavlLinks.Layout)
    requires IsWavl(s, y)
    ensures forall n :: n in y.order ==> n in y.span
    ensures forall n :: n in y.span ==> n in y.order
  {
    forall n | n in y.span
      ensures n in y.order
    {
      assert LinkedAt(s, y, n);
    }
  }

  class Aspace {
    const s: Bounds
    const tree: Tree
    var regions: map<Node, Region>

    ghost predicate Valid()
      reads this, tree
    {
      && tree.Valid() && AlignOk(s.page)
      && Known(tree.layout.order, regions)
      && Sorted(s, Regs(tree.layout.order, regions))
    }

    // The regions from low to high.
    ghost function Contents(): seq<Region>
      reads this, tree
      requires Valid()
    {
      Regs(tree.layout.order, regions)
    }

    constructor (s: Bounds)
      requires s.Ok() && AlignOk(s.page)
      ensures Valid() && Contents() == [] && fresh(tree)
    {
      this.s, this.regions := s, map[];
      this.tree := new Tree();
    }

    // add_region_to_aspace
    method Add(n: Node, r: Region) returns (status: Status, ghost k: nat)
      requires Valid() && n !in tree.layout.span && (r.size > 0 ==> NoWrap(s.page, r))
      requires Aligned(r.base, s.page) && Aligned(r.size, s.page)
      modifies this, tree
      ensures Valid()
      ensures status == ErrOutOfRange <==> r.size == 0 || !Inside(s, r)
      ensures status == NoError <==> r.size > 0 && Inside(s, r) && forall c :: c in old(Contents()) ==> Apart(s.page, c, r)
      ensures status == NoError ==> s.base <= r.base && r.base + r.size + (if r.noEnd then 0 else s.page) <= s.base + s.size
      ensures status == NoError ==> Guarded(s.page, old(Contents()), r)
      ensures status in {NoError, ErrOutOfRange, ErrNoMemory}
      ensures status == NoError ==> k <= |old(Contents())| && Contents() == old(Contents())[..k] + [r] + old(Contents())[k..]
      ensures status == NoError ==> k < |tree.layout.order| && tree.layout.order[k] == n
      ensures status != NoError ==> Contents() == old(Contents())
    {
      hide Sorted, IsWavl, Apart, Aligned, NoWrap, Consistent, Guarded;
      k := 0;
      if r.size == 0 || !(s.base <= r.base && r.base + r.size <= s.base + s.size - (if r.noEnd then 0 else s.page)) {
        return ErrOutOfRange, 0;
      }
      ghost var y, rs := tree.layout, Contents();
      OrderInSpan(tree.mem, y);
      KnownLater(y.order, regions, n, r);
      regions := regions[n := r];
      CompareConsistent(s, y.order, regions, n);
      CompareApart(s, y.order, regions, n);
      var inserted;
      inserted, k := tree.Insert(n, Compare(s.page, regions));
      if !inserted {
        return ErrNoMemory, k;
      }
      InsertedSorted(s, y, tree.layout, regions, n, k);
      ApartPlain(s.page, rs, r);
      return NoError, k;
    }

    // vmm_find_region_in_bst; beside tells whether its debug assertion holds.
    method Find(vaddr: nat, size: nat) returns (r: Node?, beside: bool)
      requires Valid() && NoWrap(s.page, Reference(s.page, vaddr, size))
      ensures r != null ==> r in tree.layout.span && r in tree.layout.order && r in regions
      ensures r != null ==> Contains(regions[r], RoundDown(vaddr, s.page))
      ensures forall k :: 0 <= k < |Contents()| ==>
        (r == tree.layout.order[k] <==> Contains(Contents()[k], vaddr) && Topmost(s.page, tree.layout, Contents(), Reference(s.page, vaddr, size), k))
      ensures forall k :: 0 <= k < |Contents()| && Contains(Contents()[k], vaddr) && NextApart(s.page, Contents(), Reference(s.page, vaddr, size), k) ==>
        r == tree.layout.order[k]
      ensures forall k :: 0 <= k < |Contents()| && Covers(Contents()[k], Reference(s.page, vaddr, size)) ==> r == tree.layout.order[k]
      ensures size <= s.page ==> (r == null <==> forall c :: c in Contents() ==> !Contains(c, vaddr))
      ensures beside == LookupOk(s.page, tree.layout, Contents(), Reference(s.page, vaddr, size))
      ensures size <= s.page ==> beside
      // A size of 0 stands for a page.
      ensures var from, n := RoundDown(vaddr, s.page), if size == 0 then s.page else size;
        && (forall k :: 0 <= k < |Contents()| && Contents()[k].base <= from && from + n <= Contents()[k].End() ==> r == tree.layout.order[k])
        && (forall k :: (0 <= k < |Contents()| && Contains(Contents()[k], vaddr)
                         && (k + 1 < |Contents()| ==> from + n + (if Contents()[k + 1].noStart then 0 else s.page) <= Contents()[k + 1].base)) ==>
              r == tree.layout.order[k])
    {
      r, beside := LookUp(vaddr, size);
      ContentsSize();
      hide *;
      LookupPlain(s, tree.layout, Contents(), vaddr, size, r);
    }

    lemma ContentsSize()
      requires Valid()
      ensures 0 < s.page && |Contents()| == |tree.layout.order|
    {
    }

    // The search, in terms of the reference and the tree.
    method LookUp(vaddr: nat, size: nat) returns (r: Node?, beside: bool)
      requires Valid() && NoWrap(s.page, Reference(s.page, vaddr, size))
      ensures r != null ==> r in tree.layout.span && r in tree.layout.order && r in regions
      ensures r != null ==> Contains(regions[r], RoundDown(vaddr, s.page))
      ensures forall k :: 0 <= k < |Contents()| ==>
        (r == tree.layout.order[k] <==> Contains(Contents()[k], vaddr) && Topmost(s.page, tree.layout, Contents(), Reference(s.page, vaddr, size), k))
      ensures forall k :: 0 <= k < |Contents()| && Contains(Contents()[k], vaddr) && NextApart(s.page, Contents(), Reference(s.page, vaddr, size), k) ==>
        r == tree.layout.order[k]
      ensures forall k :: 0 <= k < |Contents()| && Covers(Contents()[k], Reference(s.page, vaddr, size)) ==> r == tree.layout.order[k]
      ensures size <= s.page ==> (r == null <==> forall c :: c in Contents() ==> !Contains(c, vaddr))
      ensures beside == LookupOk(s.page, tree.layout, Contents(), Reference(s.page, vaddr, size))
      ensures size <= s.page ==> beside
    {
      hide Consistent, NextApart, Topmost, Covers, NoWrap, Beneath, IsWavl, Cmp, BesideOk;
      var ref := new Node();
      var x := Reference(s.page, vaddr, size);
      ghost var y, rs, m := tree.layout, Contents(), regions[ref := x];
      assert ref !in y.order;
      KnownLater(y.order, regions, ref, x);
      CompareConsistent(s, y.order, m, ref);
      OrderInSpan(tree.mem, y);
      r := Search(tree.mem, y, ref, Compare(s.page, regions[ref := x]));
      SearchMeaning(s, tree.mem, y, m, ref, r);
      LookupMeaning(s, tree.mem, y, rs, vaddr, size);
      beside := true;
      if r != null && !(regions[r].base <= x.base < regions[r].base + regions[r].size) {
        beside := BesideOk(s.page, regions[r], x.base);
        ghost var k := y.span[r].pos;
        BesideIff(s, rs[k], vaddr, size);
        r := null;
      }
    }

    // alloc_region, without regions reserved for others to allocate in; beside
    // tells whether the debug assertion of its lookup holds.
    method AllocRegion(size: nat, vaddr: nat, align: nat, specific: bool, noStart: bool, noEnd: bool, memory: bool)
      returns (status: Status, out: Node?, beside: bool, ghost k: nat)
      requires Valid() && Aligned(size, s.page)
      requires specific ==> Aligned(vaddr, s.page) && NoWrap(s.page, Reference(s.page, vaddr, size))
      requires !specific ==> 0 < size && AlignOk(align) && 0 < align && Aligned(align, s.page)
      modifies this, tree
      ensures Valid()
      ensures status != NoError ==> Contents() == old(Contents()) && out == null
      ensures status == NoError ==> k < |tree.layout.order| && out == tree.layout.order[k]
      ensures var x := Region(vaddr, size, noStart, noEnd);
        specific ==>
          && (status == NoError <==> memory && 0 < size && Inside(s, x) && forall c :: c in old(Contents()) ==> Apart(s.page, c, x))
          && (status == NoError ==> k <= |old(Contents())| && Contents() == old(Contents())[..k] + [x] + old(Contents())[k..])
          && (status == ErrOutOfRange ==> size == 0 || !Inside(s, x))
          && (status == ErrNoMemory && memory && 0 < size ==> exists c :: c in old(Contents()) && !Apart(s.page, c, x))
      ensures beside <==> specific && memory ==> LookupOk(s.page, old(tree.layout), old(Contents()), Reference(s.page, vaddr, size))
      ensures !beside ==> exists c :: c in old(Contents()) && !Apart(s.page, c, Region(vaddr, size, noStart, noEnd))
      ensures status == NoError ==> beside
      ensures !specific ==> (status == ErrInvalidArgs <==> memory && (noStart || noEnd))
      ensures !specific && memory && !noStart && !noEnd ==>
        (status == NoError <==> exists b :: Aligned(b, align) && Free(s, old(Contents()), size, b))
      ensures !specific && status == NoError ==>
        exists b :: Aligned(b, align) && Free(s, old(Contents()), size, b) &&
          k <= |old(Contents())| && Contents() == old(Contents())[..k] + [Region(b, size, false, false)] + old(Contents())[k..]
    {
      hide IsWavl, LookupOk, Topmost, NextApart, Covers, Free;
      out, k, beside := null, 0, true;
      if !memory {
        return ErrNoMemory, null, true, 0;
      }
      var n := new Node();
      if specific {
        var reserved;
        reserved, beside := Find(vaddr, size);
        NotBeside(s, tree.layout, Contents(), vaddr, size, noStart, noEnd);
        if reserved != null {
          FoundOverlaps(s, tree.layout.order, regions, reserved, vaddr, size);
          return ErrNoMemory, null, beside, 0;
        }
        status, k := Add(n, Region(vaddr, size, noStart, noEnd));
        out := if status == NoError then n else null;
      } else {
        if noStart || noEnd {
          return ErrInvalidArgs, null, true, 0;
        }
        status, out, k := AllocAnywhere(n, size, align);
      }
    }

    method AllocAnywhere(n: Node, size: nat, align: nat) returns (status: Status, out: Node?, ghost k: nat)
      requires Valid() && n !in tree.layout.span
      requires Aligned(size, s.page) && 0 < size && AlignOk(align) && 0 < align && Aligned(align, s.page)
      modifies this, tree
      ensures Valid() && status in {NoError, ErrNoMemory}
      ensures status != NoError ==> Contents() == old(Contents()) && out == null
      ensures status == NoError ==> k < |tree.layout.order| && out == tree.layout.order[k]
      ensures status == NoError <==> exists b :: Aligned(b, align) && Free(s, old(Contents()), size, b)
      ensures status == NoError ==>
        exists b :: Aligned(b, align) && Free(s, old(Contents()), size, b) &&
          k <= |old(Contents())| && Contents() == old(Contents())[..k] + [Region(b, size, false, false)] + old(Contents())[k..]
    {
      var visited := ForEvery(tree.mem, tree.layout);
      var rs := Regs(visited, regions);
      var spot;
      ghost var index;
      spot, index := AllocSpot(s, rs, align, size);
      SpotMeaning(s, rs, align, size, spot, index);
      if spot == None {
        return ErrNoMemory, null, 0;
      }
      status, k := Add(n, New(spot.value, size));
      // The kernel asserts that this insertion succeeds.
      assert status == NoError;
      out := n;
    }

    // vmm_free_region_etc
    method FreeRegion(vaddr: nat, size: nat, expand: bool) returns (status: Status, ghost k: nat)
      requires Valid() && NoWrap(s.page, Reference(s.page, vaddr, s.page)) && 0 < size
      modifies this, tree
      ensures Valid() && status in {NoError, ErrNotFound}
      ensures status == NoError <==>
        exists c :: c in old(Contents()) && (if expand then c.base <= vaddr && vaddr + size <= c.base + c.size else c.base == vaddr && c.size == size)
      ensures status == NoError ==> k < |old(Contents())| && Contents() == old(Contents())[..k] + old(Contents())[k + 1..]
      ensures status == NoError ==> var c := old(Contents())[k];
        if expand then c.base <= vaddr && vaddr + size <= c.base + c.size else c.base == vaddr && c.size == size
      ensures status != NoError ==> Contents() == old(Contents())
    {
      k := 0;
      var r;
      MatchPlain(Contents(), vaddr, size, expand);
      hide Matches;
      r, k := FindMatch(vaddr, size, expand);
      if r == null {
        return ErrNotFound, 0;
      }
      RegsRemoved(s, tree.layout.order, regions, k);
      assert Contents()[k] in Contents();
      hide Sorted, IsWavl;
      tree.Delete(r);
      return NoError, k;
    }

    // The lookup of one page.
    method FindPage(vaddr: nat) returns (r: Node?)
      requires Valid() && NoWrap(s.page, Reference(s.page, vaddr, s.page))
      ensures r != null ==> r in tree.layout.order && r in regions
      ensures forall k :: 0 <= k < |Contents()| && Contains(Contents()[k], vaddr) ==> r == tree.layout.order[k]
    {
      var beside;
      r, beside := Find(vaddr, s.page);
      forall k | 0 <= k < |Contents()| && Contains(Contents()[k], vaddr)
        ensures r == tree.layout.order[k]
      {
        LookupMeaning(s, tree.mem, tree.layout, Contents(), vaddr, s.page);
      }
    }

    // The lookup of vmm_free_region_etc and its test of the region.
    method FindMatch(vaddr: nat, size: nat, expand: bool) returns (r: Node?, ghost k: nat)
      requires Valid() && NoWrap(s.page, Reference(s.page, vaddr, s.page)) && 0 < size
      ensures r == null ==> forall c :: c in Contents() ==> !Matches(c, vaddr, size, expand)
      ensures r != null ==> k < |Contents()| && r in tree.layout.span && tree.layout.span[r].pos == k && Matches(Contents()[k], vaddr, size, expand)
    {
      k := 0;
      r := FindPage(vaddr);
      MatchFound(s, tree.layout.order, regions, r, vaddr, size, expand);
      if r == null || !Matches(regions[r], vaddr, size, expand) {
        return null, 0;
      }
      PositionOf(tree.mem, tree.layout, r);
      k := tree.layout.span[r].pos;
    }
  }

  lemma ApartPlain(page: nat, rs: seq<Region>, r: Region)
    ensures (forall c :: c in rs ==> Apart(page, c, r)) ==> Guarded(page, rs, r)
  {
  }

  // There is a page between the region and each other one, unless both do
  // without it.
  ghost predicate Guarded(page: nat, rs: seq<Region>, r: Region) {
    forall c :: c in rs ==>
      || c.base + c.size + (if c.noEnd && r.noStart then 0 else page) <= r.base
      || r.base + r.size + (if r.noEnd && c.noStart then 0 else page) <= c.base
  }

  // Which lookups must find the region with the address, in terms of the
  // addresses alone.
  lemma LookupPlain(s: Bounds, y: WavlLinks.Layout, rs: seq<Region>, vaddr: nat, size: nat, r: Node?)
    requires 0 < s.page && |y.order| == |rs|
    requires forall k :: 0 <= k < |rs| && Covers(rs[k], Reference(s.page, vaddr, size)) ==> r == y.order[k]
    requires forall k :: 0 <= k < |rs| && Contains(rs[k], vaddr) && NextApart(s.page, rs, Reference(s.page, vaddr, size), k) ==> r == y.order[k]
    ensures var from, n := RoundDown(vaddr, s.page), if size == 0 then s.page else size;
      && (forall k :: 0 <= k < |rs| && rs[k].base <= from && from + n <= rs[k].End() ==> r == y.order[k])
      && (forall k :: (0 <= k < |rs| && Contains(rs[k], vaddr)
                       && (k + 1 < |rs| ==> from + n + (if rs[k + 1].noStart then 0 else s.page) <= rs[k + 1].base)) ==>
            r == y.order[k])
  {
    hide RoundDown, Contains;
  }

  lemma MatchPlain(rs: seq<Region>, vaddr: nat, size: nat, expand: bool)
    ensures forall c :: c in rs ==> (Matches(c, vaddr, size, expand) <==>
      if expand then c.base <= vaddr && vaddr + size <= c.base + c.size else c.base == vaddr && c.size == size)
  {
  }

  // vmm_region_is_match
  predicate Matches(c: Region, vaddr: nat, size: nat, expand: bool) {
    if expand then c.base <= vaddr && vaddr + size <= c.End() else c.base == vaddr && c.size == size
  }

  lemma MatchFound(s: Bounds, order: seq<Node>, m: map<Node, Region>, r: Node?, vaddr: nat, size: nat, expand: bool)
    requires Known(order, m) && Sorted(s, Regs(order, m)) && 0 < size
    requires r != null ==> r in order && r in m
    requires forall i :: 0 <= i < |order| && Contains(Regs(order, m)[i], vaddr) ==> r == order[i]
    ensures r == null || !Matches(m[r], vaddr, size, expand) ==> forall c :: c in Regs(order, m) ==> !Matches(c, vaddr, size, expand)
  {
    var rs := Regs(order, m);
    forall i | 0 <= i < |rs| && Matches(rs[i], vaddr, size, expand)
      ensures r == order[i]
    {
      PageWithin(s.page, rs[i], vaddr);
    }
  }

  lemma RegsRemoved(s: Bounds, order: seq<Node>, m: map<Node, Region>, k: nat)
    requires Known(order, m) && Sorted(s, Regs(order, m)) && k < |order|
    ensures var rest := order[..k] + order[k + 1..];
      && Known(rest, m) && Sorted(s, Regs(rest, m))
      && Regs(rest, m) == Regs(order, m)[..k] + Regs(order, m)[k + 1..]
  {
    var rest := order[..k] + order[k + 1..];
    forall i | 0 <= i < |rest|
      ensures rest[i] in m
    {
      assert rest[i] == order[if i < k then i else i + 1];
    }
    RemoveSorted(s, Regs(order, m), k);
    assert Regs(rest, m) == Regs(order, m)[..k] + Regs(order, m)[k + 1..];
  }

  lemma PositionOf(s: Links, y: WavlLinks.Layout, n: Node)
    requires IsWavl(s, y) && n in y.order
    ensures n in y.span && y.span[n].pos < |y.order| && y.order[y.span[n].pos] == n
  {
    assert LinkedAt(s, y, n);
  }

  lemma FoundOverlaps(s: Bounds, order: seq<Node>, m: map<Node, Region>, r: Node, vaddr: nat, size: nat)
    requires s.Ok() && Known(order, m) && r in order && r in m && Aligned(vaddr, s.page) && Contains(m[r], RoundDown(vaddr, s.page))
    ensures m[r] in Regs(order, m)
    ensures 0 < size ==> forall noStart, noEnd :: !Apart(s.page, m[r], Region(vaddr, size, noStart, noEnd))
  {
    var i :| 0 <= i < |order| && order[i] == r;
    assert Regs(order, m)[i] == m[r];
  }

  // A spot is found if and only if there is a free one, and it is free.
  lemma SpotMeaning(s: Bounds, rs: seq<Region>, align: nat, size: nat, spot: Option<nat>, index: nat)
    requires RequestOk(s, rs, align, size)
    requires spot == None <==> Choices(s, rs, 0, align, size) == 0
    requires spot.Some? ==> index < Choices(s, rs, 0, align, size) && spot.value == Choose(s, rs, 0, align, size, index)
    ensures spot == None ==> forall b :: Aligned(b, align) ==> !Free(s, rs, size, b)
    ensures spot.Some? ==> Aligned(spot.value, align) && Aligned(spot.value, s.page) && Free(s, rs, size, spot.value)
  {
    if spot.Some? {
      ChooseFree(s, rs, 0, align, size, index);
    } else {
      forall b | Aligned(b, align)
        ensures !Free(s, rs, size, b)
      {
        if Free(s, rs, size, b) {
          LowestFirst(s, rs, 0, align, size, b);
        }
      }
    }
  }

  // ---------- which region a lookup finds ----------

  // Region k collides with x, and every other that does is beneath it.
  ghost predicate Topmost(page: nat, y: WavlLinks.Layout, rs: seq<Region>, x: Region, k: nat) {
    && k < |rs| && k < |y.order| && !Apart(page, rs[k], x)
    && (forall j :: 0 <= j < |rs| && !Apart(page, rs[j], x) ==> Beneath(y, y.order[k], j))
  }

  // The region that is hit contains the address, or the assertion holds.
  ghost predicate LookupOk(page: nat, y: WavlLinks.Layout, rs: seq<Region>, x: Region) {
    forall k :: 0 <= k < |rs| && Topmost(page, y, rs, x, k) ==> Contains(rs[k], x.base) || rs[k].base <= x.base + page
  }

  // The range does not reach the next region.
  ghost predicate NextApart(page: nat, rs: seq<Region>, x: Region, k: nat)
    requires k < |rs|
  {
    k + 1 == |rs| || Before(page, x, rs[k + 1])
  }

  // x lies within r.
  ghost predicate Covers(r: Region, x: Region) {
    r.base <= x.base && x.End() <= r.End()
  }

  // A range within a region does not reach the next one.
  lemma CoveredNextApart(s: Bounds, rs: seq<Region>, x: Region, k: nat)
    requires Sorted(s, rs) && k < |rs| && 0 < x.size && x.noStart && x.noEnd && Covers(rs[k], x)
    ensures Contains(rs[k], x.base) && NextApart(s.page, rs, x, k)
  {
    if k + 1 < |rs| {
      WithinIsUnique(s, rs, x, k, k + 1);
      AtLeastOnePage(s, rs[k + 1]);
      CmpMeaning(s.page, rs[k + 1], x);
      assert Before(s.page, rs[k], rs[k + 1]);
    }
  }

  // The search hits the topmost region, if any collides.
  lemma SearchMeaning(s: Bounds, t: Links, y: WavlLinks.Layout, m: map<Node, Region>, ref: Node, r: Node?)
    requires IsWavl(t, y) && Known(y.order, m) && Sorted(s, Regs(y.order, m)) && ref in m && NoWrap(s.page, m[ref])
    requires r != null ==> r in y.order && Compare(s.page, m)(r, ref) == 0
    requires r != null ==> forall i :: 0 <= i < |y.order| && Compare(s.page, m)(y.order[i], ref) == 0 ==> Beneath(y, r, i)
    requires r == null ==> forall n :: n in y.order ==> Compare(s.page, m)(n, ref) != 0
    ensures forall k :: 0 <= k < |y.order| ==> (r == y.order[k] <==> Topmost(s.page, y, Regs(y.order, m), m[ref], k))
    ensures r != null ==> r in y.span && y.span[r].pos < |y.order| && y.order[y.span[r].pos] == r && Cmp(s.page, m[r], m[ref]) == 0
  {
    var rs, x := Regs(y.order, m), m[ref];
    forall k | 0 <= k < |y.order|
      ensures Compare(s.page, m)(y.order[k], ref) == 0 <==> !Apart(s.page, rs[k], x)
    {
      AtLeastOnePage(s, rs[k]);
      CmpMeaning(s.page, rs[k], x);
    }
    if r != null {
      PositionOf(t, y, r);
    }
    forall k | 0 <= k < |y.order|
      ensures r == y.order[k] <==> Topmost(s.page, y, rs, x, k)
    {
      if r != null && Topmost(s.page, y, rs, x, k) {
        BeneathOnce(t, y, r, y.span[r].pos, y.order[k], k);
      } else if r == null {
        assert y.order[k] in y.order;
      }
    }
  }

  // A range that begins in region k and does not reach the next one hits it in
  // every tree.
  lemma NextApartTopmost(s: Bounds, t: Links, y: WavlLinks.Layout, rs: seq<Region>, x: Region, k: nat)
    requires IsWavl(t, y) && Sorted(s, rs) && |rs| == |y.order| && k < |rs|
    requires x.noStart && x.noEnd && 0 < x.size && Contains(rs[k], x.base)
    requires NextApart(s.page, rs, x, k) || (|rs| == 3 && k == 1)
    ensures Topmost(s.page, y, rs, x, k)
  {
    AtLeastOnePage(s, rs[k]);
    if |rs| == 3 && k == 1 {
      MiddleOfThree(t, y);
    } else {
      PositionOf(t, y, y.order[k]);
      assert LinkedAt(t, y, y.order[k]);
      forall j | 0 <= j < |rs| && !Apart(s.page, rs[j], x)
        ensures j == k
      {
        if j != k {
          NextDecides(s, rs, x, k, j);
        }
      }
    }
  }

  // Otherwise some tree over the same regions hits another region instead.
  lemma NextHitMisses(s: Bounds, order: seq<Node>, rs: seq<Region>, x: Region, k: nat) returns (t: Links, y: WavlLinks.Layout)
    requires Sorted(s, rs) && |rs| == |order| && Distinct(order) && k < |rs|
    requires x.noStart && x.noEnd && 0 < x.size && Contains(rs[k], x.base)
    requires !NextApart(s.page, rs, x, k) && !(|rs| == 3 && k == 1)
    ensures IsWavl(t, y) && y.order == order && Beneath(y, order[k + 1], k) && !Topmost(s.page, y, rs, x, k)
  {
    t, y := Tilted(order, k, 1);
    var a, b := order[k], order[k + 1];
    assert rs[k + 1].base > rs[k].base && !Apart(s.page, rs[k + 1], x) by {
      AtLeastOnePage(s, rs[k + 1]);
      AtLeastOnePage(s, rs[k]);
      assert Before(s.page, rs[k], rs[k + 1]);
    }
    assert y.span[a].pos == k && y.span[b].pos == k + 1;
    if Topmost(s.page, y, rs, x, k) {
      BeneathOnce(t, y, a, k, b, k + 1);
    }
  }

  // ---------- when the assertion holds in every tree ----------

  ghost predicate HitBy(page: nat, rs: seq<Region>, x: Region, k: nat) {
    k < |rs| && !Apart(page, rs[k], x)
  }

  // A region that collides and begins more than a page after the address.
  ghost predicate Late(page: nat, rs: seq<Region>, x: Region, k: nat) {
    HitBy(page, rs, x, k) && rs[k].base > x.base + page
  }

  ghost predicate FirstHit(page: nat, rs: seq<Region>, x: Region, a: nat) {
    HitBy(page, rs, x, a) && forall j :: 0 <= j < a ==> !HitBy(page, rs, x, j)
  }

  // The first region that collides is not late; and if the next one is, or the
  // one after that, no tree can have it above the first.
  ghost predicate AlwaysBeside(page: nat, rs: seq<Region>, x: Region, a: nat) {
    && !Late(page, rs, x, a)
    && (Late(page, rs, x, a + 1) ==> CannotTilt(|rs|, a, 1))
    && (!Late(page, rs, x, a + 1) && Late(page, rs, x, a + 2) ==> CannotTilt(|rs|, a, 2))
  }

  // The regions that collide are neighbours; once one is late all further ones
  // are, and the third one is.
  lemma HitsConnected(s: Bounds, rs: seq<Region>, x: Region, i: nat, k: nat, j: nat)
    requires Sorted(s, rs) && i <= k <= j && HitBy(s.page, rs, x, i) && HitBy(s.page, rs, x, j)
    ensures HitBy(s.page, rs, x, k)
    ensures Late(s.page, rs, x, i) ==> Late(s.page, rs, x, k)
  {
    AtLeastOnePage(s, rs[k]);
    if i < k {
      AtLeastOnePage(s, rs[i]);
      assert Before(s.page, rs[i], rs[k]);
    }
    if k < j {
      assert Before(s.page, rs[k], rs[j]);
    }
  }

  lemma ThirdLate(s: Bounds, rs: seq<Region>, x: Region, a: nat)
    requires Sorted(s, rs) && x.noStart && HitBy(s.page, rs, x, a) && HitBy(s.page, rs, x, a + 2)
    ensures Late(s.page, rs, x, a + 2)
  {
    AtLeastOnePage(s, rs[a + 1]);
    assert Before(s.page, rs[a], rs[a + 1]) && Before(s.page, rs[a + 1], rs[a + 2]);
  }

  // The assertion holds in every tree over the regions if nothing collides, or
  // under the condition above.
  lemma BesideInEvery(s: Bounds, t: Links, y: WavlLinks.Layout, rs: seq<Region>, x: Region, a: nat)
    requires IsWavl(t, y) && Sorted(s, rs) && |rs| == |y.order| && x.noStart
    requires if a < |rs| then FirstHit(s.page, rs, x, a) && AlwaysBeside(s.page, rs, x, a) else forall j :: 0 <= j < |rs| ==> !HitBy(s.page, rs, x, j)
    ensures LookupOk(s.page, y, rs, x)
  {
    forall k | 0 <= k < |rs| && Topmost(s.page, y, rs, x, k)
      ensures !Late(s.page, rs, x, k)
    {
      assert HitBy(s.page, rs, x, k);
      if a < k {
        assert Beneath(y, y.order[k], a) && Beneath(y, y.order[k], k) by {
          assert HitBy(s.page, rs, x, a);
        }
        if Late(s.page, rs, x, k) {
          NotAboveFirst(s, t, y, rs, x, a, k);
        }
      }
    }
  }

  lemma NotAboveFirst(s: Bounds, t: Links, y: WavlLinks.Layout, rs: seq<Region>, x: Region, a: nat, k: nat)
    requires IsWavl(t, y) && Sorted(s, rs) && |rs| == |y.order| && x.noStart && a < k
    requires FirstHit(s.page, rs, x, a) && AlwaysBeside(s.page, rs, x, a) && Late(s.page, rs, x, k)
    ensures !Beneath(y, y.order[k], a)
  {
    if Late(s.page, rs, x, a + 1) {
      MiddleOfThree(t, y);
      if Beneath(y, y.order[2], 1) {
        BeneathOnce(t, y, y.order[1], 1, y.order[2], 2);
      }
    } else {
      HitsConnected(s, rs, x, a, a + 2, k);
      ThirdLate(s, rs, x, a);
      if Beneath(y, y.order[k], a) {
        if k == |rs| - 1 {
          LastHasOne(t, y, a);
        } else {
          SixNodes(t, y);
        }
      }
    }
  }

  // Otherwise it fails in some tree over the same regions.
  lemma BesideFailsIn(s: Bounds, order: seq<Node>, rs: seq<Region>, x: Region, a: nat) returns (t: Links, y: WavlLinks.Layout)
    requires Sorted(s, rs) && |rs| == |order| && Distinct(order) && FirstHit(s.page, rs, x, a) && !AlwaysBeside(s.page, rs, x, a)
    ensures IsWavl(t, y) && y.order == order && !LookupOk(s.page, y, rs, x)
  {
    var d := if Late(s.page, rs, x, a) then 0 else if Late(s.page, rs, x, a + 1) then 1 else 2;
    if d == 0 {
      t, y := Balanced(order);
      PositionOf(t, y, order[a]);
      assert LinkedAt(t, y, order[a]);
    } else {
      t, y := Tilted(order, a, d);
    }
    LateAbove(s, t, y, rs, x, a, a + d);
  }

  // A late region above the first one that collides: then a late one is hit.
  lemma LateAbove(s: Bounds, t: Links, y: WavlLinks.Layout, rs: seq<Region>, x: Region, a: nat, g: nat)
    requires IsWavl(t, y) && Sorted(s, rs) && |rs| == |y.order| && FirstHit(s.page, rs, x, a)
    requires a <= g && Late(s.page, rs, x, g) && Beneath(y, y.order[g], a)
    ensures !LookupOk(s.page, y, rs, x)
  {
    var b := LastHit(s, rs, x, a, |rs|);
    RootSpan(t, y);
    NotEmpty(t, y, y.order[g]);
    var k := TopOf(t, y, t.root, a, b);
    HitsConnected(s, rs, x, a, k, b);
    if k < g {
      assert y.span[y.order[k]].pos == k && y.span[y.order[g]].pos == g;
      assert LinkedAt(t, y, y.order[g]);
      BeneathOnce(t, y, y.order[k], k, y.order[g], g);
    }
    HitsConnected(s, rs, x, g, k, b);
    TopmostOf(s, y, rs, x, a, b, k);
  }

  lemma TopmostOf(s: Bounds, y: WavlLinks.Layout, rs: seq<Region>, x: Region, a: nat, b: nat, k: nat)
    requires |rs| == |y.order| && FirstHit(s.page, rs, x, a) && a <= k <= b < |rs|
    requires forall j :: b < j < |rs| ==> !HitBy(s.page, rs, x, j)
    requires Late(s.page, rs, x, k) && Beneath(y, y.order[k], a) && Beneath(y, y.order[k], b)
    ensures !LookupOk(s.page, y, rs, x)
  {
    forall j | 0 <= j < |rs| && !Apart(s.page, rs[j], x)
      ensures Beneath(y, y.order[k], j)
    {
      assert HitBy(s.page, rs, x, j);
    }
    assert Topmost(s.page, y, rs, x, k);
  }

  lemma {:induction false} LastHit(s: Bounds, rs: seq<Region>, x: Region, a: nat, n: nat) returns (b: nat)
    requires a < n <= |rs| && HitBy(s.page, rs, x, a) && forall j :: n <= j < |rs| ==> !HitBy(s.page, rs, x, j)
    ensures a <= b < |rs| && HitBy(s.page, rs, x, b) && forall j :: b < j < |rs| ==> !HitBy(s.page, rs, x, j)
    decreases n
  {
    if HitBy(s.page, rs, x, n - 1) {
      b := n - 1;
    } else {
      b := LastHit(s, rs, x, a, n - 1);
    }
  }

  // What the lookup of a range makes of the region that is hit.
  lemma LookupMeaning(s: Bounds, t: Links, y: WavlLinks.Layout, rs: seq<Region>, vaddr: nat, size: nat)
    requires IsWavl(t, y) && Sorted(s, rs) && |rs| == |y.order| && NoWrap(s.page, Reference(s.page, vaddr, size))
    ensures forall k :: 0 <= k < |rs| ==> (Contains(rs[k], vaddr) <==> Contains(rs[k], RoundDown(vaddr, s.page)))
    ensures var x := Reference(s.page, vaddr, size);
      && (forall k :: 0 <= k < |rs| && Covers(rs[k], x) ==> Contains(rs[k], vaddr) && Topmost(s.page, y, rs, x, k))
      && (forall k :: 0 <= k < |rs| && Contains(rs[k], vaddr) && NextApart(s.page, rs, x, k) ==> Topmost(s.page, y, rs, x, k))
      && (size <= s.page ==> forall k :: 0 <= k < |rs| && Contains(rs[k], vaddr) ==> Topmost(s.page, y, rs, x, k))
      && (size <= s.page ==> LookupOk(s.page, y, rs, x))
  {
    var x := Reference(s.page, vaddr, size);
    forall k | 0 <= k < |rs|
      ensures Contains(rs[k], vaddr) <==> Contains(rs[k], x.base)
      ensures Covers(rs[k], x) ==> Contains(rs[k], vaddr) && Topmost(s.page, y, rs, x, k)
      ensures Contains(rs[k], vaddr) && (size <= s.page || NextApart(s.page, rs, x, k)) ==> Topmost(s.page, y, rs, x, k)
      ensures size <= s.page && Topmost(s.page, y, rs, x, k) ==> Contains(rs[k], x.base) || rs[k].base <= x.base + s.page
    {
      PageWithin(s.page, rs[k], vaddr);
      AtLeastOnePage(s, rs[k]);
      CmpMeaning(s.page, rs[k], x);
      if Covers(rs[k], x) {
        CoveredNextApart(s, rs, x, k);
      }
      if Contains(rs[k], vaddr) && (size <= s.page || NextApart(s.page, rs, x, k)) {
        if size <= s.page && k + 1 < |rs| {
          assert Before(s.page, rs[k], rs[k + 1]);
        }
        NextApartTopmost(s, t, y, rs, x, k);
      }
      if size <= s.page && Topmost(s.page, y, rs, x, k) && !Contains(rs[k], x.base) {
        OnlyGuardTouched(s, rs[k], vaddr, size);
        BesideIff(s, rs[k], vaddr, size);
      }
    }
  }

  // The assertion only fails for a request that collides anyway.
  lemma NotBeside(s: Bounds, y: WavlLinks.Layout, rs: seq<Region>, vaddr: nat, size: nat, noStart: bool, noEnd: bool)
    requires Sorted(s, rs) && Aligned(vaddr, s.page) && (size <= s.page ==> LookupOk(s.page, y, rs, Reference(s.page, vaddr, size)))
    ensures !LookupOk(s.page, y, rs, Reference(s.page, vaddr, size)) ==>
      exists c :: c in rs && !Apart(s.page, c, Region(vaddr, size, noStart, noEnd))
  {
    var x := Reference(s.page, vaddr, size);
    if k :| 0 <= k < |rs| && Topmost(s.page, y, rs, x, k) && !(Contains(rs[k], x.base) || rs[k].base <= x.base + s.page) {
      assert rs[k] in rs && !Apart(s.page, rs[k], Region(vaddr, size, noStart, noEnd));
    }
  }

  // Two regions of a page each, with guards, and a tree with the second one at
  // the root: a lookup of three pages from the first one on misses it, and the
  // debug assertion fails.
  lemma LongLookupMisses(na: Node, nb: Node) returns (t: Links, y: WavlLinks.Layout)
    requires na != nb
    ensures var s, a, b := Bounds(4096, 4096, 409600), Region(8192, 4096, false, false), Region(16384, 4096, false, false);
      var x := Reference(4096, 8192, 12288);
      && Sorted(s, [a, b]) && Contains(a, 8192) && IsWavl(t, y) && y.order == [na, nb]
      && Topmost(4096, y, [a, b], x, 1) && !Topmost(4096, y, [a, b], x, 0) && !LookupOk(4096, y, [a, b], x)
  {
    var s, a, b := Bounds(4096, 4096, 409600), Region(8192, 4096, false, false), Region(16384, 4096, false, false);
    var x := Reference(4096, 8192, 12288);
    t, y := NextHitMisses(s, [na, nb], [a, b], x, 0);
    assert na == y.order[0] && nb == y.order[1];
    assert LinkedAt(t, y, nb);
  }
}
